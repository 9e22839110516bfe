/** The pool of a cluster's instances and its reconciliation with service discovery. */
module InstancePool {
  import opened Wrappers
  import opened InstanceHealth

  /** A pool as a map from node id to unique identifier. */
  type Entries = map<string, string>

  ghost predicate InSource(source: seq<Item>, n: string, u: string) {
    exists i :: 0 <= i < |source| && source[i].nodeID == n && source[i].uniqueIdentifier == u
  }

  ghost predicate SourceNode(source: seq<Item>, n: string) {
    exists i :: 0 <= i < |source| && source[i].nodeID == n
  }

  ghost predicate SourceId(source: seq<Item>, u: string) {
    exists i :: 0 <= i < |source| && source[i].uniqueIdentifier == u
  }

  ghost predicate DistinctNodes(source: seq<Item>) {
    forall i, j :: 0 <= i < j < |source| ==> source[i].nodeID != source[j].nodeID
  }

  class Store {
    var instances: map<string, Instance>

    constructor ()
      ensures Valid() && instances == map[]
    {
      instances := map[];
    }

    /** Every instance is stored under its own node id. */
    ghost predicate Valid()
      reads this
    {
      forall n :: n in instances ==> instances[n].nodeID == n
    }

    ghost function Pool(): Entries
      reads this
    {
      map n | n in instances :: instances[n].uniqueIdentifier
    }

    method SourceExists(source: seq<Item>, p: Instance) returns (found: bool)
      ensures found <==> SourceId(source, p.uniqueIdentifier)
    {
      for i := 0 to |source|
        invariant forall j :: 0 <= j < i ==> source[j].uniqueIdentifier != p.uniqueIdentifier
      {
        if source[i].uniqueIdentifier == p.uniqueIdentifier { return true; }
      }
      return false;
    }

    method PoolExists(s: Item) returns (found: bool)
      ensures found <==> s.nodeID in Pool()
    {
      found := s.nodeID in instances;
    }

    /** An instance that cannot be created and synced is not added. */
    method PoolInsert(item: Item, answer: Option<Report>)
      requires Valid()
      modifies this
      ensures Valid()
      ensures Pool() == if answer.Some? then old(Pool())[item.nodeID := item.uniqueIdentifier] else old(Pool())
      ensures answer.None? ==> instances == old(instances)
      ensures answer.Some? ==>
                && item.nodeID in instances && instances == old(instances)[item.nodeID := instances[item.nodeID]]
                && fresh(instances[item.nodeID]) && instances[item.nodeID].uniqueIdentifier == item.uniqueIdentifier
                && instances[item.nodeID].View() == InfoAfter(answer.value, [])
    {
      var r := NewInstance(item, answer);
      if r.None? { return; }
      instances := instances[item.nodeID := r.value];
    }

    method PoolUpdate(p: Instance, answer: Option<Report>)
      modifies p
      ensures p.View() == Synced(old(p.View()), answer)
    {
      var _ := p.Sync(answer);
    }

    method PoolRemove(p: Instance)
      requires Valid()
      modifies this
      ensures Valid() && instances == old(instances) - {p.nodeID}
    {
      instances := instances - {p.nodeID};
    }

    /** The insertion for an item that has found its node missing. */
    method InsertAbsent(
      source: seq<Item>, answers: seq<Option<Report>>, i: nat, ghost was: map<string, Instance>, ghost pool: Entries, ghost todo: set<int>)
      requires Valid() && |answers| == |source| && i < |source| && source[i].nodeID !in pool && was.Keys == pool.Keys
      requires Grown(was, instances) && Progress(pool, source, answers, todo, Pool())
      modifies this
      ensures Valid() && Grown(was, instances) && Progress(pool, source, answers, todo - {i}, Pool())
      ensures forall n :: n in instances ==> (n in old(instances) && instances[n] == old(instances)[n]) || fresh(instances[n])
    {
      ghost var now := Pool();
      PoolInsert(source[i], answers[i]);
      ItemFinished(pool, source, answers, todo, now, i, Pool());
    }

    /**
     The first half of a round.  Every source item checks the pool and, if its node is missing,
     inserts it; the items run at the same time, so any number of checks may come before an
     insertion.  `answers[i]` is the first sync of the instance created for item i.
     */
    method SyncDiscovered(source: seq<Item>, answers: seq<Option<Report>>)
      requires Valid() && |answers| == |source|
      modifies this
      ensures Valid() && Discovered(old(Pool()), source, answers, Pool())
      ensures Grown(old(instances), instances)
      ensures forall n :: n in instances && n !in old(instances) ==> fresh(instances[n])
    {
      var todo, unchecked := Indices(|source|), Indices(|source|);
      ghost var was := instances;
      ghost var pool, now := Pool(), Pool();
      while todo != {}
        invariant unchecked <= todo <= Indices(|source|)
        invariant Valid() && Pool() == now
        invariant forall i :: i in todo - unchecked ==> source[i].nodeID !in pool
        invariant Grown(was, instances) && forall n :: n in instances && n !in was ==> fresh(instances[n])
        invariant Progress(pool, source, answers, todo, now)
        decreases |todo|, |unchecked|
      {
        var i :| i in todo;
        if i in unchecked {
          var found := PoolExists(source[i]);
          unchecked := unchecked - {i};
          if found {
            ItemFinished(pool, source, answers, todo, now, i, now);
            todo := todo - {i};
          }
        } else {
          InsertAbsent(source, answers, i, was, pool, todo);
          todo, now := todo - {i}, Pool();
        }
      }
    }

    /** Syncs an instance that is still discovered, removes any other. */
    method Refresh(source: seq<Item>, p: Instance, answer: Option<Report>) returns (found: bool)
      requires Valid()
      modifies this, p
      ensures Valid() && (found <==> SourceId(source, p.uniqueIdentifier))
      ensures if found then instances == old(instances) && SyncedSince(p, answer) else instances == old(instances) - {p.nodeID}
    {
      found := SourceExists(source, p);
      if found { PoolUpdate(p, answer); } else { PoolRemove(p); }
    }

    /** The instances of the pool, in any order. */
    method PoolList() returns (list: seq<Instance>)
      requires Valid()
      ensures Lists(list, instances)
    {
      list := [];
      var rest := instances.Keys;
      while rest != {}
        invariant rest <= instances.Keys
        invariant forall i, j :: 0 <= i < j < |list| ==> list[i] != list[j]
        invariant forall i :: 0 <= i < |list| ==> list[i].nodeID in instances && list[i].nodeID !in rest && instances[list[i].nodeID] == list[i]
        invariant forall n :: n in instances && n !in rest ==> instances[n] in list
        decreases |rest|
      {
        var n :| n in rest;
        list, rest := list + [instances[n]], rest - {n};
      }
    }

    /**
     The second half of a round.  Every pool instance whose identifier is still discovered is
     synced, the others are removed, in any order.
     */
    method SyncOutdated(source: seq<Item>, answers: string -> Option<Report>)
      requires Valid()
      modifies this, instances.Values
      ensures Valid() && instances == Live(old(instances), source)
      ensures forall n :: n in instances ==> old(allocated(instances[n])) && SyncedSince(instances[n], answers(n))
    {
      var list := PoolList();
      ghost var was := instances;
      for i := 0 to |list|
        invariant Valid() && instances == Visited(was, source, list[..i])
        invariant forall j :: i <= j < |list| ==> unchanged(list[j])
        invariant forall j :: 0 <= j < i ==> SourceId(source, list[j].uniqueIdentifier) ==> SyncedSince(list[j], answers(list[j].nodeID))
      {
        assert forall j :: 0 <= j < |list| && j != i ==> list[j] != list[i];
        VisitOne(was, source, list, i);
        var found := Refresh(source, list[i], answers(list[i].nodeID));
      }
      assert list[..|list|] == list;
    }

    /** One reconciliation round. */
    method Sync(source: seq<Item>, created: seq<Option<Report>>, synced: string -> Option<Report>)
      requires Valid() && |created| == |source|
      modifies this, instances.Values
      ensures Valid() && Round(old(Pool()), source, created, Pool())
    {
      ghost var before := Pool();
      SyncDiscovered(source, created);
      ghost var between := Pool();
      SyncOutdated(source, synced);
      assert Pool() == Kept(between, source);
      HalvesMakeRound(before, source, created, between);
    }
  }

  /** Since the old state, one sync has brought the instance this answer. */
  twostate predicate SyncedSince(p: Instance, new answer: Option<Report>)
    reads p
  {
    p.View() == Synced(old(p.View()), answer)
  }

  /** The list holds every instance of the pool once. */
  ghost predicate Lists(list: seq<Instance>, instances: map<string, Instance>) {
    && (forall i, j :: 0 <= i < j < |list| ==> list[i] != list[j])
    && (forall i :: 0 <= i < |list| ==> list[i].nodeID in instances && instances[list[i].nodeID] == list[i])
    && (forall n :: n in instances ==> instances[n] in list)
  }

  ghost function Live(was: map<string, Instance>, source: seq<Item>): map<string, Instance> {
    map n | n in was && SourceId(source, was[n].uniqueIdentifier) :: was[n]
  }

  /** The pool once the instances in `seen` have been visited. */
  ghost function Visited(was: map<string, Instance>, source: seq<Item>, seen: seq<Instance>): map<string, Instance> {
    map n | n in was && (was[n] !in seen || SourceId(source, was[n].uniqueIdentifier)) :: was[n]
  }

  lemma VisitOne(was: map<string, Instance>, source: seq<Item>, list: seq<Instance>, i: nat)
    requires i < |list| && Lists(list, was) && forall n :: n in was ==> was[n].nodeID == n
    ensures Visited(was, source, list[..i + 1])
            == if SourceId(source, list[i].uniqueIdentifier) then Visited(was, source, list[..i])
               else Visited(was, source, list[..i]) - {list[i].nodeID}
  {
    assert list[..i + 1] == list[..i] + [list[i]];
    assert list[i] in list;
  }

  ghost predicate Grown(was: map<string, Instance>, is_: map<string, Instance>) {
    forall n :: n in was ==> n in is_ && is_[n] == was[n]
  }

  function Indices(n: nat): (r: set<int>)
    ensures forall i :: i in r <==> 0 <= i < n
  {
    if n == 0 then {} else Indices(n - 1) + {n - 1}
  }

  /** What the first half may leave, in the course of it: `todo` are the items that have not finished. */
  ghost predicate Progress(pool: Entries, source: seq<Item>, answers: seq<Option<Report>>, todo: set<int>, now: Entries)
    requires |answers| == |source|
  {
    && (forall n :: n in pool ==> n in now && now[n] == pool[n])
    && (forall n :: n in now && n !in pool ==>
          exists i :: 0 <= i < |source| && answers[i].Some? && source[i].nodeID == n && source[i].uniqueIdentifier == now[n])
    && (forall i :: 0 <= i < |source| && i !in todo && answers[i].Some? ==> source[i].nodeID in now)
  }

  /** An item finishes by finding its node in the pool or by an insertion, which may fail. */
  lemma ItemFinished(
    pool: Entries, source: seq<Item>, answers: seq<Option<Report>>, todo: set<int>, now: Entries, i: int, next: Entries)
    requires |answers| == |source| && 0 <= i < |source| && Progress(pool, source, answers, todo, now)
    requires (next == now && (source[i].nodeID in now || answers[i].None?))
             || (answers[i].Some? && source[i].nodeID !in pool && next == now[source[i].nodeID := source[i].uniqueIdentifier])
    ensures Progress(pool, source, answers, todo - {i}, next)
  {
  }

  /** What the first half leaves: known nodes as they were, and each missing node that could be created, as one of its items. */
  ghost predicate Discovered(pool: Entries, source: seq<Item>, answers: seq<Option<Report>>, now: Entries)
    requires |answers| == |source|
  {
    Progress(pool, source, answers, {}, now)
  }

  ghost function Kept(pool: Entries, source: seq<Item>): Entries {
    map n | n in pool && SourceId(source, pool[n]) :: pool[n]
  }

  /** Some item with this node could be created. */
  ghost predicate CreatedAt(source: seq<Item>, answers: seq<Option<Report>>, n: string)
    requires |answers| == |source|
  {
    exists i :: 0 <= i < |source| && answers[i].Some? && source[i].nodeID == n
  }

  /** Some item with this node and identifier could be created. */
  ghost predicate CreatedAs(source: seq<Item>, answers: seq<Option<Report>>, n: string, u: string)
    requires |answers| == |source|
  {
    exists i :: 0 <= i < |source| && answers[i].Some? && source[i].nodeID == n && source[i].uniqueIdentifier == u
  }

  /** What one round makes of a node: a pool entry stays while its identifier is discovered, and a missing node comes in if it can be created. */
  ghost predicate NodeAfter(pool: Entries, source: seq<Item>, answers: seq<Option<Report>>, now: Entries, n: string)
    requires |answers| == |source|
  {
    if n in pool then (n in now <==> SourceId(source, pool[n])) && (n in now ==> now[n] == pool[n])
    else (n in now <==> CreatedAt(source, answers, n)) && (n in now ==> CreatedAs(source, answers, n, now[n]))
  }

  ghost predicate Round(pool: Entries, source: seq<Item>, answers: seq<Option<Report>>, now: Entries)
    requires |answers| == |source|
  {
    forall n :: NodeAfter(pool, source, answers, now, n)
  }

  /** The two halves make a round. */
  lemma HalvesMakeRound(pool: Entries, source: seq<Item>, answers: seq<Option<Report>>, between: Entries)
    requires |answers| == |source| && Discovered(pool, source, answers, between)
    ensures Round(pool, source, answers, Kept(between, source))
  {
    forall n
      ensures NodeAfter(pool, source, answers, Kept(between, source), n)
    {
      if n !in pool && n in between {
        assert CreatedAs(source, answers, n, between[n]);
        assert SourceId(source, between[n]);
      }
    }
  }

  // ----- Convergence -----

  ghost predicate AllCreated(answers: seq<Option<Report>>) {
    forall i :: 0 <= i < |answers| ==> answers[i].Some?
  }

  /** The pool has the node exactly if it is discovered, and then as it is discovered. */
  ghost predicate Converged(pool: Entries, source: seq<Item>, n: string) {
    (n in pool <==> SourceNode(source, n)) && (n in pool ==> InSource(source, n, pool[n]))
  }

  /** The entry has an identifier that is still discovered, but not at its node: no round touches it. */
  ghost predicate Misplaced(pool: Entries, source: seq<Item>, n: string) {
    n in pool && SourceId(source, pool[n]) && !InSource(source, n, pool[n])
  }

  /** With distinct nodes, a pool converged at every node has exactly the entries of the source. */
  lemma ConvergedMeansEqual(pool: Entries, source: seq<Item>)
    requires DistinctNodes(source)
    ensures (forall n :: Converged(pool, source, n))
            <==> pool.Items == set i | 0 <= i < |source| :: (source[i].nodeID, source[i].uniqueIdentifier)
  {
    var items := set i | 0 <= i < |source| :: (source[i].nodeID, source[i].uniqueIdentifier);
    if forall n :: Converged(pool, source, n) {
      forall n, u
        ensures (n, u) in items <==> (n, u) in pool.Items
      {
        assert Converged(pool, source, n);
      }
      assert forall e :: e in items <==> (e.0, e.1) in pool.Items;
    }
    if pool.Items == items {
      forall n
        ensures Converged(pool, source, n)
      {
        if n in pool {
          assert (n, pool[n]) in pool.Items;
          var i :| 0 <= i < |source| && (source[i].nodeID, source[i].uniqueIdentifier) == (n, pool[n]);
          assert InSource(source, n, pool[n]);
        }
        if SourceNode(source, n) {
          var i :| 0 <= i < |source| && source[i].nodeID == n;
          assert (source[i].nodeID, source[i].uniqueIdentifier) in items;
          assert (source[i].nodeID, source[i].uniqueIdentifier) in pool.Items;
          assert n in pool;
        }
      }
    }
  }

  /** No round leaves an identifier that is not discovered. */
  lemma RoundLeavesNothingStale(pool: Entries, source: seq<Item>, answers: seq<Option<Report>>, now: Entries, n: string)
    requires |answers| == |source| && Round(pool, source, answers, now)
    ensures n in now ==> SourceId(source, now[n])
    ensures Misplaced(now, source, n) <==> Misplaced(pool, source, n)
  {
    assert NodeAfter(pool, source, answers, now, n);
  }

  /**
   With every creation succeeding, one round brings a node to what is discovered exactly when it
   was not misplaced and not in the pool under an identifier that is gone while the node is still
   discovered; in the last case the node is missing.
   */
  lemma OneRoundConvergesIff(pool: Entries, source: seq<Item>, answers: seq<Option<Report>>, now: Entries, n: string)
    requires |answers| == |source| && Round(pool, source, answers, now) && AllCreated(answers)
    ensures SourceNode(source, n) ==> (n !in now <==> n in pool && !SourceId(source, pool[n]))
    ensures Converged(now, source, n)
            <==> !Misplaced(pool, source, n) && !(n in pool && !SourceId(source, pool[n]) && SourceNode(source, n))
  {
    assert NodeAfter(pool, source, answers, now, n);
  }

  /**
   Two rounds over one source, the second with every creation succeeding, bring a node to what
   is discovered exactly when it was not misplaced to begin with.
   */
  lemma TwoRoundsConvergeIff(
    pool: Entries, source: seq<Item>, first: seq<Option<Report>>, between: Entries, second: seq<Option<Report>>, end: Entries, n: string)
    requires |first| == |source| == |second| && AllCreated(second)
    requires Round(pool, source, first, between) && Round(between, source, second, end)
    ensures Converged(end, source, n) <==> !Misplaced(pool, source, n)
  {
    RoundLeavesNothingStale(pool, source, first, between, n);
    OneRoundConvergesIff(between, source, second, end, n);
  }

  /** A converged pool stays as it is, whether or not anything can be created. */
  lemma ConvergedStays(pool: Entries, source: seq<Item>, answers: seq<Option<Report>>, now: Entries)
    requires |answers| == |source| && Round(pool, source, answers, now) && forall n :: Converged(pool, source, n)
    ensures now == pool
  {
    forall n
      ensures n in pool <==> n in now
      ensures n in pool ==> now[n] == pool[n]
    {
      assert NodeAfter(pool, source, answers, now, n) && Converged(pool, source, n);
    }
  }

  /** `pools[k + 1]` comes from `pools[k]` by one round with the creation results `answers[k]`. */
  ghost predicate Rounds(source: seq<Item>, answers: seq<seq<Option<Report>>>, pools: seq<Entries>) {
    && |pools| == |answers| + 1
    && (forall k :: 0 <= k < |answers| ==> |answers[k]| == |source| && Round(pools[k], source, answers[k], pools[k + 1]))
  }

  /**
   Over any number of rounds with creations failing at will, a node that was not misplaced only
   ever holds what is discovered, and is in the pool exactly when it was there after the first
   round or has been created in a later one.
   */
  lemma {:induction false} ManyRounds(source: seq<Item>, answers: seq<seq<Option<Report>>>, pools: seq<Entries>, n: string)
    requires Rounds(source, answers, pools) && |answers| >= 1
    ensures var end := pools[|answers|];
            && (n in end ==> SourceId(source, end[n]) && (InSource(source, n, end[n]) || Misplaced(pools[0], source, n)))
            && (n in end <==> n in pools[1] || exists k :: 1 <= k < |answers| && CreatedAt(source, answers[k], n))
    decreases |answers|
  {
    var last := |answers| - 1;
    RoundLeavesNothingStale(pools[last], source, answers[last], pools[last + 1], n);
    assert NodeAfter(pools[last], source, answers[last], pools[last + 1], n);
    if last > 0 {
      ManyRounds(source, answers[..last], pools[..last + 1], n);
      assert pools[..last + 1][1] == pools[1];
      assert forall k :: 1 <= k < last ==> answers[..last][k] == answers[k];
    }
  }

  /** A misplaced entry stays through any number of rounds. */
  lemma {:induction false} MisplacedForGood(source: seq<Item>, answers: seq<seq<Option<Report>>>, pools: seq<Entries>, n: string)
    requires Rounds(source, answers, pools) && Misplaced(pools[0], source, n)
    ensures Misplaced(pools[|answers|], source, n) && pools[|answers|][n] == pools[0][n]
    decreases |answers|
  {
    if answers != [] {
      var last := |answers| - 1;
      MisplacedForGood(source, answers[..last], pools[..last + 1], n);
      assert NodeAfter(pools[last], source, answers[last], pools[last + 1], n);
    }
  }

  /**
   How one comes about: an instance is discovered on node `a`, and from then on the same identifier
   on node `b`.  However many rounds follow, and whatever they create, the pool keeps it under `a`.
   */
  lemma MovedIdentifier(
    a: string, b: string, u: string, created: Report, first: Entries, answers: seq<seq<Option<Report>>>, pools: seq<Entries>)
    requires a != b
    requires Round(map[], [Item(u, a, "")], [Some(created)], first)
    requires Rounds([Item(u, b, "")], answers, pools) && pools[0] == first
    ensures first == map[a := u]
    ensures a in pools[|answers|] && pools[|answers|][a] == u && !Converged(pools[|answers|], [Item(u, b, "")], a)
  {
    var before, after := [Item(u, a, "")], [Item(u, b, "")];
    forall n
      ensures n in first <==> n == a
      ensures n in first ==> first[n] == u
    {
      assert NodeAfter(map[], before, [Some(created)], first, n);
      assert before[0].nodeID == a;
    }
    assert after[0].uniqueIdentifier == u;
    assert Misplaced(first, after, a);
    MisplacedForGood(after, answers, pools, a);
  }
}
