/** The life of a sandbox's snapshot row over runs of the write queries. */
module SnapshotRows {
  import opened Wrappers
  import opened Store
  import opened StoreInvariants

  /** The columns no later upsert may change. */
  function Frozen(s: SnapshotRow): (EnvId, EnvId, TeamId, bool, Option<bool>, Time) {
    (s.env, s.baseEnv, s.team, s.secure, s.allowInternet, s.createdAt)
  }

  /** A successful upsert adds one default assignment, of its build, to the env of the sandbox's one snapshot row. */
  lemma UpsertAddsOneAssignment(db: Db, now: Time, u: UpsertArgs)
    requires AfterUpsertSnapshot(db, now, u).Ok?
    ensures var d := AfterUpsertSnapshot(db, now, u).value;
            && u.sandbox in d.snapshots && d.snapshots[u.sandbox].env in d.envs
            && db.assignments <= d.assignments && |d.assignments| == |db.assignments| + 1
            && d.assignments - db.assignments
               == {Assignment(u.row, d.snapshots[u.sandbox].env, u.build, DEFAULT_TAG, now)}
  {
    var d := AfterUpsertSnapshot(db, now, u).value;
    var a := Assignment(u.row, d.snapshots[u.sandbox].env, u.build, DEFAULT_TAG, now);
    assert a !in db.assignments by { assert a in db.assignments ==> a.id in RowIds(db.assignments); }
    assert d.assignments == db.assignments + {a};
  }

  /** A successful upsert adds one build, owned by the team of that env, and touches no other build. */
  lemma UpsertAddsOneBuild(db: Db, now: Time, u: UpsertArgs)
    requires AfterUpsertSnapshot(db, now, u).Ok?
    ensures var d := AfterUpsertSnapshot(db, now, u).value;
            && u.build !in db.builds && d.builds.Keys == db.builds.Keys + {u.build}
            && (forall b :: b in db.builds ==> b in d.builds && d.builds[b] == db.builds[b])
            && u.sandbox in d.snapshots && d.snapshots[u.sandbox].env in d.envs
            && d.builds[u.build].team == Some(d.envs[d.snapshots[u.sandbox].env].team)
  {
  }

  /** A successful upsert creates an env only for a new sandbox, refreshes that sandbox's row and leaves the others alone. */
  lemma UpsertRefreshesOneRow(db: Db, now: Time, u: UpsertArgs)
    requires AfterUpsertSnapshot(db, now, u).Ok?
    ensures var d := AfterUpsertSnapshot(db, now, u).value;
            && d.envs.Keys - db.envs.Keys == (if u.sandbox in db.snapshots then {} else {u.template})
            && d.snapshots.Keys == db.snapshots.Keys + {u.sandbox}
            && (forall t :: t in db.snapshots && t != u.sandbox ==> d.snapshots[t] == db.snapshots[t])
            && var s := d.snapshots[u.sandbox];
            && (s.metadata, s.startedAt, s.originNode, s.autoPause, s.config)
               == (u.metadata, u.startedAt, u.originNode, u.autoPause, u.config)
            && Frozen(s) == (if u.sandbox in db.snapshots then Frozen(db.snapshots[u.sandbox])
                             else (u.template, u.baseEnv, u.team, u.secure, u.allowInternet, now))
  {
  }

  /** An upsert succeeds exactly when its generated ids are new and, for a new sandbox, its env is new and its base env exists. */
  lemma UpsertSucceedsIff(db: Db, now: Time, u: UpsertArgs)
    requires Inv(db)
    ensures AfterUpsertSnapshot(db, now, u).Ok?
            <==> && u.build !in db.builds
                 && (forall a :: a in db.assignments ==> a.id != u.row)
                 && (u.sandbox !in db.snapshots ==>
                       u.template !in db.envs && (u.baseEnv in db.envs || u.baseEnv == u.template))
  {
    assert u.row in RowIds(db.assignments) <==> exists a :: a in db.assignments && a.id == u.row;
  }

  ghost predicate DeletesEnvOf(db: Db, s: Stmt, row: SnapshotRow) {
    s.DeleteTemplate? && (s.env == row.env || s.env == row.baseEnv) && Deletes(db, s.env, s.team)
  }

  lemma OthersKeepSnapshots(db: Db, now: Time, st: Stmt)
    requires !st.UpsertSnapshot? && !st.DeleteTemplate? && After(db, now, st).Ok?
    ensures After(db, now, st).value.snapshots == db.snapshots
  {
    LoopShape(db, now, st);
  }

  /** A snapshot row disappears exactly when its env or its base env is deleted, and until then keeps its first values. */
  lemma StepOnSnapshot(db: Db, e: Event, s: SandboxId)
    requires s in db.snapshots
    ensures s !in Step(db, e).snapshots <==> DeletesEnvOf(db, e.stmt, db.snapshots[s])
    ensures s in Step(db, e).snapshots ==> Frozen(Step(db, e).snapshots[s]) == Frozen(db.snapshots[s])
  {
    if !e.stmt.UpsertSnapshot? && !e.stmt.DeleteTemplate? && Outcome(db, e).Ok? {
      OthersKeepSnapshots(Tick(db, e), Now(db, e), e.stmt);
    }
  }

  /** The first k events leave the row there, with its first values. */
  ghost predicate Kept(db: Db, events: seq<Event>, s: SandboxId, k: nat)
    requires s in db.snapshots && k <= |events|
  {
    s in At(db, events, k).snapshots && Frozen(At(db, events, k).snapshots[s]) == Frozen(db.snapshots[s])
  }

  /** The i-th event deletes the env or base env the row had at first. */
  ghost predicate DeletedAt(db: Db, events: seq<Event>, s: SandboxId, i: nat)
    requires s in db.snapshots && i < |events|
  {
    DeletesEnvOf(At(db, events, i), events[i].stmt, db.snapshots[s])
  }

  /** Until the first such deletion the row is kept, and that deletion removes it. */
  lemma {:induction false} RowGoesWithItsEnv(db: Db, events: seq<Event>, s: SandboxId, k: nat)
    requires s in db.snapshots && k <= |events|
    requires forall i :: 0 <= i < k ==> !DeletedAt(db, events, s, i)
    ensures Kept(db, events, s, k)
    ensures k < |events| ==> (s !in At(db, events, k + 1).snapshots <==> DeletedAt(db, events, s, k))
  {
    AtEnds(db, events);
    if k > 0 {
      RowGoesWithItsEnv(db, events, s, k - 1);
      assert !DeletedAt(db, events, s, k - 1);
      AtNext(db, events, k - 1);
      StepOnSnapshot(At(db, events, k - 1), events[k - 1], s);
    }
    if k < |events| {
      AtNext(db, events, k);
      StepOnSnapshot(At(db, events, k), events[k], s);
    }
  }

  /** Over a whole run a row is kept throughout exactly when neither its env nor its base env is deleted by the team that owns it. */
  lemma RunOnSnapshot(db: Db, events: seq<Event>, s: SandboxId)
    requires s in db.snapshots
    ensures (forall k :: 0 <= k <= |events| ==> Kept(db, events, s, k))
            <==> (forall i :: 0 <= i < |events| ==> !DeletedAt(db, events, s, i))
  {
    if forall i :: 0 <= i < |events| ==> !DeletedAt(db, events, s, i) {
      forall k | 0 <= k <= |events|
        ensures Kept(db, events, s, k)
      {
        RowGoesWithItsEnv(db, events, s, k);
      }
    } else {
      var i := FirstDeletion(db, events, s);
      RowGoesWithItsEnv(db, events, s, i);
      assert !Kept(db, events, s, i + 1);
    }
  }

  lemma {:induction false} FirstDeletion(db: Db, events: seq<Event>, s: SandboxId) returns (i: nat)
    requires s in db.snapshots && exists i :: 0 <= i < |events| && DeletedAt(db, events, s, i)
    ensures i < |events| && DeletedAt(db, events, s, i) && forall j :: 0 <= j < i ==> !DeletedAt(db, events, s, j)
  {
    i := 0;
    while !DeletedAt(db, events, s, i)
      invariant i < |events|
      invariant forall j :: 0 <= j < i ==> !DeletedAt(db, events, s, j)
      decreases |events| - i
    {
      var k :| 0 <= k < |events| && DeletedAt(db, events, s, k);
      assert k >= i;
      assert k != i;
      i := i + 1;
    }
  }

  /** The env ids a statement may create. */
  function Creates(s: Stmt): set<EnvId> {
    match s
    case UpsertSnapshot(u) => {u.template}
    case CreateSnapshotTemplateEnv(c) => {c.env}
    case RegisterBuild(r) => {r.env}
    case _ => {}
  }

  lemma OthersCreateNothing(db: Db, now: Time, st: Stmt)
    requires Creates(st) == {} && After(db, now, st).Ok?
    ensures After(db, now, st).value.envs.Keys <= db.envs.Keys
  {
    LoopShape(db, now, st);
  }

  lemma StepCreates(db: Db, e: Event)
    ensures Step(db, e).envs.Keys <= db.envs.Keys + Creates(e.stmt)
  {
    if Outcome(db, e).Ok? {
      if Creates(e.stmt) == {} {
        OthersCreateNothing(Tick(db, e), Now(db, e), e.stmt);
      } else if e.stmt.RegisterBuild? {
        LoopShape(Tick(db, e), Now(db, e), e.stmt);
      }
    }
  }

  /** The placeholder '' that the upsert writes into env_id never becomes visible. */
  lemma {:induction false} NoPlaceholder(db: Db, events: seq<Event>)
    requires Inv(db) && "" !in db.envs
    requires forall i :: 0 <= i < |events| ==> "" !in Creates(events[i].stmt)
    ensures "" !in Run(db, events).envs
    ensures forall s :: s in Run(db, events).snapshots ==> Run(db, events).snapshots[s].env != ""
    decreases |events|
  {
    if events != [] {
      assert "" !in Creates(events[0].stmt);
      StepKeepsInv(db, events[0]);
      StepCreates(db, events[0]);
      NoPlaceholder(Step(db, events[0]), events[1..]);
    }
  }
}
