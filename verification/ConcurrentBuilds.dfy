/** Starting a build cancels the other builds in progress on the same template and tag. */
module ConcurrentBuilds {
  import opened Wrappers
  import opened Store
  import opened StoreInvariants

  /** The build has an assignment to the env under the tag. */
  predicate HasTag(db: Db, env: EnvId, build: BuildId, tag: Tag) {
    exists a :: a in db.assignments && a.env == env && a.build == build && a.tag == tag
  }

  /** GetConcurrentTemplateBuilds; DISTINCT makes it a set. */
  function Concurrent(db: Db, env: EnvId, current: BuildId): set<BuildId> {
    set a | && a in db.assignments && a.env == env && a.build != current
            && (HasGroup(db, a.build, PendingGroup) || HasGroup(db, a.build, InProgressGroup))
            && HasTag(db, env, current, a.tag) :: a.build
  }

  predicate Unfinished(db: Db, build: BuildId) {
    build in db.builds && !Finished(db.builds[build].status)
  }

  ghost predicate ShareTag(db: Db, env: EnvId, a: BuildId, b: BuildId) {
    exists t: Tag :: HasTag(db, env, a, t) && HasTag(db, env, b, t)
  }

  /** A build is listed exactly when it is another unfinished build that shares a tag with the current one on that template. */
  lemma ConcurrentMeaning(db: Db, env: EnvId, current: BuildId, other: BuildId)
    ensures other in Concurrent(db, env, current)
            <==> other != current && Unfinished(db, other) && ShareTag(db, env, current, other)
  {
    if other in Concurrent(db, env, current) {
      var a :| a in db.assignments && a.env == env && a.build == other && HasTag(db, env, current, a.tag);
      assert HasTag(db, env, other, a.tag);
    }
    if other != current && Unfinished(db, other) && ShareTag(db, env, current, other) {
      var t: Tag :| HasTag(db, env, current, t) && HasTag(db, env, other, t);
      var a :| a in db.assignments && a.env == env && a.build == other && a.tag == t;
    }
  }

  /** The same in plain status texts and rows. */
  lemma ConcurrentLiterally(db: Db, env: EnvId, current: BuildId, other: BuildId)
    ensures other in Concurrent(db, env, current)
            <==> && other != current && other in db.builds
                 && db.builds[other].status in {Pending, Waiting, InProgress, Building, Snapshotting}
                 && exists x, y :: && x in db.assignments && y in db.assignments && x.env == env && y.env == env
                                   && x.build == current && y.build == other && x.tag == y.tag
  {
    ConcurrentMeaning(db, env, current, other);
    if ShareTag(db, env, current, other) {
      var t: Tag :| HasTag(db, env, current, t) && HasTag(db, env, other, t);
      var x :| x in db.assignments && x.env == env && x.build == current && x.tag == t;
      var y :| y in db.assignments && y.env == env && y.build == other && y.tag == t;
    }
    if x, y :| && x in db.assignments && y in db.assignments && x.env == env && y.env == env
               && x.build == current && y.build == other && x.tag == y.tag {
      assert HasTag(db, env, current, x.tag) && HasTag(db, env, other, x.tag);
    }
  }

  /** Conflicts are mutual between unfinished builds: whichever is started later sees the other. */
  lemma ConflictIsSymmetric(db: Db, env: EnvId, a: BuildId, b: BuildId)
    requires Unfinished(db, a) && Unfinished(db, b)
    ensures a in Concurrent(db, env, b) <==> b in Concurrent(db, env, a)
  {
    ConcurrentMeaning(db, env, a, b);
    ConcurrentMeaning(db, env, b, a);
  }

  /** The event takes the tag's rows away from the template. */
  predicate Untags(db: Db, e: Event, env: EnvId, tag: Tag) {
    (e.stmt.DeleteTemplate? && e.stmt.env == env && Deletes(db, env, e.stmt.team))
    || (e.stmt.DeleteTags? && e.stmt.env == env && tag in e.stmt.tags)
  }

  /** The event gives the build a row under the tag. */
  predicate Assigns(db: Db, e: Event, env: EnvId, build: BuildId, tag: Tag) {
    Outcome(db, e).Ok? &&
    match e.stmt
    case UpsertSnapshot(u) =>
      build == u.build && tag == DEFAULT_TAG && env == if u.sandbox in db.snapshots then db.snapshots[u.sandbox].env else u.template
    case CreateSnapshotTemplateEnv(c) => env == c.env && Some(build) == c.build && tag == c.tag
    case RegisterBuild(r) => env == r.env && build == r.build && exists t :: t in Assigned(r) && t.tag == tag
    case AssignTags(en, b, rows) => env == en && build == b && exists t :: t in rows && t.tag == tag
    case _ => false
  }

  lemma RowsGiveTag(now: Time, env: EnvId, build: BuildId, rows: seq<TagRow>, tag: Tag)
    ensures (exists a :: a in RowsOfTags(now, env, build, rows) && a.tag == tag) <==> exists t :: t in rows && t.tag == tag
  {
    forall t | t in rows && t.tag == tag
      ensures exists a :: a in RowsOfTags(now, env, build, rows) && a.tag == tag
    {
      assert Assignment(t.row, env, build, t.tag, now) in RowsOfTags(now, env, build, rows);
    }
  }

  /** A loop over tags gives them to its build and takes none away. */
  lemma LoopOnTag(db: Db, e: Event, env: EnvId, build: BuildId, tag: Tag)
    requires (e.stmt.RegisterBuild? || e.stmt.AssignTags?) && Outcome(db, e).Ok?
    ensures HasTag(Step(db, e), env, build, tag) <==> Assigns(db, e, env, build, tag) || HasTag(db, env, build, tag)
  {
    LoopShape(Tick(db, e), Now(db, e), e.stmt);
    var rows := if e.stmt.RegisterBuild? then Assigned(e.stmt.register) else e.stmt.rows;
    var en := if e.stmt.RegisterBuild? then e.stmt.register.env else e.stmt.env;
    var b := if e.stmt.RegisterBuild? then e.stmt.register.build else e.stmt.build;
    var added := RowsOfTags(Now(db, e), en, b, rows);
    RowsGiveTag(Now(db, e), en, b, rows, tag);
    assert Step(db, e).assignments == db.assignments + added;
    if a :| a in added && a.tag == tag { assert a.env == en && a.build == b && a in Step(db, e).assignments; }
    if HasTag(db, env, build, tag) {
      var a :| a in db.assignments && a.env == env && a.build == build && a.tag == tag;
      assert a in Step(db, e).assignments;
    }
  }

  lemma SingleOnTag(db: Db, e: Event, env: EnvId, build: BuildId, tag: Tag)
    requires (e.stmt.UpsertSnapshot? || e.stmt.CreateSnapshotTemplateEnv?) && Outcome(db, e).Ok?
    ensures HasTag(Step(db, e), env, build, tag) <==> Assigns(db, e, env, build, tag) || HasTag(db, env, build, tag)
  {
    var now, d := Now(db, e), Step(db, e);
    var a := match e.stmt
             case UpsertSnapshot(u) =>
               Assignment(u.row, if u.sandbox in db.snapshots then db.snapshots[u.sandbox].env else u.template, u.build, DEFAULT_TAG, now)
             case CreateSnapshotTemplateEnv(c) => Assignment(c.row, c.env, c.build.value, c.tag, now);
    assert d.assignments == db.assignments + {a};
    if HasTag(db, env, build, tag) {
      var b :| b in db.assignments && b.env == env && b.build == build && b.tag == tag;
      assert b in d.assignments;
    }
    assert a in d.assignments;
  }

  lemma DeletionOnTag(db: Db, e: Event, env: EnvId, build: BuildId, tag: Tag)
    requires e.stmt.DeleteTemplate? || e.stmt.DeleteTags?
    ensures HasTag(Step(db, e), env, build, tag) <==> HasTag(db, env, build, tag) && !Untags(db, e, env, tag)
  {
    var d := Step(db, e);
    assert forall a :: a in d.assignments && a.env == env && a.tag == tag
             <==> a in db.assignments && a.env == env && a.tag == tag && !Untags(db, e, env, tag);
  }

  lemma OthersKeepAssignments(db: Db, e: Event)
    requires IsUpdate(e.stmt) || e.stmt.CreateAlias? || e.stmt.UpsertAlias?
    ensures Step(db, e).assignments == db.assignments
  {
    if IsUpdate(e.stmt) { UpdateShape(Tick(db, e), Now(db, e), e.stmt); }
  }

  /** For every statement: a build is tagged afterwards exactly when the statement tagged it, or it was tagged and the statement left the tag alone. */
  lemma StepOnTag(db: Db, e: Event, env: EnvId, build: BuildId, tag: Tag)
    ensures HasTag(Step(db, e), env, build, tag)
            <==> Assigns(db, e, env, build, tag) || (HasTag(db, env, build, tag) && !Untags(db, e, env, tag))
  {
    if e.stmt.RegisterBuild? || e.stmt.AssignTags? {
      if Outcome(db, e).Ok? { LoopOnTag(db, e, env, build, tag); }
    } else if e.stmt.UpsertSnapshot? || e.stmt.CreateSnapshotTemplateEnv? {
      if Outcome(db, e).Ok? { SingleOnTag(db, e, env, build, tag); }
    } else if e.stmt.DeleteTemplate? || e.stmt.DeleteTags? {
      DeletionOnTag(db, e, env, build, tag);
    } else {
      OthersKeepAssignments(db, e);
    }
  }

  /** The build had the tag at first, for i = 0, or got it from the event before i. */
  ghost predicate GetsTag(db: Db, events: seq<Event>, env: EnvId, build: BuildId, tag: Tag, i: nat)
    requires i <= |events|
  {
    if i == 0 then HasTag(db, env, build, tag) else Assigns(At(db, events, i - 1), events[i - 1], env, build, tag)
  }

  ghost predicate Undisturbed(db: Db, events: seq<Event>, env: EnvId, tag: Tag, i: nat, k: nat)
    requires i <= k <= |events|
  {
    forall j :: i <= j < k ==> !Untags(At(db, events, j), events[j], env, tag)
  }

  /** It got the tag there, and none of the events from i up to k untags it. */
  ghost predicate TaggedSince(db: Db, events: seq<Event>, env: EnvId, build: BuildId, tag: Tag, i: nat, k: nat)
    requires i <= k <= |events|
  {
    GetsTag(db, events, env, build, tag, i) && Undisturbed(db, events, env, tag, i, k)
  }

  ghost predicate Holds(db: Db, events: seq<Event>, env: EnvId, build: BuildId, tag: Tag, k: nat)
    requires k <= |events|
  {
    exists i :: 0 <= i <= k && TaggedSince(db, events, env, build, tag, i, k)
  }

  /** Over every run: a build has a tag exactly when it got it, or had it at first, and it has not been untagged since. */
  lemma {:induction false} RunOnTag(db: Db, events: seq<Event>, env: EnvId, build: BuildId, tag: Tag, k: nat)
    requires k <= |events|
    ensures HasTag(At(db, events, k), env, build, tag) <==> Holds(db, events, env, build, tag, k)
  {
    if k == 0 {
      TagAtFirst(db, events, env, build, tag);
    } else {
      RunOnTag(db, events, env, build, tag, k - 1);
      TagNext(db, events, env, build, tag, k - 1);
      HoldsNext(db, events, env, build, tag, k - 1);
    }
  }

  lemma TagAtFirst(db: Db, events: seq<Event>, env: EnvId, build: BuildId, tag: Tag)
    ensures HasTag(At(db, events, 0), env, build, tag) <==> Holds(db, events, env, build, tag, 0)
  {
    AtEnds(db, events);
    assert HasTag(db, env, build, tag) <==> TaggedSince(db, events, env, build, tag, 0, 0);
  }

  lemma TagNext(db: Db, events: seq<Event>, env: EnvId, build: BuildId, tag: Tag, k: nat)
    requires k < |events|
    ensures HasTag(At(db, events, k + 1), env, build, tag)
            <==> || Assigns(At(db, events, k), events[k], env, build, tag)
                 || (HasTag(At(db, events, k), env, build, tag) && !Untags(At(db, events, k), events[k], env, tag))
  {
    AtNext(db, events, k);
    StepOnTag(At(db, events, k), events[k], env, build, tag);
  }

  lemma HoldsNext(db: Db, events: seq<Event>, env: EnvId, build: BuildId, tag: Tag, k: nat)
    requires k < |events|
    ensures Holds(db, events, env, build, tag, k + 1)
            <==> || Assigns(At(db, events, k), events[k], env, build, tag)
                 || (Holds(db, events, env, build, tag, k) && !Untags(At(db, events, k), events[k], env, tag))
  {
    NewlyTagged(db, events, env, build, tag, k);
    if Holds(db, events, env, build, tag, k + 1) {
      var i :| 0 <= i <= k + 1 && TaggedSince(db, events, env, build, tag, i, k + 1);
      if i <= k {
        UndisturbedNext(db, events, env, tag, i, k);
        assert TaggedSince(db, events, env, build, tag, i, k);
      }
    }
    if Holds(db, events, env, build, tag, k) {
      var i :| 0 <= i <= k && TaggedSince(db, events, env, build, tag, i, k);
      UndisturbedNext(db, events, env, tag, i, k);
      assert !Untags(At(db, events, k), events[k], env, tag) ==> TaggedSince(db, events, env, build, tag, i, k + 1);
    }
  }

  lemma NewlyTagged(db: Db, events: seq<Event>, env: EnvId, build: BuildId, tag: Tag, k: nat)
    requires k < |events|
    ensures TaggedSince(db, events, env, build, tag, k + 1, k + 1) <==> Assigns(At(db, events, k), events[k], env, build, tag)
  {
  }

  lemma UndisturbedNext(db: Db, events: seq<Event>, env: EnvId, tag: Tag, i: nat, k: nat)
    requires i <= k < |events|
    ensures Undisturbed(db, events, env, tag, i, k + 1)
            <==> Undisturbed(db, events, env, tag, i, k) && !Untags(At(db, events, k), events[k], env, tag)
  {
  }

  /**
   After every run the later start sees the other build exactly when that one is unfinished and
   there is a tag that both have got, or had, and that has not been taken away since.
   */
  lemma LaterStartSeesTheOther(db: Db, events: seq<Event>, env: EnvId, a: BuildId, b: BuildId)
    ensures b in Concurrent(Run(db, events), env, a)
            <==> && b != a && Unfinished(Run(db, events), b)
                 && exists t: Tag :: Holds(db, events, env, a, t, |events|) && Holds(db, events, env, b, t, |events|)
  {
    var d := Run(db, events);
    AtEnds(db, events);
    forall t: Tag
      ensures HasTag(d, env, a, t) <==> Holds(db, events, env, a, t, |events|)
      ensures HasTag(d, env, b, t) <==> Holds(db, events, env, b, t, |events|)
    {
      RunOnTag(db, events, env, a, t, |events|);
      RunOnTag(db, events, env, b, t, |events|);
    }
    ConcurrentMeaning(d, env, a, b);
  }

  /** In particular: two builds that share a tag no event takes away see each other at every later time, as long as they are unfinished. */
  lemma SharedTagKeepsThemInSight(db: Db, events: seq<Event>, env: EnvId, a: BuildId, b: BuildId, tag: Tag)
    requires a != b && HasTag(db, env, a, tag) && HasTag(db, env, b, tag)
    requires forall j :: 0 <= j < |events| ==> !Untags(At(db, events, j), events[j], env, tag)
    ensures b in Concurrent(Run(db, events), env, a) <==> Unfinished(Run(db, events), b)
    ensures a in Concurrent(Run(db, events), env, b) <==> Unfinished(Run(db, events), a)
  {
    assert TaggedSince(db, events, env, a, tag, 0, |events|) && TaggedSince(db, events, env, b, tag, 0, |events|);
    assert Holds(db, events, env, a, tag, |events|) && Holds(db, events, env, b, tag, |events|);
    LaterStartSeesTheOther(db, events, env, a, b);
    LaterStartSeesTheOther(db, events, env, b, a);
  }

  /** And deleting tags hides two builds from each other exactly when it leaves them no shared tag, however busy they are. */
  lemma UntaggingHidesTheOther(db: Db, delay: nat, env: EnvId, tags: seq<Tag>, a: BuildId, b: BuildId)
    requires b in Concurrent(db, env, a)
    ensures b !in Concurrent(Step(db, Event(delay, DeleteTags(env, tags))), env, a)
            <==> forall t: Tag :: HasTag(db, env, a, t) && HasTag(db, env, b, t) ==> t in tags
  {
    var e := Event(delay, DeleteTags(env, tags));
    forall t: Tag
      ensures HasTag(Step(db, e), env, a, t) <==> HasTag(db, env, a, t) && t !in tags
      ensures HasTag(Step(db, e), env, b, t) <==> HasTag(db, env, b, t) && t !in tags
    {
      StepOnTag(db, e, env, a, t);
      StepOnTag(db, e, env, b, t);
    }
    ConcurrentMeaning(db, env, a, b);
    ConcurrentMeaning(Step(db, e), env, a, b);
  }

  datatype DeleteBuild = DeleteBuild(template: EnvId, build: BuildId, cluster: RowId, node: string)

  predicate ToCancel(db: Db, build: BuildId) {
    HasGroup(db, build, InProgressGroup) && db.builds[build].node.Some?
  }

  /** Starting `current` cancels `b`. */
  predicate Cancels(db: Db, env: EnvId, current: BuildId, b: BuildId) {
    b in Concurrent(db, env, current) && ToCancel(db, b)
  }

  /**
   CheckAndCancelConcurrentBuilds up to the call of the template manager: `rows` is the
   query's answer in whatever order; None means that no cancelling call is made.
   */
  method CancelList(db: Db, env: EnvId, current: BuildId, cluster: RowId, rows: seq<BuildId>)
    returns (cancel: Option<seq<DeleteBuild>>)
    requires forall b :: b in rows <==> b in Concurrent(db, env, current)
    requires forall i, j :: 0 <= i < j < |rows| ==> rows[i] != rows[j]
    ensures cancel.None? <==> Concurrent(db, env, current) == {}
    ensures cancel.Some? ==>
              && (forall i, j :: 0 <= i < j < |cancel.value| ==> cancel.value[i].build != cancel.value[j].build)
              && (forall d :: d in cancel.value ==>
                    && d.build != current && ShareTag(db, env, current, d.build) && ToCancel(db, d.build)
                    && d == DeleteBuild(env, d.build, cluster, db.builds[d.build].node.value))
              && (forall b :: b != current && ShareTag(db, env, current, b) && ToCancel(db, b) ==>
                    exists d :: d in cancel.value && d.build == b)
    ensures forall b :: Cancels(db, env, current, b) <==> cancel.Some? && exists d :: d in cancel.value && d.build == b
  {
    forall b
      ensures b in rows <==> b != current && Unfinished(db, b) && ShareTag(db, env, current, b)
    {
      ConcurrentMeaning(db, env, current, b);
    }
    if |rows| == 0 {
      assert Concurrent(db, env, current) == {};
      return None;
    }
    assert rows[0] in Concurrent(db, env, current);
    var buildIDs: seq<DeleteBuild> := [];
    for i := 0 to |rows|
      invariant forall d :: d in buildIDs ==>
                  d.build in rows[..i] && ToCancel(db, d.build) && d == DeleteBuild(env, d.build, cluster, db.builds[d.build].node.value)
      invariant forall k :: 0 <= k < i && ToCancel(db, rows[k]) ==> exists d :: d in buildIDs && d.build == rows[k]
      invariant forall j, k :: 0 <= j < k < |buildIDs| ==> buildIDs[j].build != buildIDs[k].build
    {
      var b := rows[i];
      assert b in Concurrent(db, env, current);
      if GroupOf(db.builds[b].status) == InProgressGroup {
        var node := db.builds[b].node;
        if node.Some? {
          ghost var before := buildIDs;
          assert forall d :: d in before ==> d.build != b;
          var added := DeleteBuild(env, b, cluster, node.value);
          buildIDs := buildIDs + [added];
          assert added in buildIDs && forall d :: d in before ==> d in buildIDs;
        }
      }
    }
    assert rows[..|rows|] == rows;
    forall b | b != current && ShareTag(db, env, current, b) && ToCancel(db, b)
      ensures exists d :: d in buildIDs && d.build == b
    {
      assert b in rows;
      var k :| 0 <= k < |rows| && rows[k] == b;
    }
    forall b
      ensures Cancels(db, env, current, b) <==> b != current && ShareTag(db, env, current, b) && ToCancel(db, b)
    {
      ConcurrentMeaning(db, env, current, b);
    }
    return Some(buildIDs);
  }
}
