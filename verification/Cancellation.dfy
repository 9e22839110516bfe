/** When the start of a build cancels another one, over a run. */
module Cancellation {
  import opened Wrappers
  import opened Store
  import opened StoreInvariants
  import opened ConcurrentBuilds

  /** The status the event gives the build, if any. */
  function Writes(db: Db, e: Event, b: BuildId): Option<Status> {
    if Outcome(db, e).Err? then None
    else
      match e.stmt
      case UpsertSnapshot(u) => if b == u.build then Some(u.status) else None
      case RegisterBuild(r) =>
        if b == r.build then Some(Waiting) else if b in Unstarted(db, r.env, Tags(Assigned(r))) then Some(Failed) else None
      case UpdateStatus(c, status, _) => if b == c && b in db.builds then Some(status) else None
      case FailAndDeactivate(c, status, _) => if b == c && b in db.builds then Some(status) else None
      case FinishBuild(c, status) => if b == c && b in db.builds then Some(status) else None
      case _ => None
  }

  /** The build's group after the event: that of the status written, or the one it had. */
  ghost predicate GroupFollows(db: Db, e: Event, b: BuildId) {
    forall g :: HasGroup(Step(db, e), b, g)
      <==> match Writes(db, e, b) case Some(status) => GroupOf(status) == g case None => HasGroup(db, b, g)
  }

  lemma RegisterWrites(db: Db, e: Event, b: BuildId)
    requires e.stmt.RegisterBuild? && Outcome(db, e).Ok?
    ensures GroupFollows(db, e, b)
  {
    var t, now, r := Tick(db, e), Now(db, e), e.stmt.register;
    var d1 := AfterCreateOrUpdateTemplate(t, r.env, r.team);
    assert Unstarted(d1, r.env, Tags(Assigned(r))) == Unstarted(db, r.env, Tags(Assigned(r))) by {
      assert forall c :: HasGroup(d1, c, PendingGroup) <==> HasGroup(db, c, PendingGroup);
    }
    RegisterShape(t, now, r);
    assert b in BeforeAlias(t, now, r).builds ==> Step(db, e).builds[b].status == BeforeAlias(t, now, r).builds[b].status;
  }

  lemma UpsertWrites(db: Db, e: Event, b: BuildId)
    requires e.stmt.UpsertSnapshot? && Outcome(db, e).Ok?
    ensures GroupFollows(db, e, b)
  {
  }

  lemma UpdateWrites(db: Db, e: Event, b: BuildId)
    requires IsUpdate(e.stmt)
    ensures GroupFollows(db, e, b)
  {
  }

  lemma OthersWriteNothing(db: Db, e: Event, b: BuildId)
    requires !e.stmt.RegisterBuild? && !e.stmt.UpsertSnapshot? && !IsUpdate(e.stmt)
    ensures GroupFollows(db, e, b)
  {
    if Outcome(db, e).Ok? { LoopShape(Tick(db, e), Now(db, e), e.stmt); }
  }

  lemma StepOnGroup(db: Db, e: Event, b: BuildId)
    ensures GroupFollows(db, e, b)
  {
    if IsUpdate(e.stmt) {
      UpdateWrites(db, e, b);
    } else if e.stmt.RegisterBuild? {
      if Outcome(db, e).Ok? { RegisterWrites(db, e, b); }
    } else if e.stmt.UpsertSnapshot? {
      if Outcome(db, e).Ok? { UpsertWrites(db, e, b); }
    } else {
      OthersWriteNothing(db, e, b);
    }
  }

  /** The build was in the group at first, for i = 0, or was put into it by the event before i. */
  ghost predicate PutInto(db: Db, events: seq<Event>, b: BuildId, g: StatusGroup, i: nat)
    requires i <= |events|
  {
    if i == 0 then HasGroup(db, b, g)
    else
      var written := Writes(At(db, events, i - 1), events[i - 1], b);
      written.Some? && GroupOf(written.value) == g
  }

  ghost predicate Unwritten(db: Db, events: seq<Event>, b: BuildId, i: nat, k: nat)
    requires i <= k <= |events|
  {
    forall j :: i <= j < k ==> Writes(At(db, events, j), events[j], b).None?
  }

  /** It was put into the group there, and none of the events from i up to k writes its status. */
  ghost predicate GroupSince(db: Db, events: seq<Event>, b: BuildId, g: StatusGroup, i: nat, k: nat)
    requires i <= k <= |events|
  {
    PutInto(db, events, b, g, i) && Unwritten(db, events, b, i, k)
  }

  /** The last report about the build puts it into the group. */
  ghost predicate LastReported(db: Db, events: seq<Event>, b: BuildId, g: StatusGroup, k: nat)
    requires k <= |events|
  {
    exists i :: 0 <= i <= k && GroupSince(db, events, b, g, i, k)
  }

  lemma UnwrittenNext(db: Db, events: seq<Event>, b: BuildId, i: nat, k: nat)
    requires i <= k < |events|
    ensures Unwritten(db, events, b, i, k + 1) <==> Unwritten(db, events, b, i, k) && Writes(At(db, events, k), events[k], b).None?
  {
  }

  lemma LastReportedNext(db: Db, events: seq<Event>, b: BuildId, g: StatusGroup, k: nat)
    requires k < |events|
    ensures var written := Writes(At(db, events, k), events[k], b);
            LastReported(db, events, b, g, k + 1)
            <==> if written.Some? then GroupOf(written.value) == g else LastReported(db, events, b, g, k)
  {
    var written := Writes(At(db, events, k), events[k], b);
    assert GroupSince(db, events, b, g, k + 1, k + 1) <==> written.Some? && GroupOf(written.value) == g;
    if LastReported(db, events, b, g, k + 1) {
      var i :| 0 <= i <= k + 1 && GroupSince(db, events, b, g, i, k + 1);
      if i <= k {
        UnwrittenNext(db, events, b, i, k);
        assert GroupSince(db, events, b, g, i, k);
      }
    }
    if LastReported(db, events, b, g, k) {
      var i :| 0 <= i <= k && GroupSince(db, events, b, g, i, k);
      UnwrittenNext(db, events, b, i, k);
      assert written.None? ==> GroupSince(db, events, b, g, i, k + 1);
    }
  }

  /** Over every run: a build is in a group exactly when the last status written for it, or else its first one, is of that group. */
  lemma {:induction false} RunOnGroup(db: Db, events: seq<Event>, b: BuildId, g: StatusGroup, k: nat)
    requires k <= |events|
    ensures HasGroup(At(db, events, k), b, g) <==> LastReported(db, events, b, g, k)
  {
    if k == 0 {
      GroupAtFirst(db, events, b, g);
    } else {
      RunOnGroup(db, events, b, g, k - 1);
      GroupNext(db, events, b, g, k - 1);
      LastReportedNext(db, events, b, g, k - 1);
    }
  }

  lemma GroupAtFirst(db: Db, events: seq<Event>, b: BuildId, g: StatusGroup)
    ensures HasGroup(At(db, events, 0), b, g) <==> LastReported(db, events, b, g, 0)
  {
    AtEnds(db, events);
    assert HasGroup(db, b, g) <==> GroupSince(db, events, b, g, 0, 0);
  }

  lemma GroupNext(db: Db, events: seq<Event>, b: BuildId, g: StatusGroup, k: nat)
    requires k < |events|
    ensures HasGroup(At(db, events, k + 1), b, g)
            <==> match Writes(At(db, events, k), events[k], b)
                 case Some(status) => GroupOf(status) == g
                 case None => HasGroup(At(db, events, k), b, g)
  {
    AtNext(db, events, k);
    StepOnGroup(At(db, events, k), events[k], b);
  }

  // ----- The node of a build -----

  /** The node the event writes for the build, if it writes one: none for a new registration, the origin node for an upsert, the one given when the build is put on a node. */
  function WritesNode(db: Db, e: Event, b: BuildId): Option<Option<string>> {
    if Outcome(db, e).Err? then None
    else
      match e.stmt
      case UpsertSnapshot(u) => if b == u.build then Some(Some(u.originNode)) else None
      case RegisterBuild(r) => if b == r.build then Some(None) else None
      case UpdateTemplateBuild(c, node) => if b == c && b in db.builds then Some(node) else None
      case _ => None
  }

  predicate HasNode(db: Db, b: BuildId, node: Option<string>) {
    b in db.builds && db.builds[b].node == node
  }

  /** The build's node after the event: the one written, or the one it had. */
  ghost predicate NodeFollows(db: Db, e: Event, b: BuildId) {
    forall node :: HasNode(Step(db, e), b, node)
      <==> match WritesNode(db, e, b) case Some(written) => written == node case None => HasNode(db, b, node)
  }

  lemma RegisterWritesNode(db: Db, e: Event, b: BuildId)
    requires e.stmt.RegisterBuild? && Outcome(db, e).Ok?
    ensures NodeFollows(db, e, b)
  {
    var t, now := Tick(db, e), Now(db, e);
    RegisterShape(t, now, e.stmt.register);
    assert b in BeforeAlias(t, now, e.stmt.register).builds ==>
             Step(db, e).builds[b].node == BeforeAlias(t, now, e.stmt.register).builds[b].node;
  }

  lemma UpsertWritesNode(db: Db, e: Event, b: BuildId)
    requires e.stmt.UpsertSnapshot? && Outcome(db, e).Ok?
    ensures NodeFollows(db, e, b)
  {
  }

  lemma UpdateWritesNode(db: Db, e: Event, b: BuildId)
    requires IsUpdate(e.stmt)
    ensures NodeFollows(db, e, b)
  {
  }

  lemma OthersWriteNoNode(db: Db, e: Event, b: BuildId)
    requires !e.stmt.RegisterBuild? && !e.stmt.UpsertSnapshot? && !IsUpdate(e.stmt)
    ensures NodeFollows(db, e, b)
  {
    if Outcome(db, e).Ok? { LoopShape(Tick(db, e), Now(db, e), e.stmt); }
  }

  lemma StepOnNode(db: Db, e: Event, b: BuildId)
    ensures NodeFollows(db, e, b)
  {
    if IsUpdate(e.stmt) {
      UpdateWritesNode(db, e, b);
    } else if e.stmt.RegisterBuild? {
      if Outcome(db, e).Ok? { RegisterWritesNode(db, e, b); }
    } else if e.stmt.UpsertSnapshot? {
      if Outcome(db, e).Ok? { UpsertWritesNode(db, e, b); }
    } else {
      OthersWriteNoNode(db, e, b);
    }
  }

  /** The build had the node at first, for i = 0, or it was written by the event before i. */
  ghost predicate PutOn(db: Db, events: seq<Event>, b: BuildId, node: Option<string>, i: nat)
    requires i <= |events|
  {
    if i == 0 then HasNode(db, b, node) else WritesNode(At(db, events, i - 1), events[i - 1], b) == Some(node)
  }

  ghost predicate NodeUnwritten(db: Db, events: seq<Event>, b: BuildId, i: nat, k: nat)
    requires i <= k <= |events|
  {
    forall j :: i <= j < k ==> WritesNode(At(db, events, j), events[j], b).None?
  }

  /** It was put on the node there, and none of the events from i up to k writes its node. */
  ghost predicate NodeSince(db: Db, events: seq<Event>, b: BuildId, node: Option<string>, i: nat, k: nat)
    requires i <= k <= |events|
  {
    PutOn(db, events, b, node, i) && NodeUnwritten(db, events, b, i, k)
  }

  /** The node last written for the build, or else its first one. */
  ghost predicate LastNode(db: Db, events: seq<Event>, b: BuildId, node: Option<string>, k: nat)
    requires k <= |events|
  {
    exists i :: 0 <= i <= k && NodeSince(db, events, b, node, i, k)
  }

  lemma NodeUnwrittenNext(db: Db, events: seq<Event>, b: BuildId, i: nat, k: nat)
    requires i <= k < |events|
    ensures NodeUnwritten(db, events, b, i, k + 1)
            <==> NodeUnwritten(db, events, b, i, k) && WritesNode(At(db, events, k), events[k], b).None?
  {
  }

  lemma LastNodeNext(db: Db, events: seq<Event>, b: BuildId, node: Option<string>, k: nat)
    requires k < |events|
    ensures var written := WritesNode(At(db, events, k), events[k], b);
            LastNode(db, events, b, node, k + 1) <==> if written.Some? then written.value == node else LastNode(db, events, b, node, k)
  {
    var written := WritesNode(At(db, events, k), events[k], b);
    assert NodeSince(db, events, b, node, k + 1, k + 1) <==> written == Some(node);
    if LastNode(db, events, b, node, k + 1) {
      var i :| 0 <= i <= k + 1 && NodeSince(db, events, b, node, i, k + 1);
      if i <= k {
        NodeUnwrittenNext(db, events, b, i, k);
        assert NodeSince(db, events, b, node, i, k);
      }
    }
    if LastNode(db, events, b, node, k) {
      var i :| 0 <= i <= k && NodeSince(db, events, b, node, i, k);
      NodeUnwrittenNext(db, events, b, i, k);
      assert written.None? ==> NodeSince(db, events, b, node, i, k + 1);
    }
  }

  lemma NodeAtFirst(db: Db, events: seq<Event>, b: BuildId, node: Option<string>)
    ensures HasNode(At(db, events, 0), b, node) <==> LastNode(db, events, b, node, 0)
  {
    AtEnds(db, events);
    assert HasNode(db, b, node) <==> NodeSince(db, events, b, node, 0, 0);
  }

  lemma NodeNext(db: Db, events: seq<Event>, b: BuildId, node: Option<string>, k: nat)
    requires k < |events|
    ensures HasNode(At(db, events, k + 1), b, node)
            <==> match WritesNode(At(db, events, k), events[k], b)
                 case Some(written) => written == node
                 case None => HasNode(At(db, events, k), b, node)
  {
    AtNext(db, events, k);
    StepOnNode(At(db, events, k), events[k], b);
  }

  /** Over every run: the node of a build is the one last written for it, or else its first one. */
  lemma {:induction false} RunOnNode(db: Db, events: seq<Event>, b: BuildId, node: Option<string>, k: nat)
    requires k <= |events|
    ensures HasNode(At(db, events, k), b, node) <==> LastNode(db, events, b, node, k)
  {
    if k == 0 {
      NodeAtFirst(db, events, b, node);
    } else {
      RunOnNode(db, events, b, node, k - 1);
      NodeNext(db, events, b, node, k - 1);
      LastNodeNext(db, events, b, node, k - 1);
    }
  }

  // ----- Cancelling -----

  /** The start of `a` cancels `b` on the node. */
  predicate CancelsOn(db: Db, env: EnvId, a: BuildId, b: BuildId, node: string) {
    Cancels(db, env, a, b) && db.builds[b].node == Some(node)
  }

  /** Which statuses are cancelled, in plain texts. */
  lemma CancelsLiterally(db: Db, env: EnvId, a: BuildId, b: BuildId, node: string)
    ensures CancelsOn(db, env, a, b, node)
            <==> && b != a && b in db.builds && db.builds[b].status in {InProgress, Building, Snapshotting} && db.builds[b].node == Some(node)
                 && exists x, y :: && x in db.assignments && y in db.assignments && x.env == env && y.env == env
                                   && x.build == a && y.build == b && x.tag == y.tag
  {
    ConcurrentMeaning(db, env, a, b);
    if ShareTag(db, env, a, b) {
      var t: Tag :| HasTag(db, env, a, t) && HasTag(db, env, b, t);
      var x :| x in db.assignments && x.env == env && x.build == a && x.tag == t;
      var y :| y in db.assignments && y.env == env && y.build == b && y.tag == t;
    }
    if x, y :| && x in db.assignments && y in db.assignments && x.env == env && y.env == env
               && x.build == a && y.build == b && x.tag == y.tag {
      assert HasTag(db, env, a, x.tag) && HasTag(db, env, b, x.tag);
    }
  }

  /**
   After every run the start of `a` cancels another build on a node exactly when the last report about
   that build is that it is in progress, the node is the one last written for it, and there is a tag
   that both have got, or had, and that has not been taken away since.
   */
  lemma LaterStartCancelsIff(db: Db, events: seq<Event>, env: EnvId, a: BuildId, b: BuildId, node: string)
    ensures CancelsOn(Run(db, events), env, a, b, node)
            <==> && b != a && LastReported(db, events, b, InProgressGroup, |events|) && LastNode(db, events, b, Some(node), |events|)
                 && exists t: Tag :: Holds(db, events, env, a, t, |events|) && Holds(db, events, env, b, t, |events|)
  {
    AtEnds(db, events);
    LaterStartSeesTheOther(db, events, env, a, b);
    RunOnGroup(db, events, b, InProgressGroup, |events|);
    RunOnNode(db, events, b, Some(node), |events|);
  }

  /** A build without a node is not cancelled, whatever else holds. */
  lemma NoNodeNoCancel(db: Db, env: EnvId, a: BuildId, b: BuildId)
    ensures Cancels(db, env, a, b) <==> exists node :: CancelsOn(db, env, a, b, node)
  {
    if Cancels(db, env, a, b) { assert CancelsOn(db, env, a, b, db.builds[b].node.value); }
  }

  /**
   A build that is registered, put on a node and reported in progress is cancelled there by the start
   of any other build that shares a tag with it.
   */
  lemma StartedBuildIsCancelled(db: Db, e: Event, delay: nat, delay': nat, finishedAt: Option<Time>, env: EnvId, a: BuildId, b: BuildId, node: string)
    requires e.stmt.RegisterBuild? && Outcome(db, e).Ok? && e.stmt.register.build == b && a != b
    requires ShareTag(Step(db, e), env, a, b)
    ensures var d := Step(Step(Step(db, e), Event(delay, UpdateTemplateBuild(b, Some(node)))),
                          Event(delay', UpdateStatus(b, Building, finishedAt)));
            CancelsOn(d, env, a, b, node)
  {
    var d1 := Step(db, e);
    var e2, e3 := Event(delay, UpdateTemplateBuild(b, Some(node))), Event(delay', UpdateStatus(b, Building, finishedAt));
    var d2 := Step(d1, e2);
    var d := Step(d2, e3);
    StepOnNode(db, e, b);
    assert HasNode(d1, b, None);
    StepOnNode(d1, e2, b);
    assert HasNode(d2, b, Some(node));
    StepOnNode(d2, e3, b);
    StepOnGroup(d2, e3, b);
    assert HasNode(d, b, Some(node)) && HasGroup(d, b, InProgressGroup);
    OthersKeepAssignments(d1, e2);
    OthersKeepAssignments(d2, e3);
    var t: Tag :| HasTag(d1, env, a, t) && HasTag(d1, env, b, t);
    assert HasTag(d, env, a, t) && HasTag(d, env, b, t);
    ConcurrentMeaning(d, env, a, b);
  }

  /** Two builds that share a tag and are both still pending see each other, and neither start cancels the other. */
  lemma BothPendingCancelNothing(db: Db, env: EnvId, a: BuildId, b: BuildId)
    requires a != b && ShareTag(db, env, a, b) && HasGroup(db, a, PendingGroup) && HasGroup(db, b, PendingGroup)
    ensures b in Concurrent(db, env, a) && a in Concurrent(db, env, b)
    ensures !Cancels(db, env, a, b) && !Cancels(db, env, b, a)
  {
    ConcurrentMeaning(db, env, a, b);
    ConcurrentMeaning(db, env, b, a);
  }
}
