/** What every run of the write queries keeps true of the tables. */
module StoreInvariants {
  import opened Wrappers
  import opened Store

  /** Every reference names a row that exists. */
  ghost predicate References(db: Db) {
    && (forall a :: a in db.assignments ==> a.env in db.envs && a.build in db.builds)
    && (forall s :: s in db.snapshots ==> db.snapshots[s].env in db.envs && db.snapshots[s].baseEnv in db.envs)
    && (forall e :: e in db.snapshotTemplates ==> e in db.envs)
    && (forall x :: x in db.aliases ==> x.env in db.envs)
    && (forall b :: b in db.active ==> b in db.builds)
  }

  /** Unique keys; rows inserted by one transaction are about one build, so equal times mean equal builds. */
  ghost predicate Keys(db: Db) {
    && (forall a, b :: a in db.assignments && b in db.assignments && a.id == b.id ==> a == b)
    && (forall a, b :: a in db.assignments && b in db.assignments && a.createdAt == b.createdAt ==> a.build == b.build)
    && (forall x, y :: x in db.aliases && y in db.aliases && x.alias == y.alias && x.namespace == y.namespace ==> x == y)
    && (forall s, t :: s in db.snapshots && t in db.snapshots && db.snapshots[s].env == db.snapshots[t].env ==> s == t)
  }

  /** Nothing is dated after the last transaction. */
  ghost predicate Times(db: Db) {
    && (forall a :: a in db.assignments ==> a.createdAt <= db.clock)
    && (forall b :: b in db.builds ==> db.builds[b].createdAt <= db.clock)
    && (forall s :: s in db.snapshots ==> db.snapshots[s].createdAt <= db.clock)
  }

  /** Snapshot rows point at snapshot envs of their own team, and assigned builds have a team. */
  ghost predicate Roles(db: Db) {
    && (forall s :: s in db.snapshots && db.snapshots[s].env in db.envs ==>
          db.envs[db.snapshots[s].env].source == SnapshotSource && db.envs[db.snapshots[s].env].team == db.snapshots[s].team)
    && (forall a :: a in db.assignments && a.build in db.builds ==> db.builds[a.build].team.Some?)
  }

  ghost predicate Inv(db: Db) {
    References(db) && Keys(db) && Times(db) && Roles(db)
  }

  /** Inv, and all rows strictly older than `now`: the state a transaction starts from. */
  ghost predicate Fresh(db: Db, now: Time) {
    && Inv(db) && now <= db.clock
    && (forall a :: a in db.assignments ==> a.createdAt < now)
  }

  /** A new assignment row, newer than every row about another build. */
  lemma WithAssignmentKeepsInv(db: Db, a: Assignment)
    requires Inv(db) && a.env in db.envs && a.build in db.builds && a.createdAt <= db.clock
    requires a.id !in RowIds(db.assignments)
    requires forall b :: b in db.assignments && b.createdAt == a.createdAt ==> b.build == a.build
    ensures Inv(WithAssignment(db, a))
  {
    assert forall b :: b in db.assignments ==> b.id in RowIds(db.assignments);
  }

  /** The snapshot and build rows of an upsert, before its assignment row. */
  lemma SnapshotRowKeepsInv(db: Db, s: SandboxId, row: SnapshotRow)
    requires Inv(db) && row.env in db.envs && row.baseEnv in db.envs && row.createdAt <= db.clock
    requires db.envs[row.env].source == SnapshotSource && db.envs[row.env].team == row.team
    requires forall t :: t in db.snapshots && t != s ==> db.snapshots[t].env != row.env
    ensures Inv(db.(snapshots := db.snapshots[s := row]))
  {
  }

  lemma NewBuildKeepsInv(db: Db, build: BuildId, b: Build)
    requires Inv(db) && build !in db.builds && b.createdAt <= db.clock
    ensures Inv(db.(builds := db.builds[build := b]))
  {
  }

  lemma NewEnvKeepsInv(db: Db, env: EnvId, e: Env)
    requires Inv(db) && env !in db.envs
    ensures Inv(db.(envs := db.envs[env := e]))
  {
  }

  lemma UpsertKeepsInv(db: Db, now: Time, u: UpsertArgs)
    requires Fresh(db, now) && AfterUpsertSnapshot(db, now, u).Ok?
    ensures Inv(AfterUpsertSnapshot(db, now, u).value)
  {
    var known := u.sandbox in db.snapshots;
    var d1 := if known then db else db.(envs := db.envs[u.template := Env(u.team, SnapshotSource, 1)]);
    var row := if known then RefreshedSnapshot(db.snapshots[u.sandbox], u) else FirstSnapshot(u, now);
    if !known { NewEnvKeepsInv(db, u.template, Env(u.team, SnapshotSource, 1)); }
    SnapshotRowKeepsInv(d1, u.sandbox, row);
    var d2 := d1.(snapshots := d1.snapshots[u.sandbox := row]);
    var b := Build(now, None, u.status, None, Some(u.originNode));
    NewBuildKeepsInv(d2, u.build, b);
    WithAssignmentKeepsInv(d2.(builds := d2.builds[u.build := b]), Assignment(u.row, row.env, u.build, DEFAULT_TAG, now));
  }

  lemma CreateSnapshotTemplateEnvKeepsInv(db: Db, now: Time, c: SnapshotTemplateArgs)
    requires Fresh(db, now) && AfterCreateSnapshotTemplateEnv(db, now, c).Ok?
    ensures Inv(AfterCreateSnapshotTemplateEnv(db, now, c).value)
  {
    var e, row := Env(c.team, SnapshotTemplateSource, 1), SnapshotTemplateRow(c.sandbox, c.originNode, c.build.value);
    NewEnvKeepsInv(db, c.env, e);
    var d := db.(envs := db.envs[c.env := e], snapshotTemplates := db.snapshotTemplates[c.env := row]);
    assert Inv(d);
    WithAssignmentKeepsInv(d, Assignment(c.row, c.env, c.build.value, c.tag, now));
  }

  lemma DeleteTemplateKeepsInv(db: Db, env: EnvId, team: TeamId)
    requires Inv(db)
    ensures Inv(AfterDeleteTemplate(db, env, team))
  {
  }

  /** Inside the registering transaction: the only rows as young as `now` are about the new build. */
  ghost predicate Registering(db: Db, now: Time, env: EnvId, build: BuildId) {
    && Inv(db) && now <= db.clock && env in db.envs && build in db.builds
    && (forall a :: a in db.assignments ==> a.createdAt < now || (a.createdAt == now && a.build == build))
  }

  lemma {:induction false} AssignTagsKeepsInv(db: Db, now: Time, env: EnvId, build: BuildId, tags: seq<TagRow>)
    requires Registering(db, now, env, build) && AfterAssignTags(db, now, env, build, tags).Ok?
    ensures Registering(AfterAssignTags(db, now, env, build, tags).value, now, env, build)
    decreases tags
  {
    if tags != [] {
      var d := AfterCreateAssignment(db, now, env, build, tags[0].tag, tags[0].row).value;
      WithAssignmentKeepsInv(db, Assignment(tags[0].row, env, build, tags[0].tag, now));
      AssignTagsKeepsInv(d, now, env, build, tags[1..]);
    }
  }

  lemma EnvUpdateKeepsInv(db: Db, env: EnvId, team: TeamId)
    requires Inv(db)
    ensures Inv(AfterCreateOrUpdateTemplate(db, env, team))
  {
  }

  lemma InvalidationKeepsInv(db: Db, now: Time, env: EnvId, tags: seq<Tag>)
    requires Inv(db)
    ensures Inv(AfterInvalidateUnstarted(db, now, env, tags))
  {
  }

  lemma ClaimAliasKeepsInv(db: Db, env: EnvId, claim: Option<AliasClaim>)
    requires Inv(db) && AfterClaimAlias(db, env, claim).Ok?
    ensures Inv(AfterClaimAlias(db, env, claim).value)
  {
  }

  lemma RegisterKeepsInv(db: Db, now: Time, r: RegisterArgs)
    requires Fresh(db, now) && AfterRegisterBuild(db, now, r).Ok?
    ensures Inv(AfterRegisterBuild(db, now, r).value)
  {
    var d1 := AfterCreateOrUpdateTemplate(db, r.env, r.team);
    EnvUpdateKeepsInv(db, r.env, r.team);
    var d2 := AfterInvalidateUnstarted(d1, now, r.env, Tags(Assigned(r)));
    InvalidationKeepsInv(d1, now, r.env, Tags(Assigned(r)));
    NewBuildKeepsInv(d2, r.build, Build(now, None, Waiting, None, None));
    ClaimAliasKeepsInv(AfterCreateTemplateBuild(d2, now, r.build, Waiting).value, r.env, r.alias);
    var d4 := BeforeTags(db, now, r);
    ClaimShape(AfterCreateTemplateBuild(d2, now, r.build, Waiting).value, r.env, r.alias);
    AssignTagsKeepsInv(d4, now, r.env, r.build, Assigned(r));
    AssignTagsShape(d4, now, r.env, r.build, Assigned(r));
  }

  /** Claiming an alias changes no other table. */
  lemma ClaimShape(db: Db, env: EnvId, claim: Option<AliasClaim>)
    requires AfterClaimAlias(db, env, claim).Ok?
    ensures var d := AfterClaimAlias(db, env, claim).value; d == db.(aliases := d.aliases)
  {
  }

  /** Tagging adds rows of one env and one build, and may fix the team of that build; nothing else changes. */
  ghost predicate Tagged(db: Db, d: Db, env: EnvId, build: BuildId) {
    && d == db.(assignments := d.assignments, builds := d.builds)
    && db.assignments <= d.assignments
    && (forall a :: a in d.assignments && a !in db.assignments ==> a.env == env && a.build == build)
    && d.builds.Keys == db.builds.Keys
    && (forall b :: b in db.builds ==> d.builds[b] == db.builds[b].(team := d.builds[b].team))
    && (forall b :: b in db.builds && db.builds[b].team.Some? ==> d.builds[b].team == db.builds[b].team)
  }

  lemma {:induction false} AssignTagsShape(db: Db, now: Time, env: EnvId, build: BuildId, tags: seq<TagRow>)
    requires AfterAssignTags(db, now, env, build, tags).Ok?
    ensures Tagged(db, AfterAssignTags(db, now, env, build, tags).value, env, build)
    decreases tags
  {
    if tags != [] {
      var d := AfterCreateAssignment(db, now, env, build, tags[0].tag, tags[0].row).value;
      assert Tagged(db, d, env, build);
      AssignTagsShape(d, now, env, build, tags[1..]);
    }
  }

  function RowsOfTags(now: Time, env: EnvId, build: BuildId, tags: seq<TagRow>): set<Assignment> {
    set t | t in tags :: Assignment(t.row, env, build, t.tag, now)
  }

  /** Tagging adds exactly one row for each tag row. */
  lemma {:induction false} AssignTagsRows(db: Db, now: Time, env: EnvId, build: BuildId, tags: seq<TagRow>)
    requires AfterAssignTags(db, now, env, build, tags).Ok?
    ensures AfterAssignTags(db, now, env, build, tags).value.assignments == db.assignments + RowsOfTags(now, env, build, tags)
    decreases tags
  {
    if tags != [] {
      var d := AfterCreateAssignment(db, now, env, build, tags[0].tag, tags[0].row).value;
      AssignTagsRows(d, now, env, build, tags[1..]);
      assert tags == [tags[0]] + tags[1..];
      assert RowsOfTags(now, env, build, tags)
          == {Assignment(tags[0].row, env, build, tags[0].tag, now)} + RowsOfTags(now, env, build, tags[1..]);
    }
  }

  /** The tables when the registering transaction comes to its alias. */
  function BeforeAlias(db: Db, now: Time, r: RegisterArgs): Db
    requires AfterRegisterBuild(db, now, r).Ok?
  {
    AfterCreateTemplateBuild(
      AfterInvalidateUnstarted(AfterCreateOrUpdateTemplate(db, r.env, r.team), now, r.env, Tags(Assigned(r))),
      now, r.build, Waiting).value
  }

  /** The tables when it comes to its assignments. */
  function BeforeTags(db: Db, now: Time, r: RegisterArgs): Db
    requires AfterRegisterBuild(db, now, r).Ok?
  {
    AfterClaimAlias(BeforeAlias(db, now, r), r.env, r.alias).value
  }

  /** The tables when it has inserted them. */
  function AfterTags(db: Db, now: Time, r: RegisterArgs): Db
    requires AfterRegisterBuild(db, now, r).Ok?
  {
    AfterAssignTags(BeforeTags(db, now, r), now, r.env, r.build, Assigned(r)).value
  }

  lemma RegisterShape(db: Db, now: Time, r: RegisterArgs)
    requires AfterRegisterBuild(db, now, r).Ok?
    ensures var d2, d3, d4, d := BeforeAlias(db, now, r), BeforeTags(db, now, r), AfterTags(db, now, r), AfterRegisterBuild(db, now, r).value;
            && d3 == d2.(aliases := d3.aliases)
            && Tagged(d3, d4, r.env, r.build)
            && r.build !in d4.active && d == d4.(active := d4.active[r.build := ActiveRow(r.team, r.env, Tags(Assigned(r)))])
  {
    ClaimShape(BeforeAlias(db, now, r), r.env, r.alias);
    AssignTagsShape(BeforeTags(db, now, r), now, r.env, r.build, Assigned(r));
  }

  lemma DeleteTagsKeepsInv(db: Db, env: EnvId, tags: seq<Tag>)
    requires Inv(db)
    ensures Inv(AfterDeleteTags(db, env, tags))
  {
  }

  lemma TagTransactionKeepsInv(db: Db, now: Time, env: EnvId, build: BuildId, rows: seq<TagRow>)
    requires Fresh(db, now) && AfterAssignTags(db, now, env, build, rows).Ok?
    ensures Inv(AfterAssignTags(db, now, env, build, rows).value)
  {
    if rows != [] { AssignTagsKeepsInv(db, now, env, build, rows); }
  }

  lemma StepKeepsInv(db: Db, e: Event)
    requires Inv(db)
    ensures Inv(Step(db, e)) && Step(db, e).clock == Now(db, e)
  {
    var t, now := Tick(db, e), Now(db, e);
    assert Fresh(t, now);
    if Outcome(db, e).Ok? {
      AfterKeepsInv(t, now, e.stmt);
      AfterKeepsClock(t, now, e.stmt);
    }
  }

  lemma AfterKeepsInv(db: Db, now: Time, s: Stmt)
    requires Fresh(db, now) && After(db, now, s).Ok?
    ensures Inv(After(db, now, s).value)
  {
    match s {
      case UpsertSnapshot(u) => UpsertKeepsInv(db, now, u);
      case CreateSnapshotTemplateEnv(c) => CreateSnapshotTemplateEnvKeepsInv(db, now, c);
      case DeleteTemplate(env, team) => DeleteTemplateKeepsInv(db, env, team);
      case RegisterBuild(r) => RegisterKeepsInv(db, now, r);
      case AssignTags(env, build, rows) => TagTransactionKeepsInv(db, now, env, build, rows);
      case DeleteTags(env, tags) => DeleteTagsKeepsInv(db, env, tags);
      case CreateAlias(x) => CreateAliasKeepsInv(db, x);
      case UpsertAlias(x) => if !Taken(db, x.alias, x.namespace) { CreateAliasKeepsInv(db, x); }
      case _ =>
        UpdateShape(db, now, s);
        OnlyUpdatesKeepInv(db, After(db, now, s).value);
    }
  }

  /** The statements that only change build columns and the active table. */
  predicate IsUpdate(s: Stmt) {
    s.UpdateTemplateBuild? || s.UpdateStatus? || s.FailAndDeactivate? || s.FinishBuild? || s.DeleteActive?
  }

  /** Only build columns other than the creation time and team changed, and active rows went. */
  ghost predicate OnlyUpdates(db: Db, d: Db) {
    && d == db.(builds := d.builds, active := d.active)
    && d.active.Keys <= db.active.Keys
    && d.builds.Keys == db.builds.Keys
    && (forall b :: b in db.builds ==> d.builds[b].createdAt == db.builds[b].createdAt && d.builds[b].team == db.builds[b].team)
  }

  lemma OnlyUpdatesKeepInv(db: Db, d: Db)
    requires Inv(db) && OnlyUpdates(db, d)
    ensures Inv(d)
  {
  }

  lemma UpdateShape(db: Db, now: Time, s: Stmt)
    requires IsUpdate(s)
    ensures After(db, now, s).Ok? && OnlyUpdates(db, After(db, now, s).value)
  {
  }

  lemma CreateAliasKeepsInv(db: Db, x: Alias)
    requires Inv(db) && AfterCreateAlias(db, x).Ok?
    ensures Inv(AfterCreateAlias(db, x).value)
  {
  }

  lemma AfterKeepsClock(db: Db, now: Time, s: Stmt)
    requires After(db, now, s).Ok?
    ensures After(db, now, s).value.clock == db.clock
  {
    if s.RegisterBuild? { RegisterShape(db, now, s.register); }
    if s.AssignTags? { AssignTagsShape(db, now, s.env, s.build, s.rows); }
  }

  /** The shapes of the two statements that are loops. */
  lemma LoopShape(db: Db, now: Time, s: Stmt)
    requires After(db, now, s).Ok?
    ensures s.AssignTags? ==> Tagged(db, After(db, now, s).value, s.env, s.build)
                              && After(db, now, s).value.assignments == db.assignments + RowsOfTags(now, s.env, s.build, s.rows)
    ensures s.RegisterBuild? ==>
              var d, r := After(db, now, s).value, s.register;
              && d.clock == db.clock && d.snapshots == db.snapshots && d.snapshotTemplates == db.snapshotTemplates
              && d.envs == AfterCreateOrUpdateTemplate(db, r.env, r.team).envs
              && d.assignments == db.assignments + RowsOfTags(now, r.env, r.build, Assigned(r))
              && (forall b :: b in db.builds ==> b in d.builds && d.builds[b].createdAt == db.builds[b].createdAt)
  {
    if s.AssignTags? {
      AssignTagsShape(db, now, s.env, s.build, s.rows);
      AssignTagsRows(db, now, s.env, s.build, s.rows);
    }
    if s.RegisterBuild? {
      var r := s.register;
      RegisterShape(db, now, r);
      AssignTagsRows(BeforeTags(db, now, r), now, r.env, r.build, Assigned(r));
    }
  }

  /** A run that is one event longer. */
  lemma {:induction false} RunSnoc(db: Db, events: seq<Event>, e: Event)
    ensures Run(db, events + [e]) == Step(Run(db, events), e)
    decreases |events|
  {
    if events == [] {
      assert [e][1..] == [];
    } else {
      assert (events + [e])[0] == events[0] && (events + [e])[1..] == events[1..] + [e];
      RunSnoc(Step(db, events[0]), events[1..], e);
    }
  }

  /** The tables before the k-th event. */
  function At(db: Db, events: seq<Event>, k: nat): Db
    requires k <= |events|
  {
    Run(db, events[..k])
  }

  lemma AtNext(db: Db, events: seq<Event>, k: nat)
    requires k < |events|
    ensures At(db, events, k + 1) == Step(At(db, events, k), events[k])
  {
    assert events[..k + 1] == events[..k] + [events[k]];
    RunSnoc(db, events[..k], events[k]);
  }

  lemma AtEnds(db: Db, events: seq<Event>)
    ensures At(db, events, 0) == db && At(db, events, |events|) == Run(db, events)
  {
    assert events[..|events|] == events;
  }

  /** The tables stay consistent over every run, whatever fails on the way. */
  lemma {:induction false} RunKeepsInv(db: Db, events: seq<Event>)
    requires Inv(db)
    ensures Inv(Run(db, events))
    decreases |events|
  {
    if events != [] {
      StepKeepsInv(db, events[0]);
      RunKeepsInv(Step(db, events[0]), events[1..]);
    }
  }
}
