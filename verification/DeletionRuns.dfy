/** A deleted template is as if it had never been there: deletion commutes with every run that keeps apart from it. */
module DeletionRuns {
  import opened Wrappers
  import opened Store
  import opened StoreInvariants
  import opened Resolution
  import opened Deletion

  /** The tables without the env and the builds `gone`. */
  function Without(db: Db, env: EnvId, gone: set<BuildId>): Db {
    WithoutBuilds(WithoutEnv(db, env), gone)
  }

  function WithoutIn(r: Result<Db, SqlError>, env: EnvId, gone: set<BuildId>): Result<Db, SqlError> {
    match r
    case Ok(d) => Ok(Without(d, env, gone))
    case Err(e) => Err(e)
  }

  /** Only the env itself uses the builds `gone`. */
  ghost predicate Separate(db: Db, env: EnvId, gone: set<BuildId>) {
    forall a :: a in db.assignments && a.env != env ==> a.build !in gone
  }

  /** The row id is none of the env's. */
  ghost predicate RowApart(db: Db, env: EnvId, row: RowId) {
    forall a :: a in db.assignments && a.env == env ==> a.id != row
  }

  /** None of the env's aliases is this one. */
  ghost predicate AliasApart(db: Db, env: EnvId, alias: string, namespace: Option<string>) {
    forall y :: y in db.aliases && y.env == env ==> y.alias != alias || y.namespace != namespace
  }

  /**
   The statement names neither the env, nor its builds, aliases or row ids, nor a sandbox that
   lives in it or was started from it. Updates of builds, and deletions of tags, may name anything.
   */
  ghost predicate Apart(db: Db, env: EnvId, gone: set<BuildId>, s: Stmt) {
    match s
    case UpsertSnapshot(u) =>
      && u.template != env && u.baseEnv != env && u.build !in gone && RowApart(db, env, u.row)
      && (u.sandbox in db.snapshots ==> db.snapshots[u.sandbox].env != env && db.snapshots[u.sandbox].baseEnv != env)
    case CreateSnapshotTemplateEnv(c) => c.env != env && (c.build.Some? ==> c.build.value !in gone) && RowApart(db, env, c.row)
    case DeleteTemplate(e, _) => e != env
    case RegisterBuild(r) =>
      && r.env != env && r.build !in gone && (forall t :: t in Assigned(r) ==> RowApart(db, env, t.row))
      && (r.alias.Some? ==> r.alias.value.alias != env && AliasApart(db, env, r.alias.value.alias, Some(r.alias.value.namespace)))
    case AssignTags(e, build, rows) => e != env && build !in gone && forall t :: t in rows ==> RowApart(db, env, t.row)
    case CreateAlias(x) => x.env != env && AliasApart(db, env, x.alias, x.namespace)
    case UpsertAlias(x) => x.env != env && AliasApart(db, env, x.alias, x.namespace)
    case _ => true
  }

  lemma RowsApart(db: Db, env: EnvId, gone: set<BuildId>, row: RowId)
    requires Separate(db, env, gone) && RowApart(db, env, row)
    ensures row in RowIds(db.assignments) <==> row in RowIds(Without(db, env, gone).assignments)
  {
    assert forall a :: a in Without(db, env, gone).assignments <==> a in db.assignments && a.env != env;
  }

  lemma AssignmentCommutes(db: Db, env: EnvId, gone: set<BuildId>, a: Assignment)
    requires Separate(db, env, gone) && a.env in db.envs && a.build in db.builds && a.env != env && a.build !in gone
    ensures Separate(WithAssignment(db, a), env, gone)
    ensures var d := Without(db, env, gone);
            a.env in d.envs && a.build in d.builds && WithAssignment(d, a) == Without(WithAssignment(db, a), env, gone)
  {
    var d, e := Without(db, env, gone), WithAssignment(db, a);
    assert WithAssignment(d, a).assignments == Without(e, env, gone).assignments;
    assert WithAssignment(d, a).builds == Without(e, env, gone).builds;
  }

  /** The tables of an upsert before its assignment row. */
  function UpsertRows(db: Db, now: Time, u: UpsertArgs): Db {
    var known := u.sandbox in db.snapshots;
    db.(envs := if known then db.envs else db.envs[u.template := Env(u.team, SnapshotSource, 1)],
        snapshots := db.snapshots[u.sandbox := if known then RefreshedSnapshot(db.snapshots[u.sandbox], u) else FirstSnapshot(u, now)],
        builds := db.builds[u.build := Build(now, None, u.status, None, Some(u.originNode))])
  }

  lemma PutCommutes<K, V>(m: map<K, V>, gone: set<K>, k: K, v: V)
    requires k !in gone
    ensures m[k := v] - gone == (m - gone)[k := v]
  {
  }

  /** The snapshots that survive the env. */
  function KeptSnapshots(m: map<SandboxId, SnapshotRow>, env: EnvId): map<SandboxId, SnapshotRow> {
    map s | s in m && m[s].env != env && m[s].baseEnv != env :: m[s]
  }

  lemma WithoutSnapshots(db: Db, env: EnvId, gone: set<BuildId>)
    ensures Without(db, env, gone).snapshots == KeptSnapshots(db.snapshots, env)
  {
  }

  lemma PutSnapshotCommutes(m: map<SandboxId, SnapshotRow>, env: EnvId, s: SandboxId, row: SnapshotRow)
    requires row.env != env && row.baseEnv != env
    ensures KeptSnapshots(m[s := row], env) == KeptSnapshots(m, env)[s := row]
  {
  }

  lemma UpsertRowsCommute(db: Db, env: EnvId, gone: set<BuildId>, now: Time, u: UpsertArgs)
    requires Apart(db, env, gone, UpsertSnapshot(u))
    ensures UpsertRows(Without(db, env, gone), now, u) == Without(UpsertRows(db, now, u), env, gone)
  {
    var rows := UpsertRows(db, now, u);
    UpsertBuildsAndEnvsCommute(db, env, gone, now, u);
    PutSnapshotCommutes(db.snapshots, env, u.sandbox, rows.snapshots[u.sandbox]);
    WithoutSnapshots(db, env, gone);
    WithoutSnapshots(rows, env, gone);
  }

  lemma UpsertBuildsAndEnvsCommute(db: Db, env: EnvId, gone: set<BuildId>, now: Time, u: UpsertArgs)
    requires Apart(db, env, gone, UpsertSnapshot(u))
    ensures var d, rows := Without(db, env, gone), UpsertRows(db, now, u);
            && rows.builds - gone == d.builds[u.build := rows.builds[u.build]]
            && rows.envs - {env} == if u.sandbox in db.snapshots then d.envs else d.envs[u.template := rows.envs[u.template]]
  {
    PutCommutes(db.builds, gone, u.build, UpsertRows(db, now, u).builds[u.build]);
    PutCommutes(db.envs, {env}, u.template, Env(u.team, SnapshotSource, 1));
  }

  lemma UpsertOfRows(db: Db, now: Time, u: UpsertArgs)
    requires AfterUpsertSnapshot(db, now, u).Ok?
    ensures var rows := UpsertRows(db, now, u);
            var env := rows.snapshots[u.sandbox].env;
            && env in rows.envs
            && AfterUpsertSnapshot(db, now, u).value == WithAssignment(rows, Assignment(u.row, env, u.build, DEFAULT_TAG, now))
  {
  }

  lemma UpsertSucceedsAlike(db: Db, env: EnvId, gone: set<BuildId>, now: Time, u: UpsertArgs)
    requires Separate(db, env, gone) && Apart(db, env, gone, UpsertSnapshot(u))
    ensures AfterUpsertSnapshot(db, now, u).Ok? <==> AfterUpsertSnapshot(Without(db, env, gone), now, u).Ok?
    ensures AfterUpsertSnapshot(db, now, u).Err? ==> AfterUpsertSnapshot(Without(db, env, gone), now, u) == AfterUpsertSnapshot(db, now, u)
  {
    RowsApart(db, env, gone, u.row);
  }

  lemma UpsertCommutes(db: Db, env: EnvId, gone: set<BuildId>, now: Time, u: UpsertArgs)
    requires Separate(db, env, gone) && Apart(db, env, gone, UpsertSnapshot(u))
    ensures AfterUpsertSnapshot(Without(db, env, gone), now, u) == WithoutIn(AfterUpsertSnapshot(db, now, u), env, gone)
    ensures AfterUpsertSnapshot(db, now, u).Ok? ==> Separate(AfterUpsertSnapshot(db, now, u).value, env, gone)
  {
    UpsertSucceedsAlike(db, env, gone, now, u);
    if AfterUpsertSnapshot(db, now, u).Ok? {
      var rows := UpsertRows(db, now, u);
      UpsertOfRows(db, now, u);
      UpsertOfRows(Without(db, env, gone), now, u);
      UpsertRowsCommute(db, env, gone, now, u);
      AssignmentCommutes(rows, env, gone, Assignment(u.row, rows.snapshots[u.sandbox].env, u.build, DEFAULT_TAG, now));
    }
  }

  lemma CreateSnapshotTemplateEnvCommutes(db: Db, env: EnvId, gone: set<BuildId>, now: Time, c: SnapshotTemplateArgs)
    requires Separate(db, env, gone) && Apart(db, env, gone, CreateSnapshotTemplateEnv(c))
    ensures AfterCreateSnapshotTemplateEnv(Without(db, env, gone), now, c)
            == WithoutIn(AfterCreateSnapshotTemplateEnv(db, now, c), env, gone)
    ensures var r := AfterCreateSnapshotTemplateEnv(db, now, c); r.Ok? ==> Separate(r.value, env, gone)
  {
    RowsApart(db, env, gone, c.row);
    if AfterCreateSnapshotTemplateEnv(db, now, c).Ok? {
      var mid := db.(
        envs := db.envs[c.env := Env(c.team, SnapshotTemplateSource, 1)],
        snapshotTemplates := db.snapshotTemplates[c.env := SnapshotTemplateRow(c.sandbox, c.originNode, c.build.value)]);
      AssignmentCommutes(mid, env, gone, Assignment(c.row, c.env, c.build.value, c.tag, now));
      var d := Without(db, env, gone);
      assert Without(mid, env, gone).envs == d.envs[c.env := mid.envs[c.env]];
      assert Without(mid, env, gone).snapshotTemplates == d.snapshotTemplates[c.env := mid.snapshotTemplates[c.env]];
    }
  }

  lemma EnvsCommute(db: Db, env: EnvId, other: EnvId)
    ensures WithoutEnv(WithoutEnv(db, env), other) == WithoutEnv(WithoutEnv(db, other), env)
  {
    var x, y := WithoutEnv(WithoutEnv(db, env), other), WithoutEnv(WithoutEnv(db, other), env);
    assert x.envs == y.envs && x.assignments == y.assignments;
    assert x.snapshots == y.snapshots && x.snapshotTemplates == y.snapshotTemplates && x.aliases == y.aliases;
  }

  lemma EnvAndBuildsCommute(db: Db, gone: set<BuildId>, other: EnvId)
    ensures WithoutEnv(WithoutBuilds(db, gone), other) == WithoutBuilds(WithoutEnv(db, other), gone)
  {
    assert WithoutEnv(WithoutBuilds(db, gone), other).assignments == WithoutBuilds(WithoutEnv(db, other), gone).assignments;
  }

  lemma DeletionsCommute(db: Db, env: EnvId, gone: set<BuildId>, other: EnvId, team: TeamId)
    requires Separate(db, env, gone) && other != env
    ensures AfterDeleteTemplate(Without(db, env, gone), other, team) == Without(AfterDeleteTemplate(db, other, team), env, gone)
    ensures Separate(AfterDeleteTemplate(db, other, team), env, gone)
  {
    EnvsCommute(db, env, other);
    EnvAndBuildsCommute(WithoutEnv(db, env), gone, other);
  }

  lemma CreateAssignmentCommutes(db: Db, env: EnvId, gone: set<BuildId>, now: Time, e: EnvId, build: BuildId, tag: Tag, row: RowId)
    requires Separate(db, env, gone) && e != env && build !in gone && RowApart(db, env, row)
    ensures AfterCreateAssignment(Without(db, env, gone), now, e, build, tag, row)
            == WithoutIn(AfterCreateAssignment(db, now, e, build, tag, row), env, gone)
    ensures var r := AfterCreateAssignment(db, now, e, build, tag, row);
            r.Ok? ==> Separate(r.value, env, gone) && forall x :: RowApart(db, env, x) ==> RowApart(r.value, env, x)
  {
    RowsApart(db, env, gone, row);
    if AfterCreateAssignment(db, now, e, build, tag, row).Ok? {
      AssignmentCommutes(db, env, gone, Assignment(row, e, build, tag, now));
    }
  }

  lemma {:induction false} AssignTagsCommutes(
    db: Db, env: EnvId, gone: set<BuildId>, now: Time, e: EnvId, build: BuildId, tags: seq<TagRow>)
    requires Separate(db, env, gone) && e != env && build !in gone && forall t :: t in tags ==> RowApart(db, env, t.row)
    ensures AfterAssignTags(Without(db, env, gone), now, e, build, tags)
            == WithoutIn(AfterAssignTags(db, now, e, build, tags), env, gone)
    ensures var r := AfterAssignTags(db, now, e, build, tags); r.Ok? ==> Separate(r.value, env, gone)
    decreases tags
  {
    if tags != [] {
      assert tags[0] in tags && forall t :: t in tags[1..] ==> t in tags;
      CreateAssignmentCommutes(db, env, gone, now, e, build, tags[0].tag, tags[0].row);
      var r := AfterCreateAssignment(db, now, e, build, tags[0].tag, tags[0].row);
      if r.Ok? { AssignTagsCommutes(r.value, env, gone, now, e, build, tags[1..]); }
    }
  }

  lemma InvalidationCommutes(db: Db, env: EnvId, gone: set<BuildId>, now: Time, e: EnvId, tags: seq<Tag>)
    requires Separate(db, env, gone) && e != env
    ensures AfterInvalidateUnstarted(Without(db, env, gone), now, e, tags)
            == Without(AfterInvalidateUnstarted(db, now, e, tags), env, gone)
    ensures Separate(AfterInvalidateUnstarted(db, now, e, tags), env, gone)
  {
    var d := Without(db, env, gone);
    forall b
      ensures b in Unstarted(d, e, tags) <==> b in Unstarted(db, e, tags)
    {
      assert forall a :: a in db.assignments && a.env == e ==> (HasGroup(d, a.build, PendingGroup) <==> HasGroup(db, a.build, PendingGroup));
    }
    assert Unstarted(d, e, tags) == Unstarted(db, e, tags);
    assert AfterInvalidateUnstarted(d, now, e, tags).builds == Without(AfterInvalidateUnstarted(db, now, e, tags), env, gone).builds;
  }

  /** The part of the registering transaction before its assignments. */
  lemma BeginningCommutes(db: Db, env: EnvId, gone: set<BuildId>, now: Time, r: RegisterArgs)
    requires Separate(db, env, gone) && r.env != env && r.build !in gone
    ensures var d1 := AfterCreateOrUpdateTemplate(db, r.env, r.team);
            var d2 := AfterInvalidateUnstarted(d1, now, r.env, Tags(Assigned(r)));
            var d3 := AfterCreateTemplateBuild(d2, now, r.build, Waiting);
            var e1 := AfterCreateOrUpdateTemplate(Without(db, env, gone), r.env, r.team);
            var e2 := AfterInvalidateUnstarted(e1, now, r.env, Tags(Assigned(r)));
            && AfterCreateTemplateBuild(e2, now, r.build, Waiting) == WithoutIn(d3, env, gone)
            && (d3.Ok? ==> Separate(d3.value, env, gone) && d3.value.assignments == db.assignments)
  {
    var d1 := AfterCreateOrUpdateTemplate(db, r.env, r.team);
    var d2 := AfterInvalidateUnstarted(d1, now, r.env, Tags(Assigned(r)));
    EnvUpdateCommutes(db, env, gone, r.env, r.team);
    InvalidationCommutes(d1, env, gone, now, r.env, Tags(Assigned(r)));
    PutCommutes(d2.builds, gone, r.build, Build(now, None, Waiting, None, None));
  }

  lemma EnvUpdateCommutes(db: Db, env: EnvId, gone: set<BuildId>, e: EnvId, team: TeamId)
    requires e != env
    ensures AfterCreateOrUpdateTemplate(Without(db, env, gone), e, team) == Without(AfterCreateOrUpdateTemplate(db, e, team), env, gone)
  {
    PutCommutes(db.envs, {env}, e, AfterCreateOrUpdateTemplate(db, e, team).envs[e]);
  }

  lemma AliasesCommute(db: Db, env: EnvId, gone: set<BuildId>, e: EnvId, alias: string, namespace: Option<string>)
    requires AliasApart(db, env, alias, namespace) && e != env
    ensures Taken(Without(db, env, gone), alias, namespace) <==> Taken(db, alias, namespace)
    ensures TakenBy(Without(db, env, gone), alias, namespace, e) <==> TakenBy(db, alias, namespace, e)
  {
    var d := Without(db, env, gone);
    assert forall y :: y in d.aliases <==> y in db.aliases && y.env != env;
  }

  lemma DeleteAliasesCommute(db: Db, env: EnvId, gone: set<BuildId>, e: EnvId)
    ensures AfterDeleteAliases(Without(db, env, gone), e) == Without(AfterDeleteAliases(db, e), env, gone)
  {
    assert AfterDeleteAliases(Without(db, env, gone), e).aliases == Without(AfterDeleteAliases(db, e), env, gone).aliases;
  }

  lemma CreateAliasCommutes(db: Db, env: EnvId, gone: set<BuildId>, x: Alias)
    requires x.env != env && AliasApart(db, env, x.alias, x.namespace)
    ensures AfterCreateAlias(Without(db, env, gone), x) == WithoutIn(AfterCreateAlias(db, x), env, gone)
    ensures AfterUpsertAlias(Without(db, env, gone), x) == WithoutIn(AfterUpsertAlias(db, x), env, gone)
  {
    AliasesCommute(db, env, gone, x.env, x.alias, x.namespace);
    if AfterCreateAlias(db, x).Ok? {
      assert (Without(db, env, gone).aliases + {x}) == Without(AfterCreateAlias(db, x).value, env, gone).aliases;
    }
  }

  lemma ClaimCommutes(db: Db, env: EnvId, gone: set<BuildId>, e: EnvId, claim: Option<AliasClaim>)
    requires e != env
    requires claim.Some? ==> claim.value.alias != env && AliasApart(db, env, claim.value.alias, Some(claim.value.namespace))
    ensures AfterClaimAlias(Without(db, env, gone), e, claim) == WithoutIn(AfterClaimAlias(db, e, claim), env, gone)
  {
    if claim.Some? {
      var c := claim.value;
      AliasesCommute(db, env, gone, e, c.alias, Some(c.namespace));
      DeleteAliasesCommute(db, env, gone, e);
      CreateAliasCommutes(AfterDeleteAliases(db, e), env, gone, Alias(c.alias, Some(c.namespace), e, true));
    }
  }

  /** The part of the registering transaction from its alias on. */
  lemma RestCommutes(db: Db, env: EnvId, gone: set<BuildId>, now: Time, r: RegisterArgs)
    requires Separate(db, env, gone) && Apart(db, env, gone, RegisterBuild(r)) && AfterClaimAlias(db, r.env, r.alias).Ok?
    ensures var d4, e4 := AfterClaimAlias(db, r.env, r.alias), AfterClaimAlias(Without(db, env, gone), r.env, r.alias);
            && e4 == WithoutIn(d4, env, gone)
            && var d5 := AfterAssignTags(d4.value, now, r.env, r.build, Assigned(r));
               && AfterAssignTags(e4.value, now, r.env, r.build, Assigned(r)) == WithoutIn(d5, env, gone)
               && (d5.Ok? ==> Separate(d5.value, env, gone))
  {
    ClaimCommutes(db, env, gone, r.env, r.alias);
    ClaimShape(db, r.env, r.alias);
    var d4 := AfterClaimAlias(db, r.env, r.alias).value;
    assert forall t :: t in Assigned(r) ==> RowApart(d4, env, t.row);
    AssignTagsCommutes(d4, env, gone, now, r.env, r.build, Assigned(r));
  }

  lemma RegisterCommutes(db: Db, env: EnvId, gone: set<BuildId>, now: Time, r: RegisterArgs)
    requires Separate(db, env, gone) && Apart(db, env, gone, RegisterBuild(r))
    ensures AfterRegisterBuild(Without(db, env, gone), now, r) == WithoutIn(AfterRegisterBuild(db, now, r), env, gone)
    ensures AfterRegisterBuild(db, now, r).Ok? ==> Separate(AfterRegisterBuild(db, now, r).value, env, gone)
  {
    var d2 := AfterInvalidateUnstarted(AfterCreateOrUpdateTemplate(db, r.env, r.team), now, r.env, Tags(Assigned(r)));
    var d3 := AfterCreateTemplateBuild(d2, now, r.build, Waiting);
    BeginningCommutes(db, env, gone, now, r);
    if d3.Ok? {
      assert d3.value.aliases == db.aliases && Apart(d3.value, env, gone, RegisterBuild(r));
      ClaimCommutes(d3.value, env, gone, r.env, r.alias);
      if AfterClaimAlias(d3.value, r.env, r.alias).Ok? { RestCommutes(d3.value, env, gone, now, r); }
    }
  }

  lemma UntaggingCommutes(db: Db, env: EnvId, gone: set<BuildId>, e: EnvId, tags: seq<Tag>)
    requires Separate(db, env, gone)
    ensures AfterDeleteTags(Without(db, env, gone), e, tags) == Without(AfterDeleteTags(db, e, tags), env, gone)
    ensures Separate(AfterDeleteTags(db, e, tags), env, gone)
  {
    assert AfterDeleteTags(Without(db, env, gone), e, tags).assignments == Without(AfterDeleteTags(db, e, tags), env, gone).assignments;
  }

  lemma BuildRowCommutes(db: Db, env: EnvId, gone: set<BuildId>, b: BuildId, row: Build)
    requires b in db.builds
    ensures Without(db.(builds := db.builds[b := row]), env, gone)
            == if b in gone then Without(db, env, gone)
               else Without(db, env, gone).(builds := Without(db, env, gone).builds[b := row])
  {
    var d, e := Without(db, env, gone), Without(db.(builds := db.builds[b := row]), env, gone);
    assert e.builds == if b in gone then d.builds else d.builds[b := row];
  }

  lemma StatusCommutes(db: Db, env: EnvId, gone: set<BuildId>, b: BuildId, status: Status, finishedAt: Option<Time>)
    ensures AfterUpdateStatus(Without(db, env, gone), b, status, finishedAt)
            == Without(AfterUpdateStatus(db, b, status, finishedAt), env, gone)
  {
    if b in db.builds { BuildRowCommutes(db, env, gone, b, db.builds[b].(status := status, finishedAt := finishedAt)); }
  }

  lemma NodeCommutes(db: Db, env: EnvId, gone: set<BuildId>, b: BuildId, node: Option<string>)
    ensures AfterUpdateTemplateBuild(Without(db, env, gone), b, node) == Without(AfterUpdateTemplateBuild(db, b, node), env, gone)
  {
    if b in db.builds { BuildRowCommutes(db, env, gone, b, db.builds[b].(node := node)); }
  }

  lemma UpdateCommutes(db: Db, env: EnvId, gone: set<BuildId>, now: Time, s: Stmt)
    requires Separate(db, env, gone) && IsUpdate(s)
    ensures After(Without(db, env, gone), now, s) == WithoutIn(After(db, now, s), env, gone)
    ensures Separate(After(db, now, s).value, env, gone)
  {
    match s {
      case UpdateTemplateBuild(b, node) => NodeCommutes(db, env, gone, b, node);
      case UpdateStatus(b, status, finishedAt) => StatusCommutes(db, env, gone, b, status, finishedAt);
      case FailAndDeactivate(b, status, finishedAt) => StatusCommutes(db, env, gone, b, status, finishedAt);
      case FinishBuild(b, status) => StatusCommutes(db, env, gone, b, status, Some(now));
      case DeleteActive(b) =>
    }
  }

  lemma AfterCommutes(db: Db, env: EnvId, gone: set<BuildId>, now: Time, s: Stmt)
    requires Separate(db, env, gone) && Apart(db, env, gone, s)
    ensures After(Without(db, env, gone), now, s) == WithoutIn(After(db, now, s), env, gone)
    ensures After(db, now, s).Ok? ==> Separate(After(db, now, s).value, env, gone)
  {
    match s {
      case UpsertSnapshot(u) => UpsertCommutes(db, env, gone, now, u);
      case CreateSnapshotTemplateEnv(c) => CreateSnapshotTemplateEnvCommutes(db, env, gone, now, c);
      case DeleteTemplate(e, team) => DeletionsCommute(db, env, gone, e, team);
      case RegisterBuild(r) => RegisterCommutes(db, env, gone, now, r);
      case AssignTags(e, build, rows) => AssignTagsCommutes(db, env, gone, now, e, build, rows);
      case DeleteTags(e, tags) => UntaggingCommutes(db, env, gone, e, tags);
      case CreateAlias(x) => CreateAliasCommutes(db, env, gone, x);
      case UpsertAlias(x) => CreateAliasCommutes(db, env, gone, x);
      case _ => UpdateCommutes(db, env, gone, now, s);
    }
  }

  lemma StepCommutes(db: Db, env: EnvId, gone: set<BuildId>, e: Event)
    requires Separate(db, env, gone) && Apart(db, env, gone, e.stmt)
    ensures Step(Without(db, env, gone), e) == Without(Step(db, e), env, gone) && Separate(Step(db, e), env, gone)
    ensures Outcome(Without(db, env, gone), e) == WithoutIn(Outcome(db, e), env, gone)
  {
    var t := Tick(db, e);
    assert Tick(Without(db, env, gone), e) == Without(t, env, gone);
    AfterCommutes(t, env, gone, Now(db, e), e.stmt);
  }

  ghost predicate AllApart(db: Db, env: EnvId, gone: set<BuildId>, events: seq<Event>)
    decreases |events|
  {
    events == [] || (Apart(db, env, gone, events[0].stmt) && AllApart(Step(db, events[0]), env, gone, events[1..]))
  }

  lemma {:induction false} RunCommutes(db: Db, env: EnvId, gone: set<BuildId>, events: seq<Event>)
    requires Separate(db, env, gone) && AllApart(db, env, gone, events)
    ensures Run(Without(db, env, gone), events) == Without(Run(db, events), env, gone)
    ensures Separate(Run(db, events), env, gone)
    decreases |events|
  {
    if events != [] {
      StepCommutes(db, env, gone, events[0]);
      RunCommutes(Step(db, events[0]), env, gone, events[1..]);
    }
  }

  /** Each transaction succeeds or fails alike, and with the same error. */
  lemma {:induction false} OutcomesAgree(db: Db, env: EnvId, gone: set<BuildId>, events: seq<Event>, k: nat)
    requires Separate(db, env, gone) && AllApart(db, env, gone, events) && k < |events|
    ensures Outcome(At(Without(db, env, gone), events, k), events[k]) == WithoutIn(Outcome(At(db, events, k), events[k]), env, gone)
    decreases k
  {
    StepCommutes(db, env, gone, events[0]);
    if k > 0 {
      OutcomesAgree(Step(db, events[0]), env, gone, events[1..], k - 1);
      assert events[..k][1..] == events[1..][..k - 1];
    }
  }

  function EnvRows(db: Db, env: EnvId): set<Assignment> {
    set a | a in db.assignments && a.env == env
  }

  lemma SameReadyRows(db: Db, env: EnvId, gone: set<BuildId>, other: EnvId)
    requires Separate(db, env, gone) && other != env
    ensures ReadyRows(Without(db, env, gone), EnvRows(Without(db, env, gone), other)) == ReadyRows(db, EnvRows(db, other))
  {
    var d := Without(db, env, gone);
    assert forall a :: a in db.assignments && a.env == other ==> (HasGroup(d, a.build, ReadyGroup) <==> HasGroup(db, a.build, ReadyGroup));
  }

  lemma ReadyTagRows(db: Db, cast: string -> Option<BuildId>, env: EnvId, tag: Option<Tag>)
    ensures ReadyRows(db, TagRows(db, cast, env, tag)) == set a | a in ReadyRows(db, EnvRows(db, env)) && Matches(cast, tag, a)
  {
  }

  lemma ReadyDefaultRows(db: Db, env: EnvId)
    ensures ReadyRows(db, DefaultRows(db, env)) == set a | a in ReadyRows(db, EnvRows(db, env)) && a.tag == DEFAULT_TAG
  {
  }

  lemma SameAnswer(db: Db, env: EnvId, gone: set<BuildId>, cast: string -> Option<BuildId>, other: EnvId, tag: Option<Tag>)
    requires Separate(db, env, gone) && other != env
    ensures Resolve(Without(db, env, gone), cast, other, tag) == Resolve(db, cast, other, tag)
  {
    SameReadyRows(db, env, gone, other);
    ReadyTagRows(db, cast, other, tag);
    ReadyTagRows(Without(db, env, gone), cast, other, tag);
  }

  lemma SameSnapshot(db: Db, env: EnvId, gone: set<BuildId>, s: SandboxId)
    requires Separate(db, env, gone) && s in db.snapshots && db.snapshots[s].env != env && db.snapshots[s].baseEnv != env
    ensures s in Without(db, env, gone).snapshots && LastSnapshot(Without(db, env, gone), s) == LastSnapshot(db, s)
  {
    var other := db.snapshots[s].env;
    SameReadyRows(db, env, gone, other);
    ReadyDefaultRows(db, other);
    ReadyDefaultRows(Without(db, env, gone), other);
  }

  /**
   Whether a template and its exclusive builds are deleted makes no difference to anything
   that keeps apart from them, ever after: the same transactions succeed and fail, and at
   every later time the tables differ by that template's rows only, and every other template
   and snapshot resolves as it would have without the deletion.
   */
  lemma DeletionNeverInterferes(db: Db, env: EnvId, team: TeamId, events: seq<Event>, cast: string -> Option<BuildId>)
    requires Deletes(db, env, team) && AllApart(db, env, Exclusive(db, env), events)
    ensures var with, without := Run(db, events), Run(AfterFullDeletion(db, env, team), events);
            && without == Without(with, env, Exclusive(db, env))
            && (forall k :: 0 <= k < |events| ==> (Outcome(At(AfterFullDeletion(db, env, team), events, k), events[k]).Ok?
                                                   <==> Outcome(At(db, events, k), events[k]).Ok?))
            && (forall other, tag: Option<Tag> :: other != env ==> Resolve(without, cast, other, tag) == Resolve(with, cast, other, tag))
            && (forall s :: s in with.snapshots && with.snapshots[s].env != env && with.snapshots[s].baseEnv != env
                  ==> s in without.snapshots && LastSnapshot(without, s) == LastSnapshot(with, s))
  {
    var gone := Exclusive(db, env);
    forall a | a in db.assignments && a.env != env
      ensures a.build !in gone
    {
      assert Shared(db, env, a.build);
    }
    RunCommutes(db, env, gone, events);
    forall k | 0 <= k < |events|
      ensures Outcome(At(Without(db, env, gone), events, k), events[k]).Ok? <==> Outcome(At(db, events, k), events[k]).Ok?
    {
      OutcomesAgree(db, env, gone, events, k);
    }
    var with := Run(db, events);
    forall other, tag: Option<Tag> | other != env
      ensures Resolve(Without(with, env, gone), cast, other, tag) == Resolve(with, cast, other, tag)
    {
      SameAnswer(with, env, gone, cast, other, tag);
    }
    forall s | s in with.snapshots && with.snapshots[s].env != env && with.snapshots[s].baseEnv != env
      ensures s in Without(with, env, gone).snapshots && LastSnapshot(Without(with, env, gone), s) == LastSnapshot(with, s)
    {
      SameSnapshot(with, env, gone, s);
    }
  }
}
