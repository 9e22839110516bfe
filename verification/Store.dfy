/**
 The template, build and snapshot tables, and what each write query does to them.

 A `Db` is the content of the tables.  `AfterX` is the meaning of query X as a whole: every
 part of the statement reads the tables as they were before it, and foreign keys, unique
 keys and triggers are those of the migrations.  Statements run one after another; `now` is
 the transaction time.  Class `Database` (Database.dfy) carries the queries out part by part.
 */
module Store {
  import opened Wrappers
  import U = Uuid

  type Time = int
  type EnvId = string
  type SandboxId = string
  type Tag = string
  type BuildId = U.Uuid
  type TeamId = U.Uuid
  type RowId = U.Uuid

  const DEFAULT_TAG: Tag := "default"

  datatype Status =
    | Pending | Waiting
    | InProgress | Building | Snapshotting
    | Ready | Uploaded | Success
    | Failed
    | Unknown // any other text

  datatype StatusGroup = PendingGroup | InProgressGroup | ReadyGroup | FailedGroup

  /** The trigger compute_status_group: any unknown text counts as failed. */
  function GroupOf(s: Status): StatusGroup {
    match s
    case Pending | Waiting => PendingGroup
    case InProgress | Building | Snapshotting => InProgressGroup
    case Ready | Uploaded | Success => ReadyGroup
    case Failed | Unknown => FailedGroup
  }

  predicate Finished(s: Status) {
    GroupOf(s) == ReadyGroup || GroupOf(s) == FailedGroup
  }

  datatype Source = TemplateSource | SnapshotSource | SnapshotTemplateSource

  datatype Env = Env(team: TeamId, source: Source, buildCount: nat)

  datatype Build = Build(
    createdAt: Time, finishedAt: Option<Time>, status: Status, team: Option<TeamId>, node: Option<string>)

  datatype Assignment = Assignment(id: RowId, env: EnvId, build: BuildId, tag: Tag, createdAt: Time)

  datatype SnapshotRow = SnapshotRow(
    env: EnvId, baseEnv: EnvId, team: TeamId, secure: bool, allowInternet: Option<bool>, createdAt: Time,
    metadata: map<string, string>, startedAt: Time, originNode: string, autoPause: bool, config: string)

  datatype SnapshotTemplateRow = SnapshotTemplateRow(sandbox: SandboxId, originNode: Option<string>, build: BuildId)

  datatype Alias = Alias(alias: string, namespace: Option<string>, env: EnvId, renamable: bool)

  datatype ActiveRow = ActiveRow(team: TeamId, template: EnvId, tags: seq<Tag>)

  datatype Db = Db(
    clock: Time,
    envs: map<EnvId, Env>,
    builds: map<BuildId, Build>,
    assignments: set<Assignment>,
    snapshots: map<SandboxId, SnapshotRow>,
    snapshotTemplates: map<EnvId, SnapshotTemplateRow>,
    active: map<BuildId, ActiveRow>,
    aliases: set<Alias>)

  const EMPTY: Db := Db(0, map[], map[], {}, map[], map[], map[], {})

  datatype SqlError = UniqueViolation | ForeignKeyViolation | NotNullViolation | AliasIsTemplateId | AliasOfOther

  function RowIds(rows: set<Assignment>): set<RowId> {
    set a | a in rows :: a.id
  }

  predicate HasGroup(db: Db, build: BuildId, g: StatusGroup) {
    build in db.builds && GroupOf(db.builds[build].status) == g
  }

  /** The trigger trigger_backfill_team_id: a build's first assignment fixes its team. */
  function BackfillTeam(builds: map<BuildId, Build>, build: BuildId, team: TeamId): map<BuildId, Build>
    requires build in builds
  {
    if builds[build].team.None? then builds[build := builds[build].(team := Some(team))] else builds
  }

  /** Inserts an assignment row, trigger included. */
  function WithAssignment(db: Db, a: Assignment): Db
    requires a.env in db.envs && a.build in db.builds
  {
    db.(assignments := db.assignments + {a}, builds := BackfillTeam(db.builds, a.build, db.envs[a.env].team))
  }

  datatype UpsertArgs = UpsertArgs(
    template: EnvId, team: TeamId, sandbox: SandboxId, baseEnv: EnvId, metadata: map<string, string>,
    startedAt: Time, secure: bool, allowInternet: Option<bool>, originNode: string, autoPause: bool,
    config: string, status: Status, build: BuildId, row: RowId)

  function FirstSnapshot(u: UpsertArgs, now: Time): SnapshotRow {
    SnapshotRow(u.template, u.baseEnv, u.team, u.secure, u.allowInternet, now,
                u.metadata, u.startedAt, u.originNode, u.autoPause, u.config)
  }

  function RefreshedSnapshot(s: SnapshotRow, u: UpsertArgs): SnapshotRow {
    s.(metadata := u.metadata, startedAt := u.startedAt, originNode := u.originNode,
       autoPause := u.autoPause, config := u.config)
  }

  /** UpsertSnapshot; `build` and `row` are the ids the database generates. */
  function AfterUpsertSnapshot(db: Db, now: Time, u: UpsertArgs): Result<Db, SqlError> {
    var known := u.sandbox in db.snapshots;
    var env := if known then db.snapshots[u.sandbox].env else u.template;
    var envs := if known then db.envs else db.envs[u.template := Env(u.team, SnapshotSource, 1)];
    var snapshot := if known then RefreshedSnapshot(db.snapshots[u.sandbox], u) else FirstSnapshot(u, now);
    if (!known && u.template in db.envs) || u.build in db.builds || u.row in RowIds(db.assignments) then
      Err(UniqueViolation)
    else if env !in envs || (!known && u.baseEnv !in envs) then
      Err(ForeignKeyViolation)
    else
      Ok(WithAssignment(
           db.(envs := envs,
               snapshots := db.snapshots[u.sandbox := snapshot],
               builds := db.builds[u.build := Build(now, None, u.status, None, Some(u.originNode))]),
           Assignment(u.row, env, u.build, DEFAULT_TAG, now)))
  }

  datatype SnapshotTemplateArgs = SnapshotTemplateArgs(
    env: EnvId, team: TeamId, sandbox: SandboxId, originNode: Option<string>, build: Option<BuildId>,
    tag: Tag, row: RowId)

  /** CreateSnapshotTemplateEnv: a new env that shares an existing build. */
  function AfterCreateSnapshotTemplateEnv(db: Db, now: Time, c: SnapshotTemplateArgs): Result<Db, SqlError> {
    if c.env in db.envs || c.env in db.snapshotTemplates || c.row in RowIds(db.assignments) then
      Err(UniqueViolation)
    else if c.build.None? then
      Err(NotNullViolation)
    else if c.build.value !in db.builds then
      Err(ForeignKeyViolation)
    else
      Ok(WithAssignment(
           db.(envs := db.envs[c.env := Env(c.team, SnapshotTemplateSource, 1)],
               snapshotTemplates := db.snapshotTemplates[c.env := SnapshotTemplateRow(c.sandbox, c.originNode, c.build.value)]),
           Assignment(c.row, c.env, c.build.value, c.tag, now)))
  }

  predicate Deletes(db: Db, env: EnvId, team: TeamId) {
    env in db.envs && db.envs[env].team == team
  }

  /** Deleting an env row cascades to every row that refers to it, snapshots by either of their two env columns. */
  function WithoutEnv(db: Db, env: EnvId): Db {
    db.(envs := db.envs - {env},
        assignments := (set a | a in db.assignments && a.env != env),
        snapshots := (map s | s in db.snapshots && db.snapshots[s].env != env && db.snapshots[s].baseEnv != env
                        :: db.snapshots[s]),
        snapshotTemplates := db.snapshotTemplates - {env},
        aliases := (set x | x in db.aliases && x.env != env))
  }

  /** DeleteTemplate: nothing happens unless the env belongs to the team. */
  function AfterDeleteTemplate(db: Db, env: EnvId, team: TeamId): Db {
    if Deletes(db, env, team) then WithoutEnv(db, env) else db
  }

  /** CreateOrUpdateTemplate. */
  function AfterCreateOrUpdateTemplate(db: Db, env: EnvId, team: TeamId): Db {
    db.(envs := db.envs[env := if env in db.envs
                               then db.envs[env].(buildCount := db.envs[env].buildCount + 1)
                               else Env(team, TemplateSource, 1)])
  }

  /** The builds InvalidateUnstartedTemplateBuilds picks. */
  function Unstarted(db: Db, env: EnvId, tags: seq<Tag>): set<BuildId> {
    set a | a in db.assignments && a.env == env && a.tag in tags && HasGroup(db, a.build, PendingGroup) :: a.build
  }

  function Invalidated(b: Build, now: Time): Build {
    b.(status := Failed, finishedAt := Some(now))
  }

  /** InvalidateUnstartedTemplateBuilds. */
  function AfterInvalidateUnstarted(db: Db, now: Time, env: EnvId, tags: seq<Tag>): Db {
    var gone := Unstarted(db, env, tags);
    db.(builds := (map b | b in db.builds :: if b in gone then Invalidated(db.builds[b], now) else db.builds[b]),
        active := db.active - gone)
  }

  /** CreateTemplateBuild. */
  function AfterCreateTemplateBuild(db: Db, now: Time, build: BuildId, status: Status): Result<Db, SqlError> {
    if build in db.builds then Err(UniqueViolation)
    else Ok(db.(builds := db.builds[build := Build(now, None, status, None, None)]))
  }

  /** CreateTemplateBuildAssignment. */
  function AfterCreateAssignment(db: Db, now: Time, env: EnvId, build: BuildId, tag: Tag, row: RowId): Result<Db, SqlError> {
    if row in RowIds(db.assignments) then Err(UniqueViolation)
    else if env !in db.envs || build !in db.builds then Err(ForeignKeyViolation)
    else Ok(WithAssignment(db, Assignment(row, env, build, tag, now)))
  }

  /** CreateActiveTemplateBuild. */
  function AfterCreateActive(db: Db, build: BuildId, team: TeamId, template: EnvId, tags: seq<Tag>): Result<Db, SqlError> {
    if build in db.active then Err(UniqueViolation)
    else Ok(db.(active := db.active[build := ActiveRow(team, template, tags)]))
  }

  datatype TagRow = TagRow(tag: Tag, row: RowId)

  function Tags(ts: seq<TagRow>): (r: seq<Tag>)
    ensures |r| == |ts|
  {
    seq(|ts|, i requires 0 <= i < |ts| => ts[i].tag)
  }

  /** The alias a registration asks for, in the namespace of its team. */
  datatype AliasClaim = AliasClaim(alias: string, namespace: string)

  /** `defaultRow` is the row id generated if no tags are given. */
  datatype RegisterArgs = RegisterArgs(
    env: EnvId, team: TeamId, build: BuildId, tags: seq<TagRow>, defaultRow: RowId, alias: Option<AliasClaim>)

  /** A registration without tags is one under the default tag. */
  function Assigned(r: RegisterArgs): (rows: seq<TagRow>)
    ensures rows != [] && (r.tags != [] ==> rows == r.tags)
  {
    if r.tags == [] then [TagRow(DEFAULT_TAG, r.defaultRow)] else r.tags
  }

  /** The (alias, namespace) pair is taken; NULL namespaces count as equal. */
  predicate Taken(db: Db, alias: string, namespace: Option<string>) {
    exists y :: y in db.aliases && y.alias == alias && y.namespace == namespace
  }

  predicate TakenBy(db: Db, alias: string, namespace: Option<string>, env: EnvId) {
    exists y :: y in db.aliases && y.alias == alias && y.namespace == namespace && y.env == env
  }

  /** CreateTemplateAlias. */
  function AfterCreateAlias(db: Db, x: Alias): Result<Db, SqlError> {
    if Taken(db, x.alias, x.namespace) then Err(UniqueViolation)
    else if x.env !in db.envs then Err(ForeignKeyViolation)
    else Ok(db.(aliases := db.aliases + {x}))
  }

  /** UpsertTemplateAliasIfNotExists: nothing happens if the pair is taken. */
  function AfterUpsertAlias(db: Db, x: Alias): Result<Db, SqlError> {
    if Taken(db, x.alias, x.namespace) then Ok(db) else AfterCreateAlias(db, x)
  }

  /** DeleteOtherTemplateAliases. */
  function AfterDeleteAliases(db: Db, env: EnvId): Db {
    db.(aliases := set x | x in db.aliases && !(x.env == env && x.renamable))
  }

  /** The alias part of a registration: the alias must not be a template id nor another template's, and a new one replaces the old. */
  function AfterClaimAlias(db: Db, env: EnvId, claim: Option<AliasClaim>): Result<Db, SqlError> {
    match claim
    case None => Ok(db)
    case Some(c) =>
      if c.alias in db.envs then Err(AliasIsTemplateId)
      else if TakenBy(db, c.alias, Some(c.namespace), env) then Ok(db)
      else if Taken(db, c.alias, Some(c.namespace)) then Err(AliasOfOther)
      else AfterCreateAlias(AfterDeleteAliases(db, env), Alias(c.alias, Some(c.namespace), env, true))
  }

  function AfterAssignTags(db: Db, now: Time, env: EnvId, build: BuildId, tags: seq<TagRow>): Result<Db, SqlError>
    decreases tags
  {
    if tags == [] then Ok(db)
    else
      var d :- AfterCreateAssignment(db, now, env, build, tags[0].tag, tags[0].row);
      AfterAssignTags(d, now, env, build, tags[1..])
  }

  /** The transaction that registers a template build, all at one transaction time and all or nothing. */
  function AfterRegisterBuild(db: Db, now: Time, r: RegisterArgs): Result<Db, SqlError> {
    var d1 := AfterCreateOrUpdateTemplate(db, r.env, r.team);
    var d2 := AfterInvalidateUnstarted(d1, now, r.env, Tags(Assigned(r)));
    var d3 :- AfterCreateTemplateBuild(d2, now, r.build, Waiting);
    var d4 :- AfterClaimAlias(d3, r.env, r.alias);
    var d5 :- AfterAssignTags(d4, now, r.env, r.build, Assigned(r));
    AfterCreateActive(d5, r.build, r.team, r.env, Tags(Assigned(r)))
  }

  /** DeleteTemplateTags: the rows of the tags go, whatever their builds are doing. */
  function AfterDeleteTags(db: Db, env: EnvId, tags: seq<Tag>): Db {
    db.(assignments := set a | a in db.assignments && !(a.env == env && a.tag in tags))
  }

  /** UpdateTemplateBuild: the node the build was started on. */
  function AfterUpdateTemplateBuild(db: Db, build: BuildId, node: Option<string>): Db {
    if build in db.builds then db.(builds := db.builds[build := db.builds[build].(node := node)]) else db
  }

  /** UpdateEnvBuildStatus. */
  function AfterUpdateStatus(db: Db, build: BuildId, status: Status, finishedAt: Option<Time>): Db {
    if build in db.builds
    then db.(builds := db.builds[build := db.builds[build].(status := status, finishedAt := finishedAt)])
    else db
  }

  /** DeleteActiveTemplateBuild. */
  function AfterDeleteActive(db: Db, build: BuildId): Db {
    db.(active := db.active - {build})
  }

  /** FailTemplateBuildAndDeactivate; FinishTemplateBuild is the same with `finishedAt` the transaction time. */
  function AfterDeactivate(db: Db, build: BuildId, status: Status, finishedAt: Option<Time>): Db {
    AfterDeleteActive(AfterUpdateStatus(db, build, status, finishedAt), build)
  }

  /** The transactions the API issues. */
  datatype Stmt =
    | UpsertSnapshot(upsert: UpsertArgs)
    | CreateSnapshotTemplateEnv(create: SnapshotTemplateArgs)
    | DeleteTemplate(env: EnvId, team: TeamId)
    | RegisterBuild(register: RegisterArgs)
    | AssignTags(env: EnvId, build: BuildId, rows: seq<TagRow>)
    | DeleteTags(env: EnvId, tags: seq<Tag>)
    | UpdateTemplateBuild(build: BuildId, node: Option<string>)
    | UpdateStatus(build: BuildId, status: Status, finishedAt: Option<Time>)
    | FailAndDeactivate(build: BuildId, status: Status, finishedAt: Option<Time>)
    | FinishBuild(build: BuildId, status: Status)
    | DeleteActive(build: BuildId)
    | CreateAlias(row_: Alias)
    | UpsertAlias(row_: Alias)

  function After(db: Db, now: Time, s: Stmt): Result<Db, SqlError> {
    match s
    case UpsertSnapshot(u) => AfterUpsertSnapshot(db, now, u)
    case CreateSnapshotTemplateEnv(c) => AfterCreateSnapshotTemplateEnv(db, now, c)
    case DeleteTemplate(env, team) => Ok(AfterDeleteTemplate(db, env, team))
    case RegisterBuild(r) => AfterRegisterBuild(db, now, r)
    case AssignTags(env, build, rows) => AfterAssignTags(db, now, env, build, rows)
    case DeleteTags(env, tags) => Ok(AfterDeleteTags(db, env, tags))
    case UpdateTemplateBuild(build, node) => Ok(AfterUpdateTemplateBuild(db, build, node))
    case UpdateStatus(build, status, finishedAt) => Ok(AfterUpdateStatus(db, build, status, finishedAt))
    case FailAndDeactivate(build, status, finishedAt) => Ok(AfterDeactivate(db, build, status, finishedAt))
    case FinishBuild(build, status) => Ok(AfterDeactivate(db, build, status, Some(now)))
    case DeleteActive(build) => Ok(AfterDeleteActive(db, build))
    case CreateAlias(x) => AfterCreateAlias(db, x)
    case UpsertAlias(x) => AfterUpsertAlias(db, x)
  }

  /** One transaction, `delay` ticks after the earliest possible time: transaction times strictly increase. */
  datatype Event = Event(delay: nat, stmt: Stmt)

  function Now(db: Db, e: Event): Time {
    db.clock + 1 + e.delay
  }

  /** The tables at the transaction time of the event, before its statement. */
  function Tick(db: Db, e: Event): Db {
    db.(clock := Now(db, e))
  }

  function Outcome(db: Db, e: Event): Result<Db, SqlError> {
    After(Tick(db, e), Now(db, e), e.stmt)
  }

  /** A failed transaction changes nothing. */
  function Step(db: Db, e: Event): Db {
    match Outcome(db, e)
    case Ok(d) => d
    case Err(_) => Tick(db, e)
  }

  function Run(db: Db, events: seq<Event>): Db
    decreases |events|
  {
    if events == [] then db else Run(Step(db, events[0]), events[1..])
  }
}
