/**
 Which build a template tag, or a sandbox's snapshot, resolves to.

 The queries order by created_at and take one row without a tie-break, so a resolution is
 the set of builds the database may answer with; `Inv` makes it at most one.
 */
module Resolution {
  import opened Wrappers
  import opened Store
  import opened StoreInvariants

  function ReadyRows(db: Db, rows: set<Assignment>): set<Assignment> {
    set a | a in rows && HasGroup(db, a.build, ReadyGroup)
  }

  /** `ORDER BY created_at DESC LIMIT 1`: the rows that may come first. */
  function Newest(rows: set<Assignment>): set<Assignment> {
    set a | a in rows && (forall b :: b in rows ==> b.createdAt <= a.createdAt)
  }

  function BuildsOf(rows: set<Assignment>): set<BuildId> {
    set a | a in rows :: a.build
  }

  /** `tag = COALESCE($1, 'default') OR build_id = try_cast_uuid($1)`; `cast` is try_cast_uuid. */
  predicate Matches(cast: string -> Option<BuildId>, tag: Option<Tag>, a: Assignment) {
    a.tag == (if tag.Some? then tag.value else DEFAULT_TAG) || (tag.Some? && cast(tag.value) == Some(a.build))
  }

  function TagRows(db: Db, cast: string -> Option<BuildId>, env: EnvId, tag: Option<Tag>): set<Assignment> {
    set a | a in db.assignments && a.env == env && Matches(cast, tag, a)
  }

  predicate IsTemplate(db: Db, env: EnvId) {
    env in db.envs && db.envs[env].source != SnapshotSource
  }

  /** GetTemplateWithBuildByTag. */
  function Resolve(db: Db, cast: string -> Option<BuildId>, env: EnvId, tag: Option<Tag>): set<BuildId> {
    if IsTemplate(db, env) then BuildsOf(Newest(ReadyRows(db, TagRows(db, cast, env, tag)))) else {}
  }

  function DefaultRows(db: Db, env: EnvId): set<Assignment> {
    set a | a in db.assignments && a.env == env && a.tag == DEFAULT_TAG
  }

  /** The build of GetLastSnapshot, and of the same sandbox's row in GetSnapshotsWithCursor. */
  function LastSnapshot(db: Db, sandbox: SandboxId): set<BuildId> {
    if sandbox in db.snapshots then BuildsOf(Newest(ReadyRows(db, DefaultRows(db, db.snapshots[sandbox].env)))) else {}
  }

  lemma {:induction false} NewestExists(rows: set<Assignment>)
    requires rows != {}
    ensures Newest(rows) != {}
  {
    var a :| a in rows;
    var rest := rows - {a};
    if rest != {} {
      NewestExists(rest);
      var m :| m in Newest(rest);
      var best := if a.createdAt >= m.createdAt then a else m;
      assert rows == rest + {a};
      assert best in Newest(rows);
    } else {
      assert rows == {a};
      assert a in Newest(rows);
    }
  }

  /** Rows of one time are about one build. */
  ghost predicate Unambiguous(rows: set<Assignment>) {
    forall a, b :: a in rows && b in rows && a.createdAt == b.createdAt ==> a.build == b.build
  }

  /** Unambiguous rows give one answer, and give one as soon as there is a row. */
  lemma OneAnswer(rows: set<Assignment>)
    requires Unambiguous(rows)
    ensures |BuildsOf(Newest(rows))| <= 1
    ensures BuildsOf(Newest(rows)) == {} <==> rows == {}
  {
    if rows != {} {
      NewestExists(rows);
      var a :| a in Newest(rows);
      assert forall b :: b in Newest(rows) ==> b.build == a.build;
      assert a.build in BuildsOf(Newest(rows));
      assert BuildsOf(Newest(rows)) == {a.build};
    }
  }

  /** Some row of `b` is newer than every row of another build. */
  ghost predicate Leads(rows: set<Assignment>, b: BuildId) {
    exists a :: a in rows && a.build == b && forall c :: c in rows && c.build != b ==> c.createdAt < a.createdAt
  }

  lemma LeaderIsAnswer(rows: set<Assignment>, b: BuildId)
    requires Unambiguous(rows)
    ensures BuildsOf(Newest(rows)) == {b} <==> Leads(rows, b)
  {
    if BuildsOf(Newest(rows)) == {b} {
      assert b in BuildsOf(Newest(rows));
      var a :| a in Newest(rows) && a.build == b;
      assert forall c :: c in rows && c.build != b ==> c.createdAt < a.createdAt;
    }
    if Leads(rows, b) {
      var a :| a in rows && a.build == b && forall c :: c in rows && c.build != b ==> c.createdAt < a.createdAt;
      OneAnswer(rows);
      NewestExists(rows);
      var m :| m in Newest(rows);
      assert m.build == b && b in BuildsOf(Newest(rows));
    }
  }

  lemma InvUnambiguous(db: Db, rows: set<Assignment>)
    requires Inv(db) && rows <= db.assignments
    ensures Unambiguous(rows)
  {
  }

  /** A tag resolves to `b` exactly when the newest of its rows whose build is ready is a row of `b`; there is never a second answer. */
  lemma ResolveMeaning(db: Db, cast: string -> Option<BuildId>, env: EnvId, tag: Option<Tag>, b: BuildId)
    requires Inv(db)
    ensures |Resolve(db, cast, env, tag)| <= 1
    ensures Resolve(db, cast, env, tag) == {b}
            <==> IsTemplate(db, env) && Leads(ReadyRows(db, TagRows(db, cast, env, tag)), b)
  {
    var rows := ReadyRows(db, TagRows(db, cast, env, tag));
    InvUnambiguous(db, rows);
    OneAnswer(rows);
    LeaderIsAnswer(rows, b);
  }

  // ----- Work in flight never moves a tag -----

  /** The statement neither publishes a ready build nor retracts one: it registers, starts, fails, assigns or untags unfinished builds. */
  ghost predicate InFlight(db: Db, s: Stmt) {
    match s
    case UpsertSnapshot(u) => GroupOf(u.status) != ReadyGroup
    case CreateSnapshotTemplateEnv(c) => c.build.Some? ==> !HasGroup(db, c.build.value, ReadyGroup)
    case DeleteTemplate(env, team) => !Deletes(db, env, team)
    case AssignTags(_, build, _) => !HasGroup(db, build, ReadyGroup)
    case DeleteTags(env, tags) =>
      forall a :: a in db.assignments && a.env == env && a.tag in tags ==> !HasGroup(db, a.build, ReadyGroup)
    case UpdateStatus(build, status, _) => !HasGroup(db, build, ReadyGroup) && GroupOf(status) != ReadyGroup
    case FailAndDeactivate(build, status, _) => !HasGroup(db, build, ReadyGroup) && GroupOf(status) != ReadyGroup
    case FinishBuild(build, status) => !HasGroup(db, build, ReadyGroup) && GroupOf(status) != ReadyGroup
    case _ => true
  }

  /** The same rows have a ready build, existing envs keep team and source, and snapshots keep their envs. */
  ghost predicate SameReady(db: Db, d: Db) {
    && ReadyRows(db, db.assignments) == ReadyRows(d, d.assignments)
    && db.envs.Keys <= d.envs.Keys
    && (forall e :: e in db.envs ==> d.envs[e].source == db.envs[e].source)
    && (forall s :: s in db.snapshots ==> s in d.snapshots && d.snapshots[s].env == db.snapshots[s].env)
  }

  lemma SameReadyTransitive(a: Db, b: Db, c: Db)
    requires SameReady(a, b) && SameReady(b, c)
    ensures SameReady(a, c)
  {
  }

  lemma SameReadyResolves(db: Db, d: Db, cast: string -> Option<BuildId>, env: EnvId, tag: Option<Tag>)
    requires Inv(db) && SameReady(db, d)
    ensures Resolve(d, cast, env, tag) == Resolve(db, cast, env, tag)
  {
    assert forall x: Db :: ReadyRows(x, TagRows(x, cast, env, tag))
                           == set a | a in ReadyRows(x, x.assignments) && a.env == env && Matches(cast, tag, a);
    if env !in db.envs {
      assert forall a :: a in ReadyRows(db, db.assignments) ==> a.env in db.envs;
      assert ReadyRows(d, TagRows(d, cast, env, tag)) == {};
    }
  }

  lemma SameReadySnapshots(db: Db, d: Db, s: SandboxId)
    requires SameReady(db, d) && s in db.snapshots
    ensures LastSnapshot(d, s) == LastSnapshot(db, s)
  {
    var env := db.snapshots[s].env;
    assert forall x: Db :: ReadyRows(x, DefaultRows(x, env))
                           == set a | a in ReadyRows(x, x.assignments) && a.env == env && a.tag == DEFAULT_TAG;
  }

  /** Enough for SameReady: rows are only added, for builds that are not ready, and no build changes between ready and not. */
  lemma KeepsReady(db: Db, d: Db)
    requires forall b :: HasGroup(d, b, ReadyGroup) <==> HasGroup(db, b, ReadyGroup)
    requires db.assignments <= d.assignments
    requires forall a :: a in d.assignments && a !in db.assignments ==> !HasGroup(d, a.build, ReadyGroup)
    requires db.envs.Keys <= d.envs.Keys && forall e :: e in db.envs ==> d.envs[e].source == db.envs[e].source
    requires forall s :: s in db.snapshots ==> s in d.snapshots && d.snapshots[s].env == db.snapshots[s].env
    ensures SameReady(db, d)
  {
  }

  lemma TaggedKeepsReady(db: Db, d: Db, env: EnvId, build: BuildId)
    requires Tagged(db, d, env, build) && !HasGroup(db, build, ReadyGroup)
    ensures SameReady(db, d)
  {
    assert forall b :: b in db.builds ==> d.builds[b].status == db.builds[b].status;
    KeepsReady(db, d);
  }

  lemma RegistrationBeginsReady(db: Db, now: Time, r: RegisterArgs)
    requires AfterRegisterBuild(db, now, r).Ok?
    ensures SameReady(db, BeforeAlias(db, now, r))
  {
    var d1 := AfterCreateOrUpdateTemplate(db, r.env, r.team);
    assert SameReady(db, d1);
    var d2 := AfterInvalidateUnstarted(d1, now, r.env, Tags(Assigned(r)));
    KeepsReady(d1, d2);
    KeepsReady(d2, BeforeAlias(db, now, r));
    SameReadyTransitive(db, d1, d2);
    SameReadyTransitive(db, d2, BeforeAlias(db, now, r));
  }

  lemma RegisterKeepsReady(db: Db, now: Time, r: RegisterArgs)
    requires AfterRegisterBuild(db, now, r).Ok?
    ensures SameReady(db, AfterRegisterBuild(db, now, r).value)
  {
    var d2, d3, d4 := BeforeAlias(db, now, r), BeforeTags(db, now, r), AfterTags(db, now, r);
    RegistrationBeginsReady(db, now, r);
    RegisterShape(db, now, r);
    TaggedKeepsReady(d3, d4, r.env, r.build);
    SameReadyTransitive(db, d2, d4);
  }

  lemma UntaggingKeepsReady(db: Db, env: EnvId, tags: seq<Tag>)
    requires forall a :: a in db.assignments && a.env == env && a.tag in tags ==> !HasGroup(db, a.build, ReadyGroup)
    ensures SameReady(db, AfterDeleteTags(db, env, tags))
  {
    assert ReadyRows(AfterDeleteTags(db, env, tags), AfterDeleteTags(db, env, tags).assignments) == ReadyRows(db, db.assignments);
  }

  lemma StatusKeepsReady(db: Db, b: BuildId, status: Status, finishedAt: Option<Time>)
    requires !HasGroup(db, b, ReadyGroup) && GroupOf(status) != ReadyGroup
    ensures SameReady(db, AfterUpdateStatus(db, b, status, finishedAt))
  {
    KeepsReady(db, AfterUpdateStatus(db, b, status, finishedAt));
  }

  lemma UpdateKeepsReady(db: Db, now: Time, s: Stmt)
    requires InFlight(db, s) && IsUpdate(s)
    ensures SameReady(db, After(db, now, s).value)
  {
    match s {
      case UpdateTemplateBuild(_, _) => KeepsReady(db, After(db, now, s).value);
      case UpdateStatus(b, status, finishedAt) => StatusKeepsReady(db, b, status, finishedAt);
      case FailAndDeactivate(b, status, finishedAt) => StatusKeepsReady(db, b, status, finishedAt);
      case FinishBuild(b, status) => StatusKeepsReady(db, b, status, Some(now));
      case DeleteActive(_) =>
    }
  }

  lemma UpsertKeepsReady(db: Db, now: Time, u: UpsertArgs)
    requires GroupOf(u.status) != ReadyGroup && AfterUpsertSnapshot(db, now, u).Ok?
    ensures SameReady(db, AfterUpsertSnapshot(db, now, u).value)
  {
    KeepsReady(db, AfterUpsertSnapshot(db, now, u).value);
  }

  lemma SharingKeepsReady(db: Db, now: Time, c: SnapshotTemplateArgs)
    requires InFlight(db, CreateSnapshotTemplateEnv(c)) && AfterCreateSnapshotTemplateEnv(db, now, c).Ok?
    ensures SameReady(db, AfterCreateSnapshotTemplateEnv(db, now, c).value)
  {
    KeepsReady(db, AfterCreateSnapshotTemplateEnv(db, now, c).value);
  }

  lemma AfterKeepsReady(db: Db, now: Time, s: Stmt)
    requires InFlight(db, s) && After(db, now, s).Ok?
    ensures SameReady(db, After(db, now, s).value)
  {
    var d := After(db, now, s).value;
    if IsUpdate(s) {
      UpdateKeepsReady(db, now, s);
    } else {
      match s {
        case RegisterBuild(r) => RegisterKeepsReady(db, now, r);
        case UpsertSnapshot(u) => UpsertKeepsReady(db, now, u);
        case CreateSnapshotTemplateEnv(c) => SharingKeepsReady(db, now, c);
        case AssignTags(env, build, rows) =>
          AssignTagsShape(db, now, env, build, rows);
          TaggedKeepsReady(db, d, env, build);
        case DeleteTags(env, tags) => UntaggingKeepsReady(db, env, tags);
        case _ => KeepsReady(db, d);
      }
    }
  }

  lemma StepKeepsReady(db: Db, e: Event)
    requires InFlight(db, e.stmt)
    ensures SameReady(db, Step(db, e))
  {
    var t := Tick(db, e);
    assert SameReady(db, t);
    if Outcome(db, e).Ok? {
      AfterKeepsReady(t, Now(db, e), e.stmt);
      SameReadyTransitive(db, t, Step(db, e));
    }
  }

  ghost predicate AllInFlight(db: Db, events: seq<Event>)
    decreases |events|
  {
    events == [] || (InFlight(db, events[0].stmt) && AllInFlight(Step(db, events[0]), events[1..]))
  }

  lemma {:induction false} RunKeepsReady(db: Db, events: seq<Event>)
    requires AllInFlight(db, events)
    ensures SameReady(db, Run(db, events))
    decreases |events|
  {
    if events != [] {
      var d := Step(db, events[0]);
      StepKeepsReady(db, events[0]);
      RunKeepsReady(d, events[1..]);
      SameReadyTransitive(db, d, Run(db, events));
    }
  }

  /** No sequence of registering, assigning, starting, invalidating or failing not-yet-ready builds changes what any tag of any template, or any snapshot, resolves to. */
  lemma InFlightWorkMovesNoTag(db: Db, events: seq<Event>)
    requires Inv(db) && AllInFlight(db, events)
    ensures forall cast: string -> Option<BuildId>, env: EnvId, tag: Option<Tag> ::
              Resolve(Run(db, events), cast, env, tag) == Resolve(db, cast, env, tag)
    ensures forall s :: s in db.snapshots ==> LastSnapshot(Run(db, events), s) == LastSnapshot(db, s)
  {
    RunKeepsReady(db, events);
    forall cast: string -> Option<BuildId>, env: EnvId, tag: Option<Tag>
      ensures Resolve(Run(db, events), cast, env, tag) == Resolve(db, cast, env, tag)
    {
      SameReadyResolves(db, Run(db, events), cast, env, tag);
    }
    forall s | s in db.snapshots
      ensures LastSnapshot(Run(db, events), s) == LastSnapshot(db, s)
    {
      SameReadySnapshots(db, Run(db, events), s);
    }
  }

  // ----- Publishing a build -----

  /** Some ready row is newer than every row of `b`. */
  ghost predicate Superseded(rows: set<Assignment>, ready: set<Assignment>, b: BuildId) {
    exists r :: r in ready && forall a :: a in rows && a.build == b ==> a.createdAt < r.createdAt
  }

  /** Adding all rows of `b` to rows of other builds: they take the lead unless a row among the others is newer. */
  lemma AddingRows(others: set<Assignment>, mine: set<Assignment>, b: BuildId)
    requires Unambiguous(others + mine) && mine != {}
    requires (forall a :: a in mine ==> a.build == b) && (forall a :: a in others ==> a.build != b)
    ensures BuildsOf(Newest(others + mine))
            == if Superseded(mine, others, b) then BuildsOf(Newest(others)) else {b}
  {
    var rows := others + mine;
    if Superseded(mine, others, b) {
      var r :| r in others && forall a :: a in mine && a.build == b ==> a.createdAt < r.createdAt;
      assert Newest(rows) == Newest(others);
    } else {
      NewestExists(mine);
      var m :| m in Newest(mine);
      assert forall c :: c in rows && c.build != b ==> c.createdAt < m.createdAt by {
        forall c | c in rows && c.build != b
          ensures c.createdAt < m.createdAt
        {
          assert c in others;
          var a :| a in mine && a.build == b && !(a.createdAt < c.createdAt);
        }
      }
      assert Leads(rows, b);
      LeaderIsAnswer(rows, b);
    }
  }

  /**
   Exactly what finishing a build does: a tag with rows of the build moves to it unless a
   ready row is newer, and every other tag stays; in particular a slow build that finishes
   late never takes a tag back from a newer one.
   */
  lemma FinishPublishes(db: Db, e: Event, cast: string -> Option<BuildId>, env: EnvId, tag: Option<Tag>)
    requires Inv(db) && e.stmt.FinishBuild? && !HasGroup(db, e.stmt.build, ReadyGroup)
    requires GroupOf(e.stmt.status) == ReadyGroup && IsTemplate(db, env)
    ensures var rows := TagRows(db, cast, env, tag);
            var mine := set a | a in rows && a.build == e.stmt.build;
            Resolve(Step(db, e), cast, env, tag)
            == if mine == {} || Superseded(mine, ReadyRows(db, rows), e.stmt.build)
               then Resolve(db, cast, env, tag)
               else {e.stmt.build}
  {
    var b, rows := e.stmt.build, TagRows(db, cast, env, tag);
    var mine := set a | a in rows && a.build == b;
    FinishAddsRows(db, e, rows);
    InvUnambiguous(db, ReadyRows(db, rows) + mine);
    if mine != {} {
      AddingRows(ReadyRows(db, rows), mine, b);
    } else {
      assert ReadyRows(db, rows) + mine == ReadyRows(db, rows);
    }
  }

  lemma FinishAddsRows(db: Db, e: Event, rows: set<Assignment>)
    requires e.stmt.FinishBuild? && GroupOf(e.stmt.status) == ReadyGroup
    requires forall a :: a in rows ==> a.build in db.builds
    ensures Step(db, e).assignments == db.assignments && Step(db, e).envs == db.envs
    ensures ReadyRows(Step(db, e), rows) == ReadyRows(db, rows) + set a | a in rows && a.build == e.stmt.build
  {
    var d, b := Step(db, e), e.stmt.build;
    assert forall c :: c != b ==> (HasGroup(d, c, ReadyGroup) <==> HasGroup(db, c, ReadyGroup));
    assert b in db.builds ==> HasGroup(d, b, ReadyGroup);
  }

  // ----- Deleting tags -----

  /** The rows a tag deletion leaves. */
  function Left(rows: set<Assignment>, tags: seq<Tag>): set<Assignment> {
    set a | a in rows && a.tag !in tags
  }

  lemma UntaggedRows(db: Db, cast: string -> Option<BuildId>, env: EnvId, tags: seq<Tag>, tag: Option<Tag>)
    ensures var d := AfterDeleteTags(db, env, tags);
            ReadyRows(d, TagRows(d, cast, env, tag)) == Left(ReadyRows(db, TagRows(db, cast, env, tag)), tags)
  {
  }

  /**
   Deleting tags leaves every other env alone; on its own env a reference then names `b` exactly
   when `b` leads among the ready rows it matched before whose tags were not deleted.
   */
  lemma UntaggingMeaning(
    db: Db, cast: string -> Option<BuildId>, env: EnvId, tags: seq<Tag>, other: EnvId, tag: Option<Tag>, b: BuildId)
    requires Inv(db)
    ensures var d := AfterDeleteTags(db, env, tags);
            && (other != env ==> Resolve(d, cast, other, tag) == Resolve(db, cast, other, tag))
            && (Resolve(d, cast, env, tag) == {b}
                <==> IsTemplate(db, env) && Leads(Left(ReadyRows(db, TagRows(db, cast, env, tag)), tags), b))
  {
    var d := AfterDeleteTags(db, env, tags);
    UntaggedRows(db, cast, env, tags, tag);
    InvUnambiguous(db, Left(ReadyRows(db, TagRows(db, cast, env, tag)), tags));
    LeaderIsAnswer(Left(ReadyRows(db, TagRows(db, cast, env, tag)), tags), b);
    if other != env {
      assert TagRows(d, cast, other, tag) == TagRows(db, cast, other, tag);
      assert forall rows :: ReadyRows(d, rows) == ReadyRows(db, rows);
    }
  }

  /** A reference that is no build id: a deleted tag names nothing any more, and every other tag names what it did. */
  lemma UntaggingByTag(db: Db, cast: string -> Option<BuildId>, env: EnvId, tags: seq<Tag>, tag: Option<Tag>)
    requires tag.Some? ==> cast(tag.value).None?
    ensures var t := if tag.Some? then tag.value else DEFAULT_TAG;
            Resolve(AfterDeleteTags(db, env, tags), cast, env, tag) == if t in tags then {} else Resolve(db, cast, env, tag)
  {
    UntaggedRows(db, cast, env, tags, tag);
    var t := if tag.Some? then tag.value else DEFAULT_TAG;
    var rows := ReadyRows(db, TagRows(db, cast, env, tag));
    assert Left(rows, tags) == if t in tags then {} else rows;
  }

  /** A reference that is the id of a build, and no tag: it names that build exactly as long as the build is ready and keeps a row under some tag. */
  lemma UntaggingByBuildId(db: Db, cast: string -> Option<BuildId>, env: EnvId, tags: seq<Tag>, id: string, b: BuildId)
    requires cast(id) == Some(b) && forall a :: a in db.assignments && a.env == env ==> a.tag != id
    ensures Resolve(AfterDeleteTags(db, env, tags), cast, env, Some(id))
            == if && IsTemplate(db, env) && HasGroup(db, b, ReadyGroup)
                  && exists a :: a in db.assignments && a.env == env && a.build == b && a.tag !in tags
               then {b} else {}
  {
    UntaggedRows(db, cast, env, tags, Some(id));
    var rows := Left(ReadyRows(db, TagRows(db, cast, env, Some(id))), tags);
    assert forall a :: a in rows
             <==> a in db.assignments && a.env == env && a.build == b && a.tag !in tags && HasGroup(db, b, ReadyGroup);
    if rows != {} {
      NewestExists(rows);
      var m :| m in Newest(rows);
      assert BuildsOf(Newest(rows)) == {b};
    }
  }
}
