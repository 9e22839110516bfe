/** What GetTemplateWithBuildByTag answers after each way of tagging a build. */
module TagAnswers {
  import opened Wrappers
  import opened Store
  import opened StoreInvariants
  import opened Resolution

  /** The row answers to the reference: it has the tag, the default one if none is asked for, or its build is the one the text is the id of. */
  predicate Answers(cast: string -> Option<BuildId>, a: Assignment, tag: Option<Tag>) {
    match tag
    case None => a.tag == "default"
    case Some(t) => a.tag == t || cast(t) == Some(a.build)
  }

  predicate ReadyText(db: Db, b: BuildId) {
    b in db.builds && db.builds[b].status in {Ready, Uploaded, Success}
  }

  /** Said of the tables alone: a reference names b exactly when the env is a template of either kind and the newest row that answers to it, among those of builds with a ready status, is a row of b. */
  lemma ResolveLiterally(db: Db, cast: string -> Option<BuildId>, env: EnvId, tag: Option<Tag>, b: BuildId)
    requires Inv(db)
    ensures Resolve(db, cast, env, tag) == {b}
            <==> && env in db.envs && db.envs[env].source in {TemplateSource, SnapshotTemplateSource}
                 && exists a :: && a in db.assignments && a.env == env && Answers(cast, a, tag) && a.build == b && ReadyText(db, b)
                                && forall c :: && c in db.assignments && c.env == env && Answers(cast, c, tag) && ReadyText(db, c.build)
                                               && c.build != b
                                               ==> c.createdAt < a.createdAt
  {
    var rows := ReadyRows(db, TagRows(db, cast, env, tag));
    ResolveMeaning(db, cast, env, tag, b);
    forall c: Assignment
      ensures c in rows <==> c in db.assignments && c.env == env && Answers(cast, c, tag) && ReadyText(db, c.build)
    {
    }
  }

  /** It names nothing exactly when there is no such template or no such row. */
  lemma NothingLiterally(db: Db, cast: string -> Option<BuildId>, env: EnvId, tag: Option<Tag>)
    requires Inv(db)
    ensures Resolve(db, cast, env, tag) == {}
            <==> || env !in db.envs || db.envs[env].source == SnapshotSource
                 || forall a :: a in db.assignments && a.env == env && Answers(cast, a, tag) ==> !ReadyText(db, a.build)
  {
    var rows := ReadyRows(db, TagRows(db, cast, env, tag));
    InvUnambiguous(db, rows);
    OneAnswer(rows);
    assert forall c :: c in rows <==> c in db.assignments && c.env == env && Answers(cast, c, tag) && ReadyText(db, c.build);
  }

  /** In particular a tag that no row of the env carries, and that is no build id, names nothing. */
  lemma UnknownTagNamesNothing(db: Db, cast: string -> Option<BuildId>, env: EnvId, t: Tag)
    requires Inv(db) && cast(t) == None && forall a :: a in db.assignments && a.env == env ==> a.tag != t
    ensures Resolve(db, cast, env, Some(t)) == {}
    ensures t == "default" ==> Resolve(db, cast, env, None) == {}
  {
    NothingLiterally(db, cast, env, Some(t));
    NothingLiterally(db, cast, env, None);
  }

  /** Rows of one ready build that are newer than all other builds' rows of the env decide every reference they answer to. */
  lemma NewestRowsAnswer(db: Db, cast: string -> Option<BuildId>, env: EnvId, tag: Option<Tag>, a: Assignment)
    requires Inv(db) && a in db.assignments && a.env == env && Answers(cast, a, tag) && ReadyText(db, a.build)
    requires env in db.envs && db.envs[env].source in {TemplateSource, SnapshotTemplateSource}
    requires forall c :: c in db.assignments && c.env == env && c.build != a.build ==> c.createdAt < a.createdAt
    ensures Resolve(db, cast, env, tag) == {a.build}
  {
    ResolveLiterally(db, cast, env, tag, a.build);
  }

  /** A registration, as the tables have it: the rows it adds, its build, and its env. */
  lemma Registered(db: Db, e: Event, r: RegisterArgs)
    requires Inv(db) && e.stmt == RegisterBuild(r) && Outcome(db, e).Ok?
    ensures var d := Step(db, e);
            && Inv(d) && r.build !in db.builds && r.build in d.builds
            && d.assignments == db.assignments + RowsOfTags(Now(db, e), r.env, r.build, Assigned(r))
            && r.env in d.envs && d.envs[r.env].source == (if r.env in db.envs then db.envs[r.env].source else TemplateSource)
            && forall c :: c in db.assignments ==> c.createdAt < Now(db, e)
  {
    StepKeepsInv(db, e);
    LoopShape(Tick(db, e), Now(db, e), e.stmt);
    RegisterShape(Tick(db, e), Now(db, e), r);
  }

  lemma FinishedRow(db: Db, e: Event, b: BuildId, status: Status)
    requires Inv(db) && e.stmt == FinishBuild(b, status) && b in db.builds
    ensures var d := Step(db, e);
            && Inv(d) && d.assignments == db.assignments && d.envs == db.envs
            && b in d.builds && d.builds[b].status == status
  {
    StepKeepsInv(db, e);
  }

  /**
   A build registered for a new env or a template of either kind, and then finished: every tag it was
   registered under names it, the default tag if none was given, no tag at all whenever one of them is
   the default one, and its id.
   */
  lemma RegisterThenFinish(db: Db, e: Event, r: RegisterArgs, f: Event, status: Status, cast: string -> Option<BuildId>)
    requires Inv(db) && e.stmt == RegisterBuild(r) && Outcome(db, e).Ok?
    requires r.env in db.envs ==> db.envs[r.env].source in {TemplateSource, SnapshotTemplateSource}
    requires f.stmt == FinishBuild(r.build, status) && status in {Ready, Uploaded, Success}
    ensures var d := Step(Step(db, e), f);
            && (forall t :: t in r.tags ==> Resolve(d, cast, r.env, Some(t.tag)) == {r.build})
            && (r.tags == [] ==> Resolve(d, cast, r.env, Some("default")) == {r.build})
            && (r.tags == [] || (exists t :: t in r.tags && t.tag == "default") ==> Resolve(d, cast, r.env, None) == {r.build})
            && (forall id :: cast(id) == Some(r.build) ==> Resolve(d, cast, r.env, Some(id)) == {r.build})
  {
    forall t: TagRow, tag: Option<Tag> | t in Assigned(r) && Answers(cast, Assignment(t.row, r.env, r.build, t.tag, Now(db, e)), tag)
      ensures Resolve(Step(Step(db, e), f), cast, r.env, tag) == {r.build}
    {
      RegisteredRowAnswers(db, e, r, f, status, cast, t, tag);
    }
    assert r.tags == [] ==> TagRow("default", r.defaultRow) in Assigned(r);
    assert Assigned(r)[0] in Assigned(r);
  }

  lemma RegisteredRowAnswers(
    db: Db, e: Event, r: RegisterArgs, f: Event, status: Status, cast: string -> Option<BuildId>, t: TagRow, tag: Option<Tag>)
    requires Inv(db) && e.stmt == RegisterBuild(r) && Outcome(db, e).Ok?
    requires r.env in db.envs ==> db.envs[r.env].source in {TemplateSource, SnapshotTemplateSource}
    requires f.stmt == FinishBuild(r.build, status) && status in {Ready, Uploaded, Success}
    requires t in Assigned(r) && Answers(cast, Assignment(t.row, r.env, r.build, t.tag, Now(db, e)), tag)
    ensures Resolve(Step(Step(db, e), f), cast, r.env, tag) == {r.build}
  {
    Registered(db, e, r);
    FinishedRow(Step(db, e), f, r.build, status);
    NewRowsAnswer(db, e, r, Step(Step(db, e), f), cast, t, tag);
  }

  lemma NewRowsAnswer(db: Db, e: Event, r: RegisterArgs, d: Db, cast: string -> Option<BuildId>, t: TagRow, tag: Option<Tag>)
    requires Inv(d) && ReadyText(d, r.build)
    requires r.env in d.envs && d.envs[r.env].source in {TemplateSource, SnapshotTemplateSource}
    requires d.assignments == db.assignments + RowsOfTags(Now(db, e), r.env, r.build, Assigned(r))
    requires forall c :: c in db.assignments ==> c.createdAt < Now(db, e)
    requires t in Assigned(r) && Answers(cast, Assignment(t.row, r.env, r.build, t.tag, Now(db, e)), tag)
    ensures Resolve(d, cast, r.env, tag) == {r.build}
  {
    var a := Assignment(t.row, r.env, r.build, t.tag, Now(db, e));
    assert a in RowsOfTags(Now(db, e), r.env, r.build, Assigned(r));
    NewestRowsAnswer(d, cast, r.env, tag, a);
  }

  /** Tagging a ready build of a template: every tag given names it, and no tag at all if the default one is among them. */
  lemma TaggingAnswers(db: Db, e: Event, env: EnvId, b: BuildId, rows: seq<TagRow>, cast: string -> Option<BuildId>, t: TagRow)
    requires Inv(db) && e.stmt == AssignTags(env, b, rows) && Outcome(db, e).Ok? && t in rows && ReadyText(db, b)
    requires env in db.envs && db.envs[env].source in {TemplateSource, SnapshotTemplateSource}
    ensures Resolve(Step(db, e), cast, env, Some(t.tag)) == {b}
    ensures t.tag == "default" ==> Resolve(Step(db, e), cast, env, None) == {b}
  {
    var d := Step(db, e);
    StepKeepsInv(db, e);
    LoopShape(Tick(db, e), Now(db, e), e.stmt);
    var a := Assignment(t.row, env, b, t.tag, Now(db, e));
    assert a in RowsOfTags(Now(db, e), env, b, rows) && a in d.assignments;
    NewestRowsAnswer(d, cast, env, Some(t.tag), a);
    if t.tag == "default" { NewestRowsAnswer(d, cast, env, None, a); }
  }

  /** A new env that shares a ready build answers with it under its tag, and without a tag if that is the default one. */
  lemma SharingAnswers(db: Db, e: Event, c: SnapshotTemplateArgs, b: BuildId, cast: string -> Option<BuildId>)
    requires Inv(db) && e.stmt == CreateSnapshotTemplateEnv(c) && Outcome(db, e).Ok? && c.build == Some(b) && ReadyText(db, b)
    ensures Resolve(Step(db, e), cast, c.env, Some(c.tag)) == {b}
    ensures c.tag == "default" ==> Resolve(Step(db, e), cast, c.env, None) == {b}
  {
    var d := Step(db, e);
    StepKeepsInv(db, e);
    var a := Assignment(c.row, c.env, b, c.tag, Now(db, e));
    assert d.assignments == db.assignments + {a} && d.envs[c.env].source == SnapshotTemplateSource;
    assert d.builds[b].status == db.builds[b].status;
    NewestRowsAnswer(d, cast, c.env, Some(c.tag), a);
    if c.tag == "default" { NewestRowsAnswer(d, cast, c.env, None, a); }
  }

  /** The env of a sandbox snapshot is never the answer to a template reference. */
  lemma SnapshotsAreNoTemplates(db: Db, s: SandboxId, cast: string -> Option<BuildId>, tag: Option<Tag>)
    requires Inv(db) && s in db.snapshots
    ensures Resolve(db, cast, db.snapshots[s].env, tag) == {}
  {
    NothingLiterally(db, cast, db.snapshots[s].env, tag);
  }
}
