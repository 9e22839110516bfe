/** The active table holds exactly the unfinished template builds. */
module ActiveBuilds {
  import opened Wrappers
  import opened Store
  import opened StoreInvariants

  /** `registered`: the builds registered so far as template builds. */
  ghost predicate Exact(db: Db, registered: set<BuildId>) {
    && registered <= db.builds.Keys
    && db.active.Keys == set b | b in registered && !Finished(db.builds[b].status)
  }

  function Registered(registered: set<BuildId>, s: Stmt, done: bool): set<BuildId> {
    if s.RegisterBuild? && done then registered + {s.register.build} else registered
  }

  function RegisteredRun(registered: set<BuildId>, db: Db, events: seq<Event>): set<BuildId>
    decreases |events|
  {
    if events == [] then registered
    else RegisteredRun(Registered(registered, events[0].stmt, Outcome(db, events[0]).Ok?), Step(db, events[0]), events[1..])
  }

  /**
   What a caller must respect about registered builds: a plain status update does not cross
   between unfinished and finished, the deactivating updates write a finished status, and a
   bare deactivation is for finished builds.
   */
  predicate Disciplined(db: Db, registered: set<BuildId>, s: Stmt) {
    match s
    case UpdateStatus(b, status, _) =>
      b in registered && b in db.builds ==> Finished(status) == Finished(db.builds[b].status)
    case FailAndDeactivate(b, status, _) => b in registered ==> Finished(status)
    case FinishBuild(b, status) => b in registered ==> Finished(status)
    case DeleteActive(b) => b in registered && b in db.builds ==> Finished(db.builds[b].status)
    case _ => true
  }

  /** When only build `b` and its active row may have changed, exactness is decided at `b`. */
  lemma ExactAt(db: Db, d: Db, registered: set<BuildId>, b: BuildId)
    requires Exact(db, registered) && d.builds.Keys == db.builds.Keys
    requires forall c :: c in db.builds && c != b ==> d.builds[c].status == db.builds[c].status
    requires forall c :: c != b ==> (c in d.active <==> c in db.active)
    ensures Exact(d, registered) <==> (b in d.active <==> b in registered && !Finished(d.builds[b].status))
  {
    var open := set c | c in registered && !Finished(d.builds[c].status);
    assert forall c :: c != b ==> (c in open <==> c in db.active);
  }

  lemma StatusExactIff(db: Db, registered: set<BuildId>, b: BuildId, status: Status, finishedAt: Option<Time>)
    requires Exact(db, registered)
    ensures Exact(AfterUpdateStatus(db, b, status, finishedAt), registered)
            <==> (b in registered && b in db.builds ==> Finished(status) == Finished(db.builds[b].status))
  {
    ExactAt(db, AfterUpdateStatus(db, b, status, finishedAt), registered, b);
  }

  lemma DeactivateExactIff(db: Db, registered: set<BuildId>, b: BuildId, status: Status, finishedAt: Option<Time>)
    requires Exact(db, registered)
    ensures Exact(AfterDeactivate(db, b, status, finishedAt), registered) <==> (b in registered ==> Finished(status))
  {
    ExactAt(db, AfterDeactivate(db, b, status, finishedAt), registered, b);
  }

  lemma UpdateExactIff(db: Db, registered: set<BuildId>, now: Time, s: Stmt)
    requires Exact(db, registered) && IsUpdate(s)
    ensures Exact(After(db, now, s).value, registered) <==> Disciplined(db, registered, s)
  {
    match s {
      case UpdateTemplateBuild(b, _) => ExactAt(db, After(db, now, s).value, registered, b);
      case UpdateStatus(b, status, finishedAt) => StatusExactIff(db, registered, b, status, finishedAt);
      case FailAndDeactivate(b, status, finishedAt) => DeactivateExactIff(db, registered, b, status, finishedAt);
      case FinishBuild(b, status) => DeactivateExactIff(db, registered, b, status, Some(now));
      case DeleteActive(b) => ExactAt(db, After(db, now, s).value, registered, b);
    }
  }

  /** An invalidation fails exactly the pending builds of the tags, and deactivates exactly the template builds among them. */
  lemma InvalidationFailsWhatItDeactivates(db: Db, registered: set<BuildId>, now: Time, env: EnvId, tags: seq<Tag>)
    requires Exact(db, registered)
    ensures var d := AfterInvalidateUnstarted(db, now, env, tags);
            var failed := set b | b in db.builds && d.builds[b].status != db.builds[b].status;
            && failed == (set a | a in db.assignments && a.env == env && a.tag in tags && HasGroup(db, a.build, PendingGroup) :: a.build)
            && db.active.Keys - d.active.Keys == failed * registered
            && (forall b :: b in failed ==> d.builds[b] == db.builds[b].(status := Failed, finishedAt := Some(now)))
            && (forall b :: b in db.builds && b !in failed ==> d.builds[b] == db.builds[b])
  {
    var d := AfterInvalidateUnstarted(db, now, env, tags);
    var gone := Unstarted(db, env, tags);
    assert forall b :: b in gone ==> b in db.builds && GroupOf(db.builds[b].status) == PendingGroup;
    var failed := set b | b in db.builds && d.builds[b].status != db.builds[b].status;
    assert failed == gone;
  }

  lemma InvalidationKeepsExact(db: Db, registered: set<BuildId>, now: Time, env: EnvId, tags: seq<Tag>)
    requires Exact(db, registered)
    ensures Exact(AfterInvalidateUnstarted(db, now, env, tags), registered)
  {
  }

  lemma NewBuildKeepsExact(db: Db, registered: set<BuildId>, now: Time, build: BuildId, status: Status)
    requires Exact(db, registered) && AfterCreateTemplateBuild(db, now, build, status).Ok?
    ensures Exact(AfterCreateTemplateBuild(db, now, build, status).value, registered) && build !in registered
  {
  }

  /** The new active row goes with the new registration, as long as the build is unfinished. */
  lemma ActivationKeepsExact(db: Db, d: Db, registered: set<BuildId>, build: BuildId)
    requires Exact(db, registered) && build in db.builds && !Finished(db.builds[build].status)
    requires d.builds.Keys == db.builds.Keys && forall b :: b in db.builds ==> d.builds[b].status == db.builds[b].status
    requires d.active.Keys == db.active.Keys + {build}
    ensures Exact(d, registered + {build})
  {
  }

  lemma RegisterKeepsExact(db: Db, registered: set<BuildId>, now: Time, r: RegisterArgs)
    requires Exact(db, registered) && AfterRegisterBuild(db, now, r).Ok?
    ensures Exact(AfterRegisterBuild(db, now, r).value, registered + {r.build})
  {
    var d1 := AfterCreateOrUpdateTemplate(db, r.env, r.team);
    var d2 := AfterInvalidateUnstarted(d1, now, r.env, Tags(Assigned(r)));
    InvalidationKeepsExact(d1, registered, now, r.env, Tags(Assigned(r)));
    NewBuildKeepsExact(d2, registered, now, r.build, Waiting);
    RegisterShape(db, now, r);
    ActivationKeepsExact(BeforeAlias(db, now, r), AfterRegisterBuild(db, now, r).value, registered, r.build);
  }

  lemma OthersKeepExact(db: Db, registered: set<BuildId>, now: Time, s: Stmt)
    requires Exact(db, registered) && !IsUpdate(s) && !s.RegisterBuild? && After(db, now, s).Ok?
    ensures Exact(After(db, now, s).value, registered)
  {
    var d := After(db, now, s).value;
    LoopShape(db, now, s);
    assert d.active == db.active;
    assert forall b :: b in db.builds ==> b in d.builds && d.builds[b].status == db.builds[b].status;
  }

  /** A transaction keeps the active table exact precisely when it is disciplined. */
  lemma StepExactIff(db: Db, registered: set<BuildId>, e: Event)
    requires Exact(db, registered)
    ensures Exact(Step(db, e), Registered(registered, e.stmt, Outcome(db, e).Ok?)) <==> Disciplined(db, registered, e.stmt)
  {
    var t, now := Tick(db, e), Now(db, e);
    assert Exact(t, registered);
    if Outcome(db, e).Ok? {
      if IsUpdate(e.stmt) {
        UpdateExactIff(t, registered, now, e.stmt);
      } else if e.stmt.RegisterBuild? {
        RegisterKeepsExact(t, registered, now, e.stmt.register);
      } else {
        OthersKeepExact(t, registered, now, e.stmt);
      }
    }
  }

  ghost predicate AllDisciplined(db: Db, registered: set<BuildId>, events: seq<Event>)
    decreases |events|
  {
    events == [] ||
    (Disciplined(db, registered, events[0].stmt) &&
     AllDisciplined(Step(db, events[0]), Registered(registered, events[0].stmt, Outcome(db, events[0]).Ok?), events[1..]))
  }

  /** Over every disciplined run the active builds are exactly the unfinished registered ones. */
  lemma {:induction false} RunKeepsExact(db: Db, registered: set<BuildId>, events: seq<Event>)
    requires Exact(db, registered) && AllDisciplined(db, registered, events)
    ensures Exact(Run(db, events), RegisteredRun(registered, db, events))
    decreases |events|
  {
    if events != [] {
      StepExactIff(db, registered, events[0]);
      RunKeepsExact(Step(db, events[0]), Registered(registered, events[0].stmt, Outcome(db, events[0]).Ok?), events[1..]);
    }
  }

  /** TemplateManager.SetStatus: which of the two status queries it sends, and with which status text. */
  function SetStatus(b: BuildId, g: StatusGroup, finishedAt: Time): Stmt {
    match g
    case PendingGroup => UpdateStatus(b, Pending, Some(finishedAt))
    case InProgressGroup => UpdateStatus(b, Building, Some(finishedAt))
    case ReadyGroup => FailAndDeactivate(b, Uploaded, Some(finishedAt))
    case FailedGroup => FailAndDeactivate(b, Failed, Some(finishedAt))
  }

  /** SetStatus writes the group it is asked for, and is disciplined unless it reopens a finished template build. */
  lemma SetStatusDisciplinedIff(db: Db, registered: set<BuildId>, b: BuildId, g: StatusGroup, finishedAt: Time)
    requires b in db.builds
    ensures Disciplined(db, registered, SetStatus(b, g, finishedAt))
            <==> !(b in registered && Finished(db.builds[b].status) && (g == PendingGroup || g == InProgressGroup))
    ensures forall now :: HasGroup(After(db, now, SetStatus(b, g, finishedAt)).value, b, g)
  {
  }

  /** The status text it writes for each group, always with the time of the call, and only a final one ends the active row. */
  lemma SetStatusWrites(db: Db, now: Time, b: BuildId, g: StatusGroup, finishedAt: Time)
    requires b in db.builds
    ensures var d := After(db, now, SetStatus(b, g, finishedAt)).value;
            && d.builds[b].finishedAt == Some(finishedAt)
            && d.builds[b].status == (match g
                                      case PendingGroup => Pending
                                      case InProgressGroup => Building
                                      case ReadyGroup => Uploaded
                                      case FailedGroup => Failed)
            && d.active == if g == ReadyGroup || g == FailedGroup then db.active - {b} else db.active
  {
  }

  /** A registration supersedes every pending build that shares a tag with it: afterwards such a build is failed and inactive. */
  lemma RegistrationSupersedes(db: Db, now: Time, r: RegisterArgs, b: BuildId)
    requires AfterRegisterBuild(db, now, r).Ok? && HasGroup(db, b, PendingGroup)
    requires exists a :: a in db.assignments && a.env == r.env && a.build == b && a.tag in Tags(Assigned(r))
    ensures var d := AfterRegisterBuild(db, now, r).value;
            b in d.builds && d.builds[b].status == Failed && b !in d.active && b != r.build
  {
    var a :| a in db.assignments && a.env == r.env && a.build == b && a.tag in Tags(Assigned(r));
    var d1 := AfterCreateOrUpdateTemplate(db, r.env, r.team);
    assert HasGroup(d1, a.build, PendingGroup);
    assert b in Unstarted(d1, r.env, Tags(Assigned(r)));
    RegisterShape(db, now, r);
  }

  /**
   The race that breaks exactness.  A build is registered; before its creation is reported as
   started, another registration supersedes it; the report then makes it unfinished again, and it
   stays out of the active table.
   */
  lemma StartedAfterSuperseded(db: Db, e: Event, b: BuildId, finishedAt: Time, delay: nat)
    requires e.stmt.RegisterBuild? && Outcome(db, e).Ok? && HasGroup(db, b, PendingGroup)
    requires exists a :: a in db.assignments && a.env == e.stmt.register.env && a.build == b && a.tag in Tags(Assigned(e.stmt.register))
    ensures var d := Step(Step(db, e), Event(delay, SetStatus(b, InProgressGroup, finishedAt)));
            b in d.builds && !Finished(d.builds[b].status) && b !in d.active
  {
    RegistrationSupersedes(Tick(db, e), Now(db, e), e.stmt.register, b);
  }

  /** One registration on tables that hold nothing in its way. */
  lemma RegisterDefault(db: Db, e: Event)
    requires e.stmt.RegisterBuild? && e.stmt.register.tags == [] && e.stmt.register.alias == None
    requires e.stmt.register.build !in db.builds && e.stmt.register.build !in db.active
    requires forall a :: a in db.assignments ==> a.id != e.stmt.register.defaultRow
    ensures var r, d := e.stmt.register, Step(db, e);
            && Outcome(db, e).Ok? && HasGroup(d, r.build, PendingGroup)
            && d.builds.Keys == db.builds.Keys + {r.build} && d.active.Keys <= db.active.Keys + {r.build}
            && d.assignments == db.assignments + {Assignment(r.defaultRow, r.env, r.build, DEFAULT_TAG, Now(db, e))}
  {
    var r, t, now := e.stmt.register, Tick(db, e), Now(db, e);
    var d1 := AfterCreateOrUpdateTemplate(t, r.env, r.team);
    var d2 := AfterInvalidateUnstarted(d1, now, r.env, Tags(Assigned(r)));
    var d3 := AfterCreateTemplateBuild(d2, now, r.build, Waiting).value;
    assert r.defaultRow !in RowIds(d3.assignments);
    var tags := Assigned(r);
    assert tags[1..] == [] && tags[0] == TagRow(DEFAULT_TAG, r.defaultRow);
    var d4 := AfterCreateAssignment(d3, now, r.env, r.build, DEFAULT_TAG, r.defaultRow).value;
    assert AfterAssignTags(d4, now, r.env, r.build, []) == Ok(d4);
    assert AfterAssignTags(d3, now, r.env, r.build, tags) == Ok(d4);
  }

  /** That race from empty tables: two registrations without tags for one template. */
  lemma ReopenedBuildIsNotActive(env: EnvId, team: TeamId, b: BuildId, row: RowId, b': BuildId, row': RowId, finishedAt: Time)
    requires b != b' && row != row'
    ensures var d := Run(EMPTY, [Event(0, RegisterBuild(RegisterArgs(env, team, b, [], row, None))),
                                 Event(0, RegisterBuild(RegisterArgs(env, team, b', [], row', None))),
                                 Event(0, SetStatus(b, InProgressGroup, finishedAt))]);
            b in d.builds && !Finished(d.builds[b].status) && b !in d.active
  {
    var e1, e2 := Event(0, RegisterBuild(RegisterArgs(env, team, b, [], row, None))),
                  Event(0, RegisterBuild(RegisterArgs(env, team, b', [], row', None)));
    var e3 := Event(0, SetStatus(b, InProgressGroup, finishedAt));
    RegisterDefault(EMPTY, e1);
    var d1 := Step(EMPTY, e1);
    RegisterDefault(d1, e2);
    assert Tags(Assigned(e2.stmt.register))[0] == DEFAULT_TAG;
    assert Assignment(row, env, b, DEFAULT_TAG, Now(EMPTY, e1)) in d1.assignments;
    StartedAfterSuperseded(d1, e2, b, finishedAt, 0);
    RunOfThree(EMPTY, e1, e2, e3);
  }

  lemma RunOfThree(db: Db, e1: Event, e2: Event, e3: Event)
    ensures Run(db, [e1, e2, e3]) == Step(Step(Step(db, e1), e2), e3)
  {
    assert [e1, e2, e3][1..] == [e2, e3] && [e2, e3][1..] == [e3] && [e3][1..] == [];
    var d := Step(Step(db, e1), e2);
    assert Run(d, [e3]) == Run(Step(d, e3), []);
  }
}
