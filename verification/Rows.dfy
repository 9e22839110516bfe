/** The rows the write queries leave, column by column, in plain status texts; everything they do not mention stays. */
module Rows {
  import opened Wrappers
  import opened Store
  import opened StoreInvariants
  import opened Resolution

  /** The four groups of status texts. */
  lemma StatusTexts(s: Status)
    ensures GroupOf(s) == PendingGroup <==> s in {Pending, Waiting}
    ensures GroupOf(s) == InProgressGroup <==> s in {InProgress, Building, Snapshotting}
    ensures GroupOf(s) == ReadyGroup <==> s in {Ready, Uploaded, Success}
    ensures GroupOf(s) == FailedGroup <==> s in {Failed, Unknown}
    ensures Finished(s) <==> s in {Ready, Uploaded, Success, Failed, Unknown}
  {
  }

  /** The rows of an upsert: the build is made now, unfinished, on the origin node and for the team of its env; a new env is a snapshot's, of the caller's team. */
  lemma UpsertLeaves(db: Db, now: Time, u: UpsertArgs)
    requires AfterUpsertSnapshot(db, now, u).Ok?
    ensures var d := AfterUpsertSnapshot(db, now, u).value;
            && u.sandbox in d.snapshots && d.snapshots[u.sandbox].env in d.envs
            && u.build in d.builds
            && d.builds[u.build] == Build(now, None, u.status, Some(d.envs[d.snapshots[u.sandbox].env].team), Some(u.originNode))
            && (u.sandbox !in db.snapshots ==>
                  u.template in d.envs && d.envs[u.template] == Env(u.team, SnapshotSource, 1) && d.snapshots[u.sandbox].createdAt == now)
            && (forall e :: e in db.envs ==> e in d.envs && d.envs[e] == db.envs[e])
            && d.snapshotTemplates == db.snapshotTemplates && d.active == db.active && d.aliases == db.aliases && d.clock == db.clock
  {
  }

  /** An upsert fails for a used id, and otherwise only for a missing env. */
  lemma UpsertErrors(db: Db, now: Time, u: UpsertArgs)
    requires Inv(db)
    ensures AfterUpsertSnapshot(db, now, u) == Err(UniqueViolation)
            <==> || u.build in db.builds || (exists a :: a in db.assignments && a.id == u.row)
                 || (u.sandbox !in db.snapshots && u.template in db.envs)
    ensures var r := AfterUpsertSnapshot(db, now, u); r.Err? ==> r.error in {UniqueViolation, ForeignKeyViolation}
  {
    assert u.row in RowIds(db.assignments) <==> exists a :: a in db.assignments && a.id == u.row;
  }

  /** The rows of a shared env: a snapshot template of the caller's team that remembers its sandbox, node and build, and one assignment of that build under the tag. */
  lemma SharingLeaves(db: Db, now: Time, c: SnapshotTemplateArgs)
    requires AfterCreateSnapshotTemplateEnv(db, now, c).Ok?
    ensures var d := AfterCreateSnapshotTemplateEnv(db, now, c).value;
            && c.build.Some? && c.build.value in db.builds
            && d.envs == db.envs[c.env := Env(c.team, SnapshotTemplateSource, 1)] && c.env !in db.envs
            && d.snapshotTemplates == db.snapshotTemplates[c.env := SnapshotTemplateRow(c.sandbox, c.originNode, c.build.value)]
            && d.assignments == db.assignments + {Assignment(c.row, c.env, c.build.value, c.tag, now)}
            && (forall a :: a in db.assignments ==> a.id != c.row)
            && d.builds.Keys == db.builds.Keys
            && (forall b :: b in db.builds ==>
                  d.builds[b] == if b == c.build.value && db.builds[b].team == None then db.builds[b].(team := Some(c.team)) else db.builds[b])
            && d.snapshots == db.snapshots && d.active == db.active && d.aliases == db.aliases && d.clock == db.clock
  {
    assert forall a :: a in db.assignments ==> a.id in RowIds(db.assignments);
  }

  lemma SharingErrors(db: Db, now: Time, c: SnapshotTemplateArgs)
    ensures var r := AfterCreateSnapshotTemplateEnv(db, now, c);
            var used := c.env in db.envs || c.env in db.snapshotTemplates || exists a :: a in db.assignments && a.id == c.row;
            && (r == Err(UniqueViolation) <==> used)
            && (r == Err(NotNullViolation) <==> !used && c.build == None)
            && (r == Err(ForeignKeyViolation) <==> !used && c.build.Some? && c.build.value !in db.builds)
            && (r.Ok? <==> !used && c.build.Some? && c.build.value in db.builds)
  {
    assert c.row in RowIds(db.assignments) <==> exists a :: a in db.assignments && a.id == c.row;
  }

  /** An env that is there is counted up and stays what it is; a new one is a template of the caller's team, with its first build counted. */
  lemma TemplateLeaves(db: Db, env: EnvId, team: TeamId)
    ensures var d := AfterCreateOrUpdateTemplate(db, env, team);
            && d == db.(envs := d.envs) && d.envs.Keys == db.envs.Keys + {env}
            && (env !in db.envs ==> d.envs[env] == Env(team, TemplateSource, 1))
            && (env in db.envs ==>
                  && d.envs[env].team == db.envs[env].team && d.envs[env].source == db.envs[env].source
                  && d.envs[env].buildCount == db.envs[env].buildCount + 1)
            && (forall e :: e in db.envs && e != env ==> d.envs[e] == db.envs[e])
  {
  }

  /** An invalidation fails exactly the builds with a pending text that have one of the tags on the env, now, and takes them off the active table. */
  lemma InvalidationLeaves(db: Db, now: Time, env: EnvId, tags: seq<Tag>)
    requires References(db)
    ensures var d := AfterInvalidateUnstarted(db, now, env, tags);
            && d == db.(builds := d.builds, active := d.active) && d.builds.Keys == db.builds.Keys
            && forall b :: b in db.builds ==>
                 var hit := db.builds[b].status in {Pending, Waiting}
                            && exists a :: a in db.assignments && a.env == env && a.build == b && a.tag in tags;
                 && d.builds[b] == (if hit then db.builds[b].(status := Failed, finishedAt := Some(now)) else db.builds[b])
                 && (b in d.active <==> b in db.active && !hit)
                 && (b in d.active ==> d.active[b] == db.active[b])
  {
    var gone := Unstarted(db, env, tags);
    forall b | b in db.builds
      ensures b in gone <==> && db.builds[b].status in {Pending, Waiting}
                             && exists a :: a in db.assignments && a.env == env && a.build == b && a.tag in tags
    {
    }
  }

  /** What a registration leaves of its own: a waiting build made now, without a node, of the team that owns the env, and its active row with the caller's team and the tags as given, or the default one. */
  lemma RegisterLeaves(db: Db, now: Time, r: RegisterArgs)
    requires Inv(db) && AfterRegisterBuild(db, now, r).Ok?
    ensures var d := AfterRegisterBuild(db, now, r).value;
            && r.env in d.envs && r.build !in db.builds && r.build in d.builds
            && d.builds[r.build] == Build(now, None, Waiting, Some(d.envs[r.env].team), None)
            && r.build in d.active && d.active[r.build].team == r.team && d.active[r.build].template == r.env
            && (r.tags == [] ==> d.active[r.build].tags == ["default"])
            && (r.tags != [] ==>
                  && |d.active[r.build].tags| == |r.tags|
                  && forall i :: 0 <= i < |r.tags| ==> d.active[r.build].tags[i] == r.tags[i].tag)
            && d.snapshots == db.snapshots && d.snapshotTemplates == db.snapshotTemplates && d.clock == db.clock
  {
    RegisterShape(db, now, r);
    LoopShape(db, now, RegisterBuild(r));
    TeamOfTagged(BeforeTags(db, now, r), now, r.env, r.build, Assigned(r));
  }

  /** The first assignment of a build gives it the team of the env. */
  lemma {:induction false} TeamOfTagged(db: Db, now: Time, env: EnvId, build: BuildId, tags: seq<TagRow>)
    requires AfterAssignTags(db, now, env, build, tags).Ok? && tags != []
    ensures var d := AfterAssignTags(db, now, env, build, tags).value;
            && env in db.envs && build in db.builds && build in d.builds
            && d.builds[build].team == if db.builds[build].team.Some? then db.builds[build].team else Some(db.envs[env].team)
    decreases tags
  {
    if |tags| > 1 {
      TeamOfTagged(AfterCreateAssignment(db, now, env, build, tags[0].tag, tags[0].row).value, now, env, build, tags[1..]);
    }
  }

  /** A build that is there gets the status and the time it is given, the time of the statement if it is finished, and loses its active row if it is failed or finished. */
  lemma StatusLeaves(db: Db, now: Time, b: BuildId, status: Status, finishedAt: Option<Time>)
    requires b in db.builds
    ensures After(db, now, UpdateStatus(b, status, finishedAt))
            == Ok(db.(builds := db.builds[b := db.builds[b].(status := status, finishedAt := finishedAt)]))
    ensures After(db, now, FailAndDeactivate(b, status, finishedAt))
            == Ok(db.(builds := db.builds[b := db.builds[b].(status := status, finishedAt := finishedAt)], active := db.active - {b}))
    ensures After(db, now, FinishBuild(b, status))
            == Ok(db.(builds := db.builds[b := db.builds[b].(status := status, finishedAt := Some(now))], active := db.active - {b}))
  {
  }

  /** Of a build that is not there, the status queries write nothing. */
  lemma StatusOfNothing(db: Db, now: Time, b: BuildId, status: Status, finishedAt: Option<Time>, node: Option<string>)
    requires b !in db.builds
    ensures After(db, now, UpdateStatus(b, status, finishedAt)) == Ok(db)
    ensures After(db, now, UpdateTemplateBuild(b, node)) == Ok(db)
    ensures After(db, now, FailAndDeactivate(b, status, finishedAt)) == Ok(db.(active := db.active - {b}))
    ensures After(db, now, FinishBuild(b, status)) == Ok(db.(active := db.active - {b}))
  {
  }

  /** Putting a build on a node, ending its active row and deleting tags each write just that. */
  lemma SmallStatementsLeave(db: Db, now: Time, b: BuildId, node: Option<string>, env: EnvId, tags: seq<Tag>)
    ensures b in db.builds ==>
              After(db, now, UpdateTemplateBuild(b, node)) == Ok(db.(builds := db.builds[b := db.builds[b].(node := node)]))
    ensures After(db, now, DeleteActive(b)) == Ok(db.(active := db.active - {b}))
    ensures var r := After(db, now, DeleteTags(env, tags));
            && r.Ok? && r.value == db.(assignments := r.value.assignments)
            && forall a :: a in r.value.assignments <==> a in db.assignments && (a.env != env || a.tag !in tags)
  {
  }

  /** Which work is in flight, in plain status texts: nothing it writes, assigns or untags is ready before or after. */
  lemma InFlightTexts(db: Db, b: BuildId, status: Status, finishedAt: Option<Time>, u: UpsertArgs, env: EnvId, rows: seq<TagRow>, tags: seq<Tag>, r: RegisterArgs)
    ensures var ready := {Ready, Uploaded, Success};
            var isReady := (c: BuildId) => c in db.builds && db.builds[c].status in ready;
            && (InFlight(db, UpdateStatus(b, status, finishedAt)) <==> !isReady(b) && status !in ready)
            && (InFlight(db, FailAndDeactivate(b, status, finishedAt)) <==> !isReady(b) && status !in ready)
            && (InFlight(db, FinishBuild(b, status)) <==> !isReady(b) && status !in ready)
            && (InFlight(db, UpsertSnapshot(u)) <==> u.status !in ready)
            && (InFlight(db, AssignTags(env, b, rows)) <==> !isReady(b))
            && (InFlight(db, DeleteTags(env, tags))
                <==> forall a :: a in db.assignments && a.env == env && a.tag in tags ==> !isReady(a.build))
            && InFlight(db, RegisterBuild(r))
  {
  }
}
