/** The write queries carried out part by part on live tables. */
module Database {
  import opened Wrappers
  import opened Store

  function AliasKey(x: Alias): string {
    if x.namespace.Some? then x.namespace.value + "/" + x.alias else x.alias
  }

  class Database {
    var clock: Time
    var envs: map<EnvId, Env>
    var builds: map<BuildId, Build>
    var assignments: set<Assignment>
    var snapshots: map<SandboxId, SnapshotRow>
    var snapshotTemplates: map<EnvId, SnapshotTemplateRow>
    var active: map<BuildId, ActiveRow>
    var aliases: set<Alias>

    constructor ()
      ensures View() == EMPTY
    {
      clock, envs, builds, assignments := 0, map[], map[], {};
      snapshots, snapshotTemplates, active, aliases := map[], map[], map[], {};
    }

    function View(): Db
      reads this
    {
      Db(clock, envs, builds, assignments, snapshots, snapshotTemplates, active, aliases)
    }

    /** INSERT into env_build_assignments, with its foreign keys and its AFTER trigger. */
    method InsertAssignment(a: Assignment)
      requires a.env in envs && a.build in builds
      modifies this`assignments, this`builds
      ensures View() == WithAssignment(old(View()), a)
    {
      assignments := assignments + {a};
      if builds[a.build].team.None? {
        builds := builds[a.build := builds[a.build].(team := Some(envs[a.env].team))];
      }
    }

    /** UpsertSnapshot: the chained parts, each reading the tables as they were before the statement. */
    method UpsertSnapshot(now: Time, u: UpsertArgs) returns (r: Result<(BuildId, EnvId), SqlError>)
      modifies this
      ensures match AfterUpsertSnapshot(old(View()), now, u)
              case Ok(d) => View() == d && r == Ok((u.build, d.snapshots[u.sandbox].env))
              case Err(e) => View() == old(View()) && r == Err(e)
    {
      // new_template: inserted only WHERE NOT EXISTS a snapshot of the sandbox
      var newTemplate: Option<EnvId> := None;
      var newEnvs := envs;
      if u.sandbox !in snapshots {
        if u.template in envs { return Err(UniqueViolation); }
        newTemplate := Some(u.template);
        newEnvs := envs[u.template := Env(u.team, SnapshotSource, 1)];
      }
      if u.build in builds || u.row in RowIds(assignments) { return Err(UniqueViolation); }
      // snapshot: the row proposed for insertion has env_id '' when there is no new template
      var proposed := SnapshotRow(if newTemplate.Some? then newTemplate.value else "", u.baseEnv, u.team, u.secure,
                                  u.allowInternet, now, u.metadata, u.startedAt, u.originNode, u.autoPause, u.config);
      var row := proposed;
      if u.sandbox in snapshots {
        // ON CONFLICT (sandbox_id) DO UPDATE
        row := snapshots[u.sandbox].(metadata := proposed.metadata, startedAt := proposed.startedAt,
                                     originNode := proposed.originNode, autoPause := proposed.autoPause,
                                     config := proposed.config);
      } else if row.baseEnv !in newEnvs {
        return Err(ForeignKeyViolation);
      }
      var templateId := row.env;
      if templateId !in newEnvs { return Err(ForeignKeyViolation); }
      envs := newEnvs;
      snapshots := snapshots[u.sandbox := row];
      // new_build, then build_assignment
      builds := builds[u.build := Build(now, None, u.status, None, Some(u.originNode))];
      InsertAssignment(Assignment(u.row, templateId, u.build, DEFAULT_TAG, now));
      return Ok((u.build, templateId));
    }

    /** CreateSnapshotTemplateEnv. */
    method CreateSnapshotTemplateEnv(now: Time, c: SnapshotTemplateArgs) returns (r: Result<EnvId, SqlError>)
      modifies this
      ensures match AfterCreateSnapshotTemplateEnv(old(View()), now, c)
              case Ok(d) => View() == d && r == Ok(c.env)
              case Err(e) => View() == old(View()) && r == Err(e)
    {
      if c.env in envs || c.env in snapshotTemplates || c.row in RowIds(assignments) { return Err(UniqueViolation); }
      if c.build.None? { return Err(NotNullViolation); }
      if c.build.value !in builds { return Err(ForeignKeyViolation); }
      envs := envs[c.env := Env(c.team, SnapshotTemplateSource, 1)];
      snapshotTemplates := snapshotTemplates[c.env := SnapshotTemplateRow(c.sandbox, c.originNode, c.build.value)];
      InsertAssignment(Assignment(c.row, c.env, c.build.value, c.tag, now));
      return Ok(c.env);
    }

    /** DeleteTemplate: the alias keys are captured before the cascade and returned only if the env row went. */
    method DeleteTemplate(env: EnvId, team: TeamId) returns (keys: seq<string>)
      modifies this
      ensures View() == AfterDeleteTemplate(old(View()), env, team)
      ensures var captured := set x | x in old(aliases) && x.env == env;
              if Deletes(old(View()), env, team)
              then && |keys| == |captured|
                   && forall k :: k in keys
                        <==> exists x :: && x in captured
                                         && k == match x.namespace case Some(n) => n + "/" + x.alias case None => x.alias
              else keys == []
    {
      var captured := set x | x in aliases && x.env == env;
      if env !in envs || envs[env].team != team { return []; }
      envs := envs - {env};
      assignments := set a | a in assignments && a.env != env;
      snapshots := map s | s in snapshots && snapshots[s].env != env && snapshots[s].baseEnv != env :: snapshots[s];
      snapshotTemplates := snapshotTemplates - {env};
      aliases := set x | x in aliases && x.env != env;
      keys := [];
      var rest := captured;
      while rest != {}
        invariant rest <= captured && |keys| + |rest| == |captured|
        invariant forall k :: k in keys <==> exists x :: x in captured && x !in rest && AliasKey(x) == k
        decreases |rest|
      {
        var x :| x in rest;
        keys := keys + [AliasKey(x)];
        rest := rest - {x};
      }
    }

    /** CreateOrUpdateTemplate. */
    method CreateOrUpdateTemplate(env: EnvId, team: TeamId)
      modifies this`envs
      ensures View() == AfterCreateOrUpdateTemplate(old(View()), env, team)
    {
      if env in envs {
        envs := envs[env := envs[env].(buildCount := envs[env].buildCount + 1)];
      } else {
        envs := envs[env := Env(team, TemplateSource, 1)];
      }
    }

    /** InvalidateUnstartedTemplateBuilds: fail the pending builds of the tags, then deactivate the ones returned. */
    method InvalidateUnstarted(now: Time, env: EnvId, tags: seq<Tag>)
      modifies this`builds, this`active
      ensures View() == AfterInvalidateUnstarted(old(View()), now, env, tags)
    {
      var invalidated := set a | && a in assignments && a.env == env && a.tag in tags
                                 && a.build in builds && GroupOf(builds[a.build].status) == PendingGroup :: a.build;
      assert invalidated == Unstarted(View(), env, tags);
      builds := map b | b in builds ::
        if b in invalidated then builds[b].(status := Failed, finishedAt := Some(now)) else builds[b];
      active := active - invalidated;
    }

    /** CreateTemplateBuild. */
    method CreateTemplateBuild(now: Time, build: BuildId, status: Status) returns (r: Result<(), SqlError>)
      modifies this`builds
      ensures match AfterCreateTemplateBuild(old(View()), now, build, status)
              case Ok(d) => View() == d && r.Ok?
              case Err(e) => View() == old(View()) && r == Err(e)
    {
      if build in builds { return Err(UniqueViolation); }
      builds := builds[build := Build(now, None, status, None, None)];
      return Ok(());
    }

    /** CreateTemplateBuildAssignment. */
    method CreateAssignment(now: Time, env: EnvId, build: BuildId, tag: Tag, row: RowId) returns (r: Result<(), SqlError>)
      modifies this`assignments, this`builds
      ensures match AfterCreateAssignment(old(View()), now, env, build, tag, row)
              case Ok(d) => View() == d && r.Ok?
              case Err(e) => View() == old(View()) && r == Err(e)
    {
      if row in RowIds(assignments) { return Err(UniqueViolation); }
      if env !in envs || build !in builds { return Err(ForeignKeyViolation); }
      InsertAssignment(Assignment(row, env, build, tag, now));
      return Ok(());
    }

    /** CreateActiveTemplateBuild. */
    method CreateActive(build: BuildId, team: TeamId, template: EnvId, tags: seq<Tag>) returns (r: Result<(), SqlError>)
      modifies this`active
      ensures match AfterCreateActive(old(View()), build, team, template, tags)
              case Ok(d) => View() == d && r.Ok?
              case Err(e) => View() == old(View()) && r == Err(e)
    {
      if build in active { return Err(UniqueViolation); }
      active := active[build := ActiveRow(team, template, tags)];
      return Ok(());
    }

    /** CreateTemplateAlias. */
    method CreateAlias(x: Alias) returns (r: Result<(), SqlError>)
      modifies this`aliases
      ensures match AfterCreateAlias(old(View()), x)
              case Ok(d) => View() == d && r.Ok?
              case Err(e) => View() == old(View()) && r == Err(e)
    {
      if Taken(View(), x.alias, x.namespace) { return Err(UniqueViolation); }
      if x.env !in envs { return Err(ForeignKeyViolation); }
      aliases := aliases + {x};
      return Ok(());
    }

    /** UpsertTemplateAliasIfNotExists: the env that the alias points to afterwards, be it new or not. */
    method UpsertAlias(x: Alias) returns (r: Result<EnvId, SqlError>)
      modifies this`aliases
      ensures match AfterUpsertAlias(old(View()), x)
              case Ok(d) => View() == d && r.Ok? && TakenBy(d, x.alias, x.namespace, r.value)
              case Err(e) => View() == old(View()) && r == Err(e)
    {
      if Taken(View(), x.alias, x.namespace) {
        var y :| y in aliases && y.alias == x.alias && y.namespace == x.namespace;
        return Ok(y.env);
      }
      var inserted := CreateAlias(x);
      if inserted.Err? { return Err(inserted.error); }
      assert x in aliases;
      return Ok(x.env);
    }

    /** DeleteOtherTemplateAliases: the renamable aliases of the env go, and their keys come back. */
    method DeleteAliases(env: EnvId) returns (keys: seq<string>)
      modifies this`aliases
      ensures View() == AfterDeleteAliases(old(View()), env)
      ensures var gone := set x | x in old(aliases) && x.env == env && x.renamable;
              forall k :: k in keys
                <==> exists x :: && x in gone
                                 && k == match x.namespace case Some(n) => n + "/" + x.alias case None => x.alias
    {
      var gone := set x | x in aliases && x.env == env && x.renamable;
      aliases := set x | x in aliases && !(x.env == env && x.renamable);
      keys := [];
      var rest := gone;
      while rest != {}
        invariant rest <= gone
        invariant forall k :: k in keys <==> exists x :: x in gone && x !in rest && AliasKey(x) == k
        decreases |rest|
      {
        var x :| x in rest;
        keys := keys + [AliasKey(x)];
        rest := rest - {x};
      }
    }

    /** DeleteTemplateTags. */
    method DeleteTags(env: EnvId, tags: seq<Tag>)
      modifies this`assignments
      ensures View() == AfterDeleteTags(old(View()), env, tags)
    {
      assignments := set a | a in assignments && !(a.env == env && a.tag in tags);
    }

    /** The loop over tags, in the registration of a build and in the tagging of an existing one. */
    method AssignTags(now: Time, env: EnvId, build: BuildId, rows: seq<TagRow>) returns (res: Result<(), SqlError>)
      modifies this`assignments, this`builds
      ensures match AfterAssignTags(old(View()), now, env, build, rows)
              case Ok(d) => View() == d && res.Ok?
              case Err(e) => res == Err(e)
    {
      res := Ok(());
      var i := 0;
      while i < |rows| && res.Ok?
        invariant i <= |rows|
        invariant res.Ok? ==> AfterAssignTags(old(View()), now, env, build, rows) == AfterAssignTags(View(), now, env, build, rows[i..])
        invariant res.Err? ==> AfterAssignTags(old(View()), now, env, build, rows) == Err(res.error)
      {
        assert rows[i..][0] == rows[i] && rows[i..][1..] == rows[i + 1..];
        res := CreateAssignment(now, env, build, rows[i].tag, rows[i].row);
        i := i + 1;
      }
    }

    /** The tagging transaction: one failing row rolls all of them back. */
    method TagTransaction(now: Time, env: EnvId, build: BuildId, rows: seq<TagRow>) returns (res: Result<(), SqlError>)
      modifies this`assignments, this`builds
      ensures match AfterAssignTags(old(View()), now, env, build, rows)
              case Ok(d) => View() == d && res.Ok?
              case Err(e) => View() == old(View()) && res == Err(e)
    {
      var assignments0, builds0 := assignments, builds;
      res := AssignTags(now, env, build, rows);
      if res.Err? { assignments, builds := assignments0, builds0; }
    }

    /** The alias part of a registration. */
    method ClaimAlias(env: EnvId, claim: Option<AliasClaim>) returns (res: Result<(), SqlError>)
      modifies this`aliases
      ensures match AfterClaimAlias(old(View()), env, claim)
              case Ok(d) => View() == d && res.Ok?
              case Err(e) => res == Err(e)
    {
      if claim.None? { return Ok(()); }
      var c := claim.value;
      if c.alias in envs { return Err(AliasIsTemplateId); }
      if Taken(View(), c.alias, Some(c.namespace)) {
        if TakenBy(View(), c.alias, Some(c.namespace), env) { return Ok(()); }
        return Err(AliasOfOther);
      }
      var _ := DeleteAliases(env);
      res := CreateAlias(Alias(c.alias, Some(c.namespace), env, true));
    }

    /** The parts of the registering transaction after the new build row, up to the first failure. */
    method RegisterRows(now: Time, r: RegisterArgs) returns (res: Result<(), SqlError>)
      modifies this`builds, this`assignments, this`aliases, this`active
      ensures var d4 := AfterClaimAlias(old(View()), r.env, r.alias);
              if d4.Err? then res == Err(d4.error)
              else
                var d5 := AfterAssignTags(d4.value, now, r.env, r.build, Assigned(r));
                if d5.Err? then res == Err(d5.error)
                else
                  match AfterCreateActive(d5.value, r.build, r.team, r.env, Tags(Assigned(r)))
                  case Ok(d) => View() == d && res.Ok?
                  case Err(e) => res == Err(e)
    {
      res := ClaimAlias(r.env, r.alias);
      if res.Err? { return; }
      res := AssignTags(now, r.env, r.build, Assigned(r));
      if res.Err? { return; }
      res := CreateActive(r.build, r.team, r.env, Tags(Assigned(r)));
    }

    /** The registering transaction; any failure rolls everything back. */
    method RegisterBuild(now: Time, r: RegisterArgs) returns (res: Result<(), SqlError>)
      modifies this`envs, this`builds, this`assignments, this`aliases, this`active
      ensures match AfterRegisterBuild(old(View()), now, r)
              case Ok(d) => View() == d && res.Ok?
              case Err(e) => View() == old(View()) && res == Err(e)
    {
      var envs0, builds0, assignments0, active0, aliases0 := envs, builds, assignments, active, aliases;
      CreateOrUpdateTemplate(r.env, r.team);
      InvalidateUnstarted(now, r.env, Tags(Assigned(r)));
      res := CreateTemplateBuild(now, r.build, Waiting);
      if res.Ok? { res := RegisterRows(now, r); }
      if res.Err? {
        envs, builds, assignments, active, aliases := envs0, builds0, assignments0, active0, aliases0;
      }
    }

    /** UpdateTemplateBuild, as far as the node goes. */
    method UpdateTemplateBuild(build: BuildId, node: Option<string>)
      modifies this`builds
      ensures View() == AfterUpdateTemplateBuild(old(View()), build, node)
    {
      if build in builds {
        builds := builds[build := builds[build].(node := node)];
      }
    }

    /** UpdateEnvBuildStatus. */
    method UpdateStatus(build: BuildId, status: Status, finishedAt: Option<Time>)
      modifies this`builds
      ensures View() == AfterUpdateStatus(old(View()), build, status, finishedAt)
    {
      if build in builds {
        builds := builds[build := builds[build].(status := status, finishedAt := finishedAt)];
      }
    }

    /** DeleteActiveTemplateBuild. */
    method DeleteActive(build: BuildId)
      modifies this`active
      ensures View() == AfterDeleteActive(old(View()), build)
    {
      active := active - {build};
    }

    /** FailTemplateBuildAndDeactivate. */
    method FailAndDeactivate(build: BuildId, status: Status, finishedAt: Option<Time>)
      modifies this`builds, this`active
      ensures View() == AfterDeactivate(old(View()), build, status, finishedAt)
    {
      DeleteActive(build);
      UpdateStatus(build, status, finishedAt);
    }

    /** FinishTemplateBuild. */
    method FinishBuild(now: Time, build: BuildId, status: Status)
      modifies this`builds, this`active
      ensures View() == AfterDeactivate(old(View()), build, status, Some(now))
    {
      DeleteActive(build);
      if build in builds {
        builds := builds[build := builds[build].(finishedAt := Some(now), status := status)];
      }
    }
  }
}
