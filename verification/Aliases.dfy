/** What a registration does to the aliases, and when it succeeds. */
module Aliases {
  import opened Wrappers
  import opened Store
  import opened StoreInvariants

  /** The env holds the alias in the namespace. */
  ghost predicate Holds(db: Db, c: AliasClaim, env: EnvId) {
    exists y :: y in db.aliases && y.alias == c.alias && y.namespace == Some(c.namespace) && y.env == env
  }

  ghost predicate HeldByOther(db: Db, c: AliasClaim, env: EnvId) {
    exists y :: y in db.aliases && y.alias == c.alias && y.namespace == Some(c.namespace) && y.env != env
  }

  /** A claim succeeds exactly when the alias is no env's id and no other env holds it, and the env exists or holds it already; otherwise it fails with the first of these. */
  lemma ClaimSucceedsIff(db: Db, env: EnvId, c: AliasClaim)
    requires Keys(db)
    ensures var r := AfterClaimAlias(db, env, Some(c));
            && (r.Ok? <==> c.alias !in db.envs && !HeldByOther(db, c, env) && (env in db.envs || Holds(db, c, env)))
            && (r == Err(AliasIsTemplateId) <==> c.alias in db.envs)
            && (r == Err(AliasOfOther) <==> c.alias !in db.envs && HeldByOther(db, c, env))
  {
    assert Taken(db, c.alias, Some(c.namespace)) <==> Holds(db, c, env) || HeldByOther(db, c, env);
  }

  /** After a successful claim the env holds the alias; if it did before, nothing has changed, and otherwise its renamable aliases have gone and one renamable alias, the claimed one, has come. Other envs keep theirs. */
  lemma ClaimMeaning(db: Db, env: EnvId, c: AliasClaim)
    requires AfterClaimAlias(db, env, Some(c)).Ok?
    ensures var d := AfterClaimAlias(db, env, Some(c)).value;
            && Holds(d, c, env)
            && (Holds(db, c, env) ==> d.aliases == db.aliases)
            && (!Holds(db, c, env) ==>
                  forall x :: x in d.aliases
                    <==> (x in db.aliases && !(x.env == env && x.renamable)) || x == Alias(c.alias, Some(c.namespace), env, true))
            && (forall x: Alias :: x.env != env ==> (x in d.aliases <==> x in db.aliases))
  {
    var d, x := AfterClaimAlias(db, env, Some(c)).value, Alias(c.alias, Some(c.namespace), env, true);
    if !Holds(db, c, env) { assert x in d.aliases; }
  }

  /** Tagging succeeds exactly when the row ids are new and distinct and, if there is any tag, the env and the build exist. */
  lemma {:induction false} TaggingSucceedsIff(db: Db, now: Time, env: EnvId, build: BuildId, tags: seq<TagRow>)
    ensures AfterAssignTags(db, now, env, build, tags).Ok?
            <==> && (tags != [] ==> env in db.envs && build in db.builds)
                 && (forall i :: 0 <= i < |tags| ==> tags[i].row !in RowIds(db.assignments))
                 && (forall i, j :: 0 <= i < j < |tags| ==> tags[i].row != tags[j].row)
    decreases tags
  {
    if tags != [] && AfterCreateAssignment(db, now, env, build, tags[0].tag, tags[0].row).Ok? {
      var d := AfterCreateAssignment(db, now, env, build, tags[0].tag, tags[0].row).value;
      TaggingSucceedsIff(d, now, env, build, tags[1..]);
      assert d.assignments == db.assignments + {Assignment(tags[0].row, env, build, tags[0].tag, now)};
      assert forall row :: row in RowIds(d.assignments) <==> row in RowIds(db.assignments) || row == tags[0].row by {
        assert Assignment(tags[0].row, env, build, tags[0].tag, now) in d.assignments;
      }
      assert forall i :: 0 <= i < |tags[1..]| ==> tags[1..][i] == tags[i + 1];
    }
  }

  /** The tables when the registration claims its alias: its env exists. */
  lemma BeforeTheClaim(db: Db, now: Time, r: RegisterArgs)
    requires r.build !in db.builds
    ensures var d1 := AfterCreateOrUpdateTemplate(db, r.env, r.team);
            var d2 := AfterInvalidateUnstarted(d1, now, r.env, Tags(Assigned(r)));
            var d3 := AfterCreateTemplateBuild(d2, now, r.build, Waiting);
            && d3.Ok? && d3.value.envs.Keys == db.envs.Keys + {r.env} && d3.value.builds.Keys == db.builds.Keys + {r.build}
            && d3.value.aliases == db.aliases && d3.value.assignments == db.assignments
            && d3.value.active.Keys <= db.active.Keys && (r.build in d3.value.active <==> r.build in db.active)
  {
    var d1 := AfterCreateOrUpdateTemplate(db, r.env, r.team);
    assert forall b :: b in Unstarted(d1, r.env, Tags(Assigned(r))) ==> b in db.builds;
  }

  ghost predicate MayClaim(db: Db, r: RegisterArgs) {
    r.alias.Some? ==> r.alias.value.alias !in db.envs && r.alias.value.alias != r.env && !HeldByOther(db, r.alias.value, r.env)
  }

  /** A registration succeeds exactly when its generated ids are new, and its alias, if any, is neither the id of an env, its own included, nor another env's. */
  lemma RegisterSucceedsIff(db: Db, now: Time, r: RegisterArgs)
    requires Inv(db)
    ensures AfterRegisterBuild(db, now, r).Ok?
            <==> && r.build !in db.builds && MayClaim(db, r)
                 && (forall i :: 0 <= i < |Assigned(r)| ==> forall a :: a in db.assignments ==> a.id != Assigned(r)[i].row)
                 && (forall i, j :: 0 <= i < j < |Assigned(r)| ==> Assigned(r)[i].row != Assigned(r)[j].row)
  {
    if r.build !in db.builds {
      BeforeTheClaim(db, now, r);
      var d3 := AfterCreateTemplateBuild(
        AfterInvalidateUnstarted(AfterCreateOrUpdateTemplate(db, r.env, r.team), now, r.env, Tags(Assigned(r))), now, r.build, Waiting).value;
      RestSucceedsIff(db, d3, now, r);
    }
  }

  lemma RestSucceedsIff(db: Db, d3: Db, now: Time, r: RegisterArgs)
    requires Inv(db) && d3.envs.Keys == db.envs.Keys + {r.env} && r.build in d3.builds && r.build !in db.builds
    requires d3.aliases == db.aliases && d3.assignments == db.assignments && r.build !in d3.active
    ensures var d4 := AfterClaimAlias(d3, r.env, r.alias);
            && (d4.Ok? <==> MayClaim(db, r))
            && (d4.Ok? ==>
                  var d5 := AfterAssignTags(d4.value, now, r.env, r.build, Assigned(r));
                  && (d5.Ok? <==> && (forall i :: 0 <= i < |Assigned(r)| ==> forall a :: a in db.assignments ==> a.id != Assigned(r)[i].row)
                                  && (forall i, j :: 0 <= i < j < |Assigned(r)| ==> Assigned(r)[i].row != Assigned(r)[j].row))
                  && (d5.Ok? ==> AfterCreateActive(d5.value, r.build, r.team, r.env, Tags(Assigned(r))).Ok?))
  {
    ClaimOfRegistration(db, d3, r);
    var d4 := AfterClaimAlias(d3, r.env, r.alias);
    if d4.Ok? {
      ClaimShape(d3, r.env, r.alias);
      TaggingSucceedsIff(d4.value, now, r.env, r.build, Assigned(r));
      assert forall row :: row in RowIds(db.assignments) <==> exists a :: a in db.assignments && a.id == row;
      var d5 := AfterAssignTags(d4.value, now, r.env, r.build, Assigned(r));
      if d5.Ok? { AssignTagsShape(d4.value, now, r.env, r.build, Assigned(r)); }
    }
  }

  lemma ClaimOfRegistration(db: Db, d3: Db, r: RegisterArgs)
    requires Inv(db) && d3.envs.Keys == db.envs.Keys + {r.env} && d3.aliases == db.aliases
    ensures AfterClaimAlias(d3, r.env, r.alias).Ok? <==> MayClaim(db, r)
  {
    if r.alias.Some? {
      var c := r.alias.value;
      assert Taken(d3, c.alias, Some(c.namespace)) <==> Holds(db, c, r.env) || HeldByOther(db, c, r.env);
    }
  }

  /** What a successful registration leaves of the aliases: as its claim does, and nothing changes without one. */
  lemma RegisterAliases(db: Db, now: Time, r: RegisterArgs)
    requires AfterRegisterBuild(db, now, r).Ok?
    ensures var d := AfterRegisterBuild(db, now, r).value;
            match r.alias
            case None => d.aliases == db.aliases
            case Some(c) =>
              && Holds(d, c, r.env)
              && (Holds(db, c, r.env) ==> d.aliases == db.aliases)
              && (!Holds(db, c, r.env) ==>
                    forall x :: x in d.aliases
                      <==> (x in db.aliases && !(x.env == r.env && x.renamable)) || x == Alias(c.alias, Some(c.namespace), r.env, true))
              && (forall x: Alias :: x.env != r.env ==> (x in d.aliases <==> x in db.aliases))
  {
    RegisterShape(db, now, r);
    if r.alias.Some? { ClaimMeaning(BeforeAlias(db, now, r), r.env, r.alias.value); }
  }

  /** A created alias must be free and its env must exist; an upserted one stays with whoever had it, and otherwise is created. */
  lemma AliasStatements(db: Db, now: Time, x: Alias)
    ensures var taken := exists y :: y in db.aliases && y.alias == x.alias && y.namespace == x.namespace;
            var added := if x.env in db.envs then Ok(db.(aliases := db.aliases + {x})) else Err(ForeignKeyViolation);
            && After(db, now, CreateAlias(x)) == (if taken then Err(UniqueViolation) else added)
            && After(db, now, UpsertAlias(x)) == (if taken then Ok(db) else added)
  {
  }
}
