/** Deleting a template and the builds only it used. */
module Deletion {
  import opened Wrappers
  import opened Store
  import opened StoreInvariants
  import opened Resolution

  predicate Shared(db: Db, env: EnvId, build: BuildId) {
    exists o :: o in db.assignments && o.build == build && o.env != env
  }

  /** GetExclusiveBuildsForTemplateDeletion, asked before the template is deleted. */
  function Exclusive(db: Db, env: EnvId): set<BuildId> {
    set a | a in db.assignments && a.env == env && a.build in db.builds && !Shared(db, env, a.build) :: a.build
  }

  /** Deleting build rows cascades to their assignments. */
  function WithoutBuilds(db: Db, gone: set<BuildId>): Db {
    db.(builds := db.builds - gone, assignments := (set a | a in db.assignments && a.build !in gone))
  }

  function AfterFullDeletion(db: Db, env: EnvId, team: TeamId): Db {
    WithoutBuilds(AfterDeleteTemplate(db, env, team), Exclusive(db, env))
  }

  /** The rows of every other env survive, with their builds as they were. */
  ghost predicate OthersKept(db: Db, d: Db, env: EnvId) {
    && (forall a :: a in db.assignments && a.env != env ==>
          a in d.assignments && a.build in db.builds && a.build in d.builds && d.builds[a.build] == db.builds[a.build])
    && (forall a :: a in d.assignments ==> a in db.assignments)
    && (forall e :: e in db.envs && e != env ==> e in d.envs && d.envs[e] == db.envs[e])
    && d.envs.Keys <= db.envs.Keys
  }

  lemma FullDeletionKeepsOthers(db: Db, env: EnvId, team: TeamId)
    requires Inv(db)
    ensures OthersKept(db, AfterFullDeletion(db, env, team), env)
  {
    var d := AfterFullDeletion(db, env, team);
    forall a | a in db.assignments && a.env != env
      ensures a in d.assignments && a.build in d.builds && d.builds[a.build] == db.builds[a.build]
    {
      assert Shared(db, env, a.build);
    }
  }

  lemma KeptRowsResolve(db: Db, d: Db, env: EnvId, other: EnvId)
    requires OthersKept(db, d, env) && other != env
    requires forall a :: a in db.assignments ==> a.build in db.builds
    ensures ReadyRows(d, set a | a in d.assignments && a.env == other) == ReadyRows(db, set a | a in db.assignments && a.env == other)
  {
    forall a | a in db.assignments && a.env == other
      ensures HasGroup(d, a.build, ReadyGroup) <==> HasGroup(db, a.build, ReadyGroup)
    {
    }
  }

  /**
   Deleting template T and then its exclusive builds leaves no assignment pointing at a
   missing env or build, and every other template resolves every tag as before, even one
   that shares a build with T.
   */
  lemma DeletionDoesNotInterfere(db: Db, env: EnvId, team: TeamId, cast: string -> Option<BuildId>)
    requires Inv(db)
    ensures var d := AfterFullDeletion(db, env, team);
            && (forall a :: a in d.assignments ==> a.env in d.envs && a.build in d.builds)
            && (forall other, tag: Option<Tag> :: other != env ==> Resolve(d, cast, other, tag) == Resolve(db, cast, other, tag))
  {
    var d := AfterFullDeletion(db, env, team);
    FullDeletionKeepsOthers(db, env, team);
    forall other, tag: Option<Tag> | other != env
      ensures Resolve(d, cast, other, tag) == Resolve(db, cast, other, tag)
    {
      KeptRowsResolve(db, d, env, other);
      assert forall x: Db :: ReadyRows(x, TagRows(x, cast, other, tag))
                             == set a | a in ReadyRows(x, set a | a in x.assignments && a.env == other) && Matches(cast, tag, a);
    }
  }

  /** The snapshots of every sandbox that neither lives in T nor was started from it still resolve to the same build. */
  lemma DeletionKeepsOtherSnapshots(db: Db, env: EnvId, team: TeamId, s: SandboxId)
    requires Inv(db) && s in db.snapshots && db.snapshots[s].env != env && db.snapshots[s].baseEnv != env
    ensures var d := AfterFullDeletion(db, env, team);
            s in d.snapshots && d.snapshots[s] == db.snapshots[s] && LastSnapshot(d, s) == LastSnapshot(db, s)
  {
    var d, other := AfterFullDeletion(db, env, team), db.snapshots[s].env;
    FullDeletionKeepsOthers(db, env, team);
    KeptRowsResolve(db, d, env, other);
    assert forall x: Db :: ReadyRows(x, DefaultRows(x, other))
                           == set a | a in ReadyRows(x, set a | a in x.assignments && a.env == other) && a.tag == DEFAULT_TAG;
  }

  /** The list is exact: builds of T can be removed without touching a row of another env exactly when all of them are in it. */
  lemma ExclusiveIsExactlyWhatMayGo(db: Db, env: EnvId, gone: set<BuildId>)
    requires Inv(db)
    requires forall b :: b in gone ==> exists a :: a in db.assignments && a.env == env && a.build == b
    ensures gone <= Exclusive(db, env)
            <==> forall a :: a in db.assignments && a.env != env ==> a in WithoutBuilds(db, gone).assignments
  {
    if gone <= Exclusive(db, env) {
      forall a | a in db.assignments && a.env != env
        ensures a.build !in gone
      {
        assert Shared(db, env, a.build);
      }
    } else {
      var b :| b in gone && b !in Exclusive(db, env);
      var a :| a in db.assignments && a.env == env && a.build == b;
      assert Shared(db, env, b);
      var o :| o in db.assignments && o.build == b && o.env != env;
    }
  }

  /** Deleting one's template removes its assignments, aliases and every snapshot that lives in it or was started from it, and nothing else of other envs. */
  lemma DeleteTemplateCascades(db: Db, env: EnvId, team: TeamId)
    requires Inv(db)
    ensures var d := AfterDeleteTemplate(db, env, team);
            if env in db.envs && db.envs[env].team == team then
              && env !in d.envs && (forall e :: e in db.envs && e != env ==> e in d.envs && d.envs[e] == db.envs[e])
              && (forall a :: a in d.assignments <==> a in db.assignments && a.env != env)
              && (forall x :: x in d.aliases <==> x in db.aliases && x.env != env)
              && (forall s :: s in d.snapshots <==> s in db.snapshots && env != db.snapshots[s].env && env != db.snapshots[s].baseEnv)
              && env !in d.snapshotTemplates && d.builds == db.builds && d.active == db.active
            else d == db
  {
  }
}
