/** What GetLastSnapshot answers after a pause, for each status text. */
module SnapshotAnswers {
  import opened Wrappers
  import opened Store
  import opened StoreInvariants
  import opened SnapshotRows
  import opened Resolution

  /** A row newer than all others answers alone. */
  lemma NewestAlone(rows: set<Assignment>, a: Assignment)
    requires forall r :: r in rows ==> r.createdAt < a.createdAt
    ensures BuildsOf(Newest(rows + {a})) == {a.build}
  {
    assert a in rows + {a};
    assert Newest(rows + {a}) == {a};
  }

  /** A new sandbox gets a new env, and a known one keeps its own. */
  lemma EnvOfUpsert(db: Db, now: Time, u: UpsertArgs)
    requires AfterUpsertSnapshot(db, now, u).Ok?
    ensures var d := AfterUpsertSnapshot(db, now, u).value;
            && u.sandbox in d.snapshots
            && d.snapshots[u.sandbox].env == (if u.sandbox in db.snapshots then db.snapshots[u.sandbox].env else u.template)
            && (u.sandbox !in db.snapshots ==> u.template !in db.envs)
  {
  }

  lemma RowsOfOneMore(db: Db, d: Db, env: EnvId, a: Assignment)
    requires d.assignments == db.assignments + {a} && a.env == env && a.tag == "default"
    ensures DefaultRows(d, env) == DefaultRows(db, env) + {a}
  {
  }

  lemma NoRowsYet(db: Db, env: EnvId)
    requires References(db) && env !in db.envs
    ensures DefaultRows(db, env) == {}
  {
  }

  /** The default rows of the sandbox's env, after an upsert. */
  lemma UpsertRows(db: Db, now: Time, u: UpsertArgs)
    requires References(db) && AfterUpsertSnapshot(db, now, u).Ok?
    ensures var d := AfterUpsertSnapshot(db, now, u).value;
            && u.sandbox in d.snapshots
            && var env := d.snapshots[u.sandbox].env;
               && DefaultRows(d, env) == DefaultRows(db, env) + {Assignment(u.row, env, u.build, "default", now)}
               && (u.sandbox in db.snapshots ==> env == db.snapshots[u.sandbox].env)
               && (u.sandbox !in db.snapshots ==> DefaultRows(db, env) == {})
  {
    var d := AfterUpsertSnapshot(db, now, u).value;
    EnvOfUpsert(db, now, u);
    UpsertAddsOneAssignment(db, now, u);
    var env := d.snapshots[u.sandbox].env;
    var a := Assignment(u.row, env, u.build, "default", now);
    assert d.assignments == db.assignments + {a};
    RowsOfOneMore(db, d, env, a);
    if u.sandbox !in db.snapshots { NoRowsYet(db, env); }
  }

  /** The rows of older builds are as ready as they were, and the new one is by its own status. */
  lemma UpsertReadyRows(db: Db, now: Time, u: UpsertArgs)
    requires Fresh(db, now) && AfterUpsertSnapshot(db, now, u).Ok?
    ensures var d := AfterUpsertSnapshot(db, now, u).value;
            && u.sandbox in d.snapshots
            && var env := d.snapshots[u.sandbox].env;
               var old_ := ReadyRows(db, DefaultRows(db, env));
               ReadyRows(d, DefaultRows(d, env))
               == if u.status in {Ready, Uploaded, Success} then old_ + {Assignment(u.row, env, u.build, "default", now)} else old_
  {
    var d := AfterUpsertSnapshot(db, now, u).value;
    UpsertRows(db, now, u);
    UpsertAddsOneBuild(db, now, u);
    var env := d.snapshots[u.sandbox].env;
    assert d.builds[u.build].status == u.status;
    assert forall a :: a in DefaultRows(db, env) ==> a.build in db.builds && a.build != u.build;
  }

  /**
   One successful upsert: with a status text of the ready group its build is the answer at once, with
   any other the answer is what it was, and none for a new sandbox.
   */
  lemma UpsertAnswers(db: Db, now: Time, u: UpsertArgs)
    requires Fresh(db, now) && AfterUpsertSnapshot(db, now, u).Ok?
    ensures var d := AfterUpsertSnapshot(db, now, u).value;
            && (u.status in {Ready, Uploaded, Success} ==> LastSnapshot(d, u.sandbox) == {u.build})
            && (u.status in {Pending, Waiting, InProgress, Building, Snapshotting, Failed, Unknown}
                ==> LastSnapshot(d, u.sandbox) == if u.sandbox in db.snapshots then LastSnapshot(db, u.sandbox) else {})
  {
    var d := AfterUpsertSnapshot(db, now, u).value;
    UpsertRows(db, now, u);
    UpsertReadyRows(db, now, u);
    var env := d.snapshots[u.sandbox].env;
    if u.status in {Ready, Uploaded, Success} {
      NewestAlone(ReadyRows(db, DefaultRows(db, env)), Assignment(u.row, env, u.build, "default", now));
    }
  }

  /** An upsert with another status differs in that status only. */
  lemma UpsertWithStatus(db: Db, now: Time, u: UpsertArgs, status: Status)
    requires AfterUpsertSnapshot(db, now, u).Ok?
    ensures AfterUpsertSnapshot(db, now, u.(status := status)).Ok?
    ensures var d, e := AfterUpsertSnapshot(db, now, u).value, AfterUpsertSnapshot(db, now, u.(status := status)).value;
            && d.assignments == e.assignments && d.snapshots == e.snapshots
            && u.build in d.builds && e.builds == d.builds[u.build := d.builds[u.build].(status := status)]
  {
  }

  /** Writing a status over that of the upsert is like having upserted with it. */
  lemma StatusAsIfUpserted(db: Db, now: Time, u: UpsertArgs, status: Status, finishedAt: Option<Time>)
    requires AfterUpsertSnapshot(db, now, u).Ok?
    ensures AfterUpsertSnapshot(db, now, u.(status := status)).Ok?
    ensures var d, e := AfterUpdateStatus(AfterUpsertSnapshot(db, now, u).value, u.build, status, finishedAt),
                        AfterUpsertSnapshot(db, now, u.(status := status)).value;
            d.assignments == e.assignments && d.snapshots == e.snapshots && d.builds.Keys == e.builds.Keys
            && forall b :: b in d.builds ==> d.builds[b].status == e.builds[b].status
  {
    UpsertWithStatus(db, now, u, status);
  }

  /** LastSnapshot reads nothing but these. */
  lemma SameAnswer(d: Db, e: Db, s: SandboxId)
    requires d.assignments == e.assignments && d.snapshots == e.snapshots && d.builds.Keys == e.builds.Keys
    requires forall b :: b in d.builds ==> d.builds[b].status == e.builds[b].status
    ensures LastSnapshot(d, s) == LastSnapshot(e, s)
  {
    if s in d.snapshots {
      var env := d.snapshots[s].env;
      assert DefaultRows(d, env) == DefaultRows(e, env);
      assert ReadyRows(d, DefaultRows(d, env)) == ReadyRows(e, DefaultRows(e, env));
    }
  }

  /**
   A pause, and then the report on its build by any of the three status queries: the answer becomes
   that build exactly with a status text of the ready group, and otherwise is what it was before the
   pause.
   */
  lemma PauseThenReport(db: Db, now: Time, u: UpsertArgs, later: Time, report: Stmt, status: Status)
    requires Fresh(db, now) && AfterUpsertSnapshot(db, now, u).Ok?
    requires (report.UpdateStatus? || report.FailAndDeactivate? || report.FinishBuild?) && report.build == u.build
    requires report.status == status
    ensures var d := After(AfterUpsertSnapshot(db, now, u).value, later, report).value;
            && (status in {Ready, Uploaded, Success} ==> LastSnapshot(d, u.sandbox) == {u.build})
            && (status in {Pending, Waiting, InProgress, Building, Snapshotting, Failed, Unknown}
                ==> LastSnapshot(d, u.sandbox) == if u.sandbox in db.snapshots then LastSnapshot(db, u.sandbox) else {})
  {
    var paused := AfterUpsertSnapshot(db, now, u).value;
    var finishedAt := if report.FinishBuild? then Some(later) else report.finishedAt;
    var d, e := After(paused, later, report).value, AfterUpsertSnapshot(db, now, u.(status := status)).value;
    var written := AfterUpdateStatus(paused, u.build, status, finishedAt);
    StatusAsIfUpserted(db, now, u, status, finishedAt);
    assert d.builds == written.builds && d.assignments == written.assignments && d.snapshots == written.snapshots;
    SameAnswer(d, e, u.sandbox);
    UpsertAnswers(db, now, u.(status := status));
  }

  /** Said of the tables alone: the answer is the build of the newest default row, in the sandbox's env, of a build with a ready status. */
  lemma LastSnapshotLiterally(db: Db, s: SandboxId, b: BuildId)
    requires Inv(db)
    ensures LastSnapshot(db, s) == {b}
            <==> && s in db.snapshots
                 && exists a :: && a in db.assignments && a.env == db.snapshots[s].env && a.tag == "default" && a.build == b
                                && b in db.builds && db.builds[b].status in {Ready, Uploaded, Success}
                                && forall c :: && c in db.assignments && c.env == db.snapshots[s].env && c.tag == "default"
                                               && c.build in db.builds && db.builds[c.build].status in {Ready, Uploaded, Success}
                                               && c.build != b
                                               ==> c.createdAt < a.createdAt
  {
    if s in db.snapshots {
      var env := db.snapshots[s].env;
      var rows := ReadyRows(db, DefaultRows(db, env));
      InvUnambiguous(db, rows);
      LeaderIsAnswer(rows, b);
      assert forall c :: c in rows <==> && c in db.assignments && c.env == env && c.tag == "default"
                                        && c.build in db.builds && db.builds[c.build].status in {Ready, Uploaded, Success};
    }
  }
}
