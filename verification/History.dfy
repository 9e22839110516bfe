/**
 The snapshot tables refine a per-sandbox history: the uploads of a sandbox since its
 snapshot env was created, oldest first.
 */
module History {
  import opened Wrappers
  import opened Store
  import opened StoreInvariants
  import opened Resolution
  import opened SnapshotRows

  datatype Upload = Upload(row: RowId, build: BuildId, time: Time)

  datatype Life = Life(env: EnvId, baseEnv: EnvId, uploads: seq<Upload>)

  type Log = map<SandboxId, Life>

  /** What a transaction adds to the log; `done` says that it succeeded, for a deletion that a row went. */
  function Record(log: Log, now: Time, s: Stmt, done: bool): Log {
    if !done then log
    else
      match s
      case UpsertSnapshot(u) =>
        var up := Upload(u.row, u.build, now);
        log[u.sandbox := if u.sandbox in log then log[u.sandbox].(uploads := log[u.sandbox].uploads + [up])
                         else Life(u.template, u.baseEnv, [up])]
      case DeleteTemplate(env, _) => map x | x in log && log[x].env != env && log[x].baseEnv != env :: log[x]
      case _ => log
  }

  predicate Done(db: Db, e: Event) {
    Outcome(db, e).Ok? && (e.stmt.DeleteTemplate? ==> Deletes(db, e.stmt.env, e.stmt.team))
  }

  function RecordRun(log: Log, db: Db, events: seq<Event>): Log
    decreases |events|
  {
    if events == [] then log
    else RecordRun(Record(log, Now(db, events[0]), events[0].stmt, Done(db, events[0])), Step(db, events[0]), events[1..])
  }

  /** The build of the most recent upload that is ready. */
  function LastReady(db: Db, uploads: seq<Upload>): Option<BuildId> {
    if uploads == [] then None
    else
      var last := uploads[|uploads| - 1];
      if HasGroup(db, last.build, ReadyGroup) then Some(last.build) else LastReady(db, uploads[..|uploads| - 1])
  }

  /** Unfinished and failed uploads do not count, however many there are. */
  lemma {:induction false} UnreadyUploadsDoNotCount(db: Db, uploads: seq<Upload>, more: seq<Upload>)
    requires forall i :: 0 <= i < |more| ==> !HasGroup(db, more[i].build, ReadyGroup)
    ensures LastReady(db, uploads + more) == LastReady(db, uploads)
  {
    if more == [] {
      assert uploads + more == uploads;
    } else {
      assert (uploads + more)[..|uploads + more| - 1] == uploads + more[..|more| - 1];
      UnreadyUploadsDoNotCount(db, uploads, more[..|more| - 1]);
    }
  }

  function RowOf(env: EnvId, up: Upload): Assignment {
    Assignment(up.row, env, up.build, DEFAULT_TAG, up.time)
  }

  function RowsOf(env: EnvId, uploads: seq<Upload>): set<Assignment> {
    set up | up in uploads :: RowOf(env, up)
  }

  ghost predicate Ascending(uploads: seq<Upload>) {
    forall i, j :: 0 <= i < j < |uploads| ==> uploads[i].time < uploads[j].time
  }

  ghost predicate Describes(db: Db, s: SandboxId, life: Life)
    requires s in db.snapshots
  {
    && life.env == db.snapshots[s].env && life.baseEnv == db.snapshots[s].baseEnv
    && DefaultRows(db, life.env) == RowsOf(life.env, life.uploads)
    && Ascending(life.uploads) && (forall up :: up in life.uploads ==> up.time <= db.clock)
  }

  ghost predicate Refines(db: Db, log: Log) {
    log.Keys == db.snapshots.Keys && forall s :: s in log ==> Describes(db, s, log[s])
  }

  /** The guard of the template lookups: an env that exists is no sandbox snapshot. */
  predicate Guarded(db: Db, env: EnvId) {
    env in db.envs ==> IsTemplate(db, env)
  }

  /**
   What the handlers see to: a build is registered for a new env or one found by a template lookup,
   and default tags are only assigned to, or deleted from, such an env.
   */
  predicate Proper(db: Db, s: Stmt) {
    match s
    case RegisterBuild(r) => Guarded(db, r.env)
    case AssignTags(env, _, rows) => Guarded(db, env) || forall t :: t in rows ==> t.tag != DEFAULT_TAG
    case DeleteTags(env, tags) => Guarded(db, env) || DEFAULT_TAG !in tags
    case _ => true
  }

  lemma GuardedIsNoSnapshot(db: Db, env: EnvId, s: SandboxId)
    requires Inv(db) && Guarded(db, env) && s in db.snapshots
    ensures db.snapshots[s].env != env
  {
  }

  ghost predicate AllProper(db: Db, events: seq<Event>)
    decreases |events|
  {
    events == [] || (Proper(db, events[0].stmt) && AllProper(Step(db, events[0]), events[1..]))
  }

  lemma RowsOfAppend(env: EnvId, uploads: seq<Upload>, up: Upload)
    ensures RowsOf(env, uploads + [up]) == RowsOf(env, uploads) + {RowOf(env, up)}
  {
    assert forall x :: x in uploads + [up] <==> x in uploads || x == up;
    forall a | a in RowsOf(env, uploads) + {RowOf(env, up)}
      ensures a in RowsOf(env, uploads + [up])
    {
      if a == RowOf(env, up) { assert up in uploads + [up]; }
    }
  }

  /** Newest ready row and last ready upload are the same thing. */
  lemma {:induction false} NewestIsLastReady(db: Db, env: EnvId, uploads: seq<Upload>)
    requires Ascending(uploads)
    ensures BuildsOf(Newest(ReadyRows(db, RowsOf(env, uploads))))
            == match LastReady(db, uploads) case None => {} case Some(b) => {b}
  {
    if uploads != [] {
      var n := |uploads| - 1;
      var last, before := uploads[n], uploads[..n];
      assert uploads == before + [last];
      RowsOfAppend(env, before, last);
      var rows := ReadyRows(db, RowsOf(env, uploads));
      if HasGroup(db, last.build, ReadyGroup) {
        forall a | a in rows
          ensures a == RowOf(env, last) || a.createdAt < last.time
        {
          if a != RowOf(env, last) {
            var up :| up in before && a == RowOf(env, up);
          }
        }
        assert RowOf(env, last) in rows;
        assert Newest(rows) == {RowOf(env, last)};
      } else {
        assert rows == ReadyRows(db, RowsOf(env, before));
        NewestIsLastReady(db, env, before);
      }
    }
  }

  /** GetLastSnapshot answers with the most recent upload of the sandbox whose build is ready. */
  lemma LastSnapshotIsLastReady(db: Db, log: Log, s: SandboxId)
    requires Refines(db, log)
    ensures LastSnapshot(db, s)
            == if s !in log then {} else match LastReady(db, log[s].uploads) case None => {} case Some(b) => {b}
  {
    if s in log {
      assert Describes(db, s, log[s]);
      NewestIsLastReady(db, log[s].env, log[s].uploads);
    }
  }

  /** The snapshot keeps its env and base env, and no default row is added to that env. */
  ghost predicate Untouched(db: Db, d: Db, s: SandboxId) {
    && s in db.snapshots && s in d.snapshots && db.clock <= d.clock
    && d.snapshots[s].env == db.snapshots[s].env && d.snapshots[s].baseEnv == db.snapshots[s].baseEnv
    && DefaultRows(d, db.snapshots[s].env) == DefaultRows(db, db.snapshots[s].env)
  }

  lemma UpsertUntouched(db: Db, now: Time, u: UpsertArgs, s: SandboxId)
    requires Inv(db) && AfterUpsertSnapshot(db, now, u).Ok? && s in db.snapshots && s != u.sandbox
    ensures Untouched(db, AfterUpsertSnapshot(db, now, u).value, s)
  {
    var d := AfterUpsertSnapshot(db, now, u).value;
    UpsertAddsOneAssignment(db, now, u);
    UpsertRefreshesOneRow(db, now, u);
    var a := Assignment(u.row, d.snapshots[u.sandbox].env, u.build, DEFAULT_TAG, now);
    assert d.assignments == db.assignments + (d.assignments - db.assignments);
    assert a.env != db.snapshots[s].env;
  }

  /** The life of the upserted sandbox, before and after. */
  lemma UpsertRefines(db: Db, now: Time, u: UpsertArgs, log: Log)
    requires References(db) && now <= db.clock && AfterUpsertSnapshot(db, now, u).Ok?
    requires u.sandbox in log <==> u.sandbox in db.snapshots
    requires u.sandbox in log ==> Describes(db, u.sandbox, log[u.sandbox])
    requires u.sandbox in log ==> forall up :: up in log[u.sandbox].uploads ==> up.time < now
    ensures var d, life := AfterUpsertSnapshot(db, now, u).value, Record(log, now, UpsertSnapshot(u), true)[u.sandbox];
            u.sandbox in d.snapshots && Describes(d, u.sandbox, life)
  {
    var before := if u.sandbox in log then log[u.sandbox].uploads else [];
    UpsertAddsUpload(db, now, u, before);
    UpsertRefreshesOneRow(db, now, u);
    LaterUpload(before, Upload(u.row, u.build, now));
    assert [] + [Upload(u.row, u.build, now)] == [Upload(u.row, u.build, now)];
  }

  /** The default rows of the env gain those of the upload. */
  lemma UpsertAddsUpload(db: Db, now: Time, u: UpsertArgs, before: seq<Upload>)
    requires References(db) && AfterUpsertSnapshot(db, now, u).Ok?
    requires if u.sandbox in db.snapshots
             then DefaultRows(db, db.snapshots[u.sandbox].env) == RowsOf(db.snapshots[u.sandbox].env, before)
             else before == []
    ensures var d := AfterUpsertSnapshot(db, now, u).value;
            && d.clock == db.clock && u.sandbox in d.snapshots
            && var env := d.snapshots[u.sandbox].env; DefaultRows(d, env) == RowsOf(env, before + [Upload(u.row, u.build, now)])
  {
    var d := AfterUpsertSnapshot(db, now, u).value;
    UpsertAddsOneAssignment(db, now, u);
    var env := d.snapshots[u.sandbox].env;
    assert DefaultRows(db, env) == RowsOf(env, before);
    UpsertAppends(db, d, env, before, Upload(u.row, u.build, now));
  }

  lemma LaterUpload(before: seq<Upload>, up: Upload)
    requires Ascending(before) && forall x :: x in before ==> x.time < up.time
    ensures Ascending(before + [up])
  {
  }

  lemma UpsertAppends(db: Db, d: Db, env: EnvId, before: seq<Upload>, up: Upload)
    requires db.assignments <= d.assignments && d.assignments - db.assignments == {RowOf(env, up)}
    requires DefaultRows(db, env) == RowsOf(env, before)
    ensures DefaultRows(d, env) == RowsOf(env, before + [up])
  {
    RowsOfAppend(env, before, up);
    assert d.assignments == db.assignments + {RowOf(env, up)};
    assert DefaultRows(d, env) == DefaultRows(db, env) + {RowOf(env, up)};
  }

  lemma RegisterUntouched(db: Db, now: Time, r: RegisterArgs, s: SandboxId)
    requires Inv(db) && Proper(db, RegisterBuild(r)) && AfterRegisterBuild(db, now, r).Ok? && s in db.snapshots
    ensures Untouched(db, AfterRegisterBuild(db, now, r).value, s)
  {
    LoopShape(db, now, RegisterBuild(r));
    GuardedIsNoSnapshot(db, r.env, s);
    var d, env := AfterRegisterBuild(db, now, r).value, db.snapshots[s].env;
    assert forall a :: a in d.assignments && a !in db.assignments ==> a.env != env;
  }

  lemma TaggingUntouched(db: Db, now: Time, env: EnvId, build: BuildId, rows: seq<TagRow>, s: SandboxId)
    requires Inv(db) && Proper(db, AssignTags(env, build, rows)) && AfterAssignTags(db, now, env, build, rows).Ok?
    requires s in db.snapshots
    ensures Untouched(db, AfterAssignTags(db, now, env, build, rows).value, s)
  {
    var d := AfterAssignTags(db, now, env, build, rows).value;
    LoopShape(db, now, AssignTags(env, build, rows));
    if Guarded(db, env) { GuardedIsNoSnapshot(db, env, s); }
    assert forall a :: a in d.assignments && a !in db.assignments ==> a.env != db.snapshots[s].env || a.tag != DEFAULT_TAG;
  }

  lemma UntaggingUntouched(db: Db, env: EnvId, tags: seq<Tag>, s: SandboxId)
    requires Inv(db) && Proper(db, DeleteTags(env, tags)) && s in db.snapshots
    ensures Untouched(db, AfterDeleteTags(db, env, tags), s)
  {
    if Guarded(db, env) { GuardedIsNoSnapshot(db, env, s); }
  }

  lemma DeleteUntouched(db: Db, env: EnvId, team: TeamId, s: SandboxId)
    requires s in db.snapshots && !DeletesEnvOf(db, DeleteTemplate(env, team), db.snapshots[s])
    ensures Untouched(db, AfterDeleteTemplate(db, env, team), s)
  {
  }

  lemma UpdateUntouched(db: Db, now: Time, st: Stmt, s: SandboxId)
    requires IsUpdate(st) && s in db.snapshots
    ensures Untouched(db, After(db, now, st).value, s)
  {
  }

  /** No other statement touches the rows of a live snapshot. */
  lemma OthersUntouched(db: Db, now: Time, st: Stmt, s: SandboxId)
    requires Inv(db) && Proper(db, st) && !st.UpsertSnapshot? && After(db, now, st).Ok? && s in db.snapshots
    requires !DeletesEnvOf(db, st, db.snapshots[s])
    ensures Untouched(db, After(db, now, st).value, s)
  {
    var d, env := After(db, now, st).value, db.snapshots[s].env;
    if st.RegisterBuild? {
      RegisterUntouched(db, now, st.register, s);
    } else if st.DeleteTemplate? {
      DeleteUntouched(db, st.env, st.team, s);
    } else if IsUpdate(st) {
      UpdateUntouched(db, now, st, s);
    } else if st.AssignTags? {
      TaggingUntouched(db, now, st.env, st.build, st.rows, s);
    } else if st.DeleteTags? {
      UntaggingUntouched(db, st.env, st.tags, s);
    } else {
      assert db.assignments <= d.assignments;
      assert forall a :: a in d.assignments && a.env == env && a.tag == DEFAULT_TAG ==> a in db.assignments;
    }
  }

  lemma UntouchedDescribes(db: Db, d: Db, s: SandboxId, life: Life)
    requires Untouched(db, d, s) && Describes(db, s, life)
    ensures Describes(d, s, life)
  {
  }

  /** The log keeps the lives of the other sandboxes. */
  lemma RecordOfOthers(log: Log, now: Time, st: Stmt, done: bool, s: SandboxId)
    requires s in Record(log, now, st, done) && !(st.UpsertSnapshot? && st.upsert.sandbox == s)
    ensures s in log && Record(log, now, st, done)[s] == log[s]
  {
  }

  lemma NotItsEnv(db: Db, now: Time, st: Stmt, s: SandboxId)
    requires After(db, now, st).Ok? && s in db.snapshots && s in After(db, now, st).value.snapshots
    ensures !DeletesEnvOf(db, st, db.snapshots[s])
  {
  }

  lemma OthersDescribed(db: Db, now: Time, st: Stmt, life: Life, s: SandboxId)
    requires Inv(db) && Proper(db, st) && After(db, now, st).Ok? && !(st.UpsertSnapshot? && st.upsert.sandbox == s)
    requires s in db.snapshots && s in After(db, now, st).value.snapshots && Describes(db, s, life)
    ensures Describes(After(db, now, st).value, s, life)
  {
    if st.UpsertSnapshot? {
      UpsertUntouched(db, now, st.upsert, s);
    } else {
      NotItsEnv(db, now, st, s);
      OthersUntouched(db, now, st, s);
    }
    UntouchedDescribes(db, After(db, now, st).value, s, life);
  }

  lemma AfterDescribes(db: Db, now: Time, st: Stmt, log: Log, done: bool, s: SandboxId)
    requires Fresh(db, now) && Proper(db, st) && After(db, now, st).Ok?
    requires done <==> (st.DeleteTemplate? ==> Deletes(db, st.env, st.team))
    requires Refines(db, log) && forall x, up :: x in log && up in log[x].uploads ==> up.time < now
    requires s in Record(log, now, st, done) && s in After(db, now, st).value.snapshots
    ensures Describes(After(db, now, st).value, s, Record(log, now, st, done)[s])
  {
    if st.UpsertSnapshot? && s == st.upsert.sandbox {
      assert s in log ==> Describes(db, s, log[s]);
      UpsertRefines(db, now, st.upsert, log);
    } else {
      RecordOfOthers(log, now, st, done, s);
      assert Describes(db, s, log[s]);
      OthersDescribed(db, now, st, log[s], s);
    }
  }

  lemma StepRefines(db: Db, e: Event, log: Log)
    requires Inv(db) && Refines(db, log) && Proper(db, e.stmt)
    ensures Refines(Step(db, e), Record(log, Now(db, e), e.stmt, Done(db, e)))
  {
    var t, now := Tick(db, e), Now(db, e);
    TickRefines(db, e, log);
    if Outcome(db, e).Ok? {
      RecordKeys(t, now, e.stmt, log, Done(db, e));
      forall s | s in Record(log, now, e.stmt, Done(db, e))
        ensures Describes(Step(db, e), s, Record(log, now, e.stmt, Done(db, e))[s])
      {
        AfterDescribes(t, now, e.stmt, log, Done(db, e), s);
      }
    }
  }

  lemma TickRefines(db: Db, e: Event, log: Log)
    requires Inv(db) && Refines(db, log)
    ensures Refines(Tick(db, e), log) && Fresh(Tick(db, e), Now(db, e))
    ensures forall x, up :: x in log && up in log[x].uploads ==> up.time < Now(db, e)
  {
    assert forall s :: s in log ==> Describes(db, s, log[s]);
    forall s | s in log
      ensures Describes(Tick(db, e), s, log[s])
    {
      assert DefaultRows(Tick(db, e), log[s].env) == DefaultRows(db, log[s].env);
    }
  }

  /** The log has a life for exactly the sandboxes with a snapshot row. */
  lemma RecordKeys(db: Db, now: Time, st: Stmt, log: Log, done: bool)
    requires Refines(db, log) && After(db, now, st).Ok?
    requires done <==> (st.DeleteTemplate? ==> Deletes(db, st.env, st.team))
    ensures Record(log, now, st, done).Keys == After(db, now, st).value.snapshots.Keys
  {
    assert forall s :: s in log ==> Describes(db, s, log[s]);
    LoopShape(db, now, st);
  }

  /**
   Over every run the handlers let through, GetLastSnapshot answers with the build of the most
   recent upload of the sandbox that is ready, and so pauses that are pending or failed
   never change it.
   */
  lemma {:induction false} RunRefines(db: Db, log: Log, events: seq<Event>)
    requires Inv(db) && Refines(db, log) && AllProper(db, events)
    ensures Refines(Run(db, events), RecordRun(log, db, events))
    ensures forall s :: LastSnapshot(Run(db, events), s)
              == var l := RecordRun(log, db, events);
                 if s !in l then {} else match LastReady(Run(db, events), l[s].uploads) case None => {} case Some(b) => {b}
    decreases |events|
  {
    if events != [] {
      StepRefines(db, events[0], log);
      StepKeepsInv(db, events[0]);
      RunRefines(Step(db, events[0]), Record(log, Now(db, events[0]), events[0].stmt, Done(db, events[0])), events[1..]);
    } else {
      forall s { LastSnapshotIsLastReady(db, log, s); }
    }
  }

  /** In particular over every such run from empty tables, with the log of that run. */
  lemma RunFromEmptyRefines(events: seq<Event>)
    requires AllProper(EMPTY, events)
    ensures Refines(Run(EMPTY, events), RecordRun(map[], EMPTY, events))
    ensures forall s :: LastSnapshot(Run(EMPTY, events), s)
              == var l := RecordRun(map[], EMPTY, events);
                 if s !in l then {} else match LastReady(Run(EMPTY, events), l[s].uploads) case None => {} case Some(b) => {b}
  {
    RunRefines(EMPTY, map[], events);
  }
}
