/** The team build pages (get_builds_paginated.sql) and the template build pages (get_template_with_builds.sql). */
module BuildListing {
  import opened Wrappers
  import opened Store
  import opened StoreInvariants
  import Keyset
  import Lex
  import U = Uuid

  datatype BuildKey = BuildKey(at: Time, id: BuildId)

  /** The row comparison `(created_at, id) < (cursorTime, cursorId)`. */
  predicate RowLess(at: Time, id: BuildId, cursorTime: Time, cursorId: BuildId) {
    at < cursorTime || (at == cursorTime && id < cursorId)
  }

  /** `ORDER BY created_at DESC, id DESC`. */
  predicate Before(x: BuildKey, y: BuildKey) {
    RowLess(y.at, y.id, x.at, x.id)
  }

  /** Newest first, and by the greater id among those made at the same time. */
  lemma BeforeMeaning(x: BuildKey, y: BuildKey)
    ensures Before(x, y) <==> x.at > y.at || (x.at == y.at && x.id > y.id)
  {
  }

  lemma BeforeIsTotal()
    ensures Keyset.StrictTotal(Before)
  {
  }

  /** GetTeamBuildsPage and its three filtered variants. */
  datatype Filter = AllBuilds | ByBuildId(build: BuildId) | ByTemplateId(env: EnvId) | ByAlias(alias: string)

  /** The assignments the inner lateral join looks at. */
  function JoinRows(db: Db, f: Filter, b: BuildId): set<Assignment> {
    set a | && a in db.assignments && a.build == b
            && (f.ByTemplateId? ==> a.env == f.env)
            && (f.ByAlias? ==> exists x :: x in db.aliases && x.env == a.env && x.alias == f.alias)
  }

  /** `ORDER BY a.created_at DESC, a.id DESC LIMIT 1`. */
  function JoinRow(rows: set<Assignment>): set<Assignment> {
    set a | a in rows && forall c :: c in rows ==> c == a || RowLess(c.createdAt, c.id, a.createdAt, a.id)
  }

  lemma {:induction false} JoinRowExists(rows: set<Assignment>)
    requires rows != {} && forall a, c :: a in rows && c in rows && a.id == c.id ==> a == c
    ensures JoinRow(rows) != {}
  {
    var a :| a in rows;
    var rest := rows - {a};
    if rest == {} {
      assert rows == {a};
      assert a in JoinRow(rows);
    } else {
      JoinRowExists(rest);
      var m :| m in JoinRow(rest);
      assert rows == rest + {a};
      assert (if RowLess(m.createdAt, m.id, a.createdAt, a.id) then a else m) in JoinRow(rows);
    }
  }

  /** A build with a matching assignment is joined with exactly one row, the newest of these and the one with the greatest id among the newest, and any other build with none: no page repeats or drops a build because of the join. */
  lemma JoinAddsOneRow(db: Db, f: Filter, b: BuildId)
    requires Inv(db)
    ensures JoinRows(db, f, b) == {} ==> JoinRow(JoinRows(db, f, b)) == {}
    ensures JoinRows(db, f, b) != {} ==>
              exists a :: && JoinRow(JoinRows(db, f, b)) == {a} && a.env in db.envs && a.build == b
                          && forall c :: c in JoinRows(db, f, b) && c != a
                               ==> c.createdAt < a.createdAt || (c.createdAt == a.createdAt && c.id < a.id)
  {
    var rows := JoinRows(db, f, b);
    if rows != {} {
      JoinRowExists(rows);
      var a :| a in JoinRow(rows);
      assert JoinRow(rows) == {a};
    }
  }

  predicate Eligible(db: Db, team: TeamId, f: Filter, groups: set<StatusGroup>, b: BuildId) {
    && b in db.builds && db.builds[b].team == Some(team) && GroupOf(db.builds[b].status) in groups
    && (f.ByBuildId? ==> b == f.build)
    && JoinRows(db, f, b) != {}
  }

  /** Which builds a page is about, in each of the four variants. */
  lemma EligibleLiterally(db: Db, team: TeamId, groups: set<StatusGroup>, b: BuildId, c: BuildId, env: EnvId, alias: string)
    ensures var common := b in db.builds && db.builds[b].team == Some(team) && GroupOf(db.builds[b].status) in groups;
            && (Eligible(db, team, AllBuilds, groups, b) <==> common && exists a :: a in db.assignments && a.build == b)
            && (Eligible(db, team, ByBuildId(c), groups, b) <==> common && b == c && exists a :: a in db.assignments && a.build == b)
            && (Eligible(db, team, ByTemplateId(env), groups, b)
                <==> common && exists a :: a in db.assignments && a.build == b && a.env == env)
            && (Eligible(db, team, ByAlias(alias), groups, b)
                <==> common && exists a, x :: a in db.assignments && x in db.aliases && a.build == b && x.env == a.env && x.alias == alias)
  {
    RowsLiterally(db, b, c, env, alias);
  }

  lemma RowsLiterally(db: Db, b: BuildId, c: BuildId, env: EnvId, alias: string)
    ensures JoinRows(db, AllBuilds, b) != {} <==> exists a :: a in db.assignments && a.build == b
    ensures JoinRows(db, ByBuildId(c), b) != {} <==> exists a :: a in db.assignments && a.build == b
    ensures JoinRows(db, ByTemplateId(env), b) != {} <==> exists a :: a in db.assignments && a.build == b && a.env == env
    ensures JoinRows(db, ByAlias(alias), b) != {}
            <==> exists a, x :: a in db.assignments && x in db.aliases && a.build == b && x.env == a.env && x.alias == alias
  {
    if a :| a in db.assignments && a.build == b {
      assert a in JoinRows(db, AllBuilds, b) && a in JoinRows(db, ByBuildId(c), b);
    }
    if a :| a in db.assignments && a.build == b && a.env == env { assert a in JoinRows(db, ByTemplateId(env), b); }
    if a, x :| a in db.assignments && x in db.aliases && a.build == b && x.env == a.env && x.alias == alias {
      assert a in JoinRows(db, ByAlias(alias), b);
    }
    if JoinRows(db, ByAlias(alias), b) != {} {
      var a :| a in JoinRows(db, ByAlias(alias), b);
      var x :| x in db.aliases && x.env == a.env && x.alias == alias;
    }
    if JoinRows(db, AllBuilds, b) != {} { var a :| a in JoinRows(db, AllBuilds, b); }
    if JoinRows(db, ByBuildId(c), b) != {} { var a :| a in JoinRows(db, ByBuildId(c), b); }
    if JoinRows(db, ByTemplateId(env), b) != {} { var a :| a in JoinRows(db, ByTemplateId(env), b); }
  }

  function TeamTable(db: Db, team: TeamId, f: Filter, groups: set<StatusGroup>): set<BuildKey> {
    set b | b in db.builds && Eligible(db, team, f, groups, b) :: BuildKey(db.builds[b].createdAt, b)
  }

  lemma TeamTableMeaning(db: Db, team: TeamId, f: Filter, groups: set<StatusGroup>, k: BuildKey)
    ensures k in TeamTable(db, team, f, groups) <==> Eligible(db, team, f, groups, k.id) && db.builds[k.id].createdAt == k.at
  {
  }

  /** The page query of any of the four variants. */
  function TeamPage(db: Db, team: TeamId, f: Filter, groups: set<StatusGroup>, cursor: BuildKey, n: nat): seq<BuildKey> {
    BeforeIsTotal();
    Keyset.Take(Keyset.Listing(
      (set b | && b in db.builds && Eligible(db, team, f, groups, b)
               && RowLess(db.builds[b].createdAt, b, cursor.at, cursor.id) :: BuildKey(db.builds[b].createdAt, b)),
      Before), n)
  }

  lemma TeamPageIsFetch(db: Db, team: TeamId, f: Filter, groups: set<StatusGroup>, cursor: BuildKey, n: nat)
    requires Keyset.StrictTotal(Before)
    ensures TeamPage(db, team, f, groups, cursor, n) == Keyset.Fetch(TeamTable(db, team, f, groups), Before, cursor, n)
  {
    var table := TeamTable(db, team, f, groups);
    var rows := set b | && b in db.builds && Eligible(db, team, f, groups, b)
                        && RowLess(db.builds[b].createdAt, b, cursor.at, cursor.id) :: BuildKey(db.builds[b].createdAt, b);
    forall k
      ensures k in rows <==> k in Keyset.After(table, Before, cursor)
    {
      assert k in rows <==> k.id in db.builds && Eligible(db, team, f, groups, k.id) && k == BuildKey(db.builds[k.id].createdAt, k.id)
                            && RowLess(k.at, k.id, cursor.at, cursor.id);
      assert k in table <==> k.id in db.builds && Eligible(db, team, f, groups, k.id) && k == BuildKey(db.builds[k.id].createdAt, k.id);
    }
    assert rows == Keyset.After(table, Before, cursor);
  }

  /** A build keeps its creation time for as long as it is there. */
  ghost predicate SameCreation(states: seq<Db>) {
    forall i, j, b :: 0 <= i < |states| && 0 <= j < |states| && b in states[i].builds && b in states[j].builds ==>
                        states[i].builds[b].createdAt == states[j].builds[b].createdAt
  }

  /**
   A client walks the pages while the tables change under it: `states[i]` is what request `i`
   finds.  No build is returned twice, every returned build matched when it was returned, and
   when the walk is done a build that matched at every request has been returned.
   */
  method WalkTeamBuilds(
    states: seq<Db>, team: TeamId, f: Filter, groups: set<StatusGroup>, start: BuildKey, limit: nat)
    returns (rows: seq<BuildKey>, requests: nat, done: bool)
    requires SameCreation(states) && limit >= 1
    ensures requests <= |states| && (done || requests == |states|)
    ensures forall i, j :: 0 <= i < j < |rows| ==> rows[i].id != rows[j].id && Before(rows[i], rows[j])
    ensures forall k :: k in rows ==> exists i :: 0 <= i < requests && Eligible(states[i], team, f, groups, k.id)
                                                  && states[i].builds[k.id].createdAt == k.at
    ensures done ==> forall b, at :: RowLess(at, b, start.at, start.id)
                       && (forall i :: 0 <= i < requests ==>
                             Eligible(states[i], team, f, groups, b) && states[i].builds[b].createdAt == at)
                       ==> BuildKey(at, b) in rows
  {
    BeforeIsTotal();
    ghost var tables := seq(|states|, i requires 0 <= i < |states| => TeamTable(states[i], team, f, groups));
    var fetch := (i: nat, c: BuildKey, n: nat) => if i < |states| then TeamPage(states[i], team, f, groups, c, n) else [];
    forall i: nat, c, n | i < |states|
      ensures fetch(i, c, n) == Keyset.Fetch(tables[i], Before, c, n)
    {
      TeamPageIsFetch(states[i], team, f, groups, c, n);
    }
    rows, requests, done := Keyset.WalkChanging(tables, Before, fetch, |states|, start, limit);
    forall i, k: BuildKey | 0 <= i < |states|
      ensures k in tables[i] <==> Eligible(states[i], team, f, groups, k.id) && states[i].builds[k.id].createdAt == k.at
    {
      TeamTableMeaning(states[i], team, f, groups, k);
    }
    forall k | k in rows
      ensures exists i :: 0 <= i < requests && Eligible(states[i], team, f, groups, k.id) && states[i].builds[k.id].createdAt == k.at
    {
      var i :| 0 <= i < requests && k in tables[i];
    }
    assert forall k :: k in rows ==> KeyOf(states, requests, k);
    OneKeyPerBuild(states, rows, requests);
    forall b, at | done && RowLess(at, b, start.at, start.id)
                   && (forall i :: 0 <= i < requests ==> Eligible(states[i], team, f, groups, b) && states[i].builds[b].createdAt == at)
      ensures BuildKey(at, b) in rows
    {
      assert forall i :: 0 <= i < requests ==> BuildKey(at, b) in tables[i];
    }
  }

  /** The key is that of a build in one of the first states. */
  ghost predicate KeyOf(states: seq<Db>, requests: nat, k: BuildKey)
    requires requests <= |states|
  {
    exists i :: 0 <= i < requests && k.id in states[i].builds && states[i].builds[k.id].createdAt == k.at
  }

  lemma OneKeyPerBuild(states: seq<Db>, rows: seq<BuildKey>, requests: nat)
    requires SameCreation(states) && requests <= |states| && Keyset.Sorted(rows, Before)
    requires forall k :: k in rows ==> KeyOf(states, requests, k)
    ensures forall i, j :: 0 <= i < j < |rows| ==> rows[i].id != rows[j].id && Before(rows[i], rows[j])
  {
    forall i, j | 0 <= i < j < |rows|
      ensures rows[i].id != rows[j].id
    {
      assert rows[i] in rows && rows[j] in rows;
      assert Before(rows[i], rows[j]);
    }
  }

  // ----- No write query changes the id or creation time of a build, or removes one -----

  ghost predicate KeepsCreation(db: Db, d: Db) {
    forall b :: b in db.builds ==> b in d.builds && d.builds[b].createdAt == db.builds[b].createdAt
  }

  lemma StepKeepsCreation(db: Db, e: Event)
    ensures KeepsCreation(db, Step(db, e))
  {
    var t, now := Tick(db, e), Now(db, e);
    if Outcome(db, e).Ok? {
      if IsUpdate(e.stmt) {
        UpdateShape(t, now, e.stmt);
      } else {
        OthersKeepCreation(t, now, e.stmt);
      }
    }
  }

  lemma OthersKeepCreation(db: Db, now: Time, s: Stmt)
    requires !IsUpdate(s) && After(db, now, s).Ok?
    ensures KeepsCreation(db, After(db, now, s).value)
  {
    LoopShape(db, now, s);
  }

  lemma {:induction false} RunKeepsCreation(db: Db, events: seq<Event>)
    ensures KeepsCreation(db, Run(db, events))
    decreases |events|
  {
    if events != [] {
      StepKeepsCreation(db, events[0]);
      RunKeepsCreation(Step(db, events[0]), events[1..]);
    }
  }

  /** States seen by the requests of a walk, with any transactions between two requests. */
  ghost predicate Between(states: seq<Db>, work: seq<seq<Event>>) {
    |states| == |work| + 1 && forall i :: 0 <= i < |work| ==> states[i + 1] == Run(states[i], work[i])
  }

  lemma {:induction false} LaterKeepsCreation(states: seq<Db>, work: seq<seq<Event>>, i: nat, j: nat)
    requires Between(states, work) && i <= j < |states|
    ensures KeepsCreation(states[i], states[j])
    decreases j - i
  {
    if i < j {
      LaterKeepsCreation(states, work, i, j - 1);
      RunKeepsCreation(states[j - 1], work[j - 1]);
      assert states[j - 1 + 1] == Run(states[j - 1], work[j - 1]);
    }
  }

  /** Whatever transactions run between the requests, the walk's condition holds. */
  lemma TransactionsKeepCreation(states: seq<Db>, work: seq<seq<Event>>)
    requires Between(states, work)
    ensures SameCreation(states)
  {
    forall i, j, b | 0 <= i < |states| && 0 <= j < |states| && b in states[i].builds && b in states[j].builds
      ensures states[i].builds[b].createdAt == states[j].builds[b].createdAt
    {
      if i <= j { LaterKeepsCreation(states, work, i, j); } else { LaterKeepsCreation(states, work, j, i); }
    }
  }

  // ----- GetTemplateBuilds: filtered by the text of the id, ordered by the id -----

  function TemplateTable(db: Db, env: EnvId): set<BuildKey> {
    set a | a in db.assignments && a.env == env && a.build in db.builds :: BuildKey(db.builds[a.build].createdAt, a.build)
  }

  /** DISTINCT makes a build with several tags one row; the cursor id is text. */
  function TemplatePage(db: Db, env: EnvId, cursorTime: Time, cursorId: string, n: nat): seq<BuildKey> {
    BeforeIsTotal();
    Keyset.Take(Keyset.Listing(
      (set k | k in TemplateTable(db, env) && (k.at < cursorTime || (k.at == cursorTime && Lex.Less(U.Text(k.id), cursorId)))),
      Before), n)
  }

  lemma TemplatePageIsFetch(db: Db, env: EnvId, cursor: BuildKey, n: nat)
    requires Keyset.StrictTotal(Before)
    ensures TemplatePage(db, env, cursor.at, U.Text(cursor.id), n) == Keyset.Fetch(TemplateTable(db, env), Before, cursor, n)
  {
    var table := TemplateTable(db, env);
    var rows := set k | k in table && (k.at < cursor.at || (k.at == cursor.at && Lex.Less(U.Text(k.id), U.Text(cursor.id))));
    forall k: BuildKey
      ensures k in rows <==> k in Keyset.After(table, Before, cursor)
    {
      U.TextOrder(k.id, cursor.id);
    }
    assert rows == Keyset.After(table, Before, cursor);
  }

  predicate AssignedTo(db: Db, env: EnvId, b: BuildId) {
    b in db.builds && exists a :: a in db.assignments && a.env == env && a.build == b
  }

  lemma TemplateTableMeaning(db: Db, env: EnvId, k: BuildKey)
    ensures k in TemplateTable(db, env) <==> AssignedTo(db, env, k.id) && db.builds[k.id].createdAt == k.at
  {
  }

  /**
   A client walks the pages while the tables change under it: `states[i]` is what request `i`
   finds.  No build is returned twice, every returned build was assigned to the template when it was
   returned, and when the walk is done a build assigned at every request has been returned.
   */
  method WalkTemplateBuilds(states: seq<Db>, env: EnvId, start: BuildKey, limit: nat)
    returns (rows: seq<BuildKey>, requests: nat, done: bool)
    requires SameCreation(states) && limit >= 1
    ensures requests <= |states| && (done || requests == |states|)
    ensures forall i, j :: 0 <= i < j < |rows| ==> rows[i].id != rows[j].id && Before(rows[i], rows[j])
    ensures forall k :: k in rows ==> exists i :: 0 <= i < requests && AssignedTo(states[i], env, k.id)
                                                  && states[i].builds[k.id].createdAt == k.at
    ensures done ==> forall b, at :: RowLess(at, b, start.at, start.id)
                       && (forall i :: 0 <= i < requests ==> AssignedTo(states[i], env, b) && states[i].builds[b].createdAt == at)
                       ==> BuildKey(at, b) in rows
  {
    BeforeIsTotal();
    ghost var tables := seq(|states|, i requires 0 <= i < |states| => TemplateTable(states[i], env));
    var fetch := (i: nat, c: BuildKey, n: nat) => if i < |states| then TemplatePage(states[i], env, c.at, U.Text(c.id), n) else [];
    forall i: nat, c, n | i < |states|
      ensures fetch(i, c, n) == Keyset.Fetch(tables[i], Before, c, n)
    {
      TemplatePageIsFetch(states[i], env, c, n);
    }
    rows, requests, done := Keyset.WalkChanging(tables, Before, fetch, |states|, start, limit);
    forall i, k: BuildKey | 0 <= i < |states|
      ensures k in tables[i] <==> AssignedTo(states[i], env, k.id) && states[i].builds[k.id].createdAt == k.at
    {
      TemplateTableMeaning(states[i], env, k);
    }
    forall k | k in rows
      ensures exists i :: 0 <= i < requests && AssignedTo(states[i], env, k.id) && states[i].builds[k.id].createdAt == k.at
    {
      var i :| 0 <= i < requests && k in tables[i];
    }
    assert forall k :: k in rows ==> KeyOf(states, requests, k);
    OneKeyPerBuild(states, rows, requests);
    forall b, at | done && RowLess(at, b, start.at, start.id)
                   && (forall i :: 0 <= i < requests ==> AssignedTo(states[i], env, b) && states[i].builds[b].createdAt == at)
      ensures BuildKey(at, b) in rows
    {
      assert forall i :: 0 <= i < requests ==> BuildKey(at, b) in tables[i];
    }
  }

  /** Over tables at rest the walk comes to its end and returns exactly the builds assigned to the template that come after the first cursor, each once. */
  method WalkTemplateBuildsAtRest(db: Db, env: EnvId, start: BuildKey, limit: nat) returns (rows: seq<BuildKey>)
    requires limit >= 1
    ensures Keyset.Sorted(rows, Before)
    ensures forall i, j :: 0 <= i < j < |rows| ==> rows[i].id != rows[j].id
    ensures forall k: BuildKey :: k in rows
              <==> && (exists a :: a in db.assignments && a.env == env && a.build == k.id)
                   && k.id in db.builds && db.builds[k.id].createdAt == k.at && RowLess(k.at, k.id, start.at, start.id)
  {
    BeforeIsTotal();
    ghost var table := TemplateTable(db, env);
    var fetch := (c: BuildKey, n: nat) => TemplatePage(db, env, c.at, U.Text(c.id), n);
    forall c: BuildKey, n: nat
      ensures fetch(c, n) == Keyset.Fetch(table, Before, c, n)
    {
      TemplatePageIsFetch(db, env, c, n);
    }
    Keyset.FetchServes(table, Before, fetch, start);
    ghost var all := Keyset.Listing(Keyset.After(table, Before, start), Before);
    var sizes;
    rows, sizes := Keyset.Walk(all, fetch, start, limit);
    Keyset.ListingMeaning(Keyset.After(table, Before, start), Before);
    forall k: BuildKey
      ensures k in table <==> && (exists a :: a in db.assignments && a.env == env && a.build == k.id)
                              && k.id in db.builds && db.builds[k.id].createdAt == k.at
    {
    }
    forall i, j | 0 <= i < j < |rows|
      ensures rows[i].id != rows[j].id
    {
      assert rows[i] in rows && rows[j] in rows && Before(rows[i], rows[j]);
    }
  }
}
