/** The paused-sandbox pages (get_snapshots_with_cursor.sql): newest first, ties by ascending sandbox id. */
module SnapshotListing {
  import opened Wrappers
  import opened Store
  import opened StoreInvariants
  import opened Resolution
  import Keyset
  import Lex

  datatype SnapshotKey = SnapshotKey(at: Time, id: SandboxId)

  /** `ORDER BY sandbox_started_at DESC, sandbox_id ASC`. */
  predicate Before(x: SnapshotKey, y: SnapshotKey) {
    y.at < x.at || (x.at == y.at && Lex.Less(x.id, y.id))
  }

  /** Latest start first, and by the smaller id among those started at the same time. */
  lemma BeforeMeaning(x: SnapshotKey, y: SnapshotKey)
    ensures Before(x, y) <==> x.at > y.at || (x.at == y.at && Lex.Less(x.id, y.id))
  {
  }

  lemma BeforeIsTotal()
    ensures Keyset.StrictTotal(Before)
  {
    forall x: SnapshotKey ensures !Before(x, x) { Lex.Irreflexive(x.id); }
    forall x: SnapshotKey, y: SnapshotKey, z: SnapshotKey | Before(x, y) && Before(y, z)
      ensures Before(x, z)
    {
      if x.at == y.at == z.at { Lex.Transitive(x.id, y.id, z.id); }
    }
    forall x: SnapshotKey, y: SnapshotKey ensures x == y || Before(x, y) || Before(y, x) { Lex.Total(x.id, y.id); }
  }

  /** The row comparison with the ids swapped: `(started_at, cursorId) < (cursorTime, sandbox_id)`. */
  predicate SwappedLess(startedAt: Time, cursorId: string, cursorTime: Time, sandbox: SandboxId) {
    startedAt < cursorTime || (startedAt == cursorTime && Lex.Less(cursorId, sandbox))
  }

  /** The jsonb containment `metadata @> filter` on maps of strings. */
  predicate Contains(metadata: map<string, string>, filter: map<string, string>) {
    forall k :: k in filter ==> k in metadata && metadata[k] == filter[k]
  }

  /** The snapshot passes the filters and the inner join finds a ready default build. */
  predicate Listed(db: Db, team: TeamId, filter: map<string, string>, s: SandboxId) {
    && s in db.snapshots && db.snapshots[s].team == team && Contains(db.snapshots[s].metadata, filter)
    && LastSnapshot(db, s) != {}
  }

  /** A snapshot is listed exactly when it is the team's, writing the filter over its metadata changes nothing, and a build with a ready status has a default row in its env. */
  lemma ListedLiterally(db: Db, team: TeamId, filter: map<string, string>, s: SandboxId)
    requires Inv(db)
    ensures Listed(db, team, filter, s)
            <==> && s in db.snapshots && db.snapshots[s].team == team
                 && db.snapshots[s].metadata + filter == db.snapshots[s].metadata
                 && exists a :: && a in db.assignments && a.env == db.snapshots[s].env && a.tag == "default"
                                && a.build in db.builds && db.builds[a.build].status in {Ready, Uploaded, Success}
  {
    if s in db.snapshots {
      ContainsMeaning(db.snapshots[s].metadata, filter);
      var rows := ReadyRows(db, DefaultRows(db, db.snapshots[s].env));
      InvUnambiguous(db, rows);
      OneAnswer(rows);
      assert forall a :: a in rows <==> && a in db.assignments && a.env == db.snapshots[s].env && a.tag == "default"
                                        && a.build in db.builds && db.builds[a.build].status in {Ready, Uploaded, Success};
    }
  }

  lemma ContainsMeaning(m: map<string, string>, filter: map<string, string>)
    ensures Contains(m, filter) <==> m + filter == m
  {
    if m + filter == m {
      forall k | k in filter
        ensures k in m && m[k] == filter[k]
      {
        assert k in m + filter && (m + filter)[k] == filter[k];
      }
    }
  }

  function Table(db: Db, team: TeamId, filter: map<string, string>): set<SnapshotKey> {
    set s | s in db.snapshots && Listed(db, team, filter, s) :: SnapshotKey(db.snapshots[s].startedAt, s)
  }

  /** GetSnapshotsWithCursor. */
  function PageQuery(db: Db, team: TeamId, filter: map<string, string>, cursorTime: Time, cursorId: string, n: nat): seq<SnapshotKey> {
    BeforeIsTotal();
    Keyset.Take(Keyset.Listing(
      (set s | && s in db.snapshots && Listed(db, team, filter, s)
               && SwappedLess(db.snapshots[s].startedAt, cursorId, cursorTime, s) :: SnapshotKey(db.snapshots[s].startedAt, s)),
      Before), n)
  }

  /** The swapped comparison selects exactly the rows strictly after the cursor in listing order. */
  lemma PageQueryIsFetch(db: Db, team: TeamId, filter: map<string, string>, cursor: SnapshotKey, n: nat)
    requires Keyset.StrictTotal(Before)
    ensures PageQuery(db, team, filter, cursor.at, cursor.id, n) == Keyset.Fetch(Table(db, team, filter), Before, cursor, n)
  {
    var table := Table(db, team, filter);
    var rows := set s | && s in db.snapshots && Listed(db, team, filter, s)
                        && SwappedLess(db.snapshots[s].startedAt, cursor.id, cursor.at, s) :: SnapshotKey(db.snapshots[s].startedAt, s);
    forall k
      ensures k in rows <==> k in Keyset.After(table, Before, cursor)
    {
      assert k in rows <==> k.id in db.snapshots && Listed(db, team, filter, k.id) && k == SnapshotKey(db.snapshots[k.id].startedAt, k.id)
                            && SwappedLess(k.at, cursor.id, cursor.at, k.id);
      assert k in table <==> k.id in db.snapshots && Listed(db, team, filter, k.id) && k == SnapshotKey(db.snapshots[k.id].startedAt, k.id);
    }
    assert rows == Keyset.After(table, Before, cursor);
  }

  /** Each listed snapshot is joined with exactly one build. */
  lemma JoinAddsOneRow(db: Db, team: TeamId, filter: map<string, string>, s: SandboxId)
    requires Inv(db) && Listed(db, team, filter, s)
    ensures |LastSnapshot(db, s)| == 1
  {
    var rows := ReadyRows(db, DefaultRows(db, db.snapshots[s].env));
    InvUnambiguous(db, rows);
    OneAnswer(rows);
  }

  /** For every page size the pages together are the whole filtered listing after the first cursor, each sandbox once. */
  method WalkSnapshots(db: Db, team: TeamId, filter: map<string, string>, start: SnapshotKey, limit: nat)
    returns (rows: seq<SnapshotKey>, sizes: seq<nat>)
    requires limit >= 1
    ensures Keyset.Sorted(rows, Before)
    ensures forall i, j :: 0 <= i < j < |rows| ==> rows[i].id != rows[j].id
    ensures forall k: SnapshotKey :: k in rows
              <==> Listed(db, team, filter, k.id) && db.snapshots[k.id].startedAt == k.at && Before(start, k)
    ensures |sizes| >= 1 && forall i :: 0 <= i < |sizes| - 1 ==> sizes[i] == limit
    ensures sizes[|sizes| - 1] > 0 || rows == []
  {
    BeforeIsTotal();
    ghost var table := Table(db, team, filter);
    var fetch := (c: SnapshotKey, n: nat) => PageQuery(db, team, filter, c.at, c.id, n);
    forall c: SnapshotKey, n: nat
      ensures fetch(c, n) == Keyset.Fetch(table, Before, c, n)
    {
      PageQueryIsFetch(db, team, filter, c, n);
    }
    Keyset.FetchServes(table, Before, fetch, start);
    ghost var all := Keyset.Listing(Keyset.After(table, Before, start), Before);
    rows, sizes := Keyset.Walk(all, fetch, start, limit);
    Keyset.ListingMeaning(Keyset.After(table, Before, start), Before);
    OneKeyPerSandbox(db, team, filter, rows);
  }

  lemma OneKeyPerSandbox(db: Db, team: TeamId, filter: map<string, string>, rows: seq<SnapshotKey>)
    requires Keyset.Sorted(rows, Before) && forall k :: k in rows ==> k in Table(db, team, filter)
    ensures forall i, j :: 0 <= i < j < |rows| ==> rows[i].id != rows[j].id
  {
    forall i, j | 0 <= i < j < |rows|
      ensures rows[i].id != rows[j].id
    {
      assert rows[i] in rows && rows[j] in rows && Before(rows[i], rows[j]);
      Lex.Irreflexive(rows[i].id);
    }
  }
}
