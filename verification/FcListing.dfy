/** A listing that runs alone does to the map what the provider's List promises. */
module FcListing {
  import opened Wrappers
  import opened FcProvider
  import opened FcSessions

  function Sees(l: nat, ids: seq<string>): seq<Action> {
    if ids == [] then [] else Sees(l, ids[..|ids| - 1]) + [ListSees(l, ids[|ids| - 1])]
  }

  function Reported(l: nat, log: seq<Entry>): seq<Action> {
    if log == [] then []
    else Reported(l, log[..|log| - 1]) + [ReportOf(l, log[|log| - 1])]
  }

  function Unseen(l: nat, ids: seq<string>): seq<Action> {
    if ids == [] then [] else Unseen(l, ids[..|ids| - 1]) + [ListUnseen(l, ids[|ids| - 1])]
  }

  lemma RunSnoc(s: State, actions: seq<Action>, a: Action)
    ensures Run(s, actions + [a]) == Step(Run(s, actions), a)
  {
    assert (actions + [a])[..|actions|] == actions;
  }

  /** The newest listing is replaced, and the map with it. */
  function With(s: State, others: seq<Listing>, x: Listing, tracked: map<string, Meta>): State {
    s.(lists := others + [x], tracked := tracked)
  }

  lemma StepOfNewestList(s: State, others: seq<Listing>, x: Listing, a: Action)
    requires s.lists == others + [x]
    ensures StepOfList(s, |others|, a) == With(s, others, NextListing(x, a, s.tracked), s.tracked - Drops(x, a))
  {
    assert s.lists[|others|] == x;
    assert (others + [x])[|others| := NextListing(x, a, s.tracked)] == others + [NextListing(x, a, s.tracked)];
  }

  function Restricted(m: map<string, Meta>, ids: seq<string>): map<string, Meta> {
    map id | id in m && id in ids :: m[id]
  }

  /** The range over the map. */
  lemma {:induction false} SeesAlone(s: State, others: seq<Listing>, ids: seq<string>)
    requires s.lists == others + [Listing(None, map[], {})]
    ensures Run(s, Sees(|others|, ids)) == With(s, others, Listing(None, Restricted(s.tracked, ids), {}), s.tracked)
  {
    if ids == [] {
      assert Restricted(s.tracked, []) == map[];
    } else {
      var n := |ids| - 1;
      var l, a := |others|, ListSees(|others|, ids[n]);
      SeesAlone(s, others, ids[..n]);
      RunSnoc(s, Sees(l, ids[..n]), a);
      var x := Listing(None, Restricted(s.tracked, ids[..n]), {});
      StepOfNewestList(With(s, others, x, s.tracked), others, x, a);
      assert s.tracked - {} == s.tracked;
      SeesOne(s.tracked, ids);
    }
  }

  lemma SeesOne(m: map<string, Meta>, ids: seq<string>)
    requires ids != []
    ensures var n := |ids| - 1;
            Restricted(m, ids) == if ids[n] in m then Restricted(m, ids[..n])[ids[n] := m[ids[n]]] else Restricted(m, ids[..n])
  {
    assert ids == ids[..|ids| - 1] + [ids[|ids| - 1]];
  }

  function ReportOf(l: nat, e: Entry): Action {
    ListReported(l, IdOf(e.s), StateOf(e.s.status) == Ended)
  }

  /** One report does to the listing and the map what one entry does to the scan. */
  lemma ReportedOne(local: map<string, Meta>, at: Nanos, log: seq<Entry>, l: nat, tracked: map<string, Meta>)
    requires log != []
    ensures var before, after := Scan(local, at, log[..|log| - 1]), Scan(local, at, log);
            var x, a := Listing(Some(at), local, before.added), ReportOf(l, log[|log| - 1]);
            NextListing(x, a, tracked) == Listing(Some(at), local, after.added) && before.sessions - Drops(x, a) == after.sessions
  {
  }

  /** The reports: the map becomes what the provider's scan of them leaves. */
  lemma {:induction false} ReportedAlone(s: State, others: seq<Listing>, at: Nanos, log: seq<Entry>)
    requires s.lists == others + [Listing(Some(at), s.tracked, {})]
    ensures var scan := Scan(s.tracked, at, log);
            Run(s, Reported(|others|, log)) == With(s, others, Listing(Some(at), s.tracked, scan.added), scan.sessions)
  {
    if log != [] {
      var n := |log| - 1;
      var l, a, scan := |others|, ReportOf(|others|, log[n]), Scan(s.tracked, at, log[..n]);
      ReportedAlone(s, others, at, log[..n]);
      RunSnoc(s, Reported(l, log[..n]), a);
      var x := Listing(Some(at), s.tracked, scan.added);
      StepOfNewestList(With(s, others, x, scan.sessions), others, x, a);
      ReportedOne(s.tracked, at, log, l, scan.sessions);
    }
  }

  /** What the final loop leaves, having come to the ids. */
  function Swept(m: map<string, Meta>, x: Listing, ids: seq<string>): map<string, Meta> {
    map id | id in m && !(id in ids && id !in x.reported && SawItExpired(x, id)) :: m[id]
  }

  lemma SweptOne(m: map<string, Meta>, x: Listing, l: nat, ids: seq<string>)
    requires ids != []
    ensures Swept(m, x, ids) == Swept(m, x, ids[..|ids| - 1]) - Drops(x, ListUnseen(l, ids[|ids| - 1]))
  {
    assert ids == ids[..|ids| - 1] + [ids[|ids| - 1]];
  }

  lemma {:induction false} UnseenAlone(s: State, others: seq<Listing>, x: Listing, ids: seq<string>)
    requires s.lists == others + [x]
    ensures Run(s, Unseen(|others|, ids)) == With(s, others, x, Swept(s.tracked, x, ids))
  {
    if ids == [] {
      assert Swept(s.tracked, x, []) == s.tracked;
    } else {
      var n := |ids| - 1;
      var l, a := |others|, ListUnseen(|others|, ids[n]);
      UnseenAlone(s, others, x, ids[..n]);
      RunSnoc(s, Unseen(l, ids[..n]), a);
      StepOfNewestList(With(s, others, x, Swept(s.tracked, x, ids[..n])), others, x, a);
      SweptOne(s.tracked, x, l, ids);
    }
  }

  lemma RunOne(s: State, a: Action)
    ensures Run(s, [a]) == Step(s, a)
  {
    assert [a][..0] == [];
  }

  /** From the beginning to the look at the clock: everything tracked has been seen. */
  function Starting(s: State, ids: seq<string>, at: Nanos): State {
    Run(Run(s, [ListBegins] + Sees(|s.lists|, ids)), [ListStarts(|s.lists|, at)])
  }

  lemma BeginsAlone(s: State, ids: seq<string>)
    ensures Run(s, [ListBegins] + Sees(|s.lists|, ids)) == With(s, s.lists, Listing(None, Restricted(s.tracked, ids), {}), s.tracked)
  {
    RunJoins(s, [ListBegins], Sees(|s.lists|, ids));
    RunOne(s, ListBegins);
    SeesAlone(Step(s, ListBegins), s.lists, ids);
  }

  lemma StartsAlone(s: State, ids: seq<string>, at: Nanos)
    requires Restricted(s.tracked, ids) == s.tracked
    ensures Starting(s, ids, at) == With(s, s.lists, Listing(Some(at), s.tracked, {}), s.tracked)
  {
    BeginsAlone(s, ids);
    var seen := With(s, s.lists, Listing(None, s.tracked, {}), s.tracked);
    RunOne(seen, ListStarts(|s.lists|, at));
    StepOfNewestList(seen, s.lists, Listing(None, s.tracked, {}), ListStarts(|s.lists|, at));
    assert s.tracked - {} == s.tracked;
  }

  /** All the actions of one listing, in a row: `ids` is the order of the map ranges, `log` that of the reports. */
  function ListAlone(s: State, ids: seq<string>, at: Nanos, log: seq<Entry>): State {
    Run(Run(Starting(s, ids, at), Reported(|s.lists|, log)), Unseen(|s.lists|, ids))
  }

  lemma ListAloneLeaves(s: State, ids: seq<string>, at: Nanos, log: seq<Entry>)
    requires Restricted(s.tracked, ids) == s.tracked
    ensures var scan := Scan(s.tracked, at, log);
            ListAlone(s, ids, at, log).tracked == Swept(scan.sessions, Listing(Some(at), s.tracked, scan.added), ids)
  {
    StartsAlone(s, ids, at);
    var started, scan := Starting(s, ids, at), Scan(s.tracked, at, log);
    ReportedAlone(started, s.lists, at, log);
    var x := Listing(Some(at), s.tracked, scan.added);
    var reported := With(started, s.lists, x, scan.sessions);
    UnseenAlone(reported, s.lists, x, ids);
  }

  lemma SweptScan(local: map<string, Meta>, at: Nanos, log: seq<Entry>, ids: seq<string>)
    requires forall id :: id in local ==> id in ids
    ensures var scan := Scan(local, at, log);
            Swept(scan.sessions, Listing(Some(at), local, scan.added), ids)
            == map id | id in local && !Gone(local, at, log, id) && (id in scan.added || !Expired(local[id], at)) :: local[id]
  {
    ScanSessions(local, at, log);
  }

  lemma ScanTracks(local: map<string, Meta>, at: Nanos, remote: string -> ListAnswer, fs: set<string>, log: seq<Entry>)
    requires Listed(remote, fs, {}, log)
    ensures Tracks(local, at, remote, fs,
                   map id | id in local && !Gone(local, at, log, id) && (id in Scan(local, at, log).added || !Expired(local[id], at))
                     :: local[id])
  {
    assert fs - {} == fs;
    ScanAdded(local, at, log);
    ReportedInLog(remote, fs, log);
    TrackedOutcome(local, at, remote, fs, log, Scan(local, at, log).added);
  }

  /**
   Alone, and for any order of its ranges, a listing to which the functions report `log` leaves
   tracked exactly what List promises.
   */
  lemma ListAloneAsPromised(s: State, ids: seq<string>, at: Nanos, remote: string -> ListAnswer, log: seq<Entry>)
    requires forall id :: id in s.tracked ==> id in ids
    requires Listed(remote, set id | id in s.tracked :: s.tracked[id].function_, {}, log)
    ensures Tracks(s.tracked, at, remote, set id | id in s.tracked :: s.tracked[id].function_, ListAlone(s, ids, at, log).tracked)
  {
    assert Restricted(s.tracked, ids) == s.tracked;
    ListAloneLeaves(s, ids, at, log);
    SweptScan(s.tracked, at, log, ids);
    ScanTracks(s.tracked, at, remote, set id | id in s.tracked :: s.tracked[id].function_, log);
  }
}
