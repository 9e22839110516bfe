/** The sandbox provider over FunctionCompute sessions: a local map with time-to-live, merged with what the remote side lists. */
module FcProvider {
  import opened Wrappers

  type Nanos = int

  const SECOND: Nanos := 1_000_000_000
  const MIN_TTL: int := 60

  datatype Meta = Meta(function_: string, createdAt: Nanos, ttl: int)

  /** `now.After(createdAt + ttl)`. */
  predicate Expired(m: Meta, now: Nanos) {
    now > m.createdAt + m.ttl * SECOND
  }

  datatype SandboxState = Running | Ended

  /** Only the status "Expired" ends a session; unknown or absent status counts as running. */
  function StateOf(status: Option<string>): SandboxState {
    if status == Some("Expired") then Ended else Running
  }

  datatype SandboxInfo = SandboxInfo(id: string, template: string, state: SandboxState)

  datatype ConnectionInfo = ConnectionInfo(endpoint: string, accessToken: string, session: string)

  datatype ProviderError = NotFound | RemoteFailure

  /** The remote side may answer anything. */
  datatype GetAnswer = GetFailed | GetOk(status: Option<string>)
  datatype RemoteSession = RemoteSession(id: Option<string>, status: Option<string>)
  datatype ListAnswer = ListFailed | ListOk(sessions: seq<RemoteSession>, nextToken: Option<string>)

  datatype ListResult = ListResult(sandboxes: seq<SandboxInfo>, nextToken: string)

  function IdOf(s: RemoteSession): string {
    if s.id.Some? then s.id.value else ""
  }

  function Ids(infos: seq<SandboxInfo>): set<string> {
    set x | x in infos :: x.id
  }

  ghost predicate DistinctIds(infos: seq<SandboxInfo>) {
    forall i, j :: 0 <= i < j < |infos| ==> infos[i].id != infos[j].id
  }

  /** The time-to-live of a new session in whole seconds, never below the remote minimum. */
  function Ttl(defaultTtl: int, timeout: Nanos): (t: int)
    ensures t >= MIN_TTL
    ensures timeout <= 0 ==> t == if defaultTtl < MIN_TTL then MIN_TTL else defaultTtl
    ensures 0 < timeout < MIN_TTL * SECOND ==> t == MIN_TTL
    ensures timeout >= MIN_TTL * SECOND ==> t * SECOND <= timeout < (t + 1) * SECOND
  {
    var wanted := if timeout > 0 then timeout / SECOND else defaultTtl;
    if wanted < MIN_TTL then MIN_TTL else wanted
  }

  /** A session lives for its time-to-live and not a nanosecond longer. */
  lemma ExpiredMeaning(m: Meta, now: Nanos)
    ensures Expired(m, now) <==> now - m.createdAt > m.ttl * 1_000_000_000
  {
  }

  /** Only the text "Expired" ends a session; any other, or none, leaves it running, and a report without an id is about the empty one. */
  lemma ReportTexts(s: RemoteSession)
    ensures StateOf(s.status) == Ended <==> s.status == Some("Expired")
    ensures IdOf(s) == match s.id case Some(id) => id case None => ""
  {
  }

  /** The sessions one function's listing reports. */
  function Reports(remote: string -> ListAnswer, f: string): seq<RemoteSession> {
    var a := remote(f);
    if a.ListOk? then a.sessions else []
  }

  ghost predicate ReportedEnded(remote: string -> ListAnswer, fs: set<string>, id: string) {
    exists f, s :: f in fs && s in Reports(remote, f) && IdOf(s) == id && StateOf(s.status) == Ended
  }

  ghost predicate ReportedRunning(remote: string -> ListAnswer, fs: set<string>, id: string) {
    exists f, s :: f in fs && s in Reports(remote, f) && IdOf(s) == id && StateOf(s.status) == Running
  }

  /** No session id is reported twice, by one function or by two. */
  ghost predicate NoRepeats(remote: string -> ListAnswer, fs: set<string>) {
    forall f, i, g, j ::
      && f in fs && g in fs && 0 <= i < |Reports(remote, f)| && 0 <= j < |Reports(remote, g)|
      && IdOf(Reports(remote, f)[i]) == IdOf(Reports(remote, g)[j])
      ==> f == g && i == j
  }

  /** What a listing leaves tracked: what was tracked, is unexpired and was not reported ended. */
  ghost predicate Tracks(was: map<string, Meta>, now: Nanos, remote: string -> ListAnswer, fs: set<string>, is_: map<string, Meta>) {
    is_ == map id | id in was && !Expired(was[id], now) && !ReportedEnded(remote, fs, id) :: was[id]
  }

  /** What a listing returns: what is reported running and not known to be expired, and what is tracked, unexpired and not reported at all. */
  ghost predicate Returns(was: map<string, Meta>, now: Nanos, remote: string -> ListAnswer, fs: set<string>, ids: set<string>) {
    forall id :: id in ids
      <==> && (id in was ==> !Expired(was[id], now))
           && (ReportedRunning(remote, fs, id) || (id in was && !ReportedEnded(remote, fs, id)))
  }

  /** Every returned info is running, under the function that reported it or that it was created for. */
  ghost predicate Sourced(was: map<string, Meta>, remote: string -> ListAnswer, fs: set<string>, infos: seq<SandboxInfo>) {
    forall x :: x in infos ==>
      && x.state == Running
      && (|| (x.template in fs && exists s :: s in Reports(remote, x.template) && IdOf(s) == x.id)
          || (x.id in was && x.template == was[x.id].function_))
  }

  /** One reported session, and the function it was reported for, in the order the listing comes across them. */
  datatype Entry = Entry(f: string, s: RemoteSession)

  predicate Kept(local: map<string, Meta>, now: Nanos, e: Entry) {
    StateOf(e.s.status) == Running && (IdOf(e.s) in local ==> !Expired(local[IdOf(e.s)], now))
  }

  class FcProvider {
    const account: string
    const region: string
    const defaultTtl: int
    var sessions: map<string, Meta>

    constructor (account: string, region: string, defaultTtl: int)
      ensures sessions == map[] && this.defaultTtl == defaultTtl && this.account == account && this.region == region
    {
      this.account, this.region, this.defaultTtl, sessions := account, region, defaultTtl, map[];
    }

    /** Create; `id` is the generated session id, `remoteOk` whether the remote side accepted. */
    method Create(id: string, template: string, timeout: Nanos, now: Nanos, remoteOk: bool)
      returns (r: Result<SandboxInfo, ProviderError>)
      modifies this
      ensures remoteOk ==> r == Ok(SandboxInfo(id, template, Running))
                           && sessions == old(sessions)[id := Meta(template, now, Ttl(defaultTtl, timeout))]
      ensures !remoteOk ==> r == Err(RemoteFailure) && sessions == old(sessions)
    {
      var ttl := defaultTtl;
      if timeout > 0 { ttl := timeout / SECOND; }
      if ttl < MIN_TTL { ttl := MIN_TTL; }
      if !remoteOk { return Err(RemoteFailure); }
      sessions := sessions[id := Meta(template, now, ttl)];
      return Ok(SandboxInfo(id, template, Running));
    }

    /** Get: not found exactly when untracked or past its time-to-live, and then untracked afterwards. */
    method Get(id: string, now: Nanos, remote: GetAnswer) returns (r: Result<SandboxInfo, ProviderError>)
      modifies this
      ensures r == Err(NotFound)
              <==> id !in old(sessions) || now > old(sessions)[id].createdAt + old(sessions)[id].ttl * 1_000_000_000
      ensures r == Err(NotFound) ==> sessions == old(sessions) - {id}
      ensures r != Err(NotFound) ==> sessions == old(sessions)
      ensures r == Err(RemoteFailure) ==> remote.GetFailed?
      ensures r.Ok? ==> remote.GetOk? && r.value.id == id && r.value.template == sessions[id].function_
                        && r.value.state == if remote.status == Some("Expired") then Ended else Running
    {
      if id !in sessions { return Err(NotFound); }
      var meta := sessions[id];
      if now > meta.createdAt + meta.ttl * SECOND {
        sessions := sessions - {id};
        return Err(NotFound);
      }
      match remote {
        case GetFailed => return Err(RemoteFailure);
        case GetOk(status) => return Ok(SandboxInfo(id, meta.function_, StateOf(status)));
      }
    }

    /** Delete: a failed remote delete keeps the session tracked. */
    method Delete(id: string, remoteOk: bool) returns (r: Option<ProviderError>)
      modifies this
      ensures r == Some(NotFound) <==> id !in old(sessions)
      ensures r == Some(RemoteFailure) <==> id in old(sessions) && !remoteOk
      ensures sessions == if r.None? then old(sessions) - {id} else old(sessions)
    {
      if id !in sessions { return Some(NotFound); }
      if !remoteOk { return Some(RemoteFailure); }
      sessions := sessions - {id};
      return None;
    }

    /** Connect. */
    method Connect(id: string) returns (r: Result<ConnectionInfo, ProviderError>)
      ensures r == Err(NotFound) <==> id !in sessions
      ensures r.Err? ==> r.error == NotFound
      ensures r.Ok? ==> r.value.session == id && r.value.accessToken == "fc-session-" + id
                        && r.value.endpoint == "https://" + account + "." + region
                                               + ".fc.aliyuncs.com/2016-08-15/proxy/" + sessions[id].function_ + "/"
    {
      if id !in sessions { return Err(NotFound); }
      var f := sessions[id].function_;
      return Ok(ConnectionInfo(
                  "https://" + account + "." + region + ".fc.aliyuncs.com/2016-08-15/proxy/" + f + "/",
                  "fc-session-" + id, id));
    }

    ghost function Functions(): set<string>
      reads this
    {
      set id | id in sessions :: sessions[id].function_
    }

    /**
     List, for any remote answers and any map iteration order.  What stays tracked is exactly
     what was tracked, unexpired and not reported ended; what is returned is exactly what is
     reported running and not known to be expired, and what is tracked, unexpired and not
     reported at all.
     */
    method List(now: Nanos, remote: string -> ListAnswer) returns (r: ListResult)
      modifies this
      ensures Tracks(old(sessions), now, remote, old(Functions()), sessions)
      ensures Returns(old(sessions), now, remote, old(Functions()), Ids(r.sandboxes))
      ensures Sourced(old(sessions), remote, old(Functions()), r.sandboxes)
      ensures NoRepeats(remote, old(Functions())) ==> DistinctIds(r.sandboxes)
      ensures TokenFrom(remote, old(Functions()), r.nextToken)
    {
      var functionNames, local := CollectLocal();
      var infos, added, nextToken, log := ListRemote(now, remote, functionNames, local);
      ghost var afterRemote := sessions;
      ScanMeaning(local, now, log);
      var localInfos := ListUnseen(now, local, added, log);
      r := ListResult(infos + localInfos, nextToken);
      ListOutcome(local, now, remote, functionNames, log, afterRemote, added, infos, localInfos);
    }

    /** The function names and the sessions known at the start of the listing. */
    method CollectLocal() returns (functionNames: set<string>, local: map<string, Meta>)
      ensures local == sessions && functionNames == Functions()
    {
      functionNames, local := {}, map[];
      var unread := sessions.Keys;
      while unread != {}
        invariant unread <= sessions.Keys
        invariant local == map id | id in sessions && id !in unread :: sessions[id]
        invariant functionNames == set id | id in sessions && id !in unread :: sessions[id].function_
        decreases |unread|
      {
        var id :| id in unread;
        functionNames := functionNames + {sessions[id].function_};
        local := local[id := sessions[id]];
        unread := unread - {id};
      }
      assert local == sessions;
    }

    /** Lists every function in any order; sessions reported ended or past their time-to-live are dropped on the way. */
    method ListRemote(now: Nanos, remote: string -> ListAnswer, functionNames: set<string>, local: map<string, Meta>)
      returns (infos: seq<SandboxInfo>, added: set<string>, nextToken: string, ghost log: seq<Entry>)
      requires sessions == local
      modifies this
      ensures Listed(remote, functionNames, {}, log)
      ensures Scanned(sessions, added, infos) == Scan(local, now, log)
      ensures TokenFrom(remote, functionNames, nextToken)
    {
      infos, added, nextToken, log := [], {}, "", [];
      var rest := functionNames;
      while rest != {}
        invariant rest <= functionNames && Listed(remote, functionNames, rest, log)
        invariant Scanned(sessions, added, infos) == Scan(local, now, log)
        invariant TokenFrom(remote, functionNames, nextToken)
        decreases |rest|
      {
        var f :| f in rest;
        infos, added, nextToken, log := ListFunction(now, f, remote, functionNames, rest, local, infos, added, nextToken, log);
        rest := rest - {f};
      }
    }

    /** Lists one function; a failed listing is skipped. */
    method ListFunction(
      now: Nanos, f: string, remote: string -> ListAnswer, ghost functionNames: set<string>, ghost rest: set<string>,
      local: map<string, Meta>, infos0: seq<SandboxInfo>, added0: set<string>, nextToken0: string, ghost log0: seq<Entry>)
      returns (infos: seq<SandboxInfo>, added: set<string>, nextToken: string, ghost log: seq<Entry>)
      requires f in rest && rest <= functionNames && Listed(remote, functionNames, rest, log0)
      requires Scanned(sessions, added0, infos0) == Scan(local, now, log0) && TokenFrom(remote, functionNames, nextToken0)
      modifies this
      ensures Listed(remote, functionNames, rest - {f}, log)
      ensures Scanned(sessions, added, infos) == Scan(local, now, log) && TokenFrom(remote, functionNames, nextToken)
    {
      infos, added, nextToken, log := infos0, added0, nextToken0, log0;
      var answer := remote(f);
      ListedMore(remote, functionNames, rest, f, log);
      if answer.ListOk? {
        infos, added, log := ListOne(now, f, answer.sessions, local, infos, added, log);
        if answer.nextToken.Some? { nextToken := answer.nextToken.value; }
      } else {
        assert log + EntriesOf(f, []) == log;
      }
    }

    /** Goes through the sessions reported for one function. */
    method ListOne(
      now: Nanos, f: string, reported: seq<RemoteSession>, local: map<string, Meta>,
      infos0: seq<SandboxInfo>, added0: set<string>, ghost log0: seq<Entry>)
      returns (infos: seq<SandboxInfo>, added: set<string>, ghost log: seq<Entry>)
      requires Scanned(sessions, added0, infos0) == Scan(local, now, log0)
      modifies this
      ensures log == log0 + EntriesOf(f, reported)
      ensures Scanned(sessions, added, infos) == Scan(local, now, log)
    {
      infos, added, log := infos0, added0, log0;
      for i := 0 to |reported|
        invariant log == log0 + EntriesOf(f, reported[..i])
        invariant Scanned(sessions, added, infos) == Scan(local, now, log)
      {
        var s := reported[i];
        var id := IdOf(s);
        assert (log + [Entry(f, s)])[..|log|] == log;
        EntriesStep(f, reported, i);
        log := log + [Entry(f, s)];
        added := added + {id};
        if StateOf(s.status) == Ended {
          sessions := sessions - {id};
        } else if id in local && Expired(local[id], now) {
          sessions := sessions - {id};
        } else {
          infos := infos + [SandboxInfo(id, f, Running)];
        }
      }
      assert reported[..|reported|] == reported;
    }

    /** Adds the tracked sessions that the remote side did not mention, and drops those past their time-to-live. */
    method ListUnseen(now: Nanos, local: map<string, Meta>, added: set<string>, ghost log: seq<Entry>)
      returns (infos: seq<SandboxInfo>)
      requires sessions == map id | id in local && !Gone(local, now, log, id) :: local[id]
      modifies this
      ensures sessions == map id | id in local && !Gone(local, now, log, id) && (id in added || !Expired(local[id], now)) :: local[id]
      ensures LocalInfos(local, now, added, infos) && DistinctIds(infos)
    {
      infos := [];
      var unseen := local.Keys;
      while unseen != {}
        invariant unseen <= local.Keys
        invariant sessions == map id | && id in local && !Gone(local, now, log, id)
                                       && (id in unseen || id in added || !Expired(local[id], now)) :: local[id]
        invariant forall x :: x in infos
                    <==> && x.id in local && x.id !in unseen && x.id !in added && !Expired(local[x.id], now)
                         && x == SandboxInfo(x.id, local[x.id].function_, Running)
        invariant DistinctIds(infos)
        decreases |unseen|
      {
        var id :| id in unseen;
        if id !in added {
          if Expired(local[id], now) {
            sessions := sessions - {id};
          } else {
            infos := infos + [SandboxInfo(id, local[id].function_, Running)];
          }
        }
        unseen := unseen - {id};
      }
    }
  }

  // ----- Bookkeeping of one List call -----

  function EntriesOf(f: string, sessions: seq<RemoteSession>): (es: seq<Entry>)
    ensures |es| == |sessions|
  {
    seq(|sessions|, i requires 0 <= i < |sessions| => Entry(f, sessions[i]))
  }

  lemma EntriesStep(f: string, sessions: seq<RemoteSession>, i: nat)
    requires i < |sessions|
    ensures EntriesOf(f, sessions[..i + 1]) == EntriesOf(f, sessions[..i]) + [Entry(f, sessions[i])]
  {
  }

  ghost predicate DistinctEntries(log: seq<Entry>) {
    forall i, j :: 0 <= i < j < |log| ==> IdOf(log[i].s) != IdOf(log[j].s)
  }

  /** The log holds exactly what the functions in `done` report. */
  ghost predicate Come(remote: string -> ListAnswer, done: set<string>, log: seq<Entry>) {
    forall e :: e in log <==> e.f in done && e.s in Reports(remote, e.f)
  }

  lemma ComeMore(remote: string -> ListAnswer, all: set<string>, done: set<string>, f: string, log: seq<Entry>)
    requires Come(remote, done, log) && f !in done && f in all && done <= all
    ensures Come(remote, done + {f}, log + EntriesOf(f, Reports(remote, f)))
    ensures NoRepeats(remote, all) && DistinctEntries(log) ==> DistinctEntries(log + EntriesOf(f, Reports(remote, f)))
  {
    var more := EntriesOf(f, Reports(remote, f));
    forall e
      ensures e in more <==> e.f == f && e.s in Reports(remote, f)
    {
      if e.f == f && e.s in Reports(remote, f) {
        var i :| 0 <= i < |Reports(remote, f)| && Reports(remote, f)[i] == e.s;
        assert more[i] == e;
      }
    }
    if NoRepeats(remote, all) && DistinctEntries(log) {
      forall i, j | 0 <= i < j < |log + more|
        ensures IdOf((log + more)[i].s) != IdOf((log + more)[j].s)
      {
        if i < |log| <= j {
          assert log[i] in log;
          var k :| 0 <= k < |Reports(remote, log[i].f)| && Reports(remote, log[i].f)[k] == log[i].s;
        }
      }
    }
  }

  /** All functions but those in `rest` have been gone through, and nothing is logged twice unless it is reported twice. */
  ghost predicate Listed(remote: string -> ListAnswer, all: set<string>, rest: set<string>, log: seq<Entry>) {
    Come(remote, all - rest, log) && (NoRepeats(remote, all) ==> DistinctEntries(log))
  }

  lemma ListedMore(remote: string -> ListAnswer, all: set<string>, rest: set<string>, f: string, log: seq<Entry>)
    requires f in rest && rest <= all && Listed(remote, all, rest, log)
    ensures Listed(remote, all, rest - {f}, log + EntriesOf(f, Reports(remote, f)))
  {
    ComeMore(remote, all, all - rest, f, log);
    assert all - (rest - {f}) == (all - rest) + {f};
  }

  ghost predicate TokenFrom(remote: string -> ListAnswer, fs: set<string>, token: string) {
    token == "" || exists f :: f in fs && remote(f).ListOk? && remote(f).nextToken == Some(token)
  }

  /** The log makes the listing stop tracking the id. */
  ghost predicate Gone(local: map<string, Meta>, now: Nanos, log: seq<Entry>, id: string) {
    exists e :: e in log && IdOf(e.s) == id && (StateOf(e.s.status) == Ended || (id in local && Expired(local[id], now)))
  }

  ghost function Remaining(local: map<string, Meta>, now: Nanos, log: seq<Entry>): map<string, Meta> {
    map id | id in local && !Gone(local, now, log, id) :: local[id]
  }

  ghost predicate RemoteInfos(local: map<string, Meta>, now: Nanos, log: seq<Entry>, infos: seq<SandboxInfo>) {
    forall x :: x in infos <==> exists e :: e in log && Kept(local, now, e) && x == SandboxInfo(IdOf(e.s), e.f, Running)
  }

  ghost predicate Processed(
    local: map<string, Meta>, now: Nanos, log: seq<Entry>, sessions: map<string, Meta>, added: set<string>, infos: seq<SandboxInfo>)
  {
    && sessions == Remaining(local, now, log)
    && added == (set e | e in log :: IdOf(e.s))
    && RemoteInfos(local, now, log, infos)
    && (DistinctEntries(log) ==> DistinctIds(infos))
  }

  datatype Scanned = Scanned(sessions: map<string, Meta>, added: set<string>, infos: seq<SandboxInfo>)

  /** What the listing has made of the entries come across so far. */
  function Scan(local: map<string, Meta>, now: Nanos, log: seq<Entry>): Scanned {
    if log == [] then Scanned(local, {}, [])
    else
      var e, before := log[|log| - 1], Scan(local, now, log[..|log| - 1]);
      var id := IdOf(e.s);
      if Kept(local, now, e) then Scanned(before.sessions, before.added + {id}, before.infos + [SandboxInfo(id, e.f, Running)])
      else Scanned(before.sessions - {id}, before.added + {id}, before.infos)
  }

  lemma ScanMeaning(local: map<string, Meta>, now: Nanos, log: seq<Entry>)
    ensures var s := Scan(local, now, log); Processed(local, now, log, s.sessions, s.added, s.infos)
  {
    ScanSessions(local, now, log);
    ScanAdded(local, now, log);
    ScanInfos(local, now, log);
    ScanDistinct(local, now, log);
  }

  lemma {:induction false} ScanSessions(local: map<string, Meta>, now: Nanos, log: seq<Entry>)
    ensures Scan(local, now, log).sessions == Remaining(local, now, log)
  {
    if log != [] {
      var n := |log| - 1;
      ScanSessions(local, now, log[..n]);
      assert log == log[..n] + [log[n]];
      GoneOne(local, now, log[..n], log[n]);
    }
  }

  lemma {:induction false} ScanAdded(local: map<string, Meta>, now: Nanos, log: seq<Entry>)
    ensures Scan(local, now, log).added == set e | e in log :: IdOf(e.s)
  {
    if log != [] {
      var n := |log| - 1;
      ScanAdded(local, now, log[..n]);
      assert log == log[..n] + [log[n]];
      AddedOne(log[..n], log[n]);
    }
  }

  lemma {:induction false} ScanInfos(local: map<string, Meta>, now: Nanos, log: seq<Entry>)
    ensures RemoteInfos(local, now, log, Scan(local, now, log).infos)
  {
    if log != [] {
      var n := |log| - 1;
      ScanInfos(local, now, log[..n]);
      assert log == log[..n] + [log[n]];
    }
  }

  lemma {:induction false} ScanDistinct(local: map<string, Meta>, now: Nanos, log: seq<Entry>)
    ensures DistinctEntries(log) ==> DistinctIds(Scan(local, now, log).infos)
  {
    if log != [] && DistinctEntries(log) {
      var n := |log| - 1;
      var infos := Scan(local, now, log[..n]).infos;
      ScanDistinct(local, now, log[..n]);
      ScanInfos(local, now, log[..n]);
      forall x | x in infos
        ensures x.id != IdOf(log[n].s)
      {
        var e :| e in log[..n] && Kept(local, now, e) && x == SandboxInfo(IdOf(e.s), e.f, Running);
      }
    }
  }

  lemma GoneOne(local: map<string, Meta>, now: Nanos, log: seq<Entry>, e: Entry)
    ensures Remaining(local, now, log + [e])
            == if Kept(local, now, e) then Remaining(local, now, log) else Remaining(local, now, log) - {IdOf(e.s)}
  {
    var log' := log + [e];
    assert forall x :: x in log' <==> x in log || x == e;
    forall id | id in local
      ensures Gone(local, now, log', id) <==> Gone(local, now, log, id) || (id == IdOf(e.s) && !Kept(local, now, e))
    {
      if id == IdOf(e.s) && !Kept(local, now, e) { assert e in log'; }
    }
  }

  lemma AddedOne(log: seq<Entry>, e: Entry)
    ensures (set x | x in log + [e] :: IdOf(x.s)) == (set x | x in log :: IdOf(x.s)) + {IdOf(e.s)}
  {
    assert e in log + [e];
  }

  ghost predicate LocalInfos(local: map<string, Meta>, now: Nanos, added: set<string>, infos: seq<SandboxInfo>) {
    forall x :: x in infos
      <==> && x.id in local && x.id !in added && !Expired(local[x.id], now)
           && x == SandboxInfo(x.id, local[x.id].function_, Running)
  }

  ghost predicate InLog(log: seq<Entry>, id: string, state: SandboxState) {
    exists e :: e in log && IdOf(e.s) == id && StateOf(e.s.status) == state
  }

  /** Reported and logged are the same. */
  lemma ReportedInLog(remote: string -> ListAnswer, fs: set<string>, log: seq<Entry>)
    requires Come(remote, fs, log)
    ensures forall id :: ReportedEnded(remote, fs, id) <==> InLog(log, id, Ended)
    ensures forall id :: ReportedRunning(remote, fs, id) <==> InLog(log, id, Running)
  {
    forall id
      ensures ReportedEnded(remote, fs, id) <==> InLog(log, id, Ended)
      ensures ReportedRunning(remote, fs, id) <==> InLog(log, id, Running)
    {
      if ReportedEnded(remote, fs, id) {
        var f, s :| f in fs && s in Reports(remote, f) && IdOf(s) == id && StateOf(s.status) == Ended;
        assert Entry(f, s) in log;
      }
      if ReportedRunning(remote, fs, id) {
        var f, s :| f in fs && s in Reports(remote, f) && IdOf(s) == id && StateOf(s.status) == Running;
        assert Entry(f, s) in log;
      }
    }
  }

  lemma TrackedOutcome(
    local: map<string, Meta>, now: Nanos, remote: string -> ListAnswer, fs: set<string>, log: seq<Entry>, added: set<string>)
    requires added == set e | e in log :: IdOf(e.s)
    requires forall id :: ReportedEnded(remote, fs, id) <==> InLog(log, id, Ended)
    ensures forall id :: id in local ==>
              (!Gone(local, now, log, id) && (id in added || !Expired(local[id], now))
               <==> !Expired(local[id], now) && !ReportedEnded(remote, fs, id))
  {
  }

  lemma IdsOutcome(
    local: map<string, Meta>, now: Nanos, remote: string -> ListAnswer, fs: set<string>, log: seq<Entry>, added: set<string>,
    infos: seq<SandboxInfo>, localInfos: seq<SandboxInfo>)
    requires added == set e | e in log :: IdOf(e.s)
    requires forall id :: ReportedEnded(remote, fs, id) <==> InLog(log, id, Ended)
    requires forall id :: ReportedRunning(remote, fs, id) <==> InLog(log, id, Running)
    requires RemoteInfos(local, now, log, infos) && LocalInfos(local, now, added, localInfos)
    ensures forall id :: id in Ids(infos + localInfos)
              <==> && (id in local ==> !Expired(local[id], now))
                   && (ReportedRunning(remote, fs, id) || (id in local && !ReportedEnded(remote, fs, id)))
  {
    forall id
      ensures id in Ids(infos + localInfos)
              <==> && (id in local ==> !Expired(local[id], now))
                   && (InLog(log, id, Running) || (id in local && !InLog(log, id, Ended)))
    {
      if id in Ids(infos + localInfos) {
        var x :| x in infos + localInfos && x.id == id;
        if x in infos {
          var e :| e in log && Kept(local, now, e) && x == SandboxInfo(IdOf(e.s), e.f, Running);
        }
      }
      if InLog(log, id, Running) && (id in local ==> !Expired(local[id], now)) {
        var e :| e in log && IdOf(e.s) == id && StateOf(e.s.status) == Running;
        assert Kept(local, now, e);
        assert SandboxInfo(id, e.f, Running) in infos + localInfos;
      } else if id in local && !Expired(local[id], now) && !InLog(log, id, Ended) {
        assert id !in added;
        assert SandboxInfo(id, local[id].function_, Running) in infos + localInfos;
      }
    }
  }

  lemma DistinctOutcome(
    local: map<string, Meta>, now: Nanos, log: seq<Entry>, added: set<string>,
    infos: seq<SandboxInfo>, localInfos: seq<SandboxInfo>)
    requires added == set e | e in log :: IdOf(e.s)
    requires RemoteInfos(local, now, log, infos) && LocalInfos(local, now, added, localInfos) && DistinctIds(localInfos)
    ensures DistinctIds(infos) ==> DistinctIds(infos + localInfos)
  {
    if DistinctIds(infos) {
      forall i, j | 0 <= i < j < |infos + localInfos|
        ensures (infos + localInfos)[i].id != (infos + localInfos)[j].id
      {
        if i < |infos| <= j {
          assert infos[i] in infos && localInfos[j - |infos|] in localInfos;
        }
      }
    }
  }

  lemma SourcedOutcome(
    local: map<string, Meta>, now: Nanos, remote: string -> ListAnswer, fs: set<string>, log: seq<Entry>, added: set<string>,
    infos: seq<SandboxInfo>, localInfos: seq<SandboxInfo>)
    requires Come(remote, fs, log)
    requires RemoteInfos(local, now, log, infos) && LocalInfos(local, now, added, localInfos)
    ensures Sourced(local, remote, fs, infos + localInfos)
  {
    forall x | x in infos
      ensures x.state == Running && x.template in fs && exists s :: s in Reports(remote, x.template) && IdOf(s) == x.id
    {
      var e :| e in log && Kept(local, now, e) && x == SandboxInfo(IdOf(e.s), e.f, Running);
      assert e.s in Reports(remote, x.template);
    }
  }

  /** From the bookkeeping to what List promises. */
  lemma ListOutcome(
    local: map<string, Meta>, now: Nanos, remote: string -> ListAnswer, fs: set<string>, log: seq<Entry>,
    afterRemote: map<string, Meta>, added: set<string>, infos: seq<SandboxInfo>, localInfos: seq<SandboxInfo>)
    requires Listed(remote, fs, {}, log) && Processed(local, now, log, afterRemote, added, infos)
    requires LocalInfos(local, now, added, localInfos) && DistinctIds(localInfos)
    ensures Tracks(local, now, remote, fs,
                   map id | id in local && !Gone(local, now, log, id) && (id in added || !Expired(local[id], now)) :: local[id])
    ensures Returns(local, now, remote, fs, Ids(infos + localInfos))
    ensures Sourced(local, remote, fs, infos + localInfos)
    ensures NoRepeats(remote, fs) ==> DistinctIds(infos + localInfos)
  {
    assert fs - {} == fs;
    SourcedOutcome(local, now, remote, fs, log, added, infos, localInfos);
    ReportedInLog(remote, fs, log);
    TrackedOutcome(local, now, remote, fs, log, added);
    IdsOutcome(local, now, remote, fs, log, added, infos, localInfos);
    DistinctOutcome(local, now, log, added, infos, localInfos);
  }

  // ----- Consequences -----

  /** When the remote side repeats no id, the tracked sessions a listing returns are exactly those it leaves tracked. */
  lemma ReturnedAreTracked(
    was: map<string, Meta>, now: Nanos, remote: string -> ListAnswer, fs: set<string>, is_: map<string, Meta>, ids: set<string>)
    requires Tracks(was, now, remote, fs, is_) && Returns(was, now, remote, fs, ids) && NoRepeats(remote, fs)
    ensures is_.Keys == ids * was.Keys
  {
    forall id | id in was
      ensures !(ReportedRunning(remote, fs, id) && ReportedEnded(remote, fs, id))
    {
    }
  }

  /** Without that: they agree exactly when no live tracked session is reported both running and ended. */
  lemma ReturnedAreTrackedIff(
    was: map<string, Meta>, now: Nanos, remote: string -> ListAnswer, fs: set<string>, is_: map<string, Meta>, ids: set<string>)
    requires Tracks(was, now, remote, fs, is_) && Returns(was, now, remote, fs, ids)
    ensures is_.Keys == ids * was.Keys
            <==> forall id :: id in was && !Expired(was[id], now) ==> !(ReportedRunning(remote, fs, id) && ReportedEnded(remote, fs, id))
  {
    assert forall id :: id in is_ <==> id in was && !Expired(was[id], now) && !ReportedEnded(remote, fs, id);
    assert forall id :: id in ids * was.Keys <==> id in ids && id in was;
  }

  /** When every listing fails, no live session is lost: exactly the unexpired tracked sessions are returned and stay tracked. */
  lemma FailedListingsLoseNothing(
    was: map<string, Meta>, now: Nanos, remote: string -> ListAnswer, fs: set<string>, is_: map<string, Meta>, ids: set<string>)
    requires Tracks(was, now, remote, fs, is_) && Returns(was, now, remote, fs, ids)
    requires forall f :: f in fs ==> remote(f).ListFailed?
    ensures ids == is_.Keys && is_ == map id | id in was && !Expired(was[id], now) :: was[id]
  {
    assert forall f :: f in fs ==> Reports(remote, f) == [];
    assert forall id :: !ReportedRunning(remote, fs, id) && !ReportedEnded(remote, fs, id);
  }

  /** The functions that still have a session after a listing. */
  ghost function LiveFunctions(was: map<string, Meta>, now: Nanos, remote: string -> ListAnswer, fs: set<string>): set<string> {
    set id | id in was && !Expired(was[id], now) && !ReportedEnded(remote, fs, id) :: was[id].function_
  }

  lemma FunctionsAfter(was: map<string, Meta>, now: Nanos, remote: string -> ListAnswer, fs: set<string>, is_: map<string, Meta>)
    requires Tracks(was, now, remote, fs, is_)
    ensures LiveFunctions(was, now, remote, fs) == set id | id in is_ :: is_[id].function_
  {
    forall f | f in LiveFunctions(was, now, remote, fs)
      ensures exists id :: id in is_ && is_[id].function_ == f
    {
      var id :| id in was && !Expired(was[id], now) && !ReportedEnded(remote, fs, id) && was[id].function_ == f;
      assert id in is_;
    }
  }

  lemma GoneAndBack(
    was: map<string, Meta>, now: Nanos, remote: string -> ListAnswer, fs: set<string>, is_: map<string, Meta>, first: set<string>,
    later: Nanos, remote': string -> ListAnswer, fs': set<string>, second: set<string>, gone: string)
    requires gone in was && Expired(was[gone], now)
    requires Tracks(was, now, remote, fs, is_) && Returns(was, now, remote, fs, first) && Returns(is_, later, remote', fs', second)
    ensures gone !in first
    ensures gone in second <==> ReportedRunning(remote', fs', gone)
  {
    assert gone !in is_;
  }

  /**
   A session that is past its time-to-live is dropped by a listing, and a later listing returns it
   again exactly when some function that still has a session reports it running.
   */
  method ListTwice(p: FcProvider, gone: string, now: Nanos, remote: string -> ListAnswer, later: Nanos, remote': string -> ListAnswer)
    returns (first: ListResult, second: ListResult)
    requires gone in p.sessions && Expired(p.sessions[gone], now)
    modifies p
    ensures gone !in Ids(first.sandboxes)
    ensures gone in Ids(second.sandboxes)
            <==> ReportedRunning(remote', LiveFunctions(old(p.sessions), now, remote, old(p.Functions())), gone)
  {
    ghost var was, fs := p.sessions, p.Functions();
    first := p.List(now, remote);
    ghost var is_, fs' := p.sessions, p.Functions();
    FunctionsAfter(was, now, remote, fs, is_);
    second := p.List(later, remote');
    GoneAndBack(was, now, remote, fs, is_, Ids(first.sandboxes), later, remote', fs', Ids(second.sandboxes), gone);
  }

  /** It does happen: two creations and a remote side that never forgets. */
  method ExpiredSessionListedAgain(account: string, region: string) returns (first: ListResult, second: ListResult)
    ensures "old" !in Ids(first.sandboxes) && "old" in Ids(second.sandboxes)
  {
    var p, remote := SuchASituation(account, region);
    ghost var was, fs := p.sessions, p.Functions();
    NeverForgotten(was, remote, fs);
    first, second := ListTwice(p, "old", 61 * SECOND, remote, 62 * SECOND, remote);
  }

  lemma NeverForgotten(was: map<string, Meta>, remote: string -> ListAnswer, fs: set<string>)
    requires was == map["old" := Meta("f", 0, 60), "young" := Meta("f", 0, 3600)]
    requires forall f :: Reports(remote, f) == [RemoteSession(Some("old"), Some("Active"))]
    ensures ReportedRunning(remote, LiveFunctions(was, 61 * SECOND, remote, fs), "old")
  {
    var s := RemoteSession(Some("old"), Some("Active"));
    assert !ReportedEnded(remote, fs, "young");
    assert was["young"].function_ in LiveFunctions(was, 61 * SECOND, remote, fs);
    assert s in Reports(remote, "f");
  }

  method SuchASituation(account: string, region: string) returns (p: FcProvider, remote: string -> ListAnswer)
    ensures fresh(p) && p.sessions == map["old" := Meta("f", 0, 60), "young" := Meta("f", 0, 3600)]
    ensures forall f :: Reports(remote, f) == [RemoteSession(Some("old"), Some("Active"))]
  {
    p := new FcProvider(account, region, 3600);
    var _ := p.Create("old", "f", 60 * SECOND, 0, true);
    var _ := p.Create("young", "f", 3600 * SECOND, 0, true);
    remote := (f: string) => ListOk([RemoteSession(Some("old"), Some("Active"))], None);
  }
}
