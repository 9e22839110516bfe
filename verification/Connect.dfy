/** Connecting to a sandbox: keep it alive if it runs, wait while it changes state, otherwise resume its snapshot. */
module Connect {
  import opened Wrappers
  import opened Text

  const MAX_CONNECT_RETRIES: nat := 3

  const OK := 200
  const CREATED := 201
  const BAD_REQUEST := 400
  const NOT_FOUND := 404
  const CONFLICT := 409
  const INTERNAL_ERROR := 500

  /** `timeout` is None when the body cannot be parsed. */
  datatype Request = Request(team: string, sandboxId: string, timeout: Option<int>, maxLengthHours: int)

  type Sandbox = string
  datatype SandboxState = Pausing | Killing | Snapshotting | OtherState(name: string)

  /** What the orchestrator and the snapshot cache may answer; they may answer anything. */
  datatype KeepAliveAnswer = Alive(sandbox: Sandbox) | Missing | NotRunning(state: SandboxState) | Failed(code: int)
  datatype SnapshotAnswer = NoSnapshot | Snapshot(team: string) | SnapshotFailure
  datatype StartAnswer = Started(sandbox: Sandbox) | StartFailed(code: int)

  datatype Event =
    | KeepAlive(team: string, id: string, timeout: int, alive: KeepAliveAnswer)
    | Wait(team: string, id: string, changed: bool)
    | Lookup(id: string, found: SnapshotAnswer)
    | Start(team: string, id: string, timeout: int, started: StartAnswer)
    | Respond(code: int, sandbox: Option<Sandbox>)

  /** The other side: each answer may depend on everything that happened before. */
  datatype World = World(
    keepAlive: seq<Event> -> KeepAliveAnswer,
    wait: seq<Event> -> bool,
    snapshot: seq<Event> -> SnapshotAnswer,
    start: seq<Event> -> StartAnswer)

  predicate LowerAlphanumeric(s: string) {
    s != "" && forall i :: 0 <= i < |s| ==> 'a' <= s[i] <= 'z' || '0' <= s[i] <= '9'
  }

  /** The sandbox id proper: a second part after a dash is dropped. */
  function ShortId(id: string): Option<string> {
    var parts := Split(id, '-');
    if |parts| > 2 then None
    else if LowerAlphanumeric(parts[0]) then Some(parts[0]) else None
  }

  lemma ShortIdMeaning(id: string, short: string)
    ensures ShortId(id) == Some(short)
            <==> && short != "" && (forall i :: 0 <= i < |short| ==> 'a' <= short[i] <= 'z' || '0' <= short[i] <= '9')
                 && (id == short || exists tail: string :: '-' !in tail && id == short + ['-'] + tail)
  {
    var parts := Split(id, '-');
    SplitThenJoin(id, '-');
    if ShortId(id) == Some(short) && |parts| == 2 {
      assert parts[1..] == [parts[1]];
      assert '-' !in parts[1] && id == short + ['-'] + parts[1];
    }
    if LowerAlphanumeric(short) && id == short {
      assert Apart([short], '-');
      JoinThenSplit([short], '-');
    }
    if tail: string :| LowerAlphanumeric(short) && '-' !in tail && id == short + ['-'] + tail {
      assert [short, tail][1..] == [tail] && Apart([short, tail], '-');
      JoinThenSplit([short, tail], '-');
    }
  }

  /** The request is turned down before anything is asked of anyone. */
  predicate TurnedDown(req: Request) {
    req.timeout.None? || req.timeout.value > req.maxLengthHours * 3600 || ShortId(req.sandboxId).None?
  }

  datatype Kind = KeepAliveKind | WaitKind | LookupKind | StartKind | RespondKind

  function KindOf(e: Event): Kind {
    match e
    case KeepAlive(_, _, _, _) => KeepAliveKind
    case Wait(_, _, _) => WaitKind
    case Lookup(_, _) => LookupKind
    case Start(_, _, _, _) => StartKind
    case Respond(_, _) => RespondKind
  }

  function Count(t: seq<Event>, k: Kind): nat {
    if t == [] then 0 else Count(t[..|t| - 1], k) + if KindOf(t[|t| - 1]) == k then 1 else 0
  }

  /** The waits that ended with a state change. */
  function CompletedWaits(t: seq<Event>): nat {
    if t == [] then 0 else CompletedWaits(t[..|t| - 1]) + if t[|t| - 1].Wait? && t[|t| - 1].changed then 1 else 0
  }

  /** The event that comes after what happened so far, when the other side is asked and answers as in `w`. */
  function Next(req: Request, w: World, before: seq<Event>): Option<Event> {
    if TurnedDown(req) then
      if before == [] then Some(Respond(BAD_REQUEST, None)) else None
    else
      var id, timeout := ShortId(req.sandboxId).value, req.timeout.value;
      var keepAlive := KeepAlive(req.team, id, timeout, w.keepAlive(before));
      if before == [] then Some(keepAlive)
      else
        match before[|before| - 1]
        case KeepAlive(_, _, _, Alive(sandbox)) => Some(Respond(OK, Some(sandbox)))
        case KeepAlive(_, _, _, Missing) => Some(Lookup(id, w.snapshot(before)))
        case KeepAlive(_, _, _, Failed(code)) => Some(Respond(code, None))
        case KeepAlive(_, _, _, NotRunning(state)) =>
          if state == Killing then Some(Respond(CONFLICT, None)) else Some(Wait(req.team, id, w.wait(before)))
        case Wait(_, _, changed) =>
          if !changed then Some(Respond(INTERNAL_ERROR, None))
          else if Count(before, KeepAliveKind) < MAX_CONNECT_RETRIES then Some(keepAlive)
          else Some(Lookup(id, w.snapshot(before)))
        case Lookup(_, NoSnapshot) => Some(Respond(NOT_FOUND, None))
        case Lookup(_, SnapshotFailure) => Some(Respond(INTERNAL_ERROR, None))
        case Lookup(_, Snapshot(team)) =>
          if team != req.team then Some(Respond(NOT_FOUND, None)) else Some(Start(req.team, id, timeout, w.start(before)))
        case Start(_, _, _, Started(sandbox)) => Some(Respond(CREATED, Some(sandbox)))
        case Start(_, _, _, StartFailed(code)) => Some(Respond(code, None))
        case Respond(_, _) => None
  }

  /** A conversation: each event is the one that had to come. */
  ghost predicate Conversation(req: Request, w: World, t: seq<Event>) {
    t == [] || (Conversation(req, w, t[..|t| - 1]) && Next(req, w, t[..|t| - 1]) == Some(t[|t| - 1]))
  }

  lemma {:induction false} EventAt(req: Request, w: World, t: seq<Event>, i: nat)
    requires Conversation(req, w, t) && i < |t|
    ensures Next(req, w, t[..i]) == Some(t[i]) && Conversation(req, w, t[..i]) && Conversation(req, w, t[..i + 1])
  {
    var n := |t| - 1;
    if i < n {
      EventAt(req, w, t[..n], i);
      assert t[..n][..i] == t[..i] && t[..n][..i + 1] == t[..i + 1];
    } else {
      assert t[..i + 1] == t;
    }
  }

  /** A conversation with nothing left to do. */
  ghost predicate Finished(req: Request, w: World, t: seq<Event>) {
    Conversation(req, w, t) && Next(req, w, t) == None
  }

  /** Asks the other side. */
  method Ask(req: Request, w: World, t: seq<Event>, e: Event) returns (t': seq<Event>)
    requires Conversation(req, w, t) && Next(req, w, t) == Some(e)
    ensures t' == t + [e] && Conversation(req, w, t')
    ensures Count(t', KeepAliveKind) == Count(t, KeepAliveKind) + if e.KeepAlive? then 1 else 0
  {
    t' := t + [e];
    assert t'[..|t|] == t;
  }

  /** Sends the response. */
  method Send(req: Request, w: World, t: seq<Event>, code: int, sandbox: Option<Sandbox>) returns (t': seq<Event>)
    requires Conversation(req, w, t) && Next(req, w, t) == Some(Respond(code, sandbox))
    ensures Finished(req, w, t')
  {
    t' := Ask(req, w, t, Respond(code, sandbox));
  }

  /**
   The handler.  Whatever the other side answers, it goes through a whole conversation, which is
   the only one there is.
   */
  method PostSandboxesSandboxIDConnect(req: Request, w: World) returns (t: seq<Event>)
    ensures Finished(req, w, t)
  {
    t := [];
    if req.timeout.None? {
      t := Send(req, w, t, BAD_REQUEST, None);
      return;
    }
    var timeout := req.timeout.value;
    if timeout > req.maxLengthHours * 3600 {
      t := Send(req, w, t, BAD_REQUEST, None);
      return;
    }
    var short := ShortId(req.sandboxId);
    if short.None? {
      t := Send(req, w, t, BAD_REQUEST, None);
      return;
    }
    var answered;
    t, answered := KeepRunning(req, w, short.value, timeout);
    if !answered {
      t := Resume(req, w, t, short.value, timeout);
    }
  }

  /** Keeps the sandbox alive if it runs, waiting as long as it is changing state and attempts are left. */
  method KeepRunning(req: Request, w: World, id: string, timeout: int) returns (t: seq<Event>, answered: bool)
    requires !TurnedDown(req) && ShortId(req.sandboxId) == Some(id) && req.timeout == Some(timeout)
    ensures answered ==> Finished(req, w, t)
    ensures !answered ==> Conversation(req, w, t) && Next(req, w, t) == Some(Lookup(id, w.snapshot(t)))
  {
    t := [];
    for attempt := 0 to MAX_CONNECT_RETRIES
      invariant Conversation(req, w, t) && Count(t, KeepAliveKind) == attempt
      invariant if attempt == 0 then t == [] else |t| > 0 && t[|t| - 1] == Wait(req.team, id, true)
    {
      var outcome;
      t, outcome := Attempt(req, w, t, id, timeout);
      match outcome {
        case Answered => return t, true;
        case Absent => return t, false;
        case Changed =>
      }
    }
    return t, false;
  }

  datatype Outcome = Answered | Absent | Changed

  /** One attempt. */
  method Attempt(req: Request, w: World, t0: seq<Event>, id: string, timeout: int) returns (t: seq<Event>, outcome: Outcome)
    requires !TurnedDown(req) && ShortId(req.sandboxId) == Some(id) && req.timeout == Some(timeout)
    requires Conversation(req, w, t0) && Next(req, w, t0) == Some(KeepAlive(req.team, id, timeout, w.keepAlive(t0)))
    ensures if outcome == Answered then Finished(req, w, t)
            else Conversation(req, w, t) && Count(t, KeepAliveKind) == Count(t0, KeepAliveKind) + 1
    ensures outcome == Absent ==> Next(req, w, t) == Some(Lookup(id, w.snapshot(t)))
    ensures outcome == Changed ==> |t| > 0 && t[|t| - 1] == Wait(req.team, id, true)
  {
    var answer := w.keepAlive(t0);
    t := Ask(req, w, t0, KeepAlive(req.team, id, timeout, answer));
    if answer.Missing? {
      return t, Absent;
    }
    if answer.NotRunning? && answer.state != Killing {
      t, outcome := WaitForChange(req, w, t, id);
    } else {
      t := Answer(req, w, t, answer);
      outcome := Answered;
    }
  }

  /** Answers for a sandbox that is alive, failing or being killed. */
  method Answer(req: Request, w: World, t0: seq<Event>, answer: KeepAliveAnswer) returns (t: seq<Event>)
    requires !TurnedDown(req) && Conversation(req, w, t0)
    requires |t0| > 0 && t0[|t0| - 1].KeepAlive? && t0[|t0| - 1].alive == answer
    requires !answer.Missing? && (answer.NotRunning? ==> answer.state == Killing)
    ensures Finished(req, w, t)
  {
    match answer {
      case Alive(sandbox) => t := Send(req, w, t0, OK, Some(sandbox));
      case Failed(code) => t := Send(req, w, t0, code, None);
      case NotRunning(_) => t := Send(req, w, t0, CONFLICT, None);
    }
  }

  /** Waits for a sandbox that is changing state. */
  method WaitForChange(req: Request, w: World, t0: seq<Event>, id: string) returns (t: seq<Event>, outcome: Outcome)
    requires !TurnedDown(req) && ShortId(req.sandboxId) == Some(id) && Conversation(req, w, t0)
    requires Next(req, w, t0) == Some(Wait(req.team, id, w.wait(t0)))
    ensures outcome != Absent && (outcome == Answered ==> Finished(req, w, t))
    ensures outcome == Changed ==> && Conversation(req, w, t) && Count(t, KeepAliveKind) == Count(t0, KeepAliveKind)
                                   && |t| > 0 && t[|t| - 1] == Wait(req.team, id, true)
  {
    var changed := w.wait(t0);
    t := Ask(req, w, t0, Wait(req.team, id, changed));
    if changed {
      return t, Changed;
    }
    t := Send(req, w, t, INTERNAL_ERROR, None);
    return t, Answered;
  }

  /** Resumes the sandbox from its last snapshot, if the caller's team owns it. */
  method Resume(req: Request, w: World, t0: seq<Event>, id: string, timeout: int) returns (t: seq<Event>)
    requires !TurnedDown(req) && ShortId(req.sandboxId) == Some(id) && req.timeout == Some(timeout)
    requires Conversation(req, w, t0) && Next(req, w, t0) == Some(Lookup(id, w.snapshot(t0)))
    ensures Finished(req, w, t)
  {
    var snapshot := w.snapshot(t0);
    t := Ask(req, w, t0, Lookup(id, snapshot));
    if snapshot.NoSnapshot? {
      t := Send(req, w, t, NOT_FOUND, None);
      return;
    }
    if snapshot.SnapshotFailure? {
      t := Send(req, w, t, INTERNAL_ERROR, None);
      return;
    }
    if snapshot.team != req.team {
      t := Send(req, w, t, NOT_FOUND, None);
      return;
    }
    var started := w.start(t);
    t := Ask(req, w, t, Start(req.team, id, timeout, started));
    if started.StartFailed? {
      t := Send(req, w, t, started.code, None);
      return;
    }
    t := Send(req, w, t, CREATED, Some(started.sandbox));
  }

  // ----- What every conversation is like -----

  /** There is one finished conversation for each request and other side. */
  lemma OneConversation(req: Request, w: World, t: seq<Event>, u: seq<Event>)
    requires Finished(req, w, t) && Finished(req, w, u)
    ensures t == u
  {
    if |t| <= |u| { NotLonger(req, w, t, u); } else { NotLonger(req, w, u, t); }
  }

  lemma NotLonger(req: Request, w: World, t: seq<Event>, u: seq<Event>)
    requires Finished(req, w, t) && Conversation(req, w, u) && |t| <= |u|
    ensures t == u
  {
    SameBeginning(req, w, t, u, |t|);
    assert t[..|t|] == t;
    assert u[..|u|] == u;
    var next := if |t| < |u| then Some(u[|t|]) else None;
    if |t| < |u| { EventAt(req, w, u, |t|); }
    assert next == None;
  }

  lemma {:induction false} SameBeginning(req: Request, w: World, t: seq<Event>, u: seq<Event>, i: nat)
    requires Conversation(req, w, t) && Conversation(req, w, u) && i <= |t| && i <= |u|
    ensures t[..i] == u[..i]
  {
    if i > 0 {
      SameBeginning(req, w, t, u, i - 1);
      EventAt(req, w, t, i - 1);
      EventAt(req, w, u, i - 1);
      Snoc(t, i - 1);
      Snoc(u, i - 1);
    }
  }

  lemma Snoc(t: seq<Event>, i: nat)
    requires i < |t|
    ensures t[..i + 1] == t[..i] + [t[i]]
  {
  }

  /** How often each kind of event has happened, by the last event. */
  lemma {:induction false} Counts(req: Request, w: World, t: seq<Event>)
    requires Conversation(req, w, t) && t != []
    ensures var last := t[|t| - 1];
            var k := Count(t, KeepAliveKind);
            && k <= MAX_CONNECT_RETRIES && Count(t, WaitKind) <= k
            && Count(t, LookupKind) <= 1 && Count(t, StartKind) <= 1
            && (last.KeepAlive? ==> CompletedWaits(t) + 1 == k)
            && (last.Wait? && last.changed ==> CompletedWaits(t) == k == Count(t, WaitKind))
            && (last.KeepAlive? ==> Count(t, WaitKind) + 1 == k)
            && (last.KeepAlive? || last.Wait? ==> Count(t, LookupKind) == 0)
            && (last.KeepAlive? || last.Wait? || last.Lookup? ==> Count(t, StartKind) == 0)
            && Count(t, RespondKind) == if last.Respond? then 1 else 0
  {
    var n := |t| - 1;
    if n > 0 { Counts(req, w, t[..n]); }
  }

  /**
   Every request gets exactly one response, as the last thing that happens, after at most three
   keep-alives, three waits, one lookup and one start.
   */
  lemma OneResponse(req: Request, w: World, t: seq<Event>)
    requires Finished(req, w, t)
    ensures t != [] && t[|t| - 1].Respond? && Count(t, RespondKind) == 1
    ensures Count(t, KeepAliveKind) <= 3 && Count(t, WaitKind) <= 3 && Count(t, LookupKind) <= 1 && Count(t, StartKind) <= 1
  {
    assert t != [];
    Counts(req, w, t);
  }

  /**
   A sandbox is started only right after a lookup found a snapshot of the caller's own team, and
   only when the sandbox was missing or three waits have been completed.
   */
  lemma StartIsJustified(req: Request, w: World, t: seq<Event>, i: nat)
    requires Conversation(req, w, t) && i < |t| && t[i].Start?
    ensures i >= 2 && t[i].team == req.team && Some(t[i].id) == ShortId(req.sandboxId) && Some(t[i].timeout) == req.timeout
    ensures t[i - 1] == Lookup(t[i].id, Snapshot(req.team))
    ensures t[i - 2] == KeepAlive(req.team, t[i].id, t[i].timeout, Missing) || CompletedWaits(t[..i]) == MAX_CONNECT_RETRIES
  {
    EventAt(req, w, t, i);
    EventAt(req, w, t, i - 1);
    LookupIsJustified(req, w, t, i - 1);
    Snoc(t, i - 1);
    assert CompletedWaits(t[..i]) == CompletedWaits(t[..i - 1]);
  }

  /** So is a lookup. */
  lemma LookupIsJustified(req: Request, w: World, t: seq<Event>, i: nat)
    requires Conversation(req, w, t) && i < |t| && t[i].Lookup? && !TurnedDown(req)
    ensures i >= 1
    ensures t[i - 1] == KeepAlive(req.team, t[i].id, req.timeout.value, Missing) || CompletedWaits(t[..i]) == MAX_CONNECT_RETRIES
  {
    EventAt(req, w, t, i);
    Counts(req, w, t[..i]);
    EventAt(req, w, t, i - 1);
  }

  lemma ResponseIsLast(req: Request, w: World, t: seq<Event>, i: nat)
    requires Conversation(req, w, t) && i < |t| && t[i].Respond?
    ensures i == |t| - 1
  {
    EventAt(req, w, t, i);
    var next := if i + 1 < |t| then Some(t[i + 1]) else None;
    if i + 1 < |t| { EventAt(req, w, t, i + 1); }
    assert Next(req, w, t[..i + 1]) == None && next == None;
  }

  /** Once the sandbox is seen being killed, all that follows is the conflict response. */
  lemma KillingEndsIt(req: Request, w: World, t: seq<Event>, i: nat)
    requires Finished(req, w, t) && i < |t| && t[i].KeepAlive? && t[i].alive == NotRunning(Killing)
    ensures t[i + 1..] == [Respond(CONFLICT, None)]
  {
    EventAt(req, w, t, i);
    assert t[..|t|] == t;
    EventAt(req, w, t, i + 1);
    ResponseIsLast(req, w, t, i + 1);
  }

  /** The response carries a sandbox exactly when one was kept alive or started, and then it is that one. */
  lemma ResponseMeaning(req: Request, w: World, t: seq<Event>, sandbox: Sandbox)
    requires Finished(req, w, t)
    ensures TurnedDown(req) ==> t == [Respond(BAD_REQUEST, None)]
    ensures var last := t[|t| - 1];
            last.Respond?
            && (last.sandbox == Some(sandbox)
                <==> exists e :: e in t && ((e.KeepAlive? && e.alive == Alive(sandbox) && last.code == OK)
                                            || (e.Start? && e.started == Started(sandbox) && last.code == CREATED)))
  {
    OneResponse(req, w, t);
    var n := |t| - 1;
    EventAt(req, w, t, n);
    EventAt(req, w, t, 0);
    if t[n].sandbox == Some(sandbox) {
      assert t[n - 1] in t;
    }
    forall e | e in t && GivesSandbox(e)
      ensures n > 0 && e == t[n - 1]
    {
      var i :| 0 <= i < |t| && t[i] == e;
      SandboxIsAnswered(req, w, t, i);
    }
  }

  /** The sandbox is there. */
  predicate GivesSandbox(e: Event) {
    (e.KeepAlive? && e.alive.Alive?) || (e.Start? && e.started.Started?)
  }

  /** Right after it the response is sent. */
  lemma SandboxIsAnswered(req: Request, w: World, t: seq<Event>, i: nat)
    requires Finished(req, w, t) && i < |t| && GivesSandbox(t[i])
    ensures i + 2 == |t|
  {
    EventAt(req, w, t, i);
    assert t[..|t|] == t;
    EventAt(req, w, t, i + 1);
    ResponseIsLast(req, w, t, i + 1);
  }

  // ----- What comes after what, in plain codes and positions -----

  /** Every keep-alive comes at one of the first three even positions, and every wait right after one. */
  lemma {:induction false} Positions(req: Request, w: World, t: seq<Event>)
    requires Conversation(req, w, t) && t != []
    ensures t[|t| - 1].KeepAlive? ==> |t| == 2 * Count(t, KeepAliveKind) - 1
    ensures t[|t| - 1].Wait? ==> |t| == 2 * Count(t, KeepAliveKind)
  {
    if |t| > 1 { Positions(req, w, t[..|t| - 1]); }
  }

  lemma PositionAt(req: Request, w: World, t: seq<Event>, i: nat)
    requires Conversation(req, w, t) && i < |t|
    ensures t[i].KeepAlive? ==> i in {0, 2, 4}
    ensures t[i].Wait? ==> i in {1, 3, 5} && Count(t[..i + 1], KeepAliveKind) == (i + 1) / 2
  {
    EventAt(req, w, t, i);
    Positions(req, w, t[..i + 1]);
    Counts(req, w, t[..i + 1]);
  }

  /** What comes after an event that is no response. */
  lemma NextAt(req: Request, w: World, t: seq<Event>, i: nat)
    requires Finished(req, w, t) && i < |t| && !t[i].Respond?
    ensures i + 1 < |t| && Next(req, w, t[..i + 1]) == Some(t[i + 1]) && Next(req, w, t[..i]) == Some(t[i]) && !TurnedDown(req)
  {
    EventAt(req, w, t, i);
    assert t[..|t|] == t;
    if i + 1 < |t| { EventAt(req, w, t, i + 1); }
  }

  /** A request is turned down exactly when its body cannot be parsed, its timeout is over the team's limit, or its sandbox id is invalid; any other starts with a keep-alive. */
  lemma First(req: Request, w: World, t: seq<Event>)
    requires Finished(req, w, t)
    ensures var bad := req.timeout.None? || req.timeout.value > req.maxLengthHours * 3600 || ShortId(req.sandboxId).None?;
            && t != []
            && (bad ==> t == [Respond(400, None)])
            && (!bad ==> t[0].KeepAlive?)
  {
    OneResponse(req, w, t);
    EventAt(req, w, t, 0);
    if t[0].Respond? { ResponseIsLast(req, w, t, 0); }
  }

  /** After a keep-alive: 200 with the sandbox if it is alive, the other side's code if that failed, 409 if it is being killed, a wait in any other state, and a lookup if it is missing. */
  lemma AfterKeepAlive(req: Request, w: World, t: seq<Event>, i: nat)
    requires Finished(req, w, t) && i < |t| && t[i].KeepAlive?
    ensures i in {0, 2, 4} && i + 1 < |t|
    ensures t[i].team == req.team && Some(t[i].id) == ShortId(req.sandboxId) && Some(t[i].timeout) == req.timeout
    ensures t[i].alive == w.keepAlive(t[..i])
    ensures match t[i].alive
            case Alive(sandbox) => t[i + 1] == Respond(200, Some(sandbox))
            case Failed(code) => t[i + 1] == Respond(code, None)
            case Missing => t[i + 1].Lookup?
            case NotRunning(state) =>
              if state == Killing then t[i + 1] == Respond(409, None) else t[i + 1].Wait?
  {
    NextAt(req, w, t, i);
    PositionAt(req, w, t, i);
  }

  /** After a wait: 500 if it failed, another keep-alive after the first two, and a lookup after the third. */
  lemma AfterWait(req: Request, w: World, t: seq<Event>, i: nat)
    requires Finished(req, w, t) && i < |t| && t[i].Wait?
    ensures i in {1, 3, 5} && i + 1 < |t|
    ensures t[i].team == req.team && Some(t[i].id) == ShortId(req.sandboxId) && t[i].changed == w.wait(t[..i])
    ensures !t[i].changed ==> t[i + 1] == Respond(500, None)
    ensures t[i].changed ==> if i < 5 then t[i + 1].KeepAlive? else t[i + 1].Lookup?
  {
    NextAt(req, w, t, i);
    PositionAt(req, w, t, i);
  }

  /** After a lookup: 404 if there is no snapshot or it is another team's, 500 if the lookup failed, and a start if it is the caller's own. */
  lemma AfterLookup(req: Request, w: World, t: seq<Event>, i: nat)
    requires Finished(req, w, t) && i < |t| && t[i].Lookup?
    ensures i + 1 < |t| && Some(t[i].id) == ShortId(req.sandboxId) && t[i].found == w.snapshot(t[..i])
    ensures match t[i].found
            case NoSnapshot => t[i + 1] == Respond(404, None)
            case SnapshotFailure => t[i + 1] == Respond(500, None)
            case Snapshot(team) => if team == req.team then t[i + 1].Start? else t[i + 1] == Respond(404, None)
  {
    NextAt(req, w, t, i);
  }

  /** After a start: 201 with the sandbox, or the other side's code. */
  lemma AfterStart(req: Request, w: World, t: seq<Event>, i: nat)
    requires Finished(req, w, t) && i < |t| && t[i].Start?
    ensures i + 1 < |t| && t[i].started == w.start(t[..i])
    ensures match t[i].started
            case Started(sandbox) => t[i + 1] == Respond(201, Some(sandbox))
            case StartFailed(code) => t[i + 1] == Respond(code, None)
  {
    NextAt(req, w, t, i);
  }

  /** The main use: a paused sandbox with a snapshot of the caller's own team is looked up, started and answered with 201. */
  lemma PausedSandboxIsResumed(req: Request, w: World, t: seq<Event>, sandbox: Sandbox)
    requires Finished(req, w, t) && t != [] && t[0].KeepAlive? && t[0].alive == Missing
    requires (forall s :: w.snapshot(s) == Snapshot(req.team)) && (forall s :: w.start(s) == Started(sandbox))
    ensures |t| == 4 && t[1].Lookup? && t[2].Start? && t[3] == Respond(201, Some(sandbox))
  {
    AfterKeepAlive(req, w, t, 0);
    AfterLookup(req, w, t, 1);
    AfterStart(req, w, t, 2);
    ResponseIsLast(req, w, t, 3);
  }
}
