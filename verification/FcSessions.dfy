/**
 The calls and listings of the sandbox provider running at the same time: one step is one access to
 the session map, one look at the clock or one remote answer.
 */
module FcSessions {
  import opened Wrappers
  import opened FcProvider

  datatype Op = Get | Delete | Connect

  datatype Answer = Succeeded | Missing | Failed

  /** Where a call is. */
  datatype Pc =
    | Start                           // before its lookup
    | Missed                          // the lookup found nothing
    | Loaded(meta: Meta)              // the lookup found the session
    | Expiring(meta: Meta, at: Nanos) // Get found it past its time-to-live
    | Asking                          // Get is waiting for the remote side
    | Removing                        // Delete succeeded remotely
    | Erased                          // the session has been removed from the map
    | Done(answer: Answer)

  datatype Call = Call(op: Op, id: string, pc: Pc)

  /**
   A listing: the sessions it has seen in the map, its time once it has looked at the clock, and the
   ids the remote side has reported to it since.
   */
  datatype Listing = Listing(now: Option<Nanos>, seen: map<string, Meta>, reported: set<string>)

  /** `used`: the session ids generated so far; `creating`: those whose Create has not returned. */
  datatype State = State(
    tracked: map<string, Meta>, used: set<string>, creating: map<string, Meta>, calls: seq<Call>, lists: seq<Listing>)

  datatype Action =
    | CreateBegins(id: string, template: string, timeout: Nanos, defaultTtl: int)
    | CreateStores(id: string, at: Nanos)
    | CreateFails(id: string)
    | CallBegins(op: Op, id: string)
    | Load(k: nat)
    | CheckTtl(k: nat, at: Nanos)
    | RemoteAnswers(k: nat, ok: bool)
    | Erase(k: nat)
    | Return(k: nat)
    | ListBegins
    | ListSees(l: nat, id: string)                    // the range over the map comes to the id
    | ListStarts(l: nat, at: Nanos)                   // the range is over
    | ListReported(l: nat, id: string, ended: bool)   // the remote side reports the id
    | ListUnseen(l: nat, id: string)                  // the final loop over what was seen comes to the id

  /** The next position of one call, under the sessions tracked at that moment. */
  function NextPc(c: Call, a: Action, tracked: map<string, Meta>): Pc {
    match (a, c.pc)
    case (Load(_), Start) => if c.id in tracked then Loaded(tracked[c.id]) else Missed
    case (CheckTtl(_, at), Loaded(m)) =>
      if c.op != Get then c.pc else if Expired(m, at) then Expiring(m, at) else Asking
    case (RemoteAnswers(_, ok), Asking) => Done(if ok then Succeeded else Failed)
    case (RemoteAnswers(_, ok), Loaded(_)) => if c.op != Delete then c.pc else if ok then Removing else Done(Failed)
    case (Erase(_), Expiring(_, _)) => Erased
    case (Erase(_), Removing) => Erased
    case (Return(_), Missed) => Done(Missing)
    case (Return(_), Erased) => Done(if c.op == Get then Missing else Succeeded)
    case (Return(_), Loaded(_)) => if c.op == Connect then Done(Succeeded) else c.pc
    case _ => c.pc
  }

  predicate CallAction(a: Action) {
    a.Load? || a.CheckTtl? || a.RemoteAnswers? || a.Erase? || a.Return?
  }

  predicate Removes(c: Call, a: Action) {
    a.Erase? && (c.pc.Expiring? || c.pc.Removing?)
  }

  /** What a listing knows after the action, under the sessions tracked at that moment. */
  function NextListing(x: Listing, a: Action, tracked: map<string, Meta>): Listing {
    match a
    case ListSees(_, id) => if x.now.None? && id in tracked then x.(seen := x.seen[id := tracked[id]]) else x
    case ListStarts(_, at) => if x.now.None? then x.(now := Some(at)) else x
    case ListReported(_, id, _) => if x.now.Some? then x.(reported := x.reported + {id}) else x
    case _ => x
  }

  /** The listing has seen the session, and it is past its time-to-live at the listing's time. */
  predicate SawItExpired(x: Listing, id: string) {
    x.now.Some? && id in x.seen && Expired(x.seen[id], x.now.value)
  }

  /** The ids the action makes the listing remove. */
  function Drops(x: Listing, a: Action): set<string> {
    match a
    case ListReported(_, id, ended) => if x.now.Some? && (ended || SawItExpired(x, id)) then {id} else {}
    case ListUnseen(_, id) => if id !in x.reported && SawItExpired(x, id) then {id} else {}
    case _ => {}
  }

  function StepOfCall(s: State, k: nat, a: Action): State {
    if k >= |s.calls| then s
    else
      var c := s.calls[k];
      s.(calls := s.calls[k := c.(pc := NextPc(c, a, s.tracked))],
         tracked := if Removes(c, a) then s.tracked - {c.id} else s.tracked)
  }

  function StepOfList(s: State, l: nat, a: Action): State {
    if l >= |s.lists| then s
    else
      var x := s.lists[l];
      s.(lists := s.lists[l := NextListing(x, a, s.tracked)], tracked := s.tracked - Drops(x, a))
  }

  /** One step; an action that is not possible changes nothing. Generated ids are never generated again. */
  function Step(s: State, a: Action): State {
    match a
    case CreateBegins(id, template, timeout, defaultTtl) =>
      if id in s.used then s
      else s.(used := s.used + {id}, creating := s.creating[id := Meta(template, 0, Ttl(defaultTtl, timeout))])
    case CreateStores(id, at) =>
      if id !in s.creating then s
      else s.(tracked := s.tracked[id := s.creating[id].(createdAt := at)], creating := s.creating - {id})
    case CreateFails(id) => s.(creating := s.creating - {id})
    case CallBegins(op, id) => s.(calls := s.calls + [Call(op, id, Start)])
    case ListBegins => s.(lists := s.lists + [Listing(None, map[], {})])
    case Load(k) => StepOfCall(s, k, a)
    case CheckTtl(k, _) => StepOfCall(s, k, a)
    case RemoteAnswers(k, _) => StepOfCall(s, k, a)
    case Erase(k) => StepOfCall(s, k, a)
    case Return(k) => StepOfCall(s, k, a)
    case ListSees(l, _) => StepOfList(s, l, a)
    case ListStarts(l, _) => StepOfList(s, l, a)
    case ListReported(l, _, _) => StepOfList(s, l, a)
    case ListUnseen(l, _) => StepOfList(s, l, a)
  }

  function Run(s: State, actions: seq<Action>): State
    decreases |actions|
  {
    if actions == [] then s else Step(Run(s, actions[..|actions| - 1]), actions[|actions| - 1])
  }

  const IDLE := State(map[], {}, map[], [], [])

  // ----- What every interleaving keeps -----

  /** The map holds generated ids only, none still being created, each with a time-to-live of at least the minimum. */
  ghost predicate Sound(s: State) {
    && s.creating.Keys <= s.used && s.tracked.Keys <= s.used && s.tracked.Keys !! s.creating.Keys
    && (forall id :: id in s.creating ==> s.creating[id].ttl >= MIN_TTL)
    && (forall id :: id in s.tracked ==> s.tracked[id].ttl >= MIN_TTL)
  }

  lemma {:induction false} RunIsSound(s: State, actions: seq<Action>)
    requires Sound(s)
    ensures Sound(Run(s, actions))
    decreases |actions|
  {
    if actions != [] { RunIsSound(s, actions[..|actions| - 1]); }
  }

  /** Whatever is done from the start on. */
  lemma EveryRunIsSound(actions: seq<Action>)
    ensures Sound(Run(IDLE, actions))
  {
    RunIsSound(IDLE, actions);
  }

  /** The id has been generated and its Create has returned, with or without success. */
  predicate Created(s: State, id: string) {
    id in s.used && id !in s.creating
  }

  /** The call found its session missing, or removed it. */
  predicate SawItGone(c: Call) {
    c.pc in {Missed, Erased, Done(Missing)} || (c.op == Delete && c.pc == Done(Succeeded))
  }

  /** Of the calls from the n-th on, those on the id that found it missing or removed it left it untracked. */
  ghost predicate MissesAreReal(s: State, n: nat, id: string) {
    forall k :: n <= k < |s.calls| && s.calls[k].id == id
      ==> (SawItGone(s.calls[k]) ==> id !in s.tracked) && (s.calls[k].pc.Asking? ==> s.calls[k].op == Get)
  }

  lemma StepOnId(s: State, a: Action, id: string)
    requires Created(s, id)
    ensures Created(Step(s, a), id) && (id !in s.tracked ==> id !in Step(s, a).tracked)
    ensures |s.calls| <= |Step(s, a).calls|
  {
  }

  /** The call an action is of. */
  function CallOf(a: Action): Option<nat> {
    match a
    case Load(k) => Some(k)
    case CheckTtl(k, _) => Some(k)
    case RemoteAnswers(k, _) => Some(k)
    case Erase(k) => Some(k)
    case Return(k) => Some(k)
    case _ => None
  }

  /** An action moves its own call, leaves the others where they are, and a new one starts at the start. */
  lemma CallAfter(s: State, a: Action, k: nat)
    requires k < |Step(s, a).calls|
    ensures k < |s.calls| ==>
              var c := s.calls[k];
              && Step(s, a).calls[k] == (if CallOf(a) == Some(k) then c.(pc := NextPc(c, a, s.tracked)) else c)
              && (CallOf(a) == Some(k) && Removes(c, a) ==> Step(s, a).tracked == s.tracked - {c.id})
              && (CallOf(a) == Some(k) && !Removes(c, a) ==> Step(s, a).tracked == s.tracked)
    ensures k >= |s.calls| ==> Step(s, a).calls[k].pc == Start
  {
  }

  lemma StepMissIsReal(s: State, a: Action, n: nat, id: string, k: nat)
    requires Created(s, id) && MissesAreReal(s, n, id) && n <= |s.calls|
    requires n <= k < |Step(s, a).calls| && Step(s, a).calls[k].id == id
    ensures SawItGone(Step(s, a).calls[k]) ==> id !in Step(s, a).tracked
    ensures Step(s, a).calls[k].pc.Asking? ==> Step(s, a).calls[k].op == Get
  {
    StepOnId(s, a, id);
    CallAfter(s, a, k);
  }

  lemma {:induction false} RunMissesAreReal(s: State, actions: seq<Action>, id: string)
    requires Created(s, id)
    ensures Created(Run(s, actions), id) && MissesAreReal(Run(s, actions), |s.calls|, id)
    ensures id !in s.tracked ==> id !in Run(s, actions).tracked
    ensures |s.calls| <= |Run(s, actions).calls|
    decreases |actions|
  {
    if actions != [] {
      var n := |actions| - 1;
      var t := Run(s, actions[..n]);
      RunMissesAreReal(s, actions[..n], id);
      StepOnId(t, actions[n], id);
      forall k | |s.calls| <= k < |Step(t, actions[n]).calls| && Step(t, actions[n]).calls[k].id == id
        ensures SawItGone(Step(t, actions[n]).calls[k]) ==> id !in Step(t, actions[n]).tracked
        ensures Step(t, actions[n]).calls[k].pc.Asking? ==> Step(t, actions[n]).calls[k].op == Get
      {
        StepMissIsReal(t, actions[n], |s.calls|, id, k);
      }
    }
  }

  /** Of the calls from the n-th on, none on the id has got past a failed lookup. */
  ghost predicate AllMiss(s: State, n: nat, id: string) {
    forall k :: n <= k < |s.calls| && s.calls[k].id == id ==> s.calls[k].pc in {Start, Missed, Done(Missing)}
  }

  lemma StepStillMisses(s: State, a: Action, n: nat, id: string, k: nat)
    requires Created(s, id) && id !in s.tracked && AllMiss(s, n, id) && n <= |s.calls|
    requires n <= k < |Step(s, a).calls| && Step(s, a).calls[k].id == id
    ensures Step(s, a).calls[k].pc in {Start, Missed, Done(Missing)}
  {
    CallAfter(s, a, k);
  }

  lemma {:induction false} RunAllMiss(s: State, actions: seq<Action>, id: string)
    requires Created(s, id) && id !in s.tracked
    ensures AllMiss(Run(s, actions), |s.calls|, id)
    decreases |actions|
  {
    if actions != [] {
      var n := |actions| - 1;
      var t := Run(s, actions[..n]);
      RunAllMiss(s, actions[..n], id);
      RunMissesAreReal(s, actions[..n], id);
      forall k | |s.calls| <= k < |Step(t, actions[n]).calls| && Step(t, actions[n]).calls[k].id == id
        ensures Step(t, actions[n]).calls[k].pc in {Start, Missed, Done(Missing)}
      {
        StepStillMisses(t, actions[n], |s.calls|, id, k);
      }
    }
  }

  /**
   Not found is permanent.  Once a call begun after the id's Create returned has answered not
   found, or has deleted the session, every call on the id begun after that answer can only
   answer not found, whatever else goes on.
   */
  lemma NotFoundIsPermanent(s: State, actions: seq<Action>, k: nat, more: seq<Action>, j: nat)
    requires |s.calls| <= k < |Run(s, actions).calls| && SawItGone(Run(s, actions).calls[k])
    requires Created(s, Run(s, actions).calls[k].id)
    requires |Run(s, actions).calls| <= j < |Run(Run(s, actions), more).calls|
    requires Run(Run(s, actions), more).calls[j].id == Run(s, actions).calls[k].id
    requires Run(Run(s, actions), more).calls[j].pc.Done?
    ensures Run(Run(s, actions), more).calls[j].pc == Done(Missing)
  {
    var id := Run(s, actions).calls[k].id;
    RunMissesAreReal(s, actions, id);
    RunAllMiss(Run(s, actions), more, id);
  }

  /**
   A call begun before that is no such witness: it may look before Create stores the session and
   answer after Create returned, and the session is found by the next call.
   */
  lemma EarlyMissIsNotPermanent(s: State, id: string, template: string, at: Nanos) returns (missed: State, found: State)
    requires id !in s.used && Sound(s)
    ensures missed == Run(s, [CreateBegins(id, template, 0, 3600), CallBegins(Get, id), Load(|s.calls|),
                              CreateStores(id, at), Return(|s.calls|)])
    ensures found == Run(missed, [CallBegins(Connect, id), Load(|s.calls| + 1), Return(|s.calls| + 1)])
    ensures Created(missed, id) && |missed.calls| == |s.calls| + 1 && missed.calls[|s.calls|] == Call(Get, id, Done(Missing))
    ensures |found.calls| == |s.calls| + 2 && found.calls[|s.calls| + 1] == Call(Connect, id, Done(Succeeded))
  {
    var n := |s.calls|;
    var first := [CreateBegins(id, template, 0, 3600), CallBegins(Get, id), Load(n), CreateStores(id, at), Return(n)];
    var then_ := [CallBegins(Connect, id), Load(n + 1), Return(n + 1)];
    var t := RunStates(s, first);
    missed := t[5];
    assert t[4] == Step(Step(Step(Step(s, first[0]), first[1]), first[2]), first[3]);
    var u := RunStates(missed, then_);
    found := u[3];
    assert u[2] == Step(Step(missed, then_[0]), then_[1]);
  }

  /** The states a run goes through. */
  lemma {:induction false} RunStates(s: State, a: seq<Action>) returns (t: seq<State>)
    ensures |t| == |a| + 1 && t[0] == s && t[|a|] == Run(s, a)
    ensures forall i :: 0 <= i < |a| ==> t[i + 1] == Step(t[i], a[i])
    decreases |a|
  {
    t := [s];
    if a != [] {
      t := RunStates(s, a[..|a| - 1]);
      t := t + [Run(s, a)];
    }
  }

  /** One action of the newest call. */
  lemma StepOfNewest(s: State, others: seq<Call>, c: Call, a: Action) returns (c': Call, t: State)
    requires s.calls == others + [c] && CallAction(a) && a.k == |others|
    ensures c' == c.(pc := NextPc(c, a, s.tracked))
    ensures t == Step(s, a) && t.calls == others + [c'] && t.tracked == if Removes(c, a) then s.tracked - {c.id} else s.tracked
  {
    c', t := c.(pc := NextPc(c, a, s.tracked)), Step(s, a);
    assert s.calls[a.k] == c;
    assert (others + [c])[a.k := c'] == others + [c'];
  }

  /** All the actions of one call, in a row; those of the branches not taken change nothing. */
  function Alone(s: State, op: Op, id: string, at: Nanos, ok: bool): State {
    var n := |s.calls|;
    Run(s, [CallBegins(op, id), Load(n), CheckTtl(n, at), RemoteAnswers(n, ok), Erase(n), Return(n)])
  }

  /** The call answers `answer` and leaves `tracked`. */
  ghost predicate Ends(s: State, op: Op, id: string, at: Nanos, ok: bool, answer: Answer, tracked: map<string, Meta>) {
    var end := Alone(s, op, id, at, ok);
    end.calls == s.calls + [Call(op, id, Done(answer))] && end.tracked == tracked
  }

  lemma AloneSteps(s: State, op: Op, id: string, at: Nanos, ok: bool) returns (end: Call)
    ensures Alone(s, op, id, at, ok).calls == s.calls + [end]
    ensures var n := |s.calls|;
            var c1 := Call(op, id, if id in s.tracked then Loaded(s.tracked[id]) else Missed);
            var c2 := c1.(pc := NextPc(c1, CheckTtl(n, at), s.tracked));
            var c3 := c2.(pc := NextPc(c2, RemoteAnswers(n, ok), s.tracked));
            var c4 := c3.(pc := NextPc(c3, Erase(n), s.tracked));
            && end == c4.(pc := NextPc(c4, Return(n), s.tracked))
            && Alone(s, op, id, at, ok).tracked == if Removes(c3, Erase(n)) then s.tracked - {id} else s.tracked
  {
    var n := |s.calls|;
    var a := [CallBegins(op, id), Load(n), CheckTtl(n, at), RemoteAnswers(n, ok), Erase(n), Return(n)];
    var t := RunStates(s, a);
    assert t[1] == s.(calls := s.calls + [Call(op, id, Start)]) && t[1 + 1] == Step(t[1], a[1]) && t[2 + 1] == Step(t[2], a[2]);
    assert t[3 + 1] == Step(t[3], a[3]) && t[4 + 1] == Step(t[4], a[4]) && t[5 + 1] == Step(t[5], a[5]);
    var c := FirstSteps(t[1], s.calls, Call(op, id, Start), t[2], t[3], at);
    end := LastSteps(t[3], s.calls, c, t[4], t[5], t[6], ok);
  }

  lemma FirstSteps(s: State, others: seq<Call>, c: Call, t: State, u: State, at: Nanos) returns (end: Call)
    requires s.calls == others + [c]
    requires t == Step(s, Load(|others|)) && u == Step(t, CheckTtl(|others|, at))
    ensures var n := |others|;
            var c1 := c.(pc := NextPc(c, Load(n), s.tracked));
            && end == c1.(pc := NextPc(c1, CheckTtl(n, at), s.tracked))
            && u.calls == others + [end] && u.tracked == s.tracked
  {
    var c', w := StepOfNewest(s, others, c, Load(|others|));
    end, w := StepOfNewest(t, others, c', CheckTtl(|others|, at));
  }

  lemma LastSteps(s: State, others: seq<Call>, c: Call, t: State, u: State, v: State, ok: bool) returns (end: Call)
    requires s.calls == others + [c]
    requires var n := |others|; t == Step(s, RemoteAnswers(n, ok)) && u == Step(t, Erase(n)) && v == Step(u, Return(n))
    ensures var n := |others|;
            var c3 := c.(pc := NextPc(c, RemoteAnswers(n, ok), s.tracked));
            var c4 := c3.(pc := NextPc(c3, Erase(n), s.tracked));
            && end == c4.(pc := NextPc(c4, Return(n), s.tracked))
            && v.calls == others + [end]
            && v.tracked == if Removes(c3, Erase(n)) then s.tracked - {c.id} else s.tracked
  {
    var n := |others|;
    var c', w := StepOfNewest(s, others, c, RemoteAnswers(n, ok));
    c', w := StepOfNewest(t, others, c', Erase(n));
    end, w := StepOfNewest(u, others, c', Return(n));
  }

  /** A call that runs alone does what the provider's method promises. */
  lemma AloneAsPromised(s: State, id: string, at: Nanos, ok: bool)
    ensures id !in s.tracked || Expired(s.tracked[id], at) ==> Ends(s, Get, id, at, ok, Missing, s.tracked - {id})
    ensures id in s.tracked && !Expired(s.tracked[id], at) ==> Ends(s, Get, id, at, ok, if ok then Succeeded else Failed, s.tracked)
    ensures id !in s.tracked ==> Ends(s, Delete, id, at, ok, Missing, s.tracked)
    ensures id in s.tracked ==> Ends(s, Delete, id, at, ok, if ok then Succeeded else Failed, if ok then s.tracked - {id} else s.tracked)
    ensures Ends(s, Connect, id, at, ok, if id in s.tracked then Succeeded else Missing, s.tracked)
  {
    var g := AloneSteps(s, Get, id, at, ok);
    var d := AloneSteps(s, Delete, id, at, ok);
    var c := AloneSteps(s, Connect, id, at, ok);
  }

  /** A creation that runs alone does what the provider's Create promises, and one that fails leaves the map alone. */
  lemma CreateAlone(s: State, id: string, template: string, timeout: Nanos, defaultTtl: int, at: Nanos)
    requires id !in s.used && Sound(s)
    ensures var t := Run(s, [CreateBegins(id, template, timeout, defaultTtl), CreateStores(id, at)]);
            t.tracked == s.tracked[id := Meta(template, at, Ttl(defaultTtl, timeout))] && Created(t, id) && t.calls == s.calls
    ensures var t := Run(s, [CreateBegins(id, template, timeout, defaultTtl), CreateFails(id)]);
            t.tracked == s.tracked && Created(t, id) && t.calls == s.calls
  {
    var t := RunStates(s, [CreateBegins(id, template, timeout, defaultTtl), CreateStores(id, at)]);
    assert t[1 + 1] == Step(t[1], CreateStores(id, at));
    var u := RunStates(s, [CreateBegins(id, template, timeout, defaultTtl), CreateFails(id)]);
    assert u[1 + 1] == Step(u[1], CreateFails(id));
  }

  // ----- Exactly when not found is for good -----

  /** The j-th call after these actions, if it is on the id and has answered, answered not found. */
  ghost predicate OnlyMisses(s: State, id: string, actions: seq<Action>, j: nat) {
    var t := Run(s, actions);
    j < |t.calls| && t.calls[j].id == id && t.calls[j].pc.Done? ==> t.calls[j].pc == Done(Missing)
  }

  /** A tracked session is found by the next Connect. */
  lemma TrackedIsFound(s: State, id: string) returns (actions: seq<Action>)
    requires id in s.tracked
    ensures !OnlyMisses(s, id, actions, |s.calls|)
  {
    var n := |s.calls|;
    actions := [CallBegins(Connect, id), Load(n), Return(n)];
    var t := RunStates(s, actions);
    assert t[1].calls == s.calls + [Call(Connect, id, Start)] && t[1].tracked == s.tracked;
    var c, u := StepOfNewest(t[1], s.calls, Call(Connect, id, Start), Load(n));
    c, u := StepOfNewest(t[2], s.calls, c, Return(n));
  }

  /** A session still to be created can be found later. */
  lemma CreationIsFound(s: State, id: string) returns (actions: seq<Action>)
    requires id !in s.used || id in s.creating
    ensures !OnlyMisses(s, id, actions, |s.calls|)
  {
    var create := if id in s.creating then [CreateStores(id, 0)] else [CreateBegins(id, "", 0, 0), CreateStores(id, 0)];
    var t := RunStates(s, create);
    var more := TrackedIsFound(t[|create|], id);
    actions := create + more;
    RunJoins(s, create, more);
  }

  /**
   Every call on the id begun from now on, in every continuation, can only answer not found exactly
   when the id has been generated, its Create has returned, and it is not tracked.
   */
  lemma NotFoundForGoodIff(s: State, id: string)
    requires Sound(s)
    ensures (forall actions, j: nat :: |s.calls| <= j ==> OnlyMisses(s, id, actions, j)) <==> Created(s, id) && id !in s.tracked
  {
    if Created(s, id) && id !in s.tracked {
      forall actions, j: nat | |s.calls| <= j
        ensures OnlyMisses(s, id, actions, j)
      {
        RunAllMiss(s, actions, id);
      }
    } else if id in s.tracked {
      var actions := TrackedIsFound(s, id);
    } else {
      var actions := CreationIsFound(s, id);
    }
  }

  /** The last action of a prefix, and the rest of the run. */
  lemma OneMore(s: State, actions: seq<Action>, i: nat)
    requires i < |actions|
    ensures Run(s, actions[..i + 1]) == Step(Run(s, actions[..i]), actions[i])
    ensures Run(s, actions) == Run(Run(s, actions[..i + 1]), actions[i + 1..])
  {
    assert actions[..i + 1][..i] == actions[..i];
    assert actions == actions[..i + 1] + actions[i + 1..];
    RunJoins(s, actions[..i + 1], actions[i + 1..]);
  }

  lemma {:induction false} RunJoins(s: State, first: seq<Action>, second: seq<Action>)
    ensures Run(s, first + second) == Run(Run(s, first), second)
    decreases |second|
  {
    if second == [] {
      assert first + second == first;
    } else {
      var n := |second| - 1;
      RunJoins(s, first, second[..n]);
      assert (first + second)[..|first + second| - 1] == first + second[..n];
    }
  }
}
