/** How a session can be lost, and when it cannot. */
module FcLosses {
  import opened Wrappers
  import opened FcProvider
  import opened FcSessions

  /** What a call on the id knows about the session is true of it, for as long as it is tracked. */
  ghost predicate CallKnows(s: State, id: string, c: Call) {
    c.id == id
    ==> && (c.pc.Loaded? || c.pc.Expiring? ==> Created(s, id) && (id in s.tracked ==> c.pc.meta == s.tracked[id]))
        && (c.pc.Expiring? ==> c.op == Get && Expired(c.pc.meta, c.pc.at))
        && (c.pc.Removing? ==> c.op == Delete)
  }

  /** What a listing has seen of the session is true of it, for as long as it is tracked. */
  ghost predicate ListKnows(s: State, id: string, x: Listing) {
    id in x.seen ==> Created(s, id) && (id in s.tracked ==> x.seen[id] == s.tracked[id])
  }

  ghost predicate CallsKnow(s: State, id: string) {
    forall k :: 0 <= k < |s.calls| ==> CallKnows(s, id, s.calls[k])
  }

  ghost predicate ListsKnow(s: State, id: string) {
    forall l :: 0 <= l < |s.lists| ==> ListKnows(s, id, s.lists[l])
  }

  ghost predicate Known(s: State, id: string) {
    Sound(s) && CallsKnow(s, id) && ListsKnow(s, id)
  }

  /** Ids stay created, and the session of a created id stays what it is or goes. */
  lemma StepOnSession(s: State, a: Action, id: string)
    requires Sound(s)
    ensures Sound(Step(s, a))
    ensures Created(s, id) ==> Created(Step(s, a), id)
    ensures Created(s, id) && id in Step(s, a).tracked ==> id in s.tracked && Step(s, a).tracked[id] == s.tracked[id]
    ensures id in s.tracked ==> Created(s, id)
  {
  }

  lemma CallStillKnows(s: State, a: Action, id: string, k: nat)
    requires Known(s, id) && k < |Step(s, a).calls|
    ensures CallKnows(Step(s, a), id, Step(s, a).calls[k])
  {
    StepOnSession(s, a, id);
    CallAfter(s, a, k);
    if k < |s.calls| { assert CallKnows(s, id, s.calls[k]); }
  }

  lemma CallsStillKnow(s: State, a: Action, id: string)
    requires Known(s, id)
    ensures CallsKnow(Step(s, a), id)
  {
    forall k | 0 <= k < |Step(s, a).calls|
      ensures CallKnows(Step(s, a), id, Step(s, a).calls[k])
    {
      CallStillKnows(s, a, id, k);
    }
  }

  lemma ListsStillKnow(s: State, a: Action, id: string)
    requires Known(s, id)
    ensures ListsKnow(Step(s, a), id)
  {
    var t := Step(s, a);
    StepOnSession(s, a, id);
    forall l | 0 <= l < |t.lists|
      ensures ListKnows(t, id, t.lists[l])
    {
      if l < |s.lists| { assert ListKnows(s, id, s.lists[l]); }
    }
  }

  lemma StepKnows(s: State, a: Action, id: string)
    requires Known(s, id)
    ensures Known(Step(s, a), id)
  {
    StepOnSession(s, a, id);
    CallsStillKnow(s, a, id);
    ListsStillKnow(s, a, id);
  }

  lemma {:induction false} RunKnows(s: State, actions: seq<Action>, id: string)
    requires Known(s, id)
    ensures Known(Run(s, actions), id)
    decreases |actions|
  {
    if actions != [] {
      var n := |actions| - 1;
      RunKnows(s, actions[..n], id);
      StepKnows(Run(s, actions[..n]), actions[n], id);
    }
  }

  /** Whatever is done from the start on. */
  lemma EveryRunKnows(actions: seq<Action>, id: string)
    ensures Known(Run(IDLE, actions), id)
  {
    RunKnows(IDLE, actions, id);
  }

  /**
   Why an action makes a tracked session go: a Get saw it past its time-to-live, the remote side
   accepted its deletion, the remote side reported it ended to a listing, or a listing that had seen
   it found it past its time-to-live. The time-to-live is the session's own.
   */
  ghost predicate Cause(s: State, a: Action, id: string)
    requires id in s.tracked
  {
    match a
    case Erase(k) =>
      && k < |s.calls| && s.calls[k].id == id
      && var c := s.calls[k];
         (c.op == Get && c.pc.Expiring? && Expired(s.tracked[id], c.pc.at)) || (c.op == Delete && c.pc.Removing?)
    case ListReported(l, x, ended) =>
      x == id && l < |s.lists| && s.lists[l].now.Some? && (ended || FoundExpired(s, l, id))
    case ListUnseen(l, x) => x == id && l < |s.lists| && id !in s.lists[l].reported && FoundExpired(s, l, id)
    case _ => false
  }

  ghost predicate FoundExpired(s: State, l: nat, id: string)
    requires l < |s.lists| && id in s.tracked
  {
    var x := s.lists[l];
    id in x.seen && x.now.Some? && Expired(s.tracked[id], x.now.value)
  }

  /** A step takes a tracked session away exactly when it has such a cause, and otherwise leaves it as it is. */
  lemma StepLosesIff(s: State, a: Action, id: string)
    requires Known(s, id) && id in s.tracked
    ensures id !in Step(s, a).tracked <==> Cause(s, a, id)
    ensures id in Step(s, a).tracked ==> Step(s, a).tracked[id] == s.tracked[id]
  {
    StepOnSession(s, a, id);
    match a {
      case Erase(k) => if k < |s.calls| { assert CallKnows(s, id, s.calls[k]); }
      case ListReported(l, _, _) => if l < |s.lists| { assert ListKnows(s, id, s.lists[l]); }
      case ListUnseen(l, _) => if l < |s.lists| { assert ListKnows(s, id, s.lists[l]); }
      case _ =>
    }
  }

  /** The i-th action takes the session away, which until then is what it was. */
  ghost predicate LostAt(s: State, actions: seq<Action>, i: nat, id: string)
    requires i < |actions| && id in s.tracked
  {
    var t := Run(s, actions[..i]);
    id in t.tracked && t.tracked[id] == s.tracked[id] && Cause(t, actions[i], id)
  }

  /** Over every run a tracked session is lost exactly when some action takes it away for such a cause. */
  lemma {:induction false} LossHasACause(s: State, actions: seq<Action>, id: string)
    requires Known(s, id) && id in s.tracked
    ensures id in Run(s, actions).tracked ==> Run(s, actions).tracked[id] == s.tracked[id]
    ensures id !in Run(s, actions).tracked <==> exists i :: 0 <= i < |actions| && LostAt(s, actions, i, id)
    decreases |actions|
  {
    if actions != [] {
      var n := |actions| - 1;
      var t := Run(s, actions[..n]);
      LossHasACause(s, actions[..n], id);
      RunKnows(s, actions[..n], id);
      LostEarlier(s, actions, id);
      if id in t.tracked {
        StepLosesIff(t, actions[n], id);
      } else {
        StepOnSession(s, ListBegins, id);
        RunMissesAreReal(s, actions[..n], id);
        StepOnSession(t, actions[n], id);
      }
      assert LostAt(s, actions, n, id) <==> id in t.tracked && Cause(t, actions[n], id);
    }
  }

  lemma LostEarlier(s: State, actions: seq<Action>, id: string)
    requires actions != [] && id in s.tracked
    ensures var n := |actions| - 1;
            forall i :: 0 <= i < n ==> (LostAt(s, actions, i, id) <==> LostAt(s, actions[..n], i, id))
  {
    var n := |actions| - 1;
    forall i | 0 <= i < n
      ensures LostAt(s, actions, i, id) <==> LostAt(s, actions[..n], i, id)
    {
      assert actions[..n][..i] == actions[..i];
    }
  }

  /** Nobody is about to remove the session: no call on it, and no listing that is already under way. */
  ghost predicate Calm(s: State, id: string)
    requires id in s.tracked
  {
    && (forall k :: 0 <= k < |s.calls| && s.calls[k].id == id ==> !s.calls[k].pc.Expiring? && !s.calls[k].pc.Removing?)
    && (forall l :: 0 <= l < |s.lists| && s.lists[l].now.Some? ==> !Expired(s.tracked[id], s.lists[l].now.value))
  }

  /** The action reads no time past the session's time-to-live, accepts no deletion of it and does not report it ended. */
  ghost predicate Gentle(s: State, a: Action, id: string, m: Meta) {
    match a
    case CheckTtl(_, at) => !Expired(m, at)
    case ListStarts(_, at) => !Expired(m, at)
    case ListReported(_, x, ended) => !(x == id && ended)
    case RemoteAnswers(k, ok) => !(ok && k < |s.calls| && s.calls[k].id == id && s.calls[k].op == Delete && s.calls[k].pc.Loaded?)
    case _ => true
  }

  lemma GentleStep(s: State, a: Action, id: string)
    requires Known(s, id) && id in s.tracked && Calm(s, id) && Gentle(s, a, id, s.tracked[id])
    ensures id in Step(s, a).tracked && Step(s, a).tracked[id] == s.tracked[id]
  {
    StepLosesIff(s, a, id);
  }

  lemma CallsStayCalm(s: State, a: Action, id: string)
    requires Known(s, id) && id in s.tracked && Calm(s, id) && Gentle(s, a, id, s.tracked[id])
    ensures var t := Step(s, a);
            forall k :: 0 <= k < |t.calls| && t.calls[k].id == id ==> !t.calls[k].pc.Expiring? && !t.calls[k].pc.Removing?
  {
    var t := Step(s, a);
    forall k | 0 <= k < |t.calls| && t.calls[k].id == id
      ensures !t.calls[k].pc.Expiring? && !t.calls[k].pc.Removing?
    {
      CallAfter(s, a, k);
      if k < |s.calls| { assert CallKnows(s, id, s.calls[k]); }
    }
  }

  lemma StaysCalm(s: State, a: Action, id: string)
    requires Known(s, id) && id in s.tracked && Calm(s, id) && Gentle(s, a, id, s.tracked[id])
    ensures id in Step(s, a).tracked && Calm(Step(s, a), id)
  {
    GentleStep(s, a, id);
    CallsStayCalm(s, a, id);
  }

  /**
   A live session survives every interleaving with calls and listings, and stays what it is, as
   long as nobody reads a time past its time-to-live, the remote side accepts no deletion of it and
   never reports it ended.
   */
  lemma {:induction false} LiveSessionSurvives(s: State, actions: seq<Action>, id: string)
    requires Known(s, id) && id in s.tracked && Calm(s, id)
    requires forall i :: 0 <= i < |actions| ==> Gentle(Run(s, actions[..i]), actions[i], id, s.tracked[id])
    ensures var t := Run(s, actions); id in t.tracked && t.tracked[id] == s.tracked[id] && Calm(t, id)
    decreases |actions|
  {
    if actions != [] {
      var n := |actions| - 1;
      forall i | 0 <= i < n
        ensures Gentle(Run(s, actions[..n][..i]), actions[..n][i], id, s.tracked[id])
      {
        assert actions[..n][..i] == actions[..i];
      }
      LiveSessionSurvives(s, actions[..n], id);
      RunKnows(s, actions[..n], id);
      assert Gentle(Run(s, actions[..n]), actions[n], id, s.tracked[id]);
      GentleStep(Run(s, actions[..n]), actions[n], id);
      StaysCalm(Run(s, actions[..n]), actions[n], id);
    }
  }

  /** The call has removed its session, and has not answered or answered as if it was gone. */
  predicate HasRemoved(c: Call) {
    c.pc in {Erased, Done(Missing), Done(Succeeded)}
  }

  lemma RemovalStandsStep(s: State, a: Action, k: nat)
    requires k < |s.calls| && HasRemoved(s.calls[k])
    ensures k < |Step(s, a).calls| && HasRemoved(Step(s, a).calls[k])
  {
    CallsKept(s, a);
    CallAfter(s, a, k);
  }

  lemma CallsKept(s: State, a: Action)
    ensures |s.calls| <= |Step(s, a).calls|
  {
  }

  lemma {:induction false} RemovalStands(s: State, actions: seq<Action>, k: nat)
    requires k < |s.calls| && HasRemoved(s.calls[k])
    ensures k < |Run(s, actions).calls| && HasRemoved(Run(s, actions).calls[k])
    decreases |actions|
  {
    if actions != [] {
      var n := |actions| - 1;
      RemovalStands(s, actions[..n], k);
      RemovalStandsStep(Run(s, actions[..n]), actions[n], k);
    }
  }

  /** A call that answers failure has removed nothing: none of its steps erased a session. */
  lemma FailedCallKeepsTheSession(s: State, actions: seq<Action>, k: nat, i: nat)
    requires k < |Run(s, actions).calls| && Run(s, actions).calls[k].pc == Done(Failed)
    requires i < |actions| && actions[i] == Erase(k) && k < |Run(s, actions[..i]).calls|
    ensures !Removes(Run(s, actions[..i]).calls[k], Erase(k))
    ensures Run(s, actions[..i + 1]).tracked == Run(s, actions[..i]).tracked
  {
    OneMore(s, actions, i);
    if Removes(Run(s, actions[..i]).calls[k], Erase(k)) {
      RemovalStands(Run(s, actions[..i + 1]), actions[i + 1..], k);
    }
  }
}
