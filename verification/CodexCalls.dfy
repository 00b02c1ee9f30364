/** A Call of the Codex transports from its caller's side: what each outcome says about the run, that a response
    finds the Call that waits for it, and that no interleaving keeps a Call from returning. */
module CodexCalls {
  import opened Common
  import opened CodexTransport
  import opened CodexInvariant
  import opened CodexDelivery
  import opened CodexNilReply

  // ---------------------------------------------------------------- what an outcome says

  /** Refused by a closed transport before an id was issued. */
  predicate Refused(call: Call) {
    call.id == 0 && call.phase == Returned(TransportClosed)
  }

  predicate Written(actions: seq<Action>, c: nat) {
    Write(c, true) in actions
  }

  /** What must have happened for the outcome. */
  predicate Explained(actions: seq<Action>, c: nat, o: Outcome) {
    match o
    case WriteFailed => Write(c, false) in actions
    case TimedOut => Written(actions, c) && Expire(c) in actions
    case Cancelled => Written(actions, c) && Cancel(c) in actions
    case TransportClosed => Written(actions, c) && SeeClose(c) in actions
    case Reply(_) => Written(actions, c) && Receive(c) in actions
    case NilReply => Written(actions, c) && Receive(c) in actions
  }

  predicate Told(actions: seq<Action>, c: nat, call: Call) {
    match call.phase
    case Returning(o) => Explained(actions, c, o)
    case Returned(o) => Refused(call) || Explained(actions, c, o)
    case Waiting => Written(actions, c)
    case _ => Write(c, true) !in actions && Write(c, false) !in actions
  }

  /** An action of a Call, and the Call. */
  predicate ActsFor(a: Action, c: nat) {
    match a
    case Enter(x) => x == c
    case Issue(x) => x == c
    case Register(x) => x == c
    case Write(x, _) => x == c
    case Receive(x) => x == c
    case Expire(x) => x == c
    case Cancel(x) => x == c
    case SeeClose(x) => x == c
    case Unregister(x) => x == c
    case _ => false
  }

  predicate SamePhase(s: State, t: State, c: nat) {
    && (c in t.calls <==> c in s.calls)
    && (c in s.calls ==> t.calls[c].phase == s.calls[c].phase && t.calls[c].id == s.calls[c].id)
  }

  lemma ClosersKeepThePhase(v: Variant, s: State, a: Action, c: nat)
    requires CloseStep(v, s, a).Some?
    ensures SamePhase(s, CloseStep(v, s, a).value, c)
  {
  }

  lemma DispatchesKeepThePhase(s: State, a: Action, c: nat)
    requires DispatchStep(s, a).Some?
    ensures SamePhase(s, DispatchStep(s, a).value, c)
  {
  }

  lemma OtherCallsKeepThePhase(s: State, a: Action, c: nat)
    requires !ActsFor(a, c)
    ensures StartStep(s, a).Some? ==> SamePhase(s, StartStep(s, a).value, c)
    ensures WaitStep(s, a).Some? ==> SamePhase(s, WaitStep(s, a).value, c)
  {
  }

  lemma OthersKeepThePhase(v: Variant, s: State, a: Action, c: nat)
    requires Step(v, s, a).Some? && !ActsFor(a, c)
    ensures SamePhase(s, Step(v, s, a).value, c)
  {
    if a.Take? || a.Deliver? {
      DispatchesKeepThePhase(s, a, c);
    } else if CloseStep(v, s, a).Some? {
      ClosersKeepThePhase(v, s, a, c);
    } else {
      OtherCallsKeepThePhase(s, a, c);
    }
  }

  predicate AllTold(actions: seq<Action>, s: State, c: nat) {
    if c in s.calls then Told(actions, c, s.calls[c]) else Write(c, true) !in actions && Write(c, false) !in actions
  }

  lemma StartTells(before: seq<Action>, s: State, a: Action, c: nat)
    requires StartStep(s, a).Some? && ActsFor(a, c) && AllTold(before, s, c)
    ensures AllTold(before + [a], StartStep(s, a).value, c)
  {
  }

  lemma WaitTells(before: seq<Action>, s: State, a: Action, c: nat)
    requires WaitStep(s, a).Some? && ActsFor(a, c) && AllTold(before, s, c)
    ensures AllTold(before + [a], WaitStep(s, a).value, c)
  {
    assert a in before + [a];
  }

  lemma OthersTell(before: seq<Action>, a: Action, s: State, t: State, c: nat)
    requires !ActsFor(a, c) && SamePhase(s, t, c) && AllTold(before, s, c)
    ensures AllTold(before + [a], t, c)
  {
  }

  lemma StepTells(v: Variant, before: seq<Action>, s: State, a: Action, c: nat)
    requires Step(v, s, a).Some? && AllTold(before, s, c)
    ensures AllTold(before + [a], Step(v, s, a).value, c)
  {
    if !ActsFor(a, c) {
      OthersKeepThePhase(v, s, a, c);
      OthersTell(before, a, s, Step(v, s, a).value, c);
    } else if a.Enter? || a.Issue? || a.Register? {
      StartTells(before, s, a, c);
    } else {
      WaitTells(before, s, a, c);
    }
  }

  /** How every Call of every run stands: before its request is written, waiting with the request written, or
      ended by the event that its outcome names. */
  lemma {:induction false} OutcomeTellsWhatHappened(v: Variant, actions: seq<Action>, c: nat)
    requires Run(v, Initial, actions).Some?
    ensures AllTold(actions, Run(v, Initial, actions).value, c)
  {
    if actions != [] {
      var before, a := actions[..|actions| - 1], actions[|actions| - 1];
      OutcomeTellsWhatHappened(v, before, c);
      StepTells(v, before, Run(v, Initial, before).value, a, c);
      assert actions == before + [a];
    }
  }

  // ---------------------------------------------------------------- after Close

  lemma StaysClosed(v: Variant, s: State, a: Action)
    requires s.closed && Step(v, s, a).Some?
    ensures Step(v, s, a).value.closed
  {
  }

  /** A Call that enters once the transport is closed is refused, without an id and without a write. */
  lemma {:induction false} CallAfterCloseIsRefused(v: Variant, s: State, more: seq<Action>, c: nat)
    requires s.closed && c !in s.calls && Run(v, s, more).Some?
    ensures Run(v, s, more).value.closed
    ensures c in Run(v, s, more).value.calls ==> Refused(Run(v, s, more).value.calls[c])
  {
    if more != [] {
      var before, a := more[..|more| - 1], more[|more| - 1];
      CallAfterCloseIsRefused(v, s, before, c);
      var t := Run(v, s, before).value;
      StaysClosed(v, t, a);
      if !ActsFor(a, c) {
        OthersKeepThePhase(v, t, a, c);
      }
    }
  }

  // ---------------------------------------------------------------- a response finds its Call

  ghost predicate HeldFor(s: State, c: nat) {
    exists d :: d in s.sends && s.sends[d].call == c
  }

  /** The Call can still be answered: nothing has been sent to it or is on its way. */
  ghost predicate Unanswered(s: State, c: nat) {
    && c in s.calls && (s.calls[c].phase.Registered? || s.calls[c].phase.Waiting?)
    && s.calls[c].delivered == [] && !HeldFor(s, c)
  }

  ghost predicate Findable(s: State, c: nat) {
    !s.closed && Unanswered(s, c) ==> s.calls[c].id in s.pending && s.pending[s.calls[c].id] == c
  }

  lemma TakeKeepsFindable(v: Variant, s: State, a: Action, c: nat)
    requires Findable(s, c) && a.Take? && DispatchStep(s, a).Some?
    ensures Findable(DispatchStep(s, a).value, c)
  {
    var t := DispatchStep(s, a).value;
    if t != s {
      assert forall d :: d in s.sends ==> d in t.sends && t.sends[d] == s.sends[d];
      assert a.d in t.sends && t.sends[a.d].call == s.pending[a.message.id.value];
    }
  }

  lemma DeliverKeepsFindable(v: Variant, s: State, a: Action, c: nat)
    requires Inv(v, s) && Findable(s, c) && a.Deliver? && a.d in s.sends
    ensures DispatchStep(s, a).Some? ==> Findable(DispatchStep(s, a).value, c)
  {
    var call := DeliverStep(v, s, a.d);
    var t := DispatchStep(s, a).value;
    forall d | d in s.sends && s.sends[d].call == c ensures HeldFor(t, c) || t.calls[c].delivered != [] {
      assert d != a.d ==> d in t.sends && t.sends[d] == s.sends[d];
    }
  }

  lemma CloseKeepsFindable(v: Variant, s: State, a: Action, c: nat)
    requires Inv(v, s) && Findable(s, c) && CloseStep(v, s, a).Some?
    ensures Findable(CloseStep(v, s, a).value, c)
  {
    var t := CloseStep(v, s, a).value;
    assert !t.closed ==> t.pending == s.pending && t.calls == s.calls && t.sends == s.sends;
  }

  lemma StartKeepsFindable(v: Variant, s: State, a: Action, c: nat)
    requires Inv(v, s) && Findable(s, c) && StartStep(s, a).Some?
    ensures Findable(StartStep(s, a).value, c)
  {
    var t := StartStep(s, a).value;
    assert t.sends == s.sends && (HeldFor(t, c) <==> HeldFor(s, c));
    if a.c != c && c in s.calls && a.Register? {
      assert CallOk(v, s, s.calls[c]) && CallOk(v, s, s.calls[a.c]);
    }
  }

  lemma WaitKeepsFindable(v: Variant, s: State, a: Action, c: nat)
    requires Inv(v, s) && Findable(s, c) && WaitStep(s, a).Some?
    ensures Findable(WaitStep(s, a).value, c)
  {
    var t := WaitStep(s, a).value;
    assert t.sends == s.sends && (HeldFor(t, c) <==> HeldFor(s, c));
    if a.c != c && c in s.calls {
      assert CallOk(v, s, s.calls[c]) && CallOk(v, s, s.calls[a.c]);
    }
  }

  lemma StepKeepsFindable(v: Variant, s: State, a: Action, c: nat)
    requires Inv(v, s) && Findable(s, c) && Step(v, s, a).Some?
    ensures Findable(Step(v, s, a).value, c)
  {
    if a.Take? {
      TakeKeepsFindable(v, s, a, c);
    } else if a.Deliver? {
      DeliverKeepsFindable(v, s, a, c);
    } else if CloseStep(v, s, a).Some? {
      CloseKeepsFindable(v, s, a, c);
    } else if StartStep(s, a).Some? {
      StartKeepsFindable(v, s, a, c);
    } else {
      WaitKeepsFindable(v, s, a, c);
    }
  }

  lemma {:induction false} RunKeepsFindable(v: Variant, actions: seq<Action>, c: nat)
    requires Run(v, Initial, actions).Some?
    ensures Findable(Run(v, Initial, actions).value, c)
  {
    if actions != [] {
      var before, a := actions[..|actions| - 1], actions[|actions| - 1];
      var s := Run(v, Initial, before).value;
      RunKeepsFindable(v, before, c);
      InitialInv(v);
      RunKeepsInv(v, Initial, before);
      StepKeepsFindable(v, s, a, c);
    }
  }

  lemma TakenForItsCall(v: Variant, s: State, c: nat, d: nat, payload: string)
    requires Inv(v, s) && Findable(s, c) && !s.closed && Unanswered(s, c) && d !in s.sends
    ensures var id := s.calls[c].id;
            var t := Step(v, s, Take(d, Message(Some(id), "", payload)));
            && id in s.pending && s.pending[id] == c
            && t.Some? && t.value.sends == s.sends[d := Send(c, Response(id, payload))]
  {
    assert s.lock.None?;
  }

  /** While the transport is open, the first response frame with the id of a Call that is registered or waiting
      is taken for that Call, and no later interleaving loses it. */
  lemma ResponseFindsItsCall(v: Variant, actions: seq<Action>, s: State, c: nat, d: nat, payload: string,
                             more: seq<Action>)
    requires Run(v, Initial, actions) == Some(s) && !s.closed && Unanswered(s, c) && d !in s.sends
    ensures var id := s.calls[c].id;
            var t := Step(v, s, Take(d, Message(Some(id), "", payload)));
            && t.Some? && t.value.sends == s.sends[d := Send(c, Response(id, payload))]
            && (Run(v, t.value, more).Some? ==>
                  HeldOrDelivered(Run(v, t.value, more).value, d, c, Response(id, payload)))
  {
    var m := Message(Some(s.calls[c].id), "", payload);
    RunKeepsFindable(v, actions, c);
    InitialInv(v);
    RunKeepsInv(v, Initial, actions);
    TakenForItsCall(v, s, c, d, payload);
    if Run(v, Step(v, s, Take(d, m)).value, more).Some? {
      MatchedResponseIsNeverLost(v, s, d, m, more);
    }
  }

  // ---------------------------------------------------------------- every Call can return

  ghost predicate CanReturn(v: Variant, s: State, c: nat) {
    exists more :: Returns(v, s, more, c)
  }

  predicate Returns(v: Variant, s: State, more: seq<Action>, c: nat) {
    var t := Run(v, s, more);
    t.Some? && c in t.value.calls && t.value.calls[c].phase.Returned?
  }

  lemma CanReturnAfter(v: Variant, s: State, a: Action, c: nat)
    requires Step(v, s, a).Some? && CanReturn(v, Step(v, s, a).value, c)
    ensures CanReturn(v, s, c)
  {
    var more :| Returns(v, Step(v, s, a).value, more, c);
    RunCons(v, s, a, more);
    assert Returns(v, s, [a] + more, c);
  }

  lemma ReturnedCanReturn(v: Variant, s: State, c: nat)
    requires c in s.calls && s.calls[c].phase.Returned?
    ensures CanReturn(v, s, c)
  {
    assert Returns(v, s, [], c);
  }

  /** What a Call can do next when nobody holds the lock: a write that fails or a timer brings it on. */
  function NextAction(c: nat, p: Phase): Action {
    match p
    case Entered => Issue(c)
    case Issued => Register(c)
    case Registered => Write(c, false)
    case Waiting => Expire(c)
    case _ => Unregister(c)
  }

  function StepsLeft(p: Phase): nat {
    match p
    case Entered => 5
    case Issued => 4
    case Registered => 3
    case Waiting => 2
    case Returning(_) => 1
    case Returned(_) => 0
  }

  predicate Advances(s: State, t: Option<State>, c: nat)
    requires c in s.calls
  {
    && t.Some? && t.value.fault.None? && t.value.lock.None? && c in t.value.calls
    && StepsLeft(t.value.calls[c].phase) < StepsLeft(s.calls[c].phase)
  }

  lemma StartAdvances(s: State, c: nat)
    requires s.fault.None? && s.lock.None? && c in s.calls && (s.calls[c].phase.Entered? || s.calls[c].phase.Issued?)
    ensures Advances(s, StartStep(s, NextAction(c, s.calls[c].phase)), c)
  {
  }

  lemma WaitAdvances(s: State, c: nat)
    requires s.fault.None? && s.lock.None? && c in s.calls
    requires s.calls[c].phase.Registered? || s.calls[c].phase.Waiting? || s.calls[c].phase.Returning?
    ensures Advances(s, WaitStep(s, NextAction(c, s.calls[c].phase)), c)
  {
  }

  lemma NextActionAdvances(v: Variant, s: State, c: nat)
    requires s.fault.None? && s.lock.None? && c in s.calls && !s.calls[c].phase.Returned?
    ensures Advances(s, Step(v, s, NextAction(c, s.calls[c].phase)), c)
  {
    if s.calls[c].phase.Entered? || s.calls[c].phase.Issued? {
      StartAdvances(s, c);
    } else {
      WaitAdvances(s, c);
    }
  }

  lemma {:induction false} UnlockedCanReturn(v: Variant, s: State, c: nat)
    requires s.fault.None? && s.lock.None? && c in s.calls
    ensures CanReturn(v, s, c)
    decreases StepsLeft(s.calls[c].phase)
  {
    if s.calls[c].phase.Returned? {
      ReturnedCanReturn(v, s, c);
    } else {
      var a := NextAction(c, s.calls[c].phase);
      NextActionAdvances(v, s, c);
      UnlockedCanReturn(v, Step(v, s, a).value, c);
      CanReturnAfter(v, s, a, c);
    }
  }

  lemma {:induction false} LockedCanReturn(v: Variant, s: State, k: nat, c: nat)
    requires Inv(v, s) && s.lock == Some(k) && c in s.calls
    ensures CanReturn(v, s, c)
    decreases |s.pending|
  {
    if s.pending == map[] {
      UnlockedCanReturn(v, Step(v, s, Unlock(k)).value, c);
      CanReturnAfter(v, s, Unlock(k), c);
    } else {
      var id := Pick(s.pending.Keys);
      StepKeepsInv(v, s, Drain(k, id));
      var t := Step(v, s, Drain(k, id)).value;
      assert t.pending.Keys == s.pending.Keys - {id};
      LockedCanReturn(v, t, k, c);
      CanReturnAfter(v, s, Drain(k, id), c);
    }
  }

  /** A waiting Call always has a way out: its timer, its context and, once Close has signalled, the close. */
  lemma EveryWaitHasAWayOut(v: Variant, s: State, c: nat)
    requires s.fault.None? && InPhase(s, c, Waiting)
    ensures Step(v, s, Expire(c)) == Some(SetPhase(s, c, Returning(TimedOut)))
    ensures Step(v, s, Cancel(c)) == Some(SetPhase(s, c, Returning(Cancelled)))
    ensures Step(v, s, SeeClose(c)) == if s.signalled then Some(SetPhase(s, c, Returning(TransportClosed))) else None
  {
  }

  /** A transport with one Call, whose id is 1. */
  function Single(phase: Phase, pending: map<int, nat>, sends: map<nat, Send>, buffer: seq<Response>,
                  delivered: seq<Response>): State
  {
    Initial.(nextId := 1, pending := pending, sends := sends,
             calls := map[0 := Call(1, phase, buffer, false, delivered)])
  }

  lemma OneMore(v: Variant, actions: seq<Action>, s: State, a: Action, t: State)
    requires Run(v, Initial, actions) == Some(s) && Step(v, s, a) == Some(t)
    ensures Run(v, Initial, actions + [a]) == Some(t)
  {
    RunSnoc(v, Initial, actions, a);
  }

  /** A step, told by the parts of the state it leads to. */
  lemma StepsTo(v: Variant, s: State, a: Action, t: State)
    requires Step(v, s, a).Some?
    requires var u := Step(v, s, a).value;
             && u.calls == t.calls && u.pending == t.pending && u.sends == t.sends
             && u.(calls := t.calls, pending := t.pending, sends := t.sends) == t
    ensures Step(v, s, a) == Some(t)
  {
  }

  lemma CallStarts(v: Variant)
    ensures Step(v, Initial, Enter(0)) == Some(Initial.(calls := map[0 := Call(0, Entered, [], false, [])]))
    ensures Step(v, Initial.(calls := map[0 := Call(0, Entered, [], false, [])]), Issue(0))
         == Some(Single(Issued, map[], map[], [], []))
  {
    var entered := Initial.(calls := map[0 := Call(0, Entered, [], false, [])]);
    StepsTo(v, Initial, Enter(0), entered);
    StepsTo(v, entered, Issue(0), Single(Issued, map[], map[], [], []));
  }

  lemma CallIsWritten(v: Variant)
    ensures Step(v, Single(Issued, map[], map[], [], []), Register(0))
         == Some(Single(Registered, map[1 := 0], map[], [], []))
    ensures Step(v, Single(Registered, map[1 := 0], map[], [], []), Write(0, true))
         == Some(Single(Waiting, map[1 := 0], map[], [], []))
  {
    StepsTo(v, Single(Issued, map[], map[], [], []), Register(0), Single(Registered, map[1 := 0], map[], [], []));
    StepsTo(v, Single(Registered, map[1 := 0], map[], [], []), Write(0, true),
            Single(Waiting, map[1 := 0], map[], [], []));
  }

  lemma CallIsAnswered(v: Variant, r: Response)
    requires r.id == 1
    ensures Step(v, Single(Waiting, map[1 := 0], map[], [], []), Take(0, Message(Some(1), "", r.payload)))
         == Some(Single(Waiting, map[], map[0 := Send(0, r)], [], []))
    ensures Step(v, Single(Waiting, map[], map[0 := Send(0, r)], [], []), Deliver(0))
         == Some(Single(Waiting, map[], map[], [r], [r]))
  {
    StepsTo(v, Single(Waiting, map[1 := 0], map[], [], []), Take(0, Message(Some(1), "", r.payload)),
            Single(Waiting, map[], map[0 := Send(0, r)], [], []));
    assert [] + [r] == [r];
    StepsTo(v, Single(Waiting, map[], map[0 := Send(0, r)], [], []), Deliver(0),
            Single(Waiting, map[], map[], [r], [r]));
  }

  lemma CallReturns(v: Variant, r: Response)
    requires r.id == 1
    ensures Step(v, Single(Waiting, map[], map[], [r], [r]), Receive(0))
         == Some(Single(Returning(Reply(r)), map[], map[], [], [r]))
    ensures Step(v, Single(Returning(Reply(r)), map[], map[], [], [r]), Unregister(0))
         == Some(Single(Returned(Reply(r)), map[], map[], [], [r]))
  {
    assert [r][1..] == [];
    StepsTo(v, Single(Waiting, map[], map[], [r], [r]), Receive(0),
            Single(Returning(Reply(r)), map[], map[], [], [r]));
    StepsTo(v, Single(Returning(Reply(r)), map[], map[], [], [r]), Unregister(0),
            Single(Returned(Reply(r)), map[], map[], [], [r]));
  }

  /** The undisturbed course of a Call ends in its reply. */
  lemma CallsCanSucceed(v: Variant, payload: string) returns (actions: seq<Action>, s: State)
    ensures Run(v, Initial, actions) == Some(s) && InPhase(s, 0, Returned(Reply(Response(1, payload))))
  {
    actions := CallCanWait(v);
    var r, take := Response(1, payload), Take(0, Message(Some(1), "", payload));
    CallIsAnswered(v, r);
    CallReturns(v, r);
    var waiting := Single(Waiting, map[1 := 0], map[], [], []);
    var taken := Single(Waiting, map[], map[0 := Send(0, r)], [], []);
    var delivered := Single(Waiting, map[], map[], [r], [r]);
    var received := Single(Returning(Reply(r)), map[], map[], [], [r]);
    s := Single(Returned(Reply(r)), map[], map[], [], [r]);
    OneMore(v, actions, waiting, take, taken);
    OneMore(v, actions + [take], taken, Deliver(0), delivered);
    OneMore(v, actions + [take] + [Deliver(0)], delivered, Receive(0), received);
    OneMore(v, actions + [take] + [Deliver(0)] + [Receive(0)], received, Unregister(0), s);
    actions := actions + [take] + [Deliver(0)] + [Receive(0)] + [Unregister(0)];
  }

  lemma CallCanWait(v: Variant) returns (actions: seq<Action>)
    ensures Run(v, Initial, actions) == Some(Single(Waiting, map[1 := 0], map[], [], []))
  {
    CallStarts(v);
    CallIsWritten(v);
    var entered := Initial.(calls := map[0 := Call(0, Entered, [], false, [])]);
    var issued, registered := Single(Issued, map[], map[], [], []), Single(Registered, map[1 := 0], map[], [], []);
    OneMore(v, [], Initial, Enter(0), entered);
    OneMore(v, [] + [Enter(0)], entered, Issue(0), issued);
    OneMore(v, [] + [Enter(0)] + [Issue(0)], issued, Register(0), registered);
    actions := [] + [Enter(0)] + [Issue(0)] + [Register(0)] + [Write(0, true)];
    OneMore(v, [] + [Enter(0)] + [Issue(0)] + [Register(0)], registered, Write(0, true),
            Single(Waiting, map[1 := 0], map[], [], []));
  }

  /** No interleaving leaves a Call stuck: from every reachable state each Call can return, also while a Close
      holds the lock. */
  lemma EveryCallCanReturn(v: Variant, actions: seq<Action>, c: nat)
    requires Run(v, Initial, actions).Some? && c in Run(v, Initial, actions).value.calls
    ensures CanReturn(v, Run(v, Initial, actions).value, c)
  {
    var s := Run(v, Initial, actions).value;
    InitialInv(v);
    RunKeepsInv(v, Initial, actions);
    if s.lock.Some? {
      LockedCanReturn(v, s, s.lock.value, c);
    } else {
      UnlockedCanReturn(v, s, c);
    }
  }
}
