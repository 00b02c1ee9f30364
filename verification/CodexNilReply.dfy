/** When a Call waiting on a Codex transport can be handed nil instead of a response: exactly when Close
    closes reply channels and this Call's channel is closed or can still be closed. */
module CodexNilReply {
  import opened Common
  import opened CodexTransport
  import opened CodexInvariant
  import opened CodexGuarantees

  ghost predicate NilReachable(v: Variant, s: State, c: nat) {
    exists more :: EndsInNil(v, s, more, c)
  }

  predicate EndsInNil(v: Variant, s: State, more: seq<Action>, c: nat) {
    Run(v, s, more).Some? && InPhase(Run(v, s, more).value, c, Returning(NilReply))
  }

  /** A Close that has yet to drain the pending Calls, or none so far. */
  ghost predicate DrainToCome(s: State) {
    !s.closed || exists k :: k in s.closers && !s.closers[k].Finished?
  }

  /** The Call's channel is closed, or the Call is in pending and a drain is still to come. */
  ghost predicate ChannelMayClose(s: State, c: nat)
    requires c in s.calls
  {
    s.calls[c].closed || (s.calls[c].id in s.pending && DrainToCome(s))
  }

  // ---------------------------------------------------------------- it can happen

  lemma RunSnoc(v: Variant, s: State, actions: seq<Action>, a: Action)
    ensures Run(v, s, actions + [a]) == var r := Run(v, s, actions); if r.None? then None else Step(v, r.value, a)
  {
    assert (actions + [a])[..|actions|] == actions;
  }

  lemma {:induction false} RunCons(v: Variant, s: State, a: Action, more: seq<Action>)
    requires Step(v, s, a).Some?
    ensures Run(v, s, [a] + more) == Run(v, Step(v, s, a).value, more)
  {
    if more == [] {
      assert [a] + more == [] + [a];
      RunSnoc(v, s, [], a);
    } else {
      var init, last := more[..|more| - 1], more[|more| - 1];
      RunCons(v, s, a, init);
      assert [a] + more == ([a] + init) + [last];
      RunSnoc(v, s, [a] + init, last);
    }
  }

  lemma NilAfter(v: Variant, s: State, a: Action, c: nat)
    requires Step(v, s, a).Some? && NilReachable(v, Step(v, s, a).value, c)
    ensures NilReachable(v, s, c)
  {
    var more :| EndsInNil(v, Step(v, s, a).value, more, c);
    RunCons(v, s, a, more);
    assert EndsInNil(v, s, [a] + more, c);
  }

  lemma NilNow(v: Variant, s: State, c: nat)
    requires InPhase(s, c, Returning(NilReply))
    ensures NilReachable(v, s, c)
  {
    assert EndsInNil(v, s, [], c);
  }

  lemma NilFromClosed(s: State, c: nat)
    requires Inv(Stdio, s) && InPhase(s, c, Waiting) && s.calls[c].closed
    ensures NilReachable(Stdio, s, c)
  {
    assert CallOk(Stdio, s, s.calls[c]);
    var t := Step(Stdio, s, Receive(c)).value;
    NilNow(Stdio, t, c);
    NilAfter(Stdio, s, Receive(c), c);
  }

  lemma PendingIsOwn(v: Variant, s: State, c: nat)
    requires Inv(v, s) && InPhase(s, c, Waiting) && s.calls[c].id in s.pending
    ensures s.pending[s.calls[c].id] == c
  {
    assert CallOk(v, s, s.calls[c]);
  }

  lemma NilFromDraining(s: State, c: nat, k: nat)
    requires Inv(Stdio, s) && InPhase(s, c, Waiting) && s.calls[c].id in s.pending
    requires k in s.closers && s.closers[k] == Draining
    ensures NilReachable(Stdio, s, c)
  {
    PendingIsOwn(Stdio, s, c);
    var a := Drain(k, s.calls[c].id);
    assert CallOk(Stdio, s, s.calls[c]);
    assert Untouched(s.calls[c]);
    StepKeepsInv(Stdio, s, a);
    NilFromClosed(Step(Stdio, s, a).value, c);
    NilAfter(Stdio, s, a, c);
  }

  lemma LockStep(s: State, k: nat)
    requires Inv(Stdio, s) && k in s.closers && s.closers[k] == Signalled
    ensures Step(Stdio, s, Lock(k)) == Some(s.(lock := Some(k), closers := s.closers[k := Draining]))
  {
  }

  lemma NilFromSignalled(s: State, c: nat, k: nat)
    requires Inv(Stdio, s) && InPhase(s, c, Waiting) && s.calls[c].id in s.pending
    requires k in s.closers && s.closers[k] == Signalled
    ensures NilReachable(Stdio, s, c)
  {
    LockStep(s, k);
    StepKeepsInv(Stdio, s, Lock(k));
    NilFromDraining(Step(Stdio, s, Lock(k)).value, c, k);
    NilAfter(Stdio, s, Lock(k), c);
  }

  lemma SignalStep(s: State, k: nat)
    requires Inv(Stdio, s) && k in s.closers && s.closers[k] == Swapped
    ensures Step(Stdio, s, Signal(k)) == Some(s.(signalled := true, closers := s.closers[k := Signalled]))
  {
  }

  lemma NilFromSwapped(s: State, c: nat, k: nat)
    requires Inv(Stdio, s) && InPhase(s, c, Waiting) && s.calls[c].id in s.pending
    requires k in s.closers && s.closers[k] == Swapped
    ensures NilReachable(Stdio, s, c)
  {
    SignalStep(s, k);
    StepKeepsInv(Stdio, s, Signal(k));
    NilFromSignalled(Step(Stdio, s, Signal(k)).value, c, k);
    NilAfter(Stdio, s, Signal(k), c);
  }

  /** There is always a Close that has not been called yet. */
  lemma {:induction false} FreshNumber(used: set<nat>) returns (k: nat)
    ensures k !in used && forall x :: x in used ==> x < k
    decreases |used|
  {
    k := 0;
    if used != {} {
      var y := Pick(used);
      k := FreshNumber(used - {y});
      k := if k <= y then y + 1 else k;
      assert forall x :: x in used ==> x == y || x in used - {y};
    }
  }

  lemma NilFromOpen(s: State, c: nat)
    requires Inv(Stdio, s) && InPhase(s, c, Waiting) && s.calls[c].id in s.pending && !s.closed
    ensures NilReachable(Stdio, s, c)
  {
    var k := FreshNumber(s.closers.Keys);
    StepKeepsInv(Stdio, s, Swap(k));
    NilFromSwapped(Step(Stdio, s, Swap(k)).value, c, k);
    NilAfter(Stdio, s, Swap(k), c);
  }

  lemma NilWhenChannelMayClose(s: State, c: nat)
    requires Inv(Stdio, s) && InPhase(s, c, Waiting) && ChannelMayClose(s, c)
    ensures NilReachable(Stdio, s, c)
  {
    if s.calls[c].closed {
      NilFromClosed(s, c);
    } else if !s.closed {
      NilFromOpen(s, c);
    } else {
      var k :| k in s.closers && !s.closers[k].Finished?;
      match s.closers[k]
      case Swapped => NilFromSwapped(s, c, k);
      case Signalled => NilFromSignalled(s, c, k);
      case Draining => NilFromDraining(s, c, k);
    }
  }

  // ---------------------------------------------------------------- it cannot happen otherwise

  /** The Call has not been handed nil, and its channel is open and cannot be closed any more. */
  ghost predicate NeverNil(s: State, c: nat) {
    && c in s.calls && !s.calls[c].closed
    && !s.calls[c].phase.Entered? && !s.calls[c].phase.Issued?
    && s.calls[c].phase != Returning(NilReply)
    && (s.calls[c].id in s.pending ==> !DrainToCome(s))
  }

  lemma StartKeepsNeverNil(s: State, a: Action, c: nat)
    requires CallsOk(Stdio, s) && NeverNil(s, c) && StartStep(s, a).Some?
    ensures NeverNil(StartStep(s, a).value, c)
  {
    if a.Register? {
      assert CallOk(Stdio, s, s.calls[a.c]);
    }
  }

  lemma WaitKeepsNeverNil(s: State, a: Action, c: nat)
    requires NeverNil(s, c) && WaitStep(s, a).Some?
    ensures NeverNil(WaitStep(s, a).value, c)
  {
  }

  lemma DispatchKeepsNeverNil(s: State, a: Action, c: nat)
    requires NeverNil(s, c) && DispatchStep(s, a).Some?
    ensures NeverNil(DispatchStep(s, a).value, c)
  {
  }

  lemma CloseKeepsNeverNil(s: State, a: Action, c: nat)
    requires PendingOk(s) && ClosersOk(s) && NeverNil(s, c) && CloseStep(Stdio, s, a).Some?
    ensures NeverNil(CloseStep(Stdio, s, a).value, c)
  {
  }

  lemma StepKeepsNeverNil(s: State, a: Action, c: nat)
    requires Inv(Stdio, s) && NeverNil(s, c) && Step(Stdio, s, a).Some?
    ensures NeverNil(Step(Stdio, s, a).value, c)
  {
    if a.Take? || a.Deliver? {
      DispatchKeepsNeverNil(s, a, c);
    } else if CloseStep(Stdio, s, a).Some? {
      CloseKeepsNeverNil(s, a, c);
    } else if StartStep(s, a).Some? {
      StartKeepsNeverNil(s, a, c);
    } else {
      WaitKeepsNeverNil(s, a, c);
    }
  }

  lemma {:induction false} RunKeepsNeverNil(s: State, more: seq<Action>, c: nat)
    requires Inv(Stdio, s) && NeverNil(s, c) && Run(Stdio, s, more).Some?
    ensures NeverNil(Run(Stdio, s, more).value, c)
  {
    if more != [] {
      var init := more[..|more| - 1];
      RunKeepsNeverNil(s, init, c);
      RunKeepsInv(Stdio, s, init);
      StepKeepsNeverNil(Run(Stdio, s, init).value, more[|more| - 1], c);
    }
  }

  lemma NoNilWhenChannelStaysOpen(s: State, c: nat)
    requires Inv(Stdio, s) && InPhase(s, c, Waiting) && !ChannelMayClose(s, c)
    ensures !NilReachable(Stdio, s, c)
  {
    forall more | Run(Stdio, s, more).Some? ensures !EndsInNil(Stdio, s, more, c) {
      RunKeepsNeverNil(s, more, c);
    }
  }

  lemma NoNilOnWebSocket(s: State, c: nat)
    requires Inv(WebSocket, s)
    ensures !NilReachable(WebSocket, s, c)
  {
    forall more | Run(WebSocket, s, more).Some? ensures !EndsInNil(WebSocket, s, more, c) {
      RunKeepsInv(WebSocket, s, more);
      InvImpliesSafe(WebSocket, Run(WebSocket, s, more).value);
    }
  }

  /** From every reachable state in which a Call waits for its reply, some continuation hands it nil if and
      only if Close closes reply channels and the Call's channel is closed already, or the Call is in pending
      and a drain is still to come. */
  lemma NilReachableExactly(v: Variant, actions: seq<Action>, c: nat)
    requires Run(v, Initial, actions).Some? && InPhase(Run(v, Initial, actions).value, c, Waiting)
    ensures var s := Run(v, Initial, actions).value;
            NilReachable(v, s, c) <==> v.Stdio? && ChannelMayClose(s, c)
  {
    InitialInv(v);
    RunKeepsInv(v, Initial, actions);
    var s := Run(v, Initial, actions).value;
    if v.WebSocket? {
      NoNilOnWebSocket(s, c);
    } else if ChannelMayClose(s, c) {
      NilWhenChannelMayClose(s, c);
    } else {
      NoNilWhenChannelStaysOpen(s, c);
    }
  }
}
