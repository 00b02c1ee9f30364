/** The invariant of the Codex transports and its preservation by every atomic step. */
module CodexInvariant {
  import opened Common
  import opened CodexTransport

  predicate InFlight(call: Call) {
    call.phase.Registered? || call.phase.Waiting? || call.phase.Returning?
  }

  ghost predicate OutcomeOk(s: State, call: Call) {
    call.phase.Returning? || call.phase.Returned? ==>
      match call.phase.outcome
      case Reply(r) => call.delivered == [r]
      case NilReply => call.closed
      case TransportClosed => s.closed
      case _ => true
  }

  ghost predicate CallOk(v: Variant, s: State, call: Call) {
    && 0 <= call.id <= s.nextId
    && (call.phase.Entered? ==> call.id == 0)
    && (call.phase.Issued? || InFlight(call) ==> call.id > 0)
    && (call.phase.Entered? || call.phase.Issued? ==> call.delivered == [] && !call.closed)
    && |call.delivered| <= 1
    && (forall r :: r in call.delivered ==> r.id == call.id > 0)
    && (call.buffer == [] || call.buffer == call.delivered)
    && (call.phase.Registered? || call.phase.Waiting? ==> call.buffer == call.delivered)
    && (call.closed ==> v.Stdio? && s.closed && call.delivered == [])
    && OutcomeOk(s, call)
  }

  /** Nothing has been or is being sent on the channel, and it is open. */
  ghost predicate Untouched(call: Call) {
    call.delivered == [] && !call.closed
  }

  ghost predicate DistinctIds(calls: map<nat, Call>) {
    forall c, c' :: c in calls && c' in calls && c != c' && calls[c].id > 0 ==> calls[c].id != calls[c'].id
  }

  ghost predicate CallsOk(v: Variant, s: State) {
    && s.nextId >= 0
    && (forall c :: c in s.calls ==> CallOk(v, s, s.calls[c]))
    && DistinctIds(s.calls)
  }

  ghost predicate PendingOk(s: State) {
    forall id :: id in s.pending ==>
      && s.pending[id] in s.calls
      && s.calls[s.pending[id]].id == id
      && InFlight(s.calls[s.pending[id]])
      && Untouched(s.calls[s.pending[id]])
  }

  ghost predicate SendsOk(s: State) {
    && (forall d :: d in s.sends ==>
          && s.sends[d].call in s.calls
          && s.sends[d].response.id == s.calls[s.sends[d].call].id > 0
          && s.calls[s.sends[d].call].id !in s.pending
          && !s.calls[s.sends[d].call].phase.Issued?
          && Untouched(s.calls[s.sends[d].call]))
    && (forall d, d' :: d in s.sends && d' in s.sends && d != d' ==> s.sends[d].call != s.sends[d'].call)
  }

  ghost predicate ClosersOk(s: State) {
    && (forall k :: k in s.closers && !s.closers[k].Finished? ==> s.closed)
    && (forall k, k' :: k in s.closers && k' in s.closers && k != k' ==>
          s.closers[k].Finished? || s.closers[k'].Finished?)
    && (forall k :: k in s.closers && s.closers[k].Swapped? ==> !s.signalled)
    && (s.signalled ==> s.closed)
    && (s.lock.Some? ==> s.lock.value in s.closers && s.closers[s.lock.value].Draining?)
    && (forall k :: k in s.closers && s.closers[k].Draining? ==> s.lock == Some(k))
  }

  ghost predicate Inv(v: Variant, s: State) {
    CallsOk(v, s) && PendingOk(s) && SendsOk(s) && ClosersOk(s) && s.fault.None?
  }

  lemma UpdateKeepsDistinctIds(calls: map<nat, Call>, c: nat, call: Call)
    requires DistinctIds(calls)
    requires if c in calls then call.id == calls[c].id else call.id == 0
    requires forall x :: x in calls ==> calls[x].id >= 0
    ensures DistinctIds(calls[c := call])
  {
  }

  lemma CallsFrame(v: Variant, s: State, s': State, c: nat, call: Call)
    requires CallsOk(v, s) && CallOk(v, s, call)
    requires s'.calls == s.calls[c := call] && s'.nextId == s.nextId && s'.closed == s.closed
    requires if c in s.calls then call.id == s.calls[c].id else call.id == 0
    ensures CallsOk(v, s')
  {
    forall x | x in s'.calls ensures CallOk(v, s', s'.calls[x]) {
      if x != c {
        assert CallOk(v, s, s.calls[x]);
      }
    }
    forall x | x in s.calls ensures s.calls[x].id >= 0 {
      assert CallOk(v, s, s.calls[x]);
    }
    UpdateKeepsDistinctIds(s.calls, c, call);
  }

  lemma PendingFrame(s: State, s': State)
    requires PendingOk(s)
    requires forall id :: id in s'.pending ==> id in s.pending && s'.pending[id] == s.pending[id]
    requires forall id :: id in s'.pending ==>
      s.pending[id] in s'.calls && s'.calls[s.pending[id]] == s.calls[s.pending[id]]
    ensures PendingOk(s')
  {
  }

  lemma SendsFrame(s: State, s': State)
    requires SendsOk(s)
    requires forall id :: id in s'.pending ==> id in s.pending
    requires forall d :: d in s'.sends ==> d in s.sends && s'.sends[d] == s.sends[d]
    requires forall d :: d in s'.sends ==>
      s.sends[d].call in s'.calls && s'.calls[s.sends[d].call] == s.calls[s.sends[d].call]
    ensures SendsOk(s')
  {
  }

  /** Moving one Call on, with its id and channel history as they were, keeps the invariant. */
  lemma AdvanceKeepsInv(v: Variant, s: State, c: nat, call: Call)
    requires Inv(v, s) && c in s.calls
    requires call.id == s.calls[c].id && call.closed == s.calls[c].closed && call.delivered == s.calls[c].delivered
    requires CallOk(v, s, call) && !call.phase.Issued?
    requires call.id in s.pending ==> InFlight(call)
    ensures Inv(v, s.(calls := s.calls[c := call]))
  {
    var s' := s.(calls := s.calls[c := call]);
    CallsFrame(v, s, s', c, call);
    assert PendingOk(s') by {
      forall id | id in s'.pending
        ensures s'.pending[id] in s'.calls && s'.calls[s'.pending[id]].id == id
        ensures InFlight(s'.calls[s'.pending[id]]) && Untouched(s'.calls[s'.pending[id]])
      {
        assert id in s.pending;
      }
    }
    assert SendsOk(s');
  }

  /** A new Call changes nothing for the others. */
  lemma NewCallFrame(s: State, c: nat, call: Call)
    requires PendingOk(s) && SendsOk(s) && c !in s.calls
    ensures var s' := s.(calls := s.calls[c := call]); PendingOk(s') && SendsOk(s')
  {
    var s' := s.(calls := s.calls[c := call]);
    PendingFrame(s, s');
    SendsFrame(s, s');
  }

  lemma NewCallOk(v: Variant, s: State)
    requires s.nextId >= 0
    ensures CallOk(v, s, Call(0, if s.closed then Returned(TransportClosed) else Entered, [], false, []))
  {
  }

  lemma EnterKeepsInv(v: Variant, s: State, c: nat)
    requires Inv(v, s) && StartStep(s, Enter(c)).Some?
    ensures Inv(v, StartStep(s, Enter(c)).value)
  {
    var call := Call(0, if s.closed then Returned(TransportClosed) else Entered, [], false, []);
    NewCallOk(v, s);
    NewCallFrame(s, c, call);
    CallsFrame(v, s, s.(calls := s.calls[c := call]), c, call);
  }

  lemma FreshIdKeepsDistinctIds(calls: map<nat, Call>, c: nat, call: Call)
    requires DistinctIds(calls)
    requires forall x :: x in calls ==> calls[x].id < call.id
    ensures DistinctIds(calls[c := call])
  {
  }

  lemma IssueKeepsCalls(v: Variant, s: State, c: nat)
    requires CallsOk(v, s) && InPhase(s, c, Entered)
    ensures CallsOk(v, s.(nextId := s.nextId + 1,
                          calls := s.calls[c := s.calls[c].(id := s.nextId + 1, phase := Issued)]))
  {
    var call := s.calls[c].(id := s.nextId + 1, phase := Issued);
    var s' := s.(nextId := s.nextId + 1, calls := s.calls[c := call]);
    assert CallOk(v, s, s.calls[c]);
    forall x | x in s.calls ensures CallOk(v, s', s'.calls[x]) && s.calls[x].id < call.id {
      assert CallOk(v, s, s.calls[x]);
    }
    FreshIdKeepsDistinctIds(s.calls, c, call);
  }

  lemma IssueKeepsInv(v: Variant, s: State, c: nat)
    requires Inv(v, s) && StartStep(s, Issue(c)).Some?
    ensures Inv(v, StartStep(s, Issue(c)).value)
  {
    var s' := StartStep(s, Issue(c)).value;
    IssueKeepsCalls(v, s, c);
    assert CallOk(v, s, s.calls[c]);
    forall id | id in s.pending ensures s.pending[id] != c {
      assert InFlight(s.calls[s.pending[id]]);
    }
    PendingFrame(s, s');
    forall d | d in s.sends ensures s.sends[d].call != c {
      assert s.calls[s.sends[d].call].id > 0;
    }
    SendsFrame(s, s');
  }

  lemma RegisterKeepsInv(v: Variant, s: State, c: nat)
    requires Inv(v, s) && StartStep(s, Register(c)).Some?
    ensures Inv(v, StartStep(s, Register(c)).value)
  {
    var s' := StartStep(s, Register(c)).value;
    assert CallOk(v, s, s.calls[c]);
    CallsFrame(v, s, s', c, s'.calls[c]);
    assert PendingOk(s') by {
      forall id | id in s'.pending
        ensures s'.pending[id] in s'.calls && s'.calls[s'.pending[id]].id == id
        ensures InFlight(s'.calls[s'.pending[id]]) && Untouched(s'.calls[s'.pending[id]])
      {
        if id != s.calls[c].id {
          assert id in s.pending;
        }
      }
    }
    assert SendsOk(s');
  }

  lemma UnregisterKeepsInv(v: Variant, s: State, c: nat)
    requires Inv(v, s) && WaitStep(s, Unregister(c)).Some?
    ensures Inv(v, WaitStep(s, Unregister(c)).value)
  {
    var mid := s.(pending := s.pending - {s.calls[c].id});
    assert PendingOk(mid);
    assert SendsOk(mid);
    AdvanceKeepsInv(v, mid, c, s.calls[c].(phase := Returned(s.calls[c].phase.outcome)));
  }

  /** The select, the write and the timers end a Call without touching pending or its channel history. */
  lemma MoveOnKeepsInv(v: Variant, s: State, c: nat, p: Phase)
    requires Inv(v, s) && c in s.calls && (s.calls[c].phase.Registered? || s.calls[c].phase.Waiting?)
    requires p.Waiting? || p == Returning(WriteFailed) || p == Returning(TimedOut) || p == Returning(Cancelled)
             || (p == Returning(TransportClosed) && s.signalled)
             || (p == Returning(NilReply) && s.calls[c].closed)
    ensures Inv(v, SetPhase(s, c, p))
  {
    assert CallOk(v, s, s.calls[c]);
    AdvanceKeepsInv(v, s, c, s.calls[c].(phase := p));
  }

  lemma ReceiveKeepsInv(v: Variant, s: State, c: nat)
    requires Inv(v, s) && WaitStep(s, Receive(c)).Some?
    ensures Inv(v, WaitStep(s, Receive(c)).value)
  {
    var call := s.calls[c];
    if call.buffer != [] {
      assert CallOk(v, s, call);
      AdvanceKeepsInv(v, s, c, call.(buffer := call.buffer[1..], phase := Returning(Reply(call.buffer[0]))));
    } else {
      MoveOnKeepsInv(v, s, c, Returning(NilReply));
    }
  }

  lemma StartStepKeepsInv(v: Variant, s: State, a: Action)
    requires Inv(v, s) && StartStep(s, a).Some?
    ensures Inv(v, StartStep(s, a).value)
  {
    match a
    case Enter(c) => EnterKeepsInv(v, s, c);
    case Issue(c) => IssueKeepsInv(v, s, c);
    case Register(c) => RegisterKeepsInv(v, s, c);
  }

  lemma WaitStepKeepsInv(v: Variant, s: State, a: Action)
    requires Inv(v, s) && WaitStep(s, a).Some?
    ensures Inv(v, WaitStep(s, a).value)
  {
    match a
    case Unregister(c) => UnregisterKeepsInv(v, s, c);
    case Write(c, ok) => MoveOnKeepsInv(v, s, c, if ok then Waiting else Returning(WriteFailed));
    case Receive(c) => ReceiveKeepsInv(v, s, c);
    case Expire(c) => MoveOnKeepsInv(v, s, c, Returning(TimedOut));
    case Cancel(c) => MoveOnKeepsInv(v, s, c, Returning(Cancelled));
    case SeeClose(c) => MoveOnKeepsInv(v, s, c, Returning(TransportClosed));
  }

  /** Taking a call out of pending: its send is the only one for it. */
  lemma MatchKeepsSends(s: State, d: nat, id: int, payload: string)
    requires PendingOk(s) && SendsOk(s) && d !in s.sends && id in s.pending && id > 0
    ensures SendsOk(s.(pending := s.pending - {id}, sends := s.sends[d := Send(s.pending[id], Response(id, payload))]))
  {
    var c := s.pending[id];
    forall e | e in s.sends ensures s.sends[e].call != c {
      assert s.calls[s.sends[e].call].id !in s.pending;
    }
  }

  lemma TakeKeepsInv(v: Variant, s: State, d: nat, m: Message)
    requires Inv(v, s) && DispatchStep(s, Take(d, m)).Some?
    ensures Inv(v, DispatchStep(s, Take(d, m)).value)
  {
    var s' := DispatchStep(s, Take(d, m)).value;
    if s' != s {
      var id := m.id.value;
      assert CallOk(v, s, s.calls[s.pending[id]]);
      MatchKeepsSends(s, d, id, m.payload);
      PendingFrame(s, s');
      SameCallsOk(v, s, s');
    }
  }

  lemma SameCallsOk(v: Variant, s: State, s': State)
    requires CallsOk(v, s)
    requires s'.calls == s.calls && s'.nextId == s.nextId && s'.closed == s.closed
    ensures CallsOk(v, s')
  {
    forall x | x in s'.calls ensures CallOk(v, s', s'.calls[x]) {
      assert CallOk(v, s, s.calls[x]);
    }
  }

  lemma DeliveredCallOk(v: Variant, s: State, call: Call, r: Response)
    requires CallOk(v, s, call) && Untouched(call) && r.id == call.id > 0
    requires !call.phase.Entered? && !call.phase.Issued?
    ensures call.buffer == []
    ensures CallOk(v, s, call.(buffer := call.buffer + [r], delivered := call.delivered + [r]))
  {
  }

  lemma OneSendPerCall(s: State, d: nat)
    requires PendingOk(s) && SendsOk(s) && d in s.sends
    ensures forall id :: id in s.pending ==> s.pending[id] != s.sends[d].call
    ensures forall e :: e in s.sends && e != d ==> s.sends[e].call != s.sends[d].call
  {
    forall id | id in s.pending ensures s.pending[id] != s.sends[d].call {
      assert s.calls[s.pending[id]].id == id;
    }
  }

  lemma DeliverStep(v: Variant, s: State, d: nat) returns (call: Call)
    requires Inv(v, s) && d in s.sends
    ensures var c := s.sends[d].call;
      && c in s.calls && call.id == s.calls[c].id && CallOk(v, s, call)
      && DispatchStep(s, Deliver(d)) == Some(s.(sends := s.sends - {d}, calls := s.calls[c := call]))
  {
    var c, r := s.sends[d].call, s.sends[d].response;
    DeliveredCallOk(v, s, s.calls[c], r);
    call := s.calls[c].(buffer := s.calls[c].buffer + [r], delivered := s.calls[c].delivered + [r]);
  }

  lemma DeliverKeepsInv(v: Variant, s: State, d: nat)
    requires Inv(v, s) && d in s.sends
    ensures DispatchStep(s, Deliver(d)).Some? && Inv(v, DispatchStep(s, Deliver(d)).value)
  {
    var call := DeliverStep(v, s, d);
    var s' := DispatchStep(s, Deliver(d)).value;
    CallsFrame(v, s, s', s.sends[d].call, call);
    OneSendPerCall(s, d);
    PendingFrame(s, s');
    SendsFrame(s, s');
  }

  /** Close moves its own phase and the flags only, until it drains. */
  lemma CloserKeepsInv(v: Variant, s: State, s': State)
    requires Inv(v, s) && ClosersOk(s')
    requires s'.calls == s.calls && s'.pending == s.pending && s'.sends == s.sends && s'.nextId == s.nextId
    requires s.closed ==> s'.closed
    requires s'.fault.None?
    ensures Inv(v, s')
  {
    forall x | x in s'.calls ensures CallOk(v, s', s'.calls[x]) {
      assert CallOk(v, s, s.calls[x]);
    }
    PendingFrame(s, s');
    SendsFrame(s, s');
  }

  lemma DrainKeepsInv(v: Variant, s: State, k: nat, id: int)
    requires Inv(v, s) && CloseStep(v, s, Drain(k, id)).Some?
    ensures Inv(v, CloseStep(v, s, Drain(k, id)).value)
  {
    var s' := CloseStep(v, s, Drain(k, id)).value;
    var c := s.pending[id];
    assert CallOk(v, s, s.calls[c]);
    CallsFrame(v, s, s', c, s'.calls[c]);
    forall i | i in s'.pending ensures s.pending[i] != c {
      assert s.calls[s.pending[i]].id == i;
    }
    PendingFrame(s, s');
    forall e | e in s.sends ensures s.sends[e].call != c {
      assert s.calls[s.sends[e].call].id !in s.pending;
    }
    SendsFrame(s, s');
  }

  lemma CloseStepKeepsInv(v: Variant, s: State, a: Action)
    requires Inv(v, s) && CloseStep(v, s, a).Some?
    ensures Inv(v, CloseStep(v, s, a).value)
  {
    if a.Drain? {
      DrainKeepsInv(v, s, a.k, a.id);
    } else {
      CloserKeepsInv(v, s, CloseStep(v, s, a).value);
    }
  }

  lemma StepKeepsInv(v: Variant, s: State, a: Action)
    requires Inv(v, s) && Step(v, s, a).Some?
    ensures Inv(v, Step(v, s, a).value)
  {
    if a.Take? {
      TakeKeepsInv(v, s, a.d, a.message);
    } else if a.Deliver? {
      DeliverKeepsInv(v, s, a.d);
    } else if CloseStep(v, s, a).Some? {
      CloseStepKeepsInv(v, s, a);
    } else if StartStep(s, a).Some? {
      StartStepKeepsInv(v, s, a);
    } else {
      WaitStepKeepsInv(v, s, a);
    }
  }

  lemma InitialInv(v: Variant)
    ensures Inv(v, Initial)
  {
  }

  /** Every state of every interleaving satisfies the invariant. */
  lemma {:induction false} RunKeepsInv(v: Variant, s: State, actions: seq<Action>)
    requires Inv(v, s) && Run(v, s, actions).Some?
    ensures Inv(v, Run(v, s, actions).value)
  {
    if actions != [] {
      RunKeepsInv(v, s, actions[..|actions| - 1]);
      StepKeepsInv(v, Run(v, s, actions[..|actions| - 1]).value, actions[|actions| - 1]);
    }
  }
}
