/** Responses on their way: none is made up, swapped, shared or lost between the connection and the Call. */
module CodexDelivery {
  import opened Common
  import opened CodexTransport
  import opened CodexInvariant
  import opened CodexGuarantees

  /** The response was read off the connection during the run. */
  ghost predicate OnTheWire(actions: seq<Action>, r: Response) {
    exists a :: a in actions && a.Take? && a.message == Message(Some(r.id), "", r.payload)
  }

  ghost predicate AllOnTheWire(actions: seq<Action>, s: State) {
    && (forall d :: d in s.sends ==> OnTheWire(actions, s.sends[d].response))
    && (forall c, r :: c in s.calls && r in s.calls[c].delivered ==> OnTheWire(actions, r))
  }

  lemma WireGrows(actions: seq<Action>, a: Action, r: Response)
    requires OnTheWire(actions, r)
    ensures OnTheWire(actions + [a], r)
  {
    var x :| x in actions && x.Take? && x.message == Message(Some(r.id), "", r.payload);
    assert x in actions + [a];
  }

  /** A frame without an id, with a method name or with an id that no Call waits for is not delivered to
      anyone: requests and notifications change nothing here. */
  lemma OtherFramesChangeNothing(v: Variant, s: State, d: nat, m: Message)
    requires Step(v, s, Take(d, m)).Some?
    ensures m.id.None? || m.verb != "" || m.id.value !in s.pending ==> Step(v, s, Take(d, m)) == Some(s)
    ensures m.id.Some? && m.verb == "" && m.id.value in s.pending ==> Step(v, s, Take(d, m)) != Some(s)
  {
    if m.id.Some? && m.verb == "" && m.id.value in s.pending {
      assert d !in s.sends && d in Step(v, s, Take(d, m)).value.sends;
    }
  }

  /** Only a dispatch adds to the responses on their way and to the channel histories. */
  ghost predicate NoNewResponses(s: State, s': State) {
    && s'.sends == s.sends
    && (forall c :: c in s.calls ==> c in s'.calls && s'.calls[c].delivered == s.calls[c].delivered)
    && (forall c :: c in s'.calls && c !in s.calls ==> s'.calls[c].delivered == [])
  }

  lemma StartStepNoNewResponses(s: State, a: Action)
    requires StartStep(s, a).Some?
    ensures NoNewResponses(s, StartStep(s, a).value)
  {
  }

  /** The rest of a Call changes that one Call, and not its history. */
  lemma WaitStepChangesOne(s: State, a: Action) returns (c: nat)
    requires WaitStep(s, a).Some?
    ensures var s' := WaitStep(s, a).value;
            c in s.calls && s'.sends == s.sends && c in s'.calls
            && s'.calls == s.calls[c := s'.calls[c]] && s'.calls[c].delivered == s.calls[c].delivered
  {
    c := a.c;
  }

  lemma WaitStepNoNewResponses(s: State, a: Action)
    requires WaitStep(s, a).Some?
    ensures NoNewResponses(s, WaitStep(s, a).value)
  {
    var c := WaitStepChangesOne(s, a);
  }

  lemma CloseStepNoNewResponses(v: Variant, s: State, a: Action)
    requires CloseStep(v, s, a).Some?
    ensures NoNewResponses(s, CloseStep(v, s, a).value)
  {
  }

  lemma QuietStepNoNewResponses(v: Variant, s: State, a: Action)
    requires !a.Take? && !a.Deliver? && Step(v, s, a).Some?
    ensures NoNewResponses(s, Step(v, s, a).value)
  {
    if CloseStep(v, s, a).Some? {
      CloseStepNoNewResponses(v, s, a);
    } else if StartStep(s, a).Some? {
      StartStepNoNewResponses(s, a);
    } else {
      WaitStepNoNewResponses(s, a);
    }
  }

  lemma QuietStepOnTheWire(before: seq<Action>, s: State, a: Action, s': State)
    requires AllOnTheWire(before, s) && NoNewResponses(s, s')
    ensures AllOnTheWire(before + [a], s')
  {
    forall d | d in s'.sends ensures OnTheWire(before + [a], s'.sends[d].response) {
      WireGrows(before, a, s.sends[d].response);
    }
    forall c, r | c in s'.calls && r in s'.calls[c].delivered ensures OnTheWire(before + [a], r) {
      assert c in s.calls && r in s.calls[c].delivered;
      WireGrows(before, a, r);
    }
  }

  lemma DispatchStepOnTheWire(before: seq<Action>, s: State, a: Action)
    requires AllOnTheWire(before, s) && DispatchStep(s, a).Some?
    ensures AllOnTheWire(before + [a], DispatchStep(s, a).value)
  {
    var s' := DispatchStep(s, a).value;
    assert a in before + [a];
    forall d | d in s'.sends ensures OnTheWire(before + [a], s'.sends[d].response) {
      if d in s.sends {
        WireGrows(before, a, s.sends[d].response);
      }
    }
    forall c, r | c in s'.calls && r in s'.calls[c].delivered ensures OnTheWire(before + [a], r) {
      if r !in s.calls[c].delivered {
        assert a.Deliver? && r == s.sends[a.d].response;
      }
      WireGrows(before, a, r);
    }
  }

  lemma StepOnTheWire(v: Variant, before: seq<Action>, s: State, a: Action)
    requires AllOnTheWire(before, s) && Step(v, s, a).Some?
    ensures AllOnTheWire(before + [a], Step(v, s, a).value)
  {
    if a.Take? || a.Deliver? {
      DispatchStepOnTheWire(before, s, a);
    } else {
      QuietStepNoNewResponses(v, s, a);
      QuietStepOnTheWire(before, s, a, Step(v, s, a).value);
    }
  }

  lemma {:induction false} RunOnTheWire(v: Variant, actions: seq<Action>)
    requires Run(v, Initial, actions).Some?
    ensures AllOnTheWire(actions, Run(v, Initial, actions).value)
  {
    if actions != [] {
      var before, a := actions[..|actions| - 1], actions[|actions| - 1];
      RunOnTheWire(v, before);
      StepOnTheWire(v, before, Run(v, Initial, before).value, a);
      assert actions == before + [a];
    }
  }

  /** The response is held by its dispatch or sits, alone, in the history of its call's channel. */
  ghost predicate HeldOrDelivered(s: State, d: nat, c: nat, r: Response) {
    (d in s.sends && s.sends[d] == Send(c, r)) || (c in s.calls && s.calls[c].delivered == [r])
  }

  lemma DispatchLosesNoResponse(v: Variant, s: State, a: Action, d: nat, c: nat, r: Response)
    requires Inv(v, s) && HeldOrDelivered(s, d, c, r) && DispatchStep(s, a).Some?
    ensures HeldOrDelivered(DispatchStep(s, a).value, d, c, r)
  {
    if a.Deliver? {
      assert CallOk(v, s, s.calls[s.sends[a.d].call]);
    }
  }

  lemma StepLosesNoResponse(v: Variant, s: State, a: Action, d: nat, c: nat, r: Response)
    requires Inv(v, s) && HeldOrDelivered(s, d, c, r) && Step(v, s, a).Some?
    ensures HeldOrDelivered(Step(v, s, a).value, d, c, r)
  {
    if a.Take? || a.Deliver? {
      DispatchLosesNoResponse(v, s, a, d, c, r);
    } else {
      QuietStepNoNewResponses(v, s, a);
    }
  }

  /** Once a dispatch has matched a response to a pending Call, no later interleaving loses it: it is
      still held by that dispatch or it has been sent on that Call's channel, unaltered and alone. */
  lemma {:induction false} MatchedResponseIsNeverLost(v: Variant, s: State, d: nat, m: Message, more: seq<Action>)
    requires Inv(v, s) && m.id.Some? && m.verb == "" && m.id.value in s.pending
    requires Step(v, s, Take(d, m)).Some? && Run(v, Step(v, s, Take(d, m)).value, more).Some?
    ensures HeldOrDelivered(Run(v, Step(v, s, Take(d, m)).value, more).value, d,
                            s.pending[m.id.value], Response(m.id.value, m.payload))
  {
    if more != [] {
      var before := more[..|more| - 1];
      MatchedResponseIsNeverLost(v, s, d, m, before);
      var taken := Step(v, s, Take(d, m)).value;
      StepKeepsInv(v, s, Take(d, m));
      RunKeepsInv(v, taken, before);
      StepLosesNoResponse(v, Run(v, taken, before).value, more[|more| - 1], d,
                          s.pending[m.id.value], Response(m.id.value, m.payload));
    }
  }

  lemma ReplyIsOwn(v: Variant, s: State, c: nat, r: Response)
    requires Inv(v, s) && c in s.calls && s.calls[c].delivered == [r]
    ensures r.id == s.calls[c].id
    ensures forall c' :: c' in s.calls && c' != c ==> r !in s.calls[c'].delivered
  {
    assert CallOk(v, s, s.calls[c]);
    assert r in s.calls[c].delivered;
    forall c' | c' in s.calls && c' != c ensures r !in s.calls[c'].delivered {
      assert CallOk(v, s, s.calls[c']);
      assert s.calls[c].id != s.calls[c'].id;
    }
  }

  /** A Call that ends with a reply ends with a response that carries its own id and that some
      dispatch read off the connection; no reply is made up, swapped or shared. */
  lemma ReplyAnswersItsCall(v: Variant, actions: seq<Action>, c: nat, r: Response)
    requires Run(v, Initial, actions).Some?
    requires var s := Run(v, Initial, actions).value;
             InPhase(s, c, Returning(Reply(r))) || InPhase(s, c, Returned(Reply(r)))
    ensures r.id == Run(v, Initial, actions).value.calls[c].id
    ensures OnTheWire(actions, r)
    ensures forall c' :: c' in Run(v, Initial, actions).value.calls && c' != c ==>
              r !in Run(v, Initial, actions).value.calls[c'].delivered
  {
    InitialInv(v);
    RunOnTheWire(v, actions);
    EveryRunIsSafe(v, actions);
    RunKeepsInv(v, Initial, actions);
    ReplyIsOwn(v, Run(v, Initial, actions).value, c, r);
  }
}
