/** What every interleaving of the Codex transports guarantees to a caller. */
module CodexGuarantees {
  import opened Common
  import opened CodexTransport
  import opened CodexInvariant

  /** The guarantees a user of the transport relies on. */
  ghost predicate Safe(v: Variant, s: State) {
    // no send on a closed channel, no channel closed twice
    && s.fault.None?
    && DistinctIds(s.calls)
    // pending holds only calls that are still running, each under its own id
    && (forall id :: id in s.pending ==>
          s.pending[id] in s.calls && s.calls[s.pending[id]].id == id && InFlight(s.calls[s.pending[id]]))
    // a reply channel gets at most one message, and it answers that very call
    && (forall c :: c in s.calls ==>
          && |s.calls[c].delivered| <= 1
          && (forall r :: r in s.calls[c].delivered ==> r.id == s.calls[c].id))
    && (forall c, r :: InPhase(s, c, Returning(Reply(r))) || InPhase(s, c, Returned(Reply(r))) ==>
          s.calls[c].delivered == [r])
    // the send of a dispatch never blocks and never panics
    && (forall d :: d in s.sends ==> Step(v, s, Deliver(d)).Some? && Step(v, s, Deliver(d)).value.fault.None?)
    // a waiting call whose reply has arrived can receive it
    && (forall c, r :: InPhase(s, c, Waiting) && s.calls[c].delivered == [r] ==>
          Step(v, s, Receive(c)).Some? && InPhase(Step(v, s, Receive(c)).value, c, Returning(Reply(r))))
    // a wsTransport never hands nil to a Call
    && (v.WebSocket? ==> forall c :: c in s.calls ==>
          !s.calls[c].closed && s.calls[c].phase != Returning(NilReply) && s.calls[c].phase != Returned(NilReply))
  }

  lemma DeliverIsEnabled(v: Variant, s: State, d: nat)
    requires Inv(v, s) && d in s.sends
    ensures Step(v, s, Deliver(d)).Some? && Step(v, s, Deliver(d)).value.fault.None?
  {
    assert CallOk(v, s, s.calls[s.sends[d].call]);
  }

  lemma ReceiveIsEnabled(v: Variant, s: State, c: nat, r: Response)
    requires Inv(v, s) && InPhase(s, c, Waiting) && s.calls[c].delivered == [r]
    ensures Step(v, s, Receive(c)).Some? && InPhase(Step(v, s, Receive(c)).value, c, Returning(Reply(r)))
  {
    assert CallOk(v, s, s.calls[c]);
  }

  lemma InvImpliesSafe(v: Variant, s: State)
    requires Inv(v, s)
    ensures Safe(v, s)
  {
    forall c | c in s.calls
      ensures |s.calls[c].delivered| <= 1 && OutcomeOk(s, s.calls[c])
      ensures forall r :: r in s.calls[c].delivered ==> r.id == s.calls[c].id
      ensures s.calls[c].closed ==> v.Stdio?
    {
      assert CallOk(v, s, s.calls[c]);
    }
    forall d | d in s.sends
      ensures Step(v, s, Deliver(d)).Some? && Step(v, s, Deliver(d)).value.fault.None?
    {
      DeliverIsEnabled(v, s, d);
    }
    forall c, r | InPhase(s, c, Waiting) && s.calls[c].delivered == [r]
      ensures Step(v, s, Receive(c)).Some? && InPhase(Step(v, s, Receive(c)).value, c, Returning(Reply(r)))
    {
      ReceiveIsEnabled(v, s, c, r);
    }
  }

  lemma EveryRunIsSafe(v: Variant, actions: seq<Action>)
    requires Run(v, Initial, actions).Some?
    ensures Safe(v, Run(v, Initial, actions).value)
  {
    InitialInv(v);
    RunKeepsInv(v, Initial, actions);
    InvImpliesSafe(v, Run(v, Initial, actions).value);
  }
}
