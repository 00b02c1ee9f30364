/** The request/response matcher of the two Codex transports: `wsTransport`
    (agent/codex/websocket_transport.go) and `JsonRpcTransport` (agent/codex/jsonrpc.go).

    Every goroutine step that touches shared state is one labelled action: an atomic load, add or
    swap, one critical section of the `pending` mutex, one channel operation.  An interleaving of
    any number of Calls, dispatches and Closes is then a sequence of actions, and a statement about
    every interleaving is a statement about every sequence that `Run` accepts.
 */
module CodexTransport {
  import opened Common

  /** The two transports differ only in what Close does to the reply channels. */
  datatype Variant = WebSocket | Stdio

  /** An incoming frame: an `rpcMessage`, whose id may be absent and whose method name `verb` may be empty. */
  datatype Message = Message(id: Option<int>, verb: string, payload: string)

  datatype Response = Response(id: int, payload: string)

  datatype Outcome =
    | TransportClosed
    | WriteFailed
    | TimedOut
    | Cancelled
    | Reply(response: Response)
    | NilReply                    // a receive from a closed, empty reply channel; the Call dereferences the nil
                                  // and panics (agent/codex/jsonrpc.go:184-185), so what returns is not a reply

  datatype Phase =
    | Entered                     // saw closed == false, has no id yet
    | Issued                      // has an id and a reply channel
    | Registered                  // is in pending, request not yet written
    | Waiting                     // blocked in the select
    | Returning(outcome: Outcome) // the deferred delete has not run yet
    | Returned(outcome: Outcome)

  /** A Call in progress.  `buffer` and `closed` are its one-slot reply channel; `delivered` is the
      history of everything ever sent on that channel. */
  datatype Call = Call(id: int, phase: Phase, buffer: seq<Response>, closed: bool, delivered: seq<Response>)

  /** A dispatch that has taken a Call out of pending and has not sent yet. */
  datatype Send = Send(call: nat, response: Response)

  datatype Closer = Swapped | Signalled | Draining | Finished

  datatype Fault = SendOnClosed | CloseOfClosed

  /** `lock` is the Close that holds the pending mutex while it walks the map; the other critical
      sections are single actions. */
  datatype State = State(
    nextId: int,
    closed: bool,
    signalled: bool,
    lock: Option<nat>,
    pending: map<int, nat>,
    calls: map<nat, Call>,
    sends: map<nat, Send>,
    closers: map<nat, Closer>,
    fault: Option<Fault>)

  const Initial := State(0, false, false, None, map[], map[], map[], map[], None)

  datatype Action =
    | Enter(c: nat)
    | Issue(c: nat)
    | Register(c: nat)
    | Write(c: nat, ok: bool)
    | Receive(c: nat)
    | Expire(c: nat)
    | Cancel(c: nat)
    | SeeClose(c: nat)
    | Unregister(c: nat)
    | Take(d: nat, message: Message)
    | Deliver(d: nat)
    | Swap(k: nat)
    | Signal(k: nat)
    | Lock(k: nat)
    | Drain(k: nat, id: int)
    | Unlock(k: nat)

  predicate InPhase(s: State, c: nat, p: Phase) {
    c in s.calls && s.calls[c].phase == p
  }

  predicate IsResponse(m: Message) {
    m.id.Some? && m.verb == ""
  }

  function SetPhase(s: State, c: nat, p: Phase): State
    requires c in s.calls
  {
    s.(calls := s.calls[c := s.calls[c].(phase := p)])
  }

  /** A Call until its request is in pending. */
  function StartStep(s: State, a: Action): Option<State> {
    match a
    case Enter(c) =>
      if c in s.calls then None
      else Some(s.(calls := s.calls[c :=
        Call(0, if s.closed then Returned(TransportClosed) else Entered, [], false, [])]))
    case Issue(c) =>
      if !InPhase(s, c, Entered) then None
      else Some(s.(nextId := s.nextId + 1,
                   calls := s.calls[c := s.calls[c].(id := s.nextId + 1, phase := Issued)]))
    case Register(c) =>
      if !InPhase(s, c, Issued) || s.lock.Some? then None
      else Some(SetPhase(s.(pending := s.pending[s.calls[c].id := c]), c, Registered))
    case _ => None
  }

  /** The rest of a Call: the write, the select and the deferred delete. */
  function WaitStep(s: State, a: Action): Option<State> {
    match a
    case Write(c, ok) =>
      if !InPhase(s, c, Registered) then None
      else Some(SetPhase(s, c, if ok then Waiting else Returning(WriteFailed)))
    case Receive(c) =>
      if !InPhase(s, c, Waiting) then None
      else
        var call := s.calls[c];
        if call.buffer != [] then
          Some(s.(calls := s.calls[c :=
            call.(buffer := call.buffer[1..], phase := Returning(Reply(call.buffer[0])))]))
        else if call.closed then Some(SetPhase(s, c, Returning(NilReply)))
        else None
    case Expire(c) =>
      if InPhase(s, c, Waiting) then Some(SetPhase(s, c, Returning(TimedOut))) else None
    case Cancel(c) =>
      if InPhase(s, c, Waiting) then Some(SetPhase(s, c, Returning(Cancelled))) else None
    case SeeClose(c) =>
      if InPhase(s, c, Waiting) && s.signalled then Some(SetPhase(s, c, Returning(TransportClosed))) else None
    case Unregister(c) =>
      if c in s.calls && s.calls[c].phase.Returning? && s.lock.None? then
        Some(SetPhase(s.(pending := s.pending - {s.calls[c].id}), c, Returned(s.calls[c].phase.outcome)))
      else None
    case _ => None
  }

  /** Steps of one dispatch: look up and delete under the lock, then send outside it. */
  function DispatchStep(s: State, a: Action): Option<State> {
    match a
    case Take(d, m) =>
      if d in s.sends || s.lock.Some? then None
      else if IsResponse(m) && m.id.value in s.pending then
        Some(s.(pending := s.pending - {m.id.value},
                sends := s.sends[d := Send(s.pending[m.id.value], Response(m.id.value, m.payload))]))
      else Some(s)
    case Deliver(d) =>
      if d !in s.sends || s.sends[d].call !in s.calls then None
      else
        var c, r := s.sends[d].call, s.sends[d].response;
        var call := s.calls[c];
        if call.closed then Some(s.(fault := Some(SendOnClosed)))
        else if |call.buffer| >= 1 then None                      // the one slot is taken: blocked
        else Some(s.(sends := s.sends - {d},
                     calls := s.calls[c := call.(buffer := call.buffer + [r], delivered := call.delivered + [r])]))
    case _ => None
  }

  /** Steps of one Close. */
  function CloseStep(v: Variant, s: State, a: Action): Option<State> {
    match a
    case Swap(k) =>
      if k in s.closers then None
      else Some(s.(closed := true, closers := s.closers[k := if s.closed then Finished else Swapped]))
    case Signal(k) =>
      if k !in s.closers || s.closers[k] != Swapped then None
      else if s.signalled then Some(s.(fault := Some(CloseOfClosed)))
      else Some(s.(signalled := true, closers := s.closers[k := Signalled]))
    case Lock(k) =>
      if k !in s.closers || s.closers[k] != Signalled || s.lock.Some? then None
      else Some(s.(lock := Some(k), closers := s.closers[k := Draining]))
    case Drain(k, id) =>
      if s.lock != Some(k) || id !in s.pending || s.pending[id] !in s.calls then None
      else
        var c := s.pending[id];
        if v.Stdio? && s.calls[c].closed then Some(s.(fault := Some(CloseOfClosed)))
        else Some(s.(pending := s.pending - {id},
                     calls := if v.Stdio? then s.calls[c := s.calls[c].(closed := true)] else s.calls))
    case Unlock(k) =>
      if s.lock != Some(k) || s.pending != map[] then None
      else Some(s.(lock := None, closers := s.closers[k := Finished]))
    case _ => None
  }

  /** One action; None when the action is not enabled.  A panicked program takes no step. */
  function Step(v: Variant, s: State, a: Action): Option<State> {
    if s.fault.Some? then None
    else match a
      case Take(_, _) => DispatchStep(s, a)
      case Deliver(_) => DispatchStep(s, a)
      case Swap(_) => CloseStep(v, s, a)
      case Signal(_) => CloseStep(v, s, a)
      case Lock(_) => CloseStep(v, s, a)
      case Drain(_, _) => CloseStep(v, s, a)
      case Unlock(_) => CloseStep(v, s, a)
      case Enter(_) => StartStep(s, a)
      case Issue(_) => StartStep(s, a)
      case Register(_) => StartStep(s, a)
      case _ => WaitStep(s, a)
  }

  function Run(v: Variant, s: State, actions: seq<Action>): Option<State> {
    if actions == [] then Some(s)
    else
      var r := Run(v, s, actions[..|actions| - 1]);
      if r.None? then None else Step(v, r.value, actions[|actions| - 1])
  }
}
