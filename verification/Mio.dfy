/** The readiness backend: armed operations by slot, and a queue of completions already decided. */
module MioBackend {
  import opened Wrappers
  import opened Protocol

  /** The syscall an armed operation will issue; the backend hands it back unchanged. */
  type Request = int

  datatype Mio = Mio(pending: seq<Option<Request>>, ready: seq<Completion>) {
    predicate Armed(i: int) {
      0 <= i < |pending| && pending[i].Some?
    }

    predicate Queued(i: int) {
      exists j :: 0 <= j < |ready| && !ready[j].cancel && ready[j].slot == i
    }
  }

  /** What the poller and the syscall answer: the first event's slot, if any, and the syscall's result. */
  datatype Syscall = Returned(n: int) | WouldBlock | Failed(errno: int)

  datatype Poll = Poll(token: Option<nat>, answer: Syscall)

  const ECANCELED: int := 125

  function OpDone(slot: nat, result: int): Completion {
    Completion(slot, result, 0, false, false)
  }

  function CancelDone(slot: nat): Completion {
    Completion(slot, 0, 0, true, false)
  }

  function OpCancelled(slot: nat): Completion {
    Completion(slot, -ECANCELED, 0, false, true)
  }

  function Grown(pending: seq<Option<Request>>, n: nat): seq<Option<Request>> {
    if |pending| >= n then pending else pending + seq(n - |pending|, _ => None)
  }

  function Arm(m: Mio, slot: nat, req: Request): Mio {
    m.(pending := Grown(m.pending, slot + 1)[slot := Some(req)])
  }

  function TakePending(m: Mio, slot: nat): Mio {
    if slot < |m.pending| then m.(pending := m.pending[slot := None]) else m
  }

  function CancelArmed(m: Mio, cancelSlot: nat, slot: nat): Mio {
    if !m.Armed(slot) then m
    else
      var m' := TakePending(m, slot);
      m'.(ready := m'.ready + [CancelDone(cancelSlot), OpCancelled(slot)])
  }

  /** The backend after one call of `next_completion`, and what that call reports. */
  function Next(m: Mio, p: Poll): (Mio, Option<Completion>) {
    if m.ready != [] then (m.(ready := m.ready[1..]), Some(m.ready[0]))
    else if p.token.None? || !m.Armed(p.token.value) then (m, None)
    else
      match p.answer
      case WouldBlock => (m, None)
      case Returned(n) => (TakePending(m, p.token.value), Some(OpDone(p.token.value, n)))
      case Failed(errno) => (TakePending(m, p.token.value), Some(OpDone(p.token.value, -errno)))
  }

  /** The backend's in-place code. */
  class MioPoller {
    var pending: seq<Option<Request>>
    var ready: seq<Completion>

    ghost function View(): Mio
      reads this
    {
      Mio(pending, ready)
    }

    constructor ()
      ensures View() == Mio([], [])
    {
      pending, ready := [], [];
    }

    /** `registered` is the poller's answer; an error leaves the backend as it was. */
    method ArmOp(slot: nat, req: Request, registered: bool) returns (ok: bool)
      modifies this
      ensures ok == registered
      ensures View() == if registered then Arm(old(View()), slot, req) else old(View())
    {
      if !registered {
        return false;
      }
      while |pending| <= slot
        invariant |old(pending)| <= |pending| && (|pending| > |old(pending)| ==> |pending| <= slot + 1)
        invariant pending == old(pending) + seq(|pending| - |old(pending)|, _ => None)
        invariant ready == old(ready)
        decreases slot + 1 - |pending|
      {
        pending := pending + [None];
      }
      assert pending == Grown(old(pending), slot + 1);
      pending := pending[slot := Some(req)];
      ok := true;
    }

    method TakeOp(slot: nat) returns (r: Option<Request>)
      modifies this`pending
      ensures View() == TakePending(old(View()), slot)
      ensures r == if old(View()).Armed(slot) then old(pending)[slot] else None
    {
      if slot >= |pending| {
        return None;
      }
      r := pending[slot];
      pending := pending[slot := None];
    }

    /** `p` is what the poller reports first and what the syscall `issued` answers. */
    method NextCompletion(p: Poll) returns (r: Option<Completion>, issued: Option<Request>)
      modifies this
      ensures (View(), r) == Next(old(View()), p)
      ensures issued == if old(ready) == [] && p.token.Some? && old(View()).Armed(p.token.value)
                        then old(pending)[p.token.value] else None
    {
      issued := None;
      if |ready| > 0 {
        r := Some(ready[0]);
        ready := ready[1..];
        return;
      }
      if p.token.None? {
        return None, None;
      }
      var slot := p.token.value;
      var op := TakeOp(slot);
      if op.None? {
        assert View() == old(View()) by {
          assert slot < |pending| ==> old(pending)[slot := None] == old(pending);
        }
        return None, None;
      }
      issued := op;
      match p.answer
      case WouldBlock =>
        pending := pending[slot := op];
        assert pending == old(pending);
        r := None;
      case Returned(n) =>
        r := Some(OpDone(slot, n));
      case Failed(errno) =>
        r := Some(OpDone(slot, -errno));
    }

    method CancelOp(cancelSlot: nat, slot: nat) returns (ok: bool)
      modifies this
      ensures ok == old(View()).Armed(slot) && View() == CancelArmed(old(View()), cancelSlot, slot)
    {
      var op := TakeOp(slot);
      if op.None? {
        assert slot < |pending| ==> old(pending)[slot := None] == old(pending);
        return false;
      }
      ready := ready + [CancelDone(cancelSlot)];
      ready := ready + [OpCancelled(slot)];
      ok := true;
    }

    method BeginTeardown()
      modifies this
      ensures View() == Mio([], [])
    {
      pending, ready := [], [];
    }
  }
}

/** The runtime driving the readiness backend, as one state machine. */
module MioRuntime {
  import opened Protocol
  import opened MioBackend

  datatype Sys = Sys(rt: State, io: Mio)

  /** What a callback does.  The backend now answers for itself; only the poller's answer stays open. */
  datatype Call =
    | RegisterCall(local: Local, req: Request, registered: bool)
    | CancelCall(slot: nat, id: nat, local: Local)

  /** The runtime's command, with the answer the backend gives to it. */
  function Resolve(y: Sys, c: Call): Command {
    match c
    case RegisterCall(local, _, registered) => Register(local, registered)
    case CancelCall(slot, id, local) => Cancel(slot, id, local, y.io.Armed(slot))
  }

  function DoCall(y: Sys, c: Call): Sys {
    Sys(Perform(y.rt, Resolve(y, c)),
        match c
        case RegisterCall(_, req, registered) => if registered then Arm(y.io, y.rt.ops.Next(), req) else y.io
        case CancelCall(slot, id, _) =>
          if Cancellable(y.rt, slot, id) then CancelArmed(y.io, y.rt.cancels.Next(), slot) else y.io)
  }

  function DoCalls(y: Sys, cs: seq<Call>): Sys {
    if cs == [] then y else DoCall(DoCalls(y, cs[..|cs| - 1]), cs[|cs| - 1])
  }

  predicate CanCalls(y: Sys, cs: seq<Call>) {
    cs == [] || (CanCalls(y, cs[..|cs| - 1]) &&
                 var y1 := DoCalls(y, cs[..|cs| - 1]); CanPerform(y1.rt, Resolve(y1, cs[|cs| - 1])))
  }

  datatype Response = Response(onCancel: seq<Call>, left: Local, onOp: seq<Call>)

  function Settled(y: Sys, c: Completion, r: Response): Sys {
    y.(rt := Settle(y.rt, c.slot, Wins(y.rt, c), r.left))
  }

  function CancelCalled(y: Sys, c: Completion, r: Response): Sys {
    if CallsCancel(y.rt, c) then DoCalls(Settled(y, c, r), r.onCancel) else Settled(y, c, r)
  }

  function Delivered(y: Sys, c: Completion, r: Response): Sys {
    if !y.rt.ops.Live(c.slot) then y
    else
      var y2 := CancelCalled(y, c, r);
      var local := if CallsCancel(y.rt, c) then r.left else y.rt.ops.At(c.slot).local;
      y2.(rt := Deliver(y2.rt, c.slot, local, OutcomeOf(y.rt, c)))
  }

  /** The runtime takes one completion, its callbacks calling back into runtime and backend. */
  function TakeOne(y: Sys, c: Completion, r: Response): Sys {
    if c.cancel then y.(rt := CompleteCancel(y.rt, c.slot, c.result))
    else if !y.rt.ops.Live(c.slot) then y
    else DoCalls(Delivered(y, c, r), r.onOp)
  }

  /** One call from outside any callback, or one round of the drain loop. */
  datatype Move = Outside(call: Call) | Round(poll: Poll, response: Response)

  function Advance(y: Sys, x: Move): Sys {
    match x
    case Outside(c) => DoCall(y, c)
    case Round(p, r) =>
      var (io, c) := Next(y.io, p);
      if c.None? then y.(io := io) else TakeOne(y.(io := io), c.value, r)
  }

  /** Only the runtime's own limits (ids, slots) bound a move; nothing is asked of the completions. */
  predicate CanAdvance(y: Sys, x: Move) {
    match x
    case Outside(c) => CanPerform(y.rt, Resolve(y, c))
    case Round(p, r) =>
      var (io, c) := Next(y.io, p);
      c.Some? && !c.value.cancel && y.rt.ops.Live(c.value.slot) ==>
        var y' := y.(io := io);
        && (CallsCancel(y.rt, c.value) ==> CanCalls(Settled(y', c.value, r), r.onCancel))
        && CanCalls(Delivered(y', c.value, r), r.onOp)
  }
}
