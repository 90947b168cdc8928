/** What the readiness backend tells an op's callback, and which syscall it issues for it. */
module MioReports {
  import opened Wrappers
  import opened Protocol
  import opened ProtocolProofs
  import opened ProtocolTheorems
  import opened MioBackend
  import opened MioRuntime
  import opened MioProofs
  import opened MioTheorems

  // ── What can happen ────────────────────────────────────────────────

  /** In every state of every run, whatever the poller and the syscalls answer, a round can be made; only what the
      callbacks call in it is bounded, by the runtime's limits. */
  lemma RoundIsPossible(y: Sys, p: Poll, left: Local)
    requires MioReachable(y)
    ensures MioRuntime.CanAdvance(y, Round(p, Response([], left, [])))
  {
  }

  // ── Results ────────────────────────────────────────────────────────

  /** One round with nothing queued.  The event names an armed op and the syscall answers: the op's callback gets
      the op's local and that answer, an error as its negated number, and after it come only the events of the
      calls it makes.  Nothing armed under the event's slot, no event, or a syscall that would block: nothing
      happens at all. */
  lemma RoundReportsResult(y: Sys, p: Poll, r: Response) returns (after: seq<Event>)
    requires MioReachable(y) && MioRuntime.CanAdvance(y, Round(p, r)) && y.io.ready == []
    ensures Quiet(after)
    ensures var y' := MioRuntime.Advance(y, Round(p, r));
      if p.token.Some? && y.io.Armed(p.token.value) && !p.answer.WouldBlock? then
        && y.rt.ops.Live(p.token.value)
        && var x := y.rt.ops.At(p.token.value);
           var result := if p.answer.Returned? then p.answer.n else -p.answer.errno;
           y'.rt.log == y.rt.log + [OpRan(x.id, x.local, Completed(result, 0))] + after
      else y' == y
  {
    after := [];
    MioReachableInv(y);
    NextKeeps(y, p);
    if p.token.Some? && y.io.Armed(p.token.value) && !p.answer.WouldBlock? {
      var i := p.token.value;
      assert y.rt.ops.Live(i) && !y.rt.ops.At(i).pending;
      var (io, c) := Next(y.io, p);
      var now := y.(io := io);
      TakeOneProjects(now, c.value, r);
      var _, _, tail := DispatchShape(y.rt, c.value, ReactionOf(now, c.value, r));
      after := tail;
    }
  }

  /** One round with completions queued: the first of them is taken, whatever the poller has to say.  A cancel's
      leaves the runtime as it is; an op's runs the callback of its cancel, then its own with `Cancelled`. */
  lemma RoundTakesQueue(y: Sys, p: Poll, r: Response)
    returns (x: CancelRec, quiet: seq<Event>, after: seq<Event>)
    requires MioReachable(y) && MioRuntime.CanAdvance(y, Round(p, r)) && y.io.ready != []
    ensures Quiet(quiet) && Quiet(after)
    ensures var y', first := MioRuntime.Advance(y, Round(p, r)), y.io.ready[0];
      if first.cancel then y' == y.(io := y.io.(ready := y.io.ready[1..]))
      else
        && y.rt.ops.Live(first.slot)
        && var op := y.rt.ops.At(first.slot);
           && Some(x) in y.rt.cancels.slots && Names(x, first.slot, op.id)
           && y'.rt.log == y.rt.log + [CancelRan(x.id, x.local, op.id, op.local, r.left)] + quiet
                           + [OpRan(op.id, r.left, Cancelled)] + after
  {
    x, quiet, after := CancelRec(0, 0, 0, 0), [], [];
    MioReachableInv(y);
    QueueHead(y);
    var first, now := y.io.ready[0], y.(io := y.io.(ready := y.io.ready[1..]));
    assert Next(y.io, p) == (now.io, Some(first));
    if !first.cancel {
      hide Inv, PairsUp, Accounted, NoneLost, MioReachable, Next, TakeOne;
      x, quiet, after := CancelledOpRuns(now, first, r);
    }
  }

  lemma CancelledOpRuns(y: Sys, c: Completion, r: Response) returns (x: CancelRec, quiet: seq<Event>, after: seq<Event>)
    requires Inv(y.rt, -1) && !c.cancel && c.cancelled && y.rt.ops.Live(c.slot) && y.rt.ops.At(c.slot).pending
    requires CallsCancel(y.rt, c) ==> CanCalls(Settled(y, c, r), r.onCancel)
    requires CanCalls(Delivered(y, c, r), r.onOp)
    ensures Quiet(quiet) && Quiet(after)
    ensures var op := y.rt.ops.At(c.slot);
      && Some(x) in y.rt.cancels.slots && Names(x, c.slot, op.id)
      && TakeOne(y, c, r).rt.log == y.rt.log + [CancelRan(x.id, x.local, op.id, op.local, r.left)] + quiet
                                    + [OpRan(op.id, r.left, Cancelled)] + after
  {
    hide Inv, CanCalls, Settled, Delivered, CallsCancel, TakeOne, CanTake, EventsOf, CompleteOp;
    TakeOneProjects(y, c, r);
    x, quiet, after := DispatchShape(y.rt, c, ReactionOf(y, c, r));
    var op := y.rt.ops.At(c.slot);
    Regroup(y.rt.log, [CancelRan(x.id, x.local, op.id, op.local, r.left)], quiet, [OpRan(op.id, r.left, Cancelled)]);
  }

  lemma Regroup(a: seq<Event>, b: seq<Event>, c: seq<Event>, d: seq<Event>)
    ensures a + (b + c + d) == a + b + c + d
  {
  }

  lemma QueueHead(y: Sys)
    requires SysInv(y, -1) && y.io.ready != []
    ensures var first := y.io.ready[0];
      if first.cancel then first.result == 0
      else first.cancelled && y.rt.ops.Live(first.slot) && y.rt.ops.At(first.slot).pending
  {
    hide Inv;
    var first := y.io.ready[0];
    assert !first.cancel ==> y.io.Queued(first.slot);
  }

  // ── Requests ───────────────────────────────────────────────────────

  /** Every entry armed in `y` is either still armed with the same request in `z` or gone, and the ops in `y` are
      there in `z`. */
  ghost predicate SameRequests(y: Sys, z: Sys, but: int) {
    forall i :: i != but && y.rt.ops.Live(i) ==>
      && z.rt.ops.Live(i) && z.rt.ops.At(i).id == y.rt.ops.At(i).id
      && (z.io.Armed(i) ==> y.io.Armed(i) && z.io.pending[i] == y.io.pending[i])
  }

  /** A registration arms its own request under the slot it takes; no call touches another entry's request. */
  lemma CallRequests(y: Sys, t: int, c: Call)
    requires SysInv(y, t) && InTransit(y.rt, t)
    ensures var z := DoCall(y, c);
      && SameRequests(y, z, -1)
      && (c.RegisterCall? && c.registered ==>
            var i := y.rt.ops.Next();
            && z.rt.ops.Live(i) && z.rt.ops.At(i) == OpRec(y.rt.nextId, false, c.local)
            && z.io.Armed(i) && z.io.pending[i] == Some(c.req))
      && (c.RegisterCall? && !c.registered ==> z.io == y.io && z.rt == Perform(y.rt, Register(c.local, false)))
      && (c.CancelCall? ==> z.rt == Perform(y.rt, Cancel(c.slot, c.id, c.local, y.io.Armed(c.slot))))
  {
    hide Linked, FreshIds, Ledger, PairsUp, NoneLost;
    match c
    case RegisterCall(local, req, registered) =>
      RegisterSlab(y.rt, local, registered);
      ArmKeeps(y.io, y.rt.ops.Next(), req);
      assert !y.io.Armed(y.rt.ops.Next());
    case CancelCall(slot, id, local) =>
      if Cancellable(y.rt, slot, id) {
        CancelSlab(y.rt, slot, id, local, y.io.Armed(slot));
      }
  }

  lemma {:induction false} CallsRequests(y: Sys, t: int, cs: seq<Call>)
    requires SysInv(y, t) && InTransit(y.rt, t) && CanCalls(y, cs)
    ensures SameRequests(y, DoCalls(y, cs), -1)
  {
    hide SysInv, DoCall;
    if cs != [] {
      var n := |cs| - 1;
      CallsRequests(y, t, cs[..n]);
      CallsKeep(y, t, cs[..n]);
      CallRequests(DoCalls(y, cs[..n]), t, cs[n]);
    }
  }
  lemma RequestsChain(y: Sys, k: Sys, z: Sys, a: int, b: int)
    requires SameRequests(y, k, a) && SameRequests(k, z, b) && (a == -1 || b == -1)
    ensures SameRequests(y, z, if a == -1 then b else a)
  {
  }

  lemma SettledRequests(y: Sys, c: Completion, r: Response)
    ensures SameRequests(y, Settled(y, c, r), -1)
  {
  }

  lemma DeliveredRequests(y: Sys, i: nat, local: Local, outcome: Outcome)
    ensures SameRequests(y, y.(rt := Deliver(y.rt, i, local, outcome)), i)
  {
  }

  /** Taking a completion touches no request but the completed op's. */
  lemma TakeRequests(y: Sys, c: Completion, r: Response)
    requires Popped(y, c) && !c.cancel
    requires CallsCancel(y.rt, c) ==> CanCalls(Settled(y, c, r), r.onCancel)
    requires CanCalls(Delivered(y, c, r), r.onOp)
    ensures SameRequests(y, TakeOne(y, c, r), c.slot)
  {
    assert y.rt.ops.Live(c.slot);
    hide Popped, SysInv, CanCalls, SameRequests, Settled, DoCalls;
    StagesKeep(y, c, r);
    SettledRequests(y, c, r);
    if CallsCancel(y.rt, c) {
      CallsRequests(Settled(y, c, r), c.slot, r.onCancel);
      RequestsChain(y, Settled(y, c, r), CancelCalled(y, c, r), -1, -1);
    }
    var k, z := CancelCalled(y, c, r), Delivered(y, c, r);
    var local := if CallsCancel(y.rt, c) then r.left else y.rt.ops.At(c.slot).local;
    DeliveredRequests(k, c.slot, local, OutcomeOf(y.rt, c));
    RequestsChain(y, k, z, -1, c.slot);
    CallsRequests(z, -1, r.onOp);
    RequestsChain(y, z, TakeOne(y, c, r), c.slot, -1);
  }

  lemma PopRequests(y: Sys, p: Poll)
    requires SysInv(y, -1)
    ensures var (io, c) := Next(y.io, p);
      SameRequests(y, y.(io := io), -1)
  {
  }

  /** In every run, an op that stays armed stays armed with the request it had: the syscall issued for it in the end
      is the one it was registered with. */
  lemma RequestStays(y: Sys, x: Move, i: nat)
    requires MioReachable(y) && MioRuntime.CanAdvance(y, x)
    requires var z := MioRuntime.Advance(y, x);
      && y.rt.ops.Live(i) && z.rt.ops.Live(i) && z.rt.ops.At(i).id == y.rt.ops.At(i).id && z.io.Armed(i)
    ensures y.io.Armed(i) && MioRuntime.Advance(y, x).io.pending[i] == y.io.pending[i]
  {
    MioReachableInv(y);
    match x
    case Outside(c) =>
      CallRequests(y, -1, c);
    case Round(p, r) =>
      NextKeeps(y, p);
      PopRequests(y, p);
      var (io, c) := Next(y.io, p);
      var now := y.(io := io);
      if c.Some? && !c.value.cancel {
        TakeRequests(now, c.value, r);
        if i == c.value.slot {
          CompletedIsGone(now, c.value, r);
        }
      }
  }

  /** A completed op's id is gone for good, whoever takes its slot. */
  lemma CompletedIsGone(y: Sys, c: Completion, r: Response)
    requires Popped(y, c) && !c.cancel
    requires CallsCancel(y.rt, c) ==> CanCalls(Settled(y, c, r), r.onCancel)
    requires CanCalls(Delivered(y, c, r), r.onOp)
    ensures var z := TakeOne(y, c, r); z.rt.ops.Live(c.slot) ==> z.rt.ops.At(c.slot).id != y.rt.ops.At(c.slot).id
  {
    assert y.rt.ops.Live(c.slot) && Inv(y.rt, -1);
    TakeOneKeeps(y, c, r);
    hide Popped, Inv, CanCalls, Settled, Delivered, TakeOne, CanTake, EventsOf, CompleteOp, Story;
    TakeOneProjects(y, c, r);
    var x, quiet, after := DispatchShape(y.rt, c, ReactionOf(y, c, r));
    var z, op := TakeOne(y, c, r), y.rt.ops.At(c.slot);
    var block := Dispatched(op, x, c, r.left, quiet);
    assert z.rt.log[|y.rt.log| + |block| - 1] == block[|block| - 1];
    RanIsNotLive(z.rt, |y.rt.log| + |block| - 1, c.slot);
  }

  lemma RanIsNotLive(s: State, k: nat, i: nat)
    requires Inv(s, -1) && k < |s.log| && s.log[k].OpRan?
    ensures s.ops.Live(i) ==> s.ops.At(i).id != s.log[k].id
  {
    StoryHas(s.log, k);
  }

}
