/** What the readiness backend adds to the bare backend contract, in every run. */
module MioProofs {
  import opened Protocol
  import opened ProtocolProofs
  import opened MioBackend
  import opened MioRuntime

  // ── The invariant ──────────────────────────────────────────────────

  /** Counted from the end of the queue, so popping the front and pushing a pair leave it alone. */
  predicate CancelTurn(n: nat, j: nat) {
    j < n && (n - j) % 2 == 0
  }

  /** The cancel completion at `j` names a live cancel, whose target is the op named right after it. */
  ghost predicate NamesNext(y: Sys, j: nat) {
    && j + 1 < |y.io.ready| && y.rt.cancels.Live(y.io.ready[j].slot)
    && y.rt.cancels.At(y.io.ready[j].slot).target == y.io.ready[j + 1].slot
  }

  /** The queue is a sequence of adjacent (cancel, op) completions, possibly missing its very first one; no op
      is queued twice. */
  ghost predicate PairsUp(y: Sys) {
    var q := y.io.ready;
    && (forall j :: 0 <= j < |q| ==>
          q[j] == if CancelTurn(|q|, j) then CancelDone(q[j].slot) else OpCancelled(q[j].slot))
    && (forall j: nat {:trigger NamesNext(y, j)} :: CancelTurn(|q|, j) ==> NamesNext(y, j))
    && (forall j, k :: 0 <= j < k < |q| && !q[j].cancel && !q[k].cancel ==> q[j].slot != q[k].slot)
  }

  /** Every live op (bar the one in dispatch) is armed or has a queued completion, never both: queued exactly
      when it is marked pending.  A free slot is neither. */
  ghost predicate Accounted(y: Sys, t: int) {
    forall i {:trigger y.rt.ops.Live(i)} {:trigger y.io.Armed(i)} {:trigger y.io.Queued(i)} ::
      && (y.io.Armed(i) <==> y.rt.ops.Live(i) && i != t && !y.rt.ops.At(i).pending)
      && (y.io.Queued(i) <==> y.rt.ops.Live(i) && i != t && y.rt.ops.At(i).pending)
  }

  /** No cancel was ever refused or lost. */
  ghost predicate NoneLost(log: seq<Event>) {
    forall k :: 0 <= k < |log| ==> !log[k].CancelLost? && !log[k].CancelRefused? && !log[k].TornDown?
  }

  ghost predicate SysInv(y: Sys, t: int) {
    Inv(y.rt, t) && PairsUp(y) && Accounted(y, t) && NoneLost(y.rt.log)
  }

  lemma PairsFrame(y: Sys, y': Sys)
    requires PairsUp(y) && y'.io.ready == y.io.ready && y'.rt.cancels == y.rt.cancels
    ensures PairsUp(y') && forall i :: y'.io.Queued(i) == y.io.Queued(i)
  {
    forall j: nat | CancelTurn(|y.io.ready|, j)
      ensures NamesNext(y', j)
    {
      assert NamesNext(y, j);
    }
  }

  // ── Calls ──────────────────────────────────────────────────────────

  lemma ArmKeeps(m: Mio, slot: nat, req: Request)
    ensures var m' := Arm(m, slot, req);
            m'.ready == m.ready && m'.Armed(slot) && forall i :: i != slot ==> m'.Armed(i) == m.Armed(i)
  {
  }

  lemma RegisterCallKeeps(y: Sys, t: int, local: Local, req: Request, registered: bool)
    requires SysInv(y, t) && InTransit(y.rt, t) && CanPerform(y.rt, Register(local, registered))
    ensures SysInv(DoCall(y, RegisterCall(local, req, registered)), t)
  {
    var y', n := DoCall(y, RegisterCall(local, req, registered)), y.rt.ops.Next();
    RegisterKeeps(y.rt, t, local, registered);
    hide Inv;
    RegisterBooks(y, t, local, req, registered);
  }

  lemma RegisterBooks(y: Sys, t: int, local: Local, req: Request, registered: bool)
    requires y.rt.ops.Valid() && PairsUp(y) && Accounted(y, t) && (t == -1 || y.rt.ops.Live(t)) && NoneLost(y.rt.log)
    ensures var y' := DoCall(y, RegisterCall(local, req, registered));
      PairsUp(y') && Accounted(y', t) && NoneLost(y'.rt.log)
  {
    var y', n := DoCall(y, RegisterCall(local, req, registered)), y.rt.ops.Next();
    RegisterSlab(y.rt, local, registered);
    ArmKeeps(y.io, n, req);
    hide Slab.Valid;
    PairsFrame(y, y');
  }

  /** The backend accepts every cancellation the runtime asks it for, and queues its two completions. */
  lemma CancelCallKeeps(y: Sys, t: int, slot: nat, id: nat, local: Local)
    requires SysInv(y, t) && InTransit(y.rt, t) && CanPerform(y.rt, Resolve(y, CancelCall(slot, id, local)))
    ensures SysInv(DoCall(y, CancelCall(slot, id, local)), t)
    ensures Cancellable(y.rt, slot, id) ==> y.io.Armed(slot)
  {
    CancelKeeps(y.rt, t, slot, id, local, y.io.Armed(slot));
    if Cancellable(y.rt, slot, id) {
      assert y.io.Armed(slot);
      hide Inv;
      CancelPairs(y, t, slot, id, local);
      CancelBooks(y, t, slot, id, local);
    }
  }

  lemma CancelPairs(y: Sys, t: int, slot: nat, id: nat, local: Local)
    requires y.rt.ops.Valid() && y.rt.cancels.Valid() && PairsUp(y) && Accounted(y, t)
    requires Cancellable(y.rt, slot, id) && slot != t && y.io.Armed(slot) && NoneLost(y.rt.log)
    ensures PairsUp(DoCall(y, CancelCall(slot, id, local)))
    ensures NoneLost(DoCall(y, CancelCall(slot, id, local)).rt.log)
  {
    var y', n := DoCall(y, CancelCall(slot, id, local)), y.rt.cancels.Next();
    CancelSlab(y.rt, slot, id, local, true);
    var q, q' := y.io.ready, y'.io.ready;
    assert q' == q + [CancelDone(n), OpCancelled(slot)];
    assert !y.io.Queued(slot);
    forall j: nat | CancelTurn(|q'|, j)
      ensures NamesNext(y', j)
    {
      if j < |q| {
        assert CancelTurn(|q|, j) && NamesNext(y, j);
      }
    }
    forall j | 0 <= j < |q'|
      ensures q'[j] == if CancelTurn(|q'|, j) then CancelDone(q'[j].slot) else OpCancelled(q'[j].slot)
    {
      assert j < |q| ==> CancelTurn(|q'|, j) == CancelTurn(|q|, j);
    }
  }

  lemma CancelBooks(y: Sys, t: int, slot: nat, id: nat, local: Local)
    requires y.rt.ops.Valid() && y.rt.cancels.Valid() && Accounted(y, t)
    requires Cancellable(y.rt, slot, id) && slot != t && y.io.Armed(slot)
    ensures Accounted(DoCall(y, CancelCall(slot, id, local)), t)
  {
    var y', n := DoCall(y, CancelCall(slot, id, local)), y.rt.cancels.Next();
    CancelSlab(y.rt, slot, id, local, true);
    hide Slab.Valid;
    var q, q' := y.io.ready, y'.io.ready;
    assert q' == q + [CancelDone(n), OpCancelled(slot)];
    QueuedPush(y.io, y'.io, CancelDone(n), slot);
  }

  lemma QueuedPush(m: Mio, m': Mio, c: Completion, slot: nat)
    requires c.cancel && m'.ready == m.ready + [c, OpCancelled(slot)]
    ensures forall i :: m'.Queued(i) <==> m.Queued(i) || i == slot
  {
    forall i
      ensures m'.Queued(i) <==> m.Queued(i) || i == slot
    {
      if m.Queued(i) {
        var j :| 0 <= j < |m.ready| && !m.ready[j].cancel && m.ready[j].slot == i;
        assert m'.ready[j] == m.ready[j];
      }
      assert m'.ready[|m.ready| + 1] == OpCancelled(slot);
    }
  }

  lemma {:induction false} CallsKeep(y: Sys, t: int, cs: seq<Call>)
    requires SysInv(y, t) && InTransit(y.rt, t) && CanCalls(y, cs)
    ensures var y' := DoCalls(y, cs);
            && SysInv(y', t) && InTransit(y'.rt, t)
            && (t != -1 ==> y'.rt.ops.At(t) == y.rt.ops.At(t))
  {
    hide SysInv, DoCall;
    if cs != [] {
      CallsKeep(y, t, cs[..|cs| - 1]);
      CallKeeps(DoCalls(y, cs[..|cs| - 1]), t, cs[|cs| - 1]);
    }
  }

  lemma CallKeeps(y: Sys, t: int, c: Call)
    requires SysInv(y, t) && InTransit(y.rt, t) && CanPerform(y.rt, Resolve(y, c))
    ensures var y' := DoCall(y, c);
            && SysInv(y', t) && InTransit(y'.rt, t)
            && (t != -1 ==> y'.rt.ops.At(t) == y.rt.ops.At(t))
  {
    PerformKeeps(y.rt, t, Resolve(y, c));
    hide Inv, PairsUp, Accounted, Perform;
    match c
    case RegisterCall(local, req, registered) =>
      RegisterCallKeeps(y, t, local, req, registered);
    case CancelCall(slot, id, local) =>
      CancelCallKeeps(y, t, slot, id, local);
  }

  // ── Completions ────────────────────────────────────────────────────

  /** Taking a completion out of the backend puts its op, if it is an op's, in transit. */
  ghost predicate Popped(y: Sys, c: Completion) {
    if c.cancel then SysInv(y, -1) && c.slot < |y.rt.cancels.slots| && c.result == 0
    else
      && Inv(y.rt, -1) && PairsUp(y) && Accounted(y, c.slot) && NoneLost(y.rt.log)
      && y.rt.ops.Live(c.slot) && y.rt.ops.At(c.slot).pending == c.cancelled
  }

  lemma QueuedPop(m: Mio, m': Mio)
    requires m.ready != [] && m'.ready == m.ready[1..]
    requires forall j, k :: 0 <= j < k < |m.ready| && !m.ready[j].cancel && !m.ready[k].cancel ==>
      m.ready[j].slot != m.ready[k].slot
    ensures forall i :: m'.Queued(i) <==> m.Queued(i) && (m.ready[0].cancel || m.ready[0].slot != i)
  {
    forall i
      ensures m'.Queued(i) <==> m.Queued(i) && (m.ready[0].cancel || m.ready[0].slot != i)
    {
      if m'.Queued(i) {
        var j :| 0 <= j < |m'.ready| && !m'.ready[j].cancel && m'.ready[j].slot == i;
        assert m.ready[j + 1] == m'.ready[j];
      }
      if m.Queued(i) && (m.ready[0].cancel || m.ready[0].slot != i) {
        var j :| 0 <= j < |m.ready| && !m.ready[j].cancel && m.ready[j].slot == i;
        assert m'.ready[j - 1] == m.ready[j];
      }
    }
  }

  lemma PopPairs(y: Sys)
    requires PairsUp(y) && y.io.ready != []
    ensures PairsUp(y.(io := y.io.(ready := y.io.ready[1..])))
  {
    var y' := y.(io := y.io.(ready := y.io.ready[1..]));
    var q, q' := y.io.ready, y.io.ready[1..];
    forall j: nat | CancelTurn(|q'|, j)
      ensures NamesNext(y', j)
    {
      assert CancelTurn(|q|, j + 1) && NamesNext(y, j + 1);
    }
    forall j | 0 <= j < |q'|
      ensures q'[j] == if CancelTurn(|q'|, j) then CancelDone(q'[j].slot) else OpCancelled(q'[j].slot)
    {
      assert CancelTurn(|q'|, j) == CancelTurn(|q|, j + 1) && q'[j] == q[j + 1];
    }
  }

  lemma PopBooks(y: Sys)
    requires PairsUp(y) && Accounted(y, -1) && y.io.ready != []
    ensures var c := y.io.ready[0];
      Accounted(y.(io := y.io.(ready := y.io.ready[1..])), if c.cancel then -1 else c.slot)
    ensures var c := y.io.ready[0];
            if c.cancel then c.result == 0 && y.rt.cancels.Live(c.slot)
            else c.cancelled && y.rt.ops.Live(c.slot) && y.rt.ops.At(c.slot).pending
  {
    var m', c := y.io.(ready := y.io.ready[1..]), y.io.ready[0];
    QueuedPop(y.io, m');
    if c.cancel {
      assert NamesNext(y, 0);
    } else {
      assert y.io.Queued(c.slot);
    }
  }

  lemma PopKeeps(y: Sys)
    requires SysInv(y, -1) && y.io.ready != []
    ensures Popped(y.(io := y.io.(ready := y.io.ready[1..])), y.io.ready[0])
  {
    PopPairs(y);
    PopBooks(y);
    hide Inv, PairsUp, Accounted;
  }

  /** Every completion the backend reports passes the runtime's assertions. */
  lemma NextKeeps(y: Sys, p: Poll)
    requires SysInv(y, -1)
    ensures var (io, c) := Next(y.io, p);
            if c.None? then io == y.io else Popped(y.(io := io), c.value)
  {
    if y.io.ready != [] {
      PopKeeps(y);
    } else if p.token.Some? && y.io.Armed(p.token.value) && !p.answer.WouldBlock? {
      var slot := p.token.value;
      var y' := y.(io := TakePending(y.io, slot));
      PairsFrame(y, y');
      assert forall i :: y'.io.Armed(i) == (y.io.Armed(i) && i != slot);
    }
  }

  /** Settling a completing op consumes its cancel and no other; the queue's other pairs stand. */
  lemma SettledKeeps(y: Sys, c: Completion, r: Response)
    requires !c.cancel && Popped(y, c)
    ensures var y1 := Settled(y, c, r); SysInv(y1, c.slot) && y1.rt.ops == y.rt.ops
  {
    SettleKeeps(y.rt, c.slot, Wins(y.rt, c), r.left);
    if y.rt.ops.At(c.slot).pending {
      CancelFound(y.rt, c.slot);
      hide Inv;
      SettledPairs(y, c, r);
    }
  }

  lemma SettledPairs(y: Sys, c: Completion, r: Response)
    requires y.rt.cancels.Valid() && PairsUp(y) && Accounted(y, c.slot) && NoneLost(y.rt.log)
    requires Wins(y.rt, c) && FindCancel(y.rt.cancels.slots, c.slot, y.rt.ops.At(c.slot).id, 0).Some?
    ensures PairsUp(Settled(y, c, r)) && NoneLost(Settled(y, c, r).rt.log)
  {
    var y1, n := Settled(y, c, r), FindCancel(y.rt.cancels.slots, c.slot, y.rt.ops.At(c.slot).id, 0).value;
    ReleaseKeeps(y.rt.cancels, n);
    hide Slab.Valid;
    assert !y.io.Queued(c.slot);
    forall j: nat | CancelTurn(|y.io.ready|, j)
      ensures NamesNext(y1, j)
    {
      assert NamesNext(y, j);
      assert !y.io.ready[j + 1].cancel && y.io.ready[j + 1].slot != c.slot;
    }
  }

  lemma DeliveredKeeps(y: Sys, i: nat, local: Local, outcome: Outcome)
    requires SysInv(y, i) && y.rt.ops.Live(i) && (outcome.Completed? ==> local == y.rt.ops.At(i).local)
    ensures SysInv(y.(rt := Deliver(y.rt, i, local, outcome)), -1)
  {
    DeliverKeeps(y.rt, i, local, outcome);
    ReleaseKeeps(y.rt.ops, i);
    PairsFrame(y, y.(rt := Deliver(y.rt, i, local, outcome)));
    hide Inv, PairsUp, Slab.Valid;
  }

  /** The invariant where the cancel's callback starts, and where the op's does. */
  lemma StagesKeep(y: Sys, c: Completion, r: Response)
    requires !c.cancel && Popped(y, c)
    requires CallsCancel(y.rt, c) ==> CanCalls(Settled(y, c, r), r.onCancel)
    ensures SysInv(Settled(y, c, r), c.slot) && (Wins(y.rt, c) ==> InTransit(Settled(y, c, r).rt, c.slot))
    ensures SysInv(Delivered(y, c, r), -1)
  {
    SettledKeeps(y, c, r);
    if CallsCancel(y.rt, c) {
      CallsKeep(Settled(y, c, r), c.slot, r.onCancel);
    }
    assert Wins(y.rt, c) ==> CallsCancel(y.rt, c) by {
      if Wins(y.rt, c) {
        CancelFound(y.rt, c.slot);
      }
    }
    hide SysInv;
    DeliveredKeeps(CancelCalled(y, c, r), c.slot,
                   if CallsCancel(y.rt, c) then r.left else y.rt.ops.At(c.slot).local, OutcomeOf(y.rt, c));
  }

  lemma TakeOneKeeps(y: Sys, c: Completion, r: Response)
    requires Popped(y, c)
    requires !c.cancel ==>
               && (CallsCancel(y.rt, c) ==> CanCalls(Settled(y, c, r), r.onCancel))
               && CanCalls(Delivered(y, c, r), r.onOp)
    ensures SysInv(TakeOne(y, c, r), -1)
  {
    if !c.cancel {
      StagesKeep(y, c, r);
      hide SysInv;
      CallsKeep(Delivered(y, c, r), -1, r.onOp);
    }
  }

  lemma AdvanceSysKeeps(y: Sys, x: Move)
    requires SysInv(y, -1) && MioRuntime.CanAdvance(y, x)
    ensures SysInv(MioRuntime.Advance(y, x), -1)
  {
    hide SysInv;
    match x
    case Outside(c) =>
      CallKeeps(y, -1, c);
    case Round(p, r) =>
      NextKeeps(y, p);
      var (io, c) := Next(y.io, p);
      if c.Some? {
        TakeOneKeeps(y.(io := io), c.value, r);
      }
  }
}
