/** The debts of an honest backend, told by what happened: a completion is owed for exactly the cancels that were
    submitted and whose completion has not arrived. */
module HonestBooks {
  import opened Protocol
  import opened ProtocolProofs
  import opened ProtocolTheorems
  import opened HonestBackend

  ghost predicate Owes(owed: set<Debt>, id: nat) {
    exists d :: d in owed && d.id == id
  }

  ghost predicate Submitted(log: seq<Event>, id: nat) {
    exists k :: 0 <= k < |log| && log[k].CancelSubmitted? && log[k].id == id
  }

  /** The completion of cancel `id` has arrived. */
  ghost predicate Arrived(ms: seq<Move>, id: nat) {
    exists k :: 0 <= k < |ms| && ms[k].CancelDone? && ms[k].id == id
  }

  lemma SubmittedConcat(a: seq<Event>, b: seq<Event>, id: nat)
    ensures Submitted(a + b, id) <==> Submitted(a, id) || Submitted(b, id)
  {
    if Submitted(a, id) {
      var k :| 0 <= k < |a| && a[k].CancelSubmitted? && a[k].id == id;
      assert (a + b)[k] == a[k];
    }
    if Submitted(b, id) {
      var k :| 0 <= k < |b| && b[k].CancelSubmitted? && b[k].id == id;
      assert (a + b)[|a| + k] == b[k];
    }
  }

  /** No cancel is owed more than one completion. */
  ghost predicate Single(owed: set<Debt>) {
    forall d, e :: d in owed && e in owed && d.id == e.id ==> d == e
  }

  lemma NothingYet(id: nat)
    ensures !Submitted([], id) && !Owes({}, id) && Single({})
  {
  }

  lemma CallOwes(w: World, c: Command, id: nat)
    requires Sane(w) && Single(w.owed)
    ensures Single(Call(w, c).owed) && w.rt.nextId <= Call(w, c).rt.nextId
    ensures Owes(Call(w, c).owed, id) <==> Owes(w.owed, id) || Submitted(EventOf(w.rt, c), id)
    ensures Submitted(EventOf(w.rt, c), id) ==> w.rt.nextId <= id
  {
    if c.Cancel? && c.submitted && Cancellable(w.rt, c.slot, c.id) {
      assert Debt(w.rt.cancels.Next(), w.rt.nextId) in Call(w, c).owed;
      assert EventOf(w.rt, c)[0] == CancelSubmitted(w.rt.nextId, c.local, c.id);
    }
  }

  lemma {:induction false} CallsOwe(w: World, t: int, cs: seq<Command>, id: nat)
    requires Inv(w.rt, t) && InTransit(w.rt, t) && CanPerformAll(w.rt, cs) && Sane(w) && Single(w.owed)
    ensures Single(Calls(w, cs).owed) && w.rt.nextId <= PerformAll(w.rt, cs).nextId
    ensures Owes(Calls(w, cs).owed, id) <==> Owes(w.owed, id) || Submitted(EventsOf(w.rt, cs), id)
    ensures Submitted(EventsOf(w.rt, cs), id) ==> w.rt.nextId <= id
  {
    hide Inv, Sane, Perform, Single, Owes, Submitted, CanPerform, EventOf;
    if cs == [] {
      NothingYet(id);
    } else {
      var n := |cs| - 1;
      CallsOwe(w, t, cs[..n], id);
      CallsSane(w, t, cs[..n]);
      CallOwes(Calls(w, cs[..n]), cs[n], id);
      SubmittedConcat(EventsOf(w.rt, cs[..n]), EventOf(PerformAll(w.rt, cs[..n]), cs[n]), id);
    }
  }

  /** What the callbacks of one completion add to the debts is what they add to the log. */
  lemma OpDoneOwes(w: World, c: Completion, r: Reaction, id: nat) returns (events: seq<Event>)
    requires HonestInv(w) && !c.cancel && CanTake(w.rt, c, r) && Single(w.owed)
    ensures var v := Next(w, OpDone(c, r));
      && v.rt.log == w.rt.log + events && Single(v.owed)
      && (Owes(v.owed, id) <==> Owes(w.owed, id) || Submitted(events, id))
      && (Submitted(events, id) ==> w.rt.nextId <= id)
  {
    assert w.rt.ops.Live(c.slot);
    hide Sane, Single, Owes, Submitted, CanTake, EventsOf, AfterDeliver, OwedAfter, CompleteOp, Settle, Dispatched;
    hide Linked, FreshIds, Ledger, Slab.Valid;
    var x, quiet, after := DispatchShape(w.rt, c, r);
    var block := Dispatched(w.rt.ops.At(c.slot), x, c, r.left, quiet);
    events := block + after;
    OpDoneOwed(w, c, r, quiet, id);
    SubmittedConcat(block, after, id);
    BlockSubmits(w.rt.ops.At(c.slot), x, c, r.left, quiet, id);
    Regroup(w.rt.log, block, after);
  }

  lemma Regroup(a: seq<Event>, b: seq<Event>, c: seq<Event>)
    ensures a + b + c == a + (b + c)
  {
  }

  lemma OpDoneOwed(w: World, c: Completion, r: Reaction, quiet: seq<Event>, id: nat)
    requires HonestInv(w) && !c.cancel && CanTake(w.rt, c, r) && Single(w.owed)
    requires quiet == if w.rt.ops.At(c.slot).pending && c.cancelled
                      then EventsOf(Settle(w.rt, c.slot, true, r.left), r.onCancel) else []
    ensures var after := EventsOf(AfterDeliver(w.rt, c, r), r.onOp);
      && Single(OwedAfter(w, c, r))
      && (Owes(OwedAfter(w, c, r), id) <==> Owes(w.owed, id) || Submitted(quiet, id) || Submitted(after, id))
      && (Submitted(quiet, id) || Submitted(after, id) ==> w.rt.nextId <= id)
  {
    assert w.rt.ops.Live(c.slot) && CanPerformAll(AfterDeliver(w.rt, c, r), r.onOp);
    OpDoneSane(w, c, r);
    CompleteOpKeeps(w.rt, c, r);
    CancelOwes(w, c, r, quiet, id);
    hide Inv, Sane, Single, Owes, Submitted, EventsOf, AfterDeliver, OwedAfterCancel, CanPerformAll, Calls, CanTake;
    CallsOwe(World(AfterDeliver(w.rt, c, r), OwedAfterCancel(w, c, r)), -1, r.onOp, id);
  }

  lemma BlockSubmits(op: OpRec, x: CancelRec, c: Completion, left: Local, quiet: seq<Event>, id: nat)
    requires !op.pending || !c.cancelled ==> quiet == []
    ensures Submitted(Dispatched(op, x, c, left, quiet), id) <==> Submitted(quiet, id)
  {
    if op.pending && c.cancelled {
      var ran, done := [CancelRan(x.id, x.local, op.id, op.local, left)], [OpRan(op.id, left, Cancelled)];
      SubmittedConcat(ran, quiet, id);
      SubmittedConcat(ran + quiet, done, id);
    }
  }

  lemma CancelOwes(w: World, c: Completion, r: Reaction, quiet: seq<Event>, id: nat)
    requires HonestInv(w) && !c.cancel && CanTake(w.rt, c, r) && Single(w.owed)
    requires quiet == if w.rt.ops.At(c.slot).pending && c.cancelled
                      then EventsOf(Settle(w.rt, c.slot, true, r.left), r.onCancel) else []
    ensures Single(OwedAfterCancel(w, c, r)) && w.rt.nextId <= AfterDeliver(w.rt, c, r).nextId
    ensures Owes(OwedAfterCancel(w, c, r), id) <==> Owes(w.owed, id) || Submitted(quiet, id)
    ensures Submitted(quiet, id) ==> w.rt.nextId <= id
  {
    SettleKeeps(w.rt, c.slot, Wins(w.rt, c), r.left);
    SettleSane(w, c.slot, Wins(w.rt, c), r.left);
    if Wins(w.rt, c) {
      CancelFound(w.rt, c.slot);
      hide Linked, FreshIds, Ledger, Sane, Single, Owes, Submitted, EventsOf;
      CallsOwe(World(Settle(w.rt, c.slot, true, r.left), w.owed), c.slot, r.onCancel, id);
    } else {
      NothingYet(id);
    }
  }

  /** The books of a run, for one id: it is owed a completion iff it was submitted and none arrived. */
  ghost predicate Books(w: World, ms: seq<Move>, id: nat) {
    && Single(w.owed) && (Owes(w.owed, id) <==> Submitted(w.rt.log, id) && !Arrived(ms, id))
    && (Arrived(ms, id) ==> id < w.rt.nextId)
  }

  lemma ArrivedSnoc(ms: seq<Move>, m: Move, id: nat)
    ensures Arrived(ms + [m], id) <==> Arrived(ms, id) || (m.CancelDone? && m.id == id)
  {
    var all := ms + [m];
    if Arrived(ms, id) {
      var k :| 0 <= k < |ms| && ms[k].CancelDone? && ms[k].id == id;
      assert all[k] == ms[k];
    }
    if m.CancelDone? && m.id == id {
      assert all[|ms|] == m;
    }
  }

  lemma PaidOnce(w: World, slot: nat, who: nat, id: nat)
    requires Single(w.owed) && Debt(slot, who) in w.owed
    ensures Single(w.owed - {Debt(slot, who)})
    ensures Owes(w.owed - {Debt(slot, who)}, id) <==> Owes(w.owed, id) && id != who
  {
    if Owes(w.owed, id) && id != who {
      var d :| d in w.owed && d.id == id;
      assert d in w.owed - {Debt(slot, who)};
    }
  }

  lemma LossSubmits(s: State, i: nat, result: int, id: nat)
    ensures Submitted(CompleteCancel(s, i, result).log, id) <==> Submitted(s.log, id)
    ensures CompleteCancel(s, i, result).nextId == s.nextId
  {
    if s.cancels.Live(i) && result != 0 {
      var x := s.cancels.At(i);
      SubmittedConcat(s.log, [CancelLost(x.id, x.local)], id);
    }
  }

  lemma MoveBooks(w: World, ms: seq<Move>, m: Move, id: nat)
    requires HonestInv(w) && Books(w, ms, id) && CanMove(w, m)
    ensures Books(Next(w, m), ms + [m], id)
  {
    ArrivedSnoc(ms, m, id);
    NextIdGrows(w, m);
    match m
    case Outside(c) =>
      CallOwes(w, c, id);
      SubmittedConcat(w.rt.log, EventOf(w.rt, c), id);
      assert Perform(w.rt, c).log == w.rt.log + EventOf(w.rt, c);
    case OpDone(c, r) =>
      hide Inv, Sane, Single, Owes, Submitted, Arrived, CanTake, CompleteOp, OwedAfter;
      var events := OpDoneOwes(w, c, r, id);
      SubmittedConcat(w.rt.log, events, id);
    case CancelDone(slot, who, result) =>
      assert Owes(w.owed, who);
      DebtIsIssued(w, Debt(slot, who));
      hide Inv, Sane, Single, Owes, Submitted, Arrived, CompleteCancel;
      PaidOnce(w, slot, who, id);
      LossSubmits(w.rt, slot, result, id);
  }

  lemma DebtIsIssued(w: World, d: Debt)
    requires HonestInv(w) && d in w.owed
    ensures d.id < w.rt.nextId
  {
  }

  lemma NextIdGrows(w: World, m: Move)
    requires HonestInv(w) && CanMove(w, m)
    ensures w.rt.nextId <= Next(w, m).rt.nextId
  {
    if m.OpDone? {
      var c, r := m.completion, m.reaction;
      CompleteOpKeeps(w.rt, c, r);
      PerformAllGrows(Settle(w.rt, c.slot, Wins(w.rt, c), r.left), r.onCancel);
      PerformAllGrows(AfterDeliver(w.rt, c, r), r.onOp);
    }
  }

  lemma {:induction false} PerformAllGrows(s: State, cs: seq<Command>)
    ensures s.nextId <= PerformAll(s, cs).nextId
  {
    if cs != [] {
      PerformAllGrows(s, cs[..|cs| - 1]);
    }
  }

  /** In every honest run, a completion is owed for exactly the cancels that were submitted and have not had theirs. */
  lemma OwedExactly(first: nat, ms: seq<Move>, id: nat)
    requires 1 <= first <= MAX_OP_ID && CanMoves(World(Init(first), {}), ms)
    ensures var w := Moves(World(Init(first), {}), ms);
      && Single(w.owed) && (Owes(w.owed, id) <==> Submitted(w.rt.log, id) && !Arrived(ms, id))
  {
    RunBooks(first, ms, id);
  }

  lemma StartBooks(first: nat, id: nat)
    requires 1 <= first <= MAX_OP_ID
    ensures HonestInv(World(Init(first), {})) && Books(World(Init(first), {}), [], id)
  {
    InitInv(first);
    hide Inv;
    NothingYet(id);
  }

  lemma {:induction false} RunBooks(first: nat, ms: seq<Move>, id: nat)
    requires 1 <= first <= MAX_OP_ID && CanMoves(World(Init(first), {}), ms)
    ensures Books(Moves(World(Init(first), {}), ms), ms, id)
  {
    hide HonestInv, Books, Next, CanMove, Init;
    var start := World(Init(first), {});
    StartBooks(first, id);
    if ms != [] {
      var n := |ms| - 1;
      RunBooks(first, ms[..n], id);
      MovesKeep(start, ms[..n]);
      MoveBooks(Moves(start, ms[..n]), ms[..n], ms[n], id);
      assert ms[..n] + [ms[n]] == ms;
    }
  }
}
