/**
  A backend that keeps its contract of exactly one completion per accepted request.  A cancel's completion may
  still be owed when its slot is already free again, so this module keeps, beside the runtime, which
  completions are owed, and says exactly when an accepted cancel is sure of its callback.
*/
module HonestBackend {
  import opened Protocol
  import opened ProtocolProofs
  import opened ProtocolTheorems
  import opened LateCancel

  /** A cancel completion still to come: the slot it will name, and the cancel it is for. */
  datatype Debt = Debt(slot: nat, id: nat)

  datatype World = World(rt: State, owed: set<Debt>)

  function NewDebt(s: State, c: Command): set<Debt> {
    if c.Cancel? && c.submitted && Cancellable(s, c.slot, c.id) then {Debt(s.cancels.Next(), s.nextId)} else {}
  }

  function Call(w: World, c: Command): World {
    World(Perform(w.rt, c), w.owed + NewDebt(w.rt, c))
  }

  function Calls(w: World, cs: seq<Command>): World {
    if cs == [] then w else Call(Calls(w, cs[..|cs| - 1]), cs[|cs| - 1])
  }

  /** A call from outside any callback, an op's completion, or the completion owed to one particular cancel. */
  datatype Move =
    | Outside(command: Command)
    | OpDone(completion: Completion, reaction: Reaction)
    | CancelDone(slot: nat, id: nat, result: int)

  /** What is owed once the cancel's callback has returned, and once the op's has. */
  function OwedAfterCancel(w: World, c: Completion, r: Reaction): set<Debt> {
    if CallsCancel(w.rt, c) then Calls(World(Settle(w.rt, c.slot, true, r.left), w.owed), r.onCancel).owed else w.owed
  }

  function OwedAfter(w: World, c: Completion, r: Reaction): set<Debt> {
    Calls(World(AfterDeliver(w.rt, c, r), OwedAfterCancel(w, c, r)), r.onOp).owed
  }

  function Next(w: World, m: Move): World {
    match m
    case Outside(c) => Call(w, c)
    case OpDone(c, r) => World(CompleteOp(w.rt, c, r), OwedAfter(w, c, r))
    case CancelDone(slot, id, result) => World(CompleteCancel(w.rt, slot, result), w.owed - {Debt(slot, id)})
  }

  /** The honest backend: an op completion names a live op, a cancel completion is one that is owed. */
  predicate CanMove(w: World, m: Move) {
    match m
    case Outside(c) => CanPerform(w.rt, c)
    case OpDone(c, r) => !c.cancel && CanTake(w.rt, c, r)
    case CancelDone(slot, id, _) => Debt(slot, id) in w.owed
  }

  function Moves(w: World, ms: seq<Move>): World {
    if ms == [] then w else Next(Moves(w, ms[..|ms| - 1]), ms[|ms| - 1])
  }

  predicate CanMoves(w: World, ms: seq<Move>) {
    ms == [] || (CanMoves(w, ms[..|ms| - 1]) && CanMove(Moves(w, ms[..|ms| - 1]), ms[|ms| - 1]))
  }

  /** Nothing but the contract bounds the backend: any live op may complete, in any way, and any completion owed may
      arrive, with any result. */
  lemma CompletionsArePossible(w: World, c: Completion, left: Local, slot: nat, id: nat, result: int)
    ensures !c.cancel ==> (CanMove(w, OpDone(c, Reaction([], left, []))) <==> w.rt.ops.Live(c.slot))
    ensures CanMove(w, CancelDone(slot, id, result)) <==> Debt(slot, id) in w.owed
  {
  }

  // ── What is owed ───────────────────────────────────────────────────

  /** Debts are for slots of the slab and for ids that were issued. */
  ghost predicate Sane(w: World) {
    forall d :: d in w.owed ==> d.slot < |w.rt.cancels.slots| && d.id < w.rt.nextId
  }

  ghost predicate HonestInv(w: World) {
    Inv(w.rt, -1) && Sane(w)
  }

  lemma CallSane(w: World, c: Command)
    requires w.rt.ops.Valid() && w.rt.cancels.Valid() && Sane(w)
    ensures Sane(Call(w, c))
    ensures forall d :: d in NewDebt(w.rt, c) ==> !w.rt.cancels.Live(d.slot)
  {
    match c
    case Register(local, armed) =>
    case Cancel(slot, id, local, submitted) =>
      if Cancellable(w.rt, slot, id) {
        CancelSlab(w.rt, slot, id, local, submitted);
      }
  }

  lemma {:induction false} CallsSane(w: World, t: int, cs: seq<Command>)
    requires Inv(w.rt, t) && InTransit(w.rt, t) && CanPerformAll(w.rt, cs) && Sane(w)
    ensures Calls(w, cs).rt == PerformAll(w.rt, cs) && Sane(Calls(w, cs))
  {
    hide Linked, FreshIds, Ledger, Sane, Perform;
    if cs != [] {
      var n := |cs| - 1;
      CallsSane(w, t, cs[..n]);
      PerformAllKeeps(w.rt, t, cs[..n]);
      CallSane(Calls(w, cs[..n]), cs[n]);
    }
  }
  /** Releasing or keeping slots does not shorten the slab, and settling issues no id. */
  lemma SettleSane(w: World, i: nat, won: bool, left: Local)
    requires Sane(w)
    ensures Sane(World(Settle(w.rt, i, won, left), w.owed))
  {
  }

  lemma AfterCancelSane(w: World, c: Completion, r: Reaction)
    requires HonestInv(w) && !c.cancel && CanTake(w.rt, c, r)
    ensures Sane(World(AfterCancel(w.rt, c, r), OwedAfterCancel(w, c, r)))
  {
    hide Linked, FreshIds, Ledger, Sane;
    SettleKeeps(w.rt, c.slot, Wins(w.rt, c), r.left);
    SettleSane(w, c.slot, Wins(w.rt, c), r.left);
    if CallsCancel(w.rt, c) {
      CallsSane(World(Settle(w.rt, c.slot, true, r.left), w.owed), c.slot, r.onCancel);
    }
  }

  lemma DeliverSane(w: World, c: Completion, r: Reaction)
    requires Sane(World(AfterCancel(w.rt, c, r), OwedAfterCancel(w, c, r))) && w.rt.ops.Live(c.slot)
    ensures Sane(World(AfterDeliver(w.rt, c, r), OwedAfterCancel(w, c, r)))
  {
    hide AfterCancel, OwedAfterCancel;
  }

  /** An op completion with its callbacks: what is owed before the op's callback, and after it. */
  lemma OpDoneSane(w: World, c: Completion, r: Reaction)
    requires HonestInv(w) && !c.cancel && CanTake(w.rt, c, r)
    ensures Sane(World(AfterDeliver(w.rt, c, r), OwedAfterCancel(w, c, r)))
    ensures Sane(Next(w, OpDone(c, r)))
  {
    AfterCancelSane(w, c, r);
    DeliverSane(w, c, r);
    CompleteOpKeeps(w.rt, c, r);
    hide Inv, Sane, AfterDeliver, AfterCancel, OwedAfterCancel;
    CallsSane(World(AfterDeliver(w.rt, c, r), OwedAfterCancel(w, c, r)), -1, r.onOp);
  }

  function StepOf(m: Move): Step {
    match m
    case Outside(c) => Do(c)
    case OpDone(c, r) => Take(c, r)
    case CancelDone(slot, _, result) => Take(Completion(slot, result, 0, true, false), NOTHING)
  }

  /** An honest move is a step of the protocol: none of the runtime's assertions fires. */
  lemma MoveProjects(w: World, m: Move)
    requires HonestInv(w) && CanMove(w, m)
    ensures CanAdvance(w.rt, StepOf(m)) && Next(w, m).rt == Advance(w.rt, StepOf(m))
    ensures HonestInv(Next(w, m))
  {
    AdvanceKeeps(w.rt, StepOf(m));
    match m
    case Outside(c) => CallSane(w, c);
    case OpDone(c, r) => OpDoneSane(w, c, r);
    case CancelDone(slot, id, result) =>
  }

  lemma {:induction false} MovesKeep(w: World, ms: seq<Move>)
    requires HonestInv(w) && CanMoves(w, ms)
    ensures HonestInv(Moves(w, ms))
  {
    hide HonestInv, Next, CanMove;
    if ms != [] {
      MovesKeep(w, ms[..|ms| - 1]);
      MoveProjects(Moves(w, ms[..|ms| - 1]), ms[|ms| - 1]);
    }
  }

  // ── When a cancel is sure of its callback ──────────────────────────

  /** Nothing is owed for slot `c` but, at most, the completion of cancel `id` itself. */
  ghost predicate Clear(owed: set<Debt>, c: nat, id: nat) {
    forall d :: d in owed && d.slot == c ==> d.id == id
  }

  lemma {:induction false} CallsClear(w: World, t: int, cs: seq<Command>, i: nat, c: nat, op: OpRec, x: CancelRec)
    requires Inv(w.rt, t) && InTransit(w.rt, t) && CanPerformAll(w.rt, cs) && Sane(w)
    requires Holds(w.rt, i, c, op, x)
    ensures Clear(Calls(w, cs).owed, c, x.id) <==> Clear(w.owed, c, x.id)
  {
    hide Linked, FreshIds, Ledger, Sane, Perform;
    if cs != [] {
      var n := |cs| - 1;
      CallsClear(w, t, cs[..n], i, c, op, x);
      CallsSane(w, t, cs[..n]);
      PerformAllKeeps(w.rt, t, cs[..n]);
      PerformAllHolds(w.rt, t, cs[..n], i, c, op, x);
      CallSane(Calls(w, cs[..n]), cs[n]);
    }
  }

  lemma OpDoneClear(w: World, m: Completion, r: Reaction, i: nat, c: nat, op: OpRec, x: CancelRec)
    requires HonestInv(w) && !m.cancel && CanTake(w.rt, m, r) && m.slot != i
    requires Holds(w.rt, i, c, op, x) && Clear(w.owed, c, x.id)
    ensures Clear(OwedAfter(w, m, r), c, x.id)
  {
    var s1 := Settle(w.rt, m.slot, Wins(w.rt, m), r.left);
    SettleHolds(w.rt, m, r, i, c, op, x);
    CompleteOpKeeps(w.rt, m, r);
    SettleKeeps(w.rt, m.slot, Wins(w.rt, m), r.left);
    SettleSane(w, m.slot, Wins(w.rt, m), r.left);
    hide Linked, FreshIds, Ledger, Sane;
    if CallsCancel(w.rt, m) {
      PerformAllHolds(s1, m.slot, r.onCancel, i, c, op, x);
      CallsClear(World(s1, w.owed), m.slot, r.onCancel, i, c, op, x);
    }
    assert Holds(AfterCancel(w.rt, m, r), i, c, op, x);
    assert Holds(AfterDeliver(w.rt, m, r), i, c, op, x);
    OpDoneSane(w, m, r);
    CallsClear(World(AfterDeliver(w.rt, m, r), OwedAfterCancel(w, m, r)), -1, r.onOp, i, c, op, x);
  }

  /** The op in slot `i` completes. */
  predicate Ends(m: Move, i: nat) {
    m.OpDone? && m.completion.slot == i
  }

  /** The cancel's own completion reports failure. */
  predicate OwnFailure(m: Move, id: nat) {
    m.CancelDone? && m.id == id && m.result != 0
  }

  /** Neither the end of the op nor a failure of the cancel itself. */
  predicate Leaves(m: Move, i: nat, id: nat) {
    !Ends(m, i) && !OwnFailure(m, id)
  }

  lemma MoveClear(w: World, m: Move, i: nat, c: nat, op: OpRec, x: CancelRec)
    requires HonestInv(w) && CanMove(w, m) && Holds(w.rt, i, c, op, x) && Clear(w.owed, c, x.id) && Leaves(m, i, x.id)
    ensures Holds(Next(w, m).rt, i, c, op, x) && Clear(Next(w, m).owed, c, x.id)
  {
    MoveProjects(w, m);
    StepHolds(w.rt, StepOf(m), i, c, op, x);
    match m
    case Outside(cmd) => CallSane(w, cmd);
    case OpDone(done, r) => OpDoneClear(w, done, r, i, c, op, x);
    case CancelDone(slot, id, result) =>
  }

  lemma {:induction false} MovesClear(w: World, ms: seq<Move>, i: nat, c: nat, op: OpRec, x: CancelRec)
    requires HonestInv(w) && CanMoves(w, ms) && Holds(w.rt, i, c, op, x) && Clear(w.owed, c, x.id)
    requires forall k :: 0 <= k < |ms| ==> Leaves(ms[k], i, x.id)
    ensures Holds(Moves(w, ms).rt, i, c, op, x) && Clear(Moves(w, ms).owed, c, x.id)
  {
    hide HonestInv, Holds, Clear, Next, CanMove, Leaves;
    if ms != [] {
      var n := |ms| - 1;
      MovesClear(w, ms[..n], i, c, op, x);
      MovesKeep(w, ms[..n]);
      MoveClear(Moves(w, ms[..n]), ms[n], i, c, op, x);
    }
  }

  /** After `ms`, in which the op did not complete and the cancel itself did not fail, the backend reports the op
      in slot `i` cancelled. */
  ghost predicate Cancels(w: World, ms: seq<Move>, done: Completion, r: Reaction, i: nat, id: nat) {
    && CanMoves(w, ms) && (forall k :: 0 <= k < |ms| ==> Leaves(ms[k], i, id))
    && done.slot == i && done.cancelled && CanMove(Moves(w, ms), OpDone(done, r))
  }

  /** Whenever that happens, the cancel's callback runs, on the local of its op. */
  ghost predicate CallbackSure(w: World, i: nat, op: OpRec, x: CancelRec) {
    forall ms, done, r :: Cancels(w, ms, done, r, i, x.id) ==>
      CancelRan(x.id, x.local, op.id, op.local, r.left) in Next(Moves(w, ms), OpDone(done, r)).rt.log
  }

  /** Another cancel's completion, still owed, can fail in this cancel's place: the mark goes, and the callback
      with it. */
  lemma OwedSteals(w: World, d: Debt, i: nat, c: nat, op: OpRec, x: CancelRec)
    requires HonestInv(w) && Holds(w.rt, i, c, op, x) && d in w.owed && d.slot == c && d.id != x.id
    ensures !CallbackSure(w, i, op, x)
  {
    var m, done := CancelDone(c, d.id, 1), Completion(i, 0, 0, false, true);
    var w1 := Next(w, m);
    assert [m][..0] == [] && Moves(w, []) == w && CanMoves(w, []) && CanMove(w, m);
    assert Moves(w, [m]) == w1 && CanMoves(w, [m]);
    var s := w1.rt;
    assert s.ops.Live(i) && s.ops.At(i) == op.(pending := false) && s.log == w.rt.log + [CancelLost(x.id, x.local)];
    var gone := OpRan(op.id, op.local, Completed(0, 0));
    assert CompleteOp(s, done, NOTHING).log == s.log + [gone];
    assert Cancels(w, [m], done, NOTHING, i, x.id);
    var ran := CancelRan(x.id, x.local, op.id, op.local, 0);
    if ran in s.log + [gone] {
      var k :| 0 <= k < |w.rt.log| && w.rt.log[k] == ran;
      StoryHas(w.rt.log, k);
    }
  }

  /** A cancel is sure of its callback if and only if no other completion is owed for its slot. */
  lemma CallbackSureIff(w: World, i: nat, c: nat, op: OpRec, x: CancelRec)
    requires HonestInv(w) && Holds(w.rt, i, c, op, x)
    ensures CallbackSure(w, i, op, x) <==> Clear(w.owed, c, x.id)
  {
    if Clear(w.owed, c, x.id) {
      hide CanTake, CompleteOp;
      forall ms, done, r | Cancels(w, ms, done, r, i, x.id)
        ensures CancelRan(x.id, x.local, op.id, op.local, r.left) in Next(Moves(w, ms), OpDone(done, r)).rt.log
      {
        hide Holds, Clear, Inv;
        MovesClear(w, ms, i, c, op, x);
        MovesKeep(w, ms);
        CancelledRuns(Moves(w, ms).rt, done, r, i, c, op, x);
      }
    } else {
      var d :| d in w.owed && d.slot == c && d.id != x.id;
      OwedSteals(w, d, i, c, op, x);
    }
  }

  // ── Over whole runs ────────────────────────────────────────────────

  /** The end of a run of a fresh runtime on an honest backend. */
  ghost predicate HonestReachable(w: World) {
    exists first: nat, ms ::
      1 <= first <= MAX_OP_ID && CanMoves(World(Init(first), {}), ms) && w == Moves(World(Init(first), {}), ms)
  }

  lemma HonestReachableInv(w: World)
    requires HonestReachable(w)
    ensures HonestInv(w)
  {
    hide Inv, Moves, CanMoves;
    var first: nat, ms :| 1 <= first <= MAX_OP_ID && CanMoves(World(Init(first), {}), ms)
      && w == Moves(World(Init(first), {}), ms);
    InitInv(first);
    MovesKeep(World(Init(first), {}), ms);
  }

  /** In every honest run, at the moment a cancel is accepted: it is sure of its callback, should the backend
      cancel its op and not fail the cancel itself, if and only if no completion is owed for the slot it takes. */
  lemma AcceptedCancelIsSureIff(w: World, slot: nat, id: nat, local: Local)
    requires HonestReachable(w) && Cancellable(w.rt, slot, id) && CanClaim(w.rt, w.rt.cancels)
    ensures var after := Call(w, Cancel(slot, id, local, true));
      CallbackSure(after, slot, w.rt.ops.At(slot).(pending := true), CancelRec(w.rt.nextId, slot, id, local)) <==>
      forall d :: d in w.owed ==> d.slot != w.rt.cancels.Next()
  {
    HonestReachableInv(w);
    var cmd, c := Cancel(slot, id, local, true), w.rt.cancels.Next();
    var after, op := Call(w, cmd), w.rt.ops.At(slot).(pending := true);
    var x := CancelRec(w.rt.nextId, slot, id, local);
    CancelSlab(w.rt, slot, id, local, true);
    MoveProjects(w, Outside(cmd));
    assert Holds(after.rt, slot, c, op, x);
    hide Inv, CallbackSure;
    CallbackSureIff(after, slot, c, op, x);
    assert after.owed == w.owed + {Debt(c, x.id)};
  }

  /** The same for a cancel accepted inside a callback, seen from the end of that callback. */
  lemma AcceptedInCallbackIff(w: World, t: int, slot: nat, id: nat, local: Local, cs: seq<Command>)
    requires Inv(w.rt, t) && InTransit(w.rt, t) && Sane(w)
    requires Cancellable(w.rt, slot, id) && CanClaim(w.rt, w.rt.cancels)
    requires CanPerformAll(Call(w, Cancel(slot, id, local, true)).rt, cs)
    ensures var end := Calls(Call(w, Cancel(slot, id, local, true)), cs);
      var c, op := w.rt.cancels.Next(), w.rt.ops.At(slot).(pending := true);
      && Holds(end.rt, slot, c, op, CancelRec(w.rt.nextId, slot, id, local))
      && (Clear(end.owed, c, w.rt.nextId) <==> forall d :: d in w.owed ==> d.slot != c)
  {
    var cmd, c := Cancel(slot, id, local, true), w.rt.cancels.Next();
    var after, op := Call(w, cmd), w.rt.ops.At(slot).(pending := true);
    var x := CancelRec(w.rt.nextId, slot, id, local);
    CancelSlab(w.rt, slot, id, local, true);
    PerformKeeps(w.rt, t, cmd);
    CallSane(w, cmd);
    assert Holds(after.rt, slot, c, op, x) && after.owed == w.owed + {Debt(c, x.id)};
    assert Clear(after.owed, c, x.id) <==> forall d :: d in w.owed ==> d.slot != c;
    hide Inv, Sane, Holds, Clear, Call;
    CallsClear(after, t, cs, slot, c, op, x);
    CallsSane(after, t, cs);
    PerformAllHolds(after.rt, t, cs, slot, c, op, x);
  }

  /** A cancel that grows the slab is always sure of its callback. */
  lemma NewSlotIsSure(w: World, slot: nat, id: nat, local: Local)
    requires HonestReachable(w) && Cancellable(w.rt, slot, id)
    requires CanClaim(w.rt, w.rt.cancels) && w.rt.cancels.free == []
    ensures CallbackSure(Call(w, Cancel(slot, id, local, true)), slot, w.rt.ops.At(slot).(pending := true),
                         CancelRec(w.rt.nextId, slot, id, local))
  {
    HonestReachableInv(w);
    AcceptedCancelIsSureIff(w, slot, id, local);
  }
}
