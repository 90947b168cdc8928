/** The promises of the runtime on the readiness backend, for every run. */
module MioTheorems {
  import opened Protocol
  import opened ProtocolProofs
  import opened ProtocolTheorems
  import opened MioBackend
  import opened MioRuntime
  import opened MioProofs

  // ── Runs ───────────────────────────────────────────────────────────

  ghost predicate MovesTo(y: Sys, y': Sys) {
    exists x :: MioRuntime.CanAdvance(y, x) && y' == MioRuntime.Advance(y, x)
  }

  ghost predicate MoveAt(h: seq<Sys>, k: nat) {
    k + 1 < |h| && MovesTo(h[k], h[k + 1])
  }

  ghost predicate History(h: seq<Sys>) {
    && h != [] && (exists first: nat :: 1 <= first <= MAX_OP_ID && h[0] == Sys(Init(first), Mio([], [])))
    && forall k: nat {:trigger MoveAt(h, k)} :: k < |h| - 1 ==> MoveAt(h, k)
  }

  /** `y` is the end of some run of runtime and backend together. */
  ghost predicate MioReachable(y: Sys) {
    exists h :: History(h) && h[|h| - 1] == y
  }

  lemma {:induction false} HistoryInv(h: seq<Sys>, k: nat)
    requires History(h) && k < |h|
    ensures SysInv(h[k], -1)
  {
    hide MioRuntime.Advance, MioRuntime.CanAdvance, Inv;
    if k == 0 {
      var first: nat :| 1 <= first <= MAX_OP_ID && h[0] == Sys(Init(first), Mio([], []));
      InitInv(first);
    } else {
      HistoryInv(h, k - 1);
      assert MoveAt(h, k - 1);
      var x :| MioRuntime.CanAdvance(h[k - 1], x) && h[k] == MioRuntime.Advance(h[k - 1], x);
      AdvanceSysKeeps(h[k - 1], x);
    }
  }

  lemma MioReachableInv(y: Sys)
    requires MioReachable(y)
    ensures SysInv(y, -1)
  {
    hide SysInv;
    var h :| History(h) && h[|h| - 1] == y;
    HistoryInv(h, |h| - 1);
  }

  // ── Theorems ───────────────────────────────────────────────────────

  /** In every run the queue is adjacent (cancel, op) pairs, possibly minus its first element, and every live
      op is armed or queued exactly once, never both; nothing else is armed or queued. */
  lemma QueueOfPairs(y: Sys, j: nat)
    requires MioReachable(y) && j < |y.io.ready|
    ensures var q := y.io.ready;
            if (|q| - j) % 2 == 0
            then q[j].cancel && j + 1 < |q| && !q[j + 1].cancel && y.rt.cancels.Live(q[j].slot)
                 && y.rt.cancels.At(q[j].slot).target == q[j + 1].slot
            else !q[j].cancel && q[j].cancelled && forall k :: 0 <= k < |q| && k != j && !q[k].cancel ==>
                q[k].slot != q[j].slot
  {
    MioReachableInv(y);
    if CancelTurn(|y.io.ready|, j) {
      assert NamesNext(y, j) && !CancelTurn(|y.io.ready|, j + 1);
    }
  }

  lemma ArmedOrQueued(y: Sys, i: nat)
    requires MioReachable(y)
    ensures y.rt.ops.Live(i) <==> y.io.Armed(i) || y.io.Queued(i)
    ensures !(y.io.Armed(i) && y.io.Queued(i))
    ensures y.io.Queued(i) <==> y.rt.ops.Live(i) && y.rt.ops.At(i).pending
  {
    MioReachableInv(y);
  }

  /** The assertions the runtime makes of its backend never fire: whatever the poller and the syscalls answer,
      a reported op completion names a live op and a reported cancel completion names a slot of the slab. */
  lemma NeverPanics(y: Sys, p: Poll)
    requires MioReachable(y)
    ensures var (_, c) := Next(y.io, p); c.Some? ==> Admissible(y.rt, c.value)
  {
    MioReachableInv(y);
    NextKeeps(y, p);
  }

  /** A call made now overwrites no armed entry if it registers, and is accepted if it cancels a live, unmarked op. */
  ghost predicate CallsAreSafe(y: Sys) {
    !y.io.Armed(y.rt.ops.Next()) && forall slot: nat, id: nat :: Cancellable(y.rt, slot, id) ==> y.io.Armed(slot)
  }

  lemma InvariantMakesCallsSafe(y: Sys, t: int)
    requires SysInv(y, t) && InTransit(y.rt, t)
    ensures CallsAreSafe(y)
  {
    ClaimKeeps(y.rt.ops, OpRec(0, false, 0));
  }

  lemma {:induction false} CanCallsPrefix(y: Sys, cs: seq<Call>, k: nat)
    requires CanCalls(y, cs) && k <= |cs|
    ensures CanCalls(y, cs[..k])
  {
    if k < |cs| {
      CanCallsPrefix(y, cs[..|cs| - 1], k);
      assert cs[..|cs| - 1][..k] == cs[..k];
    } else {
      assert cs[..k] == cs;
    }
  }

  lemma SafeDuring(y: Sys, t: int, cs: seq<Call>, k: nat)
    requires SysInv(y, t) && InTransit(y.rt, t) && CanCalls(y, cs) && k <= |cs|
    ensures CallsAreSafe(DoCalls(y, cs[..k]))
  {
    hide SysInv, CallsAreSafe;
    CanCallsPrefix(y, cs, k);
    CallsKeep(y, t, cs[..k]);
    InvariantMakesCallsSafe(DoCalls(y, cs[..k]), t);
  }

  /** At every point of every run where a call can be made, outside any callback and between any two calls of a
      cancel's or an op's callback: no armed entry is overwritten and no cancellation is refused. */
  lemma NeverOverwritesNeverRefuses(y: Sys, p: Poll, r: Response, k: nat)
    requires MioReachable(y) && MioRuntime.CanAdvance(y, Round(p, r))
    ensures CallsAreSafe(y)
    ensures var (io, c) := Next(y.io, p); c.Some? && !c.value.cancel ==>
      var now := y.(io := io);
      && (CallsCancel(y.rt, c.value) && k <= |r.onCancel| ==>
            CallsAreSafe(DoCalls(Settled(now, c.value, r), r.onCancel[..k])))
      && (k <= |r.onOp| ==> CallsAreSafe(DoCalls(Delivered(now, c.value, r), r.onOp[..k])))
  {
    MioReachableInv(y);
    hide CallsAreSafe;
    InvariantMakesCallsSafe(y, -1);
    NextKeeps(y, p);
    var (io, c) := Next(y.io, p);
    if c.Some? && !c.value.cancel {
      var now := y.(io := io);
      assert Popped(now, c.value) && now.rt.ops.Live(c.value.slot);
      StagesKeep(now, c.value, r);
      if CallsCancel(y.rt, c.value) && k <= |r.onCancel| {
        SafeDuring(Settled(now, c.value, r), c.value.slot, r.onCancel, k);
      }
      if k <= |r.onOp| {
        SafeDuring(Delivered(now, c.value, r), -1, r.onOp, k);
      }
    }
  }

  /** When nothing is in flight any more, every accepted cancel has won: its callback ran exactly once. */
  lemma EveryCancelWins(y: Sys, e: Event)
    requires MioReachable(y) && Quiescent(y.rt) && e in y.rt.log && e.CancelSubmitted?
    ensures var h := Story(y.rt.log, e.id); |h| == 2 && h[0] == e && h[1].CancelRan? && h[1].victim == e.victim
  {
    MioReachableInv(y);
    var k :| 0 <= k < |y.rt.log| && y.rt.log[k] == e;
    StoryHas(y.rt.log, k);
    var h := Story(y.rt.log, e.id);
    assert h != [] && !OwnedByOp(y.rt, e.id) && !OwnedByCancel(y.rt, e.id);
    FinishedShape(h, e);
    StoryIn(y.rt.log, e.id, h[1]);
  }

  /** No run ever refuses or drops a cancel. */
  lemma NoCancelIsLost(y: Sys, e: Event)
    requires MioReachable(y) && e in y.rt.log
    ensures !e.CancelLost? && !e.CancelRefused?
  {
    MioReachableInv(y);
  }

  // ── The composed run is a run of the bare protocol ─────────────────

  ghost function ResolveAll(y: Sys, cs: seq<Call>): seq<Command> {
    if cs == [] then [] else ResolveAll(y, cs[..|cs| - 1]) + [Resolve(DoCalls(y, cs[..|cs| - 1]), cs[|cs| - 1])]
  }

  lemma {:induction false} CallsProject(y: Sys, cs: seq<Call>)
    ensures DoCalls(y, cs).rt == PerformAll(y.rt, ResolveAll(y, cs))
    ensures CanCalls(y, cs) ==> CanPerformAll(y.rt, ResolveAll(y, cs))
  {
    hide Perform, CanPerform, Resolve;
    if cs != [] {
      var n := |cs| - 1;
      CallsProject(y, cs[..n]);
      var all := ResolveAll(y, cs);
      assert all[..|all| - 1] == ResolveAll(y, cs[..n]);
    }
  }

  ghost function ReactionOf(y: Sys, c: Completion, r: Response): Reaction {
    Reaction(ResolveAll(Settled(y, c, r), r.onCancel), r.left, ResolveAll(Delivered(y, c, r), r.onOp))
  }

  lemma TakeOneProjects(y: Sys, c: Completion, r: Response)
    requires Admissible(y.rt, c)
    requires !c.cancel ==>
               && (CallsCancel(y.rt, c) ==> CanCalls(Settled(y, c, r), r.onCancel))
               && CanCalls(Delivered(y, c, r), r.onOp)
    ensures CanTake(y.rt, c, ReactionOf(y, c, r))
    ensures TakeOne(y, c, r).rt == TakeCompletion(y.rt, c, ReactionOf(y, c, r))
  {
    hide Settle, Deliver, FindCancel;
    if !c.cancel {
      CallsProject(Settled(y, c, r), r.onCancel);
      CallsProject(Delivered(y, c, r), r.onOp);
      assert Delivered(y, c, r).rt == AfterDeliver(y.rt, c, ReactionOf(y, c, r));
    }
  }

  lemma MoveProjects(y: Sys, x: Move)
    requires SysInv(y, -1) && MioRuntime.CanAdvance(y, x) && Reachable(y.rt)
    ensures Reachable(MioRuntime.Advance(y, x).rt)
  {
    hide SysInv, Reachable, Perform, CanPerform;
    match x
    case Outside(c) =>
      ReachableStep(y.rt, Do(Resolve(y, c)));
    case Round(p, r) =>
      NextKeeps(y, p);
      var (io, c) := Next(y.io, p);
      if c.Some? {
        var y' := y.(io := io);
        assert Admissible(y.rt, c.value);
        TakeOneProjects(y', c.value, r);
        ReachableStep(y.rt, Take(c.value, ReactionOf(y', c.value, r)));
      }
  }

  /** Everything proved of the bare protocol holds on this backend: its runtime states are reachable there. */
  lemma MioRefinesProtocol(y: Sys)
    requires MioReachable(y)
    ensures Reachable(y.rt)
  {
    var h :| History(h) && h[|h| - 1] == y;
    HistoryProjects(h, |h| - 1);
  }

  lemma {:induction false} HistoryProjects(h: seq<Sys>, k: nat)
    requires History(h) && k < |h|
    ensures Reachable(h[k].rt)
  {
    hide MioRuntime.Advance, MioRuntime.CanAdvance, SysInv;
    if k == 0 {
      var first: nat :| 1 <= first <= MAX_OP_ID && h[0] == Sys(Init(first), Mio([], []));
      assert Trace([Init(first)]);
      assert [Init(first)][0] == h[0].rt;
    } else {
      HistoryInv(h, k - 1);
      HistoryProjects(h, k - 1);
      assert MoveAt(h, k - 1);
      var x :| MioRuntime.CanAdvance(h[k - 1], x) && h[k] == MioRuntime.Advance(h[k - 1], x);
      MoveProjects(h[k - 1], x);
    }
  }
}
