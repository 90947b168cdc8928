/**
  A cancel slot is given back by its op's completion, before the cancel's own completion has arrived.  That
  one may then land on the slot's next occupant.  This module shows that it can cost an unrelated cancel its
  callback, and which completions do.
*/
module LateCancel {
  import opened Wrappers
  import opened Protocol
  import opened ProtocolProofs
  import opened ProtocolTheorems

  // ── The failure, concretely ────────────────────────────────────────

  const NOTHING: Reaction := Reaction([], 0, [])

  /** Op 1 is cancelled but completes for real; op 3 takes its place and is cancelled too, its cancel taking the
      same cancel slot; then the first cancel's failure arrives; then the backend reports op 3 cancelled. */
  const UNLUCKY: seq<Step> :=
    [Do(Register(10, true)), Do(Cancel(0, 1, 20, true)), Take(Completion(0, 7, 0, false, false), NOTHING),
     Do(Register(30, true)), Do(Cancel(0, 3, 40, true)), Take(Completion(0, -2, 0, true, false), NOTHING),
     Take(Completion(0, -125, 0, false, true), NOTHING)]

  lemma RunOne(s: State, xs: seq<Step>, k: nat, a: State, b: State)
    requires k < |xs| && CanRun(s, xs[..k]) && Run(s, xs[..k]) == a && CanAdvance(a, xs[k]) && Advance(a, xs[k]) == b
    ensures CanRun(s, xs[..k + 1]) && Run(s, xs[..k + 1]) == b
  {
    assert xs[..k + 1][..k] == xs[..k];
  }

  const LOG1 := [Armed(1, 10)]
  const LOG2 := LOG1 + [CancelSubmitted(2, 20, 1)]
  const LOG3 := LOG2 + [CancelLost(2, 20), OpRan(1, 10, Completed(7, 0))]
  const LOG4 := LOG3 + [Armed(3, 30)]
  const LOG5 := LOG4 + [CancelSubmitted(4, 40, 3)]
  const LOG6 := LOG5 + [CancelLost(4, 40)]
  const LOG7 := LOG6 + [OpRan(3, 30, Completed(-125, 0))]
  const AFTER3 := State(Slab([None], [0]), Slab([None], [0]), 1, 3, LOG3)
  const AFTER5 := State(Slab([Some(OpRec(3, true, 30))], []), Slab([Some(CancelRec(4, 0, 3, 40))], []), 1, 5, LOG5)

  lemma FirstThree()
    ensures CanRun(Init(1), UNLUCKY[..3]) && Run(Init(1), UNLUCKY[..3]) == AFTER3
  {
    hide Run, CanRun;
    var s0, s1 := Init(1), State(Slab([Some(OpRec(1, false, 10))], []), Slab([], []), 1, 2, LOG1);
    var s2 := State(Slab([Some(OpRec(1, true, 10))], []), Slab([Some(CancelRec(2, 0, 1, 20))], []), 1, 3, LOG2);
    RunNone(s0, UNLUCKY);
    RunOne(s0, UNLUCKY, 0, s0, s1);
    RunOne(s0, UNLUCKY, 1, s1, s2);
    assert Settle(s2, 0, false, 0) == s2.(cancels := Slab([None], [0]), log := LOG2 + [CancelLost(2, 20)]);
    RunOne(s0, UNLUCKY, 2, s2, AFTER3);
  }

  lemma NextTwo()
    ensures CanRun(Init(1), UNLUCKY[..5]) && Run(Init(1), UNLUCKY[..5]) == AFTER5
  {
    hide Run, CanRun;
    FirstThree();
    var s4 := State(Slab([Some(OpRec(3, false, 30))], []), Slab([None], [0]), 1, 4, LOG4);
    RunOne(Init(1), UNLUCKY, 3, AFTER3, s4);
    RunOne(Init(1), UNLUCKY, 4, s4, AFTER5);
  }

  lemma RunNone(s: State, xs: seq<Step>)
    ensures CanRun(s, xs[..0]) && Run(s, xs[..0]) == s
  {
  }

  /** Op 3 was cancelled by the backend, yet its cancel's callback never runs and it reports a plain result. */
  lemma LateCancelStealsCallback()
    ensures CanRun(Init(1), UNLUCKY)
    ensures Run(Init(1), UNLUCKY).log ==
              [Armed(1, 10), CancelSubmitted(2, 20, 1), CancelLost(2, 20), OpRan(1, 10, Completed(7, 0)),
               Armed(3, 30), CancelSubmitted(4, 40, 3), CancelLost(4, 40), OpRan(3, 30, Completed(-125, 0))]
  {
    hide Run, CanRun;
    NextTwo();
    var s6 := State(Slab([Some(OpRec(3, false, 30))], []), Slab([None], [0]), 1, 5, LOG6);
    RunOne(Init(1), UNLUCKY, 5, AFTER5, s6);
    RunOne(Init(1), UNLUCKY, 6, s6, State(Slab([None], [0]), Slab([None], [0]), 1, 5, LOG7));
    assert UNLUCKY[..7] == UNLUCKY;
  }

  // ── When a cancel is safe ──────────────────────────────────────────

  /** `c` is the cancel `x`, and it names the op in slot `i`, which is marked. */
  ghost predicate Holds(s: State, i: nat, c: nat, op: OpRec, x: CancelRec) {
    s.ops.Live(i) && s.ops.At(i) == op && s.cancels.Live(c) && s.cancels.At(c) == x && op.pending && x.target == i
  }

  /** A completion that reports failure for whatever cancel is in slot `c`. */
  predicate Fails(x: Step, c: nat) {
    x.Take? && x.completion.cancel && x.completion.slot == c && x.completion.result != 0
  }

  predicate Completes(x: Step, i: nat) {
    x.Take? && !x.completion.cancel && x.completion.slot == i
  }

  lemma PerformHolds(s: State, cmd: Command, i: nat, c: nat, op: OpRec, x: CancelRec)
    requires s.ops.Valid() && s.cancels.Valid() && Holds(s, i, c, op, x)
    ensures Holds(Perform(s, cmd), i, c, op, x)
  {
    match cmd
    case Register(local, armed) =>
      RegisterSlab(s, local, armed);
    case Cancel(slot, id, local, submitted) =>
      if Cancellable(s, slot, id) {
        CancelSlab(s, slot, id, local, submitted);
      }
  }

  lemma {:induction false} PerformAllHolds(s: State, t: int, cs: seq<Command>, i: nat, c: nat, op: OpRec, x: CancelRec)
    requires Inv(s, t) && InTransit(s, t) && CanPerformAll(s, cs) && Holds(s, i, c, op, x)
    ensures Holds(PerformAll(s, cs), i, c, op, x)
  {
    hide Linked, FreshIds, Ledger, Holds;
    if cs != [] {
      var n := |cs| - 1;
      PerformAllHolds(s, t, cs[..n], i, c, op, x);
      PerformAllKeeps(s, t, cs[..n]);
      PerformHolds(PerformAll(s, cs[..n]), cs[n], i, c, op, x);
    }
  }

  /** Completing another op leaves the pair alone. */
  lemma CompleteOtherHolds(s: State, m: Completion, r: Reaction, i: nat, c: nat, op: OpRec, x: CancelRec)
    requires Inv(s, -1) && !m.cancel && CanTake(s, m, r) && m.slot != i && Holds(s, i, c, op, x)
    ensures Holds(CompleteOp(s, m, r), i, c, op, x)
  {
    var s1 := Settle(s, m.slot, Wins(s, m), r.left);
    SettleHolds(s, m, r, i, c, op, x);
    CompleteOpKeeps(s, m, r);
    SettleKeeps(s, m.slot, Wins(s, m), r.left);
    if Wins(s, m) {
      CancelFound(s, m.slot);
      PerformAllHolds(s1, m.slot, r.onCancel, i, c, op, x);
    }
    assert Holds(AfterCancel(s, m, r), i, c, op, x);
    assert Holds(AfterDeliver(s, m, r), i, c, op, x);
    PerformAllHolds(AfterDeliver(s, m, r), -1, r.onOp, i, c, op, x);
  }

  lemma SettleHolds(s: State, m: Completion, r: Reaction, i: nat, c: nat, op: OpRec, x: CancelRec)
    requires Holds(s, i, c, op, x) && m.slot != i
    ensures Holds(Settle(s, m.slot, Wins(s, m), r.left), i, c, op, x)
  {
  }

  lemma StepHolds(s: State, y: Step, i: nat, c: nat, op: OpRec, x: CancelRec)
    requires Inv(s, -1) && CanAdvance(s, y) && Holds(s, i, c, op, x) && !Completes(y, i) && !Fails(y, c)
    ensures Holds(Advance(s, y), i, c, op, x)
  {
    match y
    case Do(cmd) =>
      PerformHolds(s, cmd, i, c, op, x);
    case Take(m, r) =>
      if !m.cancel {
        CompleteOtherHolds(s, m, r, i, c, op, x);
      } else if m.result != 0 && s.cancels.Live(m.slot) {
        assert m.slot != c && s.cancels.At(m.slot).target != i;
      }
  }

  /** A failure landing on the cancel's slot ends it for good. */
  lemma FailureEnds(s: State, y: Step, i: nat, c: nat, op: OpRec, x: CancelRec)
    requires Inv(s, -1) && CanAdvance(s, y) && Holds(s, i, c, op, x) && Fails(y, c)
    ensures CancelLost(x.id, x.local) in Story(Advance(s, y).log, x.id)
  {
    StorySnoc(s.log, CancelLost(x.id, x.local), x.id);
  }

  lemma {:induction false} Unharmed(s: State, ys: seq<Step>, i: nat, c: nat, op: OpRec, x: CancelRec)
    requires Inv(s, -1) && CanRun(s, ys) && Holds(s, i, c, op, x)
    requires forall k :: 0 <= k < |ys| ==> !Completes(ys[k], i) && !Fails(ys[k], c)
    ensures Holds(Run(s, ys), i, c, op, x)
  {
    hide Inv, Holds, Advance, CanAdvance;
    if ys != [] {
      var n := |ys| - 1;
      Unharmed(s, ys[..n], i, c, op, x);
      RunKeeps(s, ys[..n]);
      StepHolds(Run(s, ys[..n]), ys[n], i, c, op, x);
    }
  }

  lemma {:induction false} FirstFailure(ys: seq<Step>, c: nat, k: nat) returns (m: nat)
    requires k < |ys| && Fails(ys[k], c)
    ensures m < |ys| && Fails(ys[m], c) && forall j :: 0 <= j < m ==> !Fails(ys[j], c)
    decreases k
  {
    if j :| 0 <= j < k && Fails(ys[j], c) {
      m := FirstFailure(ys, c, j);
    } else {
      m := k;
    }
  }

  /** A cancelled completion of an op whose cancel is in place runs that cancel's callback. */
  lemma CancelledRuns(s: State, done: Completion, r: Reaction, i: nat, c: nat, op: OpRec, x: CancelRec)
    requires Inv(s, -1) && Holds(s, i, c, op, x) && done.slot == i
    requires done.cancelled && !done.cancel && CanTake(s, done, r)
    ensures CancelRan(x.id, x.local, op.id, op.local, r.left) in CompleteOp(s, done, r).log
  {
    var y, quiet, after := DispatchShape(s, done, r);
    var d :| 0 <= d < |s.cancels.slots| && s.cancels.slots[d] == Some(y);
    assert s.cancels.Live(d) && s.cancels.At(d).target == i;
    assert y == x;
    var block := Dispatched(op, x, done, r.left, quiet);
    assert block[0] == CancelRan(x.id, x.local, op.id, op.local, r.left);
    assert (s.log + block + after)[|s.log|] == block[0];
  }

  lemma LostIsGone(s: State, i: nat, c: nat, op: OpRec, x: CancelRec)
    requires Inv(s, -1) && CancelLost(x.id, x.local) in Story(s.log, x.id)
    ensures !Holds(s, i, c, op, x)
  {
  }

  lemma LostNeverRuns(s: State, x: CancelRec, e: Event)
    requires Inv(s, -1) && CancelLost(x.id, x.local) in Story(s.log, x.id) && e.CancelRan? && e.id == x.id
    ensures e !in s.log
  {
    if e in s.log {
      var k :| 0 <= k < |s.log| && s.log[k] == e;
      StoryHas(s.log, k);
    }
  }

  lemma LostInLog(s: State, ys: seq<Step>, i: nat, c: nat, op: OpRec, x: CancelRec, m: nat)
    requires Inv(s, -1) && CanRun(s, ys) && Holds(s, i, c, op, x)
    requires forall k :: 0 <= k < |ys| ==> !Completes(ys[k], i)
    requires m < |ys| && Fails(ys[m], c) && forall j :: 0 <= j < m ==> !Fails(ys[j], c)
    ensures CancelLost(x.id, x.local) in Story(Run(s, ys).log, x.id)
  {
    hide Inv, Holds, Advance, CanAdvance, Fails, Completes, Story;
    var before, s1 := ys[..m], Run(s, ys[..m]);
    assert ys == before + ([ys[m]] + ys[m + 1..]);
    RunConcat(s, before, [ys[m]] + ys[m + 1..]);
    RunConcat(s1, [ys[m]], ys[m + 1..]);
    Unharmed(s, before, i, c, op, x);
    RunKeeps(s, before);
    FailureEnds(s1, ys[m], i, c, op, x);
    var s2 := Advance(s1, ys[m]);
    RunLog(s2, ys[m + 1..]);
    StoryConcat(s2.log, Run(s, ys).log[|s2.log|..], x.id);
    assert Run(s, ys).log == s2.log + Run(s, ys).log[|s2.log|..];
  }

  /** Until its op completes, an accepted cancel is still there to be called back if and only if no completion
      reported a failure for the cancel's slot number; and when the op is then reported cancelled, its callback
      runs if and only if that is so. */
  lemma CancelSurvivesIff(s: State, ys: seq<Step>, done: Completion, r: Reaction, i: nat, c: nat, op: OpRec,
                          x: CancelRec)
    requires Inv(s, -1) && CanRun(s, ys) && Holds(s, i, c, op, x)
    requires forall k :: 0 <= k < |ys| ==> !Completes(ys[k], i)
    requires done.slot == i && done.cancelled && !done.cancel && CanTake(Run(s, ys), done, r)
    ensures Holds(Run(s, ys), i, c, op, x) <==> forall k :: 0 <= k < |ys| ==> !Fails(ys[k], c)
    ensures CancelRan(x.id, x.local, op.id, op.local, r.left) in CompleteOp(Run(s, ys), done, r).log <==>
      forall k :: 0 <= k < |ys| ==> !Fails(ys[k], c)
  {
    hide Inv, Holds, Run, CanRun, CanTake, CompleteOp, Story;
    var s1 := Run(s, ys);
    RunKeeps(s, ys);
    if k :| 0 <= k < |ys| && Fails(ys[k], c) {
      var m := FirstFailure(ys, c, k);
      LostInLog(s, ys, i, c, op, x, m);
      LostIsGone(s1, i, c, op, x);
      StillLost(s1, done, r, x);
    } else {
      Unharmed(s, ys, i, c, op, x);
      CancelledRuns(s1, done, r, i, c, op, x);
    }
  }

  lemma StillLost(s: State, done: Completion, r: Reaction, x: CancelRec)
    requires Inv(s, -1) && CancelLost(x.id, x.local) in Story(s.log, x.id) && !done.cancel && CanTake(s, done, r)
    ensures forall e :: e in CompleteOp(s, done, r).log && e.CancelRan? ==> e.id != x.id
  {
    hide Inv, Story, CompleteOp, CanTake;
    var y := Take(done, r);
    AdvanceKeeps(s, y);
    AdvanceLog(s, y);
    var s' := Advance(s, y);
    StoryConcat(s.log, s'.log[|s.log|..], x.id);
    assert s'.log == s.log + s'.log[|s.log|..];
    forall e | e in s'.log && e.CancelRan? ensures e.id != x.id {
      if e.id == x.id {
        LostNeverRuns(s', x, e);
      }
    }
  }
}
