/** What every step of the cancel protocol keeps, and what that means for whole runs. */
module ProtocolProofs {
  import opened Protocol

  // ── Slabs ──────────────────────────────────────────────────────────

  /** Both slabs hold the same live records, except possibly at `n`. */
  ghost predicate SameBut<T>(a: Slab<T>, b: Slab<T>, n: int) {
    forall i :: i != n ==> a.Live(i) == b.Live(i) && (a.Live(i) ==> a.At(i) == b.At(i))
  }

  lemma ClaimKeeps<T>(slab: Slab<T>, x: T)
    requires slab.Valid()
    ensures var s' := slab.Claim(x); var n := slab.Next();
            && s'.Valid() && SameBut(slab, s', n)
            && s'.Live(n) && s'.At(n) == x && !slab.Live(n) && |slab.slots| <= |s'.slots|
  {
    var s' := slab.Claim(x);
    if slab.free != [] {
      assert forall j :: 0 <= j < |s'.free| ==> s'.free[j] == slab.free[j + 1];
      forall i | 0 <= i < |s'.slots| && s'.slots[i].None?
        ensures i in s'.free
      {
        assert i in slab.free && slab.free == [slab.free[0]] + slab.free[1..];
      }
    }
  }

  lemma ReleaseKeeps<T>(slab: Slab<T>, n: nat)
    requires slab.Valid() && slab.Live(n)
    ensures var s' := slab.Release(n);
            s'.Valid() && SameBut(slab, s', n) && !s'.Live(n) && |s'.slots| == |slab.slots|
  {
  }

  lemma PutKeeps<T>(slab: Slab<T>, n: nat, x: T)
    requires slab.Valid() && slab.Live(n)
    ensures var s' := slab.Put(n, x);
            s'.Valid() && SameBut(slab, s', n) && s'.Live(n) && s'.At(n) == x && |s'.slots| == |slab.slots|
  {
  }

  // ── The invariant ──────────────────────────────────────────────────

  /** Every live cancel names a live op marked pending; every op marked pending is named by exactly one
      live cancel.  `t` is the slot whose completion is being dispatched, or -1: its cancel is gone. */
  ghost predicate Linked(s: State, t: int) {
    && (forall c :: s.cancels.Live(c) ==>
          var x := s.cancels.At(c);
          x.target != t && s.ops.Live(x.target) && s.ops.At(x.target).id == x.targetId && s.ops.At(x.target).pending)
    && (forall i :: s.ops.Live(i) && i != t && s.ops.At(i).pending ==>
          exists c :: s.cancels.Live(c) && s.cancels.At(c).target == i)
    && (forall c, d ::
          s.cancels.Live(c) && s.cancels.Live(d) && s.cancels.At(c).target == s.cancels.At(d).target ==> c == d)
  }

  /** Live ids come from the counter and no two live slots of either slab share one. */
  ghost predicate FreshIds(s: State) {
    && 1 <= s.first <= s.nextId <= MAX_OP_ID
    && (forall i :: s.ops.Live(i) ==> s.first <= s.ops.At(i).id < s.nextId)
    && (forall c :: s.cancels.Live(c) ==> s.first <= s.cancels.At(c).id < s.nextId)
    && (forall i, j :: s.ops.Live(i) && s.ops.Live(j) && s.ops.At(i).id == s.ops.At(j).id ==> i == j)
    && (forall c, d :: s.cancels.Live(c) && s.cancels.Live(d) && s.cancels.At(c).id == s.cancels.At(d).id ==> c == d)
    && (forall i, c :: s.ops.Live(i) && s.cancels.Live(c) ==> s.ops.At(i).id != s.cancels.At(c).id)
  }

  /** The events about one id, in order. */
  ghost function Story(log: seq<Event>, id: nat): seq<Event> {
    if log == [] then []
    else
      var n := |log| - 1;
      if log[n].id == id then Story(log[..n], id) + [log[n]] else Story(log[..n], id)
  }

  lemma StorySnoc(log: seq<Event>, e: Event, id: nat)
    ensures Story(log + [e], id) == if e.id == id then Story(log, id) + [e] else Story(log, id)
  {
    assert (log + [e])[..|log|] == log;
  }

  /** A finished id: its local went to one callback or was dropped once, and that was the same local. */
  ghost predicate Finished(h: seq<Event>) {
    || (|h| == 1 && (h[0].ArmFailed? || h[0].CancelRefused?))
    || (|h| == 2 && h[0].Armed? && h[1].OpRan? && (h[1].outcome.Completed? ==> h[1].local == h[0].local))
    || (|h| == 2 && h[0].CancelSubmitted? && h[1].CancelLost? && h[1].local == h[0].local)
    || (|h| == 2 && h[0].CancelSubmitted? && h[1].CancelRan? && h[1].local == h[0].local && h[1].victim == h[0].victim)
  }

  ghost predicate OwnedByOp(s: State, id: nat) {
    exists i :: s.ops.Live(i) && s.ops.At(i).id == id
  }

  ghost predicate OwnedByCancel(s: State, id: nat) {
    exists c :: s.cancels.Live(c) && s.cancels.At(c).id == id
  }

  /** The ledger of locals: an id never issued has no events, a live slot owns the local it was claimed
      with and nothing happened to it yet, and every other id is finished. */
  ghost predicate Ledger(s: State) {
    && (forall id: nat :: id < s.first || s.nextId <= id ==> Story(s.log, id) == [])
    && (forall i :: s.ops.Live(i) ==> Story(s.log, s.ops.At(i).id) == [Armed(s.ops.At(i).id, s.ops.At(i).local)])
    && (forall c :: s.cancels.Live(c) ==>
          var x := s.cancels.At(c); Story(s.log, x.id) == [CancelSubmitted(x.id, x.local, x.targetId)])
    && (forall id: nat :: s.first <= id < s.nextId && !OwnedByOp(s, id) && !OwnedByCancel(s, id) ==>
          Finished(Story(s.log, id)))
  }

  ghost predicate Inv(s: State, t: int) {
    s.ops.Valid() && s.cancels.Valid() && Linked(s, t) && FreshIds(s) && Ledger(s)
  }

  // ── One step of the ledger ─────────────────────────────────────────

  /** Nothing but the slots holding `id` changed hands. */
  ghost predicate OnlyAbout(s: State, s': State, id: nat) {
    && (forall i :: s.ops.Live(i) && s.ops.At(i).id != id ==>
          s'.ops.Live(i) && s'.ops.At(i).id == s.ops.At(i).id && s'.ops.At(i).local == s.ops.At(i).local)
    && (forall i :: s'.ops.Live(i) && s'.ops.At(i).id != id ==>
          s.ops.Live(i) && s'.ops.At(i).id == s.ops.At(i).id && s'.ops.At(i).local == s.ops.At(i).local)
    && (forall c :: s.cancels.Live(c) && s.cancels.At(c).id != id ==>
          s'.cancels.Live(c) && s'.cancels.At(c) == s.cancels.At(c))
    && (forall c :: s'.cancels.Live(c) && s'.cancels.At(c).id != id ==>
          s.cancels.Live(c) && s'.cancels.At(c) == s.cancels.At(c))
  }

  /** Appending one event about `e.id` keeps the ledger when that id's own story fits its new owner. */
  lemma LedgerStep(s: State, s': State, e: Event)
    requires Ledger(s) && s.first <= s'.first == s.first && s.nextId <= s'.nextId <= s.nextId + 1
    requires s.first <= e.id < s'.nextId && (s.nextId < s'.nextId ==> e.id == s.nextId)
    requires s'.log == s.log + [e] && OnlyAbout(s, s', e.id)
    requires var h := Story(s.log, e.id) + [e];
             && (forall i :: s'.ops.Live(i) && s'.ops.At(i).id == e.id ==> h == [Armed(e.id, s'.ops.At(i).local)])
             && (forall c :: s'.cancels.Live(c) && s'.cancels.At(c).id == e.id ==>
                   h == [CancelSubmitted(e.id, s'.cancels.At(c).local, s'.cancels.At(c).targetId)])
             && (!OwnedByOp(s', e.id) && !OwnedByCancel(s', e.id) ==> Finished(h))
    ensures Ledger(s')
  {
    forall x: nat
      ensures Story(s'.log, x) == if x == e.id then Story(s.log, x) + [e] else Story(s.log, x)
    {
      StorySnoc(s.log, e, x);
    }
    forall x: nat | s'.first <= x < s'.nextId && !OwnedByOp(s', x) && !OwnedByCancel(s', x)
      ensures Finished(Story(s'.log, x))
    {
      if x != e.id {
        assert !OwnedByOp(s, x) && !OwnedByCancel(s, x);
      }
    }
  }

  /** Ids stay fresh when only the holder of `id` changes and at most one slot holds it afterwards. */
  lemma FreshStep(s: State, s': State, id: nat)
    requires FreshIds(s) && s'.first == s.first && s.nextId <= s'.nextId <= MAX_OP_ID
    requires s.first <= id < s'.nextId && OnlyAbout(s, s', id)
    requires forall i, j :: s'.ops.Live(i) && s'.ops.Live(j) && s'.ops.At(i).id == s'.ops.At(j).id == id ==> i == j
    requires forall c, d ::
      s'.cancels.Live(c) && s'.cancels.Live(d) && s'.cancels.At(c).id == s'.cancels.At(d).id == id ==> c == d
    requires !(OwnedByOp(s', id) && OwnedByCancel(s', id))
    ensures FreshIds(s')
  {
  }

  // ── Commands ───────────────────────────────────────────────────────

  lemma RegisterSlab(s: State, local: Local, armed: bool)
    requires s.ops.Valid()
    ensures var ops' := DoRegister(s, local, armed).ops; var n := s.ops.Next();
            && ops'.Valid() && SameBut(s.ops, ops', n) && !s.ops.Live(n) && |s.ops.slots| <= |ops'.slots|
            && ops'.Live(n) == armed && (armed ==> ops'.At(n) == OpRec(s.nextId, false, local))
  {
    var op := OpRec(s.nextId, false, local);
    ClaimKeeps(s.ops, op);
    if !armed {
      ReleaseKeeps(s.ops.Claim(op), s.ops.Next());
    }
  }

  lemma RegisterKeeps(s: State, t: int, local: Local, armed: bool)
    requires Inv(s, t) && CanClaim(s, s.ops)
    ensures Inv(DoRegister(s, local, armed), t)
  {
    RegisterSlab(s, local, armed);
    assert Linked(DoRegister(s, local, armed), t);
    RegisterFresh(s, local, armed);
    RegisterLedger(s, local, armed);
  }

  lemma RegisterFresh(s: State, local: Local, armed: bool)
    requires s.ops.Valid() && FreshIds(s) && s.nextId < MAX_OP_ID
    ensures FreshIds(DoRegister(s, local, armed)) && OnlyAbout(s, DoRegister(s, local, armed), s.nextId)
  {
    RegisterSlab(s, local, armed);
    FreshStep(s, DoRegister(s, local, armed), s.nextId);
  }

  lemma RegisterLedger(s: State, local: Local, armed: bool)
    requires s.ops.Valid() && FreshIds(s) && Ledger(s) && s.nextId < MAX_OP_ID
    ensures Ledger(DoRegister(s, local, armed))
  {
    var s', n := DoRegister(s, local, armed), s.ops.Next();
    RegisterFresh(s, local, armed);
    assert armed ==> s'.ops.Live(n) && s'.ops.At(n) == OpRec(s.nextId, false, local) by {
      RegisterSlab(s, local, armed);
    }
    LedgerStep(s, s', if armed then Armed(s.nextId, local) else ArmFailed(s.nextId, local));
  }

  lemma CancelSlab(s: State, slot: nat, id: nat, local: Local, submitted: bool)
    requires s.ops.Valid() && s.cancels.Valid() && Cancellable(s, slot, id)
    ensures var s' := DoCancel(s, slot, id, local, submitted); var n := s.cancels.Next();
            && s'.cancels.Valid() && SameBut(s.cancels, s'.cancels, n) && !s.cancels.Live(n)
            && s'.cancels.Live(n) == submitted && (submitted ==>
                s'.cancels.At(n) == CancelRec(s.nextId, slot, id, local))
            && s'.ops.Valid() && SameBut(s.ops, s'.ops, slot) && s'.ops.Live(slot)
            && s'.ops.At(slot) == s.ops.At(slot).(pending := submitted) && |s.cancels.slots| <= |s'.cancels.slots|
  {
    var c := CancelRec(s.nextId, slot, id, local);
    ClaimKeeps(s.cancels, c);
    if submitted {
      PutKeeps(s.ops, slot, s.ops.At(slot).(pending := true));
    } else {
      ReleaseKeeps(s.cancels.Claim(c), s.cancels.Next());
    }
  }

  lemma CancelKeeps(s: State, t: int, slot: nat, id: nat, local: Local, submitted: bool)
    requires Inv(s, t) && (Cancellable(s, slot, id) ==> slot != t && CanClaim(s, s.cancels))
    ensures Inv(DoCancel(s, slot, id, local, submitted), t)
  {
    if Cancellable(s, slot, id) {
      CancelSlab(s, slot, id, local, submitted);
      assert Linked(DoCancel(s, slot, id, local, submitted), t) by {
        if submitted {
          LinkNew(s, DoCancel(s, slot, id, local, submitted), t, slot, s.cancels.Next());
        }
      }
      CancelFresh(s, slot, id, local, submitted);
      CancelLedger(s, slot, id, local, submitted);
    }
  }

  lemma CancelFresh(s: State, slot: nat, id: nat, local: Local, submitted: bool)
    requires s.ops.Valid() && s.cancels.Valid() && FreshIds(s) && Cancellable(s, slot, id) && s.nextId < MAX_OP_ID
    ensures var s' := DoCancel(s, slot, id, local, submitted); FreshIds(s') && OnlyAbout(s, s', s.nextId)
  {
    CancelSlab(s, slot, id, local, submitted);
    FreshStep(s, DoCancel(s, slot, id, local, submitted), s.nextId);
  }

  lemma CancelLedger(s: State, slot: nat, id: nat, local: Local, submitted: bool)
    requires s.ops.Valid() && s.cancels.Valid() && FreshIds(s) && Ledger(s)
    requires Cancellable(s, slot, id) && s.nextId < MAX_OP_ID
    ensures Ledger(DoCancel(s, slot, id, local, submitted))
  {
    var s', n := DoCancel(s, slot, id, local, submitted), s.cancels.Next();
    CancelFresh(s, slot, id, local, submitted);
    assert submitted ==> s'.cancels.Live(n) && s'.cancels.At(n) == CancelRec(s.nextId, slot, id, local) by {
      CancelSlab(s, slot, id, local, submitted);
    }
    LedgerStep(s, s', if submitted then CancelSubmitted(s.nextId, local, id) else CancelRefused(s.nextId, local));
  }

  /** Marking an unmarked op while a new cancel comes to name it keeps the linkage. */
  lemma LinkNew(s: State, s': State, t: int, slot: nat, n: nat)
    requires Linked(s, t) && slot != t && s.ops.Live(slot) && !s.ops.At(slot).pending
    requires SameBut(s.ops, s'.ops, slot) && s'.ops.Live(slot) && s'.ops.At(slot) == s.ops.At(slot).(pending := true)
    requires SameBut(s.cancels, s'.cancels, n) && !s.cancels.Live(n) && s'.cancels.Live(n)
    requires s'.cancels.At(n).target == slot && s'.cancels.At(n).targetId == s.ops.At(slot).id
    ensures Linked(s', t)
  {
    forall i | s'.ops.Live(i) && i != t && s'.ops.At(i).pending
      ensures exists c :: s'.cancels.Live(c) && s'.cancels.At(c).target == i
    {
      if i != slot {
        var c :| s.cancels.Live(c) && s.cancels.At(c).target == i;
        assert s'.cancels.Live(c) && s'.cancels.At(c).target == i;
      }
    }
  }

  /** Removing the cancel that names `i`, while `i` leaves the set of marked slots that need one. */
  lemma Unlink(s: State, s': State, t: int, t': int, i: nat, n: nat)
    requires Linked(s, t) && s.cancels.Live(n) && s.cancels.At(n).target == i
    requires SameBut(s.cancels, s'.cancels, n) && !s'.cancels.Live(n)
    requires SameBut(s.ops, s'.ops, i)
    requires (t' == i && t == -1) || (t' == t && (!s'.ops.Live(i) || !s'.ops.At(i).pending))
    ensures Linked(s', t')
  {
    forall j | s'.ops.Live(j) && j != t' && s'.ops.At(j).pending
      ensures exists c :: s'.cancels.Live(c) && s'.cancels.At(c).target == j
    {
      var c :| s.cancels.Live(c) && s.cancels.At(c).target == j;
      assert s'.cancels.Live(c) && s'.cancels.At(c).target == j;
    }
  }

  ghost predicate InTransit(s: State, t: int) {
    t == -1 || (s.ops.Live(t) && s.ops.At(t).pending)
  }

  /** Whatever a callback does, the invariant survives and the slot in transit is left alone. */
  lemma PerformKeeps(s: State, t: int, c: Command)
    requires Inv(s, t) && InTransit(s, t) && CanPerform(s, c)
    ensures var s' := Perform(s, c);
            && Inv(s', t) && InTransit(s', t) && s'.first == s.first
            && (t != -1 ==> s'.ops.At(t) == s.ops.At(t))
  {
    match c
    case Register(local, armed) =>
      RegisterKeeps(s, t, local, armed);
      RegisterSlab(s, local, armed);
    case Cancel(slot, id, local, submitted) =>
      CancelKeeps(s, t, slot, id, local, submitted);
  }

  lemma {:induction false} PerformAllKeeps(s: State, t: int, cs: seq<Command>)
    requires Inv(s, t) && InTransit(s, t) && CanPerformAll(s, cs)
    ensures var s' := PerformAll(s, cs);
            && Inv(s', t) && InTransit(s', t) && s'.first == s.first
            && (t != -1 ==> s'.ops.At(t) == s.ops.At(t))
  {
    if cs != [] {
      var n := |cs| - 1;
      PerformAllKeeps(s, t, cs[..n]);
      PerformKeeps(PerformAll(s, cs[..n]), t, cs[n]);
    }
  }

  // ── Completions ────────────────────────────────────────────────────

  /** An op marked pending has its cancel found by the slab scan. */
  lemma CancelFound(s: State, i: nat)
    requires Inv(s, -1) && s.ops.Live(i) && s.ops.At(i).pending
    ensures var f := FindCancel(s.cancels.slots, i, s.ops.At(i).id, 0);
            f.Some? && s.cancels.Live(f.value) && s.cancels.At(f.value).target == i
            && s.cancels.At(f.value).targetId == s.ops.At(i).id
  {
    var c :| s.cancels.Live(c) && s.cancels.At(c).target == i;
    assert Names(s.cancels.slots[c].value, i, s.ops.At(i).id);
  }

  lemma SettleKeeps(s: State, i: nat, won: bool, left: Local)
    requires Inv(s, -1) && s.ops.Live(i)
    ensures var s' := Settle(s, i, won, left);
            s'.ops == s.ops && s'.first == s.first && s'.nextId == s.nextId && Inv(s', i)
  {
    if s.ops.At(i).pending {
      CancelFound(s, i);
      var n := FindCancel(s.cancels.slots, i, s.ops.At(i).id, 0).value;
      var s' := Settle(s, i, won, left);
      ReleaseKeeps(s.cancels, n);
      Unlink(s, s', -1, i, i, n);
      ConsumeCancel(s, s', n, s'.log[|s.log|]);
    }
  }

  /** A cancel slot given back together with the event that says where its local went. */
  lemma ConsumeCancel(s: State, s': State, n: nat, e: Event)
    requires FreshIds(s) && Ledger(s) && s.cancels.Live(n) && s'.first == s.first && s'.nextId == s.nextId
    requires SameBut(s.cancels, s'.cancels, n) && !s'.cancels.Live(n) && s'.log == s.log + [e]
    requires forall i :: s'.ops.Live(i) == s.ops.Live(i)
    requires forall i :: s.ops.Live(i) ==> s'.ops.At(i).id == s.ops.At(i).id && s'.ops.At(i).local == s.ops.At(i).local
    requires var x := s.cancels.At(n);
             || e == CancelLost(x.id, x.local)
             || (e.CancelRan? && e.id == x.id && e.local == x.local && e.victim == x.targetId)
    ensures FreshIds(s') && Ledger(s')
  {
    FreshStep(s, s', s.cancels.At(n).id);
    LedgerStep(s, s', e);
  }

  lemma DeliverKeeps(s: State, i: nat, local: Local, outcome: Outcome)
    requires Inv(s, i) && s.ops.Live(i) && (outcome.Completed? ==> local == s.ops.At(i).local)
    ensures Inv(Deliver(s, i, local, outcome), -1)
  {
    var s' := Deliver(s, i, local, outcome);
    ReleaseKeeps(s.ops, i);
    LedgerStep(s, s', OpRan(s.ops.At(i).id, local, outcome));
  }

  lemma CompleteCancelKeeps(s: State, i: nat, result: int)
    requires Inv(s, -1)
    ensures Inv(CompleteCancel(s, i, result), -1)
  {
    if s.cancels.Live(i) && result != 0 {
      var s', c := CompleteCancel(s, i, result), s.cancels.At(i);
      ReleaseKeeps(s.cancels, i);
      PutKeeps(s.ops, c.target, s.ops.At(c.target).(pending := false));
      Unlink(s, s', -1, -1, c.target, i);
      ConsumeCancel(s, s', i, CancelLost(c.id, c.local));
    }
  }

  /** The stages of one op completion, each with its invariant. */
  lemma CompleteOpKeeps(s: State, c: Completion, r: Reaction)
    requires Inv(s, -1) && s.ops.Live(c.slot) && CanTake(s, c, r) && !c.cancel
    ensures var s2 := AfterCancel(s, c, r);
            Inv(s2, c.slot) && s2.ops.Live(c.slot) && s2.ops.At(c.slot) == s.ops.At(c.slot)
    ensures Inv(AfterDeliver(s, c, r), -1)
    ensures Inv(CompleteOp(s, c, r), -1)
  {
    SettleKeeps(s, c.slot, Wins(s, c), r.left);
    var s1 := Settle(s, c.slot, Wins(s, c), r.left);
    if Wins(s, c) {
      CancelFound(s, c.slot);
      PerformAllKeeps(s1, c.slot, r.onCancel);
    }
    DeliverKeeps(AfterCancel(s, c, r), c.slot, if Wins(s, c) then r.left else s.ops.At(c.slot).local, OutcomeOf(s, c));
    PerformAllKeeps(AfterDeliver(s, c, r), -1, r.onOp);
  }

  // ── Whole runs ─────────────────────────────────────────────────────

  lemma AdvanceKeeps(s: State, x: Step)
    requires Inv(s, -1) && CanAdvance(s, x)
    ensures Inv(Advance(s, x), -1)
  {
    match x
    case Do(c) =>
      PerformKeeps(s, -1, c);
    case Take(c, r) =>
      if c.cancel {
        CompleteCancelKeeps(s, c.slot, c.result);
      } else {
        CompleteOpKeeps(s, c, r);
      }
  }

  lemma InitInv(first: nat)
    requires 1 <= first <= MAX_OP_ID
    ensures Inv(Init(first), -1)
  {
  }

  lemma {:induction false} RunKeeps(s: State, xs: seq<Step>)
    requires Inv(s, -1) && CanRun(s, xs)
    ensures Inv(Run(s, xs), -1)
  {
    hide Inv, Advance, CanAdvance;
    if xs != [] {
      RunKeeps(s, xs[..|xs| - 1]);
      AdvanceKeeps(Run(s, xs[..|xs| - 1]), xs[|xs| - 1]);
    }
  }
}
