/** A slab whose free slots are threaded into a stack through their own dead bodies. */
module SlotSlabs {
  import opened Wrappers
  import opened Protocol
  import opened ProtocolProofs

  /** `word` is 0 while the slot is free, and only then does `next` mean anything; `payload` is
      initialized whenever the slot is live. */
  datatype RawSlot<T> = RawSlot(word: nat, payload: Option<T>, next: nat)

  datatype Held<T> = Held(word: nat, payload: T)

  ghost function LiveCount<T>(slots: seq<Option<T>>): nat {
    if slots == [] then 0 else LiveCount(slots[..|slots| - 1]) + if slots[|slots| - 1].Some? then 1 else 0
  }

  lemma {:induction false} LiveCountUpdate<T>(slots: seq<Option<T>>, i: nat, x: Option<T>)
    requires i < |slots|
    ensures LiveCount(slots[i := x]) + (if slots[i].Some? then 1 else 0) == LiveCount(slots) + if x.Some? then 1 else 0
  {
    var n := |slots| - 1;
    if i < n {
      LiveCountUpdate(slots[..n], i, x);
      assert slots[i := x][..n] == slots[..n][i := x];
    } else {
      assert slots[i := x][..n] == slots[..n];
    }
  }

  /** Following the links from `head` visits exactly the slots of `free`, in order, and ends at the sentinel. */
  ghost predicate Threaded<T>(slots: seq<RawSlot<T>>, head: nat, free: seq<nat>)
    decreases free
  {
    if free == [] then head == FREE_NONE
    else head == free[0] < |slots| && Threaded(slots, slots[head].next, free[1..])
  }

  /** Writing a slot that is not on the stack leaves the stack alone. */
  lemma {:induction false} ThreadedFrame<T>(slots: seq<RawSlot<T>>, head: nat, free: seq<nat>, i: nat, x: RawSlot<T>)
    requires Threaded(slots, head, free) && i !in free && i <= |slots|
    ensures Threaded(if i < |slots| then slots[i := x] else slots + [x], head, free)
    decreases free
  {
    if free != [] {
      ThreadedFrame(slots, slots[head].next, free[1..], i, x);
    }
  }

  /** What the top of a valid free stack may be relied on for. */
  lemma StackTop<T>(slab: Slab<T>)
    requires slab.Valid()
    ensures forall i :: slab.Live(i) ==> i !in slab.free
    ensures slab.free != [] ==>
      slab.free[0] < |slab.slots| && slab.slots[slab.free[0]].None? && slab.free[0] !in slab.free[1..]
  {
  }

  class SlotSlab<T> {
    var slots: seq<RawSlot<T>>
    var head: nat
    var inflight: nat
    ghost var view: Slab<Held<T>>

    ghost predicate Valid()
      reads this
    {
      && |slots| == |view.slots| <= FREE_NONE
      && (forall i :: 0 <= i < |slots| ==>
            if slots[i].word == 0 then view.slots[i].None?
            else slots[i].payload.Some? && view.slots[i] == Some(Held(slots[i].word, slots[i].payload.value)))
      && view.Valid()
      && Threaded(slots, head, view.free)
      && inflight == LiveCount(view.slots) && inflight + |view.free| == |slots|
    }

    constructor ()
      ensures Valid() && view == Slab([], [])
    {
      slots, head, inflight := [], FREE_NONE, 0;
      view := Slab([], []);
    }

    /** Pops the free stack, or grows the slab, and marks the slot live. */
    method Claim(word: nat, payload: T) returns (index: nat)
      requires Valid() && word != 0 && (view.free == [] ==> |view.slots| < FREE_NONE)
      modifies this
      ensures Valid() && index == old(view.Next()) && view == old(view).Claim(Held(word, payload))
    {
      StackTop(view);
      if head != FREE_NONE {
        index := ClaimTop(word, payload);
      } else {
        index := ClaimNew(word, payload);
      }
    }

    method ClaimTop(word: nat, payload: T) returns (index: nat)
      requires Valid() && word != 0 && view.free != []
      modifies this
      ensures Valid() && index == old(view.free[0]) && view == old(view).Claim(Held(word, payload))
    {
      hide Slab.Valid;
      StackTop(view);
      ghost var held := Held(word, payload);
      ClaimKeeps(view, held);
      inflight := inflight + 1;
      index := head;
      ThreadedFrame(slots, slots[index].next, view.free[1..], index, RawSlot(word, Some(payload), slots[index].next));
      LiveCountUpdate(view.slots, index, Some(held));
      head := slots[index].next;
      slots := slots[index := RawSlot(word, Some(payload), slots[index].next)];
      view := view.Claim(held);
    }

    method ClaimNew(word: nat, payload: T) returns (index: nat)
      requires Valid() && word != 0 && view.free == [] && |view.slots| < FREE_NONE
      modifies this
      ensures Valid() && index == old(|view.slots|) && view == old(view).Claim(Held(word, payload))
    {
      hide Slab.Valid;
      ghost var held := Held(word, payload);
      ClaimKeeps(view, held);
      inflight := inflight + 1;
      slots := slots + [RawSlot(0, None, FREE_NONE)];
      index := |slots| - 1;
      assert (view.slots + [Some(held)])[..index] == view.slots;
      slots := slots[index := RawSlot(word, Some(payload), slots[index].next)];
      view := view.Claim(held);
    }

    /** Puts a live slot on top of the free stack, writing only its word and its link. */
    method Free(index: nat)
      requires Valid() && view.Live(index)
      modifies this
      ensures Valid() && view == old(view).Release(index)
    {
      hide Slab.Valid;
      StackTop(view);
      ReleaseKeeps(view, index);
      LiveCountUpdate(view.slots, index, None);
      ThreadedFrame(slots, head, view.free, index, slots[index].(word := 0, next := head));
      inflight := inflight - 1;
      slots := slots[index := slots[index].(word := 0, next := head)];
      head := index;
      view := view.Release(index);
      assert view.free[1..] == old(view.free);
    }

    method SetWord(index: nat, word: nat)
      requires Valid() && view.Live(index) && word != 0
      modifies this
      ensures Valid() && view == old(view).Put(index, old(view.At(index)).(word := word))
    {
      hide Slab.Valid;
      StackTop(view);
      PutKeeps(view, index, view.At(index).(word := word));
      LiveCountUpdate(view.slots, index, Some(view.At(index).(word := word)));
      ThreadedFrame(slots, head, view.free, index, slots[index].(word := word));
      slots := slots[index := slots[index].(word := word)];
      view := view.Put(index, view.At(index).(word := word));
    }
  }

  /** What the raw slots of a slab say, index by index. */
  lemma ReadSlot<T>(s: SlotSlab<T>, i: nat)
    requires s.Valid()
    ensures |s.slots| == |s.view.slots| && s.view.Valid()
    ensures i < |s.slots| ==> (s.slots[i].word == 0 <==> !s.view.Live(i))
    ensures s.view.Live(i) ==>
      s.slots[i].payload.Some? && s.view.At(i) == Held(s.slots[i].word, s.slots[i].payload.value)
  {
  }

  /** The slot reached from `head` after following `n` links. */
  ghost function Walk<T>(slots: seq<RawSlot<T>>, head: nat, n: nat): nat
    decreases n
  {
    if n == 0 || head >= |slots| then head else Walk(slots, slots[head].next, n - 1)
  }

  lemma {:induction false} WalkThreaded<T>(slots: seq<RawSlot<T>>, head: nat, free: seq<nat>, k: nat)
    requires Threaded(slots, head, free) && k <= |free|
    ensures Walk(slots, head, k) == if k < |free| then free[k] else FREE_NONE
    decreases k
  {
    if k > 0 {
      WalkThreaded(slots, slots[head].next, free[1..], k - 1);
    }
  }

  /** Following the links from the head visits each free slot exactly once, and then stops at the sentinel;
      the in-flight counter is the number of slots not visited. */
  lemma FreeStackWalk<T>(s: SlotSlab<T>)
    requires s.Valid()
    ensures forall k :: 0 <= k <= |s.view.free| ==>
              Walk(s.slots, s.head, k) == if k < |s.view.free| then s.view.free[k] else FREE_NONE
    ensures forall i :: 0 <= i < |s.slots| ==> (s.slots[i].word == 0 <==> i in s.view.free)
    ensures forall j, k :: 0 <= j < k < |s.view.free| ==> s.view.free[j] != s.view.free[k]
    ensures s.inflight + |s.view.free| == |s.slots|
  {
    forall k | 0 <= k <= |s.view.free|
      ensures Walk(s.slots, s.head, k) == if k < |s.view.free| then s.view.free[k] else FREE_NONE
    {
      WalkThreaded(s.slots, s.head, s.view.free, k);
    }
  }
}

/** The runtime's in-place code, proved against the protocol. */
module CallbackRuntime {
  import opened Wrappers
  import opened Protocol
  import opened ProtocolTheorems
  import opened SlotSlabs

  // ── Slot words ─────────────────────────────────────────────────────
  //
  // 0 is free, n is live, n with bit 62 set is live with a cancellation under way.

  const CANCEL_PENDING: nat := 0x4000_0000_0000_0000

  /** `id & CANCEL_PENDING != 0` */
  predicate IsCancelPending(word: nat) {
    word / CANCEL_PENDING % 2 == 1
  }

  /** `id & !CANCEL_PENDING` */
  function IdBits(word: nat): nat {
    if IsCancelPending(word) then word - CANCEL_PENDING else word
  }

  /** `id | CANCEL_PENDING` */
  function WithPending(word: nat): nat {
    if IsCancelPending(word) then word else word + CANCEL_PENDING
  }

  /** An op id below the counter's limit survives the flag being set and cleared, and is never the free word. */
  lemma WordRoundTrip(id: nat)
    requires 1 <= id < MAX_OP_ID
    ensures !IsCancelPending(id) && IdBits(id) == id
    ensures IsCancelPending(WithPending(id)) && IdBits(WithPending(id)) == id
    ensures WithPending(id) == id + 0x4000_0000_0000_0000 < 0x1_0000_0000_0000_0000
  {
    assert id / CANCEL_PENDING == 0 && (id + CANCEL_PENDING) / CANCEL_PENDING == 1;
  }

  function WordOf(op: OpRec): nat {
    if op.pending then WithPending(op.id) else op.id
  }

  datatype CancelBody = CancelBody(target: nat, targetId: nat, local: Local)

  datatype Handle = Handle(slot: nat, id: nat)

  ghost predicate OpsMatch(a: Slab<OpRec>, b: Slab<Held<Local>>) {
    && a.free == b.free && |a.slots| == |b.slots|
    && forall i :: 0 <= i < |a.slots| ==>
         b.slots[i] == if a.slots[i].None? then None else Some(Held(WordOf(a.slots[i].value), a.slots[i].value.local))
  }

  ghost predicate CancelsMatch(a: Slab<CancelRec>, b: Slab<Held<CancelBody>>) {
    && a.free == b.free && |a.slots| == |b.slots|
    && forall i :: 0 <= i < |a.slots| ==>
         b.slots[i] == if a.slots[i].None? then None
                       else var x := a.slots[i].value; Some(Held(x.id, CancelBody(x.target, x.targetId, x.local)))
  }

  /** Ids fit their field of the slot word. */
  ghost predicate Bounded(s: State) {
    1 <= s.nextId <= MAX_OP_ID && forall i :: s.ops.Live(i) ==> 1 <= s.ops.At(i).id < MAX_OP_ID
  }

  /** The two slabs hold what the protocol state says. */
  ghost predicate Represents(s: State, ops: Slab<Held<Local>>, cancels: Slab<Held<CancelBody>>) {
    OpsMatch(s.ops, ops) && CancelsMatch(s.cancels, cancels) && Bounded(s)
  }

  lemma RepresentsRegister(s: State, ops: Slab<Held<Local>>, cancels: Slab<Held<CancelBody>>, local: Local, armed: bool)
    requires Represents(s, ops, cancels) && ops.Valid() && CanClaim(s, s.ops)
    ensures s.ops.Next() == ops.Next() && s.nextId != 0 && (ops.free == [] ==> |ops.slots| < FREE_NONE)
    ensures var ops1 := ops.Claim(Held(s.nextId, local));
            && ops1.Live(ops.Next())
            && Represents(DoRegister(s, local, armed), if armed then ops1 else ops1.Release(ops.Next()), cancels)
  {
    var s' := DoRegister(s, local, armed);
    forall i | s'.ops.Live(i)
      ensures 1 <= s'.ops.At(i).id < MAX_OP_ID
    {
      assert i == s.ops.Next() || (s.ops.Live(i) && s'.ops.At(i) == s.ops.At(i));
    }
  }

  /** The guard of `cancel` on slot words agrees with the protocol's. */
  lemma RepresentsGuard(s: State, ops: Slab<Held<Local>>, cancels: Slab<Held<CancelBody>>, slot: nat, id: nat)
    requires Represents(s, ops, cancels)
    ensures s.ops.Live(slot) == ops.Live(slot)
    ensures ops.Live(slot) ==>
              var w := ops.At(slot).word;
              && IdBits(w) == s.ops.At(slot).id && IsCancelPending(w) == s.ops.At(slot).pending
              && w == WordOf(s.ops.At(slot))
  {
    if s.ops.Live(slot) {
      WordRoundTrip(s.ops.At(slot).id);
    }
  }

  lemma RepresentsCancel(s: State, ops: Slab<Held<Local>>, cancels: Slab<Held<CancelBody>>, slot: nat, id: nat,
                         local: Local, submitted: bool)
    requires Represents(s, ops, cancels) && cancels.Valid() && Cancellable(s, slot, id) && CanClaim(s, s.cancels)
    ensures s.cancels.Next() == cancels.Next() && ops.Live(slot) && s.nextId != 0
    ensures cancels.free == [] ==> |cancels.slots| < FREE_NONE
    ensures var cancels1 := cancels.Claim(Held(s.nextId, CancelBody(slot, id, local)));
            && cancels1.Live(cancels.Next())
            && Represents(DoCancel(s, slot, id, local, submitted),
                          if submitted then ops.Put(slot, ops.At(slot).(word := WithPending(ops.At(slot).word)))
                          else ops,
                          if submitted then cancels1 else cancels1.Release(cancels.Next()))
  {
    var s' := DoCancel(s, slot, id, local, submitted);
    forall i | s'.ops.Live(i)
      ensures 1 <= s'.ops.At(i).id < MAX_OP_ID
    {
      assert s.ops.Live(i) && s'.ops.At(i).id == s.ops.At(i).id;
    }
    WordRoundTrip(id);
  }

  lemma RepresentsSettle(s: State, ops: Slab<Held<Local>>, cancels: Slab<Held<CancelBody>>, i: nat, won: bool,
                         left: Local)
    requires Represents(s, ops, cancels) && s.ops.Live(i) && s.ops.At(i).pending
    ensures var f := FindCancel(s.cancels.slots, i, s.ops.At(i).id, 0);
            f.Some? ==> cancels.Live(f.value) && Represents(Settle(s, i, won, left), ops, cancels.Release(f.value))
  {
  }

  lemma RepresentsDeliver(s: State, ops: Slab<Held<Local>>, cancels: Slab<Held<CancelBody>>, i: nat, local: Local,
                          outcome: Outcome, word: nat)
    requires Represents(s, ops, cancels) && s.ops.Live(i)
    ensures ops.Live(i) && Represents(Deliver(s, i, local, outcome), ops.Release(i), cancels)
    ensures ops.Put(i, ops.At(i).(word := word)).Release(i) == ops.Release(i)
  {
    var s' := Deliver(s, i, local, outcome);
    assert forall j :: s'.ops.Live(j) ==> s.ops.Live(j) && s'.ops.At(j) == s.ops.At(j);
    assert ops.slots[i := Some(ops.At(i).(word := word))][i := None] == ops.slots[i := None];
  }

  lemma RepresentsLoss(s: State, ops: Slab<Held<Local>>, cancels: Slab<Held<CancelBody>>, i: nat, result: int)
    requires Represents(s, ops, cancels) && s.cancels.Live(i) && result != 0
    ensures cancels.Live(i)
    ensures var x := s.cancels.At(i); var s' := CompleteCancel(s, i, result);
            Represents(s', if s.ops.Live(x.target) && s.ops.At(x.target).pending && s.ops.At(x.target).id == x.targetId
                           then ops.Put(x.target, ops.At(x.target).(word := IdBits(ops.At(x.target).word))) else ops,
                       cancels.Release(i))
  {
    var x, s' := s.cancels.At(i), CompleteCancel(s, i, result);
    if s.ops.Live(x.target) {
      WordRoundTrip(s.ops.At(x.target).id);
    }
    assert forall j :: s'.ops.Live(j) ==> s.ops.Live(j) && s'.ops.At(j).id == s.ops.At(j).id;
  }

  lemma RepresentsLocal(s: State, ops: Slab<Held<Local>>, cancels: Slab<Held<CancelBody>>, i: nat)
    requires Represents(s, ops, cancels) && ops.Live(i)
    ensures ops.At(i).payload == s.ops.At(i).local
  {
  }

  lemma WordNotFree(s: State, ops: Slab<Held<Local>>, cancels: Slab<Held<CancelBody>>, i: nat)
    requires Represents(s, ops, cancels) && ops.Live(i)
    ensures IdBits(ops.At(i).word) != 0
  {
    WordRoundTrip(s.ops.At(i).id);
  }

  lemma RepresentsBody(s: State, ops: Slab<Held<Local>>, cancels: Slab<Held<CancelBody>>, i: nat)
    requires Represents(s, ops, cancels)
    ensures s.cancels.Live(i) == cancels.Live(i)
    ensures cancels.Live(i) ==>
              var x := s.cancels.At(i); cancels.At(i) == Held(x.id, CancelBody(x.target, x.targetId, x.local))
  {
  }

  lemma RepresentsLive(s: State, ops: Slab<Held<Local>>, cancels: Slab<Held<CancelBody>>)
    requires Represents(s, ops, cancels)
    ensures |s.ops.slots| == |ops.slots| && |s.cancels.slots| == |cancels.slots|
    ensures forall i :: s.ops.Live(i) == ops.Live(i) && s.cancels.Live(i) == cancels.Live(i)
  {
  }

  lemma CounterZero<T>(s: SlotSlab<T>)
    requires s.Valid()
    ensures s.inflight == 0 <==> forall i :: !s.view.Live(i)
  {
    CountZero(s.view.slots);
    if s.inflight != 0 {
      var i :| 0 <= i < |s.view.slots| && s.view.slots[i].Some?;
      assert s.view.Live(i);
    }
  }

  // ── What a backend feeds the drive loop ────────────────────────────

  datatype Delivery = Delivery(completion: Completion, reaction: Reaction)

  datatype Pass = Pass(deliveries: seq<Delivery>, waitFails: bool)

  datatype Ending = Quiet | BackendError | Running

  ghost function TakesOf(ds: seq<Delivery>): seq<Step> {
    seq(|ds|, i requires 0 <= i < |ds| => Take(ds[i].completion, ds[i].reaction))
  }

  ghost function StepsOf(passes: seq<Pass>): seq<Step> {
    if passes == [] then [] else StepsOf(passes[..|passes| - 1]) + TakesOf(passes[|passes| - 1].deliveries)
  }

  /** A drain takes every completion it is given, in order, and the passes follow one another. */
  lemma PassesAreTheirDeliveries(passes: seq<Pass>, p: Pass)
    ensures |TakesOf(p.deliveries)| == |p.deliveries|
    ensures forall i :: 0 <= i < |p.deliveries| ==>
      TakesOf(p.deliveries)[i] == Take(p.deliveries[i].completion, p.deliveries[i].reaction)
    ensures StepsOf([]) == [] && StepsOf(passes + [p]) == StepsOf(passes) + TakesOf(p.deliveries)
  {
    assert (passes + [p])[..|passes|] == passes;
  }

  lemma {:induction false} StepsOfPrefix(passes: seq<Pass>, k: nat)
    requires k <= |passes|
    ensures StepsOf(passes[..k]) <= StepsOf(passes)
  {
    if k < |passes| {
      StepsOfPrefix(passes[..|passes| - 1], k);
      assert passes[..|passes| - 1][..k] == passes[..k];
    } else {
      assert passes[..k] == passes;
    }
  }

  /** After pass `k` something is still in flight and the wait succeeds. */
  ghost predicate GoesOn(s: State, passes: seq<Pass>, k: nat) {
    k < |passes| && !passes[k].waitFails && !Quiescent(Run(s, StepsOf(passes[..k + 1])))
  }

  lemma NoStepsYet(s: State)
    ensures StepsOf([]) == [] && Run(s, []) == s
  {
  }

  lemma NextStep(s: State, xs: seq<Step>, k: nat)
    requires k < |xs| && CanRun(s, xs)
    ensures CanAdvance(Run(s, xs[..k]), xs[k]) && Run(s, xs[..k + 1]) == Advance(Run(s, xs[..k]), xs[k])
  {
    hide Advance, CanAdvance;
    RunConcat(s, xs[..k + 1], xs[k + 1..]);
    assert xs == xs[..k + 1] + xs[k + 1..] && xs[..k + 1][..k] == xs[..k];
  }

  /** The `k`-th pass continues the run the earlier passes made. */
  lemma NextPass(s: State, passes: seq<Pass>, k: nat)
    requires k < |passes| && CanRun(s, StepsOf(passes))
    ensures var before := StepsOf(passes[..k]); var pass := TakesOf(passes[k].deliveries);
            && CanRun(Run(s, before), pass)
            && StepsOf(passes[..k + 1]) <= StepsOf(passes)
            && Run(s, StepsOf(passes[..k + 1])) == Run(Run(s, before), pass)
  {
    hide Run, CanRun, TakesOf;
    var before, pass, all := StepsOf(passes[..k]), TakesOf(passes[k].deliveries), StepsOf(passes);
    StepsOfPrefix(passes, k + 1);
    assert passes[..k + 1][..k] == passes[..k];
    assert all == (before + pass) + all[|before + pass|..];
    RunConcat(s, before + pass, all[|before + pass|..]);
    RunConcat(s, before, pass);
  }

  lemma {:induction false} CountZero<T>(slots: seq<Option<T>>)
    ensures LiveCount(slots) == 0 <==> forall i :: 0 <= i < |slots| ==> slots[i].None?
  {
    if slots != [] {
      var n := |slots| - 1;
      CountZero(slots[..n]);
      assert forall i :: 0 <= i < n ==> slots[..n][i] == slots[i];
    }
  }

  class Runtime {
    const ops: SlotSlab<Local>
    const cancels: SlotSlab<CancelBody>
    var nextOpId: nat
    ghost var state: State

    ghost predicate Valid()
      reads this, ops, cancels
    {
      && (ops as object) != (cancels as object)
      && ops.Valid() && cancels.Valid() && nextOpId == state.nextId
      && Represents(state, ops.view, cancels.view)
    }

    constructor (first: nat)
      requires 1 <= first <= MAX_OP_ID
      ensures Valid() && state == Init(first) && fresh(ops) && fresh(cancels)
    {
      ops := new SlotSlab<Local>();
      cancels := new SlotSlab<CancelBody>();
      nextOpId := first;
      state := Init(first);
    }

    /** Takes a slot and an id, installs the local and hands the request to the backend, which answers
        `armed`; a refused request gives the slot back and drops the local. */
    method RegisterOp(local: Local, armed: bool) returns (r: Option<Handle>)
      requires Valid() && CanClaim(state, state.ops)
      modifies this`nextOpId, this`state, ops
      ensures Valid() && state == DoRegister(old(state), local, armed)
      ensures r == if armed then Some(Handle(old(state.ops.Next()), old(state.nextId))) else None
    {
      hide SlotSlab.Valid, Slab.Valid, Represents;
      var id := nextOpId;
      nextOpId := id + 1;
      ReadSlot(ops, 0);
      RepresentsRegister(state, ops.view, cancels.view, local, armed);
      var index := ops.Claim(id, local);
      if armed {
        r := Some(Handle(index, id));
      } else {
        ops.Free(index);
        r := None;
      }
      state := DoRegister(state, local, armed);
    }

    /** Cancels an op by its handle, best effort: a handle that names no live op, or one already being
        cancelled, is ignored.  `submitted` is the backend's answer.  A local that no slot takes is dropped. */
    method CancelOp(h: Handle, local: Local, submitted: bool) returns (dropped: Option<Local>)
      requires Valid() && CanPerform(state, Cancel(h.slot, h.id, local, submitted))
      modifies this`nextOpId, this`state, ops, cancels
      ensures Valid() && state == DoCancel(old(state), h.slot, h.id, local, submitted)
      ensures dropped == if old(Cancellable(state, h.slot, h.id)) && submitted then None else Some(local)
    {
      hide SlotSlab.Valid, Slab.Valid, Represents;
      dropped := Some(local);
      ReadSlot(ops, h.slot);
      RepresentsGuard(state, ops.view, cancels.view, h.slot, h.id);
      if h.slot < |ops.slots| && ops.slots[h.slot].word != 0
         && IdBits(ops.slots[h.slot].word) == h.id && !IsCancelPending(ops.slots[h.slot].word) {
        SubmitCancel(h, local, submitted);
        dropped := if submitted then None else Some(local);
      }
    }

    method SubmitCancel(h: Handle, local: Local, submitted: bool)
      requires Valid() && Cancellable(state, h.slot, h.id) && CanClaim(state, state.cancels)
      modifies this`nextOpId, this`state, ops, cancels
      ensures Valid() && state == DoCancel(old(state), h.slot, h.id, local, submitted)
    {
      hide SlotSlab.Valid, Slab.Valid, Represents;
      ReadSlot(ops, h.slot);
      ReadSlot(cancels, 0);
      RepresentsCancel(state, ops.view, cancels.view, h.slot, h.id, local, submitted);
      var id := nextOpId;
      nextOpId := id + 1;
      var index := cancels.Claim(id, CancelBody(h.slot, h.id, local));
      if submitted {
        ops.SetWord(h.slot, WithPending(ops.slots[h.slot].word));
      } else {
        cancels.Free(index);
      }
      state := DoCancel(state, h.slot, h.id, local, submitted);
    }

    /** Runs one callback, which performs `cs`. */
    method RunCallback(cs: seq<Command>)
      requires Valid() && CanPerformAll(state, cs)
      modifies this`nextOpId, this`state, ops, cancels
      ensures Valid() && state == PerformAll(old(state), cs)
    {
      hide SlotSlab.Valid, Slab.Valid, Represents;
      for k := 0 to |cs|
        invariant Valid() && state == PerformAll(old(state), cs[..k])
      {
        CanPerformPrefix(old(state), cs, k);
        assert cs[..k + 1][..k] == cs[..k];
        match cs[k]
        case Register(local, armed) =>
          var _ := RegisterOp(local, armed);
        case Cancel(slot, id, local, submitted) =>
          var _ := CancelOp(Handle(slot, id), local, submitted);
      }
      assert cs[..|cs|] == cs;
    }

    /** The live cancel naming the op in `index`, by a scan of the cancel slab. */
    method FindCancelOf(index: nat) returns (r: Option<nat>)
      requires Valid() && state.ops.Live(index)
      ensures r == FindCancel(state.cancels.slots, index, state.ops.At(index).id, 0)
    {
      hide SlotSlab.Valid, Slab.Valid;
      ReadSlot(ops, index);
      RepresentsGuard(state, ops.view, cancels.view, index, 0);
      ReadSlot(cancels, 0);
      RepresentsLive(state, ops.view, cancels.view);
      var id := IdBits(ops.slots[index].word);
      assert id == state.ops.At(index).id;
      hide Represents;
      var k := 0;
      while k < |cancels.slots|
        invariant 0 <= k <= |cancels.slots|
        invariant FindCancel(state.cancels.slots, index, id, 0) == FindCancel(state.cancels.slots, index, id, k)
      {
        var c := cancels.slots[k];
        ReadSlot(cancels, k);
        RepresentsBody(state, ops.view, cancels.view, k);
        if c.word != 0 && c.payload.value.target == index && c.payload.value.targetId == id {
          return Some(k);
        }
        k := k + 1;
      }
      r := None;
    }

    /** Takes the cancel naming the op in `index` out of the cancel slab, if the scan finds it. */
    method ConsumeCancelOf(index: nat, won: bool, left: Local) returns (found: bool)
      requires Valid() && state.ops.Live(index) && state.ops.At(index).pending
      modifies this`state, cancels
      ensures Valid() && state == Settle(old(state), index, won, left)
      ensures found == FindCancel(old(state).cancels.slots, index, old(state).ops.At(index).id, 0).Some?
    {
      hide SlotSlab.Valid, Slab.Valid, Represents;
      var f := FindCancelOf(index);
      found := f.Some?;
      if found {
        RepresentsSettle(state, ops.view, cancels.view, index, won, left);
        cancels.Free(f.value);
        state := Settle(state, index, won, left);
      }
    }

    /** Clears the mark and puts the slot back on the free stack; its local has been moved out. */
    method FreeOpSlotTaken(index: nat, local: Local, outcome: Outcome)
      requires Valid() && state.ops.Live(index)
      modifies this`state, ops
      ensures Valid() && state == Deliver(old(state), index, local, outcome)
    {
      hide SlotSlab.Valid, Slab.Valid, Represents;
      ReadSlot(ops, index);
      RepresentsGuard(state, ops.view, cancels.view, index, 0);
      WordNotFree(state, ops.view, cancels.view, index);
      var word := IdBits(ops.slots[index].word);
      RepresentsDeliver(state, ops.view, cancels.view, index, local, outcome, word);
      ops.SetWord(index, word);
      ops.Free(index);
      state := Deliver(state, index, local, outcome);
    }

    /** The local a live op slot owns, and whether the slot is marked. */
    method ReadOp(index: nat) returns (local: Local, pending: bool)
      requires Valid() && state.ops.Live(index)
      ensures local == state.ops.At(index).local && pending == state.ops.At(index).pending
    {
      hide SlotSlab.Valid, Slab.Valid, Represents;
      ReadSlot(ops, index);
      RepresentsGuard(state, ops.view, cancels.view, index, 0);
      RepresentsLocal(state, ops.view, cancels.view, index);
      local, pending := ops.slots[index].payload.value, IsCancelPending(ops.slots[index].word);
    }

    /** Dispatches one op completion: settles its cancellation, frees its slot, runs its callback. */
    method CompleteOp(c: Completion, r: Reaction)
      requires Valid() && Reachable(state) && !c.cancel && CanTake(state, c, r)
      modifies this`nextOpId, this`state, ops, cancels
      ensures Valid() && state == Protocol.CompleteOp(old(state), c, r)
    {
      hide SlotSlab.Valid, Slab.Valid, Represents;
      ghost var s := state;
      TransitKept(s, c, r);
      var local, pending := ReadOp(c.slot);
      var cancelled := pending && c.cancelled;
      if pending {
        var found := ConsumeCancelOf(c.slot, cancelled, r.left);
        if found && cancelled {
          RunCallback(r.onCancel);
          local := r.left;
        }
      }
      FreeOpSlotTaken(c.slot, local, if cancelled then Cancelled else Completed(c.result, c.flags));
      RunCallback(r.onOp);
    }

    /** Settles a cancellation whose own completion has been seen: a zero result leaves it to the op. */
    method CompleteCancel(index: nat, result: int)
      requires Valid() && index < |state.cancels.slots|
      modifies this`state, ops, cancels
      ensures Valid() && state == Protocol.CompleteCancel(old(state), index, result)
    {
      hide SlotSlab.Valid, Slab.Valid, Represents;
      ReadSlot(cancels, index);
      RepresentsLive(state, ops.view, cancels.view);
      RepresentsBody(state, ops.view, cancels.view, index);
      if cancels.slots[index].word == 0 || result == 0 {
        return;
      }
      var x := cancels.slots[index].payload.value;
      RepresentsLoss(state, ops.view, cancels.view, index, result);
      ghost var s' := Protocol.CompleteCancel(state, index, result);
      var named := MarkedAs(x.target, x.targetId);
      cancels.Free(index);
      if named {
        ops.SetWord(x.target, IdBits(ops.slots[x.target].word));
      }
      state := s';
    }

    /** Whether slot `index` holds op `id`, marked pending. */
    method MarkedAs(index: nat, id: nat) returns (r: bool)
      requires Valid()
      ensures r == (state.ops.Live(index) && state.ops.At(index).pending && state.ops.At(index).id == id)
      ensures r ==> index < |ops.slots| && ops.view.Live(index) && IdBits(ops.slots[index].word) != 0
      ensures r ==> ops.slots[index].word == ops.view.At(index).word
    {
      hide SlotSlab.Valid, Slab.Valid, Represents;
      ReadSlot(ops, index);
      RepresentsGuard(state, ops.view, cancels.view, index, id);
      if ops.view.Live(index) {
        WordNotFree(state, ops.view, cancels.view, index);
      }
      r := index < |ops.slots| && IsCancelPending(ops.slots[index].word) && IdBits(ops.slots[index].word) == id;
    }

    method TakeCompletion(c: Completion, r: Reaction)
      requires Valid() && Reachable(state) && CanTake(state, c, r)
      modifies this`nextOpId, this`state, ops, cancels
      ensures Valid() && Reachable(state) && state == Protocol.TakeCompletion(old(state), c, r)
    {
      ReachableStep(state, Take(c, r));
      if c.cancel {
        CompleteCancel(c.slot, c.result);
      } else {
        CompleteOp(c, r);
      }
    }

    /** Takes completions one at a time until the backend has none left. */
    method DrainCompletions(ds: seq<Delivery>)
      requires Valid() && Reachable(state) && CanRun(state, TakesOf(ds))
      modifies this`nextOpId, this`state, ops, cancels
      ensures Valid() && Reachable(state) && state == Run(old(state), TakesOf(ds))
    {
      hide SlotSlab.Valid, Slab.Valid, Represents;
      for k := 0 to |ds|
        invariant Valid() && Reachable(state) && state == Run(old(state), TakesOf(ds)[..k])
      {
        NextStep(old(state), TakesOf(ds), k);
        TakeCompletion(ds[k].completion, ds[k].reaction);
      }
      assert TakesOf(ds)[..|ds|] == TakesOf(ds);
    }

    /** Whether anything is in flight, as the counters tell it. */
    method HasInflight() returns (r: bool)
      requires Valid()
      ensures r == !Quiescent(state)
    {
      hide SlotSlab.Valid, Slab.Valid, Represents;
      CounterZero(ops);
      CounterZero(cancels);
      RepresentsLive(state, ops.view, cancels.view);
      r := ops.inflight != 0 || cancels.inflight != 0;
    }

    /** The drive loop: drain what the backend reports, stop when nothing is in flight, else wait.  The
        backend's side is the list of drain passes, each followed by a wait that may fail. */
    method Drive(passes: seq<Pass>) returns (end: Ending, ghost done: nat)
      requires Valid() && Reachable(state) && CanRun(state, StepsOf(passes))
      modifies this`nextOpId, this`state, ops, cancels
      ensures Valid() && Reachable(state)
      ensures done <= |passes| && state == Run(old(state), StepsOf(passes[..done]))
      ensures forall k: nat :: k < done - 1 ==> GoesOn(old(state), passes, k)
      ensures end == Quiet <==> done > 0 && Quiescent(state)
      ensures end == BackendError <==> done > 0 && !Quiescent(state) && passes[done - 1].waitFails
      ensures end == Running ==> done == |passes|
    {
      hide SlotSlab.Valid, Slab.Valid, Represents;
      hide Run, CanRun, TakesOf, StepsOf, Reachable, Quiescent;
      end, done := Running, 0;
      NoStepsYet(state);
      for k := 0 to |passes|
        invariant Valid() && Reachable(state) && done == k && state == Run(old(state), StepsOf(passes[..k]))
        invariant forall j: nat :: j < k ==> GoesOn(old(state), passes, j)
        invariant k > 0 ==> !Quiescent(state) && !passes[k - 1].waitFails
      {
        NextPass(old(state), passes, k);
        DrainCompletions(passes[k].deliveries);
        done := k + 1;
        var inflight := HasInflight();
        if !inflight {
          return Quiet, done;
        }
        if passes[k].waitFails {
          return BackendError, done;
        }
      }
    }

    /** Drops the local of every live slot, op slab first; free slots own none. */
    method Teardown() returns (dropped: seq<Event>)
      requires Valid()
      ensures dropped == Drops(Owners(state))
    {
      hide SlotSlab.Valid, Slab.Valid, Represents, Owners, Drops;
      ReadSlot(ops, 0);
      ReadSlot(cancels, 0);
      RepresentsLive(state, ops.view, cancels.view);
      ghost var owners := Owners(state);
      OwnersCount(state);
      DropsNone();
      dropped := [];
      for i := 0 to |ops.slots|
        invariant dropped == Drops(owners[..i])
      {
        OwnerOfOp(state, ops, cancels.view, i);
        DropsSnoc(owners, i);
        if ops.slots[i].word != 0 {
          dropped := dropped + [TornDown(IdBits(ops.slots[i].word), ops.slots[i].payload.value)];
        }
      }
      ghost var n := |ops.slots|;
      for i := 0 to |cancels.slots|
        invariant dropped == Drops(owners[..n + i])
      {
        OwnerOfCancel(state, ops.view, cancels, i);
        DropsSnoc(owners, n + i);
        if cancels.slots[i].word != 0 {
          dropped := dropped + [TornDown(cancels.slots[i].word, cancels.slots[i].payload.value.local)];
        }
      }
      assert owners[..|owners|] == owners;
    }
  }

  lemma OwnersCount(s: State)
    ensures |Owners(s)| == |s.ops.slots| + |s.cancels.slots|
  {
  }

  lemma DropsNone()
    ensures Drops([]) == []
  {
  }

  lemma DropsSnoc(owners: seq<Option<Owner>>, i: nat)
    requires i < |owners|
    ensures Drops(owners[..i + 1]) ==
              if owners[i].None? then Drops(owners[..i])
              else Drops(owners[..i]) + [TornDown(owners[i].value.id, owners[i].value.local)]
  {
    assert owners[..i + 1][..i] == owners[..i];
  }

  lemma OwnerOfOp(s: State, ops: SlotSlab<Local>, cancels: Slab<Held<CancelBody>>, i: nat)
    requires ops.Valid() && Represents(s, ops.view, cancels) && i < |ops.slots|
    ensures i < |Owners(s)| && (ops.slots[i].word != 0 ==> ops.slots[i].payload.Some?)
    ensures Owners(s)[i] == if ops.slots[i].word == 0 then None
                            else Some(Owner(IdBits(ops.slots[i].word), ops.slots[i].payload.value))
  {
    RepresentsGuard(s, ops.view, cancels, i, 0);
  }

  lemma OwnerOfCancel(s: State, ops: Slab<Held<Local>>, cancels: SlotSlab<CancelBody>, i: nat)
    requires cancels.Valid() && Represents(s, ops, cancels.view) && i < |cancels.slots|
    ensures |ops.slots| + i < |Owners(s)| && (cancels.slots[i].word != 0 ==> cancels.slots[i].payload.Some?)
    ensures Owners(s)[|ops.slots| + i] == if cancels.slots[i].word == 0 then None
                                          else Some(Owner(cancels.slots[i].word, cancels.slots[i].payload.value.local))
  {
    RepresentsBody(s, ops, cancels.view, i);
  }

  lemma {:induction false} CanPerformPrefix(s: State, cs: seq<Command>, k: nat)
    requires CanPerformAll(s, cs) && k < |cs|
    ensures CanPerformAll(s, cs[..k]) && CanPerform(PerformAll(s, cs[..k]), cs[k])
  {
    if k < |cs| - 1 {
      CanPerformPrefix(s, cs[..|cs| - 1], k);
      assert cs[..|cs| - 1][..k] == cs[..k];
    }
  }
}
