/** Shared by the other modules: the conventional optional value, and lists without repetition. */
module Wrappers {
  datatype Option<+T> = None | Some(value: T)

  ghost predicate Distinct(list: seq<nat>) {
    forall j, k :: 0 <= j < k < |list| ==> list[j] != list[k]
  }
}

/**
  The callback runtime's slabs and cancel protocol, as a state machine over values.

  An op callback or a cancel callback is arbitrary code that may register further ops and cancel
  others.  What it does in one run is a finite sequence of commands, so every theorem quantifies over
  all command sequences; a callback that inspects the runtime before choosing is covered as well.
  What a backend decides (whether a request could be armed, which completions arrive and in which
  order) is an argument in the same way.
*/
module Protocol {
  import opened Wrappers

  const MAX_OP_ID: nat := 0x4000_0000_0000_0000
  const FREE_NONE: nat := 0xFFFF_FFFF

  /** The runtime moves locals around without looking into them, so an integer stands for one. */
  type Local = int

  /** A growable slab whose free slots form a stack, topmost first. */
  datatype Slab<T> = Slab(slots: seq<Option<T>>, free: seq<nat>) {
    predicate Live(i: int) {
      0 <= i < |slots| && slots[i].Some?
    }

    function At(i: int): T
      requires Live(i)
    {
      slots[i].value
    }

    /** The free stack holds exactly the free slots, each once. */
    ghost predicate Valid() {
      && (forall j, k :: 0 <= j < k < |free| ==> free[j] != free[k])
      && (forall k :: 0 <= k < |free| ==> free[k] < |slots| && slots[free[k]].None?)
      && (forall i :: 0 <= i < |slots| && slots[i].None? ==> i in free)
    }

    /** The slot the next claim uses. */
    function Next(): nat {
      if free == [] then |slots| else free[0]
    }

    function Claim(x: T): Slab<T> {
      if free == [] then Slab(slots + [Some(x)], [])
      else if free[0] < |slots| then Slab(slots[free[0] := Some(x)], free[1..])
      else this
    }

    function Release(i: int): Slab<T> {
      if Live(i) then Slab(slots[i := None], [i] + free) else this
    }

    function Put(i: int, x: T): Slab<T> {
      if Live(i) then this.(slots := slots[i := Some(x)]) else this
    }
  }

  datatype OpRec = OpRec(id: nat, pending: bool, local: Local)

  datatype CancelRec = CancelRec(id: nat, target: nat, targetId: nat, local: Local)

  datatype Outcome = Completed(result: int, flags: nat) | Cancelled

  /** What became of the locals, in order.  `id` is always the op or cancel id the event is about. */
  datatype Event =
    | Armed(id: nat, local: Local)
    | ArmFailed(id: nat, local: Local)
    | OpRan(id: nat, local: Local, outcome: Outcome)
    | CancelSubmitted(id: nat, local: Local, victim: nat)
    | CancelRefused(id: nat, local: Local)
    | CancelRan(id: nat, local: Local, victim: nat, seen: Local, left: Local)
    | CancelLost(id: nat, local: Local)
    | TornDown(id: nat, local: Local)

  datatype State = State(ops: Slab<OpRec>, cancels: Slab<CancelRec>, first: nat, nextId: nat, log: seq<Event>)

  /** A fresh runtime; the id counter is per thread and continues where an earlier runtime left it. */
  function Init(first: nat): State {
    State(Slab([], []), Slab([], []), first, first, [])
  }

  // ── What callers and callbacks do ──────────────────────────────────

  datatype Command =
    | Register(local: Local, armed: bool)
    | Cancel(slot: nat, id: nat, local: Local, submitted: bool)

  /** The guard of `cancel`: the handle names a live op with no cancellation under way. */
  predicate Cancellable(s: State, slot: nat, id: nat) {
    s.ops.Live(slot) && s.ops.At(slot).id == id && !s.ops.At(slot).pending
  }

  function DoRegister(s: State, local: Local, armed: bool): State {
    var id := s.nextId;
    var ops := s.ops.Claim(OpRec(id, false, local));
    if armed then s.(ops := ops, nextId := id + 1, log := s.log + [Armed(id, local)])
    else s.(ops := ops.Release(s.ops.Next()), nextId := id + 1, log := s.log + [ArmFailed(id, local)])
  }

  function DoCancel(s: State, slot: nat, id: nat, local: Local, submitted: bool): State {
    if !Cancellable(s, slot, id) then s
    else
      var cid := s.nextId;
      var cancels := s.cancels.Claim(CancelRec(cid, slot, id, local));
      if submitted then
        s.(cancels := cancels, ops := s.ops.Put(slot, s.ops.At(slot).(pending := true)),
           nextId := cid + 1, log := s.log + [CancelSubmitted(cid, local, id)])
      else
        s.(cancels := cancels.Release(s.cancels.Next()), nextId := cid + 1, log := s.log + [CancelRefused(cid, local)])
  }

  function Perform(s: State, c: Command): State {
    match c
    case Register(local, armed) => DoRegister(s, local, armed)
    case Cancel(slot, id, local, submitted) => DoCancel(s, slot, id, local, submitted)
  }

  function PerformAll(s: State, cs: seq<Command>): State {
    if cs == [] then s else Perform(PerformAll(s, cs[..|cs| - 1]), cs[|cs| - 1])
  }

  /** The id counter is not exhausted and the slab index still fits below the sentinel. */
  predicate CanClaim<T>(s: State, slab: Slab<T>) {
    s.nextId < MAX_OP_ID && (slab.free == [] ==> |slab.slots| < FREE_NONE)
  }

  predicate CanPerform(s: State, c: Command) {
    match c
    case Register(_, _) => CanClaim(s, s.ops)
    case Cancel(slot, id, _, _) => Cancellable(s, slot, id) ==> CanClaim(s, s.cancels)
  }

  predicate CanPerformAll(s: State, cs: seq<Command>) {
    cs == [] || (CanPerformAll(s, cs[..|cs| - 1]) && CanPerform(PerformAll(s, cs[..|cs| - 1]), cs[|cs| - 1]))
  }

  // ── What completions do ────────────────────────────────────────────

  datatype Completion = Completion(slot: nat, result: int, flags: nat, cancel: bool, cancelled: bool)

  /** What the callbacks of one dispatch do: the cancel's callback (and what it leaves in the victim's
      local), then the op's own. */
  datatype Reaction = Reaction(onCancel: seq<Command>, left: Local, onOp: seq<Command>)

  predicate Names(c: CancelRec, slot: nat, id: nat) {
    c.target == slot && c.targetId == id
  }

  /** The first live cancel at or after `k` that names the op, as the slab scan finds it. */
  function FindCancel(slots: seq<Option<CancelRec>>, slot: nat, id: nat, k: nat): (r: Option<nat>)
    ensures r.Some? ==> k <= r.value < |slots| && slots[r.value].Some? && Names(slots[r.value].value, slot, id)
    ensures r.Some? ==> forall j :: k <= j < r.value && slots[j].Some? ==> !Names(slots[j].value, slot, id)
    ensures r.None? ==> forall j :: k <= j < |slots| && slots[j].Some? ==> !Names(slots[j].value, slot, id)
    decreases |slots| - k
  {
    if k >= |slots| then None
    else if slots[k].Some? && Names(slots[k].value, slot, id) then Some(k)
    else FindCancel(slots, slot, id, k + 1)
  }

  /** First half of an op's completion: its cancellation, if any, is settled and its slot given back. */
  function Settle(s: State, i: nat, won: bool, left: Local): State {
    if !s.ops.Live(i) || !s.ops.At(i).pending then s
    else
      var op := s.ops.At(i);
      var f := FindCancel(s.cancels.slots, i, op.id, 0);
      if f.None? then s
      else
        var c := s.cancels.At(f.value);
        s.(cancels := s.cancels.Release(f.value),
           log := s.log + [if won then CancelRan(c.id, c.local, op.id, op.local, left) else CancelLost(c.id, c.local)])
  }

  /** Second half: the slot is freed and the op's callback gets its local. */
  function Deliver(s: State, i: nat, local: Local, outcome: Outcome): State {
    if !s.ops.Live(i) then s
    else s.(ops := s.ops.Release(i), log := s.log + [OpRan(s.ops.At(i).id, local, outcome)])
  }

  predicate Wins(s: State, c: Completion) {
    s.ops.Live(c.slot) && s.ops.At(c.slot).pending && c.cancelled
  }

  function OutcomeOf(s: State, c: Completion): Outcome {
    if Wins(s, c) then Cancelled else Completed(c.result, c.flags)
  }

  /** Whether the cancel's callback runs: the scan must also find the cancel. */
  predicate CallsCancel(s: State, c: Completion) {
    Wins(s, c) && FindCancel(s.cancels.slots, c.slot, s.ops.At(c.slot).id, 0).Some?
  }

  /** The state in which the cancel's callback has just returned. */
  function AfterCancel(s: State, c: Completion, r: Reaction): State {
    var s1 := Settle(s, c.slot, Wins(s, c), r.left);
    if CallsCancel(s, c) then PerformAll(s1, r.onCancel) else s1
  }

  /** The state in which the op's callback is about to run. */
  function AfterDeliver(s: State, c: Completion, r: Reaction): State {
    if !s.ops.Live(c.slot) then s
    else
      var local := if CallsCancel(s, c) then r.left else s.ops.At(c.slot).local;
      Deliver(AfterCancel(s, c, r), c.slot, local, OutcomeOf(s, c))
  }

  function CompleteOp(s: State, c: Completion, r: Reaction): State {
    if !s.ops.Live(c.slot) then s else PerformAll(AfterDeliver(s, c, r), r.onOp)
  }

  function CompleteCancel(s: State, i: nat, result: int): State {
    if !s.cancels.Live(i) || result == 0 then s
    else
      var c := s.cancels.At(i);
      var s1 := s.(cancels := s.cancels.Release(i), log := s.log + [CancelLost(c.id, c.local)]);
      if s.ops.Live(c.target) && s.ops.At(c.target).pending && s.ops.At(c.target).id == c.targetId
      then s1.(ops := s1.ops.Put(c.target, s1.ops.At(c.target).(pending := false)))
      else s1
  }

  function TakeCompletion(s: State, c: Completion, r: Reaction): State {
    if c.cancel then CompleteCancel(s, c.slot, c.result) else CompleteOp(s, c, r)
  }

  /** The assertions `take_completion` makes of the backend. */
  predicate Admissible(s: State, c: Completion) {
    if c.cancel then c.slot < |s.cancels.slots| else s.ops.Live(c.slot)
  }

  predicate CanTake(s: State, c: Completion, r: Reaction) {
    && Admissible(s, c)
    && (!c.cancel ==>
          && (CallsCancel(s, c) ==> CanPerformAll(Settle(s, c.slot, true, r.left), r.onCancel))
          && CanPerformAll(AfterDeliver(s, c, r), r.onOp))
  }

  // ── Teardown ───────────────────────────────────────────────────────

  /** The local a slot owns, and the id it was issued under. */
  datatype Owner = Owner(id: nat, local: Local)

  function OpOwner(x: Option<OpRec>): Option<Owner> {
    if x.None? then None else Some(Owner(x.value.id, x.value.local))
  }

  function CancelOwner(x: Option<CancelRec>): Option<Owner> {
    if x.None? then None else Some(Owner(x.value.id, x.value.local))
  }

  /** Every slot of the op slab, then every slot of the cancel slab: the order of the teardown. */
  function Owners(s: State): seq<Option<Owner>> {
    seq(|s.ops.slots|, i requires 0 <= i < |s.ops.slots| => OpOwner(s.ops.slots[i])) +
    seq(|s.cancels.slots|, i requires 0 <= i < |s.cancels.slots| => CancelOwner(s.cancels.slots[i]))
  }

  function Drops(owners: seq<Option<Owner>>): seq<Event> {
    if owners == [] then []
    else
      var n := |owners| - 1;
      Drops(owners[..n]) + if owners[n].None? then [] else [TornDown(owners[n].value.id, owners[n].value.local)]
  }

  // ── Runs ───────────────────────────────────────────────────────────

  /** One step of a run: a command from outside any callback, or one completion with its callbacks. */
  datatype Step = Do(command: Command) | Take(completion: Completion, reaction: Reaction)

  function Advance(s: State, x: Step): State {
    match x
    case Do(c) => Perform(s, c)
    case Take(c, r) => TakeCompletion(s, c, r)
  }

  predicate CanAdvance(s: State, x: Step) {
    match x
    case Do(c) => CanPerform(s, c)
    case Take(c, r) => CanTake(s, c, r)
  }

  function Run(s: State, xs: seq<Step>): State {
    if xs == [] then s else Advance(Run(s, xs[..|xs| - 1]), xs[|xs| - 1])
  }

  predicate CanRun(s: State, xs: seq<Step>) {
    xs == [] || (CanRun(s, xs[..|xs| - 1]) && CanAdvance(Run(s, xs[..|xs| - 1]), xs[|xs| - 1]))
  }
}
