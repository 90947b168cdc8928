/** The runtime and its arena together: which op a run of buffers belongs to, over whole runs. */
module BufferedRuntime {
  import opened Wrappers
  import opened Protocol
  import opened ProtocolProofs
  import A = BufferArena
  import AP = ArenaProofs

  // ── Calls that carry buffers ───────────────────────────────────────

  datatype Call =
    | RegisterCall(local: Local, bufs: seq<A.Erased>, armed: bool)
    | CancelCall(slot: nat, id: nat, local: Local, submitted: bool)

  function CommandOf(c: Call): Command {
    match c
    case RegisterCall(local, _, armed) => Register(local, armed)
    case CancelCall(slot, id, local, submitted) => Cancel(slot, id, local, submitted)
  }

  function Commands(cs: seq<Call>): seq<Command> {
    if cs == [] then [] else Commands(cs[..|cs| - 1]) + [CommandOf(cs[|cs| - 1])]
  }

  /** What one call registers with the arena: the op's id and its buffers. */
  function Reg(s: State, c: Call): seq<A.Registration> {
    if c.RegisterCall? then [A.Registration(s.nextId, c.bufs, c.armed)] else []
  }

  function Regs(s: State, cs: seq<Call>): seq<A.Registration> {
    if cs == [] then []
    else Regs(s, cs[..|cs| - 1]) + Reg(PerformAll(s, Commands(cs[..|cs| - 1])), cs[|cs| - 1])
  }

  /** For the specification: the buffers each armed op was registered with, none included. */
  type Handed = map<nat, seq<A.Erased>>

  function Hand(h: Handed, rs: seq<A.Registration>): Handed {
    if rs == [] then h
    else
      var before, r := Hand(h, rs[..|rs| - 1]), rs[|rs| - 1];
      if r.armed then before[r.id := r.bufs] else before
  }

  datatype Joint = Joint(rt: State, t: A.Table, handed: Handed)

  function AfterCalls(j: Joint, cs: seq<Call>): Joint {
    var rs := Regs(j.rt, cs);
    Joint(PerformAll(j.rt, Commands(cs)), A.DoRegisterAll(j.t, rs), Hand(j.handed, rs))
  }

  lemma CommandsSnoc(cs: seq<Call>)
    requires cs != []
    ensures Commands(cs) != [] && Commands(cs)[..|Commands(cs)| - 1] == Commands(cs[..|cs| - 1])
    ensures Commands(cs)[|Commands(cs)| - 1] == CommandOf(cs[|cs| - 1])
  {
  }

  /** Calls take effect one after the other. */
  lemma CallsStep(j: Joint, cs: seq<Call>)
    requires cs != []
    ensures var k := AfterCalls(j, cs[..|cs| - 1]);
      var c := cs[|cs| - 1];
      && AfterCalls(j, cs).rt == Perform(k.rt, CommandOf(c))
      && AfterCalls(j, cs).t ==
         (if c.RegisterCall? then A.DoRegister(k.t, A.Registration(k.rt.nextId, c.bufs, c.armed)) else k.t)
      && AfterCalls(j, cs).handed == (if c.RegisterCall? && c.armed then k.handed[k.rt.nextId := c.bufs] else k.handed)
  {
    hide Perform, A.DoRegister;
    CommandsSnoc(cs);
    var n := |cs| - 1;
    var rs, before := Regs(j.rt, cs), Regs(j.rt, cs[..n]);
    if cs[n].RegisterCall? {
      assert rs[..|rs| - 1] == before;
    } else {
      assert rs == before;
    }
  }

  // ── The invariant ──────────────────────────────────────────────────

  /** The arena has a run for the op exactly when it was registered with buffers, and knows those buffers. */
  ghost predicate Backed(j: Joint, id: nat) {
    && id in j.handed
    && (if j.handed[id] == [] then id !in j.t.runs
        else id in j.t.runs && id in j.t.given && j.t.given[id] == j.handed[id])
  }

  /** Every live op is backed, and every run is a live op's. */
  ghost predicate Matched(j: Joint) {
    && (forall id :: OwnedByOp(j.rt, id) ==> Backed(j, id))
    && (forall id :: id in j.t.runs ==> OwnedByOp(j.rt, id))
  }

  ghost predicate JointInv(j: Joint, t: int) {
    Inv(j.rt, t) && AP.Sound(j.t) && Matched(j)
  }

  /** Room in the arena: all that a registration needs besides what the runtime needs. */
  predicate Room(a: A.Arena, c: Call) {
    c.RegisterCall? && c.bufs != [] ==> A.CanAlloc(a, |c.bufs|)
  }

  predicate RoomAll(j: Joint, cs: seq<Call>) {
    cs == [] || (RoomAll(j, cs[..|cs| - 1]) && Room(AfterCalls(j, cs[..|cs| - 1]).t.arena, cs[|cs| - 1]))
  }

  lemma OwnedIsIssued(s: State, id: nat)
    requires FreshIds(s) && OwnedByOp(s, id)
    ensures id < s.nextId
  {
  }

  /** Who is live after a registration. */
  lemma RegisterOwns(s: State, local: Local, armed: bool)
    requires s.ops.Valid() && FreshIds(s)
    ensures var s' := DoRegister(s, local, armed);
      && s'.nextId == s.nextId + 1
      && forall x :: OwnedByOp(s', x) <==> OwnedByOp(s, x) || (x == s.nextId && armed)
  {
    RegisterSlab(s, local, armed);
    var s' := DoRegister(s, local, armed);
    forall x | OwnedByOp(s, x)
      ensures OwnedByOp(s', x)
    {
      var i :| s.ops.Live(i) && s.ops.At(i).id == x;
      assert s'.ops.Live(i) && s'.ops.At(i).id == x;
    }
  }

  lemma CancelOwns(s: State, slot: nat, id: nat, local: Local, submitted: bool)
    requires s.ops.Valid() && s.cancels.Valid()
    ensures var s' := DoCancel(s, slot, id, local, submitted);
      s.nextId <= s'.nextId && forall x :: OwnedByOp(s', x) <==> OwnedByOp(s, x)
  {
    var s' := DoCancel(s, slot, id, local, submitted);
    if Cancellable(s, slot, id) {
      CancelSlab(s, slot, id, local, submitted);
      forall x | OwnedByOp(s, x)
        ensures OwnedByOp(s', x)
      {
        var i :| s.ops.Live(i) && s.ops.At(i).id == x;
        assert s'.ops.Live(i) && s'.ops.At(i).id == x;
      }
    }
  }
  /** One more call keeps ops and runs matched. */
  lemma CallKeeps(j: Joint, t: int, c: Call, after: Joint)
    requires JointInv(j, t) && InTransit(j.rt, t) && CanPerform(j.rt, CommandOf(c)) && Room(j.t.arena, c)
    requires after.rt == Perform(j.rt, CommandOf(c))
    requires after.t ==
      if c.RegisterCall? then A.DoRegister(j.t, A.Registration(j.rt.nextId, c.bufs, c.armed)) else j.t
    requires after.handed == if c.RegisterCall? && c.armed then j.handed[j.rt.nextId := c.bufs] else j.handed
    ensures JointInv(after, t) && InTransit(after.rt, t) && (t != -1 ==> after.rt.ops.At(t) == j.rt.ops.At(t))
    ensures c.RegisterCall? ==> A.CanRegister(j.t, A.Registration(j.rt.nextId, c.bufs, c.armed))
  {
    PerformKeeps(j.rt, t, CommandOf(c));
    hide Linked, Ledger, AP.Sound, A.DoRegister, Matched, OwnedByOp, A.CanAlloc;
    if c.RegisterCall? {
      RegisterCallMatched(j, c, after);
    } else {
      CancelMatched(j, c, after);
    }
  }

  lemma CancelMatched(j: Joint, c: Call, after: Joint)
    requires c.CancelCall? && j.rt.ops.Valid() && j.rt.cancels.Valid() && Matched(j)
    requires after.rt == Perform(j.rt, CommandOf(c)) && after.t == j.t && after.handed == j.handed
    ensures Matched(after)
  {
    hide OwnedByOp;
    CancelOwns(j.rt, c.slot, c.id, c.local, c.submitted);
  }

  lemma RegisterCallMatched(j: Joint, c: Call, after: Joint)
    requires c.RegisterCall? && j.rt.ops.Valid() && FreshIds(j.rt) && AP.Sound(j.t) && Matched(j) && Room(j.t.arena, c)
    requires after.rt == DoRegister(j.rt, c.local, c.armed)
    requires after.t == A.DoRegister(j.t, A.Registration(j.rt.nextId, c.bufs, c.armed))
    requires after.handed == if c.armed then j.handed[j.rt.nextId := c.bufs] else j.handed
    ensures AP.Sound(after.t) && Matched(after) && A.CanRegister(j.t, A.Registration(j.rt.nextId, c.bufs, c.armed))
  {
    RegisterOwns(j.rt, c.local, c.armed);
    FreshForArena(j);
    hide AP.Sound, A.DoRegister, Matched, OwnedByOp, A.CanAlloc, DoRegister, FreshIds, Slab.Valid;
    RegisterMatched(j, A.Registration(j.rt.nextId, c.bufs, c.armed), after);
  }

  lemma FreshForArena(j: Joint)
    requires FreshIds(j.rt) && Matched(j)
    ensures j.rt.nextId !in j.t.runs && !OwnedByOp(j.rt, j.rt.nextId)
  {
    if j.rt.nextId in j.t.runs {
      OwnedIsIssued(j.rt, j.rt.nextId);
    }
  }

  /** The arena's part of a registration: other ops keep their runs and buffers, and the new one gets its own. */
  lemma RegisterBacks(j: Joint, reg: A.Registration, after: Joint, x: nat)
    requires AP.Sound(j.t) && A.CanRegister(j.t, reg) && after.t == A.DoRegister(j.t, reg)
    requires after.handed == if reg.armed then j.handed[reg.id := reg.bufs] else j.handed
    ensures AP.Sound(after.t)
    ensures x != reg.id && Backed(j, x) ==> Backed(after, x)
    ensures reg.armed ==> Backed(after, reg.id)
    ensures x in after.t.runs ==> x in j.t.runs || (x == reg.id && reg.armed)
  {
    hide AP.Sound, A.DoRegister, A.CanAlloc;
    assert reg.id !in j.t.runs;
    hide A.CanRegister;
    AP.RegisterSound(j.t, reg);
    GivenAfter(j.t, reg);
    var more: set<nat> := if reg.bufs != [] && reg.armed then {reg.id} else {};
    assert after.t.runs.Keys == j.t.runs.Keys + more;
    assert x in after.t.runs <==> x in j.t.runs || x in more;
    assert reg.id in after.t.runs <==> reg.id in more;
  }

  lemma RegisterMatched(j: Joint, reg: A.Registration, after: Joint)
    requires AP.Sound(j.t) && Matched(j) && A.CanRegister(j.t, reg) && after.t == A.DoRegister(j.t, reg)
    requires after.handed == if reg.armed then j.handed[reg.id := reg.bufs] else j.handed
    requires forall x :: OwnedByOp(after.rt, x) <==> OwnedByOp(j.rt, x) || (x == reg.id && reg.armed)
    requires !OwnedByOp(j.rt, reg.id)
    ensures AP.Sound(after.t) && Matched(after)
  {
    hide AP.Sound, A.DoRegister, OwnedByOp, A.CanRegister, Backed;
    forall x: nat
      ensures AP.Sound(after.t) && (OwnedByOp(after.rt, x) ==> Backed(after, x))
      ensures x in after.t.runs ==> OwnedByOp(after.rt, x)
    {
      RegisterBacks(j, reg, after, x);
    }
  }

  lemma GivenAfter(t: A.Table, reg: A.Registration)
    requires AP.Sound(t) && A.CanRegister(t, reg)
    ensures reg.armed && reg.bufs != [] ==>
      reg.id in A.DoRegister(t, reg).given && A.DoRegister(t, reg).given[reg.id] == reg.bufs
  {
    AP.SoundFits(t, reg);
    hide AP.Sound, A.CanAlloc, A.Alloc;
  }

  lemma {:induction false} CallsKeep(j: Joint, t: int, cs: seq<Call>)
    requires JointInv(j, t) && InTransit(j.rt, t) && CanPerformAll(j.rt, Commands(cs)) && RoomAll(j, cs)
    ensures var after := AfterCalls(j, cs);
      JointInv(after, t) && InTransit(after.rt, t) && (t != -1 ==> after.rt.ops.At(t) == j.rt.ops.At(t))
    ensures A.CanRegisterAll(j.t, Regs(j.rt, cs))
  {
    hide JointInv, AfterCalls, A.DoRegister, A.CanRegister, CanPerform, Room;
    if cs == [] {
      NoCalls(j);
    } else {
      var n := |cs| - 1;
      CommandsSnoc(cs);
      CallsKeep(j, t, cs[..n]);
      CallsStep(j, cs);
      AfterCallsRt(j, cs[..n]);
      CallKeeps(AfterCalls(j, cs[..n]), t, cs[n], AfterCalls(j, cs));
      RegsSnoc(j.rt, cs);
    }
  }

  lemma NoCalls(j: Joint)
    ensures AfterCalls(j, []) == j
  {
  }

  lemma AfterCallsRt(j: Joint, cs: seq<Call>)
    ensures AfterCalls(j, cs).rt == PerformAll(j.rt, Commands(cs))
    ensures AfterCalls(j, cs).t == A.DoRegisterAll(j.t, Regs(j.rt, cs))
  {
  }

  lemma RegsSnoc(s: State, cs: seq<Call>)
    requires cs != []
    ensures var n := |cs| - 1;
      var rs, before := Regs(s, cs), Regs(s, cs[..n]);
      if cs[n].RegisterCall? then
        rs != [] && rs[..|rs| - 1] == before
        && rs[|rs| - 1] == A.Registration(PerformAll(s, Commands(cs[..n])).nextId, cs[n].bufs, cs[n].armed)
      else rs == before
  {
  }
  // ── Completions ────────────────────────────────────────────────────

  datatype Answer = Answer(onCancel: seq<Call>, left: Local, onOp: seq<Call>)

  function ReactionOf(r: Answer): Reaction {
    Reaction(Commands(r.onCancel), r.left, Commands(r.onOp))
  }

  /** The state in which the op's callback is about to run, and the calls of the cancel's callback, if it runs. */
  function BeforeShim(s: State, c: Completion, r: Answer): State {
    AfterDeliver(s, c, ReactionOf(r))
  }

  function CancelCalls(s: State, c: Completion, r: Answer): seq<Call> {
    if CallsCancel(s, c) then r.onCancel else []
  }

  function DispatchOf(s: State, c: Completion, r: Answer): A.Dispatch
    requires s.ops.Live(c.slot)
  {
    A.Dispatch(s.ops.At(c.slot).id, Regs(Settle(s, c.slot, Wins(s, c), r.left), CancelCalls(s, c, r)),
               Regs(BeforeShim(s, c, r), r.onOp))
  }

  /** Runtime and arena when the cancel's callback has returned, and when the op's shim starts. */
  function Settled(j: Joint, c: Completion, r: Answer): Joint {
    AfterCalls(j.(rt := Settle(j.rt, c.slot, Wins(j.rt, c), r.left)), CancelCalls(j.rt, c, r))
  }

  function AtShim(j: Joint, c: Completion, r: Answer): Joint {
    var k := Settled(j, c, r);
    Joint(BeforeShim(j.rt, c, r), k.t.(arena := A.EMPTY_ARENA), k.handed)
  }

  datatype Move =
    | Outside(call: Call)
    | OpDone(completion: Completion, answer: Answer)
    | CancelDone(slot: nat, result: int)

  function Next(j: Joint, m: Move): Joint {
    match m
    case Outside(c) => AfterCalls(j, [c])
    case OpDone(c, r) =>
      if !j.rt.ops.Live(c.slot) then j
      else
        var d := DispatchOf(j.rt, c, r);
        Joint(CompleteOp(j.rt, c, ReactionOf(r)), A.DoDispatch(j.t, d), Hand(Hand(j.handed, d.onCancel), d.onOp))
    case CancelDone(slot, result) => j.(rt := CompleteCancel(j.rt, slot, result))
  }

  /** The runtime's own conditions, room in the arena, and no shim that arms a buffered op. */
  predicate CanMove(j: Joint, m: Move) {
    match m
    case Outside(c) => CanPerform(j.rt, CommandOf(c)) && Room(j.t.arena, c)
    case OpDone(c, r) =>
      && !c.cancel && CanTake(j.rt, c, ReactionOf(r))
      && RoomAll(j.(rt := Settle(j.rt, c.slot, Wins(j.rt, c), r.left)), CancelCalls(j.rt, c, r))
      && RoomAll(AtShim(j, c, r), r.onOp) && A.Buffered(DispatchOf(j.rt, c, r).onOp) == {}
    case CancelDone(slot, _) => slot < |j.rt.cancels.slots|
  }

  /** Completions are bounded by the runtime's assertions only. */
  lemma CompletionsArePossible(j: Joint, c: Completion, left: Local, slot: nat, result: int)
    ensures !c.cancel ==> (CanMove(j, OpDone(c, Answer([], left, []))) <==> j.rt.ops.Live(c.slot))
    ensures CanMove(j, CancelDone(slot, result)) <==> slot < |j.rt.cancels.slots|
  {
    assert Commands([]) == [];
  }

  /** What a shim that arms no buffered op does to the set of live ops and to what they were handed. */
  ghost predicate ShimEffect(s: State, h: Handed, s': State, h': Handed) {
    && s.nextId <= s'.nextId
    && (forall x :: OwnedByOp(s, x) ==> OwnedByOp(s', x))
    && (forall x :: OwnedByOp(s', x) && !OwnedByOp(s, x) ==> s.nextId <= x && x in h' && h'[x] == [])
    && (forall x :: x in h && x < s.nextId ==> x in h' && h'[x] == h[x])
  }

  lemma ShimEffectGrows(s: State, h: Handed, k: State, hk: Handed, c: Call, s': State, h': Handed)
    requires ShimEffect(s, h, k, hk) && FreshIds(k) && k.nextId <= s'.nextId
    requires c.RegisterCall? && c.armed ==> c.bufs == []
    requires forall x :: OwnedByOp(k, x) ==> OwnedByOp(s', x)
    requires forall x :: OwnedByOp(s', x) && !OwnedByOp(k, x) ==> c.RegisterCall? && c.armed && x == k.nextId
    requires h' == if c.RegisterCall? && c.armed then hk[k.nextId := c.bufs] else hk
    ensures ShimEffect(s, h, s', h')
  {
    forall x: nat | OwnedByOp(k, x)
      ensures x < k.nextId
    {
      OwnedIsIssued(k, x);
    }
    hide OwnedByOp, FreshIds;
  }

  lemma {:induction false} ShimCalls(s: State, h: Handed, cs: seq<Call>)
    requires Inv(s, -1) && CanPerformAll(s, Commands(cs)) && A.Buffered(Regs(s, cs)) == {}
    ensures Inv(PerformAll(s, Commands(cs)), -1)
    ensures ShimEffect(s, h, PerformAll(s, Commands(cs)), Hand(h, Regs(s, cs)))
  {
    hide Inv, Regs, A.Buffered, CanPerform, Perform, Commands, ShimEffect;
    if cs == [] {
      NoShimCalls(s, h);
    } else {
      var n := |cs| - 1;
      CommandsSnoc(cs);
      RegsSnoc(s, cs);
      BufferedGrows(s, cs);
      ShimCalls(s, h, cs[..n]);
      var k := PerformAll(s, Commands(cs[..n]));
      ShimCall(k, cs[n]);
      ShimEffectGrows(s, h, k, Hand(h, Regs(s, cs[..n])), cs[n], Perform(k, CommandOf(cs[n])), Hand(h, Regs(s, cs)));
    }
  }

  lemma NoShimCalls(s: State, h: Handed)
    ensures Commands([]) == [] && Regs(s, []) == [] && ShimEffect(s, h, s, Hand(h, []))
  {
  }

  lemma ShimCall(s: State, c: Call)
    requires Inv(s, -1) && CanPerform(s, CommandOf(c))
    ensures var s' := Perform(s, CommandOf(c));
      && Inv(s', -1) && FreshIds(s) && s.nextId <= s'.nextId && (forall x :: OwnedByOp(s, x) ==> OwnedByOp(s', x))
      && (forall x :: OwnedByOp(s', x) && !OwnedByOp(s, x) ==> c.RegisterCall? && c.armed && x == s.nextId)
  {
    PerformKeeps(s, -1, CommandOf(c));
    hide Linked, Ledger, OwnedByOp;
    match c
    case RegisterCall(local, bufs, armed) => RegisterOwns(s, local, armed);
    case CancelCall(slot, id, local, submitted) => CancelOwns(s, slot, id, local, submitted);
  }

  lemma BufferedGrows(s: State, cs: seq<Call>)
    requires cs != [] && A.Buffered(Regs(s, cs)) == {}
    ensures A.Buffered(Regs(s, cs[..|cs| - 1])) == {}
    ensures cs[|cs| - 1].RegisterCall? && cs[|cs| - 1].armed ==> cs[|cs| - 1].bufs == []
  {
    RegsSnoc(s, cs);
    var rs, c := Regs(s, cs), cs[|cs| - 1];
    hide Regs;
    if c.RegisterCall? {
      AP.BufferedSnoc(rs);
    }
  }
  /** Registrations carry fresh ids, so the arena accepts whatever a shim registers if it has room. */
  lemma {:induction false} ShimCanRegister(j: Joint, cs: seq<Call>)
    requires forall id :: id in j.t.runs ==> id < j.rt.nextId
    requires RoomAll(j, cs)
    ensures A.CanRegisterAll(j.t, Regs(j.rt, cs))
    ensures forall id :: id in AfterCalls(j, cs).t.runs ==> id < AfterCalls(j, cs).rt.nextId
    ensures forall reg :: reg in Regs(j.rt, cs) ==> j.rt.nextId <= reg.id
    ensures j.rt.nextId <= AfterCalls(j, cs).rt.nextId
  {
    hide AfterCalls, A.CanAlloc, A.DoRegister, Perform;
    if cs == [] {
      NoCalls(j);
    } else {
      var n := |cs| - 1;
      ShimCanRegister(j, cs[..n]);
      CallsStep(j, cs);
      AfterCallsRt(j, cs[..n]);
      RegsSnoc(j.rt, cs);
      NextIdGrows(AfterCalls(j, cs[..n]).rt, CommandOf(cs[n]));
      if cs[n].RegisterCall? {
        var k, reg := AfterCalls(j, cs[..n]), A.Registration(AfterCalls(j, cs[..n]).rt.nextId, cs[n].bufs, cs[n].armed);
        RegisterRuns(k.t, reg);
        hide Regs;
        var rs := Regs(j.rt, cs);
        assert rs == rs[..|rs| - 1] + [reg];
      }
    }
  }

  lemma NextIdGrows(s: State, c: Command)
    ensures s.nextId <= Perform(s, c).nextId && (c.Register? ==> Perform(s, c).nextId == s.nextId + 1)
  {
  }

  lemma RegisterRuns(t: A.Table, reg: A.Registration)
    ensures forall id :: id in A.DoRegister(t, reg).runs ==> id in t.runs || id == reg.id
  {
  }

  /** Freeing a completed op's slot takes that op, and no other, from the live ones. */
  lemma DeliverOwns(s: State, i: nat, local: Local, outcome: Outcome)
    requires FreshIds(s) && s.ops.Live(i)
    ensures var s' := Deliver(s, i, local, outcome);
      s'.nextId == s.nextId && forall x :: OwnedByOp(s', x) <==> OwnedByOp(s, x) && x != s.ops.At(i).id
  {
    var s' := Deliver(s, i, local, outcome);
    forall x | OwnedByOp(s, x) && x != s.ops.At(i).id
      ensures OwnedByOp(s', x)
    {
      var k :| s.ops.Live(k) && s.ops.At(k).id == x;
      assert s'.ops.Live(k) && s'.ops.At(k).id == x;
    }
    forall x | OwnedByOp(s', x)
      ensures OwnedByOp(s, x) && x != s.ops.At(i).id
    {
      var k :| s'.ops.Live(k) && s'.ops.At(k).id == x;
      assert s.ops.Live(k) && s.ops.At(k).id == x && k != i;
    }
  }

  /** Where the cancel's callback has returned. */
  lemma SettledKeeps(j: Joint, c: Completion, r: Answer)
    requires JointInv(j, -1) && CanMove(j, OpDone(c, r))
    ensures var k := Settled(j, c, r);
      && JointInv(k, c.slot) && k.rt == AfterCancel(j.rt, c, ReactionOf(r))
      && k.rt.ops.Live(c.slot) && k.rt.ops.At(c.slot) == j.rt.ops.At(c.slot)
    ensures A.CanRegisterAll(j.t, DispatchOf(j.rt, c, r).onCancel)
    ensures Settled(j, c, r).t == A.DoRegisterAll(j.t, DispatchOf(j.rt, c, r).onCancel)
    ensures Settled(j, c, r).handed == Hand(j.handed, DispatchOf(j.rt, c, r).onCancel)
  {
    var s1 := Settle(j.rt, c.slot, Wins(j.rt, c), r.left);
    SettleKeeps(j.rt, c.slot, Wins(j.rt, c), r.left);
    var j1 := j.(rt := s1);
    SameOps(j, j1);
    hide Inv, AP.Sound, Matched;
    if CallsCancel(j.rt, c) {
      CallsKeep(j1, c.slot, r.onCancel);
    } else {
      NoCalls(j1);
    }
  }

  lemma SameOps(j: Joint, k: Joint)
    requires Matched(j) && k.rt.ops == j.rt.ops && k.t == j.t && k.handed == j.handed
    ensures Matched(k)
  {
    assert forall x :: OwnedByOp(k.rt, x) == OwnedByOp(j.rt, x);
  }
  /** Where the op's shim starts: its op is no longer live, but its run is still in the arena set aside. */
  lemma AtShimOwns(j: Joint, c: Completion, r: Answer)
    requires JointInv(j, -1) && CanMove(j, OpDone(c, r))
    ensures var s, k := BeforeShim(j.rt, c, r), Settled(j, c, r);
      && Inv(s, -1) && s.nextId == k.rt.nextId
      && (forall x :: OwnedByOp(s, x) <==> OwnedByOp(k.rt, x) && x != j.rt.ops.At(c.slot).id)
      && (forall id :: id in k.t.runs ==> id < s.nextId)
    ensures j.rt.ops.At(c.slot).id < Settle(j.rt, c.slot, Wins(j.rt, c), r.left).nextId
  {
    SettledKeeps(j, c, r);
    CompleteOpKeeps(j.rt, c, ReactionOf(r));
    SettleKeeps(j.rt, c.slot, Wins(j.rt, c), r.left);
    var k := Settled(j, c, r);
    forall id | id in k.t.runs
      ensures id < k.rt.nextId
    {
      OwnedIsIssued(k.rt, id);
    }
    hide Linked, Ledger, AP.Sound, Settled, AfterCancel;
    DeliverOwns(k.rt, c.slot, if CallsCancel(j.rt, c) then r.left else j.rt.ops.At(c.slot).local, OutcomeOf(j.rt, c));
  }

  lemma DispatchFits(j: Joint, c: Completion, r: Answer)
    requires JointInv(j, -1) && CanMove(j, OpDone(c, r))
    ensures A.CanDispatch(j.t, DispatchOf(j.rt, c, r))
  {
    assert j.rt.ops.Live(c.slot);
    hide Inv, AP.Sound, Matched, Settled, A.CanRegisterAll, BeforeShim, Settle, CanTake, RoomAll, A.Buffered, OwnedByOp;
    hide A.DoRegisterAll, Regs, PerformAll, Commands, CancelCalls, Wins;
    var d, s1 := DispatchOf(j.rt, c, r), Settle(j.rt, c.slot, Wins(j.rt, c), r.left);
    SettledKeeps(j, c, r);
    AtShimOwns(j, c, r);
    RegsAreFresh(s1, CancelCalls(j.rt, c, r));
    ShimCanRegister(AtShim(j, c, r), r.onOp);
    SettledIsLater(j, c, r);
  }

  lemma SettledIsLater(j: Joint, c: Completion, r: Answer)
    ensures Settle(j.rt, c.slot, Wins(j.rt, c), r.left).nextId <= Settled(j, c, r).rt.nextId
  {
    hide Settle, PerformAll;
    RegsAreFresh(Settle(j.rt, c.slot, Wins(j.rt, c), r.left), CancelCalls(j.rt, c, r));
  }

  lemma {:induction false} RegsAreFresh(s: State, cs: seq<Call>)
    ensures s.nextId <= PerformAll(s, Commands(cs)).nextId
    ensures forall reg :: reg in Regs(s, cs) ==> s.nextId <= reg.id
  {
    hide Perform;
    if cs != [] {
      RegsAreFresh(s, cs[..|cs| - 1]);
      CommandsSnoc(cs);
      NextIdGrows(PerformAll(s, Commands(cs[..|cs| - 1])), CommandOf(cs[|cs| - 1]));
    }
  }

  /** The arena after a dispatch: the completed op's run is gone, every other op's is where and what it was. */
  lemma DispatchLeaves(t: A.Table, d: A.Dispatch)
    requires AP.Sound(t) && A.CanDispatch(t, d) && A.Buffered(d.onOp) == {}
    ensures var t2, t' := A.DoRegisterAll(t, d.onCancel), A.DoDispatch(t, d);
      && AP.Sound(t')
      && (forall x :: x in t'.runs <==> x in t2.runs && x != d.id)
      && (forall x :: x in t2.given ==> x in t'.given && t'.given[x] == t2.given[x])
  {
    AP.CleanDispatch(t, d);
    AP.DispatchRuns(t, d);
    AP.RegisterAllSound(t, d.onCancel);
    var t2 := A.DoRegisterAll(t, d.onCancel);
    if d.id in t2.runs {
      AP.RunContents(t2, d.id);
    }
    hide AP.Sound, A.DoDispatch, A.CanDispatch, A.Release, A.Buffered;
  }

  lemma OpDoneKeeps(j: Joint, c: Completion, r: Answer)
    requires JointInv(j, -1) && CanMove(j, OpDone(c, r))
    ensures JointInv(Next(j, OpDone(c, r)), -1)
  {
    var d, k, s := DispatchOf(j.rt, c, r), Settled(j, c, r), BeforeShim(j.rt, c, r);
    var next := Next(j, OpDone(c, r));
    SettledKeeps(j, c, r);
    AtShimOwns(j, c, r);
    DispatchFits(j, c, r);
    DispatchLeaves(j.t, d);
    ShimCalls(s, k.handed, r.onOp);
    assert next.rt == PerformAll(s, Commands(r.onOp)) && next.handed == Hand(k.handed, d.onOp);
    hide Inv, AP.Sound, Settled, BeforeShim, A.DoDispatch, Settle, CompleteOp, CanTake, OwnedByOp, Hand;
    ShimMatched(k, s, d.id, next);
  }

  lemma ShimMatched(k: Joint, s: State, id: nat, next: Joint)
    requires Matched(k) && ShimEffect(s, k.handed, next.rt, next.handed)
    requires forall x :: OwnedByOp(s, x) <==> OwnedByOp(k.rt, x) && x != id
    requires forall x :: x in k.t.runs ==> x < s.nextId
    requires forall x: nat :: OwnedByOp(s, x) ==> x < s.nextId
    requires forall x :: x in next.t.runs <==> x in k.t.runs && x != id
    requires forall x :: x in k.t.given ==> x in next.t.given && next.t.given[x] == k.t.given[x]
    ensures Matched(next)
  {
    hide OwnedByOp;
  }
  // ── Over whole runs ────────────────────────────────────────────────

  lemma MoveKeeps(j: Joint, m: Move)
    requires JointInv(j, -1) && CanMove(j, m)
    ensures JointInv(Next(j, m), -1)
  {
    hide Inv, AP.Sound, OwnedByOp, AfterCalls;
    match m
    case Outside(c) =>
      OneCall(j, c);
      CallsKeep(j, -1, [c]);
    case OpDone(c, r) => OpDoneKeeps(j, c, r);
    case CancelDone(slot, result) =>
      CompleteCancelKeeps(j.rt, slot, result);
      LossOwns(j.rt, slot, result);
  }

  lemma OneCall(j: Joint, c: Call)
    requires CanPerform(j.rt, CommandOf(c)) && Room(j.t.arena, c)
    ensures CanPerformAll(j.rt, Commands([c])) && RoomAll(j, [c])
  {
    assert [c][..0] == [];
    NoCalls(j);
    CommandsSnoc([c]);
  }

  lemma LossOwns(s: State, i: nat, result: int)
    ensures forall x :: OwnedByOp(CompleteCancel(s, i, result), x) <==> OwnedByOp(s, x)
  {
    var s' := CompleteCancel(s, i, result);
    assert forall i :: s'.ops.Live(i) == s.ops.Live(i) && (s.ops.Live(i) ==> s'.ops.At(i).id == s.ops.At(i).id);
    forall x | OwnedByOp(s, x)
      ensures OwnedByOp(s', x)
    {
      var k :| s.ops.Live(k) && s.ops.At(k).id == x;
      assert s'.ops.Live(k);
    }
  }

  function Moves(j: Joint, ms: seq<Move>): Joint {
    if ms == [] then j else Next(Moves(j, ms[..|ms| - 1]), ms[|ms| - 1])
  }

  predicate CanMoves(j: Joint, ms: seq<Move>) {
    ms == [] || (CanMoves(j, ms[..|ms| - 1]) && CanMove(Moves(j, ms[..|ms| - 1]), ms[|ms| - 1]))
  }

  /** A fresh runtime with an empty arena. */
  function Fresh(first: nat): Joint {
    Joint(Init(first), AP.NO_TABLE, map[])
  }

  lemma {:induction false} MovesKeep(first: nat, ms: seq<Move>)
    requires 1 <= first <= MAX_OP_ID && CanMoves(Fresh(first), ms)
    ensures JointInv(Moves(Fresh(first), ms), -1)
  {
    if ms == [] {
      InitInv(first);
      AP.EmptySound();
    } else {
      hide JointInv, Next, CanMove, Fresh;
      MovesKeep(first, ms[..|ms| - 1]);
      MoveKeeps(Moves(Fresh(first), ms[..|ms| - 1]), ms[|ms| - 1]);
    }
  }

  /** In every run whose shims arm no buffered op, a run of the arena belongs to exactly one live op, and the slots
      that are free, or were freed, have none. */
  lemma RunsBelongToLiveOps(first: nat, ms: seq<Move>, id: nat)
    requires 1 <= first <= MAX_OP_ID && CanMoves(Fresh(first), ms)
    ensures var j := Moves(Fresh(first), ms);
      && (id in j.t.runs ==> exists i :: j.rt.ops.Live(i) && j.rt.ops.At(i).id == id)
      && (forall i, k :: j.rt.ops.Live(i) && j.rt.ops.Live(k) && j.rt.ops.At(i).id == j.rt.ops.At(k).id == id ==>
            i == k)
      && (OwnedByOp(j.rt, id) ==> id in j.handed && (id in j.t.runs <==> j.handed[id] != []))
  {
    hide Moves, CanMoves;
    MovesKeep(first, ms);
  }

  /** And the callback of an op is handed exactly the buffers the op was registered with, whatever happened in
      between: other registrations, cancels, completions, and the callback of its own cancel. */
  lemma CallbackGetsItsBuffers(first: nat, ms: seq<Move>, c: Completion, r: Answer)
    requires 1 <= first <= MAX_OP_ID && CanMoves(Fresh(first), ms) && CanMove(Moves(Fresh(first), ms), OpDone(c, r))
    ensures var j := Moves(Fresh(first), ms);
      var id := j.rt.ops.At(c.slot).id;
      id in j.handed && A.SliceFor(j.t, DispatchOf(j.rt, c, r)) == Some(j.handed[id])
  {
    hide Moves, CanMoves;
    MovesKeep(first, ms);
    var j := Moves(Fresh(first), ms);
    DispatchFits(j, c, r);
    AP.SliceIsGiven(j.t, DispatchOf(j.rt, c, r));
    hide Inv, AP.Sound, A.SliceFor, A.CanDispatch;
    assert OwnedByOp(j.rt, j.rt.ops.At(c.slot).id);
  }
}
