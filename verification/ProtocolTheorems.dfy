/** The cancel protocol's promises, stated for every run. */
module ProtocolTheorems {
  import opened Wrappers
  import opened Protocol
  import opened ProtocolProofs

  ghost predicate StepsTo(s: State, s': State) {
    exists x :: CanAdvance(s, x) && s' == Advance(s, x)
  }

  ghost predicate StepAt(t: seq<State>, k: nat) {
    k + 1 < |t| && StepsTo(t[k], t[k + 1])
  }

  /** The states of one run of a fresh runtime, one step apart. */
  ghost predicate Trace(t: seq<State>) {
    && t != [] && (exists first: nat :: 1 <= first <= MAX_OP_ID && t[0] == Init(first))
    && forall k: nat {:trigger StepAt(t, k)} :: k < |t| - 1 ==> StepAt(t, k)
  }

  /** `s` is the end of some run. */
  ghost predicate Reachable(s: State) {
    exists t :: Trace(t) && t[|t| - 1] == s
  }

  lemma {:induction false} TraceInv(t: seq<State>, k: nat)
    requires Trace(t) && k < |t|
    ensures Inv(t[k], -1)
  {
    hide Inv, Advance, CanAdvance;
    if k == 0 {
      var first: nat :| 1 <= first <= MAX_OP_ID && t[0] == Init(first);
      InitInv(first);
    } else {
      TraceInv(t, k - 1);
      assert StepAt(t, k - 1);
      var x :| CanAdvance(t[k - 1], x) && t[k] == Advance(t[k - 1], x);
      AdvanceKeeps(t[k - 1], x);
    }
  }

  lemma ReachableInv(s: State)
    requires Reachable(s)
    ensures Inv(s, -1)
  {
    hide Inv;
    var t :| Trace(t) && t[|t| - 1] == s;
    TraceInv(t, |t| - 1);
  }

  /** Runs compose. */
  lemma {:induction false} RunConcat(s: State, xs: seq<Step>, ys: seq<Step>)
    ensures Run(s, xs + ys) == Run(Run(s, xs), ys)
    ensures CanRun(s, xs + ys) <==> CanRun(s, xs) && CanRun(Run(s, xs), ys)
  {
    hide Advance, CanAdvance;
    if ys == [] {
      assert xs + ys == xs;
    } else {
      var n := |ys| - 1;
      RunConcat(s, xs, ys[..n]);
      assert (xs + ys)[..|xs| + n] == xs + ys[..n];
    }
  }

  lemma ReachableStep(s: State, x: Step)
    requires Reachable(s) && CanAdvance(s, x)
    ensures Reachable(Advance(s, x))
  {
    hide Advance, CanAdvance;
    var t :| Trace(t) && t[|t| - 1] == s;
    var t' := t + [Advance(s, x)];
    assert t'[0] == t[0];
    forall k: nat | k < |t'| - 1
      ensures StepAt(t', k)
    {
      if k < |t| - 1 {
        assert StepAt(t, k);
      }
    }
    assert Trace(t') && t'[|t'| - 1] == Advance(s, x);
  }

  /** While its cancel's callback runs, a completing op keeps its slot and its record. */
  lemma TransitKept(s: State, c: Completion, r: Reaction)
    requires Reachable(s) && !c.cancel && CanTake(s, c, r)
    ensures var s2 := AfterCancel(s, c, r); s2.ops.Live(c.slot) && s2.ops.At(c.slot) == s.ops.At(c.slot)
  {
    ReachableInv(s);
    CompleteOpKeeps(s, c, r);
  }

  // ── What a call does ───────────────────────────────────────────────

  /** `cancel`, wherever it is called.  A handle that carries the id of the op living in its slot, with no
      cancellation under way, is acted upon: one event with the fresh id, and if the backend took it the op is
      marked and a live cancel with that id and local names it, all else as before.  Every other handle changes
      nothing at all. */
  lemma CancelTakesEffect(s: State, t: int, slot: nat, id: nat, local: Local, submitted: bool)
    requires Inv(s, t) && InTransit(s, t) && s.nextId < 0x4000_0000_0000_0000
    requires s.cancels.free == [] ==> |s.cancels.slots| < 0xFFFF_FFFF
    ensures var s' := Perform(s, Cancel(slot, id, local, submitted));
      if s.ops.Live(slot) && s.ops.At(slot).id == id && !s.ops.At(slot).pending then
        && s'.log == s.log +
             [if submitted then CancelSubmitted(s.nextId, local, id) else CancelRefused(s.nextId, local)]
        && s'.nextId == s.nextId + 1
        && s'.ops.Live(slot) && s'.ops.At(slot) == s.ops.At(slot).(pending := submitted)
        && (forall i :: i != slot ==>
              s'.ops.Live(i) == s.ops.Live(i) && (s.ops.Live(i) ==> s'.ops.At(i) == s.ops.At(i)))
        && (forall c :: s.cancels.Live(c) ==> s'.cancels.Live(c) && s'.cancels.At(c) == s.cancels.At(c))
        && (submitted <==> exists c ::
              s'.cancels.Live(c) && !s.cancels.Live(c) && s'.cancels.At(c) == CancelRec(s.nextId, slot, id, local))
      else s' == s
  {
    if s.ops.Live(slot) && s.ops.At(slot).id == id && !s.ops.At(slot).pending {
      CancelSlab(s, slot, id, local, submitted);
      hide Linked, FreshIds, Ledger, Slab.Valid;
      assert submitted ==> DoCancel(s, slot, id, local, submitted).cancels.Live(s.cancels.Next());
    }
  }

  /** `register_op`, wherever it is called: one event with the fresh id; if the backend armed the request exactly
      one slot that was free now holds the op, unmarked, and all else is as before. */
  lemma RegisterTakesEffect(s: State, t: int, local: Local, armed: bool)
    requires Inv(s, t) && InTransit(s, t) && s.nextId < 0x4000_0000_0000_0000
    requires s.ops.free == [] ==> |s.ops.slots| < 0xFFFF_FFFF
    ensures var s' := Perform(s, Register(local, armed));
      && s'.log == s.log + [if armed then Armed(s.nextId, local) else ArmFailed(s.nextId, local)]
      && s'.nextId == s.nextId + 1 && s'.cancels == s.cancels
      && (forall i :: s.ops.Live(i) ==> s'.ops.Live(i) && s'.ops.At(i) == s.ops.At(i))
      && (forall i :: s'.ops.Live(i) && !s.ops.Live(i) ==> armed && s'.ops.At(i) == OpRec(s.nextId, false, local))
      && (armed <==> exists i :: s'.ops.Live(i) && !s.ops.Live(i))
  {
    RegisterSlab(s, local, armed);
    hide Linked, FreshIds, Ledger, Slab.Valid;
    assert armed ==> DoRegister(s, local, armed).ops.Live(s.ops.Next());
  }

  /** The runtime's own limits, and nothing else, stand in the way of a call. */
  lemma CanPerformIff(s: State, c: Command)
    ensures CanPerform(s, c) <==>
      match c
      case Register(_, _) =>
        s.nextId < 0x4000_0000_0000_0000 && (s.ops.free == [] ==> |s.ops.slots| < 0xFFFF_FFFF)
      case Cancel(slot, id, _, _) =>
        s.ops.Live(slot) && s.ops.At(slot).id == id && !s.ops.At(slot).pending ==>
          s.nextId < 0x4000_0000_0000_0000 && (s.cancels.free == [] ==> |s.cancels.slots| < 0xFFFF_FFFF)
  {
  }

  /** A completion is taken whenever the runtime's assertions on its slot hold: a cancel's slot is in the slab, an op's
      is live.  What the callbacks then call is bounded by the runtime's limits only. */
  lemma CanTakeIff(s: State, c: Completion, left: Local)
    ensures c.cancel ==> forall r :: CanTake(s, c, r) <==> c.slot < |s.cancels.slots|
    ensures !c.cancel ==> (CanTake(s, c, Reaction([], left, [])) <==> s.ops.Live(c.slot))
  {
  }

  /** A freed slot is the next one to be taken; with none free the slab grows by one. */
  lemma FreedIsNext<T>(slab: Slab<T>, i: nat)
    ensures slab.Live(i) ==> slab.Release(i).Next() == i
    ensures slab.free == [] ==> slab.Next() == |slab.slots|
  {
  }

  /** The one event a call leaves, read off the state it is made in; a rejected cancel leaves none. */
  function EventOf(s: State, c: Command): seq<Event> {
    match c
    case Register(local, armed) => [if armed then Armed(s.nextId, local) else ArmFailed(s.nextId, local)]
    case Cancel(slot, id, local, submitted) =>
      if !s.ops.Live(slot) || s.ops.At(slot).id != id || s.ops.At(slot).pending then []
      else [if submitted then CancelSubmitted(s.nextId, local, id) else CancelRefused(s.nextId, local)]
  }

  /** The events of a callback's calls, each made in the state the earlier ones left. */
  function EventsOf(s: State, cs: seq<Command>): seq<Event> {
    if cs == [] then [] else EventsOf(s, cs[..|cs| - 1]) + EventOf(PerformAll(s, cs[..|cs| - 1]), cs[|cs| - 1])
  }

  lemma {:induction false} CallsLeaveEvents(s: State, cs: seq<Command>)
    ensures PerformAll(s, cs).log == s.log + EventsOf(s, cs) && Quiet(EventsOf(s, cs))
  {
    if cs != [] {
      var n := |cs| - 1;
      CallsLeaveEvents(s, cs[..n]);
      var k := PerformAll(s, cs[..n]);
      assert Perform(k, cs[n]).log == k.log + EventOf(k, cs[n]);
    } else {
      assert s.log + [] == s.log;
    }
  }

  // ── Linkage ────────────────────────────────────────────────────────

  /** In every reachable state an op is marked pending exactly when a live cancel names it by slot and id;
      that cancel is unique, and no live cancel names anything else. */
  lemma CancelLinkage(s: State)
    requires Reachable(s)
    ensures forall i :: s.ops.Live(i) ==>
              (s.ops.At(i).pending <==> exists c :: s.cancels.Live(c) && Names(s.cancels.At(c), i, s.ops.At(i).id))
    ensures forall c, d ::
      s.cancels.Live(c) && s.cancels.Live(d) && s.cancels.At(c).target == s.cancels.At(d).target ==> c == d
    ensures forall c :: s.cancels.Live(c) ==>
              var x := s.cancels.At(c);
              s.ops.Live(x.target) && s.ops.At(x.target).id == x.targetId && s.ops.At(x.target).pending
  {
    ReachableInv(s);
    forall i | s.ops.Live(i) && s.ops.At(i).pending
      ensures exists c :: s.cancels.Live(c) && Names(s.cancels.At(c), i, s.ops.At(i).id)
    {
      CancelFound(s, i);
    }
  }

  // ── Linear locals ──────────────────────────────────────────────────

  lemma {:induction false} StoryHas(log: seq<Event>, k: nat)
    requires k < |log|
    ensures log[k] in Story(log, log[k].id)
  {
    var n := |log| - 1;
    if k < n {
      StoryHas(log[..n], k);
      assert log[..n][k] == log[k];
    }
  }

  /** Every id ever issued has its local in exactly one place: in one live op slot, in one live cancel slot,
      or already handed to its one callback or dropped once. */
  lemma LocalsAreLinear(s: State, id: nat)
    requires Reachable(s) && s.first <= id < s.nextId
    ensures var h := Story(s.log, id);
            || (OwnedByOp(s, id) && !OwnedByCancel(s, id) && |h| == 1 && h[0].Armed?)
            || (!OwnedByOp(s, id) && OwnedByCancel(s, id) && |h| == 1 && h[0].CancelSubmitted?)
            || (!OwnedByOp(s, id) && !OwnedByCancel(s, id) && Finished(h))
    ensures forall i, j :: s.ops.Live(i) && s.ops.Live(j) && s.ops.At(i).id == s.ops.At(j).id ==> i == j
    ensures forall c, d :: s.cancels.Live(c) && s.cancels.Live(d) && s.cancels.At(c).id == s.cancels.At(d).id ==> c == d
  {
    ReachableInv(s);
  }

  /** At every point where a callback or anyone else hands in a local, exactly one of these follows.  The handle is
      rejected and nothing refers to the local: not a slot, not an id, not an event.  The request is refused, and
      that is the whole story of a fresh id.  Or a live slot owns it under a fresh id. */
  lemma HandedInLocalIsPlaced(s: State, t: int, c: Command)
    requires Inv(s, t) && InTransit(s, t) && CanPerform(s, c)
    ensures var s', id := Perform(s, c), s.nextId;
      var h := Story(s'.log, id);
      if c.Cancel? && !Cancellable(s, c.slot, c.id) then s' == s
      else if if c.Register? then c.armed else c.submitted then
        && h == [if c.Register? then Armed(id, c.local) else CancelSubmitted(id, c.local, c.id)]
        && OwnedByOp(s', id) == c.Register? && OwnedByCancel(s', id) == c.Cancel?
      else
        && h == [if c.Register? then ArmFailed(id, c.local) else CancelRefused(id, c.local)]
        && !OwnedByOp(s', id) && !OwnedByCancel(s', id)
  {
    assert Story(s.log, s.nextId) == [];
    hide Linked, Ledger, Story, FreshIds, Slab.Valid, OwnedByOp, OwnedByCancel;
    if c.Register? {
      RegisteredLocal(s, c.local, c.armed);
    } else if Cancellable(s, c.slot, c.id) {
      CancelLocal(s, c.slot, c.id, c.local, c.submitted);
    }
  }

  lemma OpOwns(s: State, s': State, n: nat, id: nat)
    requires (forall i :: s.ops.Live(i) ==> s.ops.At(i).id < id) && SameBut(s.ops, s'.ops, n)
    requires s'.ops.Live(n) ==> s'.ops.At(n).id <= id
    ensures OwnedByOp(s', id) <==> s'.ops.Live(n) && s'.ops.At(n).id == id
  {
  }

  lemma CancelOwns(s: State, s': State, n: nat, id: nat)
    requires (forall c :: s.cancels.Live(c) ==> s.cancels.At(c).id < id) && SameBut(s.cancels, s'.cancels, n)
    requires s'.cancels.Live(n) ==> s'.cancels.At(n).id <= id
    ensures OwnedByCancel(s', id) <==> s'.cancels.Live(n) && s'.cancels.At(n).id == id
  {
  }

  lemma RegisteredLocal(s: State, local: Local, armed: bool)
    requires s.ops.Valid() && FreshIds(s) && Story(s.log, s.nextId) == []
    ensures var s', id := DoRegister(s, local, armed), s.nextId;
      && Story(s'.log, id) == [if armed then Armed(id, local) else ArmFailed(id, local)]
      && OwnedByOp(s', id) == armed && !OwnedByCancel(s', id)
  {
    RegisterSlab(s, local, armed);
    StorySnoc(s.log, if armed then Armed(s.nextId, local) else ArmFailed(s.nextId, local), s.nextId);
    hide Story, Slab.Valid, OwnedByOp, OwnedByCancel, Slab.Claim, Slab.Release, SameBut;
    var s' := DoRegister(s, local, armed);
    OpOwns(s, s', s.ops.Next(), s.nextId);
    SameIsSame(s.cancels, 0);
    CancelOwns(s, s', 0, s.nextId);
  }

  lemma SameIsSame<T>(a: Slab<T>, n: nat)
    ensures SameBut(a, a, n)
  {
  }

  lemma CancelLocal(s: State, slot: nat, id: nat, local: Local, submitted: bool)
    requires s.ops.Valid() && s.cancels.Valid() && FreshIds(s) && Cancellable(s, slot, id)
    requires Story(s.log, s.nextId) == []
    ensures var s', own := DoCancel(s, slot, id, local, submitted), s.nextId;
      && Story(s'.log, own) == [if submitted then CancelSubmitted(own, local, id) else CancelRefused(own, local)]
      && OwnedByCancel(s', own) == submitted && !OwnedByOp(s', own)
  {
    CancelSlab(s, slot, id, local, submitted);
    var e := if submitted then CancelSubmitted(s.nextId, local, id) else CancelRefused(s.nextId, local);
    StorySnoc(s.log, e, s.nextId);
    hide Story, Slab.Valid, OwnedByOp, OwnedByCancel, Slab.Claim, Slab.Release, Slab.Put, SameBut;
    var s' := DoCancel(s, slot, id, local, submitted);
    CancelOwns(s, s', s.cancels.Next(), s.nextId);
    OpOwns(s, s', slot, s.nextId);
  }

  /** Nothing in flight: the condition that ends the drive loop. */
  ghost predicate Quiescent(s: State) {
    forall i :: !s.ops.Live(i) && !s.cancels.Live(i)
  }

  /** When a run ends by quiescence, every op that was armed ran its callback exactly once, and every cancel
      that was submitted either ran its callback once or lost once; nothing is owned any more. */
  lemma QuiescenceDeliversAll(s: State, e: Event)
    requires Reachable(s) && Quiescent(s) && e in s.log
    ensures var h := Story(s.log, e.id);
            && Finished(h)
            && (e.Armed? ==> h[0] == e && h[1].OpRan?)
            && (e.CancelSubmitted? ==> h[0] == e && (h[1].CancelRan? || h[1].CancelLost?))
  {
    var k :| 0 <= k < |s.log| && s.log[k] == e;
    StoryHas(s.log, k);
    QuiescentStory(s, e);
    FinishedShape(Story(s.log, e.id), e);
  }

  lemma QuiescentStory(s: State, e: Event)
    requires Reachable(s) && Quiescent(s) && e in Story(s.log, e.id)
    ensures Finished(Story(s.log, e.id))
  {
    ReachableInv(s);
    assert Story(s.log, e.id) != [] && !OwnedByOp(s, e.id) && !OwnedByCancel(s, e.id);
  }

  lemma FinishedShape(h: seq<Event>, e: Event)
    requires Finished(h) && e in h
    ensures e.Armed? ==> h[0] == e && |h| == 2 && h[1].OpRan?
    ensures e.CancelSubmitted? ==> h[0] == e && |h| == 2 && (h[1].CancelRan? || h[1].CancelLost?)
  {
  }

  // ── Teardown ───────────────────────────────────────────────────────

  lemma {:induction false} StoryConcat(a: seq<Event>, b: seq<Event>, id: nat)
    ensures Story(a + b, id) == Story(a, id) + Story(b, id)
  {
    if b == [] {
      assert a + b == a;
    } else {
      var n := |b| - 1;
      StoryConcat(a, b[..n], id);
      assert a + b == (a + b[..n]) + [b[n]] && b == b[..n] + [b[n]];
      StorySnoc(a + b[..n], b[n], id);
      StorySnoc(b[..n], b[n], id);
    }
  }

  ghost predicate DistinctOwners(owners: seq<Option<Owner>>) {
    forall i, j :: 0 <= i < j < |owners| && owners[i].Some? && owners[j].Some? ==>
        owners[i].value.id != owners[j].value.id
  }

  ghost predicate Owns(owners: seq<Option<Owner>>, i: int, id: nat) {
    0 <= i < |owners| && owners[i].Some? && owners[i].value.id == id
  }

  lemma {:induction false} NoDropStory(owners: seq<Option<Owner>>, id: nat)
    requires forall i :: !Owns(owners, i, id)
    ensures Story(Drops(owners), id) == []
  {
    if owners != [] {
      var n := |owners| - 1;
      assert !Owns(owners, n, id);
      forall i ensures !Owns(owners[..n], i, id) {
        assert !Owns(owners, i, id);
      }
      NoDropStory(owners[..n], id);
      if owners[n].Some? {
        StorySnoc(Drops(owners[..n]), TornDown(owners[n].value.id, owners[n].value.local), id);
      } else {
        assert Drops(owners) == Drops(owners[..n]);
      }
    }
  }

  lemma {:induction false} OneDropStory(owners: seq<Option<Owner>>, i: nat, id: nat)
    requires DistinctOwners(owners) && Owns(owners, i, id)
    ensures Story(Drops(owners), id) == [TornDown(id, owners[i].value.local)]
  {
    hide Story;
    var n := |owners| - 1;
    var rest := owners[..n];
    if i == n {
      NoDropStory(rest, id);
    } else {
      OneDropStory(rest, i, id);
    }
    if owners[n].Some? {
      StorySnoc(Drops(rest), TornDown(owners[n].value.id, owners[n].value.local), id);
    } else {
      assert Drops(owners) == Drops(rest);
    }
  }

  lemma OwnersAreDistinct(s: State)
    requires FreshIds(s)
    ensures DistinctOwners(Owners(s))
  {
    var o, n := Owners(s), |s.ops.slots|;
    forall i, j | 0 <= i < j < |o| && o[i].Some? && o[j].Some?
      ensures o[i].value.id != o[j].value.id
    {
      assert if i < n then s.ops.Live(i) && o[i].value.id == s.ops.At(i).id
             else s.cancels.Live(i - n) && o[i].value.id == s.cancels.At(i - n).id;
      assert if j < n then s.ops.Live(j) && o[j].value.id == s.ops.At(j).id
             else s.cancels.Live(j - n) && o[j].value.id == s.cancels.At(j - n).id;
    }
  }

  /** Tearing down at any point: every id ever issued is then settled, and a local still owned by a slot is
      dropped exactly once, and is the local the slot was claimed with. */
  lemma TeardownSettlesAll(s: State, id: nat)
    requires Reachable(s) && s.first <= id < s.nextId
    ensures var h := Story(s.log + Drops(Owners(s)), id);
            || Finished(h)
            || (|h| == 2 && (h[0].Armed? || h[0].CancelSubmitted?) && h[1] == TornDown(id, h[0].local))
  {
    ReachableInv(s);
    hide Owners, Drops, Story, Linked, Slab.Valid;
    StoryConcat(s.log, Drops(Owners(s)), id);
    if OwnedByOp(s, id) {
      var i :| s.ops.Live(i) && s.ops.At(i).id == id;
      OpIsDropped(s, i);
    } else if OwnedByCancel(s, id) {
      var c :| s.cancels.Live(c) && s.cancels.At(c).id == id;
      CancelIsDropped(s, c);
    } else {
      OthersAreNot(s, id);
    }
  }

  lemma {:induction false} DropsConcat(a: seq<Option<Owner>>, b: seq<Option<Owner>>)
    ensures Drops(a + b) == Drops(a) + Drops(b)
  {
    if b == [] {
      assert a + b == a;
    } else {
      var n := |b| - 1;
      DropsConcat(a, b[..n]);
      assert (a + b)[..|a| + n] == a + b[..n];
    }
  }

  lemma DropAt(o: seq<Option<Owner>>, i: nat)
    requires i < |o| && o[i].Some?
    ensures |Drops(o[..i])| < |Drops(o)|
    ensures Drops(o)[|Drops(o[..i])|] == TornDown(o[i].value.id, o[i].value.local)
  {
    DropsConcat(o[..i + 1], o[i + 1..]);
    assert o[..i + 1] + o[i + 1..] == o && o[..i + 1][..i] == o[..i];
  }

  /** Op slots are torn down before cancel slots, and each slab from its first slot on. */
  lemma TeardownOrder(s: State, i: nat, j: nat) returns (p: nat, q: nat)
    requires i < j < |s.ops.slots| + |s.cancels.slots|
    requires if i < |s.ops.slots| then s.ops.Live(i) else s.cancels.Live(i - |s.ops.slots|)
    requires if j < |s.ops.slots| then s.ops.Live(j) else s.cancels.Live(j - |s.ops.slots|)
    ensures var drops, n := Drops(Owners(s)), |s.ops.slots|;
      && p < q < |drops|
      && drops[p] == (if i < n then TornDown(s.ops.At(i).id, s.ops.At(i).local)
                      else TornDown(s.cancels.At(i - n).id, s.cancels.At(i - n).local))
      && drops[q] == (if j < n then TornDown(s.ops.At(j).id, s.ops.At(j).local)
                      else TornDown(s.cancels.At(j - n).id, s.cancels.At(j - n).local))
  {
    hide Drops;
    var o := Owners(s);
    assert o[i].Some? && o[j].Some?;
    assert o[..j][..i] == o[..i];
    DropAt(o, i);
    DropAt(o, j);
    DropAt(o[..j], i);
    p, q := |Drops(o[..i])|, |Drops(o[..j])|;
  }

  lemma OpIsDropped(s: State, i: nat)
    requires FreshIds(s) && s.ops.Live(i)
    ensures Story(Drops(Owners(s)), s.ops.At(i).id) == [TornDown(s.ops.At(i).id, s.ops.At(i).local)]
  {
    hide Story, Drops;
    assert Owners(s)[i] == Some(Owner(s.ops.At(i).id, s.ops.At(i).local));
    OwnersAreDistinct(s);
    OneDropStory(Owners(s), i, s.ops.At(i).id);
  }

  lemma CancelIsDropped(s: State, c: nat)
    requires FreshIds(s) && s.cancels.Live(c)
    ensures Story(Drops(Owners(s)), s.cancels.At(c).id) == [TornDown(s.cancels.At(c).id, s.cancels.At(c).local)]
  {
    hide Story, Drops;
    assert Owners(s)[|s.ops.slots| + c] == Some(Owner(s.cancels.At(c).id, s.cancels.At(c).local));
    OwnersAreDistinct(s);
    OneDropStory(Owners(s), |s.ops.slots| + c, s.cancels.At(c).id);
  }

  lemma OthersAreNot(s: State, id: nat)
    requires !OwnedByOp(s, id) && !OwnedByCancel(s, id)
    ensures Story(Drops(Owners(s)), id) == []
  {
    hide Story, Drops;
    var o, n := Owners(s), |s.ops.slots|;
    forall i | 0 <= i < |o| && o[i].Some?
      ensures o[i].value.id != id
    {
      assert if i < n then s.ops.Live(i) else s.cancels.Live(i - n);
    }
    NoDropStory(o, id);
  }

  // ── Stale handles ──────────────────────────────────────────────────

  lemma PerformAllLog(s: State, cs: seq<Command>)
    ensures s.log <= PerformAll(s, cs).log
    ensures Quiet(PerformAll(s, cs).log[|s.log|..])
  {
    CallsLeaveEvents(s, cs);
  }

  lemma AdvanceLog(s: State, x: Step)
    ensures s.log <= Advance(s, x).log
  {
    if x.Take? && !x.completion.cancel && s.ops.Live(x.completion.slot) {
      PerformAllLog(Settle(s, x.completion.slot, Wins(s, x.completion), x.reaction.left), x.reaction.onCancel);
      PerformAllLog(AfterDeliver(s, x.completion, x.reaction), x.reaction.onOp);
    }
  }

  lemma {:induction false} RunLog(s: State, xs: seq<Step>)
    ensures s.log <= Run(s, xs).log
  {
    if xs != [] {
      RunLog(s, xs[..|xs| - 1]);
      AdvanceLog(Run(s, xs[..|xs| - 1]), xs[|xs| - 1]);
    }
  }

  /** Once an op's callback has run, a handle carrying its id is dead for good: in every continuation, on
      whichever slot it is presented, `cancel` changes nothing at all. */
  lemma StaleHandleIsInert(s: State, k: nat, xs: seq<Step>, slot: nat, local: Local, submitted: bool)
    requires Inv(s, -1) && k < |s.log| && s.log[k].OpRan? && CanRun(s, xs)
    ensures var s' := Run(s, xs); Perform(s', Cancel(slot, s.log[k].id, local, submitted)) == s'
  {
    hide Run, CanRun;
    var s', id := Run(s, xs), s.log[k].id;
    RunKeeps(s, xs);
    RunLog(s, xs);
    StoryHas(s.log, k);
    StoryConcat(s.log, s'.log[|s.log|..], id);
    assert s'.log == s.log + s'.log[|s.log|..];
    var h := Story(s'.log, id);
    assert h[..|Story(s.log, id)|] == Story(s.log, id);
    assert s.log[k] in h && |h| > 0;
  }

  // ── Who learns of a cancellation, and when ─────────────────────────

  /** No callback among these events. */
  ghost predicate Quiet(es: seq<Event>) {
    forall k :: 0 <= k < |es| ==> !es[k].OpRan? && !es[k].CancelRan?
  }

  /** The cancel callback at `i` and the op callback at `j` are the two halves of one won cancellation. */
  ghost predicate Answers(log: seq<Event>, i: int, j: int) {
    && 0 <= i < j < |log| && log[i].CancelRan? && log[j].OpRan?
    && log[j] == OpRan(log[i].victim, log[i].left, Cancelled)
    && (forall k :: i < k < j ==> !log[k].OpRan? && !log[k].CancelRan?)
  }

  ghost predicate HasCause(log: seq<Event>, j: int) {
    exists i :: Answers(log, i, j)
  }

  ghost predicate HasEffect(log: seq<Event>, i: int) {
    exists j :: Answers(log, i, j)
  }

  ghost predicate Paired(log: seq<Event>) {
    && (forall j {:trigger HasCause(log, j)} ::
          0 <= j < |log| && log[j].OpRan? && log[j].outcome.Cancelled? ==> HasCause(log, j))
    && (forall i {:trigger HasEffect(log, i)} :: 0 <= i < |log| && log[i].CancelRan? ==> HasEffect(log, i))
  }

  lemma AnswersShift(a: seq<Event>, b: seq<Event>, c: seq<Event>, i: int, j: int)
    requires Answers(b, i, j)
    ensures Answers(a + b + c, |a| + i, |a| + j)
  {
    var l := a + b + c;
    forall k | |a| + i < k < |a| + j
      ensures !l[k].OpRan? && !l[k].CancelRan?
    {
      assert l[k] == b[k - |a|];
    }
  }

  lemma PairedConcat(a: seq<Event>, b: seq<Event>)
    requires Paired(a) && Paired(b)
    ensures Paired(a + b)
  {
    var l, n := a + b, |a|;
    assert [] + a + b == l && a + b + [] == l;
    forall j | 0 <= j < |l| && l[j].OpRan? && l[j].outcome.Cancelled?
      ensures HasCause(l, j)
    {
      assert if j < n then HasCause(a, j) else HasCause(b, j - n);
      if j < n {
        var i :| Answers(a, i, j);
        AnswersShift([], a, b, i, j);
      } else {
        var i :| Answers(b, i, j - n);
        AnswersShift(a, b, [], i, j - n);
      }
    }
    forall i | 0 <= i < |l| && l[i].CancelRan?
      ensures HasEffect(l, i)
    {
      assert if i < n then HasEffect(a, i) else HasEffect(b, i - n);
      if i < n {
        var j :| Answers(a, i, j);
        AnswersShift([], a, b, i, j);
      } else {
        var j :| Answers(b, i - n, j);
        AnswersShift(a, b, [], i - n, j);
      }
    }
  }

  /** The events one op completion adds before its callback can do anything.  If the completion reports a
      cancellation of an op marked pending, the cancel `x` runs its callback on the op's local, then nothing
      but the `quiet` events of that callback, then the op's callback with `Cancelled` and what the cancel
      left; otherwise the cancel is dropped unrun. */
  ghost function Dispatched(op: OpRec, x: CancelRec, c: Completion, left: Local, quiet: seq<Event>): seq<Event> {
    if !op.pending then [OpRan(op.id, op.local, Completed(c.result, c.flags))]
    else if c.cancelled then
      [CancelRan(x.id, x.local, op.id, op.local, left)] + quiet + [OpRan(op.id, left, Cancelled)]
    else [CancelLost(x.id, x.local), OpRan(op.id, op.local, Completed(c.result, c.flags))]
  }

  /** The calls of the cancel's callback, if it runs, and of the op's leave one event each, in order. */
  lemma DispatchShape(s: State, c: Completion, r: Reaction)
    returns (x: CancelRec, quiet: seq<Event>, after: seq<Event>)
    requires Inv(s, -1) && s.ops.Live(c.slot) && !c.cancel && CanTake(s, c, r)
    ensures Quiet(quiet) && Quiet(after)
    ensures quiet == if s.ops.At(c.slot).pending && c.cancelled
                     then EventsOf(Settle(s, c.slot, true, r.left), r.onCancel) else []
    ensures after == EventsOf(AfterDeliver(s, c, r), r.onOp)
    ensures s.ops.At(c.slot).pending ==> Some(x) in s.cancels.slots && Names(x, c.slot, s.ops.At(c.slot).id)
    ensures CompleteOp(s, c, r).log == s.log + Dispatched(s.ops.At(c.slot), x, c, r.left, quiet) + after
  {
    var s3 := AfterDeliver(s, c, r);
    x, quiet := ShapeToCallback(s, c, r);
    CallsLeaveEvents(s3, r.onOp);
    after := EventsOf(s3, r.onOp);
  }

  lemma ShapeToCallback(s: State, c: Completion, r: Reaction) returns (x: CancelRec, quiet: seq<Event>)
    requires Inv(s, -1) && s.ops.Live(c.slot) && !c.cancel && CanTake(s, c, r)
    ensures Quiet(quiet)
    ensures quiet == if s.ops.At(c.slot).pending && c.cancelled
                     then EventsOf(Settle(s, c.slot, true, r.left), r.onCancel) else []
    ensures s.ops.At(c.slot).pending ==> Some(x) in s.cancels.slots && Names(x, c.slot, s.ops.At(c.slot).id)
    ensures AfterDeliver(s, c, r).log == s.log + Dispatched(s.ops.At(c.slot), x, c, r.left, quiet)
  {
    hide CanTake, AfterDeliver, AfterCancel, EventsOf;
    x := CancelRec(0, 0, 0, 0);
    if s.ops.At(c.slot).pending {
      CancelFound(s, c.slot);
      x := SettleLog(s, c.slot, c.cancelled, r.left);
    }
    hide Inv;
    quiet := CancelQuiet(s, c, r);
    DeliverLog(s, c, r);
  }

  /** Between the two callbacks of a won cancellation nothing else calls back. */
  lemma CancelQuiet(s: State, c: Completion, r: Reaction) returns (quiet: seq<Event>)
    requires s.ops.Live(c.slot)
    ensures Quiet(quiet)
    ensures quiet == if CallsCancel(s, c) then EventsOf(Settle(s, c.slot, true, r.left), r.onCancel) else []
    ensures AfterCancel(s, c, r).log == Settle(s, c.slot, Wins(s, c), r.left).log + quiet
  {
    var s1 := Settle(s, c.slot, Wins(s, c), r.left);
    CallsLeaveEvents(s1, r.onCancel);
    quiet := if CallsCancel(s, c) then EventsOf(s1, r.onCancel) else [];
  }

  lemma DeliverLog(s: State, c: Completion, r: Reaction)
    requires Inv(s, -1) && s.ops.Live(c.slot) && !c.cancel && CanTake(s, c, r)
    ensures var op := s.ops.At(c.slot);
            AfterDeliver(s, c, r).log == AfterCancel(s, c, r).log +
              [if op.pending && c.cancelled then OpRan(op.id, r.left, Cancelled)
               else OpRan(op.id, op.local, Completed(c.result, c.flags))]
  {
    CompleteOpKeeps(s, c, r);
    if s.ops.At(c.slot).pending {
      CancelFound(s, c.slot);
    }
  }

  lemma SettleLog(s: State, i: nat, won: bool, left: Local) returns (x: CancelRec)
    requires Inv(s, -1) && s.ops.Live(i) && s.ops.At(i).pending
    ensures Some(x) in s.cancels.slots && Names(x, i, s.ops.At(i).id)
    ensures var op := s.ops.At(i);
            Settle(s, i, won, left).log == s.log +
              [if won then CancelRan(x.id, x.local, op.id, op.local, left) else CancelLost(x.id, x.local)]
  {
    CancelFound(s, i);
    x := s.cancels.At(FindCancel(s.cancels.slots, i, s.ops.At(i).id, 0).value);
  }

  lemma PairedTakes(s: State, c: Completion, r: Reaction)
    requires Inv(s, -1) && Paired(s.log) && s.ops.Live(c.slot) && !c.cancel && CanTake(s, c, r)
    ensures Paired(CompleteOp(s, c, r).log)
  {
    var x, quiet, after := DispatchShape(s, c, r);
    var block := Dispatched(s.ops.At(c.slot), x, c, r.left, quiet);
    PairedBlock(s.ops.At(c.slot), x, c, r.left, quiet);
    PairedConcat(s.log, block);
    PairedConcat(s.log + block, after);
  }

  lemma PairedBlock(op: OpRec, x: CancelRec, c: Completion, left: Local, quiet: seq<Event>)
    requires Quiet(quiet)
    ensures Paired(Dispatched(op, x, c, left, quiet))
  {
    var b := Dispatched(op, x, c, left, quiet);
    if op.pending && c.cancelled {
      forall k | 0 < k < |b| - 1
        ensures !b[k].OpRan? && !b[k].CancelRan?
      {
        assert b[k] == quiet[k - 1];
      }
      assert Answers(b, 0, |b| - 1);
      assert HasCause(b, |b| - 1) && HasEffect(b, 0);
    }
  }

  lemma AdvancePaired(s: State, x: Step)
    requires Inv(s, -1) && Paired(s.log) && CanAdvance(s, x)
    ensures Paired(Advance(s, x).log)
  {
    hide Inv, CompleteOp;
    if x.Take? && !x.completion.cancel {
      PairedTakes(s, x.completion, x.reaction);
    } else {
      var more := Advance(s, x).log[|s.log|..];
      assert Advance(s, x).log == s.log + more && Quiet(more);
      PairedConcat(s.log, more);
    }
  }

  lemma {:induction false} TracePaired(t: seq<State>, k: nat)
    requires Trace(t) && k < |t|
    ensures Paired(t[k].log)
  {
    hide Inv, Advance, CanAdvance;
    if k > 0 {
      TraceInv(t, k - 1);
      TracePaired(t, k - 1);
      assert StepAt(t, k - 1);
      var x :| CanAdvance(t[k - 1], x) && t[k] == Advance(t[k - 1], x);
      AdvancePaired(t[k - 1], x);
    }
  }

  /** A cancel's callback was shown the local its victim had been registered with. */
  ghost predicate Shown(log: seq<Event>) {
    forall k :: 0 <= k < |log| && log[k].CancelRan? ==> Armed(log[k].victim, log[k].seen) in log
  }

  lemma {:induction false} StoryIn(log: seq<Event>, id: nat, e: Event)
    requires e in Story(log, id)
    ensures e in log
  {
    var n := |log| - 1;
    if !(log[n].id == id && e == log[n]) {
      StoryIn(log[..n], id, e);
    }
  }

  lemma AdvanceShown(s: State, x: Step)
    requires Inv(s, -1) && Shown(s.log) && CanAdvance(s, x)
    ensures Shown(Advance(s, x).log)
  {
    hide CompleteOp, CanTake;
    if x.Take? && !x.completion.cancel {
      var c := x.completion;
      assert s.ops.Live(c.slot) by {
        TakeIsLive(s, c, x.reaction);
      }
      var op := s.ops.At(c.slot);
      OpIsArmed(s, c.slot);
      hide Inv, EventsOf, Settle, AfterDeliver;
      var y, quiet, after := DispatchShape(s, c, x.reaction);
    }
  }

  lemma OpIsArmed(s: State, i: nat)
    requires Inv(s, -1) && s.ops.Live(i)
    ensures Armed(s.ops.At(i).id, s.ops.At(i).local) in s.log
  {
    var op := s.ops.At(i);
    assert Armed(op.id, op.local) in Story(s.log, op.id);
    StoryIn(s.log, op.id, Armed(op.id, op.local));
  }

  lemma TakeIsLive(s: State, c: Completion, r: Reaction)
    requires CanTake(s, c, r) && !c.cancel
    ensures s.ops.Live(c.slot)
  {
  }

  lemma {:induction false} TraceShown(t: seq<State>, k: nat)
    requires Trace(t) && k < |t|
    ensures Shown(t[k].log)
  {
    hide Inv, Advance, CanAdvance;
    if k > 0 {
      TraceInv(t, k - 1);
      TraceShown(t, k - 1);
      assert StepAt(t, k - 1);
      var x :| CanAdvance(t[k - 1], x) && t[k] == Advance(t[k - 1], x);
      AdvanceShown(t[k - 1], x);
    }
  }

  /** In every run, an op's callback reports `Cancelled` if and only if its cancel's callback ran before it in
      the same dispatch, with no other callback in between: it was shown the local the op was registered
      with, and left the very local the op's callback gets. */
  lemma CancelledIffCancelRan(s: State)
    requires Reachable(s)
    ensures Paired(s.log) && Shown(s.log)
  {
    hide Paired, Shown;
    var t :| Trace(t) && t[|t| - 1] == s;
    TracePaired(t, |t| - 1);
    TraceShown(t, |t| - 1);
  }
}
