/** The size-class arena that holds the erased caller buffers of the ops in flight. */
module BufferArena {
  import opened Wrappers

  /** An erased caller buffer: two opaque words.  While a block is free its first word holds the link. */
  datatype Erased = Erased(a: nat, b: nat)

  const NO_BUF := Erased(0, 0)
  const BUF_NONE: nat := 0xFFFF_FFFF
  const BUF_CLASSES: seq<nat> := [1, 2, 4, 8, 16, 64, 256, 1024]

  datatype Arena = Arena(blocks: seq<Erased>, free: seq<nat>)

  const EMPTY_ARENA := Arena([], [BUF_NONE, BUF_NONE, BUF_NONE, BUF_NONE, BUF_NONE, BUF_NONE, BUF_NONE, BUF_NONE])

  /** The first class at or after `k` that holds `len` buffers. */
  function ClassFrom(len: nat, k: nat): (c: nat)
    requires len <= 1024 && k < 8
    ensures k <= c < 8 && len <= BUF_CLASSES[c] && forall j :: k <= j < c ==> BUF_CLASSES[j] < len
    decreases 8 - k
  {
    if BUF_CLASSES[k] >= len then k else ClassFrom(len, k + 1)
  }

  function ClassFor(len: nat): nat
    requires len <= 1024
  {
    ClassFrom(len, 0)
  }

  function Size(c: nat): nat
    requires c < 8
  {
    BUF_CLASSES[c]
  }

  /** `blocks[i].a as u32` */
  function NextLink(blocks: seq<Erased>, i: nat): nat
    requires i < |blocks|
  {
    blocks[i].a % 0x1_0000_0000
  }

  /** An arena with all eight list heads, each naming a block or the sentinel. */
  predicate Shaped(a: Arena) {
    |a.free| == 8 && forall c :: 0 <= c < 8 ==> a.free[c] == BUF_NONE || a.free[c] < |a.blocks|
  }

  /** The assertions of `alloc`. */
  predicate CanAlloc(a: Arena, len: nat) {
    0 < len <= 1024 && Shaped(a) && (a.free[ClassFor(len)] == BUF_NONE ==> |a.blocks| + Size(ClassFor(len)) < BUF_NONE)
  }

  function Alloc(a: Arena, len: nat): (Arena, nat)
    requires CanAlloc(a, len)
  {
    var c := ClassFor(len);
    var head := a.free[c];
    if head != BUF_NONE then (a.(free := a.free[c := NextLink(a.blocks, head)]), head)
    else (a.(blocks := a.blocks + seq(Size(c), _ => NO_BUF)), |a.blocks|)
  }

  function Release(a: Arena, start: nat, len: nat): Arena
    requires len <= 1024 && |a.free| == 8 && start < |a.blocks|
  {
    var c := ClassFor(len);
    Arena(a.blocks[start := a.blocks[start].(a := a.free[c])], a.free[c := start])
  }

  /** `blocks[start..start + bufs.len()].copy_from_slice(bufs)` */
  function Write(blocks: seq<Erased>, start: nat, bufs: seq<Erased>): seq<Erased>
    requires start + |bufs| <= |blocks|
  {
    blocks[..start] + bufs + blocks[start + |bufs|..]
  }

  /** The arena's in-place code. */
  class BufArena {
    var blocks: seq<Erased>
    var free: array<nat>

    ghost function View(): Arena
      reads this, free
    {
      Arena(blocks, free[..])
    }

    constructor ()
      ensures View() == EMPTY_ARENA && fresh(free)
    {
      blocks := [];
      free := new nat[8](_ => BUF_NONE);
    }

    method AllocRun(len: nat) returns (start: nat)
      requires CanAlloc(View(), len)
      modifies this`blocks, free
      ensures (View(), start) == Alloc(old(View()), len)
    {
      var c := 0;
      while BUF_CLASSES[c] < len
        invariant 0 <= c < 8 && forall j :: 0 <= j < c ==> BUF_CLASSES[j] < len
        decreases 8 - c
      {
        assert c < 7;
        c := c + 1;
      }
      assert c == ClassFor(len);
      var head := free[c];
      if head != BUF_NONE {
        free[c] := NextLink(blocks, head);
        return head;
      }
      start := |blocks|;
      blocks := blocks + seq(BUF_CLASSES[c], _ => NO_BUF);
    }

    method ReleaseRun(start: nat, len: nat)
      requires len <= 1024 && free.Length == 8 && start < |blocks|
      modifies this`blocks, free
      ensures View() == Release(old(View()), start, len)
    {
      var c := ClassFor(len);
      blocks := blocks[start := blocks[start].(a := free[c])];
      free[c] := start;
    }
  }

  // ── The runs of the ops in flight ──────────────────────────────────

  datatype Run = Run(start: nat, len: nat)

  /** The arena, the run each buffered op in flight holds, and (for the specification) the buffers it was
      registered with.  Ops are named by id; an op without buffers has no run. */
  datatype Table = Table(arena: Arena, runs: map<nat, Run>, given: map<nat, seq<Erased>>)

  datatype Registration = Registration(id: nat, bufs: seq<Erased>, armed: bool)

  /** A fresh id, at most the largest class of buffers, and room in the arena. */
  predicate CanRegister(t: Table, r: Registration) {
    r.id !in t.runs && (r.bufs != [] ==> CanAlloc(t.arena, |r.bufs|))
  }

  /** `register_op`, as far as buffers go: carve, copy, and release again if arming failed. */
  function DoRegister(t: Table, r: Registration): Table {
    if r.bufs == [] || !CanRegister(t, r) then t
    else
      var (a, start) := Alloc(t.arena, |r.bufs|);
      if start + |r.bufs| > |a.blocks| then t
      else
        var a' := a.(blocks := Write(a.blocks, start, r.bufs));
        if r.armed then Table(a', t.runs[r.id := Run(start, |r.bufs|)], t.given[r.id := r.bufs])
        else t.(arena := Release(a', start, |r.bufs|))
  }

  function DoRegisterAll(t: Table, rs: seq<Registration>): Table {
    if rs == [] then t else DoRegister(DoRegisterAll(t, rs[..|rs| - 1]), rs[|rs| - 1])
  }

  predicate CanRegisterAll(t: Table, rs: seq<Registration>) {
    rs == [] || (CanRegisterAll(t, rs[..|rs| - 1]) && CanRegister(DoRegisterAll(t, rs[..|rs| - 1]), rs[|rs| - 1]))
  }

  /** One op completion: its cancel's callback registers `onCancel`; then the arena is moved aside, the op's
      shim gets its slice of it and registers `onOp` in an empty arena; then the old arena is put back over
      whatever the shim allocated, and the run is released. */
  datatype Dispatch = Dispatch(id: nat, onCancel: seq<Registration>, onOp: seq<Registration>)

  /** The ids of the buffered registrations that were armed. */
  function Buffered(rs: seq<Registration>): set<nat> {
    set r | r in rs && r.armed && r.bufs != [] :: r.id
  }

  predicate CanDispatch(t: Table, d: Dispatch) {
    && (forall r :: r in d.onCancel ==> r.id != d.id) && (forall r :: r in d.onOp ==> r.id != d.id)
    && CanRegisterAll(t, d.onCancel)
    && CanRegisterAll(DoRegisterAll(t, d.onCancel).(arena := EMPTY_ARENA), d.onOp)
  }

  predicate InRange(a: Arena, r: Run) {
    0 < r.len <= 1024 && |a.free| == 8 && r.start + r.len <= |a.blocks|
  }

  /** The buffers the shim is given, or None where the slice is out of range and the runtime panics. */
  function SliceFor(t: Table, d: Dispatch): Option<seq<Erased>> {
    var t2 := DoRegisterAll(t, d.onCancel);
    if d.id !in t2.runs then Some([])
    else
      var r := t2.runs[d.id];
      if InRange(t2.arena, r) then Some(t2.arena.blocks[r.start..r.start + r.len]) else None
  }

  function DoDispatch(t: Table, d: Dispatch): Table {
    var t2 := DoRegisterAll(t, d.onCancel);
    var t3 := DoRegisterAll(t2.(arena := EMPTY_ARENA), d.onOp);
    if d.id !in t2.runs || !InRange(t2.arena, t2.runs[d.id]) then t3.(arena := t2.arena)
    else
      var r := t2.runs[d.id];
      Table(Release(t2.arena, r.start, r.len), t3.runs - {d.id}, t3.given)
  }
  // ── In place ───────────────────────────────────────────────────────

  /** A run that was carved lies inside the arena, as it does in every partitioned one. */
  ghost predicate Fits(t: Table, r: Registration) {
    CanRegister(t, r) && (r.bufs != [] ==> var (a, start) := Alloc(t.arena, |r.bufs|); start + |r.bufs| <= |a.blocks|)
  }

  ghost predicate FitsAll(t: Table, rs: seq<Registration>) {
    forall k :: 0 <= k < |rs| ==> Fits(DoRegisterAll(t, rs[..k]), rs[k])
  }

  /** The part of the runtime that deals in buffers. */
  class BufferedOps {
    var arena: BufArena
    var runs: map<nat, Run>
    ghost var given: map<nat, seq<Erased>>

    ghost function View(): Table
      reads this, arena, arena.free
    {
      Table(arena.View(), runs, given)
    }

    constructor ()
      ensures View() == Table(EMPTY_ARENA, map[], map[]) && fresh(arena) && fresh(arena.free)
    {
      arena := new BufArena();
      runs, given := map[], map[];
    }

    /** `alloc_buf_run`, the claim of the run, and its release where arming fails. */
    method Register(r: Registration)
      requires Fits(View(), r)
      modifies this`runs, this`given, arena, arena.free
      ensures View() == DoRegister(old(View()), r) && arena.free == old(arena.free)
    {
      if r.bufs == [] {
        return;
      }
      var start := arena.AllocRun(|r.bufs|);
      arena.blocks := Write(arena.blocks, start, r.bufs);
      if r.armed {
        runs := runs[r.id := Run(start, |r.bufs|)];
        given := given[r.id := r.bufs];
      } else {
        arena.ReleaseRun(start, |r.bufs|);
      }
    }

    /** A callback that makes these registrations. */
    method RunShim(rs: seq<Registration>)
      requires FitsAll(View(), rs)
      modifies this`runs, this`given, arena, arena.free
      ensures View() == DoRegisterAll(old(View()), rs) && arena.free == old(arena.free)
    {
      hide DoRegister, Fits;
      assert rs[..0] == [];
      for i := 0 to |rs|
        invariant View() == DoRegisterAll(old(View()), rs[..i]) && arena.free == old(arena.free)
      {
        Register(rs[i]);
        assert rs[..i + 1][..i] == rs[..i];
      }
      assert rs[..|rs|] == rs;
    }

    /** `dispatch_shim` behind the cancel's callback.  The slice is None where the source panics. */
    method Complete(d: Dispatch) returns (slice: Option<seq<Erased>>)
      requires FitsAll(View(), d.onCancel) && FitsAll(DoRegisterAll(View(), d.onCancel).(arena := EMPTY_ARENA), d.onOp)
      modifies this, arena, arena.free
      ensures slice == SliceFor(old(View()), d)
      ensures slice.Some? ==> View() == DoDispatch(old(View()), d)
    {
      hide FitsAll;
      RunShim(d.onCancel);
      var aside := arena;
      var run := if d.id in runs then Some(runs[d.id]) else None;
      if run.Some? && !(0 < run.value.len <= 1024 && aside.free.Length == 8
                        && run.value.start + run.value.len <= |aside.blocks|) {
        return None;
      }
      slice := Some(if run.Some? then aside.blocks[run.value.start..run.value.start + run.value.len] else []);
      arena := new BufArena();
      RunShim(d.onOp);
      arena := aside;
      if run.Some? {
        arena.ReleaseRun(run.value.start, run.value.len);
        runs := runs - {d.id};
      }
    }
  }
}
