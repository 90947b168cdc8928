/** Size classes, the packed buffer ids, and the layout of all slots in one slab. */
module SlabLayout {
  import opened Wrappers
  import opened Modular

  const U32_MAX: nat := 0xFFFF_FFFF
  const BID_LOCAL_MASK: nat := 0x00FF_FFFF
  const BUFFER_MAX_ALIGN: nat := 4096

  // ── Packed ids ─────────────────────────────────────────────────────

  /** Bit 31: provided; bits 24 to 30: the class, masked to seven bits; bits 0 to 23: the slot, masked. */
  function PackBid(provided: bool, cls: nat, local: nat): nat {
    (if provided then 0x8000_0000 else 0) + (cls % 128) * 0x100_0000 + local % 0x100_0000
  }

  function BidProvided(bid: nat): bool {
    bid / 0x8000_0000 % 2 == 1
  }

  function BidClass(bid: nat): nat {
    bid / 0x100_0000 % 128
  }

  function BidLocal(bid: nat): nat {
    bid % 0x100_0000
  }

  /** For any arguments: the flag, the class modulo 128 and the slot modulo 2^24 come back, and they are the bits of
      the id, slot lowest, flag highest. */
  lemma BidFields(provided: bool, cls: nat, local: nat)
    ensures var bid := PackBid(provided, cls, local);
      && bid == local % 0x100_0000 + 0x100_0000 * (cls % 0x80) + (if provided then 0x8000_0000 else 0) < 0x1_0000_0000
      && BidProvided(bid) == provided && BidClass(bid) == cls % 0x80 && BidLocal(bid) == local % 0x100_0000
  {
    BidRoundTrip(provided, cls % 128, local % 0x100_0000);
    assert PackBid(provided, cls, local) == PackBid(provided, cls % 128, local % 0x100_0000);
  }

  /** A class index below 128 and a slot id below 2^24 come back exactly, and the id fits 32 bits. */
  lemma BidRoundTrip(provided: bool, cls: nat, local: nat)
    requires cls < 128 && local <= BID_LOCAL_MASK
    ensures var bid := PackBid(provided, cls, local);
            bid <= U32_MAX && BidProvided(bid) == provided && BidClass(bid) == cls && BidLocal(bid) == local
  {
    var bid := PackBid(provided, cls, local);
    var high := (if provided then 128 else 0) + cls;
    assert bid == high * 0x100_0000 + local;
    assert bid / 0x100_0000 == high && high / 128 == (if provided then 1 else 0);
    assert bid / 0x8000_0000 == high / 128;
  }

  // ── Laying out one direction ───────────────────────────────────────

  datatype SizeClass = SizeClass(size: nat, count: nat)

  datatype ClassLayout = ClassLayout(size: nat, count: nat, base: nat, total: nat)

  predicate PowerOfTwo(n: nat) {
    n == 1 || (n > 1 && n % 2 == 0 && PowerOfTwo(n / 2))
  }

  function Pow2(k: nat): nat {
    if k == 0 then 1 else 2 * Pow2(k - 1)
  }

  lemma {:induction false} PowerOfTwoIs(k: nat)
    ensures PowerOfTwo(Pow2(k)) && Pow2(k) >= 1
  {
    if k > 0 {
      PowerOfTwoIs(k - 1);
    }
  }

  lemma {:induction false} ExponentOf(n: nat) returns (k: nat)
    requires PowerOfTwo(n)
    ensures n == Pow2(k)
  {
    k := 0;
    if n > 1 {
      k := ExponentOf(n / 2);
      k := k + 1;
    }
  }

  /** The halving test recognises exactly the powers of two. */
  lemma PowerOfTwoIff(n: nat)
    ensures PowerOfTwo(n) <==> exists k :: n == Pow2(k)
  {
    if PowerOfTwo(n) {
      var k := ExponentOf(n);
    }
    forall k: nat | n == Pow2(k)
      ensures PowerOfTwo(n)
    {
      PowerOfTwoIs(k);
    }
  }

  /** The smaller of two powers of two divides the larger. */
  lemma {:induction false} PowersDivide(a: nat, b: nat)
    requires PowerOfTwo(a) && PowerOfTwo(b) && a <= b
    ensures a > 0 && b % a == 0
  {
    if a > 1 {
      PowersDivide(a / 2, b / 2);
      var k := (b / 2) / (a / 2);
      assert b / 2 == k * (a / 2);
      assert b == k * a;
      ModUnique(b, a, k, 0);
    }
  }

  /** The alignment a slot is promised: its size, capped at a page.  (No class has size 0.) */
  function AlignOf(size: nat): (r: nat)
    ensures r > 0
  {
    if size == 0 then 1 else if size <= BUFFER_MAX_ALIGN then size else BUFFER_MAX_ALIGN
  }

  function RoundUp(x: nat, align: nat): nat
    requires align > 0
  {
    (x + align - 1) / align * align
  }

  lemma RoundUpFits(x: nat, align: nat)
    requires align > 0
    ensures x <= RoundUp(x, align) < x + align && RoundUp(x, align) % align == 0
  {
    var q := (x + align - 1) / align;
    assert x + align - 1 == q * align + (x + align - 1) % align;
    ModUnique(q * align, align, q, 0);
  }

  /** What `layout_classes` asserts of one class (besides the total). */
  predicate GoodClass(c: SizeClass, ring: bool) {
    && PowerOfTwo(c.size) && 0 < c.count <= BID_LOCAL_MASK
    && (ring ==> PowerOfTwo(c.count) && c.count <= 32768)
  }

  predicate StrictlyIncreasing(cs: seq<SizeClass>) {
    forall i :: 0 <= i < |cs| - 1 ==> cs[i].size < cs[i + 1].size
  }

  /** One class placed behind `base`. */
  function PlaceClass(c: SizeClass, base: nat): ClassLayout {
    var start := RoundUp(base, AlignOf(c.size));
    ClassLayout(c.size, c.count, start, start + c.size * c.count)
  }

  function TotalOf(ls: seq<ClassLayout>): nat {
    if ls == [] then 0 else ls[|ls| - 1].total
  }

  /** The classes laid out one after the other. */
  function LayoutOf(cs: seq<SizeClass>): (ls: seq<ClassLayout>)
    ensures |ls| == |cs|
  {
    if cs == [] then []
    else
      var before := LayoutOf(cs[..|cs| - 1]);
      before + [PlaceClass(cs[|cs| - 1], TotalOf(before))]
  }

  /** What `layout_classes` asserts of a sorted class table. */
  ghost predicate Accepted(cs: seq<SizeClass>, ring: bool) {
    && 0 < |cs| <= 128 && StrictlyIncreasing(cs)
    && (forall i :: 0 <= i < |cs| ==> GoodClass(cs[i], ring))
    && (forall i :: 0 <= i < |cs| ==> LayoutOf(cs)[i].total <= U32_MAX)
  }

  lemma LayoutPrefix(cs: seq<SizeClass>, i: nat)
    requires i < |cs|
    ensures LayoutOf(cs[..i + 1]) == LayoutOf(cs[..i]) + [PlaceClass(cs[i], TotalOf(LayoutOf(cs[..i])))]
  {
    assert cs[..i + 1][..i] == cs[..i];
  }

  lemma {:induction false} LayoutExtends(cs: seq<SizeClass>, i: nat)
    requires i <= |cs|
    ensures LayoutOf(cs[..i]) <= LayoutOf(cs)
    decreases |cs| - i
  {
    if i == |cs| {
      assert cs[..i] == cs;
    } else {
      LayoutPrefix(cs, i);
      LayoutExtends(cs, i + 1);
    }
  }

  /** The table sorted by size, validated and laid out; None exactly where an assertion of the source fails. */
  method LayoutClasses(classes: seq<SizeClass>, ring: bool)
    returns (r: Option<seq<ClassLayout>>, sorted: seq<SizeClass>)
    ensures multiset(sorted) == multiset(classes) && Sorted(sorted)
    ensures r.Some? <==> Accepted(sorted, ring)
    ensures r.Some? <==>
      && 0 < |classes| <= 128
      && (forall i, j :: 0 <= i < j < |classes| ==> classes[i].size != classes[j].size)
      && (forall i :: 0 <= i < |classes| ==>
            PowerOfTwo(classes[i].size) && 0 < classes[i].count <= 0xFF_FFFF
            && (ring ==> PowerOfTwo(classes[i].count) && classes[i].count <= 32768))
      && |sorted| == |classes| && LayoutOf(sorted)[|sorted| - 1].total <= 0xFFFF_FFFF
    ensures r.Some? ==> r.value == LayoutOf(sorted)
  {
    sorted := SortBySize(classes);
    r := LayoutSorted(sorted, ring);
    AcceptedIff(classes, sorted, ring);
  }

  method LayoutSorted(sorted: seq<SizeClass>, ring: bool) returns (r: Option<seq<ClassLayout>>)
    ensures r.Some? <==> Accepted(sorted, ring)
    ensures r.Some? ==> r.value == LayoutOf(sorted)
  {
    hide PlaceClass;
    r := None;
    if |sorted| == 0 || |sorted| > 128 {
      return;
    }
    for i := 0 to |sorted| - 1
      invariant forall j :: 0 <= j < i ==> sorted[j].size < sorted[j + 1].size
    {
      if sorted[i].size >= sorted[i + 1].size {
        return;
      }
    }
    var ls, base: nat := [], 0;
    for i := 0 to |sorted|
      invariant ls == LayoutOf(sorted[..i]) && base == TotalOf(ls)
      invariant forall j :: 0 <= j < i ==> GoodClass(sorted[j], ring) && ls[j].total <= U32_MAX
    {
      if !GoodClass(sorted[i], ring) {
        return;
      }
      LayoutPrefix(sorted, i);
      LayoutExtends(sorted, i + 1);
      var l := PlaceClass(sorted[i], base);
      assert LayoutOf(sorted)[i] == l;
      if l.total > U32_MAX {
        return;
      }
      ls := ls + [l];
      base := l.total;
    }
    assert sorted[..|sorted|] == sorted;
    r := Some(ls);
  }

  /** Acceptance, written out on the table as given. */
  lemma AcceptedIff(classes: seq<SizeClass>, sorted: seq<SizeClass>, ring: bool)
    requires multiset(sorted) == multiset(classes) && Sorted(sorted)
    ensures Accepted(sorted, ring) <==>
      && 0 < |classes| <= 128
      && (forall i, j :: 0 <= i < j < |classes| ==> classes[i].size != classes[j].size)
      && (forall i :: 0 <= i < |classes| ==>
            PowerOfTwo(classes[i].size) && 0 < classes[i].count <= 0xFF_FFFF
            && (ring ==> PowerOfTwo(classes[i].count) && classes[i].count <= 32768))
      && |sorted| == |classes| && LayoutOf(sorted)[|sorted| - 1].total <= 0xFFFF_FFFF
  {
    hide LayoutOf, PowerOfTwo;
    SameSize(classes, sorted);
    IncreasingIff(classes, sorted);
    AllMoves(classes, sorted, ring);
    if |sorted| > 0 && LayoutOf(sorted)[|sorted| - 1].total <= 0xFFFF_FFFF {
      forall i | 0 <= i < |sorted|
        ensures LayoutOf(sorted)[i].total <= U32_MAX
      {
        TotalBounds(sorted, i);
      }
    }
  }

  lemma AllMoves(a: seq<SizeClass>, b: seq<SizeClass>, ring: bool)
    requires multiset(a) == multiset(b)
    ensures (forall i :: 0 <= i < |a| ==> GoodClass(a[i], ring)) <==>
      (forall i :: 0 <= i < |b| ==> GoodClass(b[i], ring))
  {
    hide GoodClass;
    SameSize(a, b);
    if forall i :: 0 <= i < |a| ==> GoodClass(a[i], ring) {
      forall i | 0 <= i < |b|
        ensures GoodClass(b[i], ring)
      {
        assert b[i] in a;
      }
    }
    if forall i :: 0 <= i < |b| ==> GoodClass(b[i], ring) {
      forall i | 0 <= i < |a|
        ensures GoodClass(a[i], ring)
      {
        assert a[i] in b;
      }
    }
  }

  lemma SameSize(a: seq<SizeClass>, b: seq<SizeClass>)
    requires multiset(a) == multiset(b)
    ensures |a| == |b| && (forall c :: c in a <==> c in b)
  {
    assert |multiset(a)| == |multiset(b)|;
    assert forall c :: c in a <==> c in multiset(a);
    assert forall c :: c in b <==> c in multiset(b);
  }

  /** Sorting makes sizes strictly increasing exactly when no two classes share one. */
  lemma IncreasingIff(classes: seq<SizeClass>, sorted: seq<SizeClass>)
    requires multiset(sorted) == multiset(classes) && Sorted(sorted)
    ensures StrictlyIncreasing(sorted) <==> forall i, j :: 0 <= i < j < |classes| ==> classes[i].size != classes[j].size
  {
    if StrictlyIncreasing(sorted) {
      IncreasingDiffers(sorted);
      DifferMoves(sorted, classes);
    } else if Differ(classes) {
      DifferMoves(classes, sorted);
    }
  }

  lemma {:induction false} IncreasingDiffers(cs: seq<SizeClass>)
    requires StrictlyIncreasing(cs)
    ensures Differ(cs) && forall i :: 0 <= i < |cs| ==> cs[i].size <= cs[|cs| - 1].size
  {
    if |cs| > 1 {
      var n := |cs| - 1;
      IncreasingDiffers(cs[..n]);
      assert cs[..n][n - 1] == cs[n - 1];
      forall i | 0 <= i < n
        ensures cs[i].size < cs[n].size
      {
        assert cs[..n][i] == cs[i];
      }
      forall i, j | 0 <= i < j < |cs|
        ensures cs[i].size != cs[j].size
      {
        if j < n {
          assert cs[..n][i] == cs[i] && cs[..n][j] == cs[j];
        }
      }
    }
  }

  lemma DifferMoves(a: seq<SizeClass>, b: seq<SizeClass>)
    requires multiset(a) == multiset(b) && Differ(a)
    ensures Differ(b)
  {
    SameSize(a, b);
    forall i, j | 0 <= i < j < |b|
      ensures b[i].size != b[j].size
    {
      if b[i] == b[j] {
        TwiceCounts(b, i, j);
        OnceCounts(a, b[i]);
        assert false;
      }
      assert b[i] in a && b[j] in a;
      var p :| 0 <= p < |a| && a[p] == b[i];
      var q :| 0 <= q < |a| && a[q] == b[j];
    }
  }

  lemma TwiceCounts(b: seq<SizeClass>, i: nat, j: nat)
    requires i < j < |b| && b[i] == b[j]
    ensures multiset(b)[b[i]] >= 2
  {
    assert b == b[..j] + [b[j]] + b[j + 1..];
    assert b[..j][i] == b[i];
  }

  lemma {:induction false} OnceCounts(a: seq<SizeClass>, x: SizeClass)
    requires Differ(a)
    ensures multiset(a)[x] <= 1
  {
    if a != [] {
      var n := |a| - 1;
      OnceCounts(a[..n], x);
      assert a == a[..n] + [a[n]];
    }
  }

  ghost predicate Differ(cs: seq<SizeClass>) {
    forall i, j :: 0 <= i < j < |cs| ==> cs[i].size != cs[j].size
  }

  ghost predicate Sorted(cs: seq<SizeClass>) {
    forall i :: 0 <= i < |cs| - 1 ==> cs[i].size <= cs[i + 1].size
  }

  /** Insertion behind equal sizes, as a stable sort places them. */
  function Insert(cs: seq<SizeClass>, c: SizeClass): (r: seq<SizeClass>)
    requires Sorted(cs)
    ensures Sorted(r) && multiset(r) == multiset(cs) + multiset{c} && |r| == |cs| + 1
    ensures r[|cs|].size == c.size || (cs != [] && r[|cs|] == cs[|cs| - 1])
  {
    var n := |cs| - 1;
    if cs == [] || cs[n].size <= c.size then cs + [c]
    else
      assert cs == cs[..n] + [cs[n]];
      Insert(cs[..n], c) + [cs[n]]
  }

  method SortBySize(classes: seq<SizeClass>) returns (sorted: seq<SizeClass>)
    ensures multiset(sorted) == multiset(classes) && Sorted(sorted)
  {
    hide Insert;
    sorted := [];
    for n := 0 to |classes|
      invariant multiset(sorted) == multiset(classes[..n]) && Sorted(sorted)
    {
      assert classes[..n + 1] == classes[..n] + [classes[n]];
      sorted := Insert(sorted, classes[n]);
    }
    assert classes[..|classes|] == classes;
  }

  // ── What a layout guarantees ───────────────────────────────────────

  /** Where a class is put: behind the class before it, at the first offset that its size, capped at 4096, divides;
      its slots take exactly their own bytes. */
  lemma ClassPlacement(cs: seq<SizeClass>, i: nat)
    requires i < |cs|
    ensures var ls := LayoutOf(cs);
      var behind := if i == 0 then 0 else ls[i - 1].total;
      && ls[i].size == cs[i].size && ls[i].count == cs[i].count && ls[i].total == ls[i].base + cs[i].size * cs[i].count
      && behind <= ls[i].base && ls[i].base % AlignOf(cs[i].size) == 0
      && (cs[i].size > 0 ==>
            var align := if cs[i].size <= 4096 then cs[i].size else 4096;
            ls[i].base % align == 0 && ls[i].base - behind < align)
  {
    LayoutPrefix(cs, i);
    LayoutExtends(cs, i + 1);
    LayoutExtends(cs, i);
    RoundUpFits(TotalOf(LayoutOf(cs[..i])), AlignOf(cs[i].size));
  }

  /** Classes come one after the other. */
  lemma {:induction false} ClassOrder(cs: seq<SizeClass>, i: nat, j: nat)
    requires i < j < |cs|
    ensures LayoutOf(cs)[i].total <= LayoutOf(cs)[j].base
  {
    hide LayoutOf;
    ClassPlacement(cs, j);
    if i < j - 1 {
      ClassOrder(cs, i, j - 1);
      ClassPlacement(cs, j - 1);
    }
  }

  /** The byte offset of the `k`-th of a run of slots of one size. */
  function Nth(base: nat, k: nat, size: nat): nat {
    base + k * size
  }

  // ── Both directions in one slab ────────────────────────────────────

  /** A slot by direction, class and number. */
  datatype Slot = Slot(provided: bool, cls: nat, local: nat)

  /** The two sorted tables; the fixed classes follow the provided ones. */
  datatype Slab = Slab(provided: seq<SizeClass>, fixed: seq<SizeClass>) {
    function Table(p: bool): seq<SizeClass> {
      if p then provided else fixed
    }

    /** The widest alignment of any class, which the slab itself is allocated with. */
    function Align(): nat {
      MaxAlign(provided + fixed)
    }

    function FixedStart(): nat
      requires Align() > 0
    {
      RoundUp(TotalOf(LayoutOf(provided)), Align())
    }

    function Total(): nat
      requires Align() > 0
    {
      FixedStart() + TotalOf(LayoutOf(fixed))
    }

    ghost predicate Valid() {
      Accepted(provided, true) && Accepted(fixed, false) && Align() > 0 && Total() <= U32_MAX
    }

    predicate Has(s: Slot) {
      s.cls < |Table(s.provided)| && s.local < Table(s.provided)[s.cls].count
    }

    function SizeOf(s: Slot): nat
      requires Has(s)
    {
      Table(s.provided)[s.cls].size
    }

    /** The offset of a slot's first byte in the slab. */
    function Start(s: Slot): nat
      requires Has(s) && Align() > 0
    {
      (if s.provided then 0 else FixedStart()) + Nth(LayoutOf(Table(s.provided))[s.cls].base, s.local, SizeOf(s))
    }
  }

  function MaxAlign(cs: seq<SizeClass>): nat {
    if cs == [] then 0
    else
      var m, a := MaxAlign(cs[..|cs| - 1]), AlignOf(cs[|cs| - 1].size);
      if a > m then a else m
  }

  lemma {:induction false} MaxAlignFacts(cs: seq<SizeClass>)
    requires cs != [] && forall i :: 0 <= i < |cs| ==> PowerOfTwo(cs[i].size)
    ensures PowerOfTwo(MaxAlign(cs)) && forall i :: 0 <= i < |cs| ==> AlignOf(cs[i].size) <= MaxAlign(cs)
  {
    AlignIsPower(cs[|cs| - 1].size);
    if |cs| > 1 {
      MaxAlignFacts(cs[..|cs| - 1]);
    }
  }

  lemma AlignIsPower(size: nat)
    requires PowerOfTwo(size)
    ensures PowerOfTwo(AlignOf(size)) && size % AlignOf(size) == 0
  {
    PageIsPower();
    PowersDivide(AlignOf(size), size);
  }

  lemma PageIsPower()
    ensures PowerOfTwo(4096)
  {
    assert PowerOfTwo(8) && PowerOfTwo(64);
    assert PowerOfTwo(512);
  }

  lemma MulStep(a: nat, b: nat, n: nat)
    requires a < b
    ensures a * n + n <= b * n
  {
    assert (b - a) * n == b * n - a * n;
    assert (b - a - 1) * n >= 0;
    assert (b - a) * n == (b - a - 1) * n + n;
  }

  lemma MultiplesMod(a: nat, k: nat, s: nat, n: nat)
    requires n > 0 && a % n == 0 && s % n == 0
    ensures Nth(a, k, s) % n == 0
  {
    var p, q := a / n, s / n;
    assert a == p * n && s == q * n;
    assert k * s == k * q * n;
    assert a + k * s == (p + k * q) * n;
    ModUnique(a + k * s, n, p + k * q, 0);
  }

  /** A slot's bytes are inside its class, inside its direction's part of the slab. */
  lemma SlotInClass(b: Slab, s: Slot)
    requires b.Valid() && b.Has(s)
    ensures var l := LayoutOf(b.Table(s.provided))[s.cls]; var from := if s.provided then 0 else b.FixedStart();
            from + l.base <= b.Start(s) && b.Start(s) + b.SizeOf(s) <= from + l.total
  {
    hide LayoutOf, Accepted, MaxAlign, RoundUp;
    ClassPlacement(b.Table(s.provided), s.cls);
    MulStep(s.local, b.Table(s.provided)[s.cls].count, b.SizeOf(s));
  }

  lemma {:induction false} TotalBounds(cs: seq<SizeClass>, i: nat)
    requires i < |cs|
    ensures LayoutOf(cs)[i].total <= TotalOf(LayoutOf(cs))
  {
    hide LayoutOf;
    if i < |cs| - 1 {
      ClassOrder(cs, i, |cs| - 1);
      ClassPlacement(cs, |cs| - 1);
    }
  }

  /** Every slot of an accepted configuration lies inside the slab. */
  lemma SlotInSlab(b: Slab, s: Slot)
    requires b.Valid() && b.Has(s)
    ensures b.Start(s) + b.SizeOf(s) <= (if s.provided then b.FixedStart() else b.Total()) <= b.Total()
  {
    hide LayoutOf;
    SlotInClass(b, s);
    TotalBounds(b.Table(s.provided), s.cls);
    RoundUpFits(TotalOf(LayoutOf(b.provided)), b.Align());
  }

  lemma SumMod(a: nat, b: nat, n: nat)
    requires n > 0 && a % n == 0 && b % n == 0
    ensures (a + b) % n == 0
  {
    var p, q := a / n, b / n;
    assert a == p * n && b == q * n;
    assert a + b == (p + q) * n;
    ModUnique(a + b, n, p + q, 0);
  }

  /** Slot `k` of an aligned class is aligned: the stride is a multiple of the alignment. */
  lemma StrideIsAligned(cs: seq<SizeClass>, i: nat, k: nat)
    requires i < |cs| && PowerOfTwo(cs[i].size)
    ensures Nth(LayoutOf(cs)[i].base, k, cs[i].size) % AlignOf(cs[i].size) == 0
  {
    hide LayoutOf, PowerOfTwo, AlignOf, Nth;
    AlignIsPower(cs[i].size);
    ClassPlacement(cs, i);
    MultiplesMod(LayoutOf(cs)[i].base, k, cs[i].size, AlignOf(cs[i].size));
  }

  lemma ClassIsGood(b: Slab, s: Slot)
    requires b.Valid() && b.Has(s)
    ensures PowerOfTwo(b.SizeOf(s)) && s.cls < 128 && s.local <= BID_LOCAL_MASK
  {
    assert GoodClass(b.Table(s.provided)[s.cls], s.provided);
  }

  /** Every slot is aligned to its size, capped at a page, in a slab that is itself aligned. */
  lemma SlotIsAligned(b: Slab, s: Slot)
    requires b.Valid() && b.Has(s)
    ensures b.SizeOf(s) > 0 && b.Start(s) % (if b.SizeOf(s) <= 4096 then b.SizeOf(s) else 4096) == 0
  {
    ClassIsGood(b, s);
    assert AlignOf(b.SizeOf(s)) == if b.SizeOf(s) <= 4096 then b.SizeOf(s) else 4096;
    SlotIsAlignedTo(b, s);
  }

  lemma SlotIsAlignedTo(b: Slab, s: Slot)
    requires b.Valid() && b.Has(s)
    ensures b.Start(s) % AlignOf(b.SizeOf(s)) == 0
  {
    hide LayoutOf, PowerOfTwo, AlignOf, Accepted, MaxAlign, RoundUp, Nth;
    var cs := b.Table(s.provided);
    ClassIsGood(b, s);
    StrideIsAligned(cs, s.cls, s.local);
    if !s.provided {
      FixedStartAligned(b, s.cls);
      SumMod(b.FixedStart(), Nth(LayoutOf(cs)[s.cls].base, s.local, cs[s.cls].size), AlignOf(cs[s.cls].size));
    }
  }

  /** Where a slot is, in numbers: the slots of a class follow one another from its base; the provided classes start
      the slab, the fixed ones come right behind them at the first offset that the widest alignment divides. */
  lemma SlotPlacement(b: Slab, s: Slot)
    requires b.Valid() && b.Has(s)
    ensures b.Start(s) == (if s.provided then 0 else b.FixedStart()) + LayoutOf(b.Table(s.provided))[s.cls].base
                          + s.local * b.Table(s.provided)[s.cls].size
    ensures var behind, all := LayoutOf(b.provided)[|b.provided| - 1].total, b.provided + b.fixed;
      exists k :: 0 <= k < |all|
        && var widest := if all[k].size <= 4096 then all[k].size else 4096;
           && (forall j :: 0 <= j < |all| ==> (if all[j].size <= 4096 then all[j].size else 4096) <= widest)
           && widest > 0 && behind <= b.FixedStart() < behind + widest && b.FixedStart() % widest == 0
    ensures b.Total() == b.FixedStart() + LayoutOf(b.fixed)[|b.fixed| - 1].total
  {
    hide LayoutOf, RoundUp;
    var all := b.provided + b.fixed;
    forall j | 0 <= j < |all|
      ensures all[j].size > 0
    {
      assert if j < |b.provided| then GoodClass(b.provided[j], true) else GoodClass(b.fixed[j - |b.provided|], false);
    }
    var k := WidestClass(all);
    RoundUpFits(TotalOf(LayoutOf(b.provided)), b.Align());
  }

  lemma {:induction false} WidestClass(cs: seq<SizeClass>) returns (k: nat)
    requires cs != [] && forall i :: 0 <= i < |cs| ==> cs[i].size > 0
    ensures k < |cs| && MaxAlign(cs) == if cs[k].size <= 4096 then cs[k].size else 4096
    ensures forall i :: 0 <= i < |cs| ==> (if cs[i].size <= 4096 then cs[i].size else 4096) <= MaxAlign(cs)
  {
    var n := |cs| - 1;
    k := n;
    if n > 0 {
      var j := WidestClass(cs[..n]);
      if AlignOf(cs[n].size) <= MaxAlign(cs[..n]) {
        k := j;
      }
      assert forall i :: 0 <= i < n ==> cs[..n][i] == cs[i];
    }
  }

  lemma FixedStartAligned(b: Slab, i: nat)
    requires b.Valid() && i < |b.fixed|
    ensures b.FixedStart() % AlignOf(b.fixed[i].size) == 0
  {
    hide LayoutOf, PowerOfTwo, MaxAlign;
    var all := b.provided + b.fixed;
    forall j | 0 <= j < |all|
      ensures PowerOfTwo(all[j].size)
    {
      assert if j < |b.provided| then GoodClass(b.provided[j], true) else GoodClass(b.fixed[j - |b.provided|], false);
    }
    MaxAlignFacts(all);
    var align, wide := AlignOf(b.fixed[i].size), b.Align();
    assert all[|b.provided| + i] == b.fixed[i];
    AlignIsPower(b.fixed[i].size);
    PowersDivide(align, wide);
    var total := TotalOf(LayoutOf(b.provided));
    RoundUpFits(total, wide);
    var x, k := b.FixedStart(), wide / align;
    assert wide == k * align;
    ModMod(x, wide, align, k);
  }

  /** Two different slots, of either direction, share no byte. */
  lemma SlotsAreDisjoint(b: Slab, s: Slot, t: Slot)
    requires b.Valid() && b.Has(s) && b.Has(t) && s != t
    ensures b.Start(s) + b.SizeOf(s) <= b.Start(t) || b.Start(t) + b.SizeOf(t) <= b.Start(s)
  {
    hide LayoutOf;
    SlotInClass(b, s);
    SlotInClass(b, t);
    if s.provided != t.provided {
      SlotInSlab(b, s);
      SlotInSlab(b, t);
    } else if s.cls < t.cls {
      ClassOrder(b.Table(s.provided), s.cls, t.cls);
    } else if t.cls < s.cls {
      ClassOrder(b.Table(s.provided), t.cls, s.cls);
    } else if s.local < t.local {
      MulStep(s.local, t.local, b.SizeOf(s));
    } else {
      MulStep(t.local, s.local, b.SizeOf(s));
    }
  }

  /** The packed id of a slot names that slot and no other, so `with_slab` reaches the right bytes. */
  lemma BidNamesSlot(b: Slab, s: Slot, t: Slot)
    requires b.Valid() && b.Has(s) && b.Has(t)
    ensures var bid := PackBid(s.provided, s.cls, s.local);
            && Slot(BidProvided(bid), BidClass(bid), BidLocal(bid)) == s
            && (bid == PackBid(t.provided, t.cls, t.local) ==> s == t)
  {
    hide PackBid, BidProvided, BidClass, BidLocal, LayoutOf;
    ClassIsGood(b, s);
    ClassIsGood(b, t);
    BidRoundTrip(s.provided, s.cls, s.local);
    BidRoundTrip(t.provided, t.cls, t.local);
  }
}
