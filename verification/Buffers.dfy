/** Borrow counts of pooled buffer slots, and the views that hold them. */
module BufferViews {
  /** A live view: which slot, whether exclusive, and the bytes of the slot it covers. */
  datatype View = View(slot: nat, exclusive: bool, off: nat, len: nat)

  /** The live views of one slot, by view identity. */
  ghost function Holders(views: map<nat, View>, slot: nat): set<nat> {
    set v | v in views && views[v].slot == slot
  }

  ghost predicate Disjoint(a: View, b: View) {
    a.off + a.len <= b.off || b.off + b.len <= a.off
  }

  /** A slot's count is the number of its views: positive if they are shared, negative if exclusive. */
  ghost predicate Counted(borrow: int, views: map<nat, View>, slot: nat) {
    && |Holders(views, slot)| == (if borrow < 0 then -borrow else borrow)
    && forall v :: v in Holders(views, slot) ==> views[v].exclusive == (borrow < 0)
  }

  /** Views lie inside their slots, and exclusive views of one slot do not overlap. */
  ghost predicate Placed(views: map<nat, View>, size: nat) {
    && (forall v :: v in views ==> views[v].off + views[v].len <= size)
    && (forall v, w ::
          && v in views && w in views && v != w && views[v].slot == views[w].slot
          && views[v].exclusive && views[w].exclusive
          ==> Disjoint(views[v], views[w]))
  }

  lemma HoldersAdd(views: map<nat, View>, v: nat, x: View)
    requires v !in views
    ensures forall s :: Holders(views[v := x], s) == if s == x.slot then Holders(views, s) + {v} else Holders(views, s)
  {
  }

  lemma HoldersRemove(views: map<nat, View>, v: nat)
    requires v in views
    ensures forall s :: Holders(views - {v}, s) == Holders(views, s) - {v}
  {
  }

  lemma HoldersReplace(views: map<nat, View>, v: nat, x: View)
    requires v in views && views[v].slot == x.slot
    ensures forall s :: Holders(views[v := x], s) == Holders(views, s)
  {
  }

  lemma SoleHolder(views: map<nat, View>, v: nat, w: nat)
    requires v in views && w in views && views[v].slot == views[w].slot && |Holders(views, views[v].slot)| == 1
    ensures v == w
  {
    var h := Holders(views, views[v].slot);
    assert v in h && w in h;
    assert |h - {v}| == 0;
    assert h - {v} == {};
  }

  /** Counts and views agree on every slot. */
  ghost predicate Tracks(borrows: seq<int>, views: map<nat, View>) {
    && (forall s :: 0 <= s < |borrows| ==> Counted(borrows[s], views, s))
    && (forall v :: v in views ==> views[v].slot < |borrows|)
  }

  /** A view's slot has a count of its kind's sign; a slot without views has count 0. */
  lemma ViewTells(borrows: seq<int>, views: map<nat, View>, v: nat)
    requires Tracks(borrows, views) && v in views
    ensures var b := borrows[views[v].slot]; b != 0 && views[v].exclusive == (b < 0)
  {
    var s := views[v].slot;
    assert Counted(borrows[s], views, s) && v in Holders(views, s);
  }

  lemma FreeHasNoViews(borrows: seq<int>, views: map<nat, View>, slot: nat)
    requires Tracks(borrows, views) && slot < |borrows|
    ensures borrows[slot] == 0 <==> Holders(views, slot) == {}
  {
    assert Counted(borrows[slot], views, slot);
  }

  /** One more view of a kind the slot admits, counted one further from zero. */
  lemma TracksAdd(borrows: seq<int>, views: map<nat, View>, v: nat, x: View)
    requires Tracks(borrows, views) && v !in views && x.slot < |borrows|
    requires borrows[x.slot] == 0 || (borrows[x.slot] < 0) == x.exclusive
    ensures Tracks(borrows[x.slot := borrows[x.slot] + if x.exclusive then -1 else 1], views[v := x])
  {
    hide Holders;
    HoldersAdd(views, v, x);
    HoldersHave(views, v);
    var borrows', views' := borrows[x.slot := borrows[x.slot] + if x.exclusive then -1 else 1], views[v := x];
    forall s | 0 <= s < |borrows'|
      ensures Counted(borrows'[s], views', s)
    {
      assert Counted(borrows[s], views, s);
      forall w | w in Holders(views', s)
        ensures views'[w].exclusive == (borrows'[s] < 0)
      {
        assert w == v || w in Holders(views, s);
      }
    }
  }

  lemma HoldersHave(views: map<nat, View>, v: nat)
    ensures v !in views ==> forall s :: v !in Holders(views, s)
    ensures v in views ==> v in Holders(views, views[v].slot) && forall s :: s != views[v].slot ==>
      v !in Holders(views, s)
    ensures forall s, w :: w in Holders(views, s) ==> w in views && views[w].slot == s
  {
  }

  /** One view fewer, counted one nearer to zero. */
  lemma TracksRemove(borrows: seq<int>, views: map<nat, View>, v: nat)
    requires Tracks(borrows, views) && v in views
    ensures var s := views[v].slot; Tracks(borrows[s := borrows[s] + if views[v].exclusive then 1 else -1], views - {v})
  {
    hide Holders;
    var slot := views[v].slot;
    ViewTells(borrows, views, v);
    HoldersRemove(views, v);
    HoldersHave(views, v);
    var borrows' := borrows[slot := borrows[slot] + if views[v].exclusive then 1 else -1];
    forall s | 0 <= s < |borrows'|
      ensures Counted(borrows'[s], views - {v}, s)
    {
      assert Counted(borrows[s], views, s);
      assert s == slot || Holders(views - {v}, s) == Holders(views, s);
    }
  }

  /** Narrowing a view does not touch the counts. */
  lemma TracksNarrow(borrows: seq<int>, views: map<nat, View>, v: nat, len: nat)
    requires Tracks(borrows, views) && v in views
    ensures Tracks(borrows, views[v := views[v].(len := len)])
  {
    var views' := views[v := views[v].(len := len)];
    HoldersReplace(views, v, views[v].(len := len));
    forall s | 0 <= s < |borrows|
      ensures Counted(borrows[s], views', s)
    {
      assert Counted(borrows[s], views, s);
    }
  }

  /** The only view of a slot changes kind, and the count its sign. */
  lemma TracksFlip(borrows: seq<int>, views: map<nat, View>, v: nat)
    requires Tracks(borrows, views) && v in views && (borrows[views[v].slot] == 1 || borrows[views[v].slot] == -1)
    ensures var s := views[v].slot;
      Tracks(borrows[s := -borrows[s]], views[v := views[v].(exclusive := !views[v].exclusive)])
    ensures forall w :: w in views && views[w].slot == views[v].slot ==> w == v
  {
    var slot, views' := views[v].slot, views[v := views[v].(exclusive := !views[v].exclusive)];
    ViewTells(borrows, views, v);
    assert Counted(borrows[slot], views, slot);
    forall w | w in views && views[w].slot == slot
      ensures w == v
    {
      SoleHolder(views, v, w);
    }
    HoldersReplace(views, v, views'[v]);
    forall s | 0 <= s < |borrows| && s != slot
      ensures Counted(borrows[s], views', s)
    {
      assert Counted(borrows[s], views, s);
    }
  }

  /** Another exclusive view of the same slot. */
  ghost predicate Sibling(views: map<nat, View>, v: nat, w: nat) {
    v in views && w in views && w != v && views[w].slot == views[v].slot && views[w].exclusive
  }

  /** The first `len` bytes from the start of `v` reach no sibling that ends behind that start. */
  ghost predicate Reachless(views: map<nat, View>, v: nat, len: nat) {
    forall w :: Sibling(views, v, w) && views[w].off + views[w].len > views[v].off ==>
        views[v].off + len <= views[w].off
  }

  /** Setting the length of an exclusive view keeps exclusive views apart exactly when it reaches no sibling. */
  lemma SetLenIff(views: map<nat, View>, size: nat, v: nat, len: nat)
    requires Placed(views, size) && v in views && views[v].exclusive && views[v].off + len <= size
    ensures Placed(views[v := views[v].(len := len)], size) <==> Reachless(views, v, len)
  {
    var x, views' := views[v], views[v := views[v].(len := len)];
    if Placed(views', size) {
      forall w | Sibling(views, v, w) && views[w].off + views[w].len > x.off
        ensures x.off + len <= views[w].off
      {
        assert Disjoint(views'[v], views'[w]);
      }
    }
  }

  /** Growing the front half of a split over the other half makes them overlap. */
  lemma GrownHalfOverlaps(views: map<nat, View>, size: nat, v: nat, w: nat, len: nat)
    requires Placed(views, size) && v in views && views[v].exclusive && views[v].off + len <= size
    requires Sibling(views, v, w) && views[w].off == views[v].off + views[v].len && views[w].len > 0
    requires len > views[v].len
    ensures !Placed(views[v := views[v].(len := len)], size)
  {
    SetLenIff(views, size, v, len);
  }

  /** The per-slot borrow counts.  Every method is one transition of the source, on the view it serves. */
  class BorrowTracker {
    var borrows: seq<int>
    const size: nat
    ghost var views: map<nat, View>
    /** Supplies fresh identities for new views. */
    ghost var issued: nat

    ghost predicate Valid()
      reads this
    {
      Tracks(borrows, views) && Placed(views, size) && forall v :: v in views ==> v < issued
    }

    constructor (count: nat, size: nat)
      ensures Valid() && |borrows| == count && this.size == size && views == map[]
      ensures forall s :: 0 <= s < count ==> borrows[s] == 0
    {
      borrows := seq(count, _ => 0);
      this.size := size;
      views := map[];
      issued := 0;
      new;
      assert forall s :: Holders(views, s) == {};
    }

    /** `take_shared` / `take_exclusive`: the first view of a free slot, over `len` bytes of it. */
    method Take(slot: nat, exclusive: bool, len: nat) returns (ghost v: nat)
      requires Valid() && slot < |borrows| && borrows[slot] == 0 && len <= size
      modifies this
      ensures Valid() && v == old(issued) && v !in old(views) && views == old(views)[v := View(slot, exclusive, 0, len)]
      ensures borrows == old(borrows)[slot := if exclusive then -1 else 1] && issued == v + 1
    {
      v := issued;
      FreeHasNoViews(borrows, views, slot);
      TracksAdd(borrows, views, v, View(slot, exclusive, 0, len));
      hide Tracks;
      borrows := borrows[slot := if exclusive then -1 else 1];
      views := views[v := View(slot, exclusive, 0, len)];
      issued := issued + 1;
    }

    /** `clone` and `sub`: one more shared view of the same slot, over bytes [a, b) of this view. */
    method Share(ghost v: nat, a: nat, b: nat, slot: nat) returns (ghost w: nat)
      requires Valid() && v in views && views[v].slot == slot && !views[v].exclusive && a <= b <= views[v].len
      modifies this
      ensures Valid() && w == old(issued) && w !in old(views)
      ensures views == old(views)[w := View(slot, false, old(views)[v].off + a, b - a)] && slot < |old(borrows)|
      ensures old(borrows)[slot] > 0 && borrows == old(borrows)[slot := old(borrows)[slot] + 1] && issued == w + 1
    {
      w := issued;
      ViewTells(borrows, views, v);
      TracksAdd(borrows, views, w, View(slot, false, views[v].off + a, b - a));
      assert slot < |borrows|;
      hide Tracks;
      borrows := borrows[slot := borrows[slot] + 1];
      views := views[w := View(slot, false, views[v].off + a, b - a)];
      issued := issued + 1;
    }

    /** `split_at`: the view keeps [0, mid), a second exclusive view gets [mid, len). */
    method SplitAt(ghost v: nat, mid: nat, slot: nat) returns (ghost w: nat)
      requires Valid() && v in views && views[v].slot == slot && views[v].exclusive && mid <= views[v].len
      modifies this
      ensures Valid() && w == old(issued) && w !in old(views) && slot < |old(borrows)|
      ensures var x := old(views)[v];
              views == old(views)[v := x.(len := mid)][w := View(slot, true, x.off + mid, x.len - mid)]
      ensures old(borrows)[slot] < 0 && borrows == old(borrows)[slot := old(borrows)[slot] - 1] && issued == w + 1
    {
      w := issued;
      ViewTells(borrows, views, v);
      ghost var x := views[v];
      ghost var narrowed := views[v := x.(len := mid)];
      TracksNarrow(borrows, views, v, mid);
      TracksAdd(borrows, narrowed, w, View(slot, true, x.off + mid, x.len - mid));
      assert slot < |borrows|;
      hide Tracks;
      borrows := borrows[slot := borrows[slot] - 1];
      views := narrowed[w := View(slot, true, x.off + mid, x.len - mid)];
      issued := issued + 1;
    }

    /** `set_len`, which checks the slot's end only: the counts stay right, and the exclusive views stay apart
        exactly when the view reaches no sibling. */
    method SetLen(ghost v: nat, x: View, len: nat) returns (y: View)
      requires Valid() && v in views && views[v] == x && x.exclusive && x.off + len <= size
      modifies this`views
      ensures y == x.(len := len) && views == old(views)[v := y] && Tracks(borrows, views)
      ensures Valid() <==> Reachless(old(views), v, len)
    {
      TracksNarrow(borrows, views, v, len);
      SetLenIff(views, size, v, len);
      hide Tracks, Placed, Reachless;
      y := x.(len := len);
      views := views[v := y];
    }

    /** `into_mut` / `into_bytes`: the only view of its slot changes kind. */
    method Flip(ghost v: nat, slot: nat)
      requires Valid() && v in views && views[v].slot == slot < |borrows| && (borrows[slot] == 1 || borrows[slot] == -1)
      modifies this
      ensures Valid() && views == old(views)[v := old(views)[v].(exclusive := !old(views)[v].exclusive)]
      ensures borrows == old(borrows)[slot := -old(borrows)[slot]] && issued == old(issued)
    {
      TracksFlip(borrows, views, v);
      hide Tracks;
      borrows := borrows[slot := -borrows[slot]];
      views := views[v := views[v].(exclusive := !views[v].exclusive)];
    }

    /** Releases one view; true when the slot has none left. */
    method Drop(ghost v: nat, slot: nat, exclusive: bool) returns (last: bool)
      requires Valid() && v in views && views[v].slot == slot && views[v].exclusive == exclusive
      modifies this
      ensures Valid() && views == old(views) - {v} && issued == old(issued) && slot < |old(borrows)|
      ensures borrows == old(borrows)[slot := if exclusive then old(borrows)[slot] + 1 else old(borrows)[slot] - 1]
      ensures old(borrows)[slot] != 0 && last == (borrows[slot] == 0) && last == (Holders(views, slot) == {})
    {
      ViewTells(borrows, views, v);
      TracksRemove(borrows, views, v);
      assert slot < |borrows|;
      hide Tracks;
      borrows := borrows[slot := if exclusive then borrows[slot] + 1 else borrows[slot] - 1];
      views := views - {v};
      last := borrows[slot] == 0;
      FreeHasNoViews(borrows, views, slot);
    }
  }
}

/** One size class of fixed buffers: a free stack of slots and their borrow counts. */
module FixedSlabs {
  import opened Wrappers
  import opened BufferViews

  class FixedSlab {
    var free: seq<nat>
    const tracker: BorrowTracker

    /** The free stack holds exactly the slots no view holds, each once. */
    ghost predicate Valid()
      reads this, tracker
    {
      && tracker.Valid()
      && (forall j, k :: 0 <= j < k < |free| ==> free[j] != free[k])
      && (forall j :: 0 <= j < |free| ==> free[j] < |tracker.borrows| && tracker.borrows[free[j]] == 0)
      && (forall s :: 0 <= s < |tracker.borrows| && tracker.borrows[s] == 0 ==> s in free)
    }

    /** Slots are stacked so that slot 0 goes out first. */
    constructor (count: nat, size: nat)
      requires count > 0 && size > 0
      ensures Valid() && fresh(tracker) && |tracker.borrows| == count && tracker.size == size && tracker.views == map[]
      ensures |free| == count && forall k :: 0 <= k < count ==> free[k] == count - 1 - k
    {
      tracker := new BorrowTracker(count, size);
      free := seq(count, i requires 0 <= i < count => count - 1 - i);
      new;
      forall s | 0 <= s < count
        ensures s in free
      {
        assert free[count - 1 - s] == s;
      }
    }

    /** Pops a free slot and roots its first view; none when every slot is viewed. */
    method Acquire(exclusive: bool, len: nat) returns (r: Option<nat>, ghost v: nat)
      requires Valid() && len <= tracker.size
      modifies this, tracker
      ensures Valid()
      ensures r.None? <==> forall s :: 0 <= s < |old(tracker.borrows)| ==> Holders(old(tracker.views), s) != {}
      ensures r.None? <==> old(free) == []
      ensures r.None? ==> tracker.views == old(tracker.views) && tracker.borrows == old(tracker.borrows) && free == []
      ensures r.Some? ==> old(free) == free + [r.value]
      ensures r.Some? ==>
                && r.value < |tracker.borrows| == |old(tracker.borrows)| && Holders(old(tracker.views), r.value) == {}
                && v !in old(tracker.views)
                && tracker.views == old(tracker.views)[v := View(r.value, exclusive, 0, len)]
    {
      v := 0;
      forall s | 0 <= s < |tracker.borrows|
        ensures tracker.borrows[s] == 0 <==> Holders(tracker.views, s) == {}
      {
        FreeHasNoViews(tracker.borrows, tracker.views, s);
      }
      if |free| == 0 {
        return None, v;
      }
      var slot := free[|free| - 1];
      assert tracker.borrows[slot] == 0;
      free := free[..|free| - 1];
      v := tracker.Take(slot, exclusive, len);
      assert forall s :: s in old(free) ==> s == slot || s in free;
      r := Some(slot);
    }

    /** Cloning, narrowing, splitting and changing kind leave a viewed slot viewed, so the stack stays as it is. */
    method ShareView(ghost v: nat, x: View, a: nat, b: nat) returns (r: Option<View>, ghost w: nat)
      requires Valid() && v in tracker.views && tracker.views[v] == x && !x.exclusive
      modifies tracker
      ensures Valid() && (r.Some? <==> a <= b <= x.len)
      ensures r.None? ==> tracker.views == old(tracker.views)
      ensures r.Some? ==>
                && r.value == View(x.slot, false, x.off + a, b - a)
                && w !in old(tracker.views) && tracker.views == old(tracker.views)[w := r.value]
    {
      if a > b || b > x.len {
        return None, v;
      }
      w := tracker.Share(v, a, b, x.slot);
      r := Some(View(x.slot, false, x.off + a, b - a));
    }

    /** Two halves of one exclusive view; a split behind its end yields none, and the view, consumed by the
        call, is dropped. */
    method SplitView(ghost v: nat, x: View, mid: nat) returns (r: Option<(View, View)>, ghost w: nat)
      requires Valid() && v in tracker.views && tracker.views[v] == x && x.exclusive
      modifies this, tracker
      ensures Valid() && (r.Some? <==> mid <= x.len)
      ensures r.None? ==> tracker.views == old(tracker.views) - {v}
      ensures free == if r.None? && Holders(tracker.views, x.slot) == {} then old(free) + [x.slot] else old(free)
      ensures r.Some? ==>
                && r.value == (x.(len := mid), View(x.slot, true, x.off + mid, x.len - mid)) && w !in old(tracker.views)
                && tracker.views == old(tracker.views)[v := r.value.0][w := r.value.1]
    {
      if mid > x.len {
        DropView(v, x.slot, true);
        return None, v;
      }
      w := tracker.SplitAt(v, mid, x.slot);
      r := Some((x.(len := mid), View(x.slot, true, x.off + mid, x.len - mid)));
    }

    method FlipView(ghost v: nat, slot: nat)
      requires Valid() && v in tracker.views && tracker.views[v].slot == slot < |tracker.borrows|
      requires tracker.borrows[slot] == 1 || tracker.borrows[slot] == -1
      modifies tracker
      ensures Valid()
      ensures var x := old(tracker.views)[v]; tracker.views == old(tracker.views)[v := x.(exclusive := !x.exclusive)]
    {
      tracker.Flip(v, slot);
    }

    /** Drops one view; the slot goes back on the stack with its last one. */
    method DropView(ghost v: nat, slot: nat, exclusive: bool)
      requires Valid() && v in tracker.views && tracker.views[v].slot == slot && tracker.views[v].exclusive == exclusive
      modifies this, tracker
      ensures Valid() && tracker.views == old(tracker.views) - {v}
      ensures free == if Holders(tracker.views, slot) == {} then old(free) + [slot] else old(free)
    {
      ViewTells(tracker.borrows, tracker.views, v);
      var last := tracker.Drop(v, slot, exclusive);
      if last {
        free := free + [slot];
      }
    }
  }
}

/** One size class of provided buffers: a descriptor ring shared with the kernel. */
module ProvidedSlabs {
  import opened Wrappers
  import opened Modular
  import opened BufferViews

  const U16: nat := 0x1_0000

  /** The counts a ring may have: powers of two up to 32768. */
  predicate RingCount(n: nat) {
    n in [1, 2, 4, 8, 16, 32, 64, 128, 256, 512, 1024, 2048, 4096, 8192, 16384, 32768]
  }

  /** Where the ring keeps its `k`-th descriptor. */
  function Place(k: nat, n: nat): nat
    requires n > 0
  {
    k % n
  }

  lemma RingDivides(n: nat)
    requires RingCount(n)
    ensures n > 0 && (U16 / n) * n == U16
  {
    assert U16 / 1 == 65536 && U16 / 2 == 32768 && U16 / 4 == 16384 && U16 / 8 == 8192 && U16 / 16 == 4096;
    assert U16 / 32 == 2048;
    assert U16 / 64 == 1024 && U16 / 128 == 512 && U16 / 256 == 256 && U16 / 512 == 128 && U16 / 1024 == 64;
    assert U16 / 2048 == 32 && U16 / 4096 == 16 && U16 / 8192 == 8 && U16 / 16384 == 4 && U16 / 32768 == 2;
  }

  /** Masking the wrapping counter with `count - 1` gives the place of the unwrapped one. */
  lemma MaskedPlace(a: nat, n: nat)
    requires RingCount(n)
    ensures n > 0 && (a % U16) % n == Place(a, n) < n
  {
    RingDivides(n);
    ModMod(a, U16, n, U16 / n);
  }

  /** Places less than a full turn apart differ. */
  lemma DistinctPlaces(a: nat, b: nat, n: nat)
    requires n > 0 && a < b < a + n
    ensures Place(a, n) != Place(b, n)
  {
    if Place(a, n) == Place(b, n) {
      SamePlace(a, b, n);
    }
  }

  lemma WrapNext(x: nat)
    ensures (x % U16 + 1) % U16 == (x + 1) % U16
  {
  }

  /** At most `n` different numbers are below `n`. */
  lemma {:induction false} Pigeonhole(w: seq<nat>, n: nat)
    requires Distinct(w) && forall k :: 0 <= k < |w| ==> w[k] < n
    ensures |w| <= n
  {
    if w != [] {
      assert w[0] < n;
      if k :| 0 <= k < |w| && w[k] == n - 1 {
        var rest := w[..k] + w[k + 1..];
        forall j | 0 <= j < |rest|
          ensures rest[j] < n - 1
        {
          assert rest[j] == w[if j < k then j else j + 1];
        }
        Pigeonhole(rest, n - 1);
      } else {
        Pigeonhole(w, n - 1);
      }
    }
  }

  /** Room for one more: if `b` is not in the list, the list is not full. */
  lemma RoomFor(w: seq<nat>, n: nat, b: nat)
    requires Distinct(w) && b < n && b !in w && forall k :: 0 <= k < |w| ==> w[k] < n
    ensures |w| < n
  {
    Pigeonhole(w + [b], n);
  }

  ghost predicate Placement(window: seq<nat>, taken: set<nat>, borrows: seq<int>) {
    PlacementBut(window, taken, borrows, |borrows|)
  }

  /** Every buffer but `but` is in exactly one place: once in the window, consumed, or viewed. */
  ghost predicate PlacementBut(window: seq<nat>, taken: set<nat>, borrows: seq<int>, but: nat) {
    && Distinct(window) && (forall k :: 0 <= k < |window| ==> window[k] < |borrows|) && (forall b :: b in taken ==>
        b < |borrows|)
    && (forall b :: 0 <= b < |borrows| && b != but ==>
          if borrows[b] != 0 then b !in window && b !in taken else (b in window) != (b in taken))
  }

  lemma ConsumePlacement(window: seq<nat>, taken: set<nat>, borrows: seq<int>)
    requires Placement(window, taken, borrows) && window != []
    ensures Placement(window[1..], taken + {window[0]}, borrows) && window[0] !in taken
  {
    assert window == [window[0]] + window[1..];
    assert window[0] in window && window[0] !in window[1..];
  }

  lemma RecyclePlacement(window: seq<nat>, taken: set<nat>, borrows: seq<int>, slot: nat)
    requires PlacementBut(window, taken, borrows, slot) && slot < |borrows| && borrows[slot] == 0
    requires slot !in window && slot !in taken
    ensures Placement(window + [slot], taken, borrows)
  {
  }

  /** The window's descriptors are where the counters say. */
  ghost predicate Published(ring: seq<nat>, window: seq<nat>, position: nat)
    requires |ring| > 0
  {
    forall k: nat :: k < |window| ==> ring[Place(position + k, |ring|)] == window[k]
  }

  lemma ConsumePublished(ring: seq<nat>, window: seq<nat>, position: nat)
    requires |ring| > 0 && Published(ring, window, position) && window != []
    ensures Published(ring, window[1..], position + 1)
  {
    forall k: nat | k < |window| - 1
      ensures ring[Place(position + 1 + k, |ring|)] == window[1..][k]
    {
      assert position + 1 + k == position + (k + 1);
    }
  }

  /** Writing at the tail overwrites no descriptor of a window that is not full. */
  lemma RecyclePublished(ring: seq<nat>, window: seq<nat>, position: nat, slot: nat)
    requires 0 < |ring| && Published(ring, window, position) && |window| < |ring|
    ensures Published(ring[Place(position + |window|, |ring|) := slot], window + [slot], position)
  {
    var ring' := ring[Place(position + |window|, |ring|) := slot];
    forall k: nat | k < |window| + 1
      ensures ring'[Place(position + k, |ring|)] == (window + [slot])[k]
    {
      if k < |window| {
        DistinctPlaces(position + k, position + |window|, |ring|);
      }
    }
  }

  /** A fresh ring holds every buffer, in order. */
  lemma FullRing(window: seq<nat>, borrows: seq<int>)
    requires 0 < |window| == |borrows| && forall k :: 0 <= k < |window| ==> window[k] == k && borrows[k] == 0
    ensures Published(window, window, 0) && Placement(window, {}, borrows)
  {
    forall b | 0 <= b < |borrows|
      ensures b in window
    {
      assert window[b] == b;
    }
    forall k: nat | k < |window|
      ensures window[Place(0 + k, |window|)] == window[k]
    {
      assert Place(k, |window|) == k;
    }
  }

  class ProvidedSlab {
    const count: nat
    const ring: array<nat>
    var tail: nat
    const tracker: BorrowTracker
    /** The kernel's side: its own wrapping head, and the buffers it consumed that nobody selected yet. */
    var head: nat
    ghost var taken: set<nat>
    /** The buffers the kernel may still pick, in ring order, and the unwrapped position of the first. */
    ghost var window: seq<nat>
    ghost var position: nat

    /** Every buffer is in exactly one place: in the window [head, tail) once, consumed but not selected, or
        held by views.  The counters wrap; the descriptors of the window are where they say. */
    ghost predicate Valid()
      reads this, ring, tracker
    {
      && RingCount(count) && ring.Length == count && tracker.Valid() && |tracker.borrows| == count
      && head == position % U16 && tail == (position + |window|) % U16
      && Published(ring[..], window, position) && Placement(window, taken, tracker.borrows)
    }

    constructor (count: nat, size: nat)
      requires RingCount(count) && size > 0
      ensures Valid() && fresh(ring) && fresh(tracker) && this.count == count && tracker.size == size
      ensures |window| == count && (forall k :: 0 <= k < count ==> window[k] == k) && taken == {}
      ensures tracker.views == map[]
    {
      this.count := count;
      ring := new nat[count](i => i);
      tracker := new BorrowTracker(count, size);
      tail, head := count, 0;
      taken, position := {}, 0;
      window := seq(count, i => i);
      new;
      hide RingCount;
      assert ring[..] == window;
      FullRing(window, tracker.borrows);
    }

    /** The kernel picks the next buffer for a read; it owns it until the read's result is adopted. */
    method KernelConsume() returns (bid: nat)
      requires Valid() && window != []
      modifies this`head, this`taken, this`window, this`position
      ensures Valid() && bid == old(window)[0] && window == old(window)[1..]
      ensures taken == old(taken) + {bid} && bid !in old(taken)
    {
      MaskedPlace(position, count);
      WrapNext(position);
      ConsumePublished(ring[..], window, position);
      ConsumePlacement(window, taken, tracker.borrows);
      bid := ring[head % count];
      assert Place(position + 0, count) == Place(position, count) && bid == window[0];
      head := (head + 1) % U16;
      taken, window, position := taken + {bid}, window[1..], position + 1;
    }

    /** Adopts a buffer the kernel just reported: its first view.  It cannot be viewed already. */
    method Select(bid: nat, exclusive: bool, len: nat) returns (ghost v: nat)
      requires Valid() && bid in taken && len <= tracker.size
      modifies this`taken, tracker
      ensures Valid() && taken == old(taken) - {bid} && v !in old(tracker.views)
      ensures tracker.views == old(tracker.views)[v := View(bid, exclusive, 0, len)]
    {
      assert bid < |tracker.borrows| && tracker.borrows[bid] == 0;
      v := tracker.Take(bid, exclusive, len);
      taken := taken - {bid};
    }

    /** Cloning, narrowing, splitting and changing kind leave a viewed buffer viewed and the ring alone. */
    method ShareView(ghost v: nat, x: View, a: nat, b: nat) returns (r: Option<View>, ghost w: nat)
      requires Valid() && v in tracker.views && tracker.views[v] == x && !x.exclusive
      modifies tracker
      ensures Valid() && (r.Some? <==> a <= b <= x.len)
      ensures r.None? ==> tracker.views == old(tracker.views)
      ensures r.Some? ==>
                && r.value == View(x.slot, false, x.off + a, b - a)
                && w !in old(tracker.views) && tracker.views == old(tracker.views)[w := r.value]
    {
      if a > b || b > x.len {
        return None, v;
      }
      w := tracker.Share(v, a, b, x.slot);
      r := Some(View(x.slot, false, x.off + a, b - a));
    }

    /** Two halves of one exclusive view; a split behind its end yields none, and the view, consumed by the
        call, is dropped. */
    method SplitView(ghost v: nat, x: View, mid: nat) returns (r: Option<(View, View)>, ghost w: nat)
      requires Valid() && v in tracker.views && tracker.views[v] == x && x.exclusive
      modifies this`tail, this`window, ring, tracker
      ensures Valid() && (r.Some? <==> mid <= x.len)
      ensures r.None? ==> tracker.views == old(tracker.views) - {v}
      ensures window == if r.None? && Holders(tracker.views, x.slot) == {} then old(window) + [x.slot] else old(window)
      ensures r.Some? ==>
                && r.value == (x.(len := mid), View(x.slot, true, x.off + mid, x.len - mid)) && w !in old(tracker.views)
                && tracker.views == old(tracker.views)[v := r.value.0][w := r.value.1]
    {
      if mid > x.len {
        DropView(v, x.slot, true);
        return None, v;
      }
      w := tracker.SplitAt(v, mid, x.slot);
      r := Some((x.(len := mid), View(x.slot, true, x.off + mid, x.len - mid)));
    }

    method FlipView(ghost v: nat, slot: nat)
      requires Valid() && v in tracker.views && tracker.views[v].slot == slot < |tracker.borrows|
      requires tracker.borrows[slot] == 1 || tracker.borrows[slot] == -1
      modifies tracker
      ensures Valid()
      ensures var x := old(tracker.views)[v]; tracker.views == old(tracker.views)[v := x.(exclusive := !x.exclusive)]
    {
      tracker.Flip(v, slot);
    }

    /** Drops one view; with the last one the buffer goes back into the ring. */
    method DropView(ghost v: nat, slot: nat, exclusive: bool)
      requires Valid() && v in tracker.views && tracker.views[v].slot == slot && tracker.views[v].exclusive == exclusive
      modifies this`tail, this`window, ring, tracker
      ensures Valid() && tracker.views == old(tracker.views) - {v}
      ensures window == if Holders(tracker.views, slot) == {} then old(window) + [slot] else old(window)
    {
      ViewTells(tracker.borrows, tracker.views, v);
      assert slot < count && slot !in window && slot !in taken;
      var last := tracker.Drop(v, slot, exclusive);
      if last {
        Recycle(slot);
      }
    }

    /** `recycle_buffer`: writes a descriptor at the tail and publishes it. */
    method Recycle(slot: nat)
      requires RingCount(count) && ring.Length == count && tracker.Valid() && |tracker.borrows| == count
      requires head == position % U16 && tail == (position + |window|) % U16 && Published(ring[..], window, position)
      requires slot < count && slot !in window && slot !in taken && tracker.borrows[slot] == 0
      requires PlacementBut(window, taken, tracker.borrows, slot)
      modifies this`tail, this`window, ring
      ensures Valid() && window == old(window) + [slot]
    {
      RoomFor(window, count, slot);
      MaskedPlace(position + |window|, count);
      WrapNext(position + |window|);
      RecyclePublished(ring[..], window, position, slot);
      RecyclePlacement(window, taken, tracker.borrows, slot);
      hide Published, Placement, PlacementBut;
      ghost var was := ring[..];
      ring[tail % count] := slot;
      assert ring[..] == was[Place(position + |window|, count) := slot];
      tail := (tail + 1) % U16;
      window := window + [slot];
    }
  }
  /** As long as some buffer is outside the window, the descriptor at the tail is not one the kernel has still to
      read: recycling never overwrites an unconsumed descriptor, however often the counters have wrapped. */
  lemma TailIsFree(s: ProvidedSlab, slot: nat, k: nat)
    requires s.Valid() && slot < s.count && slot !in s.window && k < |s.window|
    ensures s.count > 0 && |s.window| < s.count
    ensures Place((s.head + k) % U16, s.count) != Place(s.tail, s.count)
    ensures s.ring[Place((s.head + k) % U16, s.count)] == s.window[k]
  {
    RoomFor(s.window, s.count, slot);
    MaskedPlace(s.position + |s.window|, s.count);
    WrapAhead(s.position, k);
    MaskedPlace(s.position + k, s.count);
    DistinctPlaces(s.position + k, s.position + |s.window|, s.count);
    hide Place, RingCount, Placement;
  }

  lemma WrapAhead(x: nat, k: nat)
    ensures (x % U16 + k) % U16 == (x + k) % U16
  {
  }
}
