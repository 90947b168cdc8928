/** The arena is partitioned into runs, and what the shims therefore get. */
module ArenaProofs {
  import opened Wrappers
  import opened BufferArena

  // ── The partition ──────────────────────────────────────────────────

  datatype Holder = Free | Held(id: nat)

  /** The run a block belongs to, and who has it. */
  datatype Tile = Tile(start: nat, cls: nat, holder: Holder)

  /** Every block belongs to exactly one class-sized run, and all blocks of a run agree on it. */
  ghost predicate Tiled(tiles: seq<Tile>) {
    && (forall k :: 0 <= k < |tiles| ==>
          tiles[k].cls < 8 && tiles[k].start <= k < tiles[k].start + Size(tiles[k].cls) <= |tiles|)
    && (forall k, j :: 0 <= k < |tiles| && tiles[k].start <= j < tiles[k].start + Size(tiles[k].cls) ==>
          tiles[j] == tiles[k])
  }

  /** The links from `head` spell out `list` and end at the sentinel. */
  ghost predicate Chain(blocks: seq<Erased>, head: nat, list: seq<nat>)
    decreases list
  {
    if list == [] then head == BUF_NONE
    else head == list[0] && head < |blocks| && Chain(blocks, NextLink(blocks, head), list[1..])
  }

  /** The free list of a class holds exactly the free runs of that class, each once. */
  ghost predicate ListOf(a: Arena, tiles: seq<Tile>, list: seq<nat>, c: nat)
    requires c < |a.free|
  {
    && Chain(a.blocks, a.free[c], list) && Distinct(list)
    && forall f: nat :: f in list <==> f < |tiles| && tiles[f] == Tile(f, c, Free)
  }

  /** Every op's run is a run of its class held by that op, and every held run is some op's. */
  ghost predicate Owned(tiles: seq<Tile>, runs: map<nat, Run>) {
    && (forall id :: id in runs ==>
          0 < runs[id].len <= 1024 && runs[id].start < |tiles| &&
          tiles[runs[id].start] == Tile(runs[id].start, ClassFor(runs[id].len), Held(id)))
    && (forall k :: 0 <= k < |tiles| && tiles[k].holder.Held? ==>
          tiles[k].holder.id in runs && runs[tiles[k].holder.id].start == tiles[k].start)
  }

  ghost predicate Listed(a: Arena, tiles: seq<Tile>, lists: seq<seq<nat>>) {
    |a.free| == 8 == |lists| && forall c :: 0 <= c < 8 ==> ListOf(a, tiles, lists[c], c)
  }

  ghost predicate Partitioned(a: Arena, runs: map<nat, Run>, tiles: seq<Tile>, lists: seq<seq<nat>>) {
    |tiles| == |a.blocks| < BUF_NONE && Tiled(tiles) && Listed(a, tiles, lists) && Owned(tiles, runs)
  }

  ghost predicate Contains(blocks: seq<Erased>, r: Run, bufs: seq<Erased>) {
    r.start + r.len <= |blocks| && blocks[r.start..r.start + r.len] == bufs
  }

  /** Each op's run still holds the buffers the op was registered with. */
  ghost predicate Intact(t: Table) {
    forall id :: id in t.runs ==> id in t.given && Contains(t.arena.blocks, t.runs[id], t.given[id])
  }

  ghost predicate Sound(t: Table) {
    Intact(t) && exists tiles, lists :: Partitioned(t.arena, t.runs, tiles, lists)
  }

  // ── Chains ─────────────────────────────────────────────────────────

  /** Writing blocks whose links are not on the list leaves the list alone. */
  lemma {:induction false} ChainFrame(blocks: seq<Erased>, blocks': seq<Erased>, head: nat, list: seq<nat>)
    requires Chain(blocks, head, list) && |blocks| <= |blocks'|
    requires forall f :: f in list && f < |blocks| ==> blocks'[f].a == blocks[f].a
    ensures Chain(blocks', head, list)
    decreases list
  {
    if list != [] {
      assert list[0] in list;
      ChainFrame(blocks, blocks', NextLink(blocks, head), list[1..]);
    }
  }

  /** Heads and links determine the list. */
  lemma {:induction false} ChainUnique(blocks: seq<Erased>, head: nat, l1: seq<nat>, l2: seq<nat>)
    requires Chain(blocks, head, l1) && Chain(blocks, head, l2) && |blocks| < BUF_NONE
    ensures l1 == l2
    decreases l1
  {
    if l1 != [] && l2 != [] {
      ChainUnique(blocks, NextLink(blocks, head), l1[1..], l2[1..]);
      assert l1 == [head] + l1[1..] && l2 == [head] + l2[1..];
    }
  }

  // ── Allocation and release ─────────────────────────────────────────

  /** The tiles with the run at `start` of class `c` given to `h`. */
  ghost function Hand(tiles: seq<Tile>, start: nat, c: nat, h: Holder): seq<Tile>
    requires c < 8 && start + Size(c) <= |tiles|
  {
    seq(|tiles|, k requires 0 <= k < |tiles| => if start <= k < start + Size(c) then Tile(start, c, h) else tiles[k])
  }

  lemma HandTiled(tiles: seq<Tile>, start: nat, c: nat, h: Holder)
    requires Tiled(tiles) && c < 8 && start + Size(c) <= |tiles|
    requires tiles[start].start == start && tiles[start].cls == c
    ensures Tiled(Hand(tiles, start, c, h))
  {
    var tiles' := Hand(tiles, start, c, h);
    forall k, j | 0 <= k < |tiles'| && tiles'[k].start <= j < tiles'[k].start + Size(tiles'[k].cls)
      ensures tiles'[j] == tiles'[k]
    {
      if !(start <= k < start + Size(c)) {
        assert tiles[j] == tiles[k];
      }
    }
  }

  lemma HandHeld(tiles: seq<Tile>, runs: map<nat, Run>, run: Run, id: nat)
    requires Tiled(tiles) && Owned(tiles, runs) && 0 < run.len <= 1024 && id !in runs && run.start < |tiles|
    requires tiles[run.start] == Tile(run.start, ClassFor(run.len), Free)
    ensures Owned(Hand(tiles, run.start, ClassFor(run.len), Held(id)), runs[id := run])
  {
    var c := ClassFor(run.len);
    var tiles' := Hand(tiles, run.start, c, Held(id));
    forall k | run.start <= k < run.start + Size(c)
      ensures tiles[k] == tiles[run.start]
    {
    }
    forall j | j in runs
      ensures tiles'[runs[j].start] == tiles[runs[j].start]
    {
    }
  }

  lemma HandFree(tiles: seq<Tile>, runs: map<nat, Run>, id: nat)
    requires Tiled(tiles) && Owned(tiles, runs) && id in runs
    ensures Owned(Hand(tiles, runs[id].start, ClassFor(runs[id].len), Free), runs - {id})
  {
    var run := runs[id];
    var c := ClassFor(run.len);
    var tiles' := Hand(tiles, run.start, c, Free);
    forall k | run.start <= k < run.start + Size(c)
      ensures tiles[k] == tiles[run.start]
    {
    }
    forall j | j in runs && j != id
      ensures tiles'[runs[j].start] == tiles[runs[j].start]
    {
    }
    forall k | 0 <= k < |tiles'| && tiles'[k].holder.Held?
      ensures tiles'[k].holder.id in runs - {id} && (runs - {id})[tiles'[k].holder.id].start == tiles'[k].start
    {
      assert tiles'[k] == tiles[k];
    }
  }

  /** Lists after the run at `start` was taken off the list of its class. */
  lemma HandListed(a: Arena, tiles: seq<Tile>, lists: seq<seq<nat>>, start: nat, c: nat, id: nat)
    requires Tiled(tiles) && Listed(a, tiles, lists) && |a.blocks| == |tiles| < BUF_NONE
    requires c < 8 && lists[c] != [] && lists[c][0] == start && start < |tiles| && tiles[start] == Tile(start, c, Free)
    ensures Listed(a.(free := a.free[c := NextLink(a.blocks, start)]), Hand(tiles, start, c, Held(id)),
                   lists[c := lists[c][1..]])
  {
    var a' := a.(free := a.free[c := NextLink(a.blocks, start)]);
    var tiles', lists' := Hand(tiles, start, c, Held(id)), lists[c := lists[c][1..]];
    forall d | 0 <= d < 8
      ensures ListOf(a', tiles', lists'[d], d)
    {
      assert ListOf(a, tiles, lists[d], d);
      if d == c {
        assert lists[c] == [start] + lists[c][1..];
      }
      forall f: nat
        ensures f in lists'[d] <==> f < |tiles'| && tiles'[f] == Tile(f, d, Free)
      {
        if start <= f < start + Size(c) {
          assert tiles[f] == tiles[start];
        }
      }
    }
  }

  /** Lists after the held run at `start` went back on top of the list of its class. */
  lemma PushListed(a: Arena, tiles: seq<Tile>, lists: seq<seq<nat>>, start: nat, len: nat)
    requires Tiled(tiles) && Listed(a, tiles, lists) && |a.blocks| == |tiles| < BUF_NONE && 0 < len <= 1024
    requires start < |tiles| && tiles[start].start == start
    requires tiles[start].cls == ClassFor(len) && tiles[start].holder.Held?
    ensures var c := ClassFor(len);
            Listed(Release(a, start, len), Hand(tiles, start, c, Free), lists[c := [start] + lists[c]])
  {
    hide ListOf, Tiled;
    var c := ClassFor(len);
    assert start + Size(c) <= |tiles| by {
      TileFits(tiles, start);
    }
    var lists' := lists[c := [start] + lists[c]];
    forall d | 0 <= d < 8
      ensures ListOf(Release(a, start, len), Hand(tiles, start, c, Free), lists'[d], d)
    {
      PushList(a, tiles, lists[d], start, len, d);
    }
  }

  lemma TileFits(tiles: seq<Tile>, k: nat)
    requires Tiled(tiles) && k < |tiles|
    ensures tiles[k].cls < 8 && tiles[k].start + Size(tiles[k].cls) <= |tiles|
    ensures forall j :: tiles[k].start <= j < tiles[k].start + Size(tiles[k].cls) ==> tiles[j] == tiles[k]
  {
  }

  /** The released run becomes the head of its class's list, and its first block links to the old head. */
  lemma PushChain(a: Arena, list: seq<nat>, start: nat, len: nat, d: nat)
    requires |a.free| == 8 && d < 8 && Chain(a.blocks, a.free[d], list) && |a.blocks| < BUF_NONE && 0 < len <= 1024
    requires start < |a.blocks| && start !in list
    ensures var c := ClassFor(len); var a' := Release(a, start, len);
            Chain(a'.blocks, a'.free[d], if d == c then [start] + list else list)
  {
    var a' := Release(a, start, len);
    ChainFrame(a.blocks, a'.blocks, a.free[d], list);
    if d == ClassFor(len) {
      assert ([start] + list)[1..] == list;
      assert NextLink(a'.blocks, start) == a.free[d];
    }
  }

  lemma PushList(a: Arena, tiles: seq<Tile>, list: seq<nat>, start: nat, len: nat, d: nat)
    requires Tiled(tiles) && |a.free| == 8 && d < 8 && ListOf(a, tiles, list, d)
    requires |a.blocks| == |tiles| < BUF_NONE && 0 < len <= 1024
    requires start < |tiles| && tiles[start].start == start
    requires tiles[start].cls == ClassFor(len) && tiles[start].holder.Held?
    requires start + Size(ClassFor(len)) <= |tiles|
    ensures var c := ClassFor(len);
            ListOf(Release(a, start, len), Hand(tiles, start, c, Free), if d == c then [start] + list else list, d)
  {
    var c := ClassFor(len);
    var tiles', list' := Hand(tiles, start, c, Free), if d == c then [start] + list else list;
    TileFits(tiles, start);
    assert start !in list;
    PushChain(a, list, start, len, d);
    hide Tiled, ClassFor, Chain, Release;
    forall f: nat
      ensures f in list' <==> f < |tiles'| && tiles'[f] == Tile(f, d, Free)
    {
      if start <= f < start + Size(c) {
        assert tiles[f] == tiles[start];
      }
    }
  }

  /** Overwriting blocks of held runs leaves every list alone. */
  lemma WriteListed(a: Arena, tiles: seq<Tile>, lists: seq<seq<nat>>, start: nat, bufs: seq<Erased>)
    requires Listed(a, tiles, lists) && |a.blocks| == |tiles| && start + |bufs| <= |a.blocks|
    requires forall k :: start <= k < start + |bufs| ==> tiles[k].holder.Held?
    ensures Listed(a.(blocks := Write(a.blocks, start, bufs)), tiles, lists)
  {
    var a' := a.(blocks := Write(a.blocks, start, bufs));
    forall d | 0 <= d < 8
      ensures ListOf(a', tiles, lists[d], d)
    {
      assert ListOf(a, tiles, lists[d], d);
      ChainFrame(a.blocks, a'.blocks, a.free[d], lists[d]);
    }
  }

  /** Growing the arena by one fresh run held by `id`. */
  lemma GrowListed(a: Arena, tiles: seq<Tile>, lists: seq<seq<nat>>, c: nat, id: nat, more: seq<Erased>)
    requires Listed(a, tiles, lists) && |a.blocks| == |tiles| && c < 8 && |more| == Size(c)
    ensures Listed(a.(blocks := a.blocks + more), tiles + seq(Size(c), _ => Tile(|tiles|, c, Held(id))), lists)
  {
    var a', tiles' := a.(blocks := a.blocks + more), tiles + seq(Size(c), _ => Tile(|tiles|, c, Held(id)));
    forall d | 0 <= d < 8
      ensures ListOf(a', tiles', lists[d], d)
    {
      assert ListOf(a, tiles, lists[d], d);
      ChainFrame(a.blocks, a'.blocks, a.free[d], lists[d]);
    }
  }

  // ── Registration ───────────────────────────────────────────────────

  lemma ShapedArena(a: Arena, tiles: seq<Tile>, lists: seq<seq<nat>>)
    requires Listed(a, tiles, lists)
    ensures Shaped(a)
  {
    forall d | 0 <= d < 8
      ensures a.free[d] == BUF_NONE || a.free[d] < |a.blocks|
    {
      assert ListOf(a, tiles, lists[d], d);
    }
  }

  lemma PopPartitioned(a: Arena, runs: map<nat, Run>, tiles: seq<Tile>, lists: seq<seq<nat>>, len: nat, id: nat)
    returns (tiles': seq<Tile>, lists': seq<seq<nat>>)
    requires Partitioned(a, runs, tiles, lists) && id !in runs && CanAlloc(a, len) && a.free[ClassFor(len)] != BUF_NONE
    ensures var (a', start) := Alloc(a, len);
      Partitioned(a', runs[id := Run(start, len)], tiles', lists') && a'.blocks == a.blocks
  {
    var c := ClassFor(len);
    var start := a.free[c];
    assert lists[c] != [] && lists[c][0] == start && tiles[start] == Tile(start, c, Free) by {
      assert ListOf(a, tiles, lists[c], c);
      assert lists[c][0] in lists[c];
    }
    tiles', lists' := Hand(tiles, start, c, Held(id)), lists[c := lists[c][1..]];
    HandTiled(tiles, start, c, Held(id));
    HandHeld(tiles, runs, Run(start, len), id);
    HandListed(a, tiles, lists, start, c, id);
    hide Tiled, Listed, Owned;
  }

  lemma GrowTiled(tiles: seq<Tile>, c: nat, id: nat)
    requires Tiled(tiles) && c < 8
    ensures Tiled(tiles + seq(Size(c), _ => Tile(|tiles|, c, Held(id))))
  {
  }

  lemma GrowOwned(tiles: seq<Tile>, runs: map<nat, Run>, len: nat, id: nat, more: seq<Tile>)
    requires Owned(tiles, runs) && 0 < len <= 1024 && id !in runs && |more| > 0
    requires forall k :: 0 <= k < |more| ==> more[k] == Tile(|tiles|, ClassFor(len), Held(id))
    ensures Owned(tiles + more, runs[id := Run(|tiles|, len)])
  {
    hide ClassFor;
    forall j | j in runs
      ensures (tiles + more)[runs[j].start] == tiles[runs[j].start]
    {
    }
  }

  lemma GrowPartitioned(a: Arena, runs: map<nat, Run>, tiles: seq<Tile>, lists: seq<seq<nat>>, len: nat, id: nat)
    returns (tiles': seq<Tile>, lists': seq<seq<nat>>)
    requires Partitioned(a, runs, tiles, lists) && id !in runs && CanAlloc(a, len) && a.free[ClassFor(len)] == BUF_NONE
    ensures var (a', start) := Alloc(a, len);
      Partitioned(a', runs[id := Run(start, len)], tiles', lists') && a.blocks <= a'.blocks
  {
    hide Tiled, Owned, Listed;
    var c := ClassFor(len);
    tiles', lists' := tiles + seq(Size(c), _ => Tile(|tiles|, c, Held(id))), lists;
    GrowListed(a, tiles, lists, c, id, seq(Size(c), _ => NO_BUF));
    GrowTiled(tiles, c, id);
    GrowOwned(tiles, runs, len, id, seq(Size(c), _ => Tile(|tiles|, c, Held(id))));
  }

  /** A partition after a run for `id` was carved out, whichever way `alloc` went. */
  lemma AllocPartitioned(a: Arena, runs: map<nat, Run>, tiles: seq<Tile>, lists: seq<seq<nat>>, len: nat, id: nat)
    returns (tiles': seq<Tile>, lists': seq<seq<nat>>)
    requires Partitioned(a, runs, tiles, lists) && id !in runs && CanAlloc(a, len)
    ensures var (a', start) := Alloc(a, len);
      Partitioned(a', runs[id := Run(start, len)], tiles', lists') && a.blocks <= a'.blocks
  {
    hide Partitioned;
    if a.free[ClassFor(len)] != BUF_NONE {
      tiles', lists' := PopPartitioned(a, runs, tiles, lists, len, id);
    } else {
      tiles', lists' := GrowPartitioned(a, runs, tiles, lists, len, id);
    }
  }

  /** The blocks of a run are the run's own. */
  lemma RunBlocks(tiles: seq<Tile>, runs: map<nat, Run>, id: nat, k: nat)
    requires Tiled(tiles) && Owned(tiles, runs) && id in runs && runs[id].start <= k < runs[id].start + runs[id].len
    ensures k < |tiles| && tiles[k] == Tile(runs[id].start, ClassFor(runs[id].len), Held(id))
  {
    assert tiles[runs[id].start].start == runs[id].start;
  }

  /** Writing one op's run does not touch another's. */
  lemma WriteOthers(a: Arena, runs: map<nat, Run>, tiles: seq<Tile>, lists: seq<seq<nat>>, id: nat, bufs: seq<Erased>,
                    other: nat, theirs: seq<Erased>)
    requires Partitioned(a, runs, tiles, lists) && id in runs && other in runs && other != id
    requires |bufs| == runs[id].len && runs[id].start + |bufs| <= |a.blocks| && Contains(a.blocks, runs[other], theirs)
    ensures Contains(Write(a.blocks, runs[id].start, bufs), runs[other], theirs)
  {
    var r := runs[other];
    forall k | r.start <= k < r.start + r.len
      ensures Write(a.blocks, runs[id].start, bufs)[k] == a.blocks[k]
    {
      RunBlocks(tiles, runs, other, k);
      if runs[id].start <= k < runs[id].start + |bufs| {
        RunBlocks(tiles, runs, id, k);
      }
    }
  }

  /** A partition with `id`'s run filled with its buffers. */
  lemma FillPartitioned(a: Arena, runs: map<nat, Run>, tiles: seq<Tile>, lists: seq<seq<nat>>, id: nat,
                        bufs: seq<Erased>)
    requires Partitioned(a, runs, tiles, lists) && id in runs && |bufs| == runs[id].len
    ensures runs[id].start + |bufs| <= |a.blocks|
    ensures Partitioned(a.(blocks := Write(a.blocks, runs[id].start, bufs)), runs, tiles, lists)
  {
    RunBlocks(tiles, runs, id, runs[id].start + |bufs| - 1);
    forall k | runs[id].start <= k < runs[id].start + |bufs|
      ensures tiles[k].holder.Held?
    {
      RunBlocks(tiles, runs, id, k);
    }
    WriteListed(a, tiles, lists, runs[id].start, bufs);
  }

  /** A partition after `id`'s run went back to its free list. */
  lemma ReleasePartitioned(a: Arena, runs: map<nat, Run>, tiles: seq<Tile>, lists: seq<seq<nat>>, id: nat)
    returns (tiles': seq<Tile>, lists': seq<seq<nat>>)
    requires Partitioned(a, runs, tiles, lists) && id in runs
    ensures InRange(a, runs[id]) && Partitioned(Release(a, runs[id].start, runs[id].len), runs - {id}, tiles', lists')
  {
    var r := runs[id];
    var c := ClassFor(r.len);
    RunBlocks(tiles, runs, id, r.start + r.len - 1);
    tiles', lists' := Hand(tiles, r.start, c, Free), lists[c := [r.start] + lists[c]];
    HandTiled(tiles, r.start, c, Free);
    HandFree(tiles, runs, id);
    PushListed(a, tiles, lists, r.start, r.len);
    hide Tiled, Listed, Owned;
  }

  /** Releasing one op's run does not touch another's buffers: only the run's own first block is written. */
  lemma ReleaseOthers(a: Arena, runs: map<nat, Run>, tiles: seq<Tile>, lists: seq<seq<nat>>, id: nat, other: nat,
                      theirs: seq<Erased>)
    requires Partitioned(a, runs, tiles, lists) && id in runs && other in runs && other != id
    requires Contains(a.blocks, runs[other], theirs) && InRange(a, runs[id])
    ensures Contains(Release(a, runs[id].start, runs[id].len).blocks, runs[other], theirs)
  {
    var r, a' := runs[other], Release(a, runs[id].start, runs[id].len);
    forall k | r.start <= k < r.start + r.len
      ensures a'.blocks[k] == a.blocks[k]
    {
      RunBlocks(tiles, runs, other, k);
      RunBlocks(tiles, runs, id, runs[id].start);
    }
  }

  lemma FillIntact(t: Table, a: Arena, runs: map<nat, Run>, tiles: seq<Tile>, lists: seq<seq<nat>>, r: Registration)
    requires Intact(t) && Partitioned(a, runs, tiles, lists) && r.bufs != []
    requires r.id !in t.runs && t.arena.blocks <= a.blocks
    requires r.id in runs && runs == t.runs[r.id := runs[r.id]]
    requires runs[r.id].len == |r.bufs| && runs[r.id].start + |r.bufs| <= |a.blocks|
    ensures Intact(Table(a.(blocks := Write(a.blocks, runs[r.id].start, r.bufs)), runs, t.given[r.id := r.bufs]))
  {
    hide Partitioned;
    forall other | other in runs && other != r.id
      ensures Contains(Write(a.blocks, runs[r.id].start, r.bufs), runs[other], t.given[other])
    {
      assert Contains(t.arena.blocks, runs[other], t.given[other]);
      assert a.blocks[..|t.arena.blocks|] == t.arena.blocks;
      WriteOthers(a, runs, tiles, lists, r.id, r.bufs, other, t.given[other]);
    }
  }

  lemma ReleaseIntact(t: Table, id: nat, tiles: seq<Tile>, lists: seq<seq<nat>>)
    requires Intact(t) && Partitioned(t.arena, t.runs, tiles, lists) && id in t.runs && InRange(t.arena, t.runs[id])
    ensures Intact(t.(arena := Release(t.arena, t.runs[id].start, t.runs[id].len), runs := t.runs - {id}))
  {
    hide Partitioned, Contains;
    forall other | other in t.runs && other != id
      ensures Contains(Release(t.arena, t.runs[id].start, t.runs[id].len).blocks, t.runs[other], t.given[other])
    {
      ReleaseOthers(t.arena, t.runs, tiles, lists, id, other, t.given[other]);
    }
  }

  /** What the table looks like once a registration's run is carved and filled. */
  lemma CarveSound(t: Table, r: Registration) returns (full: Table, tiles: seq<Tile>, lists: seq<seq<nat>>)
    requires Sound(t) && CanRegister(t, r) && r.bufs != []
    ensures var (a, start) := Alloc(t.arena, |r.bufs|);
            && start + |r.bufs| <= |a.blocks|
            && full == Table(a.(blocks := Write(a.blocks, start, r.bufs)), t.runs[r.id := Run(start, |r.bufs|)],
                             t.given[r.id := r.bufs])
            && Intact(full) && Partitioned(full.arena, full.runs, tiles, lists)
  {
    var tiles0, lists0 :| Partitioned(t.arena, t.runs, tiles0, lists0);
    hide Partitioned, Intact;
    tiles, lists := AllocPartitioned(t.arena, t.runs, tiles0, lists0, |r.bufs|, r.id);
    var (a, start) := Alloc(t.arena, |r.bufs|);
    var runs := t.runs[r.id := Run(start, |r.bufs|)];
    FillPartitioned(a, runs, tiles, lists, r.id, r.bufs);
    FillIntact(t, a, runs, tiles, lists, r);
    full := Table(a.(blocks := Write(a.blocks, start, r.bufs)), runs, t.given[r.id := r.bufs]);
  }

  /** Registering keeps the table sound, armed or not. */
  lemma RegisterSound(t: Table, r: Registration)
    requires Sound(t) && CanRegister(t, r)
    ensures var t' := DoRegister(t, r);
            && Sound(t') && t'.runs.Keys == t.runs.Keys + (if r.bufs != [] && r.armed then {r.id} else {})
            && forall id :: id in t.runs ==>
                t'.runs[id] == t.runs[id] && id in t.given && id in t'.given && t'.given[id] == t.given[id]
  {
    hide Partitioned, Contains, Alloc, Release, Write, CanAlloc;
    if r.bufs != [] {
      var full, tiles, lists := CarveSound(t, r);
      if !r.armed {
        var tiles2, lists2 := ReleasePartitioned(full.arena, full.runs, tiles, lists, r.id);
        ReleaseIntact(full, r.id, tiles, lists);
        assert full.runs - {r.id} == t.runs;
      }
    }
  }

  /** In a sound table whatever may be registered gets a run inside the arena. */
  lemma SoundFits(t: Table, r: Registration)
    requires Sound(t) && CanRegister(t, r)
    ensures Fits(t, r)
  {
    hide Sound, Alloc, CanAlloc;
    if r.bufs != [] {
      var full, tiles, lists := CarveSound(t, r);
    }
  }

  /** What the source itself asserts of a registration: at most 1024 buffers, and room if the class has no free run. */
  predicate Admits(a: Arena, len: nat) {
    && |a.free| == 8 && len <= 1024
    && (a.free[ClassFor(len)] != BUF_NONE || |a.blocks| + Size(ClassFor(len)) < BUF_NONE)
  }

  /** In an arena that is some sound table's (its own, or the one left to a shim), a registration is possible
      exactly when its id is fresh and the source's own assertions hold. */
  lemma CanRegisterIff(t: Table, sound: Table, r: Registration)
    requires Sound(sound) && sound.arena == t.arena
    ensures CanRegister(t, r) <==> r.id !in t.runs && (r.bufs != [] ==> Admits(t.arena, |r.bufs|))
  {
    var tiles, lists :| Partitioned(sound.arena, sound.runs, tiles, lists);
    ShapedArena(sound.arena, tiles, lists);
  }

  /** The same for what a shim registers, whatever it registered before. */
  lemma ShimCanRegisterIff(t: Table, rs: seq<Registration>, r: Registration)
    requires t.arena == EMPTY_ARENA && CanRegisterAll(t, rs)
    ensures var now := DoRegisterAll(t, rs);
      CanRegister(now, r) <==> r.id !in now.runs && (r.bufs != [] ==> Admits(now.arena, |r.bufs|))
  {
    hide Sound, CanRegister, Admits, DoRegister;
    ShimRuns(t, rs);
    CanRegisterIff(DoRegisterAll(t, rs), DoRegisterAll(NO_TABLE, rs), r);
  }

  // ── Dispatch ───────────────────────────────────────────────────────

  lemma {:induction false} RegisterAllSound(t: Table, rs: seq<Registration>)
    requires Sound(t) && CanRegisterAll(t, rs)
    ensures var t' := DoRegisterAll(t, rs);
            && Sound(t') && t'.runs.Keys == t.runs.Keys + Buffered(rs)
            && forall id :: id in t.runs ==>
                t'.runs[id] == t.runs[id] && id in t.given && id in t'.given && t'.given[id] == t.given[id]
  {
    hide Sound, DoRegister, CanRegister;
    if rs == [] {
      GivenIsKnown(t);
    } else {
      var n := |rs| - 1;
      RegisterAllSound(t, rs[..n]);
      RegisterSound(DoRegisterAll(t, rs[..n]), rs[n]);
      BufferedSnoc(rs);
    }
  }

  lemma GivenIsKnown(t: Table)
    requires Sound(t)
    ensures forall id :: id in t.runs ==> id in t.given
  {
  }

  lemma BufferedSnoc(rs: seq<Registration>)
    requires rs != []
    ensures var r := rs[|rs| - 1];
            Buffered(rs) == Buffered(rs[..|rs| - 1]) + if r.bufs != [] && r.armed then {r.id} else {}
  {
    assert rs == rs[..|rs| - 1] + [rs[|rs| - 1]];
  }

  const NO_TABLE := Table(EMPTY_ARENA, map[], map[])

  lemma EmptySound()
    ensures Sound(NO_TABLE)
  {
    var lists: seq<seq<nat>> := [[], [], [], [], [], [], [], []];
    forall c | 0 <= c < 8
      ensures ListOf(EMPTY_ARENA, [], lists[c], c)
    {
    }
    assert Partitioned(EMPTY_ARENA, map[], [], lists);
  }

  /** The same registration on two tables with the same arena, one of them sound. */
  lemma ShimStep(t: Table, u: Table, r: Registration)
    requires t.arena == u.arena && Sound(u) && u.runs.Keys <= t.runs.Keys && CanRegister(t, r)
    ensures var t' := DoRegister(t, r); var u' := DoRegister(u, r);
            && CanRegister(u, r) && Sound(u') && u'.arena == t'.arena && u'.runs.Keys <= t'.runs.Keys
            && t'.runs.Keys == t.runs.Keys + (if r.bufs != [] && r.armed then {r.id} else {})
            && (forall id :: id in t.runs ==> t'.runs[id] == t.runs[id])
            && (forall id :: id in t.given && id != r.id ==> id in t'.given && t'.given[id] == t.given[id])
            && (!r.armed || r.bufs == [] ==> t'.given == t.given)
  {
    hide Sound, CanAlloc, Alloc, Release, Write, Intact, Partitioned;
    RegisterSound(u, r);
    if r.bufs != [] {
      var full, tiles, lists := CarveSound(u, r);
    }
  }

  /** What a shim registers goes into the table of runs, whatever else that table holds.  The same
      registrations on an empty table keep the arena the same and sound. */
  lemma {:induction false} ShimRuns(t: Table, rs: seq<Registration>)
    requires t.arena == EMPTY_ARENA && CanRegisterAll(t, rs)
    ensures var t' := DoRegisterAll(t, rs); var u := DoRegisterAll(NO_TABLE, rs);
            && CanRegisterAll(NO_TABLE, rs) && Sound(u) && u.arena == t'.arena && u.runs.Keys <= t'.runs.Keys
            && t'.runs.Keys == t.runs.Keys + Buffered(rs)
            && (forall id :: id in t.runs ==> t'.runs[id] == t.runs[id])
            && (forall id :: id in t.given && id !in Buffered(rs) ==> id in t'.given && t'.given[id] == t.given[id])
  {
    hide Sound, DoRegister, CanRegister;
    EmptySound();
    if rs != [] {
      var n := |rs| - 1;
      ShimRuns(t, rs[..n]);
      ShimStep(DoRegisterAll(t, rs[..n]), DoRegisterAll(NO_TABLE, rs[..n]), rs[n]);
      BufferedSnoc(rs);
      hide Buffered;
    }
  }

  lemma RunContents(t: Table, id: nat)
    requires Sound(t) && id in t.runs
    ensures InRange(t.arena, t.runs[id]) && id in t.given && Contains(t.arena.blocks, t.runs[id], t.given[id])
  {
    hide Partitioned, Contains;
    var tiles, lists :| Partitioned(t.arena, t.runs, tiles, lists);
    var _, _ := ReleasePartitioned(t.arena, t.runs, tiles, lists, id);
  }

  /** The shim gets exactly the buffers its op was registered with; an op without buffers gets none. */
  lemma SliceIsGiven(t: Table, d: Dispatch)
    requires Sound(t) && CanDispatch(t, d)
    ensures d.id in t.runs ==> d.id in t.given
    ensures SliceFor(t, d) == Some(if d.id in t.runs then t.given[d.id] else [])
  {
    hide Sound, CanRegisterAll;
    RegisterAllSound(t, d.onCancel);
    if d.id in t.runs {
      RunContents(DoRegisterAll(t, d.onCancel), d.id);
    }
  }

  /** There is no room for one more run in an arena that is already partitioned among others. */
  lemma NoRoom(a: Arena, runs: map<nat, Run>, tiles: seq<Tile>, lists: seq<seq<nat>>,
               runs': map<nat, Run>, tiles': seq<Tile>, lists': seq<seq<nat>>, x: nat)
    requires Partitioned(a, runs, tiles, lists) && Partitioned(a, runs', tiles', lists')
    requires forall id :: id in runs ==> id in runs' && runs'[id] == runs[id]
    ensures x in runs' ==> x in runs
  {
    if x in runs' {
      var k := runs'[x].start;
      var tile := tiles[k];
      assert tiles[tile.start] == tile;
      if tile.holder.Held? {
        assert tiles'[k] == tiles'[tile.start];
      } else {
        assert ListOf(a, tiles, lists[tile.cls], tile.cls) && ListOf(a, tiles', lists'[tile.cls], tile.cls);
        ChainUnique(a.blocks, a.free[tile.cls], lists[tile.cls], lists'[tile.cls]);
      }
    }
  }

  /** The table right after the completed op's run was released, leaving out what its shim registered. */
  ghost function WithoutShim(t: Table, d: Dispatch): Table {
    var t2 := DoRegisterAll(t, d.onCancel);
    if d.id !in t2.runs || !InRange(t2.arena, t2.runs[d.id]) then t2
    else t2.(arena := Release(t2.arena, t2.runs[d.id].start, t2.runs[d.id].len), runs := t2.runs - {d.id})
  }

  lemma WithoutShimSound(t: Table, d: Dispatch)
    requires Sound(t) && CanDispatch(t, d)
    ensures Sound(WithoutShim(t, d))
  {
    RegisterAllSound(t, d.onCancel);
    var t2 := DoRegisterAll(t, d.onCancel);
    if d.id in t2.runs {
      var tiles, lists :| Partitioned(t2.arena, t2.runs, tiles, lists);
      hide Partitioned, Contains;
      var tiles', lists' := ReleasePartitioned(t2.arena, t2.runs, tiles, lists, d.id);
      ReleaseIntact(t2, d.id, tiles, lists);
    }
  }

  lemma DispatchRuns(t: Table, d: Dispatch)
    requires CanDispatch(t, d)
    ensures var t' := DoDispatch(t, d); var w := WithoutShim(t, d);
            && t'.arena == w.arena && t'.runs.Keys == w.runs.Keys + Buffered(d.onOp)
            && (forall id :: id in w.runs ==> t'.runs[id] == w.runs[id])
            && (Buffered(d.onOp) == {} ==> forall id :: id in w.given ==> id in t'.given && t'.given[id] == w.given[id])
  {
    hide CanRegisterAll, Release;
    var t2 := DoRegisterAll(t, d.onCancel);
    ShimRuns(t2.(arena := EMPTY_ARENA), d.onOp);
    assert d.id !in Buffered(d.onOp);
  }

  lemma CleanDispatch(t: Table, d: Dispatch)
    requires Sound(t) && CanDispatch(t, d) && Buffered(d.onOp) == {}
    ensures Sound(DoDispatch(t, d))
  {
    hide DoDispatch, WithoutShim, CanDispatch, Contains, Partitioned, Buffered;
    var t', w := DoDispatch(t, d), WithoutShim(t, d);
    WithoutShimSound(t, d);
    DispatchRuns(t, d);
    assert t'.runs == w.runs;
  }

  lemma DirtyDispatch(t: Table, d: Dispatch)
    requires Sound(t) && CanDispatch(t, d) && Sound(DoDispatch(t, d))
    ensures Buffered(d.onOp) == {}
  {
    hide DoDispatch, WithoutShim, CanDispatch, Intact, Partitioned, Buffered;
    var t', w := DoDispatch(t, d), WithoutShim(t, d);
    WithoutShimSound(t, d);
    DispatchRuns(t, d);
    var tiles, lists :| Partitioned(w.arena, w.runs, tiles, lists);
    var tiles', lists' :| Partitioned(t'.arena, t'.runs, tiles', lists');
    forall x | x in Buffered(d.onOp)
      ensures false
    {
      NoRoom(w.arena, w.runs, tiles, lists, t'.runs, tiles', lists', x);
      FreshShimId(t, d, x);
    }
  }

  /** Putting the old arena back over the shim's is harmless exactly when the shim armed no buffered op. */
  lemma DispatchSoundIff(t: Table, d: Dispatch)
    requires Sound(t) && CanDispatch(t, d)
    ensures Sound(DoDispatch(t, d)) <==> Buffered(d.onOp) == {}
  {
    hide Sound, DoDispatch, CanDispatch, Buffered;
    if Buffered(d.onOp) == {} {
      CleanDispatch(t, d);
    } else if Sound(DoDispatch(t, d)) {
      DirtyDispatch(t, d);
    }
  }

  /** A registration's id is not one already in the table. */
  lemma FreshShimId(t: Table, d: Dispatch, x: nat)
    requires CanDispatch(t, d) && x in Buffered(d.onOp)
    ensures x !in WithoutShim(t, d).runs
  {
    var t2 := DoRegisterAll(t, d.onCancel);
    FreshIds(t2.(arena := EMPTY_ARENA), d.onOp, x);
  }

  lemma {:induction false} FreshIds(t: Table, rs: seq<Registration>, x: nat)
    requires t.arena == EMPTY_ARENA && CanRegisterAll(t, rs) && x in Buffered(rs)
    ensures x !in t.runs
  {
    var n := |rs| - 1;
    BufferedSnoc(rs);
    ShimRuns(t, rs[..n]);
    if x in Buffered(rs[..n]) {
      FreshIds(t, rs[..n], x);
    }
  }
}

/** What the op shims are given, over whole runs, and the run on which they are given the wrong thing. */
module ArenaTheorems {
  import opened Wrappers
  import opened BufferArena
  import opened ArenaProofs

  /** An op is registered outside any dispatch, or one is dispatched. */
  datatype Use = Enter(r: Registration) | Leave(d: Dispatch)

  function Apply(t: Table, x: Use): Table {
    match x
    case Enter(r) => DoRegister(t, r)
    case Leave(d) => DoDispatch(t, d)
  }

  predicate CanApply(t: Table, x: Use) {
    match x
    case Enter(r) => CanRegister(t, r)
    case Leave(d) => CanDispatch(t, d)
  }

  function ApplyAll(t: Table, xs: seq<Use>): Table {
    if xs == [] then t else Apply(ApplyAll(t, xs[..|xs| - 1]), xs[|xs| - 1])
  }

  predicate CanApplyAll(t: Table, xs: seq<Use>) {
    xs == [] || (CanApplyAll(t, xs[..|xs| - 1]) && CanApply(ApplyAll(t, xs[..|xs| - 1]), xs[|xs| - 1]))
  }

  /** No op's shim armed a buffered op. */
  ghost predicate Clean(xs: seq<Use>) {
    forall k :: 0 <= k < |xs| && xs[k].Leave? ==> Buffered(xs[k].d.onOp) == {}
  }

  lemma {:induction false} CleanRunSound(xs: seq<Use>)
    requires Clean(xs) && CanApplyAll(NO_TABLE, xs)
    ensures Sound(ApplyAll(NO_TABLE, xs))
  {
    hide Sound, CanRegister, CanDispatch, DoRegister, DoDispatch;
    if xs == [] {
      EmptySound();
    } else {
      var n := |xs| - 1;
      CleanRunSound(xs[..n]);
      match xs[n]
      case Enter(r) =>
        RegisterSound(ApplyAll(NO_TABLE, xs[..n]), r);
      case Leave(d) =>
        DispatchSoundIff(ApplyAll(NO_TABLE, xs[..n]), d);
    }
  }

  /** In a run whose shims arm no buffered op, every shim gets exactly the buffers its op was registered with,
      whatever the cancel callbacks register in the meantime. */
  lemma ShimsGetTheirBuffers(xs: seq<Use>, d: Dispatch)
    requires Clean(xs) && CanApplyAll(NO_TABLE, xs) && CanDispatch(ApplyAll(NO_TABLE, xs), d)
    ensures var t := ApplyAll(NO_TABLE, xs);
            && (d.id in t.runs ==> d.id in t.given)
            && SliceFor(t, d) == Some(if d.id in t.runs then t.given[d.id] else [])
  {
    hide CanApplyAll, ApplyAll, CanDispatch, Sound, SliceFor, Clean;
    CleanRunSound(xs);
    SliceIsGiven(ApplyAll(NO_TABLE, xs), d);
  }

  const CLASS_SIZES: seq<nat> := [1, 2, 4, 8, 16, 64, 256, 1024]

  /** Where `alloc` takes a run from: the smallest class that holds it, the run on top of that class's list if there
      is one, and otherwise exactly one more run of that class behind everything else. */
  lemma AllocTakes(a: Arena, len: nat, c: nat)
    requires CanAlloc(a, len) && c < 8 && len <= CLASS_SIZES[c] && (c > 0 ==> CLASS_SIZES[c - 1] < len)
    ensures var (a', start) := Alloc(a, len);
      if a.free[c] != 0xFFFF_FFFF then a'.blocks == a.blocks && start == a.free[c]
      else
        && start == |a.blocks| && a.blocks <= a'.blocks && |a'.blocks| == |a.blocks| + CLASS_SIZES[c]
        && a'.free == a.free
  {
    assert ClassFor(len) == c;
  }

  /** A released run is the next one its class hands out, and the list is then as it was. */
  lemma ReleasedIsReused(a: Arena, start: nat, len: nat, again: nat)
    requires Shaped(a) && |a.blocks| < BUF_NONE && start < |a.blocks| && 0 < len <= 1024 && 0 < again <= 1024
    requires ClassFor(len) == ClassFor(again)
    ensures var (a', next) := Alloc(Release(a, start, len), again); next == start && a'.free == a.free
  {
    var c := ClassFor(len);
    assert a.free[c] % 0x1_0000_0000 == a.free[c];
    assert Release(a, start, len).free[c := a.free[c]] == a.free;
  }

  const MINE := Erased(5, 6)
  const YOURS := Erased(7, 8)
  const NESTED := Registration(2, [YOURS], true)

  /** A shim that registers a buffered op.  Op 1 completes and its shim registers op 2, whose buffer goes into
      the arena that is thrown away; op 2's shim is then handed what is left of op 1's. */
  lemma NestedRegistrationGetsAnothersBuffer()
    ensures var t := DoRegister(NO_TABLE, Registration(1, [MINE], true));
            && CanDispatch(t, Dispatch(1, [], [NESTED]))
            && SliceFor(DoDispatch(t, Dispatch(1, [], [NESTED])), Dispatch(2, [], []))
               == Some([Erased(BUF_NONE, MINE.b)])
  {
    assert ClassFor(1) == 0;
    var t := DoRegister(NO_TABLE, Registration(1, [MINE], true));
    var one := Arena([MINE], EMPTY_ARENA.free);
    assert EMPTY_ARENA.blocks + seq(1, _ => NO_BUF) == [NO_BUF] && Write([NO_BUF], 0, [MINE]) == [MINE];
    assert t == Table(one, map[1 := Run(0, 1)], map[1 := [MINE]]);
    var shim := t.(arena := EMPTY_ARENA);
    assert Write([NO_BUF], 0, [YOURS]) == [YOURS];
    assert DoRegister(shim, NESTED) ==
           Table(Arena([YOURS], EMPTY_ARENA.free), map[1 := Run(0, 1), 2 := Run(0, 1)], map[1 := [MINE], 2 := [YOURS]]);
    assert [NESTED][..0] == [] && DoRegisterAll(shim, [NESTED]) == DoRegister(shim, NESTED);
    var t' := DoDispatch(t, Dispatch(1, [], [NESTED]));
    assert t'.runs[2] == Run(0, 1) && t'.arena.blocks == [Erased(BUF_NONE, MINE.b)];
  }

  /** The same with no buffer in the outer arena: op 2's slice is out of range and the runtime panics. */
  lemma NestedRegistrationPanics()
    ensures CanDispatch(NO_TABLE, Dispatch(1, [], [NESTED]))
    ensures SliceFor(DoDispatch(NO_TABLE, Dispatch(1, [], [NESTED])), Dispatch(2, [], [])) == None
  {
    assert ClassFor(1) == 0;
    assert EMPTY_ARENA.blocks + seq(1, _ => NO_BUF) == [NO_BUF] && Write([NO_BUF], 0, [YOURS]) == [YOURS];
    assert [NESTED][..0] == [] && DoRegisterAll(NO_TABLE, [NESTED]) == DoRegister(NO_TABLE, NESTED);
    assert DoRegister(NO_TABLE, NESTED) ==
           Table(Arena([YOURS], EMPTY_ARENA.free), map[2 := Run(0, 1)], map[2 := [YOURS]]);
  }
}
