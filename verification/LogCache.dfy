/** Byte streams cut into newline-terminated lines. */
module Lines {
  type Byte = b: int | 0 <= b < 256

  const NL: Byte := 10

  /** Lines as they are stored and sent: each followed by a newline. */
  function Flat(lines: seq<seq<Byte>>): seq<Byte> {
    if lines == [] then [] else lines[0] + [NL] + Flat(lines[1..])
  }

  ghost predicate NewlineFree(lines: seq<seq<Byte>>) {
    forall i :: 0 <= i < |lines| ==> NL !in lines[i]
  }

  lemma {:induction false} FlatConcat(a: seq<seq<Byte>>, b: seq<seq<Byte>>)
    ensures Flat(a + b) == Flat(a) + Flat(b)
  {
    if a == [] {
      assert a + b == b;
    } else {
      FlatConcat(a[1..], b);
      assert (a + b)[1..] == a[1..] + b;
    }
  }

  lemma FlatSnoc(a: seq<seq<Byte>>, line: seq<Byte>)
    ensures Flat(a + [line]) == Flat(a) + line + [NL]
  {
    FlatConcat(a, [line]);
    assert Flat([line]) == line + [NL] + Flat([]);
  }

  /** A newline-free list of lines can be read back from its bytes: the first newline ends the first line. */
  lemma FirstLine(lines: seq<seq<Byte>>, j: nat)
    requires lines != [] && NewlineFree(lines) && j <= |lines[0]|
    ensures j < |Flat(lines)| && (Flat(lines)[j] == NL <==> j == |lines[0]|)
    ensures Flat(lines)[..|lines[0]|] == lines[0] && Flat(lines)[|lines[0]| + 1..] == Flat(lines[1..])
  {
  }

  // ── Splitting a stream ─────────────────────────────────────────────

  datatype Cut = Cut(lines: seq<seq<Byte>>, rest: seq<Byte>)

  /** The complete lines of a stream, and the trailing bytes after the last newline. */
  function Split(s: seq<Byte>): Cut {
    if s == [] then Cut([], [])
    else
      var c := Split(s[..|s| - 1]);
      if s[|s| - 1] == NL then Cut(c.lines + [c.rest], []) else Cut(c.lines, c.rest + [s[|s| - 1]])
  }

  /** Nothing is lost or invented: the lines with their newlines, then the rest, are the stream. */
  lemma {:induction false} SplitRebuilds(s: seq<Byte>)
    ensures Flat(Split(s).lines) + Split(s).rest == s
    ensures NewlineFree(Split(s).lines) && NL !in Split(s).rest && NL == 10
  {
    if s != [] {
      SplitRebuilds(s[..|s| - 1]);
      var c := Split(s[..|s| - 1]);
      FlatSnoc(c.lines, c.rest);
      assert s == s[..|s| - 1] + [s[|s| - 1]];
    }
  }

  /** Splitting does not depend on where the stream was cut: go on with what the first part left over. */
  lemma {:induction false} SplitConcat(a: seq<Byte>, b: seq<Byte>)
    ensures var first := Split(a); var then' := Split(first.rest + b);
            Split(a + b) == Cut(first.lines + then'.lines, then'.rest)
  {
    var n := |b| - 1;
    if b == [] {
      assert a + b == a && Split(a).rest + b == Split(a).rest;
      SplitRebuilds(a);
      SplitPlain(Split(a).rest);
    } else {
      SplitConcat(a, b[..n]);
      assert (a + b)[..|a + b| - 1] == a + b[..n];
      assert (Split(a).rest + b)[..|Split(a).rest + b| - 1] == Split(a).rest + b[..n];
    }
  }

  lemma {:induction false} SplitPlain(s: seq<Byte>)
    requires NL !in s
    ensures Split(s) == Cut([], s)
  {
    if s != [] {
      SplitPlain(s[..|s| - 1]);
    }
  }

  /** Bytes that end in a newline are complete lines, a single one if there is no other newline. */
  lemma SplitEnded(line: seq<Byte>)
    ensures Flat(Split(line + [NL]).lines) == line + [NL] && NewlineFree(Split(line + [NL]).lines)
    ensures NL !in line ==> Split(line + [NL]).lines == [line]
  {
    SplitRebuilds(line + [NL]);
    assert (line + [NL])[..|line|] == line;
    if NL !in line {
      SplitPlain(line);
    }
  }

  /** Reading one more byte of a buffer whose unfinished line began at `start`. */
  lemma SplitStep(buf: seq<Byte>, start: nat, i: nat, lines: seq<seq<Byte>>)
    requires start <= i < |buf| && Split(buf[..i]) == Cut(lines, buf[start..i])
    ensures Split(buf[..i + 1]) ==
      if buf[i] == NL then Cut(lines + [buf[start..i]], []) else Cut(lines, buf[start..i + 1])
  {
    assert buf[..i + 1][..i] == buf[..i];
    assert buf[start..i + 1] == buf[start..i] + [buf[i]];
  }

  /** `drain_lines`: appends what was read to the unfinished line and takes out every complete line. */
  method DrainLines(lineBuf: seq<Byte>, bytes: seq<Byte>) returns (lines: seq<seq<Byte>>, rest: seq<Byte>)
    ensures Cut(lines, rest) == Split(lineBuf + bytes)
  {
    hide Split;
    var buf := lineBuf + bytes;
    var start := 0;
    lines := [];
    SplitPlain([]);
    for i := 0 to |buf|
      invariant 0 <= start <= i
      invariant Split(buf[..i]) == Cut(lines, buf[start..i])
    {
      SplitStep(buf, start, i, lines);
      if buf[i] == NL {
        lines := lines + [buf[start..i]];
        start := i + 1;
      }
    }
    assert buf[..|buf|] == buf;
    rest := if start < |buf| then buf[start..] else [];
  }

  // ── A reader loop ──────────────────────────────────────────────────

  /** What the output loop has produced after these reads: all lines so far and the unfinished one. */
  function AfterReads(chunks: seq<seq<Byte>>): Cut {
    if chunks == [] then Cut([], [])
    else
      var before := AfterReads(chunks[..|chunks| - 1]);
      var now := Split(before.rest + chunks[|chunks| - 1]);
      Cut(before.lines + now.lines, now.rest)
  }

  function Joined(chunks: seq<seq<Byte>>): seq<Byte> {
    if chunks == [] then [] else Joined(chunks[..|chunks| - 1]) + chunks[|chunks| - 1]
  }

  /** However the stream was cut into reads, the lines and the leftover are those of the whole stream. */
  lemma {:induction false} ChunkingIsIrrelevant(chunks: seq<seq<Byte>>)
    ensures AfterReads(chunks) == Split(Joined(chunks))
  {
    if chunks != [] {
      ChunkingIsIrrelevant(chunks[..|chunks| - 1]);
      SplitConcat(Joined(chunks[..|chunks| - 1]), chunks[|chunks| - 1]);
    }
  }
}

/** The daemon's log cache: one byte ring holding newline-delimited lines, oldest dropped when full. */
module LogCaches {
  import opened Lines

  // ── The queue it stands for ────────────────────────────────────────

  /** The capacity of every container's cache. */
  const LOG_CAPACITY: nat := 65536

  /** Drops lines from the front until the rest takes at most `room` bytes. */
  function Evict(lines: seq<seq<Byte>>, room: nat): seq<seq<Byte>> {
    if lines == [] || |Flat(lines)| <= room then lines else Evict(lines[1..], room)
  }

  lemma EvictStep(lines: seq<seq<Byte>>, room: nat)
    ensures Evict(lines, room) == if lines == [] || |Flat(lines)| <= room then lines else Evict(lines[1..], room)
  {
  }

  /** What eviction keeps is the longest suffix of the lines that fits. */
  lemma {:induction false} EvictIsLongest(lines: seq<seq<Byte>>, room: nat)
    ensures |Evict(lines, room)| <= |lines| && Evict(lines, room) == lines[|lines| - |Evict(lines, room)|..]
    ensures |Flat(Evict(lines, room))| <= room
    ensures forall k :: 0 <= k < |lines| - |Evict(lines, room)| ==> |Flat(lines[k..])| > room
  {
    if lines != [] && |Flat(lines)| > room {
      EvictIsLongest(lines[1..], room);
      var n := |lines| - |Evict(lines, room)|;
      forall k | 0 <= k < n
        ensures |Flat(lines[k..])| > room
      {
        if k > 0 {
          assert lines[1..][k - 1..] == lines[k..];
        }
      }
      assert lines[1..][n - 1..] == lines[n..];
    }
  }

  function Push(lines: seq<seq<Byte>>, line: seq<Byte>, cap: nat): seq<seq<Byte>>
    requires |line| + 1 <= cap
  {
    Evict(lines, cap - |line| - 1) + [line]
  }

  // ── Positions in the ring ──────────────────────────────────────────

  lemma Wrap(x: nat, n: nat)
    requires 0 < n && x < 2 * n
    ensures x % n == if x < n then x else x - n
  {
  }

  /** The `n` bytes from `start` on, going round. */
  function Window(s: seq<Byte>, start: nat, n: nat): seq<Byte>
    requires start <= |s| && n <= |s|
  {
    if start + n <= |s| then s[start..start + n] else s[start..] + s[..start + n - |s|]
  }

  function Pos(cap: nat, start: nat, k: nat): nat {
    if start + k < cap then start + k else start + k - cap
  }

  lemma WindowAt(s: seq<Byte>, start: nat, n: nat, k: nat)
    requires start < |s| && k < n <= |s|
    ensures Pos(|s|, start, k) < |s| && Window(s, start, n)[k] == s[Pos(|s|, start, k)]
  {
  }

  lemma WindowDrop(s: seq<Byte>, start: nat, n: nat, k: nat)
    requires start < |s| && k <= n <= |s|
    ensures Pos(|s|, start, k) <= |s| && Window(s, Pos(|s|, start, k), n - k) == Window(s, start, n)[k..]
  {
  }

  lemma WindowPut(s: seq<Byte>, start: nat, n: nat, b: Byte)
    requires start < |s| && n < |s|
    ensures Window(s[Pos(|s|, start, n) := b], start, n + 1) == Window(s, start, n) + [b]
  {
  }

  /** Scanning the first of the `lines` in a window: the newline is exactly at its end. */
  lemma Scan(s: seq<Byte>, start: nat, n: nat, lines: seq<seq<Byte>>, j: nat)
    requires start < |s| && n <= |s| && Window(s, start, n) == Flat(lines)
    requires NewlineFree(lines) && lines != [] && j <= |lines[0]|
    ensures |lines[0]| < n && Pos(|s|, start, j) < |s| && (s[Pos(|s|, start, j)] == NL <==> j == |lines[0]|)
  {
    FirstLine(lines, j);
    WindowAt(s, start, n, j);
  }

  /** Stepping over the first line and its newline. */
  lemma StepOver(s: seq<Byte>, start: nat, n: nat, lines: seq<seq<Byte>>)
    requires start < |s| && n <= |s| && Window(s, start, n) == Flat(lines) && NewlineFree(lines) && lines != []
    ensures var j := |lines[0]| + 1;
            && j <= n && Pos(|s|, start, j) <= |s| && Window(s, start, j - 1) == lines[0]
            && Window(s, Pos(|s|, start, j), n - j) == Flat(lines[1..])
  {
    FirstLine(lines, |lines[0]|);
    WindowDrop(s, start, n, |lines[0]| + 1);
    assert Window(s, start, |lines[0]|) == Window(s, start, n)[..|lines[0]|];
  }

  /** A window with bytes in it holds a line. */
  lemma NonEmpty(s: seq<Byte>, start: nat, n: nat, lines: seq<seq<Byte>>)
    requires start < |s| && n <= |s| && Window(s, start, n) == Flat(lines)
    ensures n == |Flat(lines)| && (n > 0 <==> lines != [])
  {
  }

  class LogCache {
    const buf: array<Byte>
    var start: nat
    var end: nat
    var bytes: nat
    ghost var lines: seq<seq<Byte>>

    ghost predicate Valid()
      reads this, buf
    {
      && 0 < buf.Length && start < buf.Length && bytes <= buf.Length
      && end == (start + bytes) % buf.Length
      && NewlineFree(lines) && Window(buf[..], start, bytes) == Flat(lines)
    }

    constructor (cap: nat)
      requires cap > 0
      ensures Valid() && lines == [] && buf.Length == cap && fresh(buf)
    {
      buf := new Byte[cap](_ => 0);
      start, end, bytes := 0, 0, 0;
      lines := [];
    }

    /** Appends a line, first dropping whole lines from the front until it fits.  A line that holds newlines goes
        in as several.  A line longer than the ring empties it and never fits: `ok` is false where the source,
        which does not check, goes on scanning an empty ring. */
    method PushLine(line: seq<Byte>) returns (ok: bool)
      requires Valid()
      modifies this, buf
      ensures Valid() && (ok <==> |line| + 1 <= buf.Length)
      ensures ok ==> lines == Evict(old(lines), buf.Length - |line| - 1) + Split(line + [NL]).lines
      ensures ok && NL !in line ==> lines == Push(old(lines), line, buf.Length)
      ensures !ok ==> lines == []
    {
      hide Flat, Evict, Window, Split;
      var need := |line| + 1;
      var cap := buf.Length;
      while cap - bytes < need
        invariant Valid() && (need <= cap ==> Evict(lines, cap - need) == Evict(old(lines), cap - need))
        decreases |lines|
      {
        NonEmpty(buf[..], start, bytes, lines);
        if bytes == 0 {
          return false;
        }
        if need <= cap {
          EvictStep(lines, cap - need);
        }
        DropFirst();
      }
      NonEmpty(buf[..], start, bytes, lines);
      EvictStep(lines, cap - need);
      SplitEnded(line);
      FlatConcat(lines, Split(line + [NL]).lines);
      Append(line + [NL]);
      lines := lines + Split(line + [NL]).lines;
      ok := true;
    }

    /** Scans forward, going round, from the first byte of `rest` to the newline that ends its first line. */
    method FindNewline(from: nat, ghost n: nat, ghost rest: seq<seq<Byte>>) returns (i: nat)
      requires from < buf.Length && n <= buf.Length
      requires Window(buf[..], from, n) == Flat(rest) && NewlineFree(rest) && rest != []
      ensures i < buf.Length && i == Pos(buf.Length, from, |rest[0]|)
    {
      hide Flat, Window;
      var cap := buf.Length;
      i := from;
      ghost var j: nat := 0;
      Scan(buf[..], from, n, rest, 0);
      while buf[i] != NL
        invariant j <= |rest[0]| < n && i < cap && i == Pos(cap, from, j)
        invariant buf[i] == NL <==> j == |rest[0]|
        decreases |rest[0]| - j
      {
        Scan(buf[..], from, n, rest, j + 1);
        Wrap(i + 1, cap);
        i := (i + 1) % cap;
        j := j + 1;
      }
    }

    /** One round of eviction: find the first newline and step over it. */
    method DropFirst()
      requires Valid() && lines != []
      modifies this`start, this`bytes, this`lines
      ensures Valid() && lines == old(lines)[1..]
    {
      hide Flat, Window;
      var cap := buf.Length;
      var i := FindNewline(start, bytes, lines);
      var lineBytes := if i >= start then i - start + 1 else (cap - start) + i + 1;
      StepOver(buf[..], start, bytes, lines);
      Wrap(start + lineBytes, cap);
      Wrap(start + bytes, cap);
      start := (start + lineBytes) % cap;
      bytes := bytes - lineBytes;
      lines := lines[1..];
      Wrap(start + bytes, cap);
    }

    /** Copies bytes in behind the last one, going round. */
    method Append(bs: seq<Byte>)
      requires Valid() && bytes + |bs| <= buf.Length
      modifies this`end, this`bytes, buf
      ensures bytes == old(bytes) + |bs| && end == (start + bytes) % buf.Length
      ensures Window(buf[..], start, bytes) == Flat(lines) + bs
    {
      hide Flat, Window;
      var cap, n := buf.Length, bytes;
      for k := 0 to |bs|
        invariant bytes == n && end == (start + n + k) % cap
        invariant Window(buf[..], start, n + k) == Flat(lines) + bs[..k]
      {
        Wrap(start + n + k, cap);
        WindowPut(buf[..], start, n + k, bs[k]);
        ghost var was := buf[..];
        buf[end] := bs[k];
        assert buf[..] == was[end := bs[k]];
        Wrap(end + 1, cap);
        end := (end + 1) % cap;
        Wrap(start + n + k + 1, cap);
        assert bs[..k + 1] == bs[..k] + [bs[k]];
      }
      bytes := n + |bs|;
    }

    /** All cached bytes, oldest first. */
    method Snapshot() returns (out: seq<Byte>)
      requires Valid()
      ensures out == Flat(lines)
    {
      if bytes == 0 {
        return [];
      }
      Wrap(start + bytes, buf.Length);
      if end > start {
        out := buf[start..end];
      } else {
        out := buf[start..] + buf[..end];
      }
    }

    /** The bytes from `pos` up to (not including) `i`, going round, and how many that is with the newline. */
    method LineUpTo(pos: nat, i: nat) returns (line: seq<Byte>, consumed: nat)
      requires pos < buf.Length && i < buf.Length
      ensures 0 < consumed <= buf.Length && i == Pos(buf.Length, pos, consumed - 1)
      ensures line == Window(buf[..], pos, consumed - 1)
    {
      if i >= pos {
        line, consumed := buf[pos..i], i - pos + 1;
      } else {
        line, consumed := buf[pos..] + buf[..i], (buf.Length - pos) + i + 1;
      }
    }

    /** Reads one line off a window, and says where the rest of the window is. */
    method TakeLine(pos: nat, remaining: nat, ghost rest: seq<seq<Byte>>)
      returns (line: seq<Byte>, next: nat, left: nat)
      requires pos < buf.Length && remaining <= buf.Length && rest != [] && NewlineFree(rest)
      requires Window(buf[..], pos, remaining) == Flat(rest)
      ensures line == rest[0] && next < buf.Length && left < remaining
      ensures Window(buf[..], next, left) == Flat(rest[1..]) && (left > 0 <==> rest[1..] != [])
    {
      hide Flat, Window;
      var i := FindNewline(pos, remaining, rest);
      StepOver(buf[..], pos, remaining, rest);
      var consumed;
      line, consumed := LineUpTo(pos, i);
      assert consumed == |rest[0]| + 1;
      Wrap(i + 1, buf.Length);
      left, next := remaining - consumed, (i + 1) % buf.Length;
      NonEmpty(buf[..], next, left, rest[1..]);
    }

    /** The cached lines themselves, oldest first. */
    method CollectLines() returns (out: seq<seq<Byte>>)
      requires Valid()
      ensures out == lines
    {
      out := [];
      var pos: nat, remaining: nat := start, bytes;
      NonEmpty(buf[..], pos, remaining, lines);
      hide Flat, Window;
      while remaining != 0
        invariant pos < buf.Length && remaining <= buf.Length && |out| <= |lines| && out == lines[..|out|]
        invariant Window(buf[..], pos, remaining) == Flat(lines[|out|..]) && (remaining > 0 <==> lines[|out|..] != [])
      {
        ghost var rest := lines[|out|..];
        var line;
        line, pos, remaining := TakeLine(pos, remaining, rest);
        assert rest[1..] == lines[|out| + 1..] && lines[..|out| + 1] == lines[..|out|] + [lines[|out|]];
        out := out + [line];
      }
    }
  }

  // ── The cache fed by the splitter ──────────────────────────────────

  function PushAll(lines: seq<seq<Byte>>, more: seq<seq<Byte>>, cap: nat): seq<seq<Byte>>
    requires forall i :: 0 <= i < |more| ==> |more[i]| + 1 <= cap
  {
    if more == [] then lines else Push(PushAll(lines, more[..|more| - 1], cap), more[|more| - 1], cap)
  }

  ghost predicate Suffix(a: seq<seq<Byte>>, b: seq<seq<Byte>>) {
    |a| <= |b| && a == b[|b| - |a|..]
  }

  lemma SuffixTrans(a: seq<seq<Byte>>, b: seq<seq<Byte>>, c: seq<seq<Byte>>)
    requires Suffix(a, b) && Suffix(b, c)
    ensures Suffix(a, c)
  {
  }

  lemma SuffixSnoc(a: seq<seq<Byte>>, b: seq<seq<Byte>>, line: seq<Byte>)
    requires Suffix(a, b)
    ensures Suffix(a + [line], b + [line])
  {
  }

  lemma EvictSuffix(lines: seq<seq<Byte>>, room: nat)
    ensures Suffix(Evict(lines, room), lines)
  {
    EvictIsLongest(lines, room);
  }

  /** One push: the cache stays a suffix of what was pushed, within its capacity. */
  lemma PushKeeps(kept: seq<seq<Byte>>, all: seq<seq<Byte>>, line: seq<Byte>, cap: nat)
    requires Suffix(kept, all) && |line| + 1 <= cap
    ensures Suffix(Push(kept, line, cap), all + [line])
    ensures |Flat(Push(kept, line, cap))| <= cap && Push(kept, line, cap) != []
  {
    hide Flat, Evict, Suffix;
    var room := cap - |line| - 1;
    EvictIsLongest(kept, room);
    EvictSuffix(kept, room);
    SuffixTrans(Evict(kept, room), kept, all);
    SuffixSnoc(Evict(kept, room), all, line);
    FlatSnoc(Evict(kept, room), line);
  }

  lemma NothingPushed()
    ensures Suffix([], []) && Flat([]) == []
  {
  }

  /** However many lines were pushed, the cache holds a suffix of them that fits, the newest line included. */
  lemma {:induction false} CacheIsSuffix(more: seq<seq<Byte>>, cap: nat)
    requires forall i :: 0 <= i < |more| ==> |more[i]| + 1 <= cap
    ensures Suffix(PushAll([], more, cap), more) && |Flat(PushAll([], more, cap))| <= cap
    ensures more != [] ==> PushAll([], more, cap) != []
  {
    hide Push, Flat, Suffix;
    if more == [] {
      NothingPushed();
    } else {
      var n := |more| - 1;
      CacheIsSuffix(more[..n], cap);
      PushKeeps(PushAll([], more[..n], cap), more[..n], more[n], cap);
      assert more[..n] + [more[n]] == more;
    }
  }

  lemma FlatSuffix(kept: seq<seq<Byte>>, all: seq<seq<Byte>>)
    requires Suffix(kept, all)
    ensures Flat(all) == Flat(all[..|all| - |kept|]) + Flat(kept)
  {
    hide Flat;
    FlatConcat(all[..|all| - |kept|], kept);
    assert all[..|all| - |kept|] + kept == all;
  }

  /** Container output read in any chunks, split, and pushed line by line into an empty cache: the snapshot is a
      suffix of the stream's complete lines that starts at a line boundary. */
  lemma SnapshotIsStreamSuffix(chunks: seq<seq<Byte>>, cap: nat)
    requires forall i :: 0 <= i < |Split(Joined(chunks)).lines| ==> |Split(Joined(chunks)).lines[i]| + 1 <= cap
    ensures AfterReads(chunks) == Split(Joined(chunks))
    ensures var all := Split(Joined(chunks)).lines; var kept := PushAll([], all, cap);
            && Suffix(kept, all) && |Flat(kept)| <= cap
            && Joined(chunks) == Flat(all[..|all| - |kept|]) + Flat(kept) + Split(Joined(chunks)).rest
  {
    hide Split, Flat, PushAll, Joined, AfterReads;
    ChunkingIsIrrelevant(chunks);
    var all := Split(Joined(chunks)).lines;
    CacheIsSuffix(all, cap);
    FlatSuffix(PushAll([], all, cap), all);
    SplitRebuilds(Joined(chunks));
  }
}
