/** The framed session stream: one type byte, a little-endian 16-bit length, the payload. */
module Frames {
  import opened Lines

  datatype Frame = Frame(ty: Byte, payload: seq<Byte>)

  /** `(len as u16).to_le_bytes()` */
  function LengthBytes(len: nat): seq<Byte> {
    [len % 256, len / 256 % 256]
  }

  function BuildFrame(f: Frame): seq<Byte> {
    [f.ty] + LengthBytes(|f.payload|) + f.payload
  }

  function FrameLength(header: seq<Byte>): nat
    requires |header| == 3
  {
    var low: int, high: int := header[1], header[2];
    low + 256 * high
  }

  datatype Parsed = Eof | Got(frame: Frame, rest: seq<Byte>)

  /** The frame at the front of a byte stream, if all of it is there. */
  function Parse(s: seq<Byte>): Parsed {
    if |s| < 3 then Eof
    else
      var len := FrameLength(s[..3]);
      if |s| < 3 + len then Eof else Got(Frame(s[0], s[3..3 + len]), s[3 + len..])
  }

  /** Every frame at the front of a stream, and what follows the last complete one. */
  function Decode(s: seq<Byte>): (seq<Frame>, seq<Byte>)
    decreases |s|
  {
    match Parse(s)
    case Eof => ([], s)
    case Got(f, rest) => var (fs, tail) := Decode(rest); ([f] + fs, tail)
  }

  function BuildAll(fs: seq<Frame>): seq<Byte> {
    if fs == [] then [] else BuildFrame(fs[0]) + BuildAll(fs[1..])
  }

  ghost predicate Fits(fs: seq<Frame>) {
    forall i :: 0 <= i < |fs| ==> |fs[i].payload| < 65536
  }

  lemma ParseInvertsBuild(f: Frame, tail: seq<Byte>)
    requires |f.payload| < 65536
    ensures Parse(BuildFrame(f) + tail) == Got(f, tail)
  {
    var s, n := BuildFrame(f) + tail, |f.payload|;
    assert n / 256 < 256;
    assert FrameLength(s[..3]) == n % 256 + 256 * (n / 256) == n;
    assert s[3..3 + n] == f.payload && s[3 + n..] == tail;
  }

  /** Reading frames inverts writing them, whatever incomplete bytes follow. */
  lemma {:induction false} DecodeInvertsBuild(fs: seq<Frame>, tail: seq<Byte>)
    requires Fits(fs) && Parse(tail) == Eof
    ensures Decode(BuildAll(fs) + tail) == (fs, tail)
  {
    hide Parse, BuildFrame;
    if fs == [] {
      assert BuildAll(fs) + tail == tail;
    } else {
      var rest := BuildAll(fs[1..]) + tail;
      assert BuildAll(fs) + tail == BuildFrame(fs[0]) + rest;
      ParseInvertsBuild(fs[0], rest);
      DecodeInvertsBuild(fs[1..], tail);
      assert [fs[0]] + fs[1..] == fs;
    }
  }

  /** A payload of 65536 bytes or more is not read back: the length field keeps its low 16 bits only. */
  lemma OversizeFrameIsMisread(f: Frame, tail: seq<Byte>)
    requires |f.payload| >= 65536
    ensures Parse(BuildFrame(f) + tail) != Got(f, tail)
  {
    var s, n := BuildFrame(f) + tail, |f.payload|;
    assert FrameLength(s[..3]) == n % 256 + 256 * (n / 256 % 256) < 65536;
  }

  /** Reading a frame inverts building it exactly for payloads whose length fits 16 bits. */
  lemma ParseInvertsBuildIff(f: Frame, tail: seq<Byte>)
    ensures Parse(BuildFrame(f) + tail) == Got(f, tail) <==> |f.payload| < 65536
  {
    hide Parse, BuildFrame;
    if |f.payload| < 65536 {
      ParseInvertsBuild(f, tail);
    } else {
      OversizeFrameIsMisread(f, tail);
    }
  }

  /** The bytes of a frame: its type, its length modulo 65536 with the low byte first, its payload. */
  lemma FrameBytes(f: Frame)
    ensures var b := BuildFrame(f);
      && |b| == 3 + |f.payload| && b[0] == f.ty && b[1] as int + 256 * b[2] as int == |f.payload| % 65536
      && forall i :: 0 <= i < |f.payload| ==> b[3 + i] == f.payload[i]
  {
    var n := |f.payload|;
    assert n % 65536 == n % 256 + 256 * (n / 256 % 256);
  }

  lemma {:induction false} BuildSnoc(fs: seq<Frame>, f: Frame)
    ensures BuildAll(fs + [f]) == BuildAll(fs) + BuildFrame(f)
  {
    if fs != [] {
      BuildSnoc(fs[1..], f);
      assert (fs + [f])[1..] == fs[1..] + [f];
    } else {
      assert BuildAll([f]) == BuildFrame(f) + BuildAll([f][1..]);
    }
  }

  // ── The client's reader ────────────────────────────────────────────

  /** A stream socket: what is still to come.  A read returns any non-empty part of what was asked for, and
      nothing only at the end of the stream. */
  class Stream {
    var todo: seq<Byte>

    constructor (s: seq<Byte>)
      ensures todo == s
    {
      todo := s;
    }

    method ReadInto(a: array<Byte>, off: nat) returns (n: nat)
      requires off < a.Length
      modifies this, a
      ensures n <= a.Length - off && n <= |old(todo)| && (n == 0 <==> old(todo) == [])
      ensures todo == old(todo)[n..] && a[..off] == old(a[..off]) && a[off..off + n] == old(todo)[..n]
    {
      if todo == [] {
        return 0;
      }
      n :| 1 <= n <= a.Length - off && n <= |todo|;
      forall i | off <= i < off + n {
        a[i] := todo[i - off];
      }
      todo := todo[n..];
    }

    /** Fills the whole buffer, however the reads are cut; false if the stream ends first. */
    method Fill(a: array<Byte>) returns (ok: bool)
      modifies this, a
      ensures ok == (|old(todo)| >= a.Length)
      ensures ok ==> a[..] == old(todo)[..a.Length] && todo == old(todo)[a.Length..]
      ensures !ok ==> todo == []
    {
      var off: nat := 0;
      ghost var s := todo;
      while off < a.Length
        invariant off <= a.Length && off <= |s| && todo == s[off..] && a[..off] == s[..off]
      {
        ghost var before := a[..off];
        var n := ReadInto(a, off);
        if n == 0 {
          return false;
        }
        assert a[..off + n] == before + a[off..off + n];
        off := off + n;
      }
      assert a[..] == a[..off];
      ok := true;
    }
  }

  /** Reads one frame: header, then payload.  Whatever the lengths of the individual reads, the result is the
      frame at the front of the stream, and the stream is left right behind it. */
  method ReadFrame(fd: Stream) returns (r: Parsed)
    modifies fd
    ensures r.Eof? == Parse(old(fd.todo)).Eof?
    ensures r.Got? ==> r == Parse(old(fd.todo)) && fd.todo == r.rest
  {
    ghost var s := fd.todo;
    var header := new Byte[3];
    var ok := fd.Fill(header);
    if !ok {
      return Eof;
    }
    var len := FrameLength(header[..]);
    if len == 0 {
      assert s[3..3] == [];
      return Got(Frame(header[0], []), fd.todo);
    }
    var buf := new Byte[len];
    ok := fd.Fill(buf);
    if !ok {
      return Eof;
    }
    assert s[3..][..len] == s[3..3 + len] && s[3..][len..] == s[3 + len..];
    r := Got(Frame(header[0], buf[..]), fd.todo);
  }

  lemma ParseShrinks(s: seq<Byte>)
    ensures Parse(s).Got? ==> |Parse(s).rest| < |s|
  {
  }

  /** Reads frames until the stream ends. */
  method ReadFrames(fd: Stream) returns (fs: seq<Frame>)
    modifies fd
    ensures fs == Decode(old(fd.todo)).0
  {
    hide Parse;
    fs := [];
    ghost var s := fd.todo;
    var r := ReadFrame(fd);
    while r.Got?
      invariant r.Eof? == Parse(s).Eof? && (r.Got? ==> r == Parse(s) && fd.todo == r.rest)
      invariant fs + Decode(s).0 == Decode(old(fd.todo)).0
      decreases |s|
    {
      ParseShrinks(s);
      fs := fs + [r.frame];
      s := r.rest;
      r := ReadFrame(fd);
    }
  }
}

/** The session output drain: container output goes out as data frames, header and payload written apart. */
module OutputRelay {
  import opened Lines
  import opened Frames

  const DATA: Byte := 0x10

  /** Where the drain is: waiting for a read, or with `off` bytes of the header or of the payload written. */
  datatype Drain = Reading | Header(chunk: seq<Byte>, off: nat) | Payload(chunk: seq<Byte>, off: nat) | Done

  datatype Relay = Relay(drain: Drain, wire: seq<Byte>, taken: seq<seq<Byte>>)

  const START := Relay(Reading, [], [])

  /** A read completes (empty at end of file), or a write completes having taken `n` bytes. */
  datatype Event = Read(chunk: seq<Byte>) | Wrote(n: nat)

  function HeaderOf(chunk: seq<Byte>): seq<Byte> {
    [DATA] + LengthBytes(|chunk|)
  }

  /** A write takes at most what it was given; a chunk fits one provided buffer, well below 65536 bytes. */
  predicate Possible(r: Relay, e: Event) {
    match (r.drain, e)
    case (Reading, Read(chunk)) => |chunk| < 65536
    case (Header(_, off), Wrote(n)) => off + n <= 3
    case (Payload(chunk, off), Wrote(n)) => off + n <= |chunk|
    case _ => false
  }

  /** The bytes an event puts on the wire. */
  function Emitted(r: Relay, e: Event): seq<Byte>
    requires Possible(r, e)
  {
    match (r.drain, e)
    case (Reading, _) => []
    case (Header(chunk, off), Wrote(n)) => HeaderOf(chunk)[off..off + n]
    case (Payload(chunk, off), Wrote(n)) => chunk[off..off + n]
  }

  function Step(r: Relay, e: Event): Relay
    requires Possible(r, e)
  {
    var wire := r.wire + Emitted(r, e);
    match (r.drain, e)
    case (Reading, Read(chunk)) =>
      if chunk == [] then r.(drain := Done) else r.(drain := Header(chunk, 0), taken := r.taken + [chunk])
    case (Header(chunk, off), Wrote(n)) =>
      if off + n < 3 then r.(drain := Header(chunk, off + n), wire := wire)
      else r.(drain := Payload(chunk, 0), wire := wire)
    case (Payload(chunk, off), Wrote(n)) =>
      if off + n >= |chunk| then r.(drain := Reading, wire := wire)
      else r.(drain := Payload(chunk, off + n), wire := wire)
  }

  function Steps(r: Relay, es: seq<Event>): Relay
    requires PossibleAll(r, es)
    decreases |es|
  {
    if es == [] then r else Steps(Step(r, es[0]), es[1..])
  }

  predicate PossibleAll(r: Relay, es: seq<Event>)
    decreases |es|
  {
    es == [] || (Possible(r, es[0]) && PossibleAll(Step(r, es[0]), es[1..]))
  }

  function DataFrames(chunks: seq<seq<Byte>>): seq<Frame> {
    if chunks == [] then [] else DataFrames(chunks[..|chunks| - 1]) + [Frame(DATA, chunks[|chunks| - 1])]
  }

  /** How much of the frame under way has gone out. */
  function UnderWay(d: Drain): nat {
    match d
    case Header(_, off) => off
    case Payload(_, off) => 3 + off
    case _ => 0
  }

  /** The chunks whose frames are complete: all but the one under way, if there is one. */
  function Whole(r: Relay): seq<seq<Byte>> {
    if (r.drain.Header? || r.drain.Payload?) && r.taken != [] then r.taken[..|r.taken| - 1] else r.taken
  }

  /** The wire carries a whole frame for every chunk taken before, then the first bytes of the current one. */
  ghost predicate RelayInv(r: Relay) {
    && (forall i :: 0 <= i < |r.taken| ==> 0 < |r.taken[i]| < 65536)
    && match r.drain
       case Header(chunk, off) =>
         && off < 3 && r.taken != [] && r.taken[|r.taken| - 1] == chunk
         && r.wire == BuildAll(DataFrames(r.taken[..|r.taken| - 1])) + BuildFrame(Frame(DATA, chunk))[..off]
       case Payload(chunk, off) =>
         && off < |chunk| && r.taken != [] && r.taken[|r.taken| - 1] == chunk
         && r.wire == BuildAll(DataFrames(r.taken[..|r.taken| - 1])) + BuildFrame(Frame(DATA, chunk))[..3 + off]
       case _ => r.wire == BuildAll(DataFrames(r.taken))
  }

  lemma ReadKeeps(r: Relay, chunk: seq<Byte>)
    requires RelayInv(r) && Possible(r, Read(chunk))
    ensures RelayInv(Step(r, Read(chunk)))
  {
    hide BuildAll, BuildFrame;
    var t := r.taken + [chunk];
    assert t[..|t| - 1] == r.taken;
    assert BuildAll(DataFrames(r.taken)) + BuildFrame(Frame(DATA, chunk))[..0] == BuildAll(DataFrames(r.taken));
  }

  /** Appending the bytes `part` that come next in a frame, of which the wire already has `k`. */
  lemma NextBytes(before: seq<Byte>, f: seq<Byte>, k: nat, part: seq<Byte>)
    requires k + |part| <= |f| && part == f[k..k + |part|]
    ensures before + f[..k] + part == before + f[..k + |part|]
  {
    assert f[..k] + part == f[..k + |part|];
  }

  lemma HeaderKeeps(r: Relay, n: nat)
    requires RelayInv(r) && r.drain.Header? && Possible(r, Wrote(n))
    ensures RelayInv(Step(r, Wrote(n)))
  {
    hide BuildAll, DataFrames;
    var chunk, off, f := r.drain.chunk, r.drain.off, BuildFrame(Frame(DATA, r.drain.chunk));
    assert HeaderOf(chunk) == f[..3];
    NextBytes(BuildAll(DataFrames(r.taken[..|r.taken| - 1])), f, off, HeaderOf(chunk)[off..off + n]);
  }

  lemma FrameIsHeaderAndPayload(chunk: seq<Byte>)
    ensures BuildFrame(Frame(DATA, chunk)) == HeaderOf(chunk) + chunk
  {
  }

  /** The wire before and after `n` more bytes of a payload, of which `off` were out. */
  lemma PayloadBytes(before: seq<Frame>, chunk: seq<Byte>, off: nat, n: nat)
    requires off + n <= |chunk|
    ensures var f := BuildFrame(Frame(DATA, chunk));
      BuildAll(before) + f[..3 + off] + chunk[off..off + n] == BuildAll(before) + f[..3 + off + n]
    ensures BuildAll(before) + BuildFrame(Frame(DATA, chunk))[..3 + |chunk|] == BuildAll(before + [Frame(DATA, chunk)])
  {
    hide BuildAll, BuildFrame;
    FrameIsHeaderAndPayload(chunk);
    BuildSnoc(before, Frame(DATA, chunk));
    var f := BuildFrame(Frame(DATA, chunk));
    assert f[3..] == chunk && f[..3 + |chunk|] == f;
    NextBytes(BuildAll(before), f, 3 + off, chunk[off..off + n]);
  }

  lemma PayloadKeeps(r: Relay, n: nat)
    requires RelayInv(r) && r.drain.Payload? && Possible(r, Wrote(n))
    ensures RelayInv(Step(r, Wrote(n)))
  {
    hide BuildAll, BuildFrame, HeaderOf;
    PayloadBytes(DataFrames(r.taken[..|r.taken| - 1]), r.drain.chunk, r.drain.off, n);
  }

  lemma StepKeeps(r: Relay, e: Event)
    requires RelayInv(r) && Possible(r, e)
    ensures RelayInv(Step(r, e))
  {
    hide RelayInv, Step;
    match (r.drain, e) {
      case (Reading, Read(chunk)) => ReadKeeps(r, chunk);
      case (Header(_, _), Wrote(n)) => HeaderKeeps(r, n);
      case (Payload(_, _), Wrote(n)) => PayloadKeeps(r, n);
    }
  }

  lemma {:induction false} StepsKeep(r: Relay, es: seq<Event>)
    requires RelayInv(r) && PossibleAll(r, es)
    ensures RelayInv(Steps(r, es))
    decreases |es|
  {
    hide RelayInv, Step, Possible;
    if es != [] {
      StepKeeps(r, es[0]);
      StepsKeep(Step(r, es[0]), es[1..]);
    }
  }

  lemma {:induction false} DataFramesFit(chunks: seq<seq<Byte>>)
    requires forall i :: 0 <= i < |chunks| ==> |chunks[i]| < 65536
    ensures Fits(DataFrames(chunks)) && |DataFrames(chunks)| == |chunks|
    ensures forall i :: 0 <= i < |chunks| ==> DataFrames(chunks)[i] == Frame(DATA, chunks[i])
  {
    if chunks != [] {
      DataFramesFit(chunks[..|chunks| - 1]);
    }
  }

  /** A proper prefix of a frame does not parse. */
  lemma PrefixIsEof(f: Frame, n: nat)
    requires |f.payload| < 65536 && n < |BuildFrame(f)|
    ensures Parse(BuildFrame(f)[..n]) == Eof
  {
    var p := BuildFrame(f)[..n];
    if n >= 3 {
      assert p[..3] == BuildFrame(f)[..3];
      var len := |f.payload|;
      assert FrameLength(p[..3]) == len % 256 + 256 * (len / 256) == len;
    }
  }

  // ── In terms of what happened ──────────────────────────────────────

  /** The chunks read from the container, in order: the reads that were not empty. */
  function ChunksRead(es: seq<Event>): seq<seq<Byte>> {
    if es == [] then []
    else (if es[0].Read? && es[0].chunk != [] then [es[0].chunk] else []) + ChunksRead(es[1..])
  }

  /** How many bytes the writes took in all. */
  function BytesWritten(es: seq<Event>): nat {
    if es == [] then 0 else (if es[0].Wrote? then es[0].n else 0) + BytesWritten(es[1..])
  }

  lemma StepHistory(r: Relay, e: Event)
    requires Possible(r, e)
    ensures var r' := Step(r, e);
      && r'.taken == r.taken + (if e.Read? && e.chunk != [] then [e.chunk] else [])
      && |r'.wire| == |r.wire| + (if e.Wrote? then e.n else 0)
      && (r'.drain.Done? <==> e == Read([])) && !r.drain.Done?
  {
  }

  lemma {:induction false} HistoryOf(r: Relay, es: seq<Event>)
    requires PossibleAll(r, es)
    ensures var r' := Steps(r, es);
      && r'.taken == r.taken + ChunksRead(es) && |r'.wire| == |r.wire| + BytesWritten(es)
      && (r'.drain.Done? <==> r.drain.Done? || Read([]) in es)
    decreases |es|
  {
    hide Step, Possible;
    if es == [] {
      assert r.taken + [] == r.taken;
    } else {
      var e, rest := es[0], es[1..];
      StepHistory(r, e);
      HistoryOf(Step(r, e), rest);
      var first := if e.Read? && e.chunk != [] then [e.chunk] else [];
      assert (r.taken + first) + ChunksRead(rest) == r.taken + (first + ChunksRead(rest));
      assert forall x :: x in es <==> x == e || x in rest;
    }
  }

  lemma FromStart(es: seq<Event>)
    requires PossibleAll(START, es)
    ensures var r := Steps(START, es);
      && RelayInv(r) && r.taken == ChunksRead(es) && |r.wire| == BytesWritten(es)
      && (r.drain.Done? <==> Read([]) in es)
  {
    StepsKeep(START, es);
    HistoryOf(START, es);
    hide Steps, PossibleAll, RelayInv;
    assert [] + ChunksRead(es) == ChunksRead(es);
  }

  /** What is on the wire is told by the events alone: of the frames of all chunks read so far, whole and in order,
      as many bytes as the writes took.  The drain ends with the first empty read, and has then written it all. */
  lemma RelayWire(es: seq<Event>)
    requires PossibleAll(START, es)
    ensures var r, all := Steps(START, es), BuildAll(DataFrames(ChunksRead(es)));
      && BytesWritten(es) <= |all| && r.wire == all[..BytesWritten(es)]
      && (r.drain.Done? <==> Read([]) in es) && (r.drain.Done? ==> r.wire == all)
  {
    hide Steps, PossibleAll, RelayInv, BuildAll, DataFrames;
    FromStart(es);
    WireIsPrefix(Steps(START, es));
  }

  lemma WireIsPrefix(r: Relay)
    requires RelayInv(r)
    ensures var all := BuildAll(DataFrames(r.taken)); |r.wire| <= |all| && r.wire == all[..|r.wire|]
    ensures r.drain.Done? ==> r.wire == BuildAll(DataFrames(r.taken))
  {
    hide BuildAll, BuildFrame;
    if r.drain.Header? || r.drain.Payload? {
      var before, f := DataFrames(r.taken[..|r.taken| - 1]), Frame(DATA, r.drain.chunk);
      BuildSnoc(before, f);
      FrameIsHeaderAndPayload(r.drain.chunk);
      assert BuildAll(DataFrames(r.taken)) == BuildAll(before) + BuildFrame(f);
    }
  }

  /** The drain waits for a read exactly when it has not ended and every frame is out. */
  lemma ReadsWhenWritten(r: Relay)
    requires RelayInv(r)
    ensures r.drain.Reading? <==> !r.drain.Done? && |r.wire| == |BuildAll(DataFrames(r.taken))|
    ensures Possible(r, Wrote(1)) <==> |r.wire| < |BuildAll(DataFrames(r.taken))|
  {
    hide BuildAll, BuildFrame;
    if r.drain.Header? || r.drain.Payload? {
      var before, f := DataFrames(r.taken[..|r.taken| - 1]), Frame(DATA, r.drain.chunk);
      BuildSnoc(before, f);
      FrameIsHeaderAndPayload(r.drain.chunk);
      assert BuildAll(DataFrames(r.taken)) == BuildAll(before) + BuildFrame(f);
    }
  }

  /** The relay is transparent.  However the writes are cut short, the stream decodes to exactly the chunks read
      from the container, in order: all of them while no frame is under way, all but the last otherwise. */
  lemma RelayIsTransparent(es: seq<Event>)
    requires PossibleAll(START, es)
    ensures var r, chunks := Steps(START, es), ChunksRead(es);
      var whole := if (r.drain.Header? || r.drain.Payload?) && chunks != [] then chunks[..|chunks| - 1] else chunks;
      && Decode(r.wire).0 == DataFrames(whole)
      && |DataFrames(whole)| == |whole|
      && forall i :: 0 <= i < |whole| ==> DataFrames(whole)[i] == Frame(0x10, whole[i])
  {
    hide Steps, PossibleAll, Decode, DataFrames, RelayInv;
    FromStart(es);
    RelayDecodes(Steps(START, es));
  }

  lemma RelayDecodes(r: Relay)
    requires RelayInv(r)
    ensures var whole := Whole(r);
            && Decode(r.wire).0 == DataFrames(whole)
            && |DataFrames(whole)| == |whole| && forall i :: 0 <= i < |whole| ==>
                DataFrames(whole)[i] == Frame(DATA, whole[i])
  {
    hide BuildAll, Decode, BuildFrame, DataFrames, Parse;
    var whole := Whole(r);
    DataFramesFit(whole);
    if r.drain.Header? || r.drain.Payload? {
      var f, n := Frame(DATA, r.drain.chunk), UnderWay(r.drain);
      FrameIsHeaderAndPayload(r.drain.chunk);
      PrefixIsEof(f, n);
      DecodeInvertsBuild(DataFrames(whole), BuildFrame(f)[..n]);
    } else {
      NothingIsEof();
      DecodeInvertsBuild(DataFrames(whole), []);
      assert r.wire + [] == r.wire;
    }
  }

  lemma NothingIsEof()
    ensures Parse([]) == Eof
  {
  }
}
