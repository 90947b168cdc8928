/** One attach session from its reply to its exit frame: the reply write, the output drain and the reaper all
    run side by side, and whichever of end of output and exit of the child comes last releases the exit frame. */
module ExitHandshake {
  import opened Wrappers
  import opened Lines
  import opened Frames
  import Relaying = OutputRelay

  const REPLY: Byte := 0x01
  const EXIT: Byte := 0x02

  /** `Ended`: closed because a whole frame went out after the exit frame was armed.  `HungUp`: the client left. */
  datatype Status = Open | Ended | HungUp

  /** A frame write in flight: `off` bytes of `buf` are out. */
  datatype Sending = Sending(buf: seq<Byte>, off: nat)

  datatype Session = Session(
    status: Status,
    relay: Relaying.Relay,
    reply: Option<Sending>,
    exit: Option<Sending>,
    exitPayload: seq<Byte>,
    childExited: bool,
    drainDone: bool,
    exitSent: bool,
    armed: nat,
    wire: seq<Byte>)

  datatype Event =
    | Output(io: Relaying.Event)
    | ReplyWrote(n: nat)
    | ExitWrote(n: nat)
    | Reaped(payload: seq<Byte>)
    | HangUp

  function Start(reply: seq<Byte>): Session {
    var first := Sending(BuildFrame(Frame(REPLY, reply)), 0);
    Session(Open, Relaying.START, Some(first), None, [], false, false, false, 0, [])
  }

  predicate CanWrite(w: Option<Sending>, n: nat) {
    w.Some? && w.value.off + n <= |w.value.buf|
  }

  /** A child is waited for once; a write takes at most what it was given; a closed session hears nothing. */
  predicate Possible(s: Session, e: Event) {
    && s.status == Open
    && match e
       case Output(io) => Relaying.Possible(s.relay, io)
       case ReplyWrote(n) => CanWrite(s.reply, n)
       case ExitWrote(n) => CanWrite(s.exit, n)
       case Reaped(payload) => !s.childExited && |payload| < 65536
       case HangUp => true
  }

  /** `maybe_finish_session`. */
  function Finish(s: Session): Session {
    if !(s.drainDone && s.childExited) || s.exitSent then s
    else s.(exitSent := true, exit := Some(Sending(BuildFrame(Frame(EXIT, s.exitPayload)), 0)), armed := s.armed + 1)
  }

  function Wrote(w: Sending, n: nat): Option<Sending> {
    if w.off + n >= |w.buf| then None else Some(w.(off := w.off + n))
  }

  function Step(s: Session, e: Event): Session
    requires Possible(s, e)
  {
    match e
    case Output(io) =>
      var relay := Relaying.Step(s.relay, io);
      var next := s.(relay := relay, wire := s.wire + Relaying.Emitted(s.relay, io));
      if relay.drain.Done? then Finish(next.(drainDone := true)) else next
    case ReplyWrote(n) =>
      var w := s.reply.value;
      var next := s.(reply := Wrote(w, n), wire := s.wire + w.buf[w.off..w.off + n]);
      if next.reply.None? && s.exitSent then next.(status := Ended) else next
    case ExitWrote(n) =>
      var w := s.exit.value;
      var next := s.(exit := Wrote(w, n), wire := s.wire + w.buf[w.off..w.off + n]);
      if next.exit.None? && s.exitSent then next.(status := Ended) else next
    case Reaped(payload) => Finish(s.(childExited := true, exitPayload := payload))
    case HangUp => s.(status := HungUp)
  }

  predicate PossibleAll(s: Session, es: seq<Event>)
    decreases |es|
  {
    es == [] || (Possible(s, es[0]) && PossibleAll(Step(s, es[0]), es[1..]))
  }

  function Steps(s: Session, es: seq<Event>): Session
    requires PossibleAll(s, es)
    decreases |es|
  {
    if es == [] then s else Steps(Step(s, es[0]), es[1..])
  }

  // ── The handshake ──────────────────────────────────────────────────

  ghost predicate Inv(s: Session, reply: seq<Byte>) {
    && Relaying.RelayInv(s.relay) && |s.exitPayload| < 65536
    && (s.drainDone <==> s.relay.drain.Done?)
    && (s.exitSent <==> s.drainDone && s.childExited)
    && s.armed == (if s.exitSent then 1 else 0)
    && (s.reply.Some? ==>
          s.reply.value.buf == BuildFrame(Frame(REPLY, reply)) && s.reply.value.off < |s.reply.value.buf|)
    && (s.exit.Some? ==> s.exitSent && s.exit.value.buf == BuildFrame(Frame(EXIT, s.exitPayload)))
    && (s.exit.Some? ==> s.exit.value.off < |s.exit.value.buf|)
    && (s.exitSent && s.exit.None? ==> s.status == Ended)
    && (s.status == Ended ==> s.exitSent)
  }

  lemma StepKeeps(s: Session, e: Event, reply: seq<Byte>)
    requires Inv(s, reply) && Possible(s, e)
    ensures Inv(Step(s, e), reply)
  {
    hide Relaying.RelayInv, Relaying.Step, Relaying.Emitted;
    if e.Output? {
      Relaying.StepKeeps(s.relay, e.io);
    }
  }

  lemma {:induction false} StepsKeep(s: Session, es: seq<Event>, reply: seq<Byte>)
    requires Inv(s, reply) && PossibleAll(s, es)
    ensures Inv(Steps(s, es), reply)
    decreases |es|
  {
    hide Inv, Step, Possible;
    if es != [] {
      StepKeeps(s, es[0], reply);
      StepsKeep(Step(s, es[0]), es[1..], reply);
    }
  }

  lemma StartInv(reply: seq<Byte>)
    ensures Inv(Start(reply), reply)
  {
  }

  // ── In terms of what happened ──────────────────────────────────────

  /** The drain's events among those of the session. */
  function OutputsOf(es: seq<Event>): seq<Relaying.Event> {
    if es == [] then [] else (if es[0].Output? then [es[0].io] else []) + OutputsOf(es[1..])
  }

  /** The payload the reaper brought, the first time it came. */
  function PayloadOf(es: seq<Event>): Option<seq<Byte>> {
    if es == [] then None else if es[0].Reaped? then Some(es[0].payload) else PayloadOf(es[1..])
  }

  /** The bytes of the reply that writes took. */
  function ReplyBytes(es: seq<Event>): nat {
    if es == [] then 0 else (if es[0].ReplyWrote? then es[0].n else 0) + ReplyBytes(es[1..])
  }

  lemma StepSide(s: Session, e: Event)
    requires Possible(s, e)
    ensures var s' := Step(s, e);
      && s'.childExited == (s.childExited || e.Reaped?)
      && s'.exitPayload == (if e.Reaped? then e.payload else s.exitPayload)
      && s.status == Open && (s'.status == HungUp <==> e == HangUp)
      && s'.relay == (if e.Output? then Relaying.Step(s.relay, e.io) else s.relay)
      && (e.Reaped? ==> !s.childExited)
  {
    hide Relaying.Step, Relaying.Emitted, BuildFrame;
  }

  /** The session's fields say what happened: its drain saw the outputs, its child is known to have exited iff the
      reaper came, with the payload it brought, and it is hung up iff the client left. */
  lemma {:induction false} StepsTell(s: Session, es: seq<Event>)
    requires PossibleAll(s, es)
    ensures var s' := Steps(s, es);
      && Relaying.PossibleAll(s.relay, OutputsOf(es)) && s'.relay == Relaying.Steps(s.relay, OutputsOf(es))
      && (s'.childExited <==> s.childExited || PayloadOf(es).Some?)
      && s'.exitPayload == (if PayloadOf(es).Some? then PayloadOf(es).value else s.exitPayload)
      && (s.childExited ==> PayloadOf(es).None?)
      && (s'.status == HungUp <==> s.status == HungUp || HangUp in es)
    decreases |es|
  {
    hide Step, Relaying.Step, Relaying.Possible;
    if es != [] {
      StepSide(s, es[0]);
      StepsTell(Step(s, es[0]), es[1..]);
      assert forall x :: x in es <==> x == es[0] || x in es[1..];
      OutputsStep(s, es);
    }
  }

  lemma OutputsStep(s: Session, es: seq<Event>)
    requires es != [] && Possible(s, es[0])
    ensures es[0].Output? ==> Relaying.Possible(s.relay, es[0].io) && OutputsOf(es) == [es[0].io] + OutputsOf(es[1..])
    ensures es[0].Output? ==> OutputsOf(es)[0] == es[0].io && OutputsOf(es)[1..] == OutputsOf(es[1..])
    ensures !es[0].Output? ==> OutputsOf(es) == OutputsOf(es[1..])
  {
  }

  /** In every interleaving the exit frame is armed exactly when both events have happened, the drain's empty read
      and the reaper's visit, whichever came last; it is armed once, and by then no data frame is under way: the
      frames of everything the drain read are on the wire. */
  lemma ExitArmedOnce(reply: seq<Byte>, es: seq<Event>)
    requires PossibleAll(Start(reply), es)
    ensures var s, outputs := Steps(Start(reply), es), OutputsOf(es);
      && (s.armed == 1 <==> Relaying.Read([]) in outputs && PayloadOf(es).Some?) && s.armed <= 1
      && (s.armed == 1 ==> s.relay.wire == BuildAll(Relaying.DataFrames(Relaying.ChunksRead(outputs))))
  {
    StartInv(reply);
    StepsKeep(Start(reply), es, reply);
    StepsTell(Start(reply), es);
    hide Steps, PossibleAll, BuildAll, Relaying.RelayInv, Relaying.Steps, Relaying.DataFrames, Relaying.ChunksRead;
    Relaying.RelayWire(OutputsOf(es));
  }

  /** What can happen to an open session, told by what has happened: the reaper comes once, the client may leave at any
      time, the drain reads whenever the frames of all it read are out and no read was empty, and it writes, byte by
      byte if need be, whenever they are not. */
  lemma WhatCanHappen(reply: seq<Byte>, es: seq<Event>, payload: seq<Byte>, chunk: seq<Byte>)
    requires PossibleAll(Start(reply), es) && Steps(Start(reply), es).status == Open
    ensures var s, outputs := Steps(Start(reply), es), OutputsOf(es);
      && Possible(s, HangUp) && (Possible(s, Reaped(payload)) <==> PayloadOf(es).None? && |payload| < 65536)
      && (Possible(s, Output(Relaying.Read(chunk))) <==>
            && Relaying.Read([]) !in outputs && |chunk| < 65536
            && Relaying.BytesWritten(outputs) == |BuildAll(Relaying.DataFrames(Relaying.ChunksRead(outputs)))|)
      && (Possible(s, Output(Relaying.Wrote(1))) <==>
            Relaying.BytesWritten(outputs) < |BuildAll(Relaying.DataFrames(Relaying.ChunksRead(outputs)))|)
  {
    StepsTell(Start(reply), es);
    hide Steps, PossibleAll, Relaying.Steps;
    Relaying.FromStart(OutputsOf(es));
    Relaying.ReadsWhenWritten(Steps(Start(reply), es).relay);
  }

  // ── The exit frame and the reply ───────────────────────────────────

  /** The session closed itself before its exit frame was out. */
  predicate CutShort(s: Session) {
    s.status == Ended && s.exit.Some?
  }

  ghost predicate ExitSafe(s: Session) {
    forall es :: PossibleAll(s, es) ==> !CutShort(Steps(s, es))
  }

  lemma {:induction false} NoReplyNoCut(s: Session, es: seq<Event>, reply: seq<Byte>)
    requires Inv(s, reply) && PossibleAll(s, es) && s.reply.None? && !CutShort(s)
    ensures !CutShort(Steps(s, es))
    decreases |es|
  {
    hide Inv, Relaying.Step, Relaying.Emitted;
    if es != [] {
      StepKeeps(s, es[0], reply);
      NoReplyNoCut(Step(s, es[0]), es[1..], reply);
    }
  }

  /** Once the exit frame is armed, it is sure to be delivered before the session closes itself if and only if
      the reply frame is already out: a reply that completes later is taken for the exit frame. */
  lemma ExitSafeIff(s: Session, reply: seq<Byte>)
    requires Inv(s, reply) && s.status == Open && s.exitSent
    ensures ExitSafe(s) <==> s.reply.None?
  {
    if s.reply.None? {
      forall es | PossibleAll(s, es) ensures !CutShort(Steps(s, es)) {
        NoReplyNoCut(s, es, reply);
      }
    } else {
      var w := s.reply.value;
      var es := [ReplyWrote(|w.buf| - w.off)];
      assert PossibleAll(Step(s, es[0]), es[1..]);
      assert Steps(s, es) == Step(s, es[0]);
      assert CutShort(Steps(s, es));
    }
  }

  /** Such a session is reachable: a client slow to read its reply, a child that exits silently. */
  lemma ReplyCanOutlastTheChild(reply: seq<Byte>, payload: seq<Byte>)
    requires |payload| < 65536
    ensures var es := [Output(Relaying.Read([])), Reaped(payload)];
      && PossibleAll(Start(reply), es) && Steps(Start(reply), es).exitSent && !ExitSafe(Steps(Start(reply), es))
  {
    var a, e0, e1 := Start(reply), Output(Relaying.Read([])), Reaped(payload);
    var b := Step(a, e0);
    var c := Step(b, e1);
    assert [e0, e1][1..] == [e1] && [e1][1..] == [];
    assert PossibleAll(b, [e1]) && Steps(b, [e1]) == c by {
      assert PossibleAll(c, []);
    }
    StartInv(reply);
    StepKeeps(a, e0, reply);
    StepKeeps(b, e1, reply);
    ExitSafeIff(c, reply);
  }

  // ── The whole stream ───────────────────────────────────────────────

  /** Bytes of a data frame or of the exit frame go out only once the reply is out. */
  predicate Orderly(s: Session, e: Event) {
    (e.ExitWrote? && e.n > 0) || (e.Output? && e.io.Wrote? && e.io.n > 0) ==> s.reply.None?
  }

  predicate AllOrderly(s: Session, es: seq<Event>)
    requires PossibleAll(s, es)
    decreases |es|
  {
    es == [] || (Orderly(s, es[0]) && AllOrderly(Step(s, es[0]), es[1..]))
  }

  function ExitBytes(s: Session): seq<Byte> {
    if !s.exitSent then []
    else if s.exit.None? then BuildFrame(Frame(EXIT, s.exitPayload))
    else if s.exit.value.off <= |s.exit.value.buf| then s.exit.value.buf[..s.exit.value.off] else []
  }

  /** The stream in order: the part of the reply that is out and nothing else, or the whole reply, the data
      frames and the part of the exit frame that is out. */
  ghost predicate WireInv(s: Session, reply: seq<Byte>) {
    if s.reply.Some? then
      s.reply.value.off <= |s.reply.value.buf| && s.wire == s.reply.value.buf[..s.reply.value.off]
      && s.relay.wire == [] && ExitBytes(s) == []
    else s.wire == BuildFrame(Frame(REPLY, reply)) + s.relay.wire + ExitBytes(s)
  }

  lemma EmittedOnWire(r: Relaying.Relay, io: Relaying.Event)
    requires Relaying.Possible(r, io)
    ensures Relaying.Step(r, io).wire == r.wire + Relaying.Emitted(r, io)
    ensures |Relaying.Emitted(r, io)| == if io.Wrote? then io.n else 0
  {
  }

  lemma Regroup(a: seq<Byte>, b: seq<Byte>, c: seq<Byte>, d: seq<Byte>)
    ensures a + b + [] + c == a + (b + c) + [] && a + b + c + d == a + b + (c + d) && a + [] == a
  {
  }

  lemma NextPart(w: Sending, n: nat)
    requires w.off + n <= |w.buf|
    ensures w.buf[..w.off] + w.buf[w.off..w.off + n] == w.buf[..w.off + n] && w.buf[..|w.buf|] == w.buf
  {
  }

  lemma OutputWire(s: Session, e: Event, reply: seq<Byte>)
    requires Inv(s, reply) && WireInv(s, reply) && Possible(s, e) && Orderly(s, e) && e.Output?
    ensures WireInv(Step(s, e), reply)
  {
    hide Relaying.Step, Relaying.Emitted, Relaying.RelayInv, BuildFrame;
    EmittedOnWire(s.relay, e.io);
    var emitted := Relaying.Emitted(s.relay, e.io);
    assert !s.exitSent && ExitBytes(s) == [] && ExitBytes(Step(s, e)) == [];
    if s.reply.None? {
      Regroup(BuildFrame(Frame(REPLY, reply)), s.relay.wire, emitted, []);
    } else {
      Regroup(s.wire, [], [], []);
    }
  }

  lemma ReplyWire(s: Session, e: Event, reply: seq<Byte>)
    requires Inv(s, reply) && WireInv(s, reply) && Possible(s, e) && e.ReplyWrote?
    ensures WireInv(Step(s, e), reply)
  {
    hide Relaying.RelayInv, BuildFrame;
    NextPart(s.reply.value, e.n);
    assert ExitBytes(Step(s, e)) == ExitBytes(s) == [];
    Regroup(BuildFrame(Frame(REPLY, reply)), [], [], []);
  }

  lemma ExitWire(s: Session, e: Event, reply: seq<Byte>)
    requires Inv(s, reply) && WireInv(s, reply) && Possible(s, e) && Orderly(s, e) && e.ExitWrote?
    ensures WireInv(Step(s, e), reply)
  {
    hide Relaying.RelayInv, BuildFrame;
    var w := s.exit.value;
    NextPart(w, e.n);
    assert ExitBytes(s) == w.buf[..w.off] && ExitBytes(Step(s, e)) == w.buf[..w.off + e.n];
    Regroup(BuildFrame(Frame(REPLY, reply)), s.relay.wire, w.buf[..w.off], w.buf[w.off..w.off + e.n]);
  }

  lemma StepKeepsWire(s: Session, e: Event, reply: seq<Byte>)
    requires Inv(s, reply) && WireInv(s, reply) && Possible(s, e) && Orderly(s, e)
    ensures WireInv(Step(s, e), reply)
  {
    match e {
      case Output(_) => OutputWire(s, e, reply);
      case ReplyWrote(_) => ReplyWire(s, e, reply);
      case ExitWrote(_) => ExitWire(s, e, reply);
      case Reaped(_) => assert s.exit.None?;
      case HangUp =>
    }
  }

  /** A step keeps the stream in order exactly when it is orderly. */
  lemma StepOrderlyIff(s: Session, e: Event, reply: seq<Byte>)
    requires Inv(s, reply) && WireInv(s, reply) && Possible(s, e)
    ensures WireInv(Step(s, e), reply) <==> Orderly(s, e)
  {
    if Orderly(s, e) {
      StepKeepsWire(s, e, reply);
    } else if e.Output? {
      hide Relaying.Step, Relaying.Emitted, Relaying.RelayInv, BuildFrame;
      EmittedOnWire(s.relay, e.io);
      assert Step(s, e).reply.Some? && Step(s, e).relay.wire != [];
    } else {
      FrameNotEmpty(Frame(EXIT, s.exitPayload));
      hide BuildFrame;
      assert Step(s, e).reply.Some? && ExitBytes(Step(s, e)) != [];
    }
  }

  /** The stream is in order in every state of the run. */
  ghost predicate AlwaysInOrder(s: Session, es: seq<Event>, reply: seq<Byte>)
    requires PossibleAll(s, es)
    decreases |es|
  {
    WireInv(s, reply) && (es == [] || AlwaysInOrder(Step(s, es[0]), es[1..], reply))
  }

  /** A run keeps the stream in order exactly when each of its steps is orderly. */
  lemma {:induction false} InOrderIff(s: Session, es: seq<Event>, reply: seq<Byte>)
    requires Inv(s, reply) && WireInv(s, reply) && PossibleAll(s, es)
    ensures AlwaysInOrder(s, es, reply) <==> AllOrderly(s, es)
    ensures AllOrderly(s, es) ==> WireInv(Steps(s, es), reply)
    decreases |es|
  {
    hide Inv, WireInv, Step, Possible, Orderly;
    if es != [] {
      StepKeeps(s, es[0], reply);
      StepOrderlyIff(s, es[0], reply);
      if Orderly(s, es[0]) {
        InOrderIff(Step(s, es[0]), es[1..], reply);
      } else if es[1..] != [] {
        assert !WireInv(Step(s, es[0]), reply);
      }
    }
  }

  lemma {:induction false} ReplyStaysOut(s: Session, es: seq<Event>)
    requires s.reply.None? && PossibleAll(s, es)
    ensures AllOrderly(s, es)
    decreases |es|
  {
    hide Relaying.Step, Relaying.Emitted;
    if es != [] {
      ReplyStaysOut(Step(s, es[0]), es[1..]);
    }
  }

  /** No continuation puts the stream out of order. */
  ghost predicate StreamSafe(s: Session, reply: seq<Byte>) {
    forall es :: PossibleAll(s, es) ==> WireInv(Steps(s, es), reply)
  }

  lemma StepsTo(s: Session, e: Event, es: seq<Event>)
    requires Possible(s, e) && PossibleAll(Step(s, e), es)
    ensures PossibleAll(s, [e] + es) && Steps(s, [e] + es) == Steps(Step(s, e), es)
  {
    assert ([e] + es)[1..] == es;
  }

  lemma UnsafeBefore(s: Session, e: Event, reply: seq<Byte>)
    requires Possible(s, e) && (!WireInv(Step(s, e), reply) || !StreamSafe(Step(s, e), reply))
    ensures !StreamSafe(s, reply)
  {
    hide Step, Possible, WireInv;
    var t := Step(s, e);
    if !WireInv(t, reply) {
      assert PossibleAll(t, []) && Steps(t, []) == t;
      StepsTo(s, e, []);
    } else {
      var es :| PossibleAll(t, es) && !WireInv(Steps(t, es), reply);
      StepsTo(s, e, es);
    }
  }

  /** With the reply still going out, one more byte of the exit frame or of a data frame breaks the order. */
  lemma ExitBreaksOrder(s: Session, reply: seq<Byte>)
    requires Inv(s, reply) && WireInv(s, reply) && s.status == Open && s.reply.Some? && s.drainDone
    ensures !StreamSafe(s, reply)
    decreases !s.childExited
  {
    hide StreamSafe, WireInv;
    if s.childExited {
      StepOrderlyIff(s, ExitWrote(1), reply);
      UnsafeBefore(s, ExitWrote(1), reply);
    } else {
      var e := Reaped([]);
      StepKeeps(s, e, reply);
      StepOrderlyIff(s, e, reply);
      ExitBreaksOrder(Step(s, e), reply);
      UnsafeBefore(s, e, reply);
    }
  }

  lemma DataBreaksOrder(s: Session, reply: seq<Byte>)
    requires Inv(s, reply) && WireInv(s, reply) && s.status == Open && s.reply.Some? && !s.drainDone
    ensures !StreamSafe(s, reply)
  {
    if s.relay.drain.Reading? {
      var e := Output(Relaying.Read([7]));
      StepKeeps(s, e, reply);
      StepOrderlyIff(s, e, reply);
      hide StreamSafe, WireInv, Inv;
      HeaderBreaksOrder(Step(s, e), reply);
      UnsafeBefore(s, e, reply);
    } else {
      NotInPayload(s.relay);
      hide StreamSafe, WireInv;
      HeaderBreaksOrder(s, reply);
    }
  }

  lemma NotInPayload(r: Relaying.Relay)
    requires Relaying.RelayInv(r) && r.wire == []
    ensures !r.drain.Payload?
  {
    if r.drain.Payload? {
      hide BuildAll;
      Relaying.FrameIsHeaderAndPayload(r.drain.chunk);
    }
  }

  lemma HeaderBreaksOrder(s: Session, reply: seq<Byte>)
    requires Inv(s, reply) && WireInv(s, reply) && s.status == Open && s.reply.Some? && s.relay.drain.Header?
    ensures !StreamSafe(s, reply)
  {
    hide StreamSafe, WireInv;
    var e := Output(Relaying.Wrote(1));
    StepOrderlyIff(s, e, reply);
    UnsafeBefore(s, e, reply);
  }

  /** An open session whose stream is in order keeps it so, whatever happens, if and only if its reply is out. */
  lemma StreamSafeIff(s: Session, reply: seq<Byte>)
    requires Inv(s, reply) && WireInv(s, reply) && s.status == Open
    ensures StreamSafe(s, reply) <==> s.reply.None?
  {
    hide Inv, WireInv;
    if s.reply.None? {
      forall es | PossibleAll(s, es) ensures WireInv(Steps(s, es), reply) {
        ReplyStaysOut(s, es);
        InOrderIff(s, es, reply);
      }
    } else if s.drainDone {
      ExitBreaksOrder(s, reply);
    } else {
      DataBreaksOrder(s, reply);
    }
  }

  // ── What a client reads ────────────────────────────────────────────

  /** The client reads back the reply, one data frame for every chunk the container wrote, in order, then the
      exit frame, and nothing else. */
  ghost predicate Delivered(s: Session, reply: seq<Byte>) {
    Decode(s.wire) == ([Frame(REPLY, reply)] + Relaying.DataFrames(s.relay.taken) + [Frame(EXIT, s.exitPayload)], [])
  }

  lemma {:induction false} StepsConcat(s: Session, a: seq<Event>, b: seq<Event>)
    requires PossibleAll(s, a)
    ensures PossibleAll(s, a + b) <==> PossibleAll(Steps(s, a), b)
    ensures PossibleAll(s, a + b) ==> Steps(s, a + b) == Steps(Steps(s, a), b)
    decreases |a|
  {
    hide Step, Possible;
    if a == [] {
      assert a + b == b;
    } else {
      assert (a + b)[0] == a[0] && (a + b)[1..] == a[1..] + b;
      StepsConcat(Step(s, a[0]), a[1..], b);
    }
  }

  /** The client reads back exactly the reply, one data frame for every chunk the container wrote, in order, then
      the exit frame with what the reaper brought; all of it told by the events. */
  ghost predicate ReadBack(wire: seq<Byte>, reply: seq<Byte>, es: seq<Event>) {
    && PayloadOf(es).Some?
    && Decode(wire) == ([Frame(0x01, reply)] + Relaying.DataFrames(Relaying.ChunksRead(OutputsOf(es)))
                        + [Frame(0x02, PayloadOf(es).value)], [])
  }

  lemma {:induction false} ReplyLeft(s: Session, es: seq<Event>, reply: seq<Byte>)
    requires Inv(s, reply) && PossibleAll(s, es)
    ensures s.reply.None? ==> ReplyBytes(es) == 0 && Steps(s, es).reply.None?
    ensures s.reply.Some? ==>
      (Steps(s, es).reply.None? <==> s.reply.value.off + ReplyBytes(es) == |s.reply.value.buf|)
    ensures s.reply.Some? ==> s.reply.value.off + ReplyBytes(es) <= |s.reply.value.buf|
    ensures Steps(s, es).reply.Some? ==>
      s.reply.Some? && Steps(s, es).reply.value == s.reply.value.(off := s.reply.value.off + ReplyBytes(es))
    decreases |es|
  {
    StandingReply(s, reply);
    hide Inv, Step, Possible;
    if es != [] {
      StepKeeps(s, es[0], reply);
      ReplyStep(s, es[0]);
      ReplyLeft(Step(s, es[0]), es[1..], reply);
    }
  }

  lemma StandingReply(s: Session, reply: seq<Byte>)
    requires Inv(s, reply)
    ensures s.reply.Some? ==> s.reply.value.off < |s.reply.value.buf|
  {
  }

  lemma ReplyStep(s: Session, e: Event)
    requires Possible(s, e)
    ensures var n := if e.ReplyWrote? then e.n else 0;
      if s.reply.None? then n == 0 && Step(s, e).reply.None?
      else
        var w := s.reply.value;
        Step(s, e).reply == if e.ReplyWrote? && w.off + n == |w.buf| then None else Some(w.(off := w.off + n))
  {
    hide Relaying.Step, Relaying.Emitted, BuildFrame;
  }

  /** The reply is out exactly when the writes took all of its frame. */
  lemma ReplyOutIff(reply: seq<Byte>, es: seq<Event>)
    requires PossibleAll(Start(reply), es)
    ensures Steps(Start(reply), es).reply.None? <==> ReplyBytes(es) == 3 + |reply|
  {
    StartInv(reply);
    ReplyLeft(Start(reply), es, reply);
    FrameBytes(Frame(REPLY, reply));
  }

  /** The reply's writes may take any part of what is left of it. */
  lemma ReplyCanBeWritten(reply: seq<Byte>, es: seq<Event>, n: nat)
    requires PossibleAll(Start(reply), es) && Steps(Start(reply), es).status == Open
    ensures Possible(Steps(Start(reply), es), ReplyWrote(n)) <==>
      ReplyBytes(es) < 3 + |reply| && ReplyBytes(es) + n <= 3 + |reply|
  {
    StartInv(reply);
    ReplyLeft(Start(reply), es, reply);
    FrameBytes(Frame(REPLY, reply));
    hide Steps, PossibleAll;
  }

  /** For a session that ended, what the fields say was delivered is what happened. */
  lemma DeliveredIsReadBack(reply: seq<Byte>, es: seq<Event>)
    requires PossibleAll(Start(reply), es) && Steps(Start(reply), es).status == Ended
    ensures Delivered(Steps(Start(reply), es), reply) <==> ReadBack(Steps(Start(reply), es).wire, reply, es)
  {
    StartInv(reply);
    StepsKeep(Start(reply), es, reply);
    StepsTell(Start(reply), es);
    hide Steps, PossibleAll, Relaying.Steps, Decode, Relaying.RelayInv;
    Relaying.FromStart(OutputsOf(es));
  }

  lemma InOrderDelivers(s: Session, reply: seq<Byte>)
    requires Inv(s, reply) && WireInv(s, reply) && |reply| < 65536 && s.status == Ended && s.exit.None?
    ensures Delivered(s, reply)
  {
    FrameNotEmpty(Frame(EXIT, s.exitPayload));
    hide BuildFrame;
    StreamDecodes(reply, s.relay.taken, s.exitPayload);
  }

  /** A session whose steps were orderly and whose exit frame is out is read back whole. */
  lemma SessionDelivers(reply: seq<Byte>, es: seq<Event>)
    requires |reply| < 65536 && PossibleAll(Start(reply), es) && AllOrderly(Start(reply), es)
    ensures var s := Steps(Start(reply), es); s.status == Ended && s.exit.None? ==> ReadBack(s.wire, reply, es)
    ensures var chunks := Relaying.ChunksRead(OutputsOf(es));
      && |Relaying.DataFrames(chunks)| == |chunks|
      && forall i :: 0 <= i < |chunks| ==> Relaying.DataFrames(chunks)[i] == Frame(0x10, chunks[i])
  {
    StartInv(reply);
    StepsKeep(Start(reply), es, reply);
    assert WireInv(Start(reply), reply);
    InOrderIff(Start(reply), es, reply);
    StepsTell(Start(reply), es);
    Relaying.FromStart(OutputsOf(es));
    var s := Steps(Start(reply), es);
    Relaying.DataFramesFit(s.relay.taken);
    hide Steps, PossibleAll, AllOrderly, Inv, WireInv, Delivered, ReadBack;
    if s.status == Ended && s.exit.None? {
      InOrderDelivers(s, reply);
      DeliveredIsReadBack(reply, es);
    }
  }

  /** Every continuation that ends the session delivers it whole. */
  ghost predicate EndsWholeFrom(s: Session, reply: seq<Byte>) {
    forall es :: PossibleAll(s, es) && Steps(s, es).status == Ended ==> Delivered(Steps(s, es), reply)
  }

  /** As many bytes are out as the three writers have written, in whatever order. */
  ghost predicate Sized(s: Session, reply: seq<Byte>) {
    var out := if s.reply.Some? then s.reply.value.off else |BuildFrame(Frame(REPLY, reply))|;
    |s.wire| == out + |s.relay.wire| + |ExitBytes(s)|
  }

  lemma StepKeepsSize(s: Session, e: Event, reply: seq<Byte>)
    requires Inv(s, reply) && Sized(s, reply) && Possible(s, e)
    ensures Sized(Step(s, e), reply)
  {
    hide Relaying.RelayInv, Relaying.Step, Relaying.Emitted, BuildFrame;
    if e.Output? {
      EmittedOnWire(s.relay, e.io);
    }
  }

  lemma {:induction false} DecodeLength(w: seq<Byte>)
    ensures |w| == |BuildAll(Decode(w).0)| + |Decode(w).1|
    decreases |w|
  {
    match Parse(w)
    case Eof =>
    case Got(f, rest) =>
      DecodeLength(rest);
      var fs := Decode(w).0;
      assert fs[1..] == Decode(rest).0 && |BuildFrame(f)| == 3 + |f.payload|;
  }

  /** A session cut short is not delivered whole: the stream is shorter than that. */
  lemma CutShortLosesExit(s: Session, reply: seq<Byte>)
    requires Inv(s, reply) && Sized(s, reply) && CutShort(s) && s.reply.None?
    ensures !Delivered(s, reply)
  {
    hide BuildFrame, Decode;
    DecodeLength(s.wire);
    var data := Relaying.DataFrames(s.relay.taken);
    var first, last := Frame(REPLY, reply), Frame(EXIT, s.exitPayload);
    BuildSnoc([first] + data, last);
    assert ([first] + data)[1..] == data;
  }

  lemma BadBefore(s: Session, e: Event, reply: seq<Byte>)
    requires Possible(s, e) && !EndsWholeFrom(Step(s, e), reply)
    ensures !EndsWholeFrom(s, reply)
  {
    hide Step, Possible, Delivered;
    var es :| PossibleAll(Step(s, e), es) && Steps(Step(s, e), es).status == Ended
      && !Delivered(Steps(Step(s, e), es), reply);
    StepsTo(s, e, es);
  }

  /** With the exit frame armed, the end of the reply ends the session. */
  lemma ReplyEndsSession(s: Session, reply: seq<Byte>)
    requires Inv(s, reply) && Sized(s, reply) && s.status == Open && s.reply.Some? && s.exitSent
    ensures !EndsWholeFrom(s, reply)
  {
    var e := ReplyWrote(|s.reply.value.buf| - s.reply.value.off);
    StepKeeps(s, e, reply);
    StepKeepsSize(s, e, reply);
    var t := Step(s, e);
    CutShortLosesExit(t, reply);
    hide Inv, Sized, Delivered;
    assert PossibleAll(t, []) && Steps(t, []) == t;
    BadBefore(s, e, reply);
  }

  /** What the drain does next on its way to its end. */
  function NextOutput(d: Relaying.Drain): Relaying.Event {
    match d
    case Header(_, off) => Relaying.Wrote(if off <= 3 then 3 - off else 0)
    case Payload(chunk, off) => Relaying.Wrote(if off <= |chunk| then |chunk| - off else 0)
    case _ => Relaying.Read([])
  }

  function StepsLeft(s: Session): nat {
    match s.relay.drain
    case Header(_, _) => 4
    case Payload(_, _) => 3
    case Reading => 2
    case Done => if s.childExited then 0 else 1
  }

  /** While the reply is going out, the session may run on to its end and be closed by the reply. */
  lemma ReplyCanCutShort(s: Session, reply: seq<Byte>)
    requires Inv(s, reply) && Sized(s, reply) && s.status == Open && s.reply.Some?
    ensures !EndsWholeFrom(s, reply)
    decreases StepsLeft(s)
  {
    if s.exitSent {
      ReplyEndsSession(s, reply);
    } else {
      var e := if s.drainDone then Reaped([]) else Output(NextOutput(s.relay.drain));
      StepKeeps(s, e, reply);
      StepKeepsSize(s, e, reply);
      ReplyCanCutShort(Step(s, e), reply);
      BadBefore(s, e, reply);
    }
  }

  lemma InOrderIsSized(s: Session, reply: seq<Byte>)
    requires Inv(s, reply) && WireInv(s, reply)
    ensures Sized(s, reply)
  {
    hide BuildFrame, Relaying.RelayInv;
  }

  /** An open session whose stream is in order is sure to be read back whole by its client, whenever it ends
      by itself, if and only if its reply is out. */
  lemma EndsWholeFromIff(s: Session, reply: seq<Byte>)
    requires Inv(s, reply) && WireInv(s, reply) && s.status == Open && |reply| < 65536
    ensures EndsWholeFrom(s, reply) <==> s.reply.None?
  {
    InOrderIsSized(s, reply);
    hide Inv, WireInv, Sized, Delivered;
    if s.reply.None? {
      forall es | PossibleAll(s, es) && Steps(s, es).status == Ended ensures Delivered(Steps(s, es), reply) {
        ReplyStaysOut(s, es);
        InOrderIff(s, es, reply);
        NoReplyNoCut(s, es, reply);
        StepsKeep(s, es, reply);
        InOrderDelivers(Steps(s, es), reply);
      }
    } else {
      ReplyCanCutShort(s, reply);
    }
  }

  /** Whatever follows `past`, a session that ends by itself is read back whole. */
  ghost predicate EndsWhole(reply: seq<Byte>, past: seq<Event>) {
    forall es :: PossibleAll(Start(reply), past + es) && Steps(Start(reply), past + es).status == Ended ==>
      ReadBack(Steps(Start(reply), past + es).wire, reply, past + es)
  }

  /** After any orderly run that left the session open: whatever follows, the client is sure to read back whole a
      session that ends by itself, if and only if the reply is out by then. */
  lemma EndsWholeIff(reply: seq<Byte>, past: seq<Event>)
    requires |reply| < 65536 && PossibleAll(Start(reply), past) && AllOrderly(Start(reply), past)
    requires Steps(Start(reply), past).status == Open
    ensures EndsWhole(reply, past) <==> ReplyBytes(past) == 3 + |reply|
  {
    ReplyOutIff(reply, past);
    StartInv(reply);
    StepsKeep(Start(reply), past, reply);
    assert WireInv(Start(reply), reply);
    InOrderIff(Start(reply), past, reply);
    var s := Steps(Start(reply), past);
    hide Inv, WireInv, Delivered, ReadBack, PossibleAll, Steps;
    EndsWholeFromIff(s, reply);
    if EndsWholeFrom(s, reply) {
      forall es | PossibleAll(Start(reply), past + es) && Steps(Start(reply), past + es).status == Ended
        ensures ReadBack(Steps(Start(reply), past + es).wire, reply, past + es)
      {
        StepsConcat(Start(reply), past, es);
        DeliveredIsReadBack(reply, past + es);
      }
    } else {
      var es :| PossibleAll(s, es) && Steps(s, es).status == Ended && !Delivered(Steps(s, es), reply);
      StepsConcat(Start(reply), past, es);
      DeliveredIsReadBack(reply, past + es);
    }
  }

  lemma StreamDecodes(reply: seq<Byte>, chunks: seq<seq<Byte>>, payload: seq<Byte>)
    requires |reply| < 65536 && |payload| < 65536 && forall i :: 0 <= i < |chunks| ==> |chunks[i]| < 65536
    ensures var data := Relaying.DataFrames(chunks);
      && Decode(BuildFrame(Frame(REPLY, reply)) + BuildAll(data) + BuildFrame(Frame(EXIT, payload)))
         == ([Frame(REPLY, reply)] + data + [Frame(EXIT, payload)], [])
      && |data| == |chunks| && forall i :: 0 <= i < |chunks| ==> data[i] == Frame(Relaying.DATA, chunks[i])
  {
    hide BuildFrame, Decode, Parse;
    var data, first, last := Relaying.DataFrames(chunks), Frame(REPLY, reply), Frame(EXIT, payload);
    var fs := [first] + data + [last];
    Relaying.DataFramesFit(chunks);
    BuildSnoc([first] + data, last);
    assert ([first] + data)[1..] == data;
    assert BuildAll([first] + data) == BuildFrame(first) + BuildAll(data);
    Relaying.NothingIsEof();
    DecodeInvertsBuild(fs, []);
    assert BuildAll(fs) + [] == BuildAll(fs);
  }

  lemma FrameNotEmpty(f: Frame)
    ensures BuildFrame(f) != []
  {
  }

  /** Without the order the stream is garbled: a data header that goes out between two halves of the reply
      leaves a client without even the reply. */
  lemma UnorderlyReplyIsGarbled()
    ensures var es := [ReplyWrote(1), Output(Relaying.Read([7])), Output(Relaying.Wrote(3)), ReplyWrote(2)];
      PossibleAll(Start([]), es) && Steps(Start([]), es).reply.None? && Decode(Steps(Start([]), es).wire).0 == []
  {
    hide Decode, Parse;
    var e0, e1, e2, e3 := ReplyWrote(1), Output(Relaying.Read([7])), Output(Relaying.Wrote(3)), ReplyWrote(2);
    var a := Start([]);
    assert a.reply.value.buf == [1, 0, 0];
    var b := Step(a, e0);
    var c := Step(b, e1);
    var d := Step(c, e2);
    var e := Step(d, e3);
    assert PossibleAll(e, []);
    assert [e3][1..] == [];
    assert PossibleAll(d, [e3]) && Steps(d, [e3]) == e;
    assert [e2, e3][1..] == [e3];
    assert PossibleAll(c, [e2, e3]) && Steps(c, [e2, e3]) == e;
    assert [e1, e2, e3][1..] == [e2, e3];
    assert PossibleAll(b, [e1, e2, e3]) && Steps(b, [e1, e2, e3]) == e;
    assert [e0, e1, e2, e3][1..] == [e1, e2, e3];
    assert Relaying.HeaderOf([7]) == [16, 1, 0];
    assert e.wire == [1, 16, 1, 0, 0, 0];
    GarbledBytes();
  }

  lemma GarbledBytes()
    ensures Decode([1, 16, 1, 0, 0, 0]).0 == []
  {
    var s: seq<Byte> := [1, 16, 1, 0, 0, 0];
    assert FrameLength(s[..3]) == 272;
  }

  // ── The callbacks ──────────────────────────────────────────────────

  /** `AttachSession` with the locals of its ops; each callback takes the step of its event. */
  class AttachSession {
    var status: Status
    var drain: Relaying.Drain
    var reply: Option<Sending>
    var exit: Option<Sending>
    var exitPayload: seq<Byte>
    var childExited: bool
    var drainDone: bool
    var exitSent: bool
    var stream: seq<Byte>
    ghost var relayed: seq<Byte>
    ghost var taken: seq<seq<Byte>>
    ghost var armed: nat

    ghost function View(): Session
      reads this
    {
      var relay := Relaying.Relay(drain, relayed, taken);
      Session(status, relay, reply, exit, exitPayload, childExited, drainDone, exitSent, armed, stream)
    }

    constructor (payload: seq<Byte>)
      ensures View() == Start(payload)
    {
      status, drain := Open, Relaying.Reading;
      reply, exit, exitPayload := Some(Sending(BuildFrame(Frame(REPLY, payload)), 0)), None, [];
      childExited, drainDone, exitSent, stream := false, false, false, [];
      relayed, taken, armed := [], [], 0;
    }

    method MaybeFinish()
      modifies this
      ensures View() == Finish(old(View()))
    {
      if !(drainDone && childExited) || exitSent {
        return;
      }
      exitSent := true;
      exit := Some(Sending(BuildFrame(Frame(EXIT, exitPayload)), 0));
      armed := armed + 1;
    }

    method OnOutput(chunk: seq<Byte>)
      requires Possible(View(), Output(Relaying.Read(chunk)))
      modifies this
      ensures View() == Step(old(View()), Output(Relaying.Read(chunk)))
    {
      assert stream + [] == stream;
      if chunk == [] {
        drain := Relaying.Done;
        drainDone := true;
        MaybeFinish();
      } else {
        drain := Relaying.Header(chunk, 0);
        taken := taken + [chunk];
      }
    }

    method OnHeaderWritten(n: nat)
      requires drain.Header? && Possible(View(), Output(Relaying.Wrote(n)))
      modifies this
      ensures View() == Step(old(View()), Output(Relaying.Wrote(n)))
    {
      var part := Relaying.HeaderOf(drain.chunk)[drain.off..drain.off + n];
      stream, relayed := stream + part, relayed + part;
      var off := drain.off + n;
      drain := if off < 3 then Relaying.Header(drain.chunk, off) else Relaying.Payload(drain.chunk, 0);
    }

    method OnPayloadWritten(n: nat)
      requires drain.Payload? && Possible(View(), Output(Relaying.Wrote(n)))
      modifies this
      ensures View() == Step(old(View()), Output(Relaying.Wrote(n)))
    {
      var part := drain.chunk[drain.off..drain.off + n];
      stream, relayed := stream + part, relayed + part;
      var off := drain.off + n;
      drain := if off >= |drain.chunk| then Relaying.Reading else Relaying.Payload(drain.chunk, off);
    }

    method OnReaped(payload: seq<Byte>)
      requires Possible(View(), Reaped(payload))
      modifies this
      ensures View() == Step(old(View()), Reaped(payload))
    {
      childExited, exitPayload := true, payload;
      MaybeFinish();
    }

    /** `on_session_frame` serves both frames: a whole frame closes the session once the exit frame is armed. */
    method OnFrameWritten(isExit: bool, n: nat)
      requires Possible(View(), if isExit then ExitWrote(n) else ReplyWrote(n))
      modifies this
      ensures View() == Step(old(View()), if isExit then ExitWrote(n) else ReplyWrote(n))
    {
      var w := if isExit then exit.value else reply.value;
      stream := stream + w.buf[w.off..w.off + n];
      var off := w.off + n;
      var left := if off >= |w.buf| then None else Some(w.(off := off));
      if isExit {
        exit := left;
      } else {
        reply := left;
      }
      if left.None? && exitSent {
        status := Ended;
      }
    }
  }
}
