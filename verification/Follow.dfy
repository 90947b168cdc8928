/** Live log followers: the gateway records lines in the cache and feeds them to idle pipes. */
module FollowPipes {
  import opened Wrappers
  import opened Lines
  import opened LogCaches

  const WRITE_CHUNK_PAYLOAD: nat := 65535

  // ── One line as write buffers ──────────────────────────────────────

  /** `split_line`.  A buffer that is not the last one is a byte longer than what is copied into it; `junk` is
      whatever that byte held before. */
  function SplitLine(line: seq<Byte>, junk: Byte): seq<seq<Byte>> {
    if |line| <= WRITE_CHUNK_PAYLOAD then [line + [NL]]
    else [line[..WRITE_CHUNK_PAYLOAD] + [junk]] + SplitLine(line[WRITE_CHUNK_PAYLOAD..], junk)
  }

  function Join(chunks: seq<seq<Byte>>): seq<Byte> {
    if chunks == [] then [] else chunks[0] + Join(chunks[1..])
  }

  lemma {:induction false} SplitLineLength(line: seq<Byte>, junk: Byte)
    ensures |Join(SplitLine(line, junk))| == |line| + |SplitLine(line, junk)| && |SplitLine(line, junk)| >= 1
    ensures |line| > WRITE_CHUNK_PAYLOAD ==> |SplitLine(line, junk)| >= 2
  {
    if |line| <= WRITE_CHUNK_PAYLOAD {
      assert Join([line + [NL]]) == line + [NL] + Join([]);
    } else {
      SplitLineLength(line[WRITE_CHUNK_PAYLOAD..], junk);
      assert SplitLine(line, junk)[1..] == SplitLine(line[WRITE_CHUNK_PAYLOAD..], junk);
    }
  }

  /** The buffers carry the line and its newline, and nothing else, exactly for lines that fit one buffer. */
  lemma SplitLineExactIff(line: seq<Byte>, junk: Byte)
    ensures Join(SplitLine(line, junk)) == line + [NL] <==> |line| <= 65535
  {
    SplitLineLength(line, junk);
    if |line| <= WRITE_CHUNK_PAYLOAD {
      assert Join([line + [NL]]) == line + [NL] + Join([]);
    }
  }

  // ── What a follower sees ───────────────────────────────────────────

  /** The pushed lines at the given positions, each with its newline. */
  function Picked(pushed: seq<seq<Byte>>, at: seq<nat>): seq<Byte>
    requires forall k :: 0 <= k < |at| ==> at[k] < |pushed|
  {
    if at == [] then [] else Picked(pushed, at[..|at| - 1]) + pushed[at[|at| - 1]] + [NL]
  }

  lemma {:induction false} PickedGrows(pushed: seq<seq<Byte>>, line: seq<Byte>, at: seq<nat>)
    requires forall k :: 0 <= k < |at| ==> at[k] < |pushed|
    ensures Picked(pushed + [line], at) == Picked(pushed, at)
  {
    if at != [] {
      PickedGrows(pushed, line, at[..|at| - 1]);
    }
  }

  /** A follower: what the cache held when it was attached, how many lines had been pushed by then, which
      later lines it was given, and the bytes written to it so far. */
  datatype Trace = Trace(snapshot: seq<Byte>, since: nat, took: seq<nat>, sent: seq<Byte>)

  /** The follower got later lines only, in order, each at most once; and what it was sent, completed by what is
      still to be written of the line under way, is the snapshot followed by those lines. */
  ghost predicate Faithful(t: Trace, rest: seq<Byte>, pushed: seq<seq<Byte>>) {
    && t.since <= |pushed|
    && (forall k :: 0 <= k < |t.took| ==> t.since <= t.took[k] < |pushed|)
    && (forall j, k :: 0 <= j < k < |t.took| ==> t.took[j] < t.took[k])
    && (rest != [] ==> t.took != [] && |rest| <= |pushed[t.took[|t.took| - 1]]| + 1)
    && t.sent + rest == t.snapshot + Picked(pushed, t.took)
  }

  /** A follower between lines has the snapshot and whole lines; one with a line under way has, after the
      whole lines before it, a prefix of that line with its newline. */
  lemma FollowerSees(t: Trace, rest: seq<Byte>, pushed: seq<seq<Byte>>)
    requires Faithful(t, rest, pushed)
    ensures rest == [] ==> t.sent == t.snapshot + Picked(pushed, t.took)
    ensures rest != [] ==> t.took != []
    ensures rest != [] ==>
      var n := |t.took| - 1;
      var line := pushed[t.took[n]] + [NL];
      && |rest| <= |line| && line == line[..|line| - |rest|] + rest
      && t.sent == t.snapshot + Picked(pushed, t.took[..n]) + line[..|line| - |rest|]
  {
    if rest == [] {
      assert t.sent + [] == t.sent;
    } else {
      var n := |t.took| - 1;
      var line := pushed[t.took[n]] + [NL];
      var m := |line| - |rest|;
      var whole := t.snapshot + Picked(pushed, t.took[..n]);
      assert t.snapshot + Picked(pushed, t.took) == whole + line;
      assert t.sent == (t.sent + rest)[..|t.sent|] == (whole + line)[..|whole| + m] == whole + line[..m];
      assert rest == (t.sent + rest)[|t.sent|..] == (whole + line)[|whole| + m..] == line[m..];
    }
  }

  lemma FaithfulSkips(t: Trace, rest: seq<Byte>, pushed: seq<seq<Byte>>, line: seq<Byte>)
    requires Faithful(t, rest, pushed)
    ensures Faithful(t, rest, pushed + [line])
  {
    PickedGrows(pushed, line, t.took);
  }

  lemma FaithfulTakes(t: Trace, pushed: seq<seq<Byte>>, line: seq<Byte>, junk: Byte)
    requires Faithful(t, [], pushed) && |line| <= WRITE_CHUNK_PAYLOAD
    ensures Faithful(t.(took := t.took + [|pushed|]), Join(SplitLine(line, junk)), pushed + [line])
  {
    var took, all := t.took + [|pushed|], pushed + [line];
    SplitLineExactIff(line, junk);
    hide SplitLine;
    PickedGrows(pushed, line, t.took);
    assert took[..|took| - 1] == t.took && all[|pushed|] == line;
    assert t.sent + [] == t.sent;
    assert t.sent + (line + [NL]) == t.snapshot + (Picked(pushed, t.took) + line + [NL]);
  }

  lemma FaithfulWrites(t: Trace, chunks: seq<seq<Byte>>, n: nat, pushed: seq<seq<Byte>>)
    requires chunks != [] && n <= |chunks[0]| && Faithful(t, Join(chunks), pushed)
    ensures Faithful(t.(sent := t.sent + chunks[0][..n]), Join(AfterWrite(chunks, n)), pushed)
    ensures AfterWrite(chunks, n) == [] ==> Join(AfterWrite(chunks, n)) == []
  {
    var left := AfterWrite(chunks, n);
    assert chunks[0] == chunks[0][..n] + chunks[0][n..];
    assert n < |chunks[0]| ==> left[0] == chunks[0][n..] && left[1..] == chunks[1..];
    assert t.sent + Join(chunks) == (t.sent + chunks[0][..n]) + Join(left);
  }

  /** The buffers left after a write of `n` bytes of the first one completed. */
  function AfterWrite(chunks: seq<seq<Byte>>, n: nat): seq<seq<Byte>>
    requires chunks != [] && n <= |chunks[0]|
  {
    if n >= |chunks[0]| then chunks[1..] else if n > 0 then [chunks[0][n..]] + chunks[1..] else chunks
  }

  // ── The gateway ────────────────────────────────────────────────────

  datatype Pipe = Pipe(id: nat, inFlight: bool)

  type Writes = map<nat, seq<seq<Byte>>>

  ghost function Rest(id: nat, writes: Writes): seq<Byte> {
    if id in writes then Join(writes[id]) else []
  }

  /** One registered pipe: it is marked exactly while its one write is in flight. */
  ghost predicate PipeValid(p: Pipe, writes: Writes, traces: map<nat, Trace>, pushed: seq<seq<Byte>>) {
    && p.id in traces && (p.inFlight <==> p.id in writes) && (p.id in writes ==> writes[p.id] != [])
    && Faithful(traces[p.id], Rest(p.id, writes), pushed)
  }

  ghost predicate Registered(id: nat, pipes: seq<Pipe>) {
    exists i :: 0 <= i < |pipes| && pipes[i].id == id
  }

  /** The pipes have ids of their own below `next`, and only registered pipes are written to. */
  ghost predicate PipesValid(pipes: seq<Pipe>, next: nat, writes: Writes) {
    && (forall i :: 0 <= i < |pipes| ==> pipes[i].id < next)
    && (forall i, j :: 0 <= i < j < |pipes| ==> pipes[i].id != pipes[j].id)
    && (forall id :: id in writes ==> Registered(id, pipes))
  }

  /** A pipe and a line pushed: an idle pipe takes the line, a busy one skips it. */
  ghost function TraceAfterPush(p: Pipe, t: Trace, at: nat): Trace {
    if p.inFlight then t else t.(took := t.took + [at])
  }

  ghost predicate Untouched(p: Pipe, q: Pipe, w: Writes, x: Writes, t: map<nat, Trace>, u: map<nat, Trace>) {
    && p == q && p.id in t && p.id in u && t[p.id] == u[p.id]
    && (p.id in w <==> p.id in x) && (p.id in w ==> w[p.id] == x[p.id])
  }

  /** What a push leaves of one pipe: marked, with its earlier write untouched if it had one. */
  ghost predicate AfterPush(p: Pipe, q: Pipe, w: Writes, x: Writes, t: map<nat, Trace>, u: map<nat, Trace>, at: nat,
                            chunks: seq<seq<Byte>>) {
    && q == Pipe(p.id, true) && p.id in t && p.id in u && p.id in x
    && u[p.id] == TraceAfterPush(p, t[p.id], at) && (p.inFlight ==> p.id in w && x[p.id] == w[p.id])
    && (!p.inFlight ==> x[p.id] == chunks)
  }

  /** A pipe the push has dealt with, and one it has not come to yet. */
  ghost predicate Served(p: Pipe, q: Pipe, w: Writes, x: Writes, t: map<nat, Trace>, u: map<nat, Trace>,
                         pushed: seq<seq<Byte>>, chunks: seq<seq<Byte>>)
    requires pushed != []
  {
    AfterPush(p, q, w, x, t, u, |pushed| - 1, chunks) && PipeValid(q, x, u, pushed)
  }

  ghost predicate Waiting(p: Pipe, q: Pipe, w: Writes, x: Writes, t: map<nat, Trace>, u: map<nat, Trace>,
                          before: seq<seq<Byte>>) {
    Untouched(p, q, w, x, t, u) && PipeValid(q, x, u, before)
  }

  /** Arming pipe `id` leaves every other pipe as it was. */
  lemma OtherStands(p: Pipe, q: Pipe, w: Writes, x: Writes, t: map<nat, Trace>, u: map<nat, Trace>,
                    pushed: seq<seq<Byte>>, before: seq<seq<Byte>>, chunks: seq<seq<Byte>>, id: nat, trace: Trace)
    requires q.id != id && pushed != []
    ensures Served(p, q, w, x, t, u, pushed, chunks) ==>
      Served(p, q, w, x[id := chunks], t, u[id := trace], pushed, chunks)
    ensures Waiting(p, q, w, x, t, u, before) ==> Waiting(p, q, w, x[id := chunks], t, u[id := trace], before)
  {
    hide Join, Faithful;
  }

  /** A busy pipe is served by leaving it alone, an idle one by arming it. */
  lemma Serves(p: Pipe, w: Writes, x: Writes, t: map<nat, Trace>, u: map<nat, Trace>, before: seq<seq<Byte>>,
               line: seq<Byte>, junk: Byte)
    requires Waiting(p, p, w, x, t, u, before) && |line| <= WRITE_CHUNK_PAYLOAD
    ensures p.id in u
    ensures var chunks, all := SplitLine(line, junk), before + [line];
      if p.inFlight then Served(p, p, w, x, t, u, all, chunks)
      else Served(p, Pipe(p.id, true), w, x[p.id := chunks], t,
                  u[p.id := TraceAfterPush(p, u[p.id], |before|)], all, chunks)
  {
    PipeTakes(p, x, u, before, line, junk);
    assert u[p.id := u[p.id]] == u;
    hide Join, Faithful, SplitLine;
  }

  lemma PipeTakes(p: Pipe, writes: Writes, traces: map<nat, Trace>, pushed: seq<seq<Byte>>, line: seq<Byte>, junk: Byte)
    requires PipeValid(p, writes, traces, pushed) && |line| <= WRITE_CHUNK_PAYLOAD
    ensures var t := traces[p.id := TraceAfterPush(p, traces[p.id], |pushed|)];
      var w := if p.inFlight then writes else writes[p.id := SplitLine(line, junk)];
      PipeValid(Pipe(p.id, true), w, t, pushed + [line])
  {
    if p.inFlight {
      FaithfulSkips(traces[p.id], Rest(p.id, writes), pushed, line);
    } else {
      FaithfulTakes(traces[p.id], pushed, line, junk);
      SplitLineLength(line, junk);
    }
  }

  lemma PipeMarked(pipes: seq<Pipe>, i: nat, next: nat, writes: Writes, mark: bool, after: Writes)
    requires i < |pipes| && PipesValid(pipes, next, writes) && after.Keys <= writes.Keys + {pipes[i].id}
    ensures PipesValid(pipes[i := Pipe(pipes[i].id, mark)], next, after)
    ensures forall k :: 0 <= k < |pipes| && k != i ==> pipes[k].id != pipes[i].id
  {
    var marked := pipes[i := Pipe(pipes[i].id, mark)];
    assert marked[i].id == pipes[i].id;
    forall id | id in after ensures Registered(id, marked) {
      if id != pipes[i].id {
        var k :| 0 <= k < |pipes| && pipes[k].id == id;
        assert marked[k].id == id;
      }
    }
  }

  lemma PipeAdded(pipes: seq<Pipe>, next: nat, writes: Writes)
    requires PipesValid(pipes, next, writes)
    ensures PipesValid(pipes + [Pipe(next, false)], next + 1, writes) && next !in writes
    ensures forall k :: 0 <= k < |pipes| ==> pipes[k].id != next
  {
    forall id | id in writes ensures Registered(id, pipes + [Pipe(next, false)]) && id != next {
      var k :| 0 <= k < |pipes| && pipes[k].id == id;
      assert (pipes + [Pipe(next, false)])[k].id == id;
    }
  }

  /** `swap_remove`. */
  function SwapRemove(pipes: seq<Pipe>, i: nat): (r: seq<Pipe>)
    requires i < |pipes|
    ensures |r| == |pipes| - 1 && multiset(r) == multiset(pipes) - multiset{pipes[i]}
  {
    var last := |pipes| - 1;
    assert pipes == pipes[..last] + [pipes[last]];
    if i == last then pipes[..last]
    else
      assert pipes[..last] == pipes[..i] + [pipes[i]] + pipes[i + 1..last];
      assert pipes[..last][i := pipes[last]] == pipes[..i] + [pipes[last]] + pipes[i + 1..last];
      pipes[..last][i := pipes[last]]
  }

  lemma PipeGone(pipes: seq<Pipe>, i: nat, next: nat, writes: Writes)
    requires i < |pipes| && PipesValid(pipes, next, writes)
    ensures PipesValid(SwapRemove(pipes, i), next, writes - {pipes[i].id})
    ensures forall k :: 0 <= k < |pipes| - 1 ==>
      SwapRemove(pipes, i)[k].id != pipes[i].id && SwapRemove(pipes, i)[k] in pipes
  {
    var left := SwapRemove(pipes, i);
    forall id | id in writes - {pipes[i].id} ensures Registered(id, left) {
      var k :| 0 <= k < |pipes| && pipes[k].id == id;
      var at := if k == |pipes| - 1 then i else k;
      assert left[at].id == id;
    }
  }

  class LogGateway {
    const cache: LogCache
    var pipes: seq<Pipe>
    /** The write ops in flight: for each pipe id, the buffers its op's local still holds. */
    var writes: Writes
    var nextPipeId: nat
    ghost var pushed: seq<seq<Byte>>
    ghost var traces: map<nat, Trace>

    ghost predicate CacheValid()
      reads this, cache, cache.buf
    {
      && cache.Valid() && cache.buf.Length == LOG_CAPACITY
      && (forall i :: 0 <= i < |pushed| ==> |pushed[i]| + 1 <= LOG_CAPACITY)
      && cache.lines == PushAll([], pushed, LOG_CAPACITY)
    }

    ghost predicate Valid()
      reads this, cache, cache.buf
    {
      && CacheValid() && PipesValid(pipes, nextPipeId, writes)
      && (forall i :: 0 <= i < |pipes| ==> PipeValid(pipes[i], writes, traces, pushed))
    }

    constructor ()
      ensures Valid() && pipes == [] && writes == map[] && pushed == [] && fresh(cache) && fresh(cache.buf)
    {
      cache := new LogCache(LOG_CAPACITY);
      pipes, writes, nextPipeId := [], map[], 0;
      pushed, traces := [], map[];
    }

    /** `handle_follow`, or `handle_attach` where no backlog is wanted.  The backlog goes to the new pipe first, as
        far as the pipe takes it (`cut` if a write takes nothing); then the pipe joins the others.  A failing
        write attaches nothing. */
    method Attach(wanted: bool) returns (r: Option<nat>, cut: bool, ghost sent: seq<Byte>)
      requires Valid()
      modifies this
      ensures Valid() && pushed == old(pushed) && writes == old(writes)
      ensures var backlog := if wanted then Flat(PushAll([], pushed, LOG_CAPACITY)) else [];
        sent <= backlog && (r.Some? && !cut ==> sent == backlog)
      ensures r.None? ==> pipes == old(pipes) && traces == old(traces) && nextPipeId == old(nextPipeId)
      ensures r.Some? ==>
        && r.value == old(nextPipeId) && nextPipeId == r.value + 1 && pipes == old(pipes) + [Pipe(r.value, false)]
        && traces == old(traces)[r.value := Trace(sent, |pushed|, [], sent)]
    {
      hide Flat, PushAll, Join, PipesValid;
      var backlog: seq<Byte> := [];
      if wanted {
        backlog := cache.Snapshot();
      }
      var written := 0;
      cut, sent := false, [];
      while written < |backlog|
        invariant 0 <= written <= |backlog| && sent == backlog[..written] && !cut
      {
        var n: int :| n <= |backlog| - written;
        if n < 0 {
          return None, false, sent;
        }
        if n == 0 {
          cut := true;
          break;
        }
        written := written + n;
        sent := backlog[..written];
      }
      PipeAdded(pipes, nextPipeId, writes);
      var id := nextPipeId;
      nextPipeId := nextPipeId + 1;
      traces := traces[id := Trace(sent, |pushed|, [], sent)];
      pipes := pipes + [Pipe(id, false)];
      assert Faithful(traces[id], [], pushed);
      r := Some(id);
    }

    /** `write_lines` for one line: the cache records it, and every idle pipe is marked and armed with it.  A line
        longer than the cache already fails there, and no pipe hears of it. */
    method PushLine(line: seq<Byte>, junk: Byte) returns (ok: bool)
      requires Valid() && NL !in line
      modifies this, cache, cache.buf
      ensures (ok <==> |line| < 65536) && |pipes| == |old(pipes)| && nextPipeId == old(nextPipeId)
      ensures ok ==> Valid() && pushed == old(pushed) + [line]
      ensures ok ==> forall i :: 0 <= i < |pipes| ==>
        var id := old(pipes)[i].id;
        && pipes[i] == Pipe(id, true) && id in writes && id in traces && id in old(traces)
        && if old(pipes)[i].inFlight then
             id in old(writes) && writes[id] == old(writes)[id] && traces[id] == old(traces)[id]
           else
             && Join(writes[id]) == line + [NL]
             && traces[id] == old(traces)[id].(took := old(traces)[id].took + [|old(pushed)|])
      ensures !ok ==> pipes == old(pipes) && writes == old(writes) && traces == old(traces) && pushed == old(pushed)
    {
      ok := RecordLine(line);
      hide CacheValid, PipesValid, PipeValid, AfterPush, SplitLine, Join;
      if !ok {
        return;
      }
      assert pushed[..|pushed| - 1] == old(pushed);
      ArmIdle(line, junk);
      PushSays(old(pipes), old(writes), old(traces), |old(pushed)|, line, junk);
    }

    method RecordLine(line: seq<Byte>) returns (ok: bool)
      requires CacheValid() && NL !in line
      modifies this`pushed, cache, cache.buf
      ensures (ok <==> |line| + 1 <= LOG_CAPACITY) && (!ok ==> pushed == old(pushed))
      ensures ok ==> CacheValid() && pushed == old(pushed) + [line]
    {
      hide Flat;
      ok := cache.PushLine(line);
      if ok {
        pushed := pushed + [line];
        assert pushed[..|pushed| - 1] == old(pushed);
      }
    }

    /** `LogGateway::push` after the cache, with the arming that `write_lines` does for each pipe returned. */
    method ArmIdle(line: seq<Byte>, junk: Byte)
      requires pushed != [] && pushed[|pushed| - 1] == line && |line| + 1 <= LOG_CAPACITY
      requires PipesValid(pipes, nextPipeId, writes)
      requires forall k :: 0 <= k < |pipes| ==> PipeValid(pipes[k], writes, traces, pushed[..|pushed| - 1])
      modifies this`pipes, this`writes, this`traces
      ensures PipesValid(pipes, nextPipeId, writes) && |pipes| == |old(pipes)|
      ensures forall k :: 0 <= k < |pipes| ==> PipeValid(pipes[k], writes, traces, pushed)
      ensures forall k :: 0 <= k < |pipes| ==>
        AfterPush(old(pipes)[k], pipes[k], old(writes), writes, old(traces), traces, |pushed| - 1,
                  SplitLine(line, junk))
    {
      hide SplitLine, PipesValid, Served, Waiting;
      ghost var before, chunks := pushed[..|pushed| - 1], SplitLine(line, junk);
      assert before + [line] == pushed;
      AllWaiting(before);
      var i := 0;
      while i < |pipes|
        invariant 0 <= i <= |pipes| == |old(pipes)| && PipesValid(pipes, nextPipeId, writes)
        invariant forall k :: 0 <= k < i ==>
          Served(old(pipes)[k], pipes[k], old(writes), writes, old(traces), traces, pushed, chunks)
        invariant forall k :: i <= k < |pipes| ==> pipes[k] == old(pipes)[k]
        invariant forall k :: i <= k < |pipes| ==>
          Waiting(old(pipes)[k], pipes[k], old(writes), writes, old(traces), traces, before)
      {
        Serves(pipes[i], old(writes), writes, old(traces), traces, before, line, junk);
        if !pipes[i].inFlight {
          var id := pipes[i].id;
          ghost var trace := TraceAfterPush(pipes[i], traces[id], |before|);
          PipeMarked(pipes, i, nextPipeId, writes, true, writes[id := SplitLine(line, junk)]);
          forall k | 0 <= k < |pipes| && k != i
            ensures k < i ==> Served(old(pipes)[k], pipes[k], old(writes), writes[id := chunks], old(traces),
                                     traces[id := trace], pushed, chunks)
            ensures k > i ==> Waiting(old(pipes)[k], pipes[k], old(writes), writes[id := chunks], old(traces),
                                      traces[id := trace], before)
          {
            OtherStands(old(pipes)[k], pipes[k], old(writes), writes, old(traces), traces, pushed, before, chunks, id,
                        trace);
          }
          pipes := pipes[i := Pipe(id, true)];
          writes := writes[id := SplitLine(line, junk)];
          traces := traces[id := trace];
        }
        i := i + 1;
      }
      AllServed(old(pipes), old(writes), old(traces), chunks);
    }

    lemma PushSays(was: seq<Pipe>, w: Writes, t: map<nat, Trace>, at: nat, line: seq<Byte>, junk: Byte)
      requires |was| == |pipes| && |line| + 1 <= LOG_CAPACITY
      requires forall i :: 0 <= i < |pipes| ==>
        AfterPush(was[i], pipes[i], w, writes, t, traces, at, SplitLine(line, junk))
      ensures forall i :: 0 <= i < |pipes| ==>
        var id := was[i].id;
        && pipes[i] == Pipe(id, true) && id in writes && id in traces && id in t
        && if was[i].inFlight then id in w && writes[id] == w[id] && traces[id] == t[id]
           else Join(writes[id]) == line + [NL] && traces[id] == t[id].(took := t[id].took + [at])
    {
      SplitLineExactIff(line, junk);
      hide SplitLine, Join;
    }

    lemma AllWaiting(before: seq<seq<Byte>>)
      requires forall k :: 0 <= k < |pipes| ==> PipeValid(pipes[k], writes, traces, before)
      ensures forall k :: 0 <= k < |pipes| ==>
        Waiting(pipes[k], pipes[k], writes, writes, traces, traces, before) && pipes[k].id in traces
    {
    }

    lemma AllServed(was: seq<Pipe>, w: Writes, t: map<nat, Trace>, chunks: seq<seq<Byte>>)
      requires pushed != [] && |was| == |pipes|
      requires forall k :: 0 <= k < |pipes| ==> Served(was[k], pipes[k], w, writes, t, traces, pushed, chunks)
      ensures forall k :: 0 <= k < |pipes| ==> PipeValid(pipes[k], writes, traces, pushed)
      ensures forall k :: 0 <= k < |pipes| ==>
        AfterPush(was[k], pipes[k], w, writes, t, traces, |pushed| - 1, chunks)
    {
    }

    method FindPipe(id: nat) returns (at: nat)
      requires PipesValid(pipes, nextPipeId, writes) && id in writes
      ensures at < |pipes| && pipes[at].id == id
    {
      assert Registered(id, pipes);
      at := 0;
      while pipes[at].id != id
        invariant at < |pipes| && exists k :: at <= k < |pipes| && pipes[k].id == id
        decreases |pipes| - at
      {
        at := at + 1;
      }
    }

    /** `on_follow_write` after a write of `n` bytes: the rest of the line is armed again, or the pipe is idle. */
    method WriteDone(id: nat, n: nat)
      requires Valid() && id in writes && n <= |writes[id][0]|
      modifies this`pipes, this`writes, this`traces
      ensures Valid() && id in traces && id in old(traces)
      ensures var left := AfterWrite(old(writes)[id], n);
        writes == if left == [] then old(writes) - {id} else old(writes)[id := left]
      ensures var t := old(traces)[id];
        traces == old(traces)[id := t.(sent := t.sent + old(writes)[id][0][..n])]
      ensures |pipes| == |old(pipes)|
      ensures forall k :: 0 <= k < |pipes| ==> pipes[k].id == old(pipes)[k].id
    {
      hide LogCache.Valid, PushAll, PipesValid, Faithful, Join, AfterWrite;
      var at := FindPipe(id);
      var chunks := writes[id];
      var left := AfterWrite(chunks, n);
      FaithfulWrites(traces[id], chunks, n, pushed);
      PipeMarked(pipes, at, nextPipeId, writes, left != [], if left == [] then writes - {id} else writes[id := left]);
      traces := traces[id := traces[id].(sent := traces[id].sent + chunks[0][..n])];
      if left == [] {
        pipes := pipes[at := Pipe(id, false)];
        writes := writes - {id};
      } else {
        assert pipes[at] == Pipe(id, true);
        assert pipes[at := Pipe(id, true)] == pipes;
        writes := writes[id := left];
      }
    }

    /** `on_follow_write` after a failed write: the pipe leaves the gateway, and the other pipes keep theirs. */
    method WriteFailed(id: nat)
      requires Valid() && id in writes
      modifies this`pipes, this`writes
      ensures Valid() && writes == old(writes) - {id}
      ensures multiset(pipes) == multiset(old(pipes)) - multiset{Pipe(id, true)} && Pipe(id, true) in old(pipes)
    {
      hide LogCache.Valid, PushAll, PipesValid, Faithful, Join, SwapRemove;
      var at := FindPipe(id);
      PipeGone(pipes, at, nextPipeId, writes);
      assert pipes[at] == Pipe(id, true);
      pipes := SwapRemove(pipes, at);
      writes := writes - {id};
    }
  }
}
