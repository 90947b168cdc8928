/** Containers and their logs: the reaper and the output drains of a container race for its removal. */
module Containers {
  import opened Wrappers
  import opened Lines
  import opened LogCaches

  type Log = seq<seq<Byte>>

  /** A registered container: the drains still running, and its cached lines. */
  datatype Info = Info(drainsPending: nat, log: Log)

  /** What happened to a pid: drains it was started with, drains not yet at their end, whether the child was
      waited for, how often the container was removed, and every line written to its log. */
  datatype Past = Past(drains: nat, running: nat, reaped: bool, removed: nat, written: Log)

  datatype Daemon = Daemon(containers: map<int, Info>, graveyard: map<int, Log>, past: map<int, Past>)

  const EMPTY := Daemon(map[], map[], map[])

  /** `Started`: attached containers have no drain, detached ones one, or two with a terminal. */
  datatype Event =
    | Started(pid: int, drains: nat)
    | Reaped(pid: int)
    | Drained(pid: int)
    | Wrote(pid: int, line: seq<Byte>)

  /** Pids are not reused, a child is waited for once, a drain ends once; anything may exit or be written to. */
  predicate Possible(d: Daemon, e: Event) {
    match e
    case Started(pid, drains) => pid !in d.past && drains <= 2
    case Reaped(pid) => pid in d.past ==> !d.past[pid].reaped
    case Drained(pid) => pid in d.past && d.past[pid].running > 0
    case Wrote(_, line) => NL !in line && |line| + 1 <= LOG_CAPACITY
  }

  /** Takes the container out and keeps its log. */
  function Bury(d: Daemon, pid: int): Daemon
    requires pid in d.containers && pid in d.past
  {
    Daemon(
      d.containers - {pid},
      d.graveyard[pid := d.containers[pid].log],
      d.past[pid := d.past[pid].(removed := d.past[pid].removed + 1)])
  }

  /** The part of `reap_children` that concerns containers. */
  function Reap(d: Daemon, pid: int): Daemon {
    var now := if pid in d.past then d.(past := d.past[pid := d.past[pid].(reaped := true)]) else d;
    if pid !in now.containers || now.containers[pid].drainsPending > 0 || pid !in now.past then now else Bury(now, pid)
  }

  /** `finish_drain`, with the saturating subtraction of its counter. */
  function FinishDrain(d: Daemon, pid: int): Daemon
    requires pid in d.past && d.past[pid].running > 0
  {
    var now := d.(past := d.past[pid := d.past[pid].(running := d.past[pid].running - 1)]);
    if pid !in now.containers then now
    else
      var info := now.containers[pid];
      var left := if info.drainsPending > 0 then info.drainsPending - 1 else 0;
      var next := now.(containers := now.containers[pid := info.(drainsPending := left)]);
      if left > 0 then next else Bury(next, pid)
  }

  /** `write_lines`: to the container's cache, to the one it left behind, or nowhere. */
  function Write(d: Daemon, pid: int, line: seq<Byte>): Daemon
    requires |line| + 1 <= LOG_CAPACITY
  {
    var now :=
      if pid in d.past then d.(past := d.past[pid := d.past[pid].(written := d.past[pid].written + [line])]) else d;
    if pid in now.containers then
      var info := now.containers[pid];
      now.(containers := now.containers[pid := info.(log := Push(info.log, line, LOG_CAPACITY))])
    else if pid in now.graveyard then
      now.(graveyard := now.graveyard[pid := Push(now.graveyard[pid], line, LOG_CAPACITY)])
    else now
  }

  function Step(d: Daemon, e: Event): Daemon
    requires Possible(d, e)
  {
    match e
    case Started(pid, drains) =>
      d.(containers := d.containers[pid := Info(drains, [])], past := d.past[pid := Past(drains, drains, false, 0, [])])
    case Reaped(pid) => Reap(d, pid)
    case Drained(pid) => FinishDrain(d, pid)
    case Wrote(pid, line) => Write(d, pid, line)
  }

  predicate PossibleAll(d: Daemon, es: seq<Event>)
    decreases |es|
  {
    es == [] || (Possible(d, es[0]) && PossibleAll(Step(d, es[0]), es[1..]))
  }

  function Steps(d: Daemon, es: seq<Event>): Daemon
    requires PossibleAll(d, es)
    decreases |es|
  {
    if es == [] then d else Steps(Step(d, es[0]), es[1..])
  }

  /** What a `Logs` request answers. */
  function Logs(d: Daemon, pid: int): Option<Log> {
    if pid in d.containers then Some(d.containers[pid].log)
    else if pid in d.graveyard then Some(d.graveyard[pid])
    else None
  }

  // ── What every interleaving keeps ──────────────────────────────────

  /** All drains have ended; a container without any waits for its child instead. */
  predicate Over(p: Past) {
    p.running == 0 && (p.drains > 0 || p.reaped)
  }

  predicate Sized(lines: Log) {
    forall i :: 0 <= i < |lines| ==> |lines[i]| + 1 <= LOG_CAPACITY
  }

  ghost predicate PidInv(d: Daemon, pid: int)
    requires pid in d.past
  {
    var p := d.past[pid];
    && Sized(p.written) && p.running <= p.drains
    && p.removed == (if Over(p) then 1 else 0)
    && (pid in d.containers <==> !Over(p)) && (pid in d.graveyard <==> Over(p))
    && (pid in d.containers ==> d.containers[pid].drainsPending == p.running)
    && Logs(d, pid) == Some(PushAll([], p.written, LOG_CAPACITY))
  }

  ghost predicate Inv(d: Daemon) {
    && (forall pid :: pid in d.containers || pid in d.graveyard ==> pid in d.past)
    && (forall pid :: pid in d.past ==> PidInv(d, pid))
  }

  lemma StepKeeps(d: Daemon, e: Event)
    requires Inv(d) && Possible(d, e)
    ensures Inv(Step(d, e))
  {
    hide PushAll, Push;
    var n := Step(d, e);
    forall pid | pid in n.past ensures PidInv(n, pid) {
      if pid == e.pid {
        StepKeepsPid(d, e);
      } else {
        assert PidInv(d, pid);
      }
    }
  }

  lemma StepKeepsPid(d: Daemon, e: Event)
    requires Inv(d) && Possible(d, e) && e.pid in Step(d, e).past
    ensures PidInv(Step(d, e), e.pid)
  {
    hide Push;
    match e {
      case Started(_, _) => assert PushAll([], [], LOG_CAPACITY) == [];
      case Reaped(pid) => ReapKeeps(d, pid);
      case Drained(pid) => DrainKeeps(d, pid);
      case Wrote(pid, line) => WriteKeeps(d, pid, line);
    }
  }

  lemma ReapKeeps(d: Daemon, pid: int)
    requires pid in d.past && PidInv(d, pid) && !d.past[pid].reaped
    ensures PidInv(Reap(d, pid), pid)
  {
    hide PushAll;
  }

  lemma DrainKeeps(d: Daemon, pid: int)
    requires pid in d.past && PidInv(d, pid) && d.past[pid].running > 0
    ensures PidInv(FinishDrain(d, pid), pid)
  {
    hide PushAll;
  }

  lemma WriteKeeps(d: Daemon, pid: int, line: seq<Byte>)
    requires pid in d.past && PidInv(d, pid) && |line| + 1 <= LOG_CAPACITY
    ensures PidInv(Write(d, pid, line), pid)
  {
    hide Push;
    var lines := d.past[pid].written;
    assert (lines + [line])[..|lines|] == lines;
  }

  lemma {:induction false} StepsKeep(d: Daemon, es: seq<Event>)
    requires Inv(d) && PossibleAll(d, es)
    ensures Inv(Steps(d, es))
    decreases |es|
  {
    hide Inv, Step, Possible;
    if es != [] {
      StepKeeps(d, es[0]);
      StepsKeep(Step(d, es[0]), es[1..]);
    }
  }

  // ── In terms of what happened ──────────────────────────────────────

  /** What the events say of a pid from its start on: the drains it got, those not yet ended, whether its child was
      reaped, and the lines written. */
  datatype Story = Story(drains: nat, running: nat, reaped: bool, written: Log)

  function Told(p: Option<Story>, e: Event, pid: int): Option<Story> {
    if e.pid != pid then p
    else if e.Started? then Some(Story(e.drains, e.drains, false, []))
    else if p.None? then p
    else
      var x := p.value;
      match e
      case Reaped(_) => Some(x.(reaped := true))
      case Drained(_) => Some(x.(running := if x.running > 0 then x.running - 1 else 0))
      case Wrote(_, line) => Some(x.(written := x.written + [line]))
  }

  function StoryOf(p: Option<Story>, es: seq<Event>, pid: int): Option<Story>
    decreases |es|
  {
    if es == [] then p else StoryOf(Told(p, es[0], pid), es[1..], pid)
  }

  /** How often the container left the table. */
  function Removals(d: Daemon, es: seq<Event>, pid: int): nat
    requires PossibleAll(d, es)
    decreases |es|
  {
    if es == [] then 0
    else
      var next := Step(d, es[0]);
      (if pid in d.containers && pid !in next.containers then 1 else 0) + Removals(next, es[1..], pid)
  }

  /** The daemon's own record of a pid, as a story. */
  function Recorded(d: Daemon, pid: int): Option<Story> {
    if pid !in d.past then None
    else var p := d.past[pid]; Some(Story(p.drains, p.running, p.reaped, p.written))
  }

  function RemovedCount(d: Daemon, pid: int): nat {
    if pid in d.past then d.past[pid].removed else 0
  }

  lemma StepTells(d: Daemon, e: Event, pid: int)
    requires Inv(d) && Possible(d, e)
    ensures Recorded(Step(d, e), pid) == Told(Recorded(d, pid), e, pid)
    ensures RemovedCount(Step(d, e), pid) ==
      RemovedCount(d, pid) + if pid in d.containers && pid !in Step(d, e).containers then 1 else 0
  {
    hide PushAll, Push, PidInv;
    assert pid !in d.past ==> pid !in d.containers;
  }

  lemma {:induction false} StepsTell(d: Daemon, es: seq<Event>, pid: int)
    requires Inv(d) && PossibleAll(d, es)
    ensures Recorded(Steps(d, es), pid) == StoryOf(Recorded(d, pid), es, pid)
    ensures RemovedCount(Steps(d, es), pid) == RemovedCount(d, pid) + Removals(d, es, pid)
    decreases |es|
  {
    hide Inv, Step, Possible, Told, Recorded, RemovedCount;
    if es != [] {
      StepTells(d, es[0], pid);
      StepKeeps(d, es[0]);
      StepsTell(Step(d, es[0]), es[1..], pid);
    }
  }

  lemma FromEmpty(es: seq<Event>, pid: int)
    requires PossibleAll(EMPTY, es)
    ensures var d := Steps(EMPTY, es);
      Inv(d) && Recorded(d, pid) == StoryOf(None, es, pid) && RemovedCount(d, pid) == Removals(EMPTY, es, pid)
  {
    StepsKeep(EMPTY, es);
    StepsTell(EMPTY, es, pid);
  }

  /** What can happen, told by what has happened: a pid starts once, its child is reaped once, each of its drains ends
      once, and any line the cache can hold may be written at any time. */
  lemma WhatCanHappen(es: seq<Event>, pid: int, drains: nat, line: seq<Byte>)
    requires PossibleAll(EMPTY, es)
    ensures var d, p := Steps(EMPTY, es), StoryOf(None, es, pid);
      && (Possible(d, Started(pid, drains)) <==> p.None? && drains <= 2)
      && (Possible(d, Reaped(pid)) <==> p.None? || !p.value.reaped)
      && (Possible(d, Drained(pid)) <==> p.Some? && p.value.running > 0)
      && (Possible(d, Wrote(pid, line)) <==> NL !in line && |line| + 1 <= 65536)
  {
    FromEmpty(es, pid);
  }

  /** In every interleaving a container that was started leaves the table once, exactly when its drains have ended
      (its child's exit decides only if it had none), and never while a drain is running. */
  lemma RemovedExactlyOnce(es: seq<Event>, pid: int)
    requires PossibleAll(EMPTY, es) && StoryOf(None, es, pid).Some?
    ensures var d, p := Steps(EMPTY, es), StoryOf(None, es, pid).value;
      && Removals(EMPTY, es, pid) == (if p.running == 0 && (p.drains > 0 || p.reaped) then 1 else 0)
      && (pid in d.containers <==> Removals(EMPTY, es, pid) == 0)
      && (p.running > 0 ==> pid in d.containers && d.containers[pid].drainsPending == p.running)
  {
    FromEmpty(es, pid);
    assert PidInv(Steps(EMPTY, es), pid);
  }

  /** A container whose output ends early is removed while its child still runs. */
  lemma RemovedBeforeExit()
    ensures var es := [Started(1, 1), Drained(1)];
      && PossibleAll(EMPTY, es) && 1 in Steps(EMPTY, es).past && 1 !in Steps(EMPTY, es).containers
      && Steps(EMPTY, es).past[1].removed == 1 && !Steps(EMPTY, es).past[1].reaped
  {
    var e0, e1 := Started(1, 1), Drained(1);
    var a := Step(EMPTY, e0);
    var b := Step(a, e1);
    assert [e0, e1][1..] == [e1] && [e1][1..] == [];
    assert PossibleAll(b, []) && PossibleAll(a, [e1]) && Steps(a, [e1]) == b;
  }

  /** The log answers the same wherever it is kept: always the cache of every line written since the start; a pid
      that was never started has none. */
  lemma LogsSurviveRemoval(es: seq<Event>, pid: int)
    requires PossibleAll(EMPTY, es)
    ensures var d, p := Steps(EMPTY, es), StoryOf(None, es, pid);
      && (p.None? ==> Logs(d, pid) == None)
      && (p.Some? ==> Sized(p.value.written) && Logs(d, pid) == Some(PushAll([], p.value.written, LOG_CAPACITY)))
  {
    FromEmpty(es, pid);
    hide PushAll;
    var d := Steps(EMPTY, es);
    assert pid in d.past ==> PidInv(d, pid);
  }

  // ── The tables in place ────────────────────────────────────────────

  /** The container side of `DaemonState`. */
  class Tables {
    var containers: map<int, Info>
    var graveyard: map<int, Log>
    ghost var past: map<int, Past>

    ghost function View(): Daemon
      reads this
    {
      Daemon(containers, graveyard, past)
    }

    constructor ()
      ensures View() == EMPTY
    {
      containers, graveyard, past := map[], map[], map[];
    }

    /** The container's entry and, in the same breath, its drains. */
    method OnStarted(pid: int, drains: nat)
      requires Inv(View()) && Possible(View(), Started(pid, drains))
      modifies this
      ensures View() == Step(old(View()), Started(pid, drains)) && Inv(View())
    {
      hide PushAll;
      StepKeeps(View(), Started(pid, drains));
      containers := containers[pid := Info(0, [])];
      past := past[pid := Past(drains, drains, false, 0, [])];
      for k := 0 to drains
        invariant containers == old(containers)[pid := Info(k, [])] && graveyard == old(graveyard)
        invariant past == old(past)[pid := Past(drains, drains, false, 0, [])]
      {
        containers := containers[pid := containers[pid].(drainsPending := containers[pid].drainsPending + 1)];
      }
    }

    method Remove(pid: int)
      requires pid in containers && pid in past
      modifies this
      ensures View() == Bury(old(View()), pid)
    {
      graveyard := graveyard[pid := containers[pid].log];
      containers := containers - {pid};
      past := past[pid := past[pid].(removed := past[pid].removed + 1)];
    }

    method OnReaped(pid: int)
      requires Inv(View()) && Possible(View(), Reaped(pid))
      modifies this
      ensures View() == Step(old(View()), Reaped(pid)) && Inv(View())
    {
      hide PushAll;
      StepKeeps(View(), Reaped(pid));
      if pid in past {
        past := past[pid := past[pid].(reaped := true)];
      }
      if pid in containers && containers[pid].drainsPending == 0 {
        Remove(pid);
      }
    }

    method OnDrained(pid: int)
      requires Inv(View()) && Possible(View(), Drained(pid))
      modifies this
      ensures View() == Step(old(View()), Drained(pid)) && Inv(View())
    {
      hide PushAll;
      StepKeeps(View(), Drained(pid));
      past := past[pid := past[pid].(running := past[pid].running - 1)];
      if pid !in containers {
        return;
      }
      var info := containers[pid];
      var left := if info.drainsPending > 0 then info.drainsPending - 1 else 0;
      containers := containers[pid := info.(drainsPending := left)];
      if left > 0 {
        return;
      }
      Remove(pid);
    }

    method WriteLine(pid: int, line: seq<Byte>)
      requires Inv(View()) && Possible(View(), Wrote(pid, line))
      modifies this
      ensures View() == Step(old(View()), Wrote(pid, line)) && Inv(View())
    {
      hide PushAll, Push;
      StepKeeps(View(), Wrote(pid, line));
      if pid in past {
        past := past[pid := past[pid].(written := past[pid].written + [line])];
      }
      if pid in containers {
        containers := containers[pid := containers[pid].(log := Push(containers[pid].log, line, LOG_CAPACITY))];
      } else if pid in graveyard {
        graveyard := graveyard[pid := Push(graveyard[pid], line, LOG_CAPACITY)];
      }
    }

    /** A `Logs` request: found exactly for containers ever started, with the lines the cache kept of all written. */
    method Request(pid: int) returns (r: Option<Log>)
      requires Inv(View())
      ensures r.Some? <==> pid in past
      ensures pid in past ==> Sized(past[pid].written) && r == Some(PushAll([], past[pid].written, LOG_CAPACITY))
    {
      hide PushAll;
      assert pid in past ==> PidInv(View(), pid);
      if pid in containers {
        return Some(containers[pid].log);
      } else if pid in graveyard {
        return Some(graveyard[pid]);
      }
      return None;
    }
  }
}
