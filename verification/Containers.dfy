/** Container lifecycle: single-flight wakes, spawns that succeed or fail, kills
    with a callback on exit, and exit events, in any order. */
module Containers {
  type Session = string
  type ProcId = nat

  /** What is registered on a process's close event: the runner's own removal from the
      active map, and wakes that a kill asked for, which fire once. */
  datatype Listener = RemoveActive | WakeOnExit

  /** A spawned process: its session and its close listeners in order of registration. */
  datatype Proc = Proc(session: Session, listeners: seq<Listener>)

  /** The two maps of the source, every process spawned so far, and which of them
      are still running. */
  datatype Runner = Runner(active: map<Session, ProcId>, wakes: set<Session>, procs: map<ProcId, Proc>, live: set<ProcId>)

  /** `SpawnDone` is the rest of a spawn and the removal of its promise, which no
      other event can separate; `SpawnNothing` is a spawn that throws or finds no
      agent group. `Close` tells whether the session still exists then, and
      `SpawnError` whether the process has ended with the error. */
  datatype Event =
    | Wake(session: Session)
    | SpawnDone(session: Session, p: ProcId)
    | SpawnNothing(session: Session)
    | Kill(session: Session, onExit: bool)
    | Close(p: ProcId, sessionExists: bool)
    | SpawnError(p: ProcId, ended: bool)

  function WakeOn(r: Runner, s: Session): Runner {
    if s in r.active || s in r.wakes then r else r.(wakes := r.wakes + {s})
  }

  function Listen(r: Runner, s: Session, l: Listener, sessionExists: bool): Runner {
    match l
    case RemoveActive => r.(active := r.active - {s})
    case WakeOnExit => if sessionExists then WakeOn(r, s) else r
  }

  /** The listeners of a close event run in order. */
  function RunListeners(r: Runner, s: Session, listeners: seq<Listener>, sessionExists: bool): Runner
    decreases |listeners|
  {
    if listeners == [] then r
    else RunListeners(Listen(r, s, listeners[0], sessionExists), s, listeners[1..], sessionExists)
  }

  /** The listeners that stay registered when the event has fired. */
  function Lasting(listeners: seq<Listener>): seq<Listener> {
    if listeners == [] then []
    else (if listeners[0].RemoveActive? then [RemoveActive] else []) + Lasting(listeners[1..])
  }

  /** What has to hold for an event to happen: a spawn is under way, its process is
      new, an exiting process was spawned. */
  predicate Enabled(r: Runner, e: Event) {
    match e
    case Wake(_) => true
    case SpawnDone(s, p) => s in r.wakes && p !in r.procs
    case SpawnNothing(s) => s in r.wakes
    case Kill(_, _) => true
    case Close(p, _) => p in r.procs
    case SpawnError(p, _) => p in r.procs
  }

  function Next(r: Runner, e: Event): Runner
    requires Enabled(r, e)
  {
    match e
    case Wake(s) => WakeOn(r, s)
    case SpawnDone(s, p) =>
      Runner(r.active[s := p], r.wakes - {s}, r.procs[p := Proc(s, [RemoveActive])], r.live + {p})
    case SpawnNothing(s) => r.(wakes := r.wakes - {s})
    case Kill(s, onExit) =>
      if s in r.active && r.active[s] in r.procs && onExit then
        var p := r.active[s];
        r.(procs := r.procs[p := r.procs[p].(listeners := r.procs[p].listeners + [WakeOnExit])])
      else r
    case Close(p, sessionExists) =>
      var Proc(s, listeners) := r.procs[p];
      RunListeners(r.(procs := r.procs[p := Proc(s, Lasting(listeners))], live := r.live - {p}), s, listeners, sessionExists)
    case SpawnError(p, ended) =>
      r.(active := r.active - {r.procs[p].session}, live := if ended then r.live - {p} else r.live)
  }

  /** Each process reports its end once, and an error only when it has ended. */
  predicate FirstEnd(r: Runner, e: Event) {
    (e.Close? ==> e.p in r.live) && (e.SpawnError? ==> e.p in r.live && e.ended)
  }

  predicate Possible(r: Runner, events: seq<Event>)
    decreases |events|
  {
    events == [] ||
    (Enabled(r, events[0]) && FirstEnd(r, events[0]) && Possible(Next(r, events[0]), events[1..]))
  }

  function After(r: Runner, events: seq<Event>): Runner
    requires Possible(r, events)
    decreases |events|
  {
    if events == [] then r else After(Next(r, events[0]), events[1..])
  }

  // ---------- The order of the listeners ----------

  /** The runner's removal is the first listener and the only one of its kind. */
  predicate RemovalFirst(listeners: seq<Listener>) {
    listeners != [] && listeners[0].RemoveActive? && forall i :: 0 < i < |listeners| ==> listeners[i].WakeOnExit?
  }

  lemma {:induction false} WakesRun(r: Runner, s: Session, listeners: seq<Listener>, sessionExists: bool)
    requires forall i :: 0 <= i < |listeners| ==> listeners[i].WakeOnExit?
    ensures RunListeners(r, s, listeners, sessionExists) == if listeners != [] && sessionExists then WakeOn(r, s) else r
    ensures Lasting(listeners) == []
    decreases |listeners|
  {
    if listeners != [] {
      WakesRun(Listen(r, s, listeners[0], sessionExists), s, listeners[1..], sessionExists);
    }
  }

  /** With the removal first, the session is gone before any wake runs. */
  lemma RemovalRunsFirst(r: Runner, s: Session, listeners: seq<Listener>, sessionExists: bool)
    requires RemovalFirst(listeners)
    ensures var gone := r.(active := r.active - {s});
      RunListeners(r, s, listeners, sessionExists) == if |listeners| > 1 && sessionExists then WakeOn(gone, s) else gone
    ensures Lasting(listeners) == [RemoveActive]
  {
    WakesRun(Listen(r, s, listeners[0], sessionExists), s, listeners[1..], sessionExists);
  }

  /** In whatever order they were registered, the listeners of a running session's
      process start a spawn exactly when some wake comes after some removal. */
  lemma {:induction false} WakeStartsIff(r: Runner, s: Session, listeners: seq<Listener>)
    requires s !in r.wakes
    ensures s in RunListeners(r, s, listeners, true).wakes <==>
      || (s !in r.active && WakeOnExit in listeners)
      || exists i, j :: 0 <= i < j < |listeners| && listeners[i].RemoveActive? && listeners[j].WakeOnExit?
    decreases |listeners|
  {
    if listeners != [] {
      var r', rest := Listen(r, s, listeners[0], true), listeners[1..];
      PairOf(listeners);
      if s in r'.wakes {
        StaysWoken(r', s, rest);
      } else {
        WakeStartsIff(r', s, rest);
      }
    }
  }

  lemma PairOf(listeners: seq<Listener>)
    requires listeners != []
    ensures var rest := listeners[1..];
      (exists i, j :: 0 <= i < j < |listeners| && listeners[i].RemoveActive? && listeners[j].WakeOnExit?) <==>
      || (listeners[0].RemoveActive? && WakeOnExit in rest)
      || exists i, j :: 0 <= i < j < |rest| && rest[i].RemoveActive? && rest[j].WakeOnExit?
  {
    var rest := listeners[1..];
    assert forall i :: 0 <= i < |rest| ==> rest[i] == listeners[i + 1];
    if i, j :| 0 <= i < j < |listeners| && listeners[i].RemoveActive? && listeners[j].WakeOnExit? {
      assert rest[j - 1] == WakeOnExit;
      assert i > 0 ==> rest[i - 1].RemoveActive?;
    }
    if listeners[0].RemoveActive? && WakeOnExit in rest {
      var j :| 0 <= j < |rest| && rest[j] == WakeOnExit;
      assert listeners[j + 1].WakeOnExit?;
    }
    if i, j :| 0 <= i < j < |rest| && rest[i].RemoveActive? && rest[j].WakeOnExit? {
      assert listeners[i + 1].RemoveActive? && listeners[j + 1].WakeOnExit?;
    }
  }

  lemma {:induction false} StaysWoken(r: Runner, s: Session, listeners: seq<Listener>)
    requires s in r.wakes
    ensures s in RunListeners(r, s, listeners, true).wakes
    decreases |listeners|
  {
    if listeners != [] {
      StaysWoken(Listen(r, s, listeners[0], true), s, listeners[1..]);
    }
  }

  // ---------- The invariant ----------

  /** The active map lists exactly the running processes, one per session, no session
      is both running and being spawned, and every process runs its removal first. */
  predicate Inv(r: Runner) {
    && r.live <= r.procs.Keys
    && (forall s :: s in r.active ==> r.active[s] in r.live && r.procs[r.active[s]].session == s)
    && (forall p :: p in r.live ==> r.procs[p].session in r.active && r.active[r.procs[p].session] == p)
    && r.wakes !! r.active.Keys
    && (forall p :: p in r.procs ==> RemovalFirst(r.procs[p].listeners))
  }

  lemma NextKeepsInv(r: Runner, e: Event)
    requires Inv(r) && Enabled(r, e) && FirstEnd(r, e)
    ensures Inv(Next(r, e))
  {
    if e.Close? {
      CloseIs(r, e.p, e.sessionExists);
    }
  }

  /** What a close event comes to when the removal is first. */
  lemma CloseIs(r: Runner, p: ProcId, sessionExists: bool)
    requires p in r.procs && RemovalFirst(r.procs[p].listeners)
    ensures var s := r.procs[p].session;
      var gone := Runner(r.active - {s}, r.wakes, r.procs[p := Proc(s, [RemoveActive])], r.live - {p});
      Next(r, Close(p, sessionExists)) == if |r.procs[p].listeners| > 1 && sessionExists then WakeOn(gone, s) else gone
  {
    var Proc(s, listeners) := r.procs[p];
    RemovalRunsFirst(r.(procs := r.procs[p := Proc(s, Lasting(listeners))], live := r.live - {p}), s, listeners, sessionExists);
  }

  lemma {:induction false} RunKeepsInv(r: Runner, events: seq<Event>)
    requires Inv(r) && Possible(r, events)
    ensures Inv(After(r, events))
    decreases |events|
  {
    if events != [] {
      NextKeepsInv(r, events[0]);
      RunKeepsInv(Next(r, events[0]), events[1..]);
    }
  }

  const IDLE: Runner := Runner(map[], {}, map[], {})

  /** At most one container per session is running, in every run. */
  lemma AtMostOneContainer(events: seq<Event>, p: ProcId, q: ProcId)
    requires Possible(IDLE, events)
    requires var r := After(IDLE, events);
      p in r.live && q in r.live && p in r.procs && q in r.procs && r.procs[p].session == r.procs[q].session
    ensures p == q
  {
    RunKeepsInv(IDLE, events);
  }

  predicate HasWake(p: Proc) {
    WakeOnExit in p.listeners
  }

  /** An onExit wake always finds its session gone from the active map and not being
      spawned, so it starts a spawn; no container of that session is left. It is so
      because in every run the removal was registered before any wake. */
  lemma ExitWakeStartsSpawn(events: seq<Event>, p: ProcId)
    requires Possible(IDLE, events)
    requires var r := After(IDLE, events); p in r.live && p in r.procs && HasWake(r.procs[p])
    ensures var r := After(IDLE, events);
      var s := r.procs[p].session;
      var r' := Next(r, Close(p, true));
      && s !in r.wakes && s !in r'.active && s in r'.wakes
      && forall q :: q in r'.live ==> q in r'.procs && r'.procs[q].session != s
  {
    RunKeepsInv(IDLE, events);
    var r := After(IDLE, events);
    CloseIs(r, p, true);
    var i :| 0 <= i < |r.procs[p].listeners| && r.procs[p].listeners[i] == WakeOnExit;
  }

  // ---------- Processes that report their end twice ----------

  /** A second end report of a dead process is harmless exactly when its session has
      no container at that moment; otherwise it hides a running one. */
  lemma SecondEndHarmlessIff(r: Runner, e: Event)
    requires Inv(r) && Enabled(r, e) && (e.Close? || e.SpawnError?) && e.p !in r.live
    ensures Inv(Next(r, e)) <==> r.procs[e.p].session !in r.active
  {
    var s := r.procs[e.p].session;
    if e.Close? {
      CloseIs(r, e.p, e.sessionExists);
    }
    if s in r.active {
      assert r.active[s] in Next(r, e).live && s !in Next(r, e).active;
    }
  }

  /** The run in which an error is followed by a late close: two containers of one session. */
  lemma TwoEndsTwoContainers()
    ensures
      var r3 := Next(Next(Next(IDLE, Wake("s")), SpawnDone("s", 1)), SpawnError(1, true));
      var r5 := Next(Next(r3, Wake("s")), SpawnDone("s", 2));
      var r8 := Next(Next(Next(r5, Close(1, true)), Wake("s")), SpawnDone("s", 3));
      {2, 3} <= r8.live && r8.procs[2].session == r8.procs[3].session
  {
    var r3 := Next(Next(Next(IDLE, Wake("s")), SpawnDone("s", 1)), SpawnError(1, true));
    var r5 := Next(Next(r3, Wake("s")), SpawnDone("s", 2));
    CloseIs(r5, 1, true);
  }

  /** An error of a running process is harmless exactly when it means its end; a kill
      that fails reports one as well, and hides a container that still runs. */
  lemma ErrorHarmlessIff(r: Runner, p: ProcId, ended: bool)
    requires Inv(r) && p in r.live && p in r.procs
    ensures Inv(Next(r, SpawnError(p, ended))) <==> ended
  {
    if !ended {
      assert p in Next(r, SpawnError(p, ended)).live;
    }
  }

  // ---------- Restart ----------

  predicate NoErrorOf(events: seq<Event>, p: ProcId) {
    forall i :: 0 <= i < |events| ==> !(events[i].SpawnError? && events[i].p == p) && events[i] != Close(p, false)
  }

  /** A process with an onExit wake keeps it until it ends; if it ends by closing while
      the session exists, at that moment a spawn for the session is under way. */
  lemma {:induction false} RestartRespawns(r: Runner, events: seq<Event>, p: ProcId)
    requires Inv(r) && Possible(r, events) && p in r.live && HasWake(r.procs[p])
    requires NoErrorOf(events, p)
    ensures var r' := After(r, events); p in r'.live ==> p in r'.procs && HasWake(r'.procs[p])
    ensures p !in After(r, events).live ==>
      exists k :: 0 < k <= |events| && events[k - 1] == Close(p, true)
               && Possible(r, events[..k]) && r.procs[p].session in After(r, events[..k]).wakes
    decreases |events|
  {
    if events != [] {
      var e, rest := events[0], events[1..];
      var r' := Next(r, e);
      NextKeepsInv(r, e);
      if e.Close? {
        CloseIs(r, e.p, e.sessionExists);
      }
      if e == Close(p, true) {
        var i :| 0 <= i < |r.procs[p].listeners| && r.procs[p].listeners[i] == WakeOnExit;
        assert events[..1] == [e] && [e][1..] == [];
        assert events[1 - 1] == Close(p, true) && Possible(r, events[..1]);
        assert r.procs[p].session in After(r, events[..1]).wakes;
        DeadStaysDead(r', rest, p);
      } else {
        KeepsWake(r, e, p);
        assert p in r'.live && HasWake(r'.procs[p]) && r'.procs[p].session == r.procs[p].session;
        assert forall i :: 0 <= i < |rest| ==> rest[i] == events[i + 1];
        RestartRespawns(r', rest, p);
        if p !in After(r, events).live {
          var k :| 0 < k <= |rest| && rest[k - 1] == Close(p, true)
                && Possible(r', rest[..k]) && r'.procs[p].session in After(r', rest[..k]).wakes;
          assert events[..k + 1][0] == e && events[..k + 1][1..] == rest[..k];
          assert events[(k + 1) - 1] == Close(p, true);
        }
      }
    }
  }

  lemma KeepsWake(r: Runner, e: Event, p: ProcId)
    requires Inv(r) && Enabled(r, e) && FirstEnd(r, e) && p in r.live && HasWake(r.procs[p])
    requires !((e.Close? || e.SpawnError?) && e.p == p)
    ensures var r' := Next(r, e); p in r'.live && p in r'.procs && HasWake(r'.procs[p]) && r'.procs[p].session == r.procs[p].session
  {
    if e.Close? {
      CloseIs(r, e.p, e.sessionExists);
    }
    var i :| 0 <= i < |r.procs[p].listeners| && r.procs[p].listeners[i] == WakeOnExit;
    if e.Kill? && e.onExit && e.session in r.active && r.active[e.session] == p {
      assert (r.procs[p].listeners + [WakeOnExit])[i] == WakeOnExit;
    }
  }

  lemma {:induction false} DeadStaysDead(r: Runner, events: seq<Event>, p: ProcId)
    requires Inv(r)
    requires Possible(r, events) && p in r.procs && p !in r.live
    ensures p !in After(r, events).live
    decreases |events|
  {
    if events != [] {
      var e := events[0];
      NextKeepsInv(r, e);
      if e.Close? {
        CloseIs(r, e.p, e.sessionExists);
      }
      DeadStaysDead(Next(r, e), events[1..], p);
    }
  }

  // ---------- The module of the source ----------

  /** What a restart knows of a session of the agent group. */
  datatype SessionRow = SessionRow(id: Session, active: bool, hasPending: bool)

  class ContainerRunner {
    var activeContainers: map<Session, ProcId>
    var wakePromises: set<Session>
    var processes: map<ProcId, Proc>

    /** The containers that were asked to stop, in order. */
    var stops: seq<ProcId>
    ghost var running: set<ProcId>

    constructor ()
      ensures State() == IDLE
    {
      activeContainers, wakePromises, processes, stops, running := map[], {}, map[], [], {};
    }

    ghost function State(): Runner
      reads this
    {
      Runner(activeContainers, wakePromises, processes, running)
    }

    method WakeContainer(session: Session)
      modifies this`wakePromises
      ensures State() == Next(old(State()), Wake(session))
      ensures wakePromises == old(wakePromises) + (if session in activeContainers then {} else {session})
    {
      if session in activeContainers {
        return;
      }
      if session in wakePromises {
        return;
      }
      wakePromises := wakePromises + {session};
    }

    method SpawnContainer(session: Session, p: ProcId, spawned: bool)
      requires Enabled(State(), if spawned then SpawnDone(session, p) else SpawnNothing(session))
      modifies this`activeContainers, this`wakePromises, this`processes, this`running
      ensures State() == Next(old(State()), if spawned then SpawnDone(session, p) else SpawnNothing(session))
      ensures wakePromises == old(wakePromises) - {session}
      ensures activeContainers == if spawned then old(activeContainers)[session := p] else old(activeContainers)
      ensures processes == if spawned then old(processes)[p := Proc(session, [RemoveActive])] else old(processes)
    {
      if spawned {
        processes := processes[p := Proc(session, [RemoveActive])];
        running := running + {p};
        activeContainers := activeContainers[session := p];
      }
      wakePromises := wakePromises - {session};
    }

    method KillContainer(session: Session, onExit: bool)
      modifies this`processes, this`stops
      ensures State() == Next(old(State()), Kill(session, onExit))
      ensures session !in activeContainers ==> processes == old(processes) && stops == old(stops)
      ensures session in activeContainers ==> stops == old(stops) + [activeContainers[session]]
      ensures session in activeContainers && activeContainers[session] in old(processes) ==>
        var p := activeContainers[session];
        var was := old(processes)[p];
        processes == if onExit then old(processes)[p := Proc(was.session, was.listeners + [WakeOnExit])] else old(processes)
    {
      if session !in activeContainers {
        return;
      }
      var p := activeContainers[session];
      if p in processes && onExit {
        processes := processes[p := processes[p].(listeners := processes[p].listeners + [WakeOnExit])];
      }
      stops := stops + [p];
    }

    /** The listeners registered on the process run in order. */
    method OnClose(p: ProcId, sessionExists: bool)
      requires Enabled(State(), Close(p, sessionExists))
      modifies this`activeContainers, this`wakePromises, this`processes, this`running
      ensures State() == Next(old(State()), Close(p, sessionExists))
      ensures var Proc(session, listeners) := old(processes)[p];
        RemovalFirst(listeners) ==>
          && activeContainers == old(activeContainers) - {session}
          && processes == old(processes)[p := Proc(session, [RemoveActive])]
          && wakePromises == old(wakePromises) + (if |listeners| > 1 && sessionExists then {session} else {})
    {
      if RemovalFirst(processes[p].listeners) {
        CloseIs(State(), p, sessionExists);
      }
      var Proc(session, listeners) := processes[p];
      running := running - {p};
      processes := processes[p := Proc(session, Lasting(listeners))];
      ghost var end := RunListeners(State(), session, listeners, sessionExists);
      assert listeners[0..] == listeners;
      for i := 0 to |listeners|
        invariant RunListeners(State(), session, listeners[i..], sessionExists) == end
      {
        assert listeners[i..][0] == listeners[i] && listeners[i..][1..] == listeners[i + 1..];
        match listeners[i]
        case RemoveActive =>
          activeContainers := activeContainers - {session};
        case WakeOnExit =>
          if sessionExists {
            WakeContainer(session);
          }
      }
    }

    method OnError(p: ProcId, ghost ended: bool)
      requires Enabled(State(), SpawnError(p, ended))
      modifies this`activeContainers, this`running
      ensures State() == Next(old(State()), SpawnError(p, ended))
      ensures activeContainers == old(activeContainers) - {processes[p].session}
    {
      activeContainers := activeContainers - {processes[p].session};
      running := if ended then running - {p} else running;
    }

    /** Every active session of the group with a running container is counted, and its
        container asked to stop. Those with something to process come back: their
        process carries an onExit wake. No other process gets one. */
    method RestartAgentGroupContainers(sessions: seq<SessionRow>, wakeMessage: bool) returns (count: nat)
      requires Inv(State())
      modifies this`processes, this`stops
      ensures Inv(State())
      ensures count == |set i | 0 <= i < |sessions| && sessions[i].active && sessions[i].id in activeContainers|
      ensures old(stops) <= stops && |stops| == |old(stops)| + count
      ensures forall p :: p in stops[|old(stops)|..] <==> RunsOneOf(sessions, activeContainers, p, true)
      ensures OnlyListenersAdded(old(processes), processes)
      ensures forall p :: p in processes && RunsOneOf(sessions, activeContainers, p, wakeMessage) ==> HasWake(processes[p])
      ensures forall p :: p in processes && processes[p] != old(processes)[p] ==> RunsOneOf(sessions, activeContainers, p, wakeMessage)
    {
      var targets := Targets(sessions, activeContainers);
      TargetsAre(sessions, activeContainers);
      forall s | s in targets ensures s.id in activeContainers {
        TargetsMember(sessions, activeContainers, s);
      }
      KillAll(targets, wakeMessage);
      count := |targets|;
      RestartFacts(sessions, activeContainers, old(processes), processes, stops[|old(stops)|..], wakeMessage);
    }

    /** The loop over the running sessions. */
    method KillAll(targets: seq<SessionRow>, wakeMessage: bool)
      requires Inv(State()) && forall s :: s in targets ==> s.id in activeContainers
      modifies this`processes, this`stops
      ensures Inv(State()) && old(stops) <= stops
      ensures Handled(activeContainers, old(processes), processes, targets, stops[|old(stops)|..], wakeMessage)
    {
      ghost var r := State();
      for i := 0 to |targets|
        invariant State() == KillFirst(r, targets, wakeMessage, i) && activeContainers == r.active
        invariant |stops| == |old(stops)| + i && stops[..|old(stops)|] == old(stops)
        invariant forall j :: 0 <= j < i ==> stops[|old(stops)| + j] == r.active[targets[j].id]
      {
        var session := targets[i];
        assert session in targets;
        KillContainer(session.id, wakeMessage || session.hasPending);
      }
      FirstHandled(r, targets, stops[|old(stops)|..], wakeMessage, |targets|);
      assert targets[..|targets|] == targets && stops[|old(stops)|..][..|targets|] == stops[|old(stops)|..];
    }
  }

  /** The runner after the first n of the kills. */
  function KillFirst(r: Runner, targets: seq<SessionRow>, wakeMessage: bool, n: nat): Runner
    requires n <= |targets|
  {
    if n == 0 then r
    else Next(KillFirst(r, targets, wakeMessage, n - 1), Kill(targets[n - 1].id, wakeMessage || targets[n - 1].hasPending))
  }

  lemma {:induction false} FirstHandled(r: Runner, targets: seq<SessionRow>, stopped: seq<ProcId>, wakeMessage: bool, n: nat)
    requires Inv(r) && n <= |targets| && AreOf(r.active, targets, stopped)
    ensures var r' := KillFirst(r, targets, wakeMessage, n);
      Inv(r') && r'.active == r.active && Handled(r.active, r.procs, r'.procs, targets[..n], stopped[..n], wakeMessage)
  {
    if n == 0 {
      HandledNone(r.active, r.procs, wakeMessage);
    } else {
      FirstHandled(r, targets, stopped, wakeMessage, n - 1);
      var before := KillFirst(r, targets, wakeMessage, n - 1);
      assert stopped[..n] == stopped[..n - 1] + [r.active[targets[n - 1].id]];
      assert targets[..n] == targets[..n - 1] + [targets[n - 1]];
      KillStep(before, r.procs, targets[..n - 1], targets[n - 1], targets[..n], stopped[..n - 1], stopped[..n], wakeMessage);
    }
  }

  /** The sessions' containers were asked to stop, and those with something to process
      got their wake, as no other process did. */
  predicate Handled(active: map<Session, ProcId>, start: map<ProcId, Proc>, procs: map<ProcId, Proc>,
                    sessions: seq<SessionRow>, stopped: seq<ProcId>, wakeMessage: bool) {
    && OnlyListenersAdded(start, procs)
    && AllComeBack(active, procs, sessions, wakeMessage)
    && OnlyOfThese(active, start, procs, sessions, wakeMessage)
    && AreOf(active, sessions, stopped)
  }

  lemma HandledNone(active: map<Session, ProcId>, procs: map<ProcId, Proc>, wakeMessage: bool)
    ensures Handled(active, procs, procs, [], [], wakeMessage)
  {
  }

  lemma HandledStep(active: map<Session, ProcId>, start: map<ProcId, Proc>, before: map<ProcId, Proc>, after: map<ProcId, Proc>,
                    done: seq<SessionRow>, s: SessionRow, stopped: seq<ProcId>, wakeMessage: bool)
    requires s.id in active && Handled(active, start, before, done, stopped, wakeMessage)
    requires OnlyListenersAdded(before, after)
    requires wakeMessage || s.hasPending ==> ComesBack(active, after, s.id)
    requires forall p :: p in before && after[p] != before[p] ==> p == active[s.id] && (wakeMessage || s.hasPending)
    ensures Handled(active, start, after, done + [s], stopped + [active[s.id]], wakeMessage)
  {
    AddedTwice(start, before, after);
    OneMoreComesBack(active, before, after, done, s, wakeMessage);
    OneMoreOnly(active, start, before, after, done, s, wakeMessage);
  }

  lemma KillStep(r: Runner, start: map<ProcId, Proc>, done: seq<SessionRow>, s: SessionRow, done': seq<SessionRow>,
                 stopped: seq<ProcId>, stopped': seq<ProcId>, wakeMessage: bool)
    requires Inv(r) && s.id in r.active && done' == done + [s] && stopped' == stopped + [r.active[s.id]]
    requires Handled(r.active, start, r.procs, done, stopped, wakeMessage)
    ensures var r' := Next(r, Kill(s.id, wakeMessage || s.hasPending));
      Inv(r') && r'.active == r.active && Handled(r.active, start, r'.procs, done', stopped', wakeMessage)
  {
    var onExit := wakeMessage || s.hasPending;
    var r' := Next(r, Kill(s.id, onExit));
    NextKeepsInv(r, Kill(s.id, onExit));
    KillAddsListener(r, s.id, onExit);
    HandledStep(r.active, start, r.procs, r'.procs, done, s, stopped, wakeMessage);
  }

  /** The containers of the sessions, in order. */
  predicate AreOf(active: map<Session, ProcId>, sessions: seq<SessionRow>, containers: seq<ProcId>) {
    |containers| == |sessions| && forall i :: 0 <= i < |sessions| ==> sessions[i].id in active && active[sessions[i].id] == containers[i]
  }

  /** The same processes, each with its listeners or with more of them after those. */
  predicate OnlyListenersAdded(before: map<ProcId, Proc>, after: map<ProcId, Proc>) {
    && before.Keys == after.Keys
    && forall p :: p in before ==> after[p].session == before[p].session && before[p].listeners <= after[p].listeners
  }

  lemma AddedTwice(a: map<ProcId, Proc>, b: map<ProcId, Proc>, c: map<ProcId, Proc>)
    requires OnlyListenersAdded(a, b) && OnlyListenersAdded(b, c)
    ensures OnlyListenersAdded(a, c)
    ensures forall p :: p in b && HasWake(b[p]) ==> HasWake(c[p])
  {
  }

  /** The session's running container will wake it again when it exits. */
  predicate ComesBack(active: map<Session, ProcId>, procs: map<ProcId, Proc>, s: Session) {
    s in active && active[s] in procs && HasWake(procs[active[s]])
  }

  predicate AllComeBack(active: map<Session, ProcId>, procs: map<ProcId, Proc>, sessions: seq<SessionRow>, wakeMessage: bool) {
    forall s :: s in sessions && (wakeMessage || s.hasPending) ==> ComesBack(active, procs, s.id)
  }

  lemma OneMoreComesBack(active: map<Session, ProcId>, before: map<ProcId, Proc>, after: map<ProcId, Proc>,
                         done: seq<SessionRow>, s: SessionRow, wakeMessage: bool)
    requires AllComeBack(active, before, done, wakeMessage) && OnlyListenersAdded(before, after)
    requires wakeMessage || s.hasPending ==> ComesBack(active, after, s.id)
    ensures AllComeBack(active, after, done + [s], wakeMessage)
  {
    AddedTwice(before, before, after);
  }

  lemma KillAddsListener(r: Runner, s: Session, onExit: bool)
    requires Inv(r)
    ensures var r' := Next(r, Kill(s, onExit));
      && OnlyListenersAdded(r.procs, r'.procs)
      && r'.active == r.active
      && (onExit && s in r.active ==> HasWake(r'.procs[r.active[s]]))
      && (forall p :: p in r.procs && r'.procs[p] != r.procs[p] ==> onExit && s in r.active && p == r.active[s])
  {
    if onExit && s in r.active {
      var p := r.active[s];
      var listeners := r.procs[p].listeners + [WakeOnExit];
      assert listeners[|r.procs[p].listeners|] == WakeOnExit;
    }
  }

  /** Only processes of these sessions got a listener. */
  predicate OnlyOfThese(active: map<Session, ProcId>, before: map<ProcId, Proc>, after: map<ProcId, Proc>,
                        sessions: seq<SessionRow>, wakeMessage: bool)
    requires before.Keys == after.Keys
  {
    forall p :: p in after && after[p] != before[p] ==>
      exists s :: s in sessions && (wakeMessage || s.hasPending) && s.id in active && active[s.id] == p
  }

  lemma OneMoreOnly(active: map<Session, ProcId>, start: map<ProcId, Proc>, before: map<ProcId, Proc>, after: map<ProcId, Proc>,
                    done: seq<SessionRow>, s: SessionRow, wakeMessage: bool)
    requires s.id in active && start.Keys == before.Keys == after.Keys
    requires OnlyOfThese(active, start, before, done, wakeMessage)
    requires forall p :: p in before && after[p] != before[p] ==> p == active[s.id] && (wakeMessage || s.hasPending)
    ensures OnlyOfThese(active, start, after, done + [s], wakeMessage)
  {
    forall p | p in after && after[p] != start[p]
      ensures exists x :: x in done + [s] && (wakeMessage || x.hasPending) && x.id in active && active[x.id] == p
    {
      if after[p] != before[p] {
        assert s in done + [s];
      } else {
        var x :| x in done && (wakeMessage || x.hasPending) && x.id in active && active[x.id] == p;
        assert x in done + [s];
      }
    }
  }

  function Targets(sessions: seq<SessionRow>, active: map<Session, ProcId>): seq<SessionRow> {
    if sessions == [] then []
    else
      var rest := Targets(sessions[1..], active);
      if sessions[0].active && sessions[0].id in active then [sessions[0]] + rest else rest
  }

  function RunningAt(sessions: seq<SessionRow>, active: map<Session, ProcId>): set<int> {
    set i | 0 <= i < |sessions| && sessions[i].active && sessions[i].id in active
  }

  lemma {:induction false} TargetsSnoc(sessions: seq<SessionRow>, active: map<Session, ProcId>, s: SessionRow)
    ensures Targets(sessions + [s], active) == Targets(sessions, active) + (if s.active && s.id in active then [s] else [])
  {
    if sessions == [] {
      assert sessions + [s] == [s] && [s][1..] == [];
    } else {
      assert (sessions + [s])[1..] == sessions[1..] + [s];
      TargetsSnoc(sessions[1..], active, s);
    }
  }

  lemma RunningSnoc(sessions: seq<SessionRow>, active: map<Session, ProcId>, s: SessionRow)
    ensures |RunningAt(sessions + [s], active)| == |RunningAt(sessions, active)| + (if s.active && s.id in active then 1 else 0)
  {
    var all, n := sessions + [s], |sessions|;
    assert forall i :: 0 <= i < n ==> all[i] == sessions[i];
    assert RunningAt(all, active) == RunningAt(sessions, active) + (if s.active && s.id in active then {n} else {});
  }

  /** The targets are all the sessions that are active and have a running container,
      as often as they are listed. */
  lemma {:induction false} TargetsAre(sessions: seq<SessionRow>, active: map<Session, ProcId>)
    ensures forall s :: multiset(Targets(sessions, active))[s] == if s.active && s.id in active then multiset(sessions)[s] else 0
    ensures |Targets(sessions, active)| == |set i | 0 <= i < |sessions| && sessions[i].active && sessions[i].id in active|
    decreases |sessions|
  {
    if sessions == [] {
      assert RunningAt(sessions, active) == {};
    } else {
      var init, last := sessions[..|sessions| - 1], sessions[|sessions| - 1];
      assert sessions == init + [last];
      TargetsAre(init, active);
      TargetsSnoc(init, active, last);
      RunningSnoc(init, active, last);
      assert |RunningAt(sessions, active)| == |set i | 0 <= i < |sessions| && sessions[i].active && sessions[i].id in active|;
    }
  }

  lemma TargetsMember(sessions: seq<SessionRow>, active: map<Session, ProcId>, s: SessionRow)
    ensures s in Targets(sessions, active) <==> s in sessions && s.active && s.id in active
  {
    TargetsAre(sessions, active);
    assert s in multiset(sessions) <==> s in sessions;
    assert s in multiset(Targets(sessions, active)) <==> s in Targets(sessions, active);
  }

  /** The container is that of an active session of the list, one with something to
      process unless all are meant. */
  predicate RunsOneOf(sessions: seq<SessionRow>, active: map<Session, ProcId>, p: ProcId, all: bool) {
    exists s :: s in sessions && s.active && s.id in active && active[s.id] == p && (all || s.hasPending)
  }

  lemma RestartFacts(sessions: seq<SessionRow>, active: map<Session, ProcId>, before: map<ProcId, Proc>, after: map<ProcId, Proc>,
                     stopped: seq<ProcId>, wakeMessage: bool)
    requires Handled(active, before, after, Targets(sessions, active), stopped, wakeMessage)
    ensures forall p :: p in stopped <==> RunsOneOf(sessions, active, p, true)
    ensures forall p :: p in after && RunsOneOf(sessions, active, p, wakeMessage) ==> HasWake(after[p])
    ensures forall p :: p in after && after[p] != before[p] ==> RunsOneOf(sessions, active, p, wakeMessage)
  {
    var targets := Targets(sessions, active);
    forall s | s in targets ensures s in sessions && s.active && s.id in active {
      TargetsMember(sessions, active, s);
    }
    forall p ensures p in stopped <==> RunsOneOf(sessions, active, p, true) {
      if p in stopped {
        var i :| 0 <= i < |targets| && stopped[i] == p;
        assert targets[i] in targets;
      }
      if RunsOneOf(sessions, active, p, true) {
        var s :| s in sessions && s.active && s.id in active && active[s.id] == p;
        TargetsMember(sessions, active, s);
        var i :| 0 <= i < |targets| && targets[i] == s;
        assert stopped[i] == p;
      }
    }
    forall p | p in after && RunsOneOf(sessions, active, p, wakeMessage) ensures HasWake(after[p]) {
      var s :| s in sessions && s.active && s.id in active && active[s.id] == p && (wakeMessage || s.hasPending);
      TargetsMember(sessions, active, s);
      assert ComesBack(active, after, s.id);
    }
  }
}
