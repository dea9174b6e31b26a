/**
 * The daemon supervisor of `macos-app/BackendSupervisor.swift` as a state machine: one transition
 * per main-queue event, with the environment (children, queued closures, timers) made explicit.
 *
 * The state carries a log of what the supervisor did. The log is what the safety statements are
 * about; `BackendSupervisor.dfy` holds the class whose methods implement these transitions.
 */
module SupervisorModel {
  import opened Common

  type Pid = nat

  /** What a child's `terminationHandler` currently does. */
  datatype Handler = NoHandler | ExitPolicy | DrainLog

  /** A child process: `told` once `terminate()` was called, `fired` once its handler was invoked. */
  datatype Child = Child(running: bool, abnormal: bool, told: bool, handler: Handler, fired: bool)

  /** What spawning a child came to; a started child may already be dead when it is first looked at. */
  datatype Spawn = NotStarted | Started(alive: bool, abnormal: bool)

  /** A readiness request in flight, or its retry on the queue. */
  datatype PollTicket = PollTicket(attempts: nat, generation: nat)

  /** A readiness request to a swap's successor in flight, or its retry on the queue. */
  datatype SwapTicket = SwapTicket(successor: Pid, port: int, attempts: nat, swap: nat)

  /** A termination handler's block on the main queue. */
  datatype ExitNote = ExitNote(pid: Pid, handler: Handler)

  datatype Entry =
    | Starting | Ready | Unreachable | StoppedCleanly | Crashed(delay: nat)
    | Exit(pid: Pid, abnormal: bool) | RespawnFailed | Reset
    | Probe(swap: nat) | Swapped(port: int) | Complete(swap: nat, ok: bool)
    | Drain(pid: Pid) | Terminate(pid: Pid) | QuitBegan

  datatype State = State(
    backend: Option<Pid>,
    draining: seq<Pid>,
    swapInFlight: bool,
    port: int,
    pollGeneration: nat,
    restartAttempts: nat,
    healthTimer: bool,
    restartTimer: bool,
    terminating: bool,
    children: seq<Child>,
    polls: set<PollTicket>,
    swaps: set<SwapTicket>,
    notes: set<ExitNote>,
    nextSwap: nat,
    log: seq<Entry>)

  datatype Event =
    | ChildExits(pid: Pid, abnormal: bool)
    | HandlerFires(pid: Pid)
    | ExitNoted(note: ExitNote, longLived: bool)
    | PollAnswered(poll: PollTicket, ok: bool)
    | SwapAnswered(ticket: SwapTicket, ok: bool)
    | HealthTick(longLived: bool)
    | RestartTimerFires(spawn: Spawn)
    | ManualRestart(spawn: Spawn)
    | BeginSwap(newPort: int, spawn: Spawn)
    | Quit

  const MAX_RETRIES := 30

  // ---------------------------------------------------------------------------------------
  // The transitions, one function per function of the source.
  // ---------------------------------------------------------------------------------------

  function Init(port: int): State {
    State(None, [], false, port, 0, 0, false, false, false, [], {}, {}, {}, 0, [])
  }

  function Emit(s: State, e: Entry): State {
    s.(log := s.log + [e])
  }

  predicate RunningIn(children: seq<Child>, p: Pid) {
    p < |children| && children[p].running
  }

  predicate Running(s: State, p: Pid) {
    RunningIn(s.children, p)
  }

  function Spawned(spawn: Spawn, handler: Handler): Child
    requires spawn.Started?
  {
    Child(spawn.alive, spawn.abnormal, false, handler, false)
  }

  function SetHandler(s: State, p: Pid, handler: Handler): State {
    if p < |s.children| then s.(children := s.children[p := s.children[p].(handler := handler)]) else s
  }

  function TerminateChild(s: State, p: Pid): State {
    if p < |s.children|
    then Emit(s.(children := s.children[p := s.children[p].(handler := NoHandler, told := true)]), Terminate(p))
    else s
  }

  function StartBackend(s: State, spawn: Spawn): State {
    if spawn.NotStarted? then s
    else s.(backend := Some(|s.children|), children := s.children + [Spawned(spawn, ExitPolicy)])
  }

  function Poll(s: State, attempts: nat, generation: nat): State {
    if generation != s.pollGeneration then s
    else if attempts > MAX_RETRIES then Emit(s, Unreachable)
    else s.(polls := s.polls + {PollTicket(attempts, generation)})
  }

  function PollUntilReady(s: State): State {
    Poll(Emit(s.(pollGeneration := s.pollGeneration + 1), Starting), 0, s.pollGeneration + 1)
  }

  function Launch(port: int, spawn: Spawn): State {
    PollUntilReady(StartBackend(Init(port), spawn))
  }

  function RestartBackend(s: State, spawn: Spawn): State {
    var idle := s.(restartTimer := false, healthTimer := false);
    var stopped := if idle.backend.Some? && Running(idle, idle.backend.value)
                   then TerminateChild(idle, idle.backend.value) else idle;
    var started := StartBackend(stopped, spawn);
    if spawn.Started? then PollUntilReady(started) else started
  }

  function Pow2(k: nat): nat {
    if k == 0 then 1 else 2 * Pow2(k - 1)
  }

  /** The countdown before the k-th consecutive restart: 2, 4, 8, 16, 32, 60, 60, ... seconds. */
  function Backoff(k: nat): nat {
    if Pow2(k) < 60 then Pow2(k) else 60
  }

  function ScheduleAutoRestart(s: State): State {
    if s.terminating then s
    else Emit(s.(pollGeneration := s.pollGeneration + 1, restartAttempts := s.restartAttempts + 1,
                 restartTimer := true),
              Crashed(Backoff(s.restartAttempts + 1)))
  }

  function BackendDidExit(s: State, p: Pid, longLived: bool): State {
    if s.terminating || s.backend != Some(p) || p >= |s.children| || s.children[p].running then s
    else
      var consumed := s.(backend := None, healthTimer := false);
      if !s.children[p].abnormal
      then Emit(Emit(consumed.(pollGeneration := s.pollGeneration + 1), Exit(p, false)), StoppedCleanly)
      else AfterCrash(consumed, p, longLived)
  }

  /** The abnormal half of the exit policy; ten minutes of uptime reset the counter. */
  function AfterCrash(s: State, p: Pid, longLived: bool): State {
    var rested := if longLived then Emit(s.(restartAttempts := 0), Reset) else s;
    ScheduleAutoRestart(Emit(rested, Exit(p, true)))
  }

  function RestartTimerFired(s: State, spawn: Spawn): State {
    var disarmed := s.(restartTimer := false);
    if s.terminating then disarmed
    else if spawn.Started? then RestartBackend(disarmed, spawn)
    else ScheduleAutoRestart(Emit(RestartBackend(disarmed, spawn), RespawnFailed))
  }

  function FinishFailedSwap(s: State, successor: Pid, swap: nat): State {
    var closed := SetHandler(s.(swapInFlight := false), successor, NoHandler);
    Emit(if Running(closed, successor) then TerminateChild(closed, successor) else closed, Complete(swap, false))
  }

  function PollSwapReadiness(s: State, successor: Pid, newPort: int, attempts: nat, swap: nat): State {
    if !Running(s, successor) || attempts > MAX_RETRIES then FinishFailedSwap(s, successor, swap)
    else Emit(s.(swaps := s.swaps + {SwapTicket(successor, newPort, attempts, swap)}), Probe(swap))
  }

  function BeginUpdateSwap(s: State, newPort: int, spawn: Spawn): State {
    var called := s.(nextSwap := s.nextSwap + 1);
    if s.swapInFlight || s.backend.None? || !Running(s, s.backend.value) || spawn.NotStarted?
    then Emit(called, Complete(s.nextSwap, false))
    else
      PollSwapReadiness(called.(children := s.children + [Spawned(spawn, NoHandler)], swapInFlight := true),
                        |s.children|, newPort, 0, s.nextSwap)
  }

  function DrainPredecessor(s: State): State {
    if s.backend.None? then s
    else
      var elder := s.backend.value;
      Emit(SetHandler(s, elder, DrainLog).(draining := s.draining + [elder]), Drain(elder))
  }

  function TakeCommand(s: State, successor: Pid, newPort: int): State {
    SetHandler(s.(backend := Some(successor), port := newPort, restartAttempts := 0, healthTimer := true), successor,
        ExitPolicy)
  }

  function PromoteSuccessor(s: State, successor: Pid, newPort: int, swap: nat): State {
    if !s.swapInFlight then s
    else
      var promoted := TakeCommand(DrainPredecessor(s.(swapInFlight := false)), successor, newPort);
      Emit(Emit(Emit(promoted, Reset), Swapped(newPort)), Complete(swap, true))
  }

  function Without(pids: seq<Pid>, p: Pid): seq<Pid> {
    if pids == [] then []
    else if pids[0] == p then Without(pids[1..], p)
    else [pids[0]] + Without(pids[1..], p)
  }

  function OnlyRunning(children: seq<Child>, pids: seq<Pid>): seq<Pid> {
    if pids == [] then []
    else if RunningIn(children, pids[0]) then [pids[0]] + OnlyRunning(children, pids[1..])
    else OnlyRunning(children, pids[1..])
  }

  function TerminateEach(s: State, pids: seq<Pid>): State {
    if pids == [] then s else TerminateChild(TerminateEach(s, pids[..|pids| - 1]), pids[|pids| - 1])
  }

  function KillEach(children: seq<Child>, pids: seq<Pid>): seq<Child> {
    seq(|children|, p requires 0 <= p < |children| =>
      if p in pids then children[p].(running := false) else children[p])
  }

  /** The children quit takes down: the backend, then every draining predecessor. */
  function QuitSweep(s: State): seq<Pid> {
    OnlyRunning(s.children, (if s.backend.Some? then [s.backend.value] else []) + s.draining)
  }

  function Shutdown(s: State): State {
    var quitting := Emit(s.(terminating := true, restartTimer := false, healthTimer := false), QuitBegan);
    var told := TerminateEach(quitting, QuitSweep(s));
    told.(children := KillEach(told.children, QuitSweep(s)))
  }

  predicate Enabled(s: State, e: Event) {
    match e
    case ChildExits(p, _) => Running(s, p)
    case HandlerFires(p) => p < |s.children| && !s.children[p].running && !s.children[p].fired
    case ExitNoted(note, _) => note in s.notes
    case PollAnswered(t, _) => t in s.polls
    case SwapAnswered(t, _) => t in s.swaps
    case HealthTick(_) => s.healthTimer
    case RestartTimerFires(_) => s.restartTimer
    case ManualRestart(_) => !s.terminating
    case BeginSwap(_, _) => !s.terminating
    case Quit => !s.terminating
  }

  function ChildExited(s: State, p: Pid, abnormal: bool): State
    requires p < |s.children|
  {
    s.(children := s.children[p := s.children[p].(running := false, abnormal := abnormal)])
  }

  function HandlerFired(s: State, p: Pid): State
    requires p < |s.children|
  {
    var c := s.children[p];
    s.(children := s.children[p := c.(fired := true)],
       notes := if c.handler.NoHandler? then s.notes else s.notes + {ExitNote(p, c.handler)})
  }

  function NoteDelivered(s: State, note: ExitNote, longLived: bool): State {
    var taken := s.(notes := s.notes - {note});
    match note.handler
    case ExitPolicy => BackendDidExit(taken, note.pid, longLived)
    case DrainLog => taken.(draining := Without(s.draining, note.pid))
    case NoHandler => taken
  }

  function PollDelivered(s: State, t: PollTicket, ok: bool): State {
    var taken := s.(polls := s.polls - {t});
    if !ok then Poll(taken, t.attempts + 1, t.generation)
    else if t.generation != s.pollGeneration then taken
    else Emit(taken, Ready).(healthTimer := true)
  }

  function SwapDelivered(s: State, t: SwapTicket, ok: bool): State {
    var taken := s.(swaps := s.swaps - {t});
    if ok then PromoteSuccessor(taken, t.successor, t.port, t.swap)
    else PollSwapReadiness(taken, t.successor, t.port, t.attempts + 1, t.swap)
  }

  function HealthTicked(s: State, longLived: bool): State {
    if s.backend.Some? && !Running(s, s.backend.value)
    then BackendDidExit(s.(healthTimer := false), s.backend.value, longLived)
    else s
  }

  function Step(s: State, e: Event): State
    requires Enabled(s, e)
  {
    match e
    case ChildExits(p, abnormal) => ChildExited(s, p, abnormal)
    case HandlerFires(p) => HandlerFired(s, p)
    case ExitNoted(note, longLived) => NoteDelivered(s, note, longLived)
    case PollAnswered(t, ok) => PollDelivered(s, t, ok)
    case SwapAnswered(t, ok) => SwapDelivered(s, t, ok)
    case HealthTick(longLived) => HealthTicked(s, longLived)
    case RestartTimerFires(spawn) => RestartTimerFired(s, spawn)
    case ManualRestart(spawn) => RestartBackend(s, spawn)
    case BeginSwap(newPort, spawn) => BeginUpdateSwap(s, newPort, spawn)
    case Quit => Shutdown(s)
  }

  /** A run: launch, then any enabled events in any order. */
  ghost predicate IsRun(run: seq<State>, events: seq<Event>) {
    && |run| == |events| + 1
    && (exists port, spawn :: run[0] == Launch(port, spawn))
    && forall i :: 0 <= i < |events| ==> Enabled(run[i], events[i]) && run[i + 1] == Step(run[i], events[i])
  }
}
