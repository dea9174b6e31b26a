/**
 * The supervisor object of `macos-app/BackendSupervisor.swift`: its fields, and one method per
 * function of the source, each proved against the transition of the same name.
 */
module BackendSupervision {
  import opened Common
  import opened SupervisorModel
  import opened SupervisorSafety

  class BackendSupervisor {
    var backendProcess: Option<Pid>
    var drainingProcesses: seq<Pid>
    var swapInFlight: bool
    var port: int
    var pollGeneration: nat
    var backendRestartAttempts: nat
    var healthTimer: bool
    var backendAutoRestartTimer: bool
    var isTerminating: bool

    // The operating system's side: the children ever spawned, and the closures not yet run.
    var children: seq<Child>
    ghost var polls: set<PollTicket>
    ghost var swaps: set<SwapTicket>
    ghost var notes: set<ExitNote>
    ghost var nextSwap: nat
    ghost var log: seq<Entry>

    ghost function View(): State
      reads this
    {
      State(backendProcess, drainingProcesses, swapInFlight, port, pollGeneration, backendRestartAttempts, healthTimer,
            backendAutoRestartTimer, isTerminating, children, polls, swaps, notes, nextSwap, log)
    }

    /** Construction and the launch sequence of the app: start the backend, then poll it. */
    constructor (port: int, spawn: Spawn)
      ensures View() == Launch(port, spawn) && Inv(View())
    {

      this.port := port;
      backendProcess := None;
      drainingProcesses := [];
      swapInFlight := false;
      pollGeneration, backendRestartAttempts := 0, 0;
      healthTimer, backendAutoRestartTimer, isTerminating := false, false, false;
      children := [];
      polls, swaps, notes, nextSwap, log := {}, {}, {}, 0, [];
      new;
      var _ := StartBackend(spawn);
      PollUntilReady();
      LaunchEstablishes(port, spawn);
    }

    function IsRunning(p: Pid): bool
      reads this`children
    {
      p < |children| && children[p].running
    }

    method SetTerminationHandler(p: Pid, handler: Handler)
      modifies this`children
      ensures View() == SetHandler(old(View()), p, handler)
    {
      if p < |children| {
        children := children[p := children[p].(handler := handler)];
      }
    }

    /** `proc.terminationHandler = nil; proc.terminate()` */
    method Terminate(p: Pid)
      requires p < |children|
      modifies this`children, this`log
      ensures View() == TerminateChild(old(View()), p)
    {
      children := children[p := children[p].(handler := NoHandler)];
      children := children[p := children[p].(told := true)];
      log := log + [Entry.Terminate(p)];
    }

    /** The source's `spawnChild`: a child with no lifecycle wiring, or nothing. */
    method SpawnChild(spawn: Spawn) returns (child: Option<Pid>)
      modifies this`children
      ensures spawn.NotStarted? ==> child == None && View() == old(View())
      ensures spawn.Started? ==> child == Some(|old(children)|)
                                 && View() == old(View()).(children := old(children) + [Spawned(spawn, NoHandler)])
    {
      if spawn.NotStarted? { return None; }
      child := Some(|children|);
      children := children + [Spawned(spawn, NoHandler)];
    }

    method StartBackend(spawn: Spawn) returns (started: bool)
      modifies this`children, this`backendProcess
      ensures View() == SupervisorModel.StartBackend(old(View()), spawn)
      ensures started <==> spawn.Started?
    {
      var child := SpawnChild(spawn);
      if child.None? { return false; }
      backendProcess := child;
      children := children[child.value := children[child.value].(handler := ExitPolicy)];
      return true;
    }

    method Poll(attempts: nat, generation: nat)
      modifies this`polls, this`log
      ensures View() == SupervisorModel.Poll(old(View()), attempts, generation)
    {
      if generation != pollGeneration { return; }
      if attempts > MAX_RETRIES {
        log := log + [Unreachable];
        return;
      }
      polls := polls + {PollTicket(attempts, generation)};
    }

    method PollUntilReady()
      modifies this`pollGeneration, this`polls, this`log
      ensures View() == SupervisorModel.PollUntilReady(old(View()))
    {
      pollGeneration := pollGeneration + 1;
      log := log + [Starting];
      Poll(0, pollGeneration);
    }

    method RestartBackend(spawn: Spawn) returns (started: bool)
      modifies this
      ensures View() == SupervisorModel.RestartBackend(old(View()), spawn)
      ensures started <==> spawn.Started?
    {
      hide SupervisorModel.StartBackend, SupervisorModel.PollUntilReady, TerminateChild;
      backendAutoRestartTimer := false;
      healthTimer := false;
      if backendProcess.Some? && IsRunning(backendProcess.value) {
        Terminate(backendProcess.value);
      }
      started := StartBackend(spawn);
      if started {
        PollUntilReady();
      }
    }

    method ScheduleBackendAutoRestart()
      modifies this
      ensures View() == ScheduleAutoRestart(old(View()))
    {
      if isTerminating { return; }
      pollGeneration := pollGeneration + 1;
      var delay := Backoff(backendRestartAttempts + 1);
      backendRestartAttempts := backendRestartAttempts + 1;
      log := log + [Crashed(delay)];
      backendAutoRestartTimer := true;
    }

    /** The restart timer's block; a fired timer is no longer armed. */
    method RestartTimerFires(spawn: Spawn)
      modifies this
      ensures View() == RestartTimerFired(old(View()), spawn)
    {
      backendAutoRestartTimer := false;
      if !isTerminating {
        var started := RestartBackend(spawn);
        if !started {
          log := log + [RespawnFailed];
          ScheduleBackendAutoRestart();
        }
      }
    }

    method BackendDidExit(p: Pid, longLived: bool)
      modifies this
      ensures View() == SupervisorModel.BackendDidExit(old(View()), p, longLived)
    {
      hide AfterCrash;
      if isTerminating || backendProcess != Some(p) || p >= |children| || IsRunning(p) { return; }
      backendProcess := None;
      healthTimer := false;
      if !children[p].abnormal {
        log := log + [Exit(p, false)];
        pollGeneration := pollGeneration + 1;
        log := log + [StoppedCleanly];
        return;
      }
      RestartAfterCrash(p, longLived);
    }

    /** The abnormal half of the exit policy; ten minutes of uptime reset the counter. */
    method RestartAfterCrash(p: Pid, longLived: bool)
      modifies this
      ensures View() == AfterCrash(old(View()), p, longLived)
    {
      hide ScheduleAutoRestart;
      if longLived {
        backendRestartAttempts := 0;
        log := log + [Reset];
      }
      log := log + [Exit(p, true)];
      ScheduleBackendAutoRestart();
    }

    method HealthTick(longLived: bool)
      modifies this
      ensures View() == HealthTicked(old(View()), longLived)
    {
      if backendProcess.Some? && !IsRunning(backendProcess.value) {
        healthTimer := false;
        BackendDidExit(backendProcess.value, longLived);
      }
    }

    /** The reply to a readiness request, on the main queue. */
    method PollAnswered(t: PollTicket, ok: bool)
      modifies this
      ensures View() == PollDelivered(old(View()), t, ok)
    {
      polls := polls - {t};
      if ok {
        if t.generation == pollGeneration {
          log := log + [Ready];
          healthTimer := true;
        }
      } else {
        Poll(t.attempts + 1, t.generation);
      }
    }

    /** A termination handler's block: the exit policy, or the drained predecessor's removal by identity. */
    method ExitNoted(note: ExitNote, longLived: bool)
      modifies this
      ensures View() == NoteDelivered(old(View()), note, longLived)
    {
      notes := notes - {note};
      match note.handler {
        case ExitPolicy => BackendDidExit(note.pid, longLived);
        case DrainLog => drainingProcesses := Without(drainingProcesses, note.pid);
        case NoHandler =>
      }
    }

    method BeginUpdateSwap(newPort: int, spawn: Spawn)
      modifies this
      ensures View() == SupervisorModel.BeginUpdateSwap(old(View()), newPort, spawn)
    {
      hide SupervisorModel.PollSwapReadiness;
      ghost var swap := nextSwap;
      nextSwap := nextSwap + 1;
      if swapInFlight || backendProcess.None? || !IsRunning(backendProcess.value) {
        log := log + [Complete(swap, false)];
      } else {
        var successor := SpawnChild(spawn);
        if successor.None? {
          log := log + [Complete(swap, false)];
        } else {
          swapInFlight := true;
          PollSwapReadiness(successor.value, newPort, 0, swap);
        }
      }
    }

    method PollSwapReadiness(successor: Pid, newPort: int, attempts: nat, ghost swap: nat)
      modifies this
      ensures View() == SupervisorModel.PollSwapReadiness(old(View()), successor, newPort, attempts, swap)
    {
      if !IsRunning(successor) {
        FinishFailedSwap(successor, swap);
        return;
      }
      if attempts > MAX_RETRIES {
        FinishFailedSwap(successor, swap);
        return;
      }
      swaps := swaps + {SwapTicket(successor, newPort, attempts, swap)};
      log := log + [Probe(swap)];
    }

    method FinishFailedSwap(successor: Pid, ghost swap: nat)
      modifies this
      ensures View() == SupervisorModel.FinishFailedSwap(old(View()), successor, swap)
    {
      swapInFlight := false;
      SetTerminationHandler(successor, NoHandler);
      if IsRunning(successor) {
        Terminate(successor);
      }
      log := log + [Complete(swap, false)];
    }

    /** The reply to a successor's readiness request, on the main queue. */
    method SwapPollAnswered(t: SwapTicket, ok: bool)
      modifies this
      ensures View() == SwapDelivered(old(View()), t, ok)
    {
      swaps := swaps - {t};
      if ok {
        PromoteSuccessor(t.successor, t.port, t.swap);
      } else {
        PollSwapReadiness(t.successor, t.port, t.attempts + 1, t.swap);
      }
    }

    method DrainPredecessor()
      modifies this`children, this`drainingProcesses, this`log
      ensures View() == SupervisorModel.DrainPredecessor(old(View()))
    {
      if backendProcess.Some? {
        SetTerminationHandler(backendProcess.value, DrainLog);
        drainingProcesses := drainingProcesses + [backendProcess.value];
        log := log + [Drain(backendProcess.value)];
      }
    }

    method TakeCommand(successor: Pid, newPort: int)
      modifies this
      ensures View() == SupervisorModel.TakeCommand(old(View()), successor, newPort)
    {
      backendProcess := Some(successor);
      port := newPort;
      backendRestartAttempts := 0;
      SetTerminationHandler(successor, ExitPolicy);
      healthTimer := true;
    }

    method PromoteSuccessor(successor: Pid, newPort: int, ghost swap: nat)
      modifies this
      ensures View() == SupervisorModel.PromoteSuccessor(old(View()), successor, newPort, swap)
    {
      hide SupervisorModel.DrainPredecessor, SupervisorModel.TakeCommand;
      if !swapInFlight { return; }
      swapInFlight := false;
      DrainPredecessor();
      TakeCommand(successor, newPort);
      log := log + [Reset];
      log := log + [Swapped(newPort)];
      log := log + [Complete(swap, true)];
    }

    /** Quit: sweep the backend and every draining predecessor; the bounded wait ends in a forced kill. */
    method Shutdown()
      modifies this
      ensures View() == SupervisorModel.Shutdown(old(View()))
    {
      hide OnlyRunning, TerminateEach, KillEach;
      isTerminating := true;
      log := log + [QuitBegan];
      backendAutoRestartTimer := false;
      healthTimer := false;
      var candidates := (if backendProcess.Some? then [backendProcess.value] else []) + drainingProcesses;
      var sweep := Filtered(candidates);
      OnlyRunningContains(children, candidates);
      assert forall i :: 0 <= i < |sweep| ==> sweep[i] in sweep;
      TerminateAll(sweep);
      KillAll(sweep);
    }

    method TerminateAll(sweep: seq<Pid>)
      requires forall i :: 0 <= i < |sweep| ==> sweep[i] < |children|
      modifies this`children, this`log
      ensures View() == TerminateEach(old(View()), sweep) && |children| == |old(children)|
    {
      for i := 0 to |sweep|
        invariant View() == TerminateEach(old(View()), sweep[..i])
        invariant |children| == |old(children)|
      {
        assert sweep[..i + 1][..i] == sweep[..i];
        Terminate(sweep[i]);
      }
      assert sweep[..|sweep|] == sweep;
    }

    method KillAll(sweep: seq<Pid>)
      requires forall i :: 0 <= i < |sweep| ==> sweep[i] < |children|
      modifies this`children
      ensures View() == old(View()).(children := KillEach(old(children), sweep))
    {
      for i := 0 to |sweep|
        invariant children == KillEach(old(children), sweep[..i])
      {
        assert sweep[..i + 1] == sweep[..i] + [sweep[i]];
        if IsRunning(sweep[i]) {
          children := children[sweep[i] := children[sweep[i]].(running := false)];
        }
      }
      assert sweep[..|sweep|] == sweep;
    }

    method Filtered(pids: seq<Pid>) returns (running: seq<Pid>)
      ensures running == OnlyRunning(children, pids)
    {
      running := [];
      var i := |pids|;
      while i > 0
        invariant 0 <= i <= |pids| && running == OnlyRunning(children, pids[i..])
      {
        i := i - 1;
        assert pids[i..][1..] == pids[i + 1..];
        if IsRunning(pids[i]) { running := [pids[i]] + running; }
      }
    }

    /** Whatever enabled event the main queue or the operating system delivers next, the object stays safe. */
    method Deliver(e: Event)
      requires Inv(View()) && Enabled(View(), e)
      modifies this
      ensures View() == Step(old(View()), e) && Inv(View())
    {
      hide Inv;
      StepKeeps(View(), e);
      match e {
        case ChildExits(p, abnormal) =>
          children := children[p := children[p].(running := false, abnormal := abnormal)];
        case HandlerFires(p) =>
          if !children[p].handler.NoHandler? { notes := notes + {ExitNote(p, children[p].handler)}; }
          children := children[p := children[p].(fired := true)];
        case ExitNoted(note, longLived) => ExitNoted(note, longLived);
        case PollAnswered(t, ok) => PollAnswered(t, ok);
        case SwapAnswered(t, ok) => SwapPollAnswered(t, ok);
        case HealthTick(longLived) => HealthTick(longLived);
        case RestartTimerFires(spawn) => RestartTimerFires(spawn);
        case ManualRestart(spawn) => var _ := RestartBackend(spawn);
        case BeginSwap(newPort, spawn) => BeginUpdateSwap(newPort, spawn);
        case Quit => Shutdown();
      }
    }
  }
}
