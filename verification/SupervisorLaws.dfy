/**
 * What each event of the daemon supervisor does, said of `Step` in its results alone: what an exit, a tick, a
 * timer, a restart, a swap call or a poll's answer appends to the log and what it leaves as it was.
 */
module SupervisorLaws {
  import opened Common
  import opened SupervisorModel
  import opened SupervisorSafety

  // ---------------------------------------------------------------------------------------
  // The log tells exits as they were.
  // ---------------------------------------------------------------------------------------

  /** Child `p` is gone, by a signal or a nonzero status exactly if `abnormal`. */
  predicate ExitedAs(children: seq<Child>, p: Pid, abnormal: bool) {
    p < |children| && !children[p].running && children[p].abnormal == abnormal
  }

  ghost predicate ExitsAreTold(s: State) {
    forall p: Pid, a :: Exit(p, a) in s.log ==> ExitedAs(s.children, p, a)
  }

  /** Children are only added, and one that is gone stays as it went. */
  ghost predicate Aged(before: seq<Child>, after: seq<Child>) {
    forall p: Pid, a :: ExitedAs(before, p, a) ==> ExitedAs(after, p, a)
  }

  /** The step from `s` to `s'` adds no exit to the log but a true one. */
  ghost predicate Tells(s: State, s': State) {
    && Aged(s.children, s'.children)
    && forall p: Pid, a :: Exit(p, a) in s'.log ==> Exit(p, a) in s.log || ExitedAs(s'.children, p, a)
  }

  lemma TellsOn(s: State, s1: State, s2: State)
    requires Tells(s, s1) && Tells(s1, s2)
    ensures Tells(s, s2)
  {
    hide ExitedAs;
  }

  lemma RestartTells(s: State, spawn: Spawn)
    ensures Tells(s, RestartBackend(s, spawn))
  {
  }

  lemma ScheduleTells(s: State)
    ensures Tells(s, ScheduleAutoRestart(s))
  {
    hide Backoff;
  }

  lemma DidExitTells(s: State, p: Pid, longLived: bool)
    ensures Tells(s, BackendDidExit(s, p, longLived))
  {
    hide Backoff;
  }

  lemma TimerTells(s: State, spawn: Spawn)
    ensures Tells(s, RestartTimerFired(s, spawn))
  {
    hide RestartBackend, ScheduleAutoRestart;
    var disarmed := s.(restartTimer := false);
    RestartTells(disarmed, spawn);
    ScheduleTells(Emit(RestartBackend(disarmed, spawn), RespawnFailed));
  }

  lemma ProbeTells(s: State, successor: Pid, newPort: int, attempts: nat, swap: nat)
    ensures Tells(s, PollSwapReadiness(s, successor, newPort, attempts, swap))
  {
  }

  lemma PromoteTells(s: State, successor: Pid, newPort: int, swap: nat)
    ensures Tells(s, PromoteSuccessor(s, successor, newPort, swap))
  {
    hide Tells, DrainPredecessor, TakeCommand;
    SameTells(s, s);
    if s.swapInFlight {
      var idle := s.(swapInFlight := false);
      var drained := DrainPredecessor(idle);
      var taken := TakeCommand(drained, successor, newPort);
      DrainTells(idle);
      TakeTells(drained, successor, newPort);
      TellsOn(idle, drained, taken);
      AnswerTells(taken, newPort, swap);
      TellsOn(idle, taken, PromoteSuccessor(s, successor, newPort, swap));
      TellsFrom(s, idle, PromoteSuccessor(s, successor, newPort, swap));
    }
  }

  lemma SameTells(s: State, s': State)
    requires s'.children == s.children && s'.log == s.log
    ensures Tells(s, s')
  {
  }

  lemma TellsFrom(s: State, s1: State, s2: State)
    requires s1.children == s.children && s1.log == s.log && Tells(s1, s2)
    ensures Tells(s, s2)
  {
    hide ExitedAs;
  }

  lemma DrainTells(s: State)
    ensures Tells(s, DrainPredecessor(s))
  {
  }

  lemma TakeTells(s: State, successor: Pid, newPort: int)
    ensures Tells(s, TakeCommand(s, successor, newPort))
  {
  }

  lemma AnswerTells(s: State, newPort: int, swap: nat)
    ensures Tells(s, Emit(Emit(Emit(s, Reset), Swapped(newPort)), Complete(swap, true)))
  {
    hide ExitedAs;
  }

  lemma {:induction false} TerminateEachTellsNoExit(s: State, pids: seq<Pid>)
    ensures Tells(s, TerminateEach(s, pids))
  {
    if pids != [] {
      hide Tells;
      TerminateEachTellsNoExit(s, pids[..|pids| - 1]);
      TerminateTells(TerminateEach(s, pids[..|pids| - 1]), pids[|pids| - 1]);
      TellsOn(s, TerminateEach(s, pids[..|pids| - 1]), TerminateEach(s, pids));
    } else {
      assert TerminateEach(s, pids) == s;
    }
  }

  lemma TerminateTells(s: State, p: Pid)
    ensures Tells(s, TerminateChild(s, p))
  {
  }

  lemma QuitTells(s: State)
    ensures Tells(s, Shutdown(s))
  {
    hide TerminateEach, QuitSweep;
    var quitting := Emit(s.(terminating := true, restartTimer := false, healthTimer := false), QuitBegan);
    TerminateEachTellsNoExit(quitting, QuitSweep(s));
  }

  lemma SwapAnswerTells(s: State, t: SwapTicket, ok: bool)
    ensures Tells(s, SwapDelivered(s, t, ok))
  {
    hide Tells, PollSwapReadiness, PromoteSuccessor;
    var taken := s.(swaps := s.swaps - {t});
    PromoteTells(taken, t.successor, t.port, t.swap);
    ProbeTells(taken, t.successor, t.port, t.attempts + 1, t.swap);
    TellsFrom(s, taken, SwapDelivered(s, t, ok));
  }

  lemma BeginSwapTells(s: State, newPort: int, spawn: Spawn)
    ensures Tells(s, BeginUpdateSwap(s, newPort, spawn))
  {
    hide PollSwapReadiness;
    if spawn.Started? {
      var spawned := s.(nextSwap := s.nextSwap + 1, children := s.children + [Spawned(spawn, NoHandler)],
                        swapInFlight := true);
      ProbeTells(spawned, |s.children|, newPort, 0, s.nextSwap);
      TellsOn(s, spawned, PollSwapReadiness(spawned, |s.children|, newPort, 0, s.nextSwap));
    }
  }

  lemma NoteTells(s: State, note: ExitNote, longLived: bool)
    ensures Tells(s, NoteDelivered(s, note, longLived))
  {
    hide BackendDidExit, Tells;
    var taken := s.(notes := s.notes - {note});
    DidExitTells(taken, note.pid, longLived);
    SameTells(s, taken.(draining := Without(s.draining, note.pid)));
    SameTells(s, taken);
    if note.handler.ExitPolicy? { TellsFrom(s, taken, BackendDidExit(taken, note.pid, longLived)); }
  }

  lemma TickTells(s: State, longLived: bool)
    ensures Tells(s, HealthTicked(s, longLived))
  {
    hide BackendDidExit, Tells;
    SameTells(s, s);
    if s.backend.Some? {
      var off := s.(healthTimer := false);
      DidExitTells(off, s.backend.value, longLived);
      TellsFrom(s, off, BackendDidExit(off, s.backend.value, longLived));
    }
  }

  lemma EnvironmentTells(s: State, e: Event)
    requires Enabled(s, e) && (e.ChildExits? || e.HandlerFires?)
    ensures Tells(s, Step(s, e))
  {
  }

  lemma PollTells(s: State, t: PollTicket, ok: bool)
    ensures Tells(s, PollDelivered(s, t, ok))
  {
    hide ExitedAs;
  }

  lemma StepTells(s: State, e: Event)
    requires Enabled(s, e)
    ensures Tells(s, Step(s, e))
  {
    hide Tells, NoteDelivered, HealthTicked, RestartTimerFired, RestartBackend, SwapDelivered, BeginUpdateSwap,
        PollDelivered, Shutdown, Enabled;
    match e
    case ExitNoted(note, longLived) => NoteTells(s, note, longLived);
    case HealthTick(longLived) => TickTells(s, longLived);
    case RestartTimerFires(spawn) => TimerTells(s, spawn);
    case ManualRestart(spawn) => RestartTells(s, spawn);
    case SwapAnswered(t, ok) => SwapAnswerTells(s, t, ok);
    case BeginSwap(newPort, spawn) => BeginSwapTells(s, newPort, spawn);
    case PollAnswered(t, ok) => PollTells(s, t, ok);
    case Quit => QuitTells(s);
    case _ => EnvironmentTells(s, e);
  }

  /** On every run, each exit on the log is of a child that is gone, clean or abnormal as the child really went. */
  lemma {:induction false} ExitsAreToldAsTheyWere(run: seq<State>, events: seq<Event>, n: nat)
    requires IsRun(run, events) && n < |run|
    ensures ExitsAreTold(run[n])
  {
    hide Step, Enabled;
    if n == 0 {
      var port, spawn :| run[0] == Launch(port, spawn);
      assert Launch(port, spawn).log == [Starting];
    } else {
      ExitsAreToldAsTheyWere(run[..n], events[..n - 1], n - 1);
      assert run[n] == Step(run[n - 1], events[n - 1]) by { assert Enabled(run[n - 1], events[n - 1]); }
      StepTells(run[n - 1], events[n - 1]);
    }
  }

  // ---------------------------------------------------------------------------------------
  // The exit policy.
  // ---------------------------------------------------------------------------------------

  /** Seconds before the k-th restart in a row. */
  lemma Countdowns(k: nat)
    ensures Backoff(1) == 2 && Backoff(2) == 4 && Backoff(3) == 8 && Backoff(4) == 16 && Backoff(5) == 32
    ensures k >= 6 ==> Backoff(k) == 60
  {
    assert Pow2(5) == 32;
    if k >= 6 { PowersGrow(k); }
  }

  lemma {:induction false} PowersGrow(k: nat)
    requires k >= 6
    ensures Pow2(k) >= 64
  {
    if k > 6 { PowersGrow(k - 1); } else { assert Pow2(5) == 32; }
  }

  /**
   * The backend's exit is acted on. After a clean one the daemon stays down: the stop is announced, and neither the
   * counter nor a countdown moves. After an abnormal one a countdown is announced and its timer armed, counted from
   * zero exactly if the backend had run for ten minutes. Either way readiness polls go stale.
   */
  predicate ActsOnExit(s: State, s': State, p: Pid, longLived: bool)
    requires p < |s.children|
  {
    && s'.backend.None? && !s'.healthTimer && s'.pollGeneration == s.pollGeneration + 1
    && (if s.children[p].abnormal then
          && s'.restartAttempts == (if longLived then 1 else s.restartAttempts + 1) && s'.restartTimer
          && s'.log == s.log + (if longLived then [Reset] else [])
                     + [Exit(p, true), Crashed(Backoff(s'.restartAttempts))]
        else
          && s'.restartAttempts == s.restartAttempts && s'.restartTimer == s.restartTimer
          && s'.log == s.log + [Exit(p, false), StoppedCleanly])
    && s == s'.(backend := s.backend, healthTimer := s.healthTimer, pollGeneration := s.pollGeneration,
                restartAttempts := s.restartAttempts, restartTimer := s.restartTimer, log := s.log)
  }

  lemma BackendExitActs(s: State, p: Pid, longLived: bool)
    requires !s.terminating && s.backend == Some(p) && p < |s.children| && !s.children[p].running
    ensures ActsOnExit(s, BackendDidExit(s, p, longLived), p, longLived)
  {
    hide Backoff;
  }

  lemma NoExitToActOn(s: State, p: Pid, longLived: bool)
    requires s.terminating || s.backend != Some(p)
    ensures BackendDidExit(s, p, longLived) == s
  {
  }

  /** A termination handler's note is acted on for the backend it names, unless quit has begun; else it is dropped. */
  lemma ExitNoteIsActedOn(s: State, p: Pid, longLived: bool)
    requires Inv(s) && ExitNote(p, ExitPolicy) in s.notes
    ensures var taken, s' := s.(notes := s.notes - {ExitNote(p, ExitPolicy)}), Step(s,
        ExitNoted(ExitNote(p, ExitPolicy), longLived));
      if !s.terminating && s.backend == Some(p) then ActsOnExit(taken, s', p, longLived) else s' == taken
  {
    hide BackendDidExit, ActsOnExit, Custody, Polling, Swapping, Retired, Ledger;
    var taken := s.(notes := s.notes - {ExitNote(p, ExitPolicy)});
    if !s.terminating && s.backend == Some(p) {
      BackendExitActs(taken, p, longLived);
    } else {
      NoExitToActOn(taken, p, longLived);
    }
  }

  /** A health tick acts on a dead backend in the same way, and does nothing while the backend runs. */
  lemma HealthTickIsActedOn(s: State, longLived: bool)
    requires Inv(s) && s.healthTimer
    ensures var s' := Step(s, HealthTick(longLived));
      if s.backend.None? || Running(s, s.backend.value) then s' == s
      else if s.terminating then s' == s.(healthTimer := false)
      else s.backend.value < |s.children| && ActsOnExit(s, s', s.backend.value, longLived)
  {
    hide BackendDidExit, ActsOnExit, Posted, Polling, Swapping, Retired, Ledger;
    if s.backend.Some? && !Running(s, s.backend.value) {
      var p, off := s.backend.value, s.(healthTimer := false);
      if s.terminating {
        NoExitToActOn(off, p, longLived);
      } else {
        BackendExitActs(off, p, longLived);
        SameActs(s, off, Step(s, HealthTick(longLived)), p, longLived);
      }
    }
  }

  lemma SameActs(s: State, off: State, s': State, p: Pid, longLived: bool)
    requires off == s.(healthTimer := false) && p < |s.children| && ActsOnExit(off, s', p, longLived)
    ensures ActsOnExit(s, s', p, longLived)
  {
    hide Backoff;
  }

  /** The note of a drained predecessor takes it, and nothing else, off the draining list. */
  lemma DrainNoteForgetsItsChild(s: State, p: Pid, longLived: bool)
    requires Inv(s) && ExitNote(p, DrainLog) in s.notes
    ensures var s' := Step(s, ExitNoted(ExitNote(p, DrainLog), longLived));
      && s == s'.(notes := s.notes, draining := s.draining)
      && p !in s'.draining
      && (p !in s.draining ==> s'.draining == s.draining)
      && (forall i :: 0 <= i < |s.draining| && s.draining[i] == p ==>
            s'.draining == s.draining[..i] + s.draining[i + 1..])
  {
    hide Inv, Without;
    Apart(s);
    WithoutIts(s.draining, p);
  }

  lemma WithoutIts(pids: seq<Pid>, p: Pid)
    requires forall i, j :: 0 <= i < j < |pids| ==> pids[i] != pids[j]
    ensures p !in Without(pids, p) && (p !in pids ==> Without(pids, p) == pids)
    ensures forall i :: 0 <= i < |pids| && pids[i] == p ==> Without(pids, p) == pids[..i] + pids[i + 1..]
  {
    hide Without;
    WithoutContains(pids, p);
    WithoutOther(pids, p);
    forall i | 0 <= i < |pids| && pids[i] == p ensures Without(pids, p) == pids[..i] + pids[i + 1..] {
      WithoutOne(pids, p, i);
    }
  }

  lemma Apart(s: State)
    requires Inv(s)
    ensures forall i, j :: 0 <= i < j < |s.draining| ==> s.draining[i] != s.draining[j]
  {
    hide Polling, Swapping, Retired, Ledger;
  }

  lemma {:induction false} WithoutOther(pids: seq<Pid>, p: Pid)
    ensures p !in pids ==> Without(pids, p) == pids
  {
    if pids != [] {
      WithoutOther(pids[1..], p);
      assert pids == [pids[0]] + pids[1..];
    }
  }

  lemma {:induction false} WithoutOne(pids: seq<Pid>, p: Pid, i: nat)
    requires i < |pids| && pids[i] == p && forall j, k :: 0 <= j < k < |pids| ==> pids[j] != pids[k]
    ensures Without(pids, p) == pids[..i] + pids[i + 1..]
  {
    if i == 0 {
      WithoutOther(pids[1..], p);
    } else {
      WithoutOne(pids[1..], p, i - 1);
      assert pids[1..][..i - 1] == pids[1..i] && pids[1..][i..] == pids[i + 1..];
      assert pids[..i] == [pids[0]] + pids[1..i];
    }
  }

  // ---------------------------------------------------------------------------------------
  // Starting and restarting.
  // ---------------------------------------------------------------------------------------

  /** A child with the exit policy is the backend, and the only readiness request that counts is its first. */
  ghost predicate StartsBackend(s: State, s': State, spawn: Spawn, told: seq<Child>, said: seq<Entry>) {
    && spawn.Started?
    && s'.backend == Some(|s.children|)
    && s'.children == told + [Child(spawn.alive, spawn.abnormal, false, ExitPolicy, false)]
    && s'.pollGeneration == s.pollGeneration + 1 && s'.polls == s.polls + {PollTicket(0, s'.pollGeneration)}
    && !s'.restartTimer && !s'.healthTimer && s'.log == s.log + said + [Starting]
    && s == s'.(backend := s.backend, children := s.children, pollGeneration := s.pollGeneration, polls := s.polls,
                restartTimer := s.restartTimer, healthTimer := s.healthTimer, log := s.log)
  }

  /** The children once a running backend has been told to terminate, its handler taken off first. */
  function ToldBackend(s: State): seq<Child> {
    if s.backend.Some? && Running(s, s.backend.value)
    then s.children[s.backend.value := s.children[s.backend.value].(handler := NoHandler, told := true)]
    else s.children
  }

  function ToldEntry(s: State): seq<Entry> {
    if s.backend.Some? && Running(s, s.backend.value) then [Terminate(s.backend.value)] else []
  }

  lemma RestartIs(s: State, spawn: Spawn)
    ensures var s' := RestartBackend(s, spawn);
      && (spawn.Started? ==> StartsBackend(s, s', spawn, ToldBackend(s), ToldEntry(s)))
      && (spawn.NotStarted? ==> s' == BackendTold(s))
  {
  }

  function BackendTold(s: State): State {
    s.(children := ToldBackend(s), log := s.log + ToldEntry(s), restartTimer := false, healthTimer := false)
  }

  /**
   * A manual restart ends a running backend and cancels countdown and health timer; a spawned child takes command,
   * and if none can be spawned that is all.
   */
  lemma ManualRestartReplaces(s: State, spawn: Spawn)
    requires !s.terminating
    ensures var s' := Step(s, ManualRestart(spawn));
      && (spawn.Started? ==> StartsBackend(s, s', spawn, ToldBackend(s), ToldEntry(s)))
      && (spawn.NotStarted? ==> s' == BackendTold(s))
  {
    hide RestartBackend, StartsBackend, BackendTold;
    RestartIs(s, spawn);
  }

  /** The countdown's end restarts in the same way; a failed spawn arms the next countdown, with the counter one up. */
  lemma CountdownEnds(s: State, spawn: Spawn)
    requires s.restartTimer
    ensures var s', k := Step(s, RestartTimerFires(spawn)), s.restartAttempts + 1;
      && (s.terminating ==> s' == s.(restartTimer := false))
      && (!s.terminating && spawn.Started? ==> StartsBackend(s, s', spawn, ToldBackend(s), ToldEntry(s)))
      && (!s.terminating && spawn.NotStarted? ==>
            && s'.restartTimer && s'.restartAttempts == k && s'.pollGeneration == s.pollGeneration + 1
            && s'.log == s.log + ToldEntry(s) + [RespawnFailed, Crashed(Backoff(k))]
            && BackendTold(s) == s'.(restartTimer := false, restartAttempts := s.restartAttempts,
                                     pollGeneration := s.pollGeneration, log := s.log + ToldEntry(s)))
  {
    hide Backoff, RestartBackend;
    RestartIs(s.(restartTimer := false), spawn);
  }

  /** At launch the child, if there is one, takes command, and polling starts whether there is one or not. */
  lemma LaunchStarts(port: int, spawn: Spawn)
    ensures var s := Launch(port, spawn);
      && s.port == port && s.log == [Starting] && s.pollGeneration == 1 && s.polls == {PollTicket(0, 1)}
      && (spawn.Started? ==>
            s.backend == Some(0) && s.children == [Child(spawn.alive, spawn.abnormal, false, ExitPolicy, false)])
      && (spawn.NotStarted? ==> s.backend.None? && s.children == [])
      && s.draining == [] && !s.swapInFlight && s.restartAttempts == 0 && !s.healthTimer && !s.restartTimer
      && !s.terminating && s.swaps == {} && s.notes == {} && s.nextSwap == 0
  {
  }

  // ---------------------------------------------------------------------------------------
  // Readiness polls.
  // ---------------------------------------------------------------------------------------

  /**
   * An answer that belongs to an earlier start changes nothing; success announces readiness and starts the health
   * timer; failure polls again until the 31st, which announces that the daemon cannot be reached.
   */
  lemma PollAnswerIsActedOn(s: State, t: PollTicket, ok: bool)
    requires t in s.polls
    ensures var s', left := Step(s, PollAnswered(t, ok)), s.polls - {t};
      if t.generation != s.pollGeneration then s' == s.(polls := left)
      else if ok then s' == s.(polls := left, healthTimer := true, log := s.log + [Ready])
      else if t.attempts < 30 then s' == s.(polls := left + {PollTicket(t.attempts + 1, t.generation)})
      else s' == s.(polls := left, log := s.log + [Unreachable])
  {
  }

  // ---------------------------------------------------------------------------------------
  // Update swaps.
  // ---------------------------------------------------------------------------------------

  /**
   * A swap is refused at once, with no child spawned or nothing left of it, unless none is in flight, the backend is
   * running and a child can be spawned that is alive; then the child, watched by no handler, is probed on the new port.
   */
  lemma SwapBegins(s: State, newPort: int, spawn: Spawn)
    requires !s.terminating
    ensures var s', n := Step(s, BeginSwap(newPort, spawn)), s.nextSwap;
      var refused := s.(nextSwap := n + 1, log := s.log + [Complete(n, false)]);
      if s.swapInFlight || s.backend.None? || !Running(s, s.backend.value) || spawn.NotStarted? then s' == refused
      else
        var children := s.children + [Child(spawn.alive, spawn.abnormal, false, NoHandler, false)];
        s' == if !spawn.alive then refused.(children := children)
          else s.(nextSwap := n + 1, children := children, swapInFlight := true, log := s.log + [Probe(n)],
                  swaps := s.swaps + {SwapTicket(|s.children|, newPort, 0, n)})
  {
    if spawn.Started? {
      var children := s.children + [Spawned(spawn, NoHandler)];
      assert children[|s.children| := children[|s.children|].(handler := NoHandler)] == children;
    }
  }

  /**
   * A probe answered without success is repeated while the successor runs, up to 31 in all; then the successor, if
   * it runs, is told to terminate, the swap is over and its call is answered with failure.
   */
  lemma FailedProbeIsActedOn(s: State, t: SwapTicket)
    requires Inv(s) && t in s.swaps
    ensures var s', c := Step(s, SwapAnswered(t, false)), s.children[t.successor];
      if Running(s, t.successor) && t.attempts < 30 then
        s' == s.(swaps := {SwapTicket(t.successor, t.port, t.attempts + 1, t.swap)}, log := s.log + [Probe(t.swap)])
      else if Running(s, t.successor) then
        s' == s.(swaps := {}, swapInFlight := false, children := s.children[t.successor := c.(told := true)],
                 log := s.log + [Terminate(t.successor), Complete(t.swap, false)])
      else s' == s.(swaps := {}, swapInFlight := false, log := s.log + [Complete(t.swap, false)])
  {
    hide Polling, Retired, Ledger, Posted, Probes, Completed;
    assert s.swaps == {t};
    var c := s.children[t.successor];
    assert s.children[t.successor := c.(handler := NoHandler)] == s.children;
  }

  /**
   * A ready successor becomes the backend on its own port under the exit policy, with a fresh counter; the
   * predecessor, if there is one, drains, from now on only logged when it exits.
   */
  lemma ReadySuccessorTakesOver(s: State, t: SwapTicket)
    requires Inv(s) && t in s.swaps
    ensures var s', heir := Step(s, SwapAnswered(t, true)), s.children[t.successor].(handler := ExitPolicy);
      && (s.backend.Some? ==>
            var elder := s.backend.value;
            && elder < |s.children| && elder != t.successor
            && s'.children == s.children[elder := s.children[elder].(handler := DrainLog)][t.successor := heir]
            && s'.draining == s.draining + [elder]
            && s'.log == s.log + [Drain(elder), Reset, Swapped(t.port), Complete(t.swap, true)])
      && (s.backend.None? ==>
            && s'.children == s.children[t.successor := heir] && s'.draining == s.draining
            && s'.log == s.log + [Reset, Swapped(t.port), Complete(t.swap, true)])
      && s'.backend == Some(t.successor) && s'.port == t.port && s'.restartAttempts == 0 && s'.healthTimer
      && !s'.swapInFlight && s'.swaps == {}
      && s == s'.(backend := s.backend, port := s.port, restartAttempts := s.restartAttempts, log := s.log,
                  healthTimer := s.healthTimer, swapInFlight := s.swapInFlight, swaps := s.swaps,
                  children := s.children, draining := s.draining)
  {
    hide Inv, SwapDelivered, Probes, Completed;
    OnlyCallOpen(s, t);
    PlacesOf(s, t);
    Promotion(s, t);
  }

  lemma Promotion(s: State, t: SwapTicket)
    requires s.swapInFlight && s.swaps == {t} && t.successor < |s.children|
    requires s.backend.Some? ==> s.backend.value < |s.children| && s.backend.value != t.successor
    ensures var s', heir := SwapDelivered(s, t, true), s.children[t.successor].(handler := ExitPolicy);
      && (s.backend.Some? ==>
            var elder := s.backend.value;
            && s'.children == s.children[elder := s.children[elder].(handler := DrainLog)][t.successor := heir]
            && s'.draining == s.draining + [elder]
            && s'.log == s.log + [Drain(elder), Reset, Swapped(t.port), Complete(t.swap, true)])
      && (s.backend.None? ==>
            && s'.children == s.children[t.successor := heir] && s'.draining == s.draining
            && s'.log == s.log + [Reset, Swapped(t.port), Complete(t.swap, true)])
      && s' == s.(backend := Some(t.successor), port := t.port, restartAttempts := 0, healthTimer := true,
                  swapInFlight := false, swaps := {}, log := s'.log, children := s'.children, draining := s'.draining)
  {
  }

  lemma PlacesOf(s: State, t: SwapTicket)
    requires Inv(s) && t in s.swaps
    ensures t.successor < |s.children|
    ensures s.backend.Some? ==> s.backend.value < |s.children| && s.backend.value != t.successor
  {
    hide Polling, Retired, Ledger, Posted, Swapping;
  }

  // ---------------------------------------------------------------------------------------
  // Children.
  // ---------------------------------------------------------------------------------------

  /** An exit changes that child alone; its handler runs once and leaves a note of what it is set to do. */
  lemma ExitsAreNoted(s: State, e: Event)
    requires Enabled(s, e) && (e.ChildExits? || e.HandlerFires?)
    ensures var c := s.children[e.pid];
      && (e.ChildExits? ==>
            Step(s, e) == s.(children := s.children[e.pid := c.(running := false, abnormal := e.abnormal)]))
      && (e.HandlerFires? ==>
            && !c.fired && Step(s, e).children == s.children[e.pid := c.(fired := true)]
            && s == Step(s, e).(children := s.children, notes := s.notes)
            && forall n :: n in Step(s, e).notes <==>
                 n in s.notes || (n == ExitNote(e.pid, c.handler) && n.handler != NoHandler))
  {
  }

  // ---------------------------------------------------------------------------------------
  // Quit.
  // ---------------------------------------------------------------------------------------

  /** Quit tells the backend and the draining predecessors that run, waits until they are gone, and does no more. */
  lemma QuitEndsItsChildren(s: State)
    requires Inv(s) && !s.terminating
    ensures var s' := Step(s, Quit);
      && |s'.children| == |s.children|
      && (forall p: Pid :: p < |s.children| ==>
            s'.children[p] ==
              if Running(s, p) && (s.backend == Some(p) || p in s.draining)
              then s.children[p].(handler := NoHandler, told := true, running := false) else s.children[p])
      && s == s'.(children := s.children, log := s.log, terminating := false, restartTimer := s.restartTimer,
                  healthTimer := s.healthTimer)
      && s'.terminating && !s'.restartTimer && !s'.healthTimer
  {
    hide Inv, QuitSweep, TerminateEach;
    QuitSweepIs(s);
    var quitting := Emit(s.(terminating := true, restartTimer := false, healthTimer := false), QuitBegan);
    assert forall i :: 0 <= i < |QuitSweep(s)| ==> QuitSweep(s)[i] in QuitSweep(s);
    TerminateEachTells(quitting, QuitSweep(s));
  }

  // ---------------------------------------------------------------------------------------
  // The port.
  // ---------------------------------------------------------------------------------------

  /** It changes by a ready successor's answer, to the successor's port, and by nothing else. */
  lemma PortFollowsTheBackend(s: State, e: Event)
    requires Enabled(s, e) && Inv(s)
    ensures Step(s, e).port == if e.SwapAnswered? && e.ok then e.ticket.port else s.port
  {
    hide Step, Inv, ActsOnExit, Handover;
    match e
    case ExitNoted(note, longLived) =>
      match note.handler {
        case ExitPolicy => NoteKeepsPort(s, note.pid, longLived);
        case DrainLog => DrainNoteForgetsItsChild(s, note.pid, longLived);
        case NoHandler => EnvironmentKeepsPort(s, e);
      }
    case HealthTick(longLived) => TickKeepsPort(s, longLived);
    case RestartTimerFires(spawn) => CountdownEnds(s, spawn);
    case ManualRestart(spawn) => ManualRestartReplaces(s, spawn);
    case PollAnswered(t, ok) => PollAnswerIsActedOn(s, t, ok);
    case BeginSwap(newPort, spawn) => SwapBegins(s, newPort, spawn);
    case SwapAnswered(t, ok) =>
      if ok {
        PromotionHandsOver(s, t);
        SwapStep(s, t);
      } else {
        FailedProbeIsActedOn(s, t);
      }
    case Quit => QuitEndsItsChildren(s);
    case _ => EnvironmentKeepsPort(s, e);
  }

  lemma SwapStep(s: State, t: SwapTicket)
    requires t in s.swaps
    ensures Step(s, SwapAnswered(t, true)) == SwapDelivered(s, t, true)
  {
    hide SwapDelivered;
  }

  lemma NoteKeepsPort(s: State, p: Pid, longLived: bool)
    requires Inv(s) && ExitNote(p, ExitPolicy) in s.notes
    ensures Step(s, ExitNoted(ExitNote(p, ExitPolicy), longLived)).port == s.port
  {
    hide Step, Custody, Polling, Swapping, Retired, Ledger, Backoff;
    ExitNoteIsActedOn(s, p, longLived);
  }

  lemma TickKeepsPort(s: State, longLived: bool)
    requires Inv(s) && s.healthTimer
    ensures Step(s, HealthTick(longLived)).port == s.port
  {
    hide Step, Inv, Backoff;
    HealthTickIsActedOn(s, longLived);
  }

  lemma EnvironmentKeepsPort(s: State, e: Event)
    requires Enabled(s, e) && (e.ChildExits? || e.HandlerFires? || (e.ExitNoted? && e.note.handler.NoHandler?))
    ensures Step(s, e).port == s.port
  {
  }
}
