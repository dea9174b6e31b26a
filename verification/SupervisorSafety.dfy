/**
 * Safety of the daemon supervisor over every interleaving of its events.
 *
 * `Lawful` judges each log entry against the entries before it; `Inv` is the invariant that
 * makes every transition lawful; the theorems at the end read the log by index.
 */
module SupervisorSafety {
  import opened Common
  import opened SupervisorModel

  // ---------------------------------------------------------------------------------------
  // Reading the log.
  // ---------------------------------------------------------------------------------------

  predicate IsAnnouncement(e: Entry) {
    e.Starting? || e.Ready? || e.Unreachable? || e.StoppedCleanly? || e.Crashed?
  }

  function LastAnnouncement(log: seq<Entry>): Option<Entry> {
    if log == [] then None
    else if IsAnnouncement(log[|log| - 1]) then Some(log[|log| - 1])
    else LastAnnouncement(log[..|log| - 1])
  }

  /** Abnormal exits acted on plus failed timer respawns since the counter was last zeroed. */
  function Attempts(log: seq<Entry>): nat {
    if log == [] || log[|log| - 1].Reset? then 0
    else
      var before := Attempts(log[..|log| - 1]);
      match log[|log| - 1]
      case Exit(_, abnormal) => if abnormal then before + 1 else before
      case RespawnFailed => before + 1
      case _ => before
  }

  function Probes(log: seq<Entry>, swap: nat): nat {
    if log == [] then 0
    else Probes(log[..|log| - 1], swap) + if log[|log| - 1] == Probe(swap) then 1 else 0
  }

  predicate Completed(log: seq<Entry>, swap: nat) {
    Complete(swap, true) in log || Complete(swap, false) in log
  }

  predicate Acted(log: seq<Entry>, p: Pid) {
    Exit(p, true) in log || Exit(p, false) in log
  }

  /** What the supervisor may do next, given everything it has done. */
  predicate Allowed(past: seq<Entry>, e: Entry) {
    match e
    case Ready => LastAnnouncement(past) == Some(Starting)
    case Unreachable => LastAnnouncement(past) == Some(Starting)
    case Crashed(delay) => Attempts(past) > 0 && delay == Backoff(Attempts(past))
    case Exit(p, _) => !Acted(past, p)
    case Probe(w) => !Completed(past, w) && Probes(past, w) <= MAX_RETRIES
    case Complete(w, _) => !Completed(past, w)
    case Drain(p) => Drain(p) !in past
    case Terminate(p) => Drain(p) in past ==> QuitBegan in past
    case _ => true
  }

  ghost predicate Lawful(log: seq<Entry>) {
    log == [] || (Lawful(log[..|log| - 1]) && Allowed(log[..|log| - 1], log[|log| - 1]))
  }

  lemma Append(log: seq<Entry>, e: Entry)
    ensures Lawful(log) && Allowed(log, e) ==> Lawful(log + [e])
    ensures LastAnnouncement(log + [e]) == if IsAnnouncement(e) then Some(e) else LastAnnouncement(log)
    ensures Attempts(log + [e]) ==
      if e.Reset? then 0 else Attempts(log) + if e.RespawnFailed? || (e.Exit? && e.abnormal) then 1 else 0
    ensures forall x :: x in log + [e] <==> x in log || x == e
    ensures forall w :: Completed(log + [e], w) <==> Completed(log, w) || (e.Complete? && e.swap == w)
    ensures forall p :: Acted(log + [e], p) <==> Acted(log, p) || (e.Exit? && e.pid == p)
    ensures forall w: nat :: Probes(log + [e], w) == Probes(log, w) + if e == Probe(w) then 1 else 0
  {
    assert (log + [e])[..|log|] == log;
  }

  // ---------------------------------------------------------------------------------------
  // The invariant, each part over the fields it constrains.
  // ---------------------------------------------------------------------------------------

  /** A child that is running and has not been told to terminate. */
  predicate LiveIn(children: seq<Child>, p: Pid) {
    p < |children| && children[p].running && !children[p].told
  }

  predicate Live(s: State, p: Pid) { LiveIn(s.children, p) }

  ghost predicate Pending(swaps: set<SwapTicket>, p: Pid) { exists t :: t in swaps && t.successor == p }

  ghost predicate IsSuccessor(s: State, p: Pid) { Pending(s.swaps, p) }

  /** The three slots are disjoint, and every live child sits in one of them. */
  ghost predicate Custody(backend: Option<Pid>, draining: seq<Pid>, children: seq<Child>, swaps: set<SwapTicket>) {
    && (backend.Some? ==> backend.value < |children| && backend.value !in draining && !Pending(swaps, backend.value))
    && (forall i, j :: 0 <= i < j < |draining| ==> draining[i] != draining[j])
    && (forall p :: p in draining ==> p < |children| && !Pending(swaps, p))
    && (forall t :: t in swaps ==> t.successor < |children|
                                   && !children[t.successor].told && children[t.successor].handler.NoHandler?)
    && (forall p: Pid :: LiveIn(children, p) ==> backend == Some(p) || p in draining || Pending(swaps, p))
  }

  /** At most one readiness chain carries the current generation: exactly while `Starting` is unanswered. */
  ghost predicate Polling(polls: set<PollTicket>, generation: nat, last: Option<Entry>) {
    && (forall t :: t in polls ==> t.generation <= generation && t.attempts <= MAX_RETRIES)
    && (forall t, u :: t in polls && u in polls && t.generation == u.generation ==> t == u)
    && (last == Some(Starting) <==> exists t :: t in polls && t.generation == generation)
  }

  /** At most one swap is pending, exactly while `swapInFlight` is set; every other call was answered. */
  ghost predicate Swapping(inFlight: bool, swaps: set<SwapTicket>, nextSwap: nat, log: seq<Entry>) {
    && (inFlight <==> swaps != {})
    && (forall t, u :: t in swaps && u in swaps ==> t == u)
    && (forall t :: t in swaps ==> t.swap < nextSwap && !Completed(log, t.swap)
                                   && t.attempts <= MAX_RETRIES && Probes(log, t.swap) == t.attempts + 1)
    && (forall w: nat :: Completed(log, w) ==> w < nextSwap)
    && (forall w: nat :: w < nextSwap && !Completed(log, w) ==> exists t :: t in swaps && t.swap == w)
    && (forall w: nat :: w >= nextSwap ==> Probes(log, w) == 0)
  }

  /** A child whose exit was acted on, or that was sent to drain, never holds a slot of command again. */
  ghost predicate Retired(backend: Option<Pid>, draining: seq<Pid>, swaps: set<SwapTicket>, count: nat,
      log: seq<Entry>) {
    && (forall p: Pid :: Acted(log, p) || Drain(p) in log ==> p < count && backend != Some(p) && !Pending(swaps, p))
    && (forall p :: p in draining ==> Drain(p) in log)
  }

  ghost predicate Ledger(restartAttempts: nat, terminating: bool, log: seq<Entry>) {
    && Lawful(log)
    && restartAttempts == Attempts(log)
    && (terminating <==> QuitBegan in log)
  }

  /** A termination handler only runs for a child that is gone. */
  ghost predicate Posted(notes: set<ExitNote>, children: seq<Child>) {
    && (forall n :: n in notes ==> n.pid < |children| && !children[n.pid].running)
    && (forall p: Pid :: p < |children| && children[p].fired ==> !children[p].running)
  }

  ghost predicate Inv(s: State) {
    && Posted(s.notes, s.children)
    && Custody(s.backend, s.draining, s.children, s.swaps)
    && Polling(s.polls, s.pollGeneration, LastAnnouncement(s.log))
    && Swapping(s.swapInFlight, s.swaps, s.nextSwap, s.log)
    && Retired(s.backend, s.draining, s.swaps, |s.children|, s.log)
    && Ledger(s.restartAttempts, s.terminating, s.log)
  }

  // ---------------------------------------------------------------------------------------
  // What an appended entry changes.
  // ---------------------------------------------------------------------------------------

  lemma SwappingQuiet(s: State, e: Entry)
    requires Swapping(s.swapInFlight, s.swaps, s.nextSwap, s.log) && !e.Probe? && !e.Complete?
    ensures Swapping(s.swapInFlight, s.swaps, s.nextSwap, s.log + [e])
  {
    hide Lawful, LastAnnouncement, Attempts, Probes, Completed, Acted, Allowed;
    Append(s.log, e);
  }

  lemma RetiredQuiet(s: State, e: Entry)
    requires Retired(s.backend, s.draining, s.swaps, |s.children|, s.log) && !e.Exit? && !e.Drain?
    ensures Retired(s.backend, s.draining, s.swaps, |s.children|, s.log + [e])
  {
    hide Lawful, LastAnnouncement, Attempts, Probes, Completed, Acted, Allowed;
    Append(s.log, e);
  }

  /** An entry that no part of the invariant but lawfulness looks at. */
  lemma EmitKeeps(s: State, e: Entry)
    requires Inv(s) && Allowed(s.log, e)
    requires !e.Probe? && !e.Complete? && !e.Exit? && !e.Drain? && !e.QuitBegan? && !e.Reset? && !e.RespawnFailed?
    requires !IsAnnouncement(e)
    ensures Inv(Emit(s, e))
  {
    hide Custody, Polling, Swapping, Retired, Lawful, LastAnnouncement, Attempts, Probes, Completed, Acted, Allowed;
    Append(s.log, e);
    SwappingQuiet(s, e);
    RetiredQuiet(s, e);
  }

  // ---------------------------------------------------------------------------------------
  // Each transition keeps the invariant.
  // ---------------------------------------------------------------------------------------

  lemma NewChain(polls: set<PollTicket>, generation: nat, last: Option<Entry>)
    requires Polling(polls, generation, last)
    ensures Polling(polls + {PollTicket(0, generation + 1)}, generation + 1, Some(Starting))
    ensures last != Some(Starting) ==> Polling(polls, generation + 1, last)
    ensures forall e: Entry :: e != Starting ==> Polling(polls, generation + 1, Some(e))
  {
    assert PollTicket(0, generation + 1) in polls + {PollTicket(0, generation + 1)};
  }

  lemma PollUntilReadyKeeps(s: State)
    requires Inv(s)
    ensures Inv(PollUntilReady(s))
  {
    hide Custody, Polling, Swapping, Retired, Lawful, LastAnnouncement, Attempts, Probes, Completed, Acted;
    Append(s.log, Starting);
    SwappingQuiet(s, Starting);
    RetiredQuiet(s, Starting);
    NewChain(s.polls, s.pollGeneration, LastAnnouncement(s.log));
  }

  lemma StartBackendKeeps(s: State, spawn: Spawn)
    requires Inv(s) && (s.backend.Some? ==> !Live(s, s.backend.value))
    ensures Inv(StartBackend(s, spawn))
  {
    hide Polling, Swapping, Lawful, LastAnnouncement, Attempts, Probes, Completed, Acted;
  }

  lemma TerminateChildKeeps(s: State, p: Pid)
    requires Inv(s) && !IsSuccessor(s, p) && (Drain(p) in s.log ==> s.terminating)
    ensures Inv(TerminateChild(s, p))
  {
    hide Polling, Swapping, Retired, Lawful, LastAnnouncement, Attempts, Probes, Completed, Acted;
    if p < |s.children| {
      var told := s.(children := s.children[p := s.children[p].(handler := NoHandler, told := true)]);
      assert Inv(told);
      EmitKeeps(told, Terminate(p));
    }
  }

  lemma RestartBackendKeeps(s: State, spawn: Spawn)
    requires Inv(s)
    ensures Inv(RestartBackend(s, spawn))
  {
    hide Custody, Polling, Swapping, Lawful, LastAnnouncement, Attempts, Probes, Completed, Acted;
    var idle := s.(restartTimer := false, healthTimer := false);
    assert Inv(idle);
    var stopping := idle.backend.Some? && Running(idle, idle.backend.value);
    if stopping {
      assert !Pending(s.swaps, idle.backend.value) by { CustodyOfBackend(s); }
      TerminateChildKeeps(idle, idle.backend.value);
    }
    var stopped := if stopping then TerminateChild(idle, idle.backend.value) else idle;
    StartBackendKeeps(stopped, spawn);
    if spawn.Started? { PollUntilReadyKeeps(StartBackend(stopped, spawn)); }
  }

  lemma CustodyOfBackend(s: State)
    requires Inv(s) && s.backend.Some?
    ensures s.backend.value < |s.children| && !IsSuccessor(s, s.backend.value) && s.backend.value !in s.draining
    ensures Drain(s.backend.value) !in s.log && !Acted(s.log, s.backend.value)
  {
  }

  /** Acting on an exit: the child leaves every slot of command for good. */
  lemma RetiredByExit(s: State, p: Pid, abnormal: bool)
    requires Retired(s.backend, s.draining, s.swaps, |s.children|, s.log)
    requires p < |s.children| && s.backend != Some(p) && !IsSuccessor(s, p)
    ensures Retired(s.backend, s.draining, s.swaps, |s.children|, s.log + [Exit(p, abnormal)])
  {
    hide Lawful, LastAnnouncement, Attempts, Probes, Completed, Acted, Allowed, Pending;
    Append(s.log, Exit(p, abnormal));
  }

  /** An abnormal exit or a failed respawn, with the countdown it starts. */
  lemma CountdownKeeps(s: State, e: Entry)
    requires Inv(s) && !s.terminating
    requires e.RespawnFailed? || (e.Exit? && e.abnormal && e.pid < |s.children| && s.backend != Some(e.pid)
                                  && !IsSuccessor(s, e.pid) && !Acted(s.log, e.pid))
    ensures Inv(ScheduleAutoRestart(Emit(s, e)))
  {
    hide Custody, Polling, Swapping, Retired, Lawful, LastAnnouncement, Attempts, Probes, Completed, Acted, Backoff,
        Pending;
    Append(s.log, e);
    SwappingQuiet(s, e);
    if e.Exit? { RetiredByExit(s, e.pid, true); } else { RetiredQuiet(s, e); }
    var crash := Crashed(Backoff(s.restartAttempts + 1));
    var logged := Emit(s, e);
    Append(logged.log, crash);
    SwappingQuiet(logged, crash);
    RetiredQuiet(logged, crash);
    NewChain(s.polls, s.pollGeneration, LastAnnouncement(s.log));
  }

  lemma StopKeeps(s: State, p: Pid)
    requires Inv(s) && p < |s.children| && s.backend != Some(p) && !IsSuccessor(s, p) && !Acted(s.log, p)
    ensures Inv(Emit(Emit(s.(pollGeneration := s.pollGeneration + 1), Exit(p, false)), StoppedCleanly))
  {
    hide Custody, Polling, Swapping, Retired, Lawful, LastAnnouncement, Attempts, Probes, Completed, Acted, Pending;
    var e := Exit(p, false);
    Append(s.log, e);
    SwappingQuiet(s, e);
    RetiredByExit(s, p, false);
    var logged := Emit(s, e);
    Append(logged.log, StoppedCleanly);
    SwappingQuiet(logged, StoppedCleanly);
    RetiredQuiet(logged, StoppedCleanly);
    NewChain(s.polls, s.pollGeneration, LastAnnouncement(s.log));
    assert (s.log + [e]) + [StoppedCleanly] == Emit(Emit(s.(pollGeneration := s.pollGeneration + 1), e),
        StoppedCleanly).log;
  }

  lemma ResetKeeps(s: State)
    requires Inv(s)
    ensures Inv(Emit(s.(restartAttempts := 0), Reset))
    ensures forall p: Pid :: Acted(s.log + [Reset], p) <==> Acted(s.log, p)
  {
    hide Custody, Polling, Swapping, Retired, Lawful, LastAnnouncement, Attempts, Probes, Completed, Acted, Pending;
    Append(s.log, Reset);
    SwappingQuiet(s, Reset);
    RetiredQuiet(s, Reset);
  }

  lemma BackendDidExitKeeps(s: State, p: Pid, longLived: bool)
    requires Inv(s)
    ensures Inv(BackendDidExit(s, p, longLived))
  {
    hide Custody, Polling, Swapping, Retired, Lawful, LastAnnouncement, Attempts, Probes, Completed, Acted, Pending;
    if !s.terminating && s.backend == Some(p) && p < |s.children| && !s.children[p].running {
      CustodyOfBackend(s);
      var consumed := s.(backend := None, healthTimer := false);
      assert Inv(consumed) by { ConsumedKeeps(s, p); }
      if !s.children[p].abnormal {
        StopKeeps(consumed, p);
      } else {
        if longLived { ResetKeeps(consumed); }
        CountdownKeeps(if longLived then Emit(consumed.(restartAttempts := 0), Reset) else consumed, Exit(p, true));
      }
    }
  }

  lemma ConsumedKeeps(s: State, p: Pid)
    requires Inv(s) && s.backend == Some(p) && p < |s.children| && !s.children[p].running
    ensures Inv(s.(backend := None, healthTimer := false))
  {
    hide Polling, Swapping, Lawful, LastAnnouncement, Attempts, Probes, Completed, Acted, Pending;
  }

  lemma RestartTimerFiredKeeps(s: State, spawn: Spawn)
    requires Inv(s)
    ensures Inv(RestartTimerFired(s, spawn))
  {
    hide Custody, Polling, Swapping, Retired, Lawful, LastAnnouncement, Attempts, Probes, Completed, Acted, Pending;
    var disarmed := s.(restartTimer := false);
    assert Inv(disarmed);
    RestartBackendKeeps(disarmed, spawn);
    if !s.terminating && spawn.NotStarted? { CountdownKeeps(RestartBackend(disarmed, spawn), RespawnFailed); }
  }

  lemma PollKeeps(s: State, t: PollTicket, ok: bool)
    requires Inv(s) && t in s.polls
    ensures Inv(PollDelivered(s, t, ok))
  {
    hide Custody, Polling, Swapping, Retired, Lawful, LastAnnouncement, Attempts, Probes, Completed, Acted, Pending;
    var e := if ok then Ready else Unreachable;
    Append(s.log, e);
    SwappingQuiet(s, e);
    RetiredQuiet(s, e);
    PollingKeeps(s, t, ok);
    StartingIsUnanswered(s, t);
  }

  lemma StartingIsUnanswered(s: State, t: PollTicket)
    requires Inv(s) && t in s.polls
    ensures t.generation == s.pollGeneration ==> LastAnnouncement(s.log) == Some(Starting)
  {
    hide Custody, Swapping, Retired, Ledger, LastAnnouncement;
  }

  lemma PollingKeeps(s: State, t: PollTicket, ok: bool)
    requires Inv(s) && t in s.polls
    ensures var s' := PollDelivered(s, t, ok); Polling(s'.polls, s'.pollGeneration, LastAnnouncement(s'.log))
  {
    hide Custody, Swapping, Retired, Ledger, LastAnnouncement;
    Append(s.log, if ok then Ready else Unreachable);
    var s' := PollDelivered(s, t, ok);
    if t.generation == s.pollGeneration && !ok && t.attempts < MAX_RETRIES {
      assert PollTicket(t.attempts + 1, t.generation) in s'.polls;
    }
  }

  /** A swap in hand: its ticket was taken from the queue, and `t` is the probe to send next. */
  ghost predicate InHand(s: State, t: SwapTicket) {
    && OneCallOpen(s, t)
    && Custody(s.backend, s.draining, s.children, {t})
    && Retired(s.backend, s.draining, {t}, |s.children|, s.log)
  }

  /** The call of `t` is the only one still unanswered, and it has been probed `t.attempts` times. */
  ghost predicate OneCallOpen(s: State, t: SwapTicket) {
    && s.swapInFlight && s.swaps == {}
    && Posted(s.notes, s.children)
    && Polling(s.polls, s.pollGeneration, LastAnnouncement(s.log))
    && Ledger(s.restartAttempts, s.terminating, s.log)
    && t.swap < s.nextSwap && !Completed(s.log, t.swap)
    && t.attempts <= MAX_RETRIES + 1 && Probes(s.log, t.swap) == t.attempts
    && (forall w: nat :: Completed(s.log, w) ==> w < s.nextSwap)
    && (forall w: nat :: w < s.nextSwap && !Completed(s.log, w) ==> w == t.swap)
    && (forall w: nat :: w >= s.nextSwap ==> Probes(s.log, w) == 0)
  }

  lemma TakeTicket(s: State, t: SwapTicket)
    requires Inv(s) && t in s.swaps
    ensures InHand(s.(swaps := s.swaps - {t}), t.(attempts := t.attempts + 1))
  {
    hide Polling, Lawful, LastAnnouncement, Attempts, Probes, Completed, Acted;
    var next := t.(attempts := t.attempts + 1);
    assert s.swaps == {t};
    assert forall p: Pid :: Pending({t}, p) <==> p == t.successor
        by { assert forall p: Pid :: Pending({t}, p) ==> p == t.successor; assert t in {t}; }
    assert forall p: Pid :: Pending({next}, p) <==> p == t.successor by { assert next in {next}; }
  }

  /** Answering the open call once its successor needs no custody any more. */
  lemma CompleteKeeps(s: State, t: SwapTicket, ok: bool)
    requires OneCallOpen(s, t)
    requires Custody(s.backend, s.draining, s.children, {}) && Retired(s.backend, s.draining, {}, |s.children|, s.log)
    ensures Inv(Emit(s.(swapInFlight := false), Complete(t.swap, ok)))
  {
    hide Custody, Polling, Lawful, LastAnnouncement, Attempts, Probes, Completed, Acted, Retired;
    var e := Complete(t.swap, ok);
    Append(s.log, e);
    RetiredQuiet(s, e);
  }

  lemma OnlySuccessorPending(t: SwapTicket)
    ensures forall p: Pid :: Pending({t}, p) <==> p == t.successor
  {
    assert t in {t};
  }

  /** A successor told to terminate, or dead, needs no custody. */
  lemma SuccessorDismissed(s: State, t: SwapTicket)
    requires InHand(s, t)
    ensures t.successor < |s.children|
    ensures forall c: Child :: !c.running || c.told ==> Custody(s.backend, s.draining, s.children[t.successor := c], {})
    ensures Retired(s.backend, s.draining, {}, |s.children|, s.log) && Drain(t.successor) !in s.log
  {
    hide Polling, Lawful, LastAnnouncement, Attempts, Probes, Completed, Acted;
    OnlySuccessorPending(t);
  }

  lemma FinishFailedSwapKeeps(s: State, t: SwapTicket)
    requires InHand(s, t)
    ensures Inv(FinishFailedSwap(s, t.successor, t.swap))
  {
    hide Custody, Polling, Retired, Lawful, LastAnnouncement, Attempts, Probes, Completed, Acted, Pending;
    SuccessorDismissed(s, t);
    var quiet := SetHandler(s, t.successor, NoHandler);
    var c := s.children[t.successor].(handler := NoHandler);
    if Running(s, t.successor) {
      var e := Terminate(t.successor);
      Append(s.log, e);
      RetiredQuiet(s, e);
      var dismissed := TerminateChild(quiet, t.successor);
      assert dismissed.children == s.children[t.successor := c.(told := true)];
      CompleteKeeps(dismissed, t, false);
    } else {
      assert quiet.children == s.children[t.successor := c];
      CompleteKeeps(quiet, t, false);
    }
  }

  lemma PollSwapReadinessKeeps(s: State, t: SwapTicket)
    requires InHand(s, t)
    ensures Inv(PollSwapReadiness(s, t.successor, t.port, t.attempts, t.swap))
  {
    hide Custody, Polling, Lawful, LastAnnouncement, Attempts, Probes, Completed, Acted, Retired;
    if !Running(s, t.successor) || t.attempts > MAX_RETRIES {
      FinishFailedSwapKeeps(s, t);
    } else {
      var e := Probe(t.swap);
      Append(s.log, e);
      var sent := s.(swaps := {t});
      RetiredQuiet(sent, e);
      assert s.swaps + {SwapTicket(t.successor, t.port, t.attempts, t.swap)} == {t};
      assert t in {t};
    }
  }

  lemma SpawnSuccessorKeeps(s: State, newPort: int, spawn: Spawn)
    requires Inv(s) && !s.swapInFlight && spawn.Started?
    ensures InHand(s.(nextSwap := s.nextSwap + 1, children := s.children + [Spawned(spawn, NoHandler)],
        swapInFlight := true),
                   SwapTicket(|s.children|, newPort, 0, s.nextSwap))
  {
    hide Polling, Lawful, LastAnnouncement, Attempts, Probes, Completed, Acted;
    OnlySuccessorPending(SwapTicket(|s.children|, newPort, 0, s.nextSwap));
    assert s.swaps == {};
  }

  lemma BeginUpdateSwapKeeps(s: State, newPort: int, spawn: Spawn)
    requires Inv(s)
    ensures Inv(BeginUpdateSwap(s, newPort, spawn))
  {
    hide Inv, InHand, PollSwapReadiness;
    if s.swapInFlight || s.backend.None? || !Running(s, s.backend.value) || spawn.NotStarted? {
      RefusalKeeps(s);
    } else {
      SpawnSuccessorKeeps(s, newPort, spawn);
      PollSwapReadinessKeeps(s.(nextSwap := s.nextSwap + 1, children := s.children + [Spawned(spawn, NoHandler)],
          swapInFlight := true),
                             SwapTicket(|s.children|, newPort, 0, s.nextSwap));
    }
  }

  /** A call answered at once takes the next number and leaves the pending swap alone. */
  lemma RefusalKeeps(s: State)
    requires Inv(s)
    ensures Inv(Emit(s.(nextSwap := s.nextSwap + 1), Complete(s.nextSwap, false)))
  {
    hide Custody, Polling, Retired, Lawful, LastAnnouncement, Attempts, Probes, Completed, Acted;
    var e := Complete(s.nextSwap, false);
    Append(s.log, e);
    RetiredQuiet(s, e);
  }

  /** The predecessor leaves the backend slot for the draining list. */
  function SendToDrain(s: State): State {
    if s.backend.None? then s
    else
      var elder := s.backend.value;
      Emit(SetHandler(s, elder, DrainLog).(backend := None, draining := s.draining + [elder]), Drain(elder))
  }

  lemma SendToDrainKeeps(s: State, t: SwapTicket)
    requires InHand(s, t)
    ensures InHand(SendToDrain(s), t)
  {
    hide Polling, Lawful, LastAnnouncement, Attempts, Probes, Completed, Acted, Custody, Retired;
    if s.backend.Some? {
      NotYetDrained(s, t);
      Append(s.log, Drain(s.backend.value));
      DrainCustody(s, t);
      DrainRetired(s, t);
    }
  }

  lemma NotYetDrained(s: State, t: SwapTicket)
    requires InHand(s, t) && s.backend.Some?
    ensures Drain(s.backend.value) !in s.log
  {
    hide OneCallOpen, Custody, Pending, Acted;
  }

  lemma DrainCustody(s: State, t: SwapTicket)
    requires InHand(s, t) && s.backend.Some?
    ensures var s' := SendToDrain(s); Custody(s'.backend, s'.draining, s'.children, {t})
  {
    hide OneCallOpen, Retired, Pending;
    OnlySuccessorPending(t);
  }

  lemma DrainRetired(s: State, t: SwapTicket)
    requires InHand(s, t) && s.backend.Some?
    ensures var s' := SendToDrain(s); Retired(s'.backend, s'.draining, {t}, |s'.children|, s'.log)
  {
    hide OneCallOpen, Pending, Acted;
    OnlySuccessorPending(t);
    Append(s.log, Drain(s.backend.value));
  }

  /** With the backend slot free, the successor takes it: what that does to the slots and handlers. */
  lemma TakeOverFrees(s: State, t: SwapTicket)
    requires InHand(s, t) && s.backend.None?
    ensures var s' := TakeCommand(s, t.successor, t.port);
            && Custody(s'.backend, s'.draining, s'.children, {})
            && Retired(s'.backend, s'.draining, {}, |s'.children|, s'.log)
            && Posted(s'.notes, s'.children)
  {
    hide Polling, Lawful, LastAnnouncement, Attempts, Probes, Completed, Acted;
    OnlySuccessorPending(t);
  }

  /** With the backend slot free, the successor takes it and the call is answered. */
  lemma TakeOverKeeps(s: State, t: SwapTicket)
    requires InHand(s, t) && s.backend.None?
    ensures Inv(Emit(Emit(Emit(TakeCommand(s, t.successor, t.port), Reset), Swapped(t.port)).(swapInFlight := false),
        Complete(t.swap, true)))
  {
    hide Custody, Polling, Retired, Posted, Lawful, LastAnnouncement, Attempts, Probes, Completed, Acted, Pending;
    TakeOverFrees(s, t);
    var taken := TakeCommand(s, t.successor, t.port).(swaps := {});
    Append(taken.log, Reset);
    RetiredQuiet(taken, Reset);
    var reset := Emit(taken, Reset);
    Append(reset.log, Swapped(t.port));
    RetiredQuiet(reset, Swapped(t.port));
    CompleteKeeps(Emit(reset, Swapped(t.port)), t, true);
  }

  lemma PromoteKeeps(s: State, t: SwapTicket)
    requires InHand(s, t)
    ensures Inv(PromoteSuccessor(s, t.successor, t.port, t.swap))
  {
    hide Custody, Polling, Swapping, Retired, Lawful, LastAnnouncement, Attempts, Probes, Completed, Acted, Inv;
    SendToDrainKeeps(s, t);
    TakeOverKeeps(SendToDrain(s), t);
  }

  lemma SwapDeliveredKeeps(s: State, t: SwapTicket, ok: bool)
    requires Inv(s) && t in s.swaps
    ensures Inv(SwapDelivered(s, t, ok))
  {
    hide Custody, Polling, Swapping, Retired, Lawful, LastAnnouncement, Attempts, Probes, Completed, Acted;
    TakeTicket(s, t);
    var next := t.(attempts := t.attempts + 1);
    var taken := s.(swaps := s.swaps - {t});
    if ok { PromoteKeeps(taken, next); } else { PollSwapReadinessKeeps(taken, next); }
  }

  // ---------------------------------------------------------------------------------------
  // Environment events and quit.
  // ---------------------------------------------------------------------------------------

  lemma ChildExitsKeeps(s: State, p: Pid, abnormal: bool)
    requires Inv(s) && Running(s, p)
    ensures Inv(ChildExited(s, p, abnormal))
  {
    hide Polling, Swapping, Retired, Lawful, LastAnnouncement, Attempts, Probes, Completed, Acted, Pending;
  }

  lemma HandlerFiresKeeps(s: State, p: Pid)
    requires Inv(s) && p < |s.children| && !s.children[p].running
    ensures Inv(HandlerFired(s, p))
  {
    hide Polling, Swapping, Retired, Lawful, LastAnnouncement, Attempts, Probes, Completed, Acted, Pending;
  }

  lemma {:induction false} WithoutContains(pids: seq<Pid>, p: Pid)
    ensures forall q: Pid :: q in Without(pids, p) <==> q in pids && q != p
    ensures (forall i, j :: 0 <= i < j < |pids| ==> pids[i] != pids[j]) ==>
            forall i, j :: 0 <= i < j < |Without(pids, p)| ==> Without(pids, p)[i] != Without(pids, p)[j]
  {
    if pids != [] {
      WithoutContains(pids[1..], p);
      assert pids == [pids[0]] + pids[1..];
      if forall i, j :: 0 <= i < j < |pids| ==> pids[i] != pids[j] {
        assert forall i, j :: 0 <= i < j < |pids[1..]| ==> pids[1..][i] != pids[1..][j];
        assert pids[0] !in pids[1..];
      }
    }
  }

  lemma NoteDeliveredKeeps(s: State, note: ExitNote, longLived: bool)
    requires Inv(s) && note in s.notes
    ensures Inv(NoteDelivered(s, note, longLived))
  {
    hide Polling, Swapping, Lawful, LastAnnouncement, Attempts, Probes, Completed, Acted, Pending;
    var taken := s.(notes := s.notes - {note});
    assert Inv(taken);
    match note.handler
    case ExitPolicy => BackendDidExitKeeps(taken, note.pid, longLived);
    case NoHandler =>
    case DrainLog => WithoutContains(s.draining, note.pid);
  }

  lemma {:induction false} OnlyRunningContains(children: seq<Child>, pids: seq<Pid>)
    ensures forall p: Pid :: p in OnlyRunning(children, pids) <==> p in pids && RunningIn(children, p)
  {
    if pids != [] {
      OnlyRunningContains(children, pids[1..]);
      assert pids == [pids[0]] + pids[1..];
    }
  }

  lemma {:induction false} TerminateEachTells(s: State, pids: seq<Pid>)
    requires forall i :: 0 <= i < |pids| ==> pids[i] < |s.children|
    ensures var s' := TerminateEach(s, pids);
            && s' == s.(children := s'.children, log := s'.log)
            && |s'.children| == |s.children|
            && (forall p: Pid :: p < |s.children| ==>
                s'.children[p] ==
                  if p in pids then s.children[p].(handler := NoHandler, told := true) else s.children[p])
  {
    if pids != [] {
      assert pids == pids[..|pids| - 1] + [pids[|pids| - 1]];
      TerminateEachTells(s, pids[..|pids| - 1]);
    }
  }

  lemma {:induction false} TerminateEachKeeps(s: State, pids: seq<Pid>)
    requires Inv(s) && s.terminating
    requires forall i :: 0 <= i < |pids| ==> pids[i] < |s.children| && !IsSuccessor(s, pids[i])
    ensures Inv(TerminateEach(s, pids))
  {
    hide Inv, Pending;
    if pids != [] {
      assert pids == pids[..|pids| - 1] + [pids[|pids| - 1]];
      TerminateEachKeeps(s, pids[..|pids| - 1]);
      TerminateEachTells(s, pids[..|pids| - 1]);
      TerminateChildKeeps(TerminateEach(s, pids[..|pids| - 1]), pids[|pids| - 1]);
    }
  }

  lemma KillKeeps(s: State, pids: seq<Pid>)
    requires Inv(s)
    ensures Inv(s.(children := KillEach(s.children, pids)))
  {
    hide Polling, Swapping, Retired, Lawful, LastAnnouncement, Attempts, Probes, Completed, Acted, Pending;
  }

  lemma QuitBegunKeeps(s: State)
    requires Inv(s)
    ensures Inv(Emit(s.(terminating := true, restartTimer := false, healthTimer := false), QuitBegan))
  {
    hide Custody, Polling, Swapping, Retired, Lawful, LastAnnouncement, Attempts, Probes, Completed, Acted, Pending;
    Append(s.log, QuitBegan);
    SwappingQuiet(s, QuitBegan);
    RetiredQuiet(s, QuitBegan);
  }

  lemma QuitSweepIs(s: State)
    requires Inv(s)
    ensures forall p: Pid :: p in QuitSweep(s) <==> Running(s, p) && (s.backend == Some(p) || p in s.draining)
    ensures forall p :: p in QuitSweep(s) ==> !IsSuccessor(s, p)
  {
    hide Polling, Swapping, Retired, Lawful, LastAnnouncement, Attempts, Probes, Completed, Acted, Pending;
    OnlyRunningContains(s.children, (if s.backend.Some? then [s.backend.value] else []) + s.draining);
  }

  lemma ShutdownKeeps(s: State)
    requires Inv(s)
    ensures Inv(Shutdown(s))
  {
    hide Inv, Pending, QuitSweep;
    QuitBegunKeeps(s);
    QuitSweepIs(s);
    var quitting := Emit(s.(terminating := true, restartTimer := false, healthTimer := false), QuitBegan);
    assert forall i :: 0 <= i < |QuitSweep(s)| ==> QuitSweep(s)[i] in QuitSweep(s);
    TerminateEachKeeps(quitting, QuitSweep(s));
    KillKeeps(TerminateEach(quitting, QuitSweep(s)), QuitSweep(s));
  }

  /** A pending swap's successor that runs. */
  predicate SuccessorRuns(s: State, t: SwapTicket) {
    t in s.swaps && Running(s, t.successor)
  }

  /** A child told to terminate earlier, by a restart or a failed swap, that still runs and is in no slot. */
  predicate Forgotten(s: State, p: Pid) {
    Running(s, p) && s.children[p].told && s.backend != Some(p) && p !in s.draining
  }

  /** What quit leaves running: the children it does not sweep. */
  lemma QuitLeavesRunning(s: State)
    requires Inv(s)
    ensures forall p: Pid :: Running(Shutdown(s), p) <==> Running(s, p) && s.backend != Some(p) && p !in s.draining
  {
    hide Inv, QuitSweep;
    QuitSweepIs(s);
    var quitting := Emit(s.(terminating := true, restartTimer := false, healthTimer := false), QuitBegan);
    assert forall i :: 0 <= i < |QuitSweep(s)| ==> QuitSweep(s)[i] in QuitSweep(s);
    TerminateEachTells(quitting, QuitSweep(s));
  }

  /**
   * Quit leaves nothing running exactly when no pending successor runs and no child told to terminate
   * earlier is still going down: the sweep covers the backend and every draining predecessor, and only those.
   */
  lemma QuitLeavesNothingRunningIff(s: State)
    requires Inv(s)
    ensures (forall p: Pid :: !Running(Shutdown(s), p)) <==>
      !(exists t :: SuccessorRuns(s, t)) && !(exists p :: Forgotten(s, p))
  {
    hide Polling, Swapping, Retired, Ledger, Posted, Shutdown;
    QuitLeavesRunning(s);
    forall t | SuccessorRuns(s, t) ensures Running(Shutdown(s), t.successor) {
      assert Pending(s.swaps, t.successor);
    }
    forall p: Pid | Running(Shutdown(s), p) && !Forgotten(s, p) ensures exists t :: SuccessorRuns(s, t) {
      assert LiveIn(s.children, p) && Pending(s.swaps, p);
      var t :| t in s.swaps && t.successor == p;
      assert SuccessorRuns(s, t);
    }
  }

  /** Of the children not told earlier, quit leaves exactly the pending successors. */
  lemma QuitLeavesNoLiveChildIff(s: State)
    requires Inv(s)
    ensures (forall p: Pid :: !Live(Shutdown(s), p)) <==> !(exists t :: SuccessorRuns(s, t))
    ensures forall p :: p in QuitSweep(s) ==> !Running(Shutdown(s), p)
  {
    hide Polling, Swapping, Retired, Lawful, LastAnnouncement, Attempts, Probes, Completed, Acted, QuitSweep;
    QuitSweepIs(s);
    var quitting := Emit(s.(terminating := true, restartTimer := false, healthTimer := false), QuitBegan);
    assert forall i :: 0 <= i < |QuitSweep(s)| ==> QuitSweep(s)[i] in QuitSweep(s);
    TerminateEachTells(quitting, QuitSweep(s));
    forall t | SuccessorRuns(s, t) ensures Live(Shutdown(s), t.successor) {
      assert Pending(s.swaps, t.successor);
    }
    forall p: Pid | Live(Shutdown(s), p) ensures exists t :: SuccessorRuns(s, t) {
      assert LiveIn(s.children, p);
      var t :| t in s.swaps && t.successor == p;
      assert SuccessorRuns(s, t);
    }
  }

  // ---------------------------------------------------------------------------------------
  // Every run.
  // ---------------------------------------------------------------------------------------

  lemma LaunchEstablishes(port: int, spawn: Spawn)
    ensures Inv(Launch(port, spawn))
  {
    hide PollUntilReady;
    StartBackendKeeps(Init(port), spawn);
    PollUntilReadyKeeps(StartBackend(Init(port), spawn));
  }

  lemma StepKeeps(s: State, e: Event)
    requires Inv(s) && Enabled(s, e)
    ensures Inv(Step(s, e))
  {
    hide Inv;
    match e
    case ChildExits(p, abnormal) => ChildExitsKeeps(s, p, abnormal);
    case HandlerFires(p) => HandlerFiresKeeps(s, p);
    case ExitNoted(note, longLived) => NoteDeliveredKeeps(s, note, longLived);
    case PollAnswered(t, ok) => PollKeeps(s, t, ok);
    case SwapAnswered(t, ok) => SwapDeliveredKeeps(s, t, ok);
    case HealthTick(longLived) => HealthTickedKeeps(s, longLived);
    case RestartTimerFires(spawn) => RestartTimerFiredKeeps(s, spawn);
    case ManualRestart(spawn) => RestartBackendKeeps(s, spawn);
    case BeginSwap(newPort, spawn) => BeginUpdateSwapKeeps(s, newPort, spawn);
    case Quit => ShutdownKeeps(s);
  }

  lemma HealthTickedKeeps(s: State, longLived: bool)
    requires Inv(s)
    ensures Inv(HealthTicked(s, longLived))
  {
    hide Custody, Polling, Swapping, Retired, Ledger;
    var idle := s.(healthTimer := false);
    assert Inv(idle);
    if s.backend.Some? { BackendDidExitKeeps(idle, s.backend.value, longLived); }
  }

  /** Whatever the order of events, every state of every run satisfies the invariant. */
  lemma {:induction false} RunIsSafe(run: seq<State>, events: seq<Event>, n: nat)
    requires IsRun(run, events) && n < |run|
    ensures Inv(run[n])
  {
    hide Inv, Enabled, Step;
    if n == 0 {
      var port, spawn :| run[0] == Launch(port, spawn);
      LaunchEstablishes(port, spawn);
    } else {
      RunIsSafe(run, events, n - 1);
      StepKeeps(run[n - 1], events[n - 1]);
    }
  }

  // ---------------------------------------------------------------------------------------
  // What it means, read off the log.
  // ---------------------------------------------------------------------------------------

  lemma {:induction false} LawfulAt(log: seq<Entry>, i: nat)
    requires Lawful(log) && i < |log|
    ensures Allowed(log[..i], log[i])
  {
    if i < |log| - 1 {
      LawfulAt(log[..|log| - 1], i);
      assert log[..|log| - 1][..i] == log[..i];
    }
  }

  lemma {:induction false} LastAnnouncementAt(log: seq<Entry>)
    ensures match LastAnnouncement(log)
            case Some(e) =>
              exists j :: 0 <= j < |log| && log[j] == e && forall k :: j < k < |log| ==> !IsAnnouncement(log[k])
            case None => true
  {
    if log != [] {
      if IsAnnouncement(log[|log| - 1]) { assert log[|log| - 1] == LastAnnouncement(log).value; }
      else { LastAnnouncementAt(log[..|log| - 1]); }
    }
  }

  /**
   * In every state of every run, each `Ready` or `Unreachable` answers a `Starting` with no other
   * announcement in between: a `Starting` is answered at most once, and nothing answers after a
   * crash or a stop until the next `Starting`.
   */
  lemma AnswersFollowTheirStarting(run: seq<State>, events: seq<Event>, n: nat, i: nat)
    requires IsRun(run, events) && n < |run| && i < |run[n].log|
    requires run[n].log[i].Ready? || run[n].log[i].Unreachable?
    ensures exists j :: 0 <= j < i && run[n].log[j] == Starting && forall k :: j < k < i ==>
        !IsAnnouncement(run[n].log[k])
  {
    hide IsRun, Custody, Polling, Swapping, Retired;
    RunIsSafe(run, events, n);
    var log := run[n].log;
    LawfulAt(log, i);
    LastAnnouncementAt(log[..i]);
    var j :| 0 <= j < i && log[..i][j] == Starting && forall k :: j < k < |log[..i]| ==> !IsAnnouncement(log[..i][k]);
    assert log[j] == Starting;
    assert forall k :: j < k < i ==> log[k] == log[..i][k];
  }

  /** No exit is acted on twice, however the termination handler and the health tick interleave. */
  lemma ExitActedOnOnce(run: seq<State>, events: seq<Event>, n: nat, i: nat, j: nat)
    requires IsRun(run, events) && n < |run| && i < j < |run[n].log|
    requires run[n].log[i].Exit? && run[n].log[j].Exit?
    ensures run[n].log[i].pid != run[n].log[j].pid
  {
    hide IsRun, Custody, Polling, Swapping, Retired;
    RunIsSafe(run, events, n);
    LawfulAt(run[n].log, j);
    assert run[n].log[i] in run[n].log[..j];
  }

  /** The k-th consecutive countdown is min(60, 2^k) seconds, k counted from the log alone. */
  lemma CountdownIsBackoff(run: seq<State>, events: seq<Event>, n: nat, i: nat)
    requires IsRun(run, events) && n < |run| && i < |run[n].log| && run[n].log[i].Crashed?
    ensures var k := Attempts(run[n].log[..i]);
            k >= 1 && run[n].log[i].delay == if Pow2(k) < 60 then Pow2(k) else 60
    ensures run[n].restartAttempts == Attempts(run[n].log)
  {
    hide IsRun, Custody, Polling, Swapping, Retired;
    RunIsSafe(run, events, n);
    LawfulAt(run[n].log, i);
  }

  /** A draining predecessor is told to terminate only once quit has begun. */
  lemma DrainingIsNotTerminated(run: seq<State>, events: seq<Event>, n: nat, i: nat, j: nat)
    requires IsRun(run, events) && n < |run| && i < j < |run[n].log|
    requires run[n].log[i].Drain? && run[n].log[j] == Terminate(run[n].log[i].pid)
    ensures QuitBegan in run[n].log[..j]
  {
    hide IsRun, Custody, Polling, Swapping, Retired;
    RunIsSafe(run, events, n);
    LawfulAt(run[n].log, j);
    assert run[n].log[i] in run[n].log[..j];
  }

  /**
   * Every call to begin a swap has exactly one completion, given at once or still owed by the one
   * pending chain; nothing is probed or completed again after it, and a call costs at most 31 probes.
   */
  lemma SwapCallsAnsweredOnce(run: seq<State>, events: seq<Event>, n: nat, w: nat)
    requires IsRun(run, events) && n < |run| && w < run[n].nextSwap
    ensures Completed(run[n].log, w) <==> !(exists t :: t in run[n].swaps && t.swap == w)
    ensures forall i, j :: 0 <= i < j < |run[n].log| && run[n].log[i].Complete? && run[n].log[i].swap == w ==>
                           run[n].log[j] != Probe(w) && !(run[n].log[j].Complete? && run[n].log[j].swap == w)
    ensures Probes(run[n].log, w) <= MAX_RETRIES + 1
    ensures run[n].swapInFlight <==> run[n].swaps != {}
    ensures forall t, u :: t in run[n].swaps && u in run[n].swaps ==> t == u
  {
    hide IsRun, Custody, Polling, Retired;
    RunIsSafe(run, events, n);
    var log := run[n].log;
    forall i, j | 0 <= i < j < |log| && log[i].Complete? && log[i].swap == w
      ensures log[j] != Probe(w) && !(log[j].Complete? && log[j].swap == w)
    {
      LawfulAt(log, j);
      assert log[i] in log[..j];
    }
    ProbesBounded(log, w);
  }

  lemma {:induction false} ProbesBounded(log: seq<Entry>, w: nat)
    requires Lawful(log)
    ensures Probes(log, w) <= MAX_RETRIES + 1
  {
    if log != [] { ProbesBounded(log[..|log| - 1], w); }
  }

  /** In every state of every run a live child is exactly one of backend, draining and successor. */
  lemma LiveChildHasOneSlot(run: seq<State>, events: seq<Event>, n: nat, p: Pid)
    requires IsRun(run, events) && n < |run| && Live(run[n], p)
    ensures var s := run[n];
            var slots := [s.backend == Some(p), p in s.draining, IsSuccessor(s, p)];
            multiset(slots)[true] == 1
    ensures forall i, j :: 0 <= i < j < |run[n].draining| ==> run[n].draining[i] != run[n].draining[j]
  {
    hide IsRun, Polling, Swapping, Retired, Ledger, Pending;
    RunIsSafe(run, events, n);
    var s := run[n];
    assert LiveIn(s.children, p);
    var a, b, c := s.backend == Some(p), p in s.draining, IsSuccessor(s, p);
    assert multiset([a, b, c]) == multiset{a, b, c};
  }

  // ---------------------------------------------------------------------------------------
  // Single steps.
  // ---------------------------------------------------------------------------------------

  /** A failing swap leaves the backend, its port, the draining list and the counter as they were. */
  lemma FailedSwapLeavesBackend(s: State, t: SwapTicket)
    requires Inv(s) && t in s.swaps
    ensures var s' := SwapDelivered(s, t, false);
            && s'.backend == s.backend && s'.port == s.port && s'.draining == s.draining
            && s'.restartAttempts == s.restartAttempts && s'.restartTimer == s.restartTimer
                && s'.healthTimer == s.healthTimer
            && (forall p: Pid :: p < |s.children| && p != t.successor ==> s'.children[p] == s.children[p])
            && (s'.swapInFlight || (!Live(s', t.successor) && Complete(t.swap, false) in s'.log))
  {
    hide Polling, Retired, Ledger, Probes, Completed;
    assert s.swaps == {t};
    var taken := s.(swaps := {});
    var e := Complete(t.swap, false);
    assert e in SwapDelivered(s, t, false).log || SwapDelivered(s, t, false).swapInFlight;
  }

  /**
   * Nor does a swap that fails in its own call: refused, not spawned, or its successor found dead. The call is
   * answered, and the one child it may have spawned is not left live.
   */
  lemma FailedBeginLeavesBackend(s: State, newPort: int, spawn: Spawn)
    requires Inv(s) && BeginUpdateSwap(s, newPort, spawn).swapInFlight == s.swapInFlight
    ensures var s' := BeginUpdateSwap(s, newPort, spawn);
            && s'.backend == s.backend && s'.port == s.port && s'.draining == s.draining && s'.swaps == s.swaps
            && s'.restartAttempts == s.restartAttempts && s'.restartTimer == s.restartTimer
            && s'.healthTimer == s.healthTimer && s'.pollGeneration == s.pollGeneration
            && (forall p: Pid :: p < |s.children| ==> p < |s'.children| && s'.children[p] == s.children[p])
            && (forall p: Pid :: |s.children| <= p ==> !Live(s', p))
            && Complete(s.nextSwap, false) in s'.log && !Completed(s.log, s.nextSwap)
  {
    hide Inv, Completed, PollSwapReadiness;
    NextCallIsOpen(s);
    if !s.swapInFlight && s.backend.Some? && Running(s, s.backend.value) && spawn.Started? {
      var p := |s.children|;
      var spawned := s.(nextSwap := s.nextSwap + 1, children := s.children + [Spawned(spawn, NoHandler)],
                        swapInFlight := true);
      FirstProbeFails(spawned, p, newPort, s.nextSwap);
      assert spawned.children[p := spawned.children[p]] == spawned.children;
    }
  }

  lemma NextCallIsOpen(s: State)
    requires Inv(s)
    ensures !Completed(s.log, s.nextSwap)
  {
    hide Custody, Polling, Retired, Ledger, Probes, Completed;
  }

  /** A fresh successor is given up at once exactly if it is found dead; nothing but the answer is left of that. */
  lemma FirstProbeFails(s: State, p: Pid, newPort: int, swap: nat)
    requires p < |s.children| && s.children[p].handler == NoHandler && s.swapInFlight
    ensures var s' := PollSwapReadiness(s, p, newPort, 0, swap);
            && (s'.swapInFlight <==> Running(s, p))
            && (!Running(s, p) ==> s' == s.(swapInFlight := false, log := s.log + [Complete(swap, false)]))
  {
    assert s.children[p := s.children[p].(handler := NoHandler)] == s.children;
  }

  /**
   * A ready successor takes over without anything being terminated: it becomes the backend on its own port,
   * the predecessor drains, every live child stays live, the counter restarts and the call is answered with success.
   */
  lemma PromotionHandsOver(s: State, t: SwapTicket)
    requires Inv(s) && t in s.swaps
    ensures var s' := SwapDelivered(s, t, true);
            && s'.backend == Some(t.successor) && s'.port == t.port && s'.healthTimer && !s'.swapInFlight
                && s'.swaps == {}
            && s'.draining == s.draining + (if s.backend.Some? then [s.backend.value] else [])
            && (forall p: Pid :: Live(s, p) <==> Live(s', p))
            && s'.restartAttempts == Attempts(s'.log) == 0 && LastAnnouncement(s'.log) == LastAnnouncement(s.log)
            && s'.log == s.log + Handover(s.backend, t) && !Completed(s.log, t.swap)
  {
    hide Inv, Completed, Attempts, LastAnnouncement, SwapDelivered, Handover;
    OnlyCallOpen(s, t);
    PromotionFields(s, t);
    PromotionKeepsLive(s, t);
    HandoverLog(s.log, s.backend, t);
  }

  lemma OnlyCallOpen(s: State, t: SwapTicket)
    requires Inv(s) && t in s.swaps
    ensures s.swapInFlight && s.swaps == {t} && !Completed(s.log, t.swap)
  {
    hide Custody, Posted, Polling, Retired, Ledger, Probes, Completed;
  }

  lemma PromotionFields(s: State, t: SwapTicket)
    requires s.swapInFlight && s.swaps == {t}
    ensures var s' := SwapDelivered(s, t, true);
            && s'.backend == Some(t.successor) && s'.port == t.port && s'.healthTimer && !s'.swapInFlight
                && s'.swaps == {}
            && s'.draining == s.draining + (if s.backend.Some? then [s.backend.value] else [])
            && s'.restartAttempts == 0 && s'.log == s.log + Handover(s.backend, t)
  {
  }

  lemma PromotionKeepsLive(s: State, t: SwapTicket)
    requires s.swapInFlight
    ensures forall p: Pid :: Live(s, p) <==> Live(SwapDelivered(s, t, true), p)
  {
    hide SetHandler, Live;
    var idle := s.(swaps := s.swaps - {t}, swapInFlight := false);
    SetHandlerKeepsLive(idle, if s.backend.Some? then s.backend.value else 0, DrainLog);
    var drained := DrainPredecessor(idle);
    SameChildren(s, idle);
    SameChildren(if s.backend.Some? then SetHandler(idle, s.backend.value, DrainLog) else idle, drained);
    var taken := drained.(backend := Some(t.successor), port := t.port, restartAttempts := 0, healthTimer := true);
    SameChildren(drained, taken);
    SetHandlerKeepsLive(taken, t.successor, ExitPolicy);
    SameChildren(TakeCommand(drained, t.successor, t.port), SwapDelivered(s, t, true));
  }

  lemma SetHandlerKeepsLive(s: State, p: Pid, handler: Handler)
    ensures forall q: Pid :: Live(s, q) <==> Live(SetHandler(s, p, handler), q)
  {
  }

  lemma SameChildren(s: State, s': State)
    ensures s'.children == s.children ==> forall q: Pid :: Live(s, q) <==> Live(s', q)
  {
  }

  /** What a promotion does, in order. */
  function Handover(backend: Option<Pid>, t: SwapTicket): seq<Entry> {
    (if backend.Some? then [Drain(backend.value)] else []) + [Reset, Swapped(t.port), Complete(t.swap, true)]
  }

  lemma HandoverLog(log: seq<Entry>, backend: Option<Pid>, t: SwapTicket)
    ensures Attempts(log + Handover(backend, t)) == 0
    ensures LastAnnouncement(log + Handover(backend, t)) == LastAnnouncement(log)
  {
    hide Probes, Completed, Attempts, LastAnnouncement, Lawful, Allowed;
    var drained := if backend.Some? then log + [Drain(backend.value)] else log;
    if backend.Some? { Append(log, Drain(backend.value)); }
    Append(drained, Reset);
    Append(drained + [Reset], Swapped(t.port));
    Append(drained + [Reset] + [Swapped(t.port)], Complete(t.swap, true));
    assert log + Handover(backend, t) == drained + [Reset] + [Swapped(t.port)] + [Complete(t.swap, true)];
  }

  /** A current chain answered without success is tried again, and after 31 requests it gives up. */
  lemma ChainContinuesOrAnswers(s: State, t: PollTicket, ok: bool)
    requires Inv(s) && t in s.polls && t.generation == s.pollGeneration
    ensures var s' := PollDelivered(s, t, ok);
            if ok then LastAnnouncement(s'.log) == Some(Ready) && s'.healthTimer
            else if t.attempts < MAX_RETRIES then
              PollTicket(t.attempts + 1, s.pollGeneration) in s'.polls && s'.log == s.log
            else LastAnnouncement(s'.log) == Some(Unreachable)
  {
    hide Custody, Swapping, Retired, Ledger, LastAnnouncement;
    Append(s.log, Ready);
    Append(s.log, Unreachable);
  }

  /** The current backend's exit will still be seen, or a countdown will replace it. */
  ghost predicate Watched(s: State) {
    s.backend.Some? && s.backend.value < |s.children| && !s.terminating ==>
      var c := s.children[s.backend.value];
      || (c.handler.ExitPolicy? && !c.fired)
      || ExitNote(s.backend.value, ExitPolicy) in s.notes
      || s.healthTimer || s.restartTimer
  }

  lemma RestartWatched(s: State, spawn: Spawn)
    requires Inv(s) && spawn.Started?
    ensures Watched(RestartBackend(s, spawn))
  {
    hide Custody, Polling, Swapping, Retired, Ledger;
  }

  lemma NoteWatched(s: State, note: ExitNote, longLived: bool)
    requires Inv(s) && Watched(s) && note in s.notes
    ensures Watched(NoteDelivered(s, note, longLived))
  {
    hide Custody, Polling, Swapping, Retired, Ledger, Backoff;
  }

  lemma TickWatched(s: State, longLived: bool)
    requires Inv(s) && Watched(s) && s.healthTimer
    ensures Watched(HealthTicked(s, longLived))
  {
    hide Polling, Swapping, Retired, Ledger, Backoff;
  }

  lemma FailedSwapWatched(s: State, t: SwapTicket)
    requires Inv(s) && Watched(s) && t in s.swaps
    ensures Watched(SwapDelivered(s, t, false))
  {
    hide Polling, Swapping, Retired, Ledger;
    assert Pending(s.swaps, t.successor);
  }

  lemma PromotionWatched(s: State, t: SwapTicket)
    requires Inv(s) && t in s.swaps
    ensures Watched(SwapDelivered(s, t, true))
  {
    hide Polling, Retired, Ledger, Probes, Completed;
    assert s.swapInFlight;
  }

  /**
   * The one step that can lose an exit: it stops both timers and takes the handler off a running backend,
   * and the exit is not already on the main queue or in the handler of a backend found dead.
   */
  predicate LosesExit(s: State, e: Event) {
    && e.ManualRestart? && e.spawn.NotStarted? && !s.terminating
    && s.backend.Some? && s.backend.value < |s.children|
    && ExitNote(s.backend.value, ExitPolicy) !in s.notes
    && var c := s.children[s.backend.value];
       c.running || !(c.handler.ExitPolicy? && !c.fired)
  }

  /**
   * Every event keeps the backend's exit watched, except a manual restart that cannot spawn, and that one
   * exactly when the backend still ran or neither its handler nor a queued block is left to report the exit.
   */
  lemma ExitStaysWatchedIff(s: State, e: Event)
    requires Inv(s) && Enabled(s, e) && Watched(s)
    ensures Watched(Step(s, e)) <==> !LosesExit(s, e)
  {
    hide Inv, Watched;
    match e
    case ChildExits(_, _) => EnvironmentWatched(s, e);
    case HandlerFires(_) => EnvironmentWatched(s, e);
    case PollAnswered(_, _) => EnvironmentWatched(s, e);
    case ExitNoted(note, longLived) => NoteWatched(s, note, longLived);
    case SwapAnswered(t, ok) => if ok { PromotionWatched(s, t); } else { FailedSwapWatched(s, t); }
    case HealthTick(longLived) => TickWatched(s, longLived);
    case RestartTimerFires(spawn) => TimerWatched(s, spawn);
    case ManualRestart(spawn) => if spawn.Started? { RestartWatched(s, spawn); } else { FailedRestartWatched(s); }
    case BeginSwap(newPort, spawn) => BeginSwapWatched(s, newPort, spawn);
    case Quit => QuitTerminates(s); NothingWatchedAfterQuit(Shutdown(s));
  }

  lemma NothingWatchedAfterQuit(s: State)
    ensures s.terminating ==> Watched(s)
  {
  }

  lemma EnvironmentWatched(s: State, e: Event)
    requires Inv(s) && Enabled(s, e) && Watched(s) && (e.ChildExits? || e.HandlerFires? || e.PollAnswered?)
    ensures Watched(Step(s, e))
  {
    hide Custody, Polling, Swapping, Retired, Ledger;
  }

  lemma TimerWatched(s: State, spawn: Spawn)
    requires Inv(s) && Watched(s)
    ensures Watched(RestartTimerFired(s, spawn))
  {
    hide Custody, Polling, Swapping, Retired, Ledger, Backoff;
    if spawn.Started? { RestartWatched(s.(restartTimer := false), spawn); }
  }

  lemma FailedRestartWatched(s: State)
    requires Inv(s) && Watched(s) && !s.terminating
    ensures Watched(RestartBackend(s, NotStarted)) <==> !LosesExit(s, ManualRestart(NotStarted))
  {
    hide Polling, Swapping, Retired, Ledger;
  }

  lemma BeginSwapWatched(s: State, newPort: int, spawn: Spawn)
    requires Inv(s) && Watched(s)
    ensures Watched(BeginUpdateSwap(s, newPort, spawn))
  {
    hide Polling, Swapping, Retired, Ledger;
  }

  lemma QuitTerminates(s: State)
    requires Inv(s)
    ensures Shutdown(s).terminating && !Shutdown(s).restartTimer && Shutdown(s).pollGeneration == s.pollGeneration
  {
    QuitSweepIs(s);
    assert forall i :: 0 <= i < |QuitSweep(s)| ==> QuitSweep(s)[i] in QuitSweep(s);
    TerminateEachTells(Emit(s.(terminating := true, restartTimer := false, healthTimer := false), QuitBegan),
        QuitSweep(s));
  }

  /** A countdown is cancelled with nothing to replace it exactly by quit or by a manual restart that cannot spawn. */
  lemma CountdownDeadEndIff(s: State, e: Event)
    requires Inv(s) && Enabled(s, e) && s.restartTimer && !s.terminating
    ensures !Step(s, e).restartTimer && Step(s, e).pollGeneration == s.pollGeneration
            <==> e.Quit? || (e.ManualRestart? && e.spawn.NotStarted?)
  {
    hide Inv, RestartBackend, RestartTimerFired, Shutdown, NoteDelivered, HealthTicked, SwapDelivered,
        BeginUpdateSwap, PollDelivered,
      ChildExited, HandlerFired;
    match e
    case Quit => QuitTerminates(s);
    case ManualRestart(spawn) => RestartReplaces(s, spawn);
    case RestartTimerFires(spawn) => TimerReplaces(s, spawn);
    case ExitNoted(_, _) => ExitKeepsCountdown(s, e);
    case HealthTick(_) => ExitKeepsCountdown(s, e);
    case SwapAnswered(_, _) => SwapKeepsCountdown(s, e);
    case BeginSwap(_, _) => SwapKeepsCountdown(s, e);
    case _ => QuietKeepsCountdown(s, e);
  }

  lemma RestartReplaces(s: State, spawn: Spawn)
    ensures var s' := RestartBackend(s, spawn);
      !s'.restartTimer && s'.pollGeneration == s.pollGeneration <==> spawn.NotStarted?
  {
  }

  lemma TimerReplaces(s: State, spawn: Spawn)
    requires !s.terminating && s.restartTimer
    ensures var s' := RestartTimerFired(s, spawn); s'.restartTimer || s'.pollGeneration != s.pollGeneration
  {
    hide Backoff;
  }

  lemma ExitKeepsCountdown(s: State, e: Event)
    requires Enabled(s, e) && s.restartTimer && (e.ExitNoted? || e.HealthTick?)
    ensures Step(s, e).restartTimer
  {
    hide Backoff, Without;
  }

  lemma SwapKeepsCountdown(s: State, e: Event)
    requires Enabled(s, e) && s.restartTimer && (e.SwapAnswered? || e.BeginSwap?)
    ensures Step(s, e).restartTimer
  {
  }

  lemma QuietKeepsCountdown(s: State, e: Event)
    requires Enabled(s, e) && s.restartTimer && (e.ChildExits? || e.HandlerFires? || e.PollAnswered?)
    ensures Step(s, e).restartTimer
  {
  }

  /**
   * Promotion does not cancel a countdown: the timer can still fire afterwards exactly when it was armed
   * at the promotion, and when it fires it takes the promoted successor down.
   */
  lemma PromotedSuccessorRestartedIff(s: State, t: SwapTicket, spawn: Spawn)
    requires Inv(s) && t in s.swaps && Running(s, t.successor) && !s.terminating
    ensures var s' := SwapDelivered(s, t, true);
            && Live(s', t.successor) && s'.backend == Some(t.successor)
            && (Enabled(s', RestartTimerFires(spawn)) <==> s.restartTimer)
            && (s.restartTimer ==>
                  var fired := Step(s', RestartTimerFires(spawn));
                  Terminate(t.successor) in fired.log && !Live(fired, t.successor) && fired.children[t.successor].told)
  {
    hide Polling, Retired, Ledger, Probes, Completed, Backoff;
    assert s.swapInFlight;
    var s' := SwapDelivered(s, t, true);
    var stopped := TerminateChild(s'.(restartTimer := false, healthTimer := false), t.successor);
    assert Terminate(t.successor) in stopped.log;
  }
}
