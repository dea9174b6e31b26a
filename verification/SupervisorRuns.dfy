/**
 * Runs of the supervisor: a bound on the answers a swap takes, the watch kept on exits, and one short
 * concrete run for each way in which the supervisor falls short.
 */
module SupervisorRuns {
  import opened Common
  import opened SupervisorModel
  import opened SupervisorSafety

  // ---------------------------------------------------------------------------------------
  // A swap is answered by its 31st probe.
  // ---------------------------------------------------------------------------------------

  predicate AnswersSwap(e: Event, w: nat) {
    e.SwapAnswered? && e.ticket.swap == w
  }

  /** How many probes of call `w` were answered. */
  function Answers(events: seq<Event>, w: nat): nat {
    if events == [] then 0
    else Answers(events[..|events| - 1], w) + if AnswersSwap(events[|events| - 1], w) then 1 else 0
  }

  ghost predicate OwesProbe(s: State, w: nat) {
    exists t :: t in s.swaps && t.swap == w
  }

  /** Probes sent for a call and not yet answered. */
  ghost function Open(s: State, w: nat): nat {
    if OwesProbe(s, w) then 1 else 0
  }

  lemma SentProbes(log: seq<Entry>, e: Entry, w: nat)
    ensures Probes(log + [e], w) == Probes(log, w) + if e == Probe(w) then 1 else 0
  {
    assert (log + [e])[..|log|] == log;
  }

  /** The step left the pending swap and the probes of a call alone. */
  predicate NoProbe(s: State, s': State, w: nat) {
    s'.swaps == s.swaps && Probes(s'.log, w) == Probes(s.log, w)
  }

  /** No event but an answer or a new call touches them. */
  lemma OthersSendNoProbe(s: State, e: Event, w: nat)
    requires Inv(s) && Enabled(s, e) && !e.SwapAnswered? && !e.BeginSwap?
    ensures NoProbe(s, Step(s, e), w)
  {
    hide Inv, Probes, BackendDidExit, RestartBackend, RestartTimerFired, PollDelivered, Shutdown, Without;
    match e
    case ChildExits(_, _) =>
    case HandlerFires(_) =>
    case ExitNoted(note, longLived) => ExitSendsNoProbe(s.(notes := s.notes - {note}), note.pid, longLived, w);
    case PollAnswered(t, ok) => PollSendsNoProbe(s, t, ok, w);
    case HealthTick(longLived) =>
      if s.backend.Some? { ExitSendsNoProbe(s.(healthTimer := false), s.backend.value, longLived, w); }
    case RestartTimerFires(spawn) => TimerSendsNoProbe(s, spawn, w);
    case ManualRestart(spawn) => RestartSendsNoProbe(s, spawn, w);
    case Quit => QuitSendsNoProbe(s, w);
  }

  lemma PollSendsNoProbe(s: State, t: PollTicket, ok: bool, w: nat)
    ensures NoProbe(s, PollDelivered(s, t, ok), w)
  {
    hide Probes;
    SentProbes(s.log, Ready, w);
    SentProbes(s.log, Unreachable, w);
  }

  lemma TimerSendsNoProbe(s: State, spawn: Spawn, w: nat)
    ensures NoProbe(s, RestartTimerFired(s, spawn), w)
  {
    hide Probes, RestartBackend, Backoff;
    var disarmed := s.(restartTimer := false);
    RestartSendsNoProbe(disarmed, spawn, w);
    var failed := RestartBackend(disarmed, spawn);
    SentProbes(failed.log, RespawnFailed, w);
    SentProbes(failed.log + [RespawnFailed], Crashed(Backoff(failed.restartAttempts + 1)), w);
  }

  lemma QuitSendsNoProbe(s: State, w: nat)
    ensures NoProbe(s, Shutdown(s), w)
  {
    hide Probes, QuitSweep, KillEach, TerminateEach;
    var quitting := Emit(s.(terminating := true, restartTimer := false, healthTimer := false), QuitBegan);
    SentProbes(s.log, QuitBegan, w);
    TerminateEachSendsNoProbe(quitting, QuitSweep(s), w);
  }

  lemma ExitSendsNoProbe(s: State, p: Pid, longLived: bool, w: nat)
    ensures NoProbe(s, BackendDidExit(s, p, longLived), w)
  {
    hide Probes, Backoff;
    var rested := if longLived then s.log + [Reset] else s.log;
    SentProbes(s.log, Exit(p, false), w);
    SentProbes(s.log + [Exit(p, false)], StoppedCleanly, w);
    SentProbes(s.log, Reset, w);
    SentProbes(rested, Exit(p, true), w);
    SentProbes(rested + [Exit(p, true)], Crashed(Backoff((if longLived then 0 else s.restartAttempts) + 1)), w);
  }

  lemma RestartSendsNoProbe(s: State, spawn: Spawn, w: nat)
    ensures NoProbe(s, RestartBackend(s, spawn), w)
  {
    hide Probes;
    var told := if s.backend.Some? then s.log + [Terminate(s.backend.value)] else s.log;
    if s.backend.Some? { SentProbes(s.log, Terminate(s.backend.value), w); }
    SentProbes(s.log, Starting, w);
    SentProbes(told, Starting, w);
  }

  lemma {:induction false} TerminateEachSendsNoProbe(s: State, pids: seq<Pid>, w: nat)
    ensures NoProbe(s, TerminateEach(s, pids), w)
  {
    hide Probes;
    if pids != [] {
      var p, before := pids[|pids| - 1], TerminateEach(s, pids[..|pids| - 1]);
      TerminateEachSendsNoProbe(s, pids[..|pids| - 1], w);
      SentProbes(before.log, Terminate(p), w);
    }
  }

  /** Every step sends as many probes of a call as it answers, or one more when it leaves one open. */
  lemma ProbesBalance(s: State, e: Event, w: nat)
    requires Inv(s) && Enabled(s, e)
    ensures Probes(Step(s, e).log, w) + Open(s, w) == Probes(s.log, w) + Open(Step(s, e), w) + if AnswersSwap(e,
        w) then 1 else 0
  {
    hide Inv;
    var s' := Step(s, e);
    StepKeeps(s, e);
    OpenIsCounted(s, w);
    OpenIsCounted(s', w);
    if e.SwapAnswered? {
      AnswerBalances(s, e.ticket, e.ok, w);
    } else if e.BeginSwap? {
      BeginBalances(s, e.newPort, e.spawn, w);
    } else {
      OthersSendNoProbe(s, e, w);
    }
  }

  lemma OpenIsCounted(s: State, w: nat)
    requires Inv(s)
    ensures forall t, u :: t in s.swaps && u in s.swaps ==> t == u
    ensures OwesProbe(s, w) ==> w < s.nextSwap
  {
    hide Custody, Polling, Retired, Ledger, Posted;
  }

  lemma AnswerBalances(s: State, t: SwapTicket, ok: bool, w: nat)
    requires Inv(s) && t in s.swaps
    ensures var s' := SwapDelivered(s, t, ok);
      Probes(s'.log, w) + Open(s, w) == Probes(s.log, w) + Open(s', w) + if t.swap == w then 1 else 0
  {
    hide Inv, Probes, SwapDelivered;
    assert s.swaps == {t} by { OpenIsCounted(s, w); }
    assert t in s.swaps;
    if ok {
      PromotionHandsOver(s, t);
      HandoverSendsNoProbe(s.log, s.backend, t, w);
    } else {
      FailureBalances(s, t, w);
      var next := t.(attempts := t.attempts + 1);
      assert SwapDelivered(s, t, false).swaps != {} ==> next in SwapDelivered(s, t, false).swaps;
    }
  }

  lemma FailureBalances(s: State, t: SwapTicket, w: nat)
    requires s.swaps == {t}
    ensures var s' := SwapDelivered(s, t, false);
      || (s'.swaps == {} && Probes(s'.log, w) == Probes(s.log, w))
      || (s'.swaps == {t.(attempts := t.attempts + 1)}
          && Probes(s'.log, w) == Probes(s.log, w) + if t.swap == w then 1 else 0)
  {
    hide Probes, PollSwapReadiness;
    ProbeBalances(s.(swaps := s.swaps - {t}), t.(attempts := t.attempts + 1), w);
  }

  /** Either the next probe is sent and left open, or the swap is over. */
  lemma ProbeBalances(s: State, t: SwapTicket, w: nat)
    requires s.swaps == {}
    ensures var s' := PollSwapReadiness(s, t.successor, t.port, t.attempts, t.swap);
      || (s'.swaps == {} && Probes(s'.log, w) == Probes(s.log, w))
      || (s'.swaps == {t} && Probes(s'.log, w) == Probes(s.log, w) + if t.swap == w then 1 else 0)
  {
    hide Probes;
    var told := s.log + [Terminate(t.successor)];
    SentProbes(s.log, Terminate(t.successor), w);
    SentProbes(s.log, Complete(t.swap, false), w);
    SentProbes(told, Complete(t.swap, false), w);
    SentProbes(s.log, Probe(t.swap), w);
  }

  lemma HandoverSendsNoProbe(log: seq<Entry>, backend: Option<Pid>, t: SwapTicket, w: nat)
    ensures Probes(log + Handover(backend, t), w) == Probes(log, w)
  {
    hide Probes, Completed, Attempts, LastAnnouncement, Lawful, Allowed;
    var drained := if backend.Some? then log + [Drain(backend.value)] else log;
    if backend.Some? { SentProbes(log, Drain(backend.value), w); }
    SentProbes(drained, Reset, w);
    SentProbes(drained + [Reset], Swapped(t.port), w);
    SentProbes(drained + [Reset] + [Swapped(t.port)], Complete(t.swap, true), w);
    assert log + Handover(backend, t) == drained + [Reset] + [Swapped(t.port)] + [Complete(t.swap, true)];
  }

  lemma BeginBalances(s: State, newPort: int, spawn: Spawn, w: nat)
    requires Inv(s)
    ensures var s' := BeginUpdateSwap(s, newPort, spawn);
      Probes(s'.log, w) + Open(s, w) == Probes(s.log, w) + Open(s', w)
  {
    hide Inv, Probes, PollSwapReadiness;
    NoneInFlight(s);
    SentProbes(s.log, Complete(s.nextSwap, false), w);
    var s' := BeginUpdateSwap(s, newPort, spawn);
    if !s.swapInFlight && s.backend.Some? && Running(s, s.backend.value) && spawn.Started? {
      var t := SwapTicket(|s.children|, newPort, 0, s.nextSwap);
      ProbeBalances(s.(nextSwap := s.nextSwap + 1, children := s.children + [Spawned(spawn, NoHandler)],
          swapInFlight := true), t, w);
      assert s'.swaps != {} ==> t in s'.swaps;
    }
  }

  lemma NoneInFlight(s: State)
    requires Inv(s)
    ensures s.swapInFlight <==> s.swaps != {}
  {
  }

  lemma {:induction false} ProbesAreAnswered(run: seq<State>, events: seq<Event>, n: nat, w: nat)
    requires IsRun(run, events) && n < |run|
    ensures Probes(run[n].log, w) == Answers(events[..n], w) + Open(run[n], w)
  {
    hide Step, Enabled, Inv, Probes, PollUntilReady, StartBackend;
    if n == 0 {
      var port, spawn :| run[0] == Launch(port, spawn);
      LaunchSendsNoProbe(port, spawn, w);
    } else {
      ProbesAreAnswered(run, events, n - 1, w);
      RunIsSafe(run, events, n - 1);
      assert Enabled(run[n - 1], events[n - 1]) && run[n - 1 + 1] == Step(run[n - 1], events[n - 1]);
      ProbesBalance(run[n - 1], events[n - 1], w);
      assert events[..n][..n - 1] == events[..n - 1];
    }
  }

  lemma LaunchSendsNoProbe(port: int, spawn: Spawn, w: nat)
    ensures Probes(Launch(port, spawn).log, w) == 0 && Launch(port, spawn).swaps == {}
  {
    Append([], Starting);
  }

  /**
   * However the replies fall, no swap call takes more than 31 answered probes, and the 31st at the latest
   * completes it.
   */
  lemma SwapAnsweredByThirtyFirst(run: seq<State>, events: seq<Event>, n: nat, w: nat)
    requires IsRun(run, events) && n < |run| && w < run[n].nextSwap
    ensures Answers(events[..n], w) <= MAX_RETRIES + 1
    ensures Answers(events[..n], w) == MAX_RETRIES + 1 ==> Completed(run[n].log, w)
  {
    hide IsRun, Probes, Completed;
    ProbesAreAnswered(run, events, n, w);
    SwapCallsAnsweredOnce(run, events, n, w);
  }

  // ---------------------------------------------------------------------------------------
  // The watch on exits.
  // ---------------------------------------------------------------------------------------

  /** From launch on the backend's exit is watched until an event that loses it. */
  lemma {:induction false} RunStaysWatched(run: seq<State>, events: seq<Event>, n: nat)
    requires IsRun(run, events) && n < |run|
    requires forall i :: 0 <= i < n ==> !LosesExit(run[i], events[i])
    ensures Watched(run[n])
  {
    hide Inv, Watched, LosesExit, Enabled, Step;
    if n == 0 {
      var port, spawn :| run[0] == Launch(port, spawn);
      LaunchIsWatched(port, spawn);
    } else {
      RunStaysWatched(run, events, n - 1);
      RunIsSafe(run, events, n - 1);
      assert Enabled(run[n - 1], events[n - 1]) && run[n - 1 + 1] == Step(run[n - 1], events[n - 1]);
      ExitStaysWatchedIff(run[n - 1], events[n - 1]);
    }
  }

  lemma LaunchIsWatched(port: int, spawn: Spawn)
    ensures Watched(Launch(port, spawn))
  {
  }

  // ---------------------------------------------------------------------------------------
  // Runs on which the supervisor falls short.
  // ---------------------------------------------------------------------------------------

  const ALIVE := Started(true, false)
  const POLL := PollTicket(0, 1)
  const SWAP := SwapTicket(1, 8766, 0, 0)

  /** Some run of these events from launch ends in `s`. */
  ghost predicate Reaches(events: seq<Event>, s: State) {
    exists run :: IsRun(run, events) && run[|run| - 1] == s
  }

  lemma Reached0(port: int, spawn: Spawn)
    ensures Reaches([], Launch(port, spawn))
  {
    assert IsRun([Launch(port, spawn)], []);
  }

  lemma ReachedNext(events: seq<Event>, s: State, e: Event)
    requires Reaches(events, s) && Enabled(s, e)
    ensures Reaches(events + [e], Step(s, e))
  {
    hide Enabled, Step, Launch;
    var run :| IsRun(run, events) && run[|run| - 1] == s;
    var longer := run + [Step(s, e)];
    assert IsRun(longer, events + [e]);
  }

  /** The state after launch with a daemon that started. */
  function Launched(): State {
    Launch(8765, ALIVE)
  }

  lemma LaunchedIs()
    ensures Launched() == State(Some(0), [], false, 8765, 1, 0, false, false, false,
      [Child(true, false, false, ExitPolicy, false)], {POLL}, {}, {}, 0, [Starting])
    ensures Reaches([], Launched())
  {
    Reached0(8765, ALIVE);
  }

  const BEGIN := BeginSwap(8766, ALIVE)
  const AGAIN := ManualRestart(ALIVE)

  /** A daemon told to go down by a restart is swept by nobody: quit can leave it running with no swap pending. */
  lemma RestartedChildSurvivesQuit() returns (s: State)
    ensures Reaches([AGAIN, Quit], s)
    ensures s.terminating && s.swaps == {} && Running(s, 0) && s.backend == Some(1) && s.draining == []
  {
    hide Reaches, Step, Enabled, Inv, Shutdown, Launch;
    var s1 := Restarted1();
    s := Quitting([AGAIN], s1, [AGAIN, Quit]);
    QuitLeavesRunning(s1);
  }

  lemma Restarted1() returns (s: State)
    ensures Reaches([AGAIN], s) && Inv(s) && !s.terminating && s.swaps == {}
    ensures Running(s, 0) && s.backend == Some(1) && s.draining == []
  {
    hide Reaches, Inv;
    LaunchedIs();
    s := Step(Launched(), AGAIN);
    Onward([], Launched(), AGAIN, [AGAIN]);
    InvAfterOne(Launched(), AGAIN);
  }

  /** Nor is the successor of a swap still pending. */
  lemma PendingSuccessorSurvivesQuit() returns (s: State)
    ensures Reaches([BEGIN, Quit], s)
    ensures s.terminating && Live(s, 1) && s.backend == Some(0) && !Running(s, 0) && s.draining == []
  {
    hide Reaches, Step, Enabled, Inv, Shutdown, Launch;
    var s1 := Swapping1();
    s := Quitting([BEGIN], s1, [BEGIN, Quit]);
    QuitLeavesRunning(s1);
    QuitTellsOnlyTheSweep(s1);
  }

  lemma Quitting(events: seq<Event>, s: State, longer: seq<Event>) returns (s': State)
    requires Reaches(events, s) && Inv(s) && !s.terminating && longer == events + [Quit]
    ensures s' == Shutdown(s) && Reaches(longer, s')
    ensures s'.terminating && s'.swaps == s.swaps && s'.backend == s.backend && s'.draining == s.draining
  {
    hide Reaches, Inv, Shutdown;
    Onward(events, s, Quit, longer);
    QuitKeeps(s);
    s' := Shutdown(s);
  }

  const CRASH := ChildExits(0, true)
  const HANDLER := HandlerFires(0)
  const NOTED := ExitNoted(ExitNote(0, ExitPolicy), false)

  /** The state once the termination handler has reported the first daemon's crash. */
  function Crashed1(s: State): State
    requires |s.children| > 0
  {
    s.(children := s.children[0 := Child(false, true, false, ExitPolicy, true)], backend := None, healthTimer := false,
       restartTimer := true, restartAttempts := s.restartAttempts + 1, pollGeneration := s.pollGeneration + 1,
       log := s.log + [Exit(0, true)] + [Crashed(Backoff(s.restartAttempts + 1))])
  }

  predicate Healthy(s: State) {
    && s.backend == Some(0) && |s.children| > 0 && s.children[0] == Child(true, false, false, ExitPolicy, false)
    && s.notes == {} && !s.terminating
  }

  lemma CrashRun(events: seq<Event>, s: State)
    requires Reaches(events, s) && Healthy(s)
    ensures Reaches(events + [CRASH, HANDLER, NOTED], Crashed1(s))
  {
    hide Reaches, Step, Enabled;
    var dead := s.(children := s.children[0 := Child(false, true, false, ExitPolicy, false)]);
    var fired := s.(children := s.children[0 := Child(false, true, false, ExitPolicy, true)],
                    notes := {ExitNote(0, ExitPolicy)});
    CrashSteps(s, dead, fired);
    Onward(events, s, CRASH, events + [CRASH]);
    Onward(events + [CRASH], dead, HANDLER, events + [CRASH, HANDLER]);
    Onward(events + [CRASH, HANDLER], fired, NOTED, events + [CRASH, HANDLER, NOTED]);
  }

  lemma CrashSteps(s: State, dead: State, fired: State)
    requires Healthy(s)
    requires dead == s.(children := s.children[0 := Child(false, true, false, ExitPolicy, false)])
    requires fired == s.(children := s.children[0 := Child(false, true, false, ExitPolicy, true)],
        notes := {ExitNote(0, ExitPolicy)})
    ensures Enabled(s, CRASH) && Step(s, CRASH) == dead
    ensures Enabled(dead, HANDLER) && Step(dead, HANDLER) == fired
    ensures Enabled(fired, NOTED) && Step(fired, NOTED) == Crashed1(s)
  {
    hide Backoff;
    assert dead.children[0 := fired.children[0]] == fired.children;
    assert fired.notes - {ExitNote(0, ExitPolicy)} == {};
  }

  /** A crash during a swap arms a countdown that outlives the promotion and takes the promoted daemon down. */
  lemma CountdownTakesPromotedDown() returns (s: State)
    ensures Reaches([BEGIN, CRASH, HANDLER, NOTED, ANSWER, FIRES], s)
    ensures Swapped(8766) in s.log && Terminate(1) in s.log && !Live(s, 1) && s.backend == Some(2)
  {
    hide Reaches, Step, Enabled, Launch;
    var s1 := Swapping1();
    CrashRun([BEGIN], s1);
    var s4 := Crashed1(s1);
    var s5 := Promoted1(s4);
    Onward([BEGIN] + [CRASH, HANDLER, NOTED], s4, ANSWER, [BEGIN, CRASH, HANDLER, NOTED, ANSWER]);
    s := TimerTakesDown(s5);
    Onward([BEGIN, CRASH, HANDLER, NOTED, ANSWER], s5, FIRES, [BEGIN, CRASH, HANDLER, NOTED, ANSWER, FIRES]);
  }

  const ANSWER := SwapAnswered(SWAP, true)
  const FIRES := RestartTimerFires(ALIVE)

  lemma Swapping1() returns (s: State)
    ensures Reaches([BEGIN], s) && Inv(s) && Healthy(s) && s.swaps == {SWAP} && s.swapInFlight
    ensures |s.children| == 2 && s.children[1] == Child(true, false, false, NoHandler, false) && s.draining == []
  {
    hide Reaches, Inv;
    LaunchedIs();
    s := Step(Launched(), BEGIN);
    Onward([], Launched(), BEGIN, [BEGIN]);
    InvAfterOne(Launched(), BEGIN);
  }

  lemma Promoted1(s: State) returns (s': State)
    requires s.backend.None? && s.swaps == {SWAP} && s.swapInFlight && s.restartTimer && !s.terminating
    requires |s.children| == 2 && s.children[1] == Child(true, false, false, NoHandler, false)
    ensures Enabled(s, ANSWER) && s' == Step(s, ANSWER)
    ensures s'.backend == Some(1) && s'.restartTimer && !s'.terminating
        && s'.children[..] == [s.children[0], Child(true, false, false, ExitPolicy, false)]
    ensures Swapped(8766) in s'.log
  {
    s' := Step(s, ANSWER);
    assert s'.log == s.log + [Reset] + [Swapped(8766)] + [Complete(0, true)];
  }

  lemma TimerTakesDown(s: State) returns (s': State)
    requires s.backend == Some(1) && s.restartTimer && !s.terminating && |s.children| == 2 && s.children[1].running
    requires Swapped(8766) in s.log
    ensures Enabled(s, FIRES) && s' == Step(s, FIRES)
    ensures s'.backend == Some(2) && Terminate(1) in s'.log && Swapped(8766) in s'.log && !Live(s', 1)
  {
    s' := Step(s, FIRES);
    assert s'.log == s.log + [Terminate(1)] + [Starting];
  }

  /** The countdown is announced and then cancelled: no timer, no current poll, no backend and nothing announced. */
  lemma CountdownIsCancelled() returns (s: State)
    ensures Reaches([CRASH, HANDLER, NOTED, ManualRestart(NotStarted)], s)
    ensures LastAnnouncement(s.log) == Some(Crashed(2)) && !s.restartTimer && !s.healthTimer
    ensures s.backend.None? && s.swaps == {} && s.notes == {} && forall t :: t in s.polls ==>
        t.generation != s.pollGeneration
  {
    hide Reaches, Launch;
    LaunchedIs();
    CrashRun([], Launched());
    FirstDelay();
    var s3 := Crashed1(Launched());
    s := s3.(restartTimer := false);
    Append([Starting] + [Exit(0, true)], Crashed(2));
    Onward([] + [CRASH, HANDLER, NOTED], s3, ManualRestart(NotStarted),
        [CRASH, HANDLER, NOTED, ManualRestart(NotStarted)]);
  }

  lemma FirstDelay()
    ensures Backoff(1) == 2
  {
    assert Pow2(1) == 2 * Pow2(0);
  }

  /** What the user can do; everything else happens by itself. */
  predicate ByUser(e: Event) {
    e.ManualRestart? || e.BeginSwap? || e.Quit?
  }

  const READY := PollAnswered(POLL, true)
  const FAILS := ManualRestart(NotStarted)
  const EXITS := ChildExits(0, false)

  /** A failed restart of a running daemon loses its exit: nothing that happens by itself can notice it any more. */
  lemma ExitIsLost() returns (s: State)
    ensures Reaches([READY, FAILS, EXITS], s)
    ensures LastAnnouncement(s.log) == Some(Ready) && !Watched(s) && s.backend == Some(0) && !Running(s, 0)
    ensures forall e :: Enabled(s, e) && !ByUser(e) ==>
      e == HANDLER && Step(s, e).notes == {} && Step(s, e).backend == s.backend
  {
    hide Reaches, Step, Enabled;
    LaunchedIs();
    var s1 := Launched().(polls := {}, healthTimer := true, log := [Starting] + [Ready]);
    var s2 := s1.(healthTimer := false, children := [Child(true, false, true, NoHandler, false)],
                  log := s1.log + [Terminate(0)]);
    s := s2.(children := [Child(false, false, true, NoHandler, false)]);
    LosingSteps(s1, s2, s);
    Onward([], Launched(), READY, [READY]);
    Onward([READY], s1, FAILS, [READY, FAILS]);
    Onward([READY, FAILS], s2, EXITS, [READY, FAILS, EXITS]);
    Append([Starting], Ready);
    Append(s1.log, Terminate(0));
    forall e | Enabled(s, e) && !ByUser(e) ensures e == HANDLER && Step(s, e).notes == {}
        && Step(s, e).backend == s.backend {
      NothingNotices(s, e);
    }
  }

  lemma LosingSteps(s1: State, s2: State, s3: State)
    requires s1 == Launched().(polls := {}, healthTimer := true, log := [Starting] + [Ready])
    requires s2 == s1.(healthTimer := false, children := [Child(true, false, true, NoHandler, false)],
        log := s1.log + [Terminate(0)])
    requires s3 == s2.(children := [Child(false, false, true, NoHandler, false)])
    ensures Enabled(Launched(), READY) && Step(Launched(), READY) == s1
    ensures Enabled(s1, FAILS) && Step(s1, FAILS) == s2
    ensures Enabled(s2, EXITS) && Step(s2, EXITS) == s3
  {
    LaunchedIs();
    assert {POLL} - {POLL} == {};
    assert Step(Launched(), READY).polls == {};
  }

  lemma NothingNotices(s: State, e: Event)
    requires |s.children| == 1 && s.children[0] == Child(false, false, true, NoHandler, false)
    requires s.polls == {} && s.swaps == {} && s.notes == {} && !s.healthTimer && !s.restartTimer
    requires Enabled(s, e) && !ByUser(e)
    ensures e == HANDLER && Step(s, e).notes == {} && Step(s, e).backend == s.backend
  {
  }

  lemma Onward(events: seq<Event>, s: State, e: Event, longer: seq<Event>)
    requires Reaches(events, s) && Enabled(s, e) && longer == events + [e]
    ensures Reaches(longer, Step(s, e))
  {
    hide Enabled, Step, Reaches;
    ReachedNext(events, s, e);
  }

  lemma InvAfterOne(s: State, e: Event)
    requires s == Launched() && Enabled(s, e)
    ensures Inv(Step(s, e))
  {
    hide Inv, Enabled, Step, Launch;
    LaunchEstablishes(8765, ALIVE);
    StepKeeps(s, e);
  }

  lemma QuitKeeps(s: State)
    requires Inv(s)
    ensures var s' := Shutdown(s);
      s'.terminating && s'.swaps == s.swaps && s'.backend == s.backend && s'.draining == s.draining
  {
    hide Inv, QuitSweep;
    QuitTerminates(s);
    var quitting := Emit(s.(terminating := true, restartTimer := false, healthTimer := false), QuitBegan);
    QuitSweepIs(s);
    assert forall i :: 0 <= i < |QuitSweep(s)| ==> QuitSweep(s)[i] in QuitSweep(s);
    TerminateEachTells(quitting, QuitSweep(s));
  }

  lemma QuitTellsOnlyTheSweep(s: State)
    requires Inv(s)
    ensures |Shutdown(s).children| == |s.children|
    ensures forall p: Pid :: p < |s.children| && s.backend != Some(p) && p !in s.draining ==>
        Shutdown(s).children[p] == s.children[p]
  {
    hide Inv, QuitSweep;
    var quitting := Emit(s.(terminating := true, restartTimer := false, healthTimer := false), QuitBegan);
    QuitSweepIs(s);
    assert forall i :: 0 <= i < |QuitSweep(s)| ==> QuitSweep(s)[i] in QuitSweep(s);
    TerminateEachTells(quitting, QuitSweep(s));
  }
}
