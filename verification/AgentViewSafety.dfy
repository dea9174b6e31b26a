/** What every run of Agent View keeps, whatever order its callbacks come in. */
module AgentViewSafety {
  import opened Common
  import opened AgentViewProtocol

  // ---------------------------------------------------------------------------------------
  // The invariant.
  // ---------------------------------------------------------------------------------------

  /** All that was delivered for a request while it was pending, in order. */
  function Received(chunks: seq<Chunk>, k: nat): seq<Byte> {
    if chunks == [] then []
    else
      var last := chunks[|chunks| - 1];
      Received(chunks[..|chunks| - 1], k) + if last.task == k then last.data else []
  }

  /** The table holds requests not yet answered, each with what was received for it and no more than the limit. */
  ghost predicate Table(t: Transport) {
    && (forall k :: k in t.pending ==>
          && k < |t.asked| && t.pending[k].complete == t.asked[k] && |t.pending[k].data| <= LIMIT
          && (t.pending[k].failure.None? ==> t.pending[k].data == Received(t.chunks, k)))
    && (forall i :: 0 <= i < |t.deferred| ==> t.deferred[i] < |t.asked| && t.deferred[i] !in t.pending)
    && (forall i, j :: 0 <= i < j < |t.deferred| ==> t.deferred[i] < t.deferred[j])
    && (forall i :: 0 <= i < |t.answered| ==>
          t.answered[i] < |t.asked| && t.answered[i] !in t.pending && t.answered[i] !in t.deferred)
    && (forall i, j :: 0 <= i < j < |t.answered| ==> t.answered[i] != t.answered[j])
    && (forall i :: 0 <= i < |t.chunks| ==> t.chunks[i].task < |t.asked|)
  }

  predicate Outstanding(t: Transport, k: nat) {
    k in t.pending || k in t.deferred
  }

  predicate Distinct(monitors: seq<Monitor>) {
    forall i, j :: 0 <= i < j < |monitors| ==> monitors[i].target != monitors[j].target
  }

  ghost predicate Display(s: State) {
    && (s.frame.Some? <==> s.receivedAt.Some?) && (s.frame.Some? <==> s.shown.Some?)
    && (s.frame.Some? <==> s.message == Preview)
    && (s.frame.Some? ==> s.visible && s.selected.Some?)
    && (s.selected.Some? ==> s.selected.value in s.monitors)
    && |s.monitors| <= 2 && Distinct(s.monitors)
  }

  /** The busy flag, the remembered request and the requests that could still call back. */
  ghost predicate Flight(s: State) {
    && (s.busy <==> s.request.Some?)
    && (s.request.Some? ==>
          var k := s.request.value;
          && s.visible && Outstanding(s.t, k) && k < |s.t.asked| && s.t.asked[k].ticket == s.epoch
          && match s.t.asked[k].purpose
             case List => s.frame.None?
             case Capture(m) => s.selected == Some(m))
    && (forall k :: k in s.t.pending ==> s.request == Some(k))
    && (forall i :: 0 <= i < |s.t.deferred| && s.t.deferred[i] < |s.t.asked| ==>
          s.t.asked[s.t.deferred[i]].ticket <= s.epoch
          && (s.t.asked[s.t.deferred[i]].ticket == s.epoch ==> s.request == Some(s.t.deferred[i])))
  }

  /** The frame is what the wire makes, for the selected monitor, of all that one request of this epoch received. */
  ghost predicate Sourced(s: State, w: Wire) {
    s.shown.Some? && s.selected.Some? && s.frame.Some? ==>
      var k := s.shown.value;
      && k in s.t.answered && k < |s.t.asked|
      && s.t.asked[k] == Completion(s.epoch, Capture(s.selected.value))
      && w.frame(Received(s.t.chunks, k), k, s.selected.value) == Ok(s.frame.value)
  }

  ghost predicate Inv(s: State, w: Wire) {
    Table(s.t) && Display(s) && Flight(s) && Sourced(s, w)
  }

  // ---------------------------------------------------------------------------------------
  // Every step keeps it.
  // ---------------------------------------------------------------------------------------

  lemma {:induction false} NothingReceived(chunks: seq<Chunk>, k: nat)
    requires forall i :: 0 <= i < |chunks| ==> chunks[i].task < k
    ensures Received(chunks, k) == []
  {
    if chunks != [] { NothingReceived(chunks[..|chunks| - 1], k); }
  }

  lemma ReceivedNext(chunks: seq<Chunk>, c: Chunk, k: nat)
    ensures Received(chunks + [c], k) == Received(chunks, k) + if c.task == k then c.data else []
  {
    assert (chunks + [c])[..|chunks|] == chunks;
  }

  lemma DistinctTargets(monitors: seq<Monitor>)
    requires |Targets(monitors)| == |monitors|
    ensures Distinct(monitors)
  {
    if i, j :| 0 <= i < j < |monitors| && monitors[i].target == monitors[j].target {
      var rest := monitors[..j] + monitors[j + 1..];
      assert Targets(monitors) == Targets(rest) by {
        forall m | m in monitors ensures m.target in Targets(rest) {
          var n :| 0 <= n < |monitors| && monitors[n] == m;
          if n < j { assert rest[n] == m; } else if n > j { assert rest[n - 1] == m; } else {
              assert rest[i].target == m.target; }
        }
      }
      FewTargets(rest);
    }
  }

  lemma {:induction false} FewTargets(monitors: seq<Monitor>)
    ensures |Targets(monitors)| <= |monitors|
  {
    if monitors == [] {
      assert Targets(monitors) == {};
    } else {
      FewTargets(monitors[1..]);
      assert Targets(monitors) == {monitors[0].target} + Targets(monitors[1..]);
    }
  }

  /** Only a live inventory with distinct, valid rows is taken; the two stopped states must list nothing. */
  lemma InventoryIff(l: Listing, monitors: seq<Monitor>)
    ensures Inventory(l) == Ok(monitors) <==>
      && l.items == 1 && l.brokerState.Some? && l.rows.Some? && |monitors| == |l.rows.value| <= 2
      && (forall i :: 0 <= i < |monitors| ==> l.rows.value[i] == Some(monitors[i]))
      && ((l.brokerState.value == "live" && Distinct(monitors))
          || ((l.brokerState.value == "not_started" || l.brokerState.value == "retired") && monitors == []))
  {
    if l.rows.Some? && l.brokerState == Some("live") {
      var rows := l.rows.value;
      RowsValidIff(rows, monitors);
      if Inventory(l) == Ok(monitors) { DistinctTargets(monitors); }
      if |monitors| == |rows| && Distinct(monitors) { ManyTargets(monitors); }
    }
  }

  lemma {:induction false} RowsValidIff(rows: seq<Option<Monitor>>, monitors: seq<Monitor>)
    ensures ValidRows(rows) == Some(monitors) <==>
      |monitors| == |rows| && forall i :: 0 <= i < |rows| ==> rows[i] == Some(monitors[i])
  {
    if |monitors| == |rows| && rows != [] && forall i :: 0 <= i < |rows| ==> rows[i] == Some(monitors[i]) {
      RowsValidIff(rows[1..], monitors[1..]);
      assert monitors == [monitors[0]] + monitors[1..];
    }
  }

  lemma {:induction false} ManyTargets(monitors: seq<Monitor>)
    requires Distinct(monitors)
    ensures |Targets(monitors)| == |monitors|
  {
    if monitors == [] {
      assert Targets(monitors) == {};
    } else {
      ManyTargets(monitors[1..]);
      assert monitors[0].target !in Targets(monitors[1..]);
      assert Targets(monitors) == {monitors[0].target} + Targets(monitors[1..]);
    }
  }

  /** Invalidating with the frame dropped leaves nothing in flight that could still change the view. */
  function Cleared(s: State, message: Message): State {
    Dropped(Invalidate(s)).(message := message)
  }

  lemma ClearedKeeps(s: State, w: Wire, message: Message)
    requires Inv(s, w) && message != Preview
    ensures Inv(Cleared(s, message), w) && !Cleared(s, message).busy && Cleared(s, message).t.pending == map[]
  {
    hide Received;
  }

  /** A new request for an idle, visible view. */
  function Asking(s: State, token: Option<string>, purpose: Purpose): State {
    s.(busy := true, request := Some(|s.t.asked|), t := Call(s.t, token, Completion(s.epoch, purpose)))
  }

  lemma AskingKeeps(s: State, w: Wire, token: Option<string>, purpose: Purpose)
    requires Inv(s, w) && s.visible && !s.busy
    requires match purpose case List => s.frame.None? case Capture(m) => s.selected == Some(m)
    ensures Inv(Asking(s, token, purpose), w)
  {
    hide Received;
    CallKeeps(s.t, token, Completion(s.epoch, purpose));
  }

  lemma CallKeeps(t: Transport, token: Option<string>, c: Completion)
    requires Table(t)
    ensures Table(Call(t, token, c))
  {
    hide Received;
    NothingReceived(t.chunks, |t.asked|);
  }

  lemma TickKeeps(s: State, w: Wire, now: real, token: Option<string>)
    requires Inv(s, w)
    ensures Inv(Tick(s, now, token), w)
  {
    hide Inv;
    if Tick(s, now, token) != s {
      AskingKeeps(s, w, token, Capture(s.selected.value));
    }
  }

  lemma ReloadKeeps(s: State, w: Wire, token: Option<string>)
    requires Inv(s, w)
    ensures Inv(Reload(s, token), w)
  {
    hide Inv, Call;
    if s.visible {
      var s1 := Cleared(s, Checking);
      ClearedKeeps(s, w, Checking);
      AskingKeeps(s1, w, token, List);
      assert Reload(s, token) == Asking(s1, token, List);
    }
  }

  lemma SelectKeeps(s: State, w: Wire, monitor: Option<Monitor>, now: real, token: Option<string>)
    requires Inv(s, w)
    ensures Inv(Select(s, monitor, now, token), w)
  {
    hide Table, Call, Received;
    if s.visible {
      var selected := if monitor.Some? && monitor.value in s.monitors then monitor else None;
      var message := if selected.None? then Choose else Requesting;
      var s1 := Cleared(s, message);
      ClearedKeeps(s, w, message);
      TickKeeps(s1.(selected := selected, nextRefresh := 0.0), w, now, token);
    }
  }

  lemma HideKeeps(s: State, w: Wire)
    requires Inv(s, w)
    ensures Inv(Hide(s), w) && Hide(s).t.pending == map[]
  {
    hide Received;
    ClearedKeeps(s, w, Hidden);
  }

  /** The state in which a completion runs: its request has left the table, nothing else has changed. */
  ghost predicate Completing(s: State, w: Wire, k: nat) {
    && Table(s.t) && Display(s) && Sourced(s, w)
    && k < |s.t.asked| && k in s.t.answered
    && s.t.asked[k].ticket <= s.epoch
    && if s.t.asked[k].ticket == s.epoch
       then
         && s.busy && s.request == Some(k) && s.visible && s.t.pending == map[]
         && (forall i :: 0 <= i < |s.t.deferred| && s.t.deferred[i] < |s.t.asked| ==>
             s.t.asked[s.t.deferred[i]].ticket < s.epoch)
         && match s.t.asked[k].purpose
            case List => s.frame.None?
            case Capture(m) => s.selected == Some(m)
       else Flight(s)
  }

  lemma ListedKeeps(s: State, w: Wire, k: nat, r: Result<seq<Monitor>, Failure>, now: real, token: Option<string>)
    requires Completing(s, w, k) && s.t.asked[k].purpose == List
    requires r.Ok? ==> |r.value| <= 2 && Distinct(r.value)
    ensures Inv(Listed(s, s.t.asked[k].ticket, r, now, token), w)
  {
    hide Table, Received, Tick;
    if s.t.asked[k].ticket == s.epoch {
      var idle := s.(busy := false, request := None);
      var s1 := match r
        case Ok(monitors) =>
          idle.(monitors := monitors,
                selected := if s.selected.Some? && s.selected.value !in monitors then None else s.selected,
                message := if monitors == [] then NoDisplays else Choose,
                nextRefresh := 0.0)
        case Err(error) => idle.(message := Problem(error), monitors := [], selected := None);
      assert Inv(s1, w) by { hide Distinct; Nobody(); }
      TickKeeps(s1, w, now, token);
    }
  }

  lemma Nobody()
    ensures Distinct([])
  {
  }

  lemma CapturedKeeps(s: State, w: Wire, k: nat, reply: Result<seq<Byte>, Failure>, now: real, later: real)
    requires Completing(s, w, k) && s.t.asked[k].purpose.Capture?
    requires reply.Ok? ==> reply.value == Received(s.t.chunks, k)
    ensures var c := s.t.asked[k];
      Inv(Captured(s, c.ticket, c.purpose.monitor, k, FrameOf(w, reply, k, c.purpose.monitor), now, later), w)
  {
    hide Table, Received, Distinct;
  }

  lemma CompletedKeeps(s: State, w: Wire, k: nat, reply: Result<seq<Byte>, Failure>, now: real, later: real,
      token: Option<string>)
    requires k < |s.t.asked| && Completing(s, w, k)
    requires reply.Ok? ==> reply.value == Received(s.t.chunks, k)
    ensures Inv(Completed(s, w, s.t.asked[k], k, reply, now, later, token), w)
  {
    hide Completing, Inv, Received;
    match s.t.asked[k].purpose
    case List =>
      var r := MonitorsOf(w, reply, k);
      if r.Ok? { InventoryIff(w.listing(reply.value, k).value, r.value); }
      assert r.Ok? ==> |r.value| <= 2 && Distinct(r.value) by { hide Listed; Nobody(); }
      ListedKeeps(s, w, k, r, now, token);
    case Capture(_) =>
      CapturedKeeps(s, w, k, reply, now, later);
  }

  lemma DidCompleteKeeps(s: State, w: Wire, k: nat, error: bool, now: real, later: real, token: Option<string>)
    requires Inv(s, w)
    ensures Inv(DidComplete(s, w, k, error, now, later, token), w)
  {
    hide Received, Completed, Distinct;
    if k in s.t.pending {
      var s1 := s.(t := Remove(s.t, k));
      assert Completing(s1, w, k);
      CompletedKeeps(s1, w, k, ReplyOf(s.t.pending[k], error), now, later, token);
    }
  }

  lemma RefuseKeeps(s: State, w: Wire, now: real, later: real, token: Option<string>)
    requires Inv(s, w)
    ensures Inv(Refuse(s, w, now, later, token), w)
  {
    hide Received, Completed, Distinct;
    if s.t.deferred != [] {
      var k := s.t.deferred[0];
      var s1 := s.(t := s.t.(deferred := s.t.deferred[1..], answered := s.t.answered + [k]));
      assert Completing(s1, w, k);
      CompletedKeeps(s1, w, k, Err(NoPermission), now, later, token);
    }
  }

  /** The session's other callbacks change nothing but the row of their own task. */
  ghost predicate SameFlight(t: Transport, t': Transport) {
    && t'.pending.Keys == t.pending.Keys && t'.deferred == t.deferred && t'.asked == t.asked
        && t'.answered == t.answered
    && forall k :: k in t.answered ==> Received(t'.chunks, k) == Received(t.chunks, k)
  }

  lemma SameFlightKeeps(s: State, w: Wire, t': Transport)
    requires Inv(s, w) && Table(t') && SameFlight(s.t, t')
    ensures Inv(s.(t := t'), w)
  {
    hide Table, Received, Distinct;
  }

  lemma FailKeeps(t: Transport, k: nat, failure: Failure)
    requires Table(t)
    ensures Table(Fail(t, k, failure)) && SameFlight(t, Fail(t, k, failure))
  {
    hide Received;
  }

  lemma DataKeeps(t: Transport, k: nat, data: seq<Byte>)
    requires Table(t)
    ensures Table(DidReceiveData(t, k, data)) && SameFlight(t, DidReceiveData(t, k, data))
  {
    hide Received;
    if k in t.pending {
      var t' := DidReceiveData(t, k, data);
      forall n: nat | n < |t.asked| ensures Received(t'.chunks, n) == Received(t.chunks,
          n) + if n == k then data else [] {
        ReceivedNext(t.chunks, Chunk(k, data), n);
      }
      forall n: nat | n in t.answered ensures Received(t'.chunks, n) == Received(t.chunks, n) {
        assert n != k && n < |t.asked|;
      }
    }
  }

  lemma StepKeeps(s: State, w: Wire, e: Event)
    requires Inv(s, w)
    ensures Inv(Step(s, w, e), w)
  {
    hide Display, Flight, Sourced, Table, SameFlight, Reload, Hide, Select, Tick, DidComplete, Refuse, Fail,
        DidReceiveData;
    match e
    case Shown(token) =>
      ShowKeeps(s, w, token);
    case HiddenByUser => HideKeeps(s, w);
    case Reloaded(token) => ReloadKeeps(s, w, token);
    case Selected(monitor, now, token) => SelectKeeps(s, w, monitor, now, token);
    case Ticked(now, token) => TickKeeps(s, w, now, token);
    case Responded(k, status, _) =>
      var failure := if status == Some(401) || status == Some(403) then NoPermission else Unavailable;
      FailKeeps(s.t, k, failure);
      SameFlightKeeps(s, w, Fail(s.t, k, failure));
    case Delivered(k, data) =>
      DataKeeps(s.t, k, data);
      SameFlightKeeps(s, w, DidReceiveData(s.t, k, data));
    case Redirect(k) =>
      FailKeeps(s.t, k, Unavailable);
      SameFlightKeeps(s, w, Fail(s.t, k, Unavailable));
    case Finished(k, error, now, later, token) => DidCompleteKeeps(s, w, k, error, now, later, token);
    case QueueTurn(now, later, token) => RefuseKeeps(s, w, now, later, token);
    case ShutDown =>
      HideKeeps(s, w);
      assert Shutdown(s) == Hide(s);
  }

  lemma ShowKeeps(s: State, w: Wire, token: Option<string>)
    requires Inv(s, w)
    ensures Inv(Show(s, token), w)
  {
    hide Received, Reload, Distinct;
    assert Inv(s.(visible := true), w);
    ReloadKeeps(s.(visible := true), w, token);
  }

  lemma {:induction false} RunIsSafe(run: seq<State>, w: Wire, events: seq<Event>, n: nat)
    requires IsRun(run, w, events) && n < |run|
    ensures Inv(run[n], w)
  {
    hide Inv, Step;
    if n == 0 {
      assert Inv(Initial(), w) by { hide IsRun; InitialIsSafe(w); }
    } else {
      RunIsSafe(run, w, events, n - 1);
      StepKeeps(run[n - 1], w, events[n - 1]);
    }
  }

  lemma InitialIsSafe(w: Wire)
    ensures Inv(Initial(), w)
  {
  }

  // ---------------------------------------------------------------------------------------
  // What it means.
  // ---------------------------------------------------------------------------------------

  /** A request that could still call back with the current epoch. */
  predicate Current(s: State, k: nat) {
    Outstanding(s.t, k) && k < |s.t.asked| && s.t.asked[k].ticket == s.epoch
  }

  /** The view is busy exactly when one request carrying the current epoch is outstanding, and never when two are. */
  lemma BusyIffOneIsOutstanding(run: seq<State>, w: Wire, events: seq<Event>, n: nat)
    requires IsRun(run, w, events) && n < |run|
    ensures run[n].busy <==> exists k: nat :: Current(run[n], k)
    ensures forall j: nat, k: nat :: Current(run[n], j) && Current(run[n], k) ==> j == k
    ensures |run[n].t.pending| <= 1
  {
    hide IsRun, Display, Sourced;
    RunIsSafe(run, w, events, n);
    var s := run[n];
    if s.busy {
      assert Current(s, s.request.value);
    }
    forall k: nat | Current(s, k) ensures s.request == Some(k) {
      if k in s.t.deferred {
        var i :| 0 <= i < |s.t.deferred| && s.t.deferred[i] == k;
      }
    }
    if s.t.pending != map[] {
      assert s.t.pending.Keys == {s.request.value};
      assert |s.t.pending| == |s.t.pending.Keys|;
    }
  }

  /**
   * A frame on display: the view is visible, the message says so, and the frame is what one request, made in
   * this epoch for the monitor that is selected now and is the only one listed under its target, received in full.
   */
  lemma FrameIsTheSelectedMonitors(run: seq<State>, w: Wire, events: seq<Event>, n: nat)
    requires IsRun(run, w, events) && n < |run|
    ensures var s := run[n];
      && (s.frame.Some? <==> s.receivedAt.Some?) && (s.frame.Some? <==> s.message == Preview)
      && (s.selected.Some? ==> s.selected.value in s.monitors)
      && (s.frame.Some? ==>
            && s.visible && s.selected.Some?
            && (forall m :: m in s.monitors && m.target == s.selected.value.target ==> m == s.selected.value)
            && exists k: nat ::
                 && k < |s.t.asked| && k in s.t.answered
                     && s.t.asked[k] == Completion(s.epoch, Capture(s.selected.value))
                 && w.frame(Received(s.t.chunks, k), k, s.selected.value) == Ok(s.frame.value))
  {
    hide IsRun, Table, Flight;
    RunIsSafe(run, w, events, n);
  }

  /** However callbacks are repeated or cancelled, no request's completion runs twice. */
  lemma AnsweredAtMostOnce(run: seq<State>, w: Wire, events: seq<Event>, n: nat, i: nat, j: nat)
    requires IsRun(run, w, events) && n < |run| && i < j < |run[n].t.answered|
    ensures run[n].t.answered[i] != run[n].t.answered[j]
    ensures run[n].t.answered[i] < |run[n].t.asked| && !Outstanding(run[n].t, run[n].t.answered[i])
  {
    hide IsRun, Display, Flight, Sourced;
    RunIsSafe(run, w, events, n);
  }

  /**
   * A success carries all the chunks received for its request, in order, at most 32 MiB, and no failure was
   * recorded.
   */
  lemma SuccessCarriesWhatWasReceived(run: seq<State>, w: Wire, events: seq<Event>, n: nat, k: nat, error: bool)
    requires IsRun(run, w, events) && n < |run| && k in run[n].t.pending
    ensures var row := run[n].t.pending[k];
      && |row.data| <= LIMIT
      && (ReplyOf(row, error).Ok? <==> row.failure.None? && !error)
      && (ReplyOf(row, error).Ok? ==> ReplyOf(row, error).value == Received(run[n].t.chunks, k))
  {
    hide IsRun, Display, Flight, Sourced;
    RunIsSafe(run, w, events, n);
  }

  /** A completion from an earlier epoch, or one for a hidden view, changes nothing the user can see. */
  lemma StaleCompletionIsIgnored(s: State, w: Wire, c: Completion, k: nat, reply: Result<seq<Byte>, Failure>,
      now: real, later: real, token: Option<string>)
    ensures c.ticket != s.epoch || !s.visible ==> Completed(s, w, c, k, reply, now, later, token) == s
  {
  }

  /**
   * A completion that comes from the table is never stale: it is for the visible view, this epoch and, if a
   * capture, the selected monitor, so its outcome is always taken. Only refusals can arrive too late.
   */
  lemma CaptureOutcomeIsShown(s: State, w: Wire, k: nat, error: bool, now: real, later: real, token: Option<string>)
    requires Inv(s, w) && k in s.t.pending && s.t.pending[k].complete.purpose.Capture?
    ensures var monitor := s.t.pending[k].complete.purpose.monitor;
      var s' := DidComplete(s, w, k, error, now, later, token);
      && s.visible && s.selected == Some(monitor) && !s'.busy && s'.t == Remove(s.t, k)
      && match FrameOf(w, ReplyOf(s.t.pending[k], error), k, monitor)
         case Ok(frame) => s'.frame == Some(frame) && s'.receivedAt == Some(now) && s'.nextRefresh == later + 2.0
         case Err(e) => s'.frame.None? && s'.message == Problem(e) && s'.nextRefresh == now + 5.0
  {
    hide Display, Sourced, FrameOf, ReplyOf, Received;
    assert s.request == Some(k);
  }

  /** An inventory's outcome likewise; a selection still listed is captured at once, one no longer listed is dropped. */
  lemma InventoryOutcomeIsTaken(s: State, w: Wire, k: nat, error: bool, now: real, later: real, token: Option<string>)
    requires Inv(s, w) && k in s.t.pending && s.t.pending[k].complete.purpose.List? && now >= 0.0
    ensures var s' := DidComplete(s, w, k, error, now, later, token);
      s.visible && s'.frame.None? &&
      match MonitorsOf(w, ReplyOf(s.t.pending[k], error), k)
      case Ok(monitors) =>
        && s'.monitors == monitors
        && (s.selected.Some? && s.selected.value in monitors ==>
              && s'.selected == s.selected && s'.busy
              && s'.t.asked == s.t.asked + [Completion(s.epoch, Capture(s.selected.value))])
        && (s.selected.None? || s.selected.value !in monitors ==>
              s'.selected.None? && !s'.busy && s'.t.asked == s.t.asked)
      case Err(e) => s'.monitors == [] && s'.selected.None? && s'.message == Problem(e) && !s'.busy
  {
    hide Display, Sourced, MonitorsOf, ReplyOf, Received;
    assert s.request == Some(k);
  }

  /** While hidden the view shows nothing, has no connection open and asks for nothing until it is shown again. */
  lemma HiddenDoesNothing(run: seq<State>, w: Wire, events: seq<Event>, n: nat)
    requires IsRun(run, w, events) && n < |events| && !run[n].visible
    ensures run[n].frame.None? && !run[n].busy && run[n].t.pending == map[]
    ensures !events[n].Shown? ==> run[n + 1].t.asked == run[n].t.asked && !run[n + 1].visible
  {
    hide Inv;
    RunIsSafe(run, w, events, n);
    assert run[n + 1] == Step(run[n], w, events[n]);
    HiddenIsIdle(run[n], w);
    if !events[n].Shown? { HiddenStays(run[n], w, events[n]); }
  }

  lemma HiddenIsIdle(s: State, w: Wire)
    requires Inv(s, w) && !s.visible
    ensures s.frame.None? && !s.busy && s.t.pending == map[]
  {
    hide Table, Sourced;
  }

  lemma HiddenStays(s: State, w: Wire, e: Event)
    requires !s.visible && s.t.pending == map[] && !e.Shown?
    ensures Step(s, w, e).t.asked == s.t.asked && !Step(s, w, e).visible
  {
    hide Completed;
    if e.QueueTurn? && s.t.deferred != [] && s.t.deferred[0] < |s.t.asked| {
      var k := s.t.deferred[0];
      var t := s.t.(deferred := s.t.deferred[1..], answered := s.t.answered + [k]);
      StaleCompletionIsIgnored(s.(t := t), w, s.t.asked[k], k, Err(NoPermission), e.now, e.later, e.token);
    }
  }

  lemma ActionsOnlyAsk(s: State, monitor: Option<Monitor>, now: real, token: Option<string>)
    ensures s.t.deferred <= Reload(s, token).t.deferred && s.t.deferred <= Select(s, monitor, now, token).t.deferred
    ensures s.t.deferred <= Tick(s, now, token).t.deferred
  {
  }

  lemma CompletionsOnlyAsk(s: State, w: Wire, c: Completion, k: nat, reply: Result<seq<Byte>, Failure>, now: real,
      later: real, token: Option<string>)
    ensures var s1 := Completed(s, w, c, k, reply, now, later, token);
      s.t.deferred <= s1.t.deferred && s1.t.answered == s.t.answered
  {
    hide MonitorsOf, FrameOf;
  }

  /** Cancelling does not reach a refused request: only the main queue's turn takes it off, and runs its completion. */
  lemma RefusalsAreStillAnswered(run: seq<State>, w: Wire, events: seq<Event>, n: nat)
    requires IsRun(run, w, events) && n < |events|
    ensures !events[n].QueueTurn? ==> run[n].t.deferred <= run[n + 1].t.deferred
    ensures events[n].QueueTurn? && run[n].t.deferred != [] ==>
      && run[n + 1].t.answered == run[n].t.answered + [run[n].t.deferred[0]]
      && run[n].t.deferred[1..] <= run[n + 1].t.deferred
  {
    hide Display, Flight, Sourced, Completed, Select, Tick, Reload;
    RunIsSafe(run, w, events, n);
    var s, e := run[n], events[n];
    assert run[n + 1] == Step(s, w, e);
    match e
    case Shown(token) => ActionsOnlyAsk(s.(visible := true), None, 0.0, token);
    case Reloaded(token) => ActionsOnlyAsk(s, None, 0.0, token);
    case Selected(m, now, token) => ActionsOnlyAsk(s, m, now, token);
    case Ticked(now, token) => ActionsOnlyAsk(s, None, now, token);
    case Finished(k, error, now, later, token) =>
      if k in s.t.pending {
        var row := s.t.pending[k];
        CompletionsOnlyAsk(s.(t := Remove(s.t, k)), w, row.complete, k, ReplyOf(row, error), now, later, token);
      }
    case QueueTurn(now, later, token) =>
      if s.t.deferred != [] {
        var k := s.t.deferred[0];
        var t := s.t.(deferred := s.t.deferred[1..], answered := s.t.answered + [k]);
        CompletionsOnlyAsk(s.(t := t), w, s.t.asked[k], k, Err(NoPermission), now, later, token);
      }
    case _ =>
  }

  /** So a refusal can still arrive for a view that has been hidden since, and must not count as its own. */
  lemma RefusalArrivesAfterHide(w: Wire, now: real, later: real)
    ensures var hidden := Hide(Show(Initial(), None));
      && hidden.t.deferred == [0] && hidden.t.asked[0].ticket < hidden.epoch
      && Refuse(hidden, w, now, later, None) == hidden.(t := hidden.t.(deferred := [], answered := [0]))
  {
    var hidden := Hide(Show(Initial(), None));
    assert hidden.t.asked == [Completion(1, List)] && hidden.t.deferred == [0] && hidden.epoch == 2;
  }
}
