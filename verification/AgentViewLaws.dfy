/**
 * What each event of Agent View does, said of the steps of `macos-app/AgentViewModel.swift` in their results alone:
 * which request goes out, for which monitor and when, and what the user is shown for each way a request can end.
 */
module AgentViewLaws {
  import opened Common
  import opened AgentViewProtocol
  import opened AgentViewSafety

  // ---------------------------------------------------------------------------------------
  // Requests.
  // ---------------------------------------------------------------------------------------

  predicate HasToken(token: Option<string>) { token.Some? && token.value != "" }

  /**
   * Exactly one request goes out, under the epoch of the new state, and nothing else can still be received. Without
   * a token it waits in the main queue to be refused.
   */
  predicate Asks(s: State, s': State, token: Option<string>, purpose: Purpose) {
    var k, c := |s.t.asked|, Completion(s'.epoch, purpose);
    && s'.t.asked == s.t.asked + [c] && s'.busy && s'.request == Some(k)
    && s'.t.answered == s.t.answered && s'.t.chunks == s.t.chunks
    && s'.t.pending == (if HasToken(token) then map[k := Pending([], None, c)] else map[])
    && s'.t.deferred == s.t.deferred + if HasToken(token) then [] else [k]
  }

  /** No request goes out and none is in flight. */
  predicate AsksNothing(s: State, s': State) {
    && s'.t == s.t.(pending := map[]) && !s'.busy && s'.request.None?
  }

  predicate Blank(s: State, message: Message) {
    s.frame.None? && s.receivedAt.None? && s.message == message
  }

  /**
   * The monitor asked for is the one selected if it is listed, and then the only request out is for its capture,
   * under a new epoch; anything else leaves no selection and no request. A hidden view ignores the choice.
   */
  lemma SelectionIsHonoured(s: State, w: Wire, m: Option<Monitor>, now: real, token: Option<string>)
    requires Inv(s, w)
    ensures var s' := Step(s, w, Selected(m, now, token));
      && (!s.visible ==> s' == s)
      && (s.visible ==>
            && s'.visible && s'.epoch == s.epoch + 1 && s'.monitors == s.monitors
            && (m.Some? && m.value in s.monitors ==>
                  && s'.selected == m && Blank(s', Requesting)
                  && (now >= 0.0 ==> Asks(s, s', token, Capture(m.value)))
                  && (now < 0.0 ==> AsksNothing(s, s')))
            && (m.None? || m.value !in s.monitors ==>
                  s'.selected.None? && Blank(s', Choose) && AsksNothing(s, s')))
  {
    hide Received, Table, Display, Sourced;
  }

  /** Showing or reloading asks for the list once, under a new epoch, with list and selection kept until it comes. */
  lemma ReloadAsksForTheList(s: State, w: Wire, token: Option<string>)
    requires Inv(s, w)
    ensures var s' := Step(s, w, Shown(token));
      && s'.visible && Asks(s, s', token, List) && Blank(s', Checking)
      && s'.epoch == s.epoch + 1 && s'.monitors == s.monitors && s'.selected == s.selected
    ensures Step(s, w, Reloaded(token)) == if s.visible then Step(s, w, Shown(token)) else s
  {
    hide Received, Table, Display, Sourced;
    assert s.visible ==> s.(visible := true) == s;
  }

  /** Hiding, and shutting down, end everything in flight and keep list and selection for the next show. */
  lemma HidingEndsEverything(s: State, w: Wire, e: Event)
    requires Inv(s, w) && (e.HiddenByUser? || e.ShutDown?)
    ensures var s' := Step(s, w, e);
      && !s'.visible && AsksNothing(s, s') && Blank(s', Hidden)
      && s'.epoch == s.epoch + 1 && s'.monitors == s.monitors && s'.selected == s.selected
  {
    hide Received, Table, Display, Sourced;
  }

  /** A tick either asks for one capture of the selection in the same epoch or changes nothing at all. */
  lemma TickAsksOrWaits(s: State, w: Wire, now: real, token: Option<string>)
    requires Inv(s, w)
    ensures var s' := Step(s, w, Ticked(now, token));
      && (s' == s <==> !s.visible || s.busy || s.selected.None? || now < s.nextRefresh)
      && (s' != s ==>
            && s.selected.Some? && Asks(s, s', token, Capture(s.selected.value))
            && s == s'.(t := s.t, busy := s.busy, request := s.request))
  {
    hide Received, Table, Display, Sourced;
  }

  // ---------------------------------------------------------------------------------------
  // Pacing.
  // ---------------------------------------------------------------------------------------

  /** Nothing in these can move the view: early ticks, and the session's callbacks short of a completion. */
  predicate Quiet(e: Event, due: real) {
    (e.Ticked? && e.now < due) || e.Responded? || e.Delivered? || e.Redirect?
  }

  ghost predicate Follows(run: seq<State>, w: Wire, events: seq<Event>) {
    |run| == |events| + 1 && forall i :: 0 <= i < |events| ==> run[i + 1] == Step(run[i], w, events[i])
  }

  /**
   * After a capture ends, the view keeps what it shows and asks for nothing until the first tick that reads two
   * seconds or more after a frame's second clock reading, or five after a failure; and that tick asks for the
   * next capture of the same monitor in the same epoch, with the frame still on display.
   */
  lemma {:induction false} RefreshIsPaced(s: State, w: Wire, k: nat, error: bool, now: real, later: real,
      token: Option<string>, run: seq<State>, events: seq<Event>, tick: real, token': Option<string>)
    requires Inv(s, w) && k in s.t.pending && s.t.pending[k].complete.purpose.Capture?
    requires Follows(run, w, events) && run[0] == Step(s, w, Finished(k, error, now, later, token))
    requires var due := if run[0].frame.Some? then later + 2.0 else now + 5.0;
      tick >= due && forall i :: 0 <= i < |events| ==> Quiet(events[i], due)
    ensures forall i :: 0 <= i < |run| ==> run[i] == run[0]
    ensures run[0].selected == s.selected && run[0].selected.Some? && run[0].epoch == s.epoch
    ensures run[0].t.asked == s.t.asked
    ensures var s' := Step(run[|events|], w, Ticked(tick, token'));
      && Asks(run[0], s', token', Capture(s.selected.value)) && s'.epoch == s.epoch
      && s'.frame == run[0].frame && s'.message == run[0].message
  {
    hide Step, Received;
    var due := if run[0].frame.Some? then later + 2.0 else now + 5.0;
    CaptureEnds(s, w, k, error, now, later, token);
    forall i | 0 <= i < |run| ensures run[i] == run[0] { StaysQuiet(run, w, events, due, i); }
    StepKeeps(s, w, Finished(k, error, now, later, token));
    TickAsksOrWaits(run[0], w, tick, token');
  }

  lemma CaptureEnds(s: State, w: Wire, k: nat, error: bool, now: real, later: real, token: Option<string>)
    requires Inv(s, w) && k in s.t.pending && s.t.pending[k].complete.purpose.Capture?
    ensures var s1 := Step(s, w, Finished(k, error, now, later, token));
      && s1.visible && !s1.busy && s1.selected == s.selected && s1.selected.Some? && s1.epoch == s.epoch
      && s1.t.pending == map[] && s1.t.asked == s.t.asked
      && s1.nextRefresh == if s1.frame.Some? then later + 2.0 else now + 5.0
  {
    hide Received, Display, Sourced, FrameOf, ReplyOf;
    assert s.request == Some(k);
  }

  lemma {:induction false} StaysQuiet(run: seq<State>, w: Wire, events: seq<Event>, due: real, i: nat)
    requires Follows(run, w, events) && i < |run| && run[0].t.pending == map[] && run[0].nextRefresh == due
    requires forall j :: 0 <= j < |events| ==> Quiet(events[j], due)
    ensures run[i] == run[0]
  {
    if i > 0 {
      StaysQuiet(run, w, events, due, i - 1);
      assert run[i] == Step(run[i - 1], w, events[i - 1]) && Quiet(events[i - 1], due);
    }
  }

  // ---------------------------------------------------------------------------------------
  // How requests end.
  // ---------------------------------------------------------------------------------------

  /** The user sees the failure and nothing else, with no request out. */
  predicate Fails(s: State, s': State, f: Failure) {
    Blank(s', Problem(f)) && !s'.busy && s'.request.None? && s'.t.asked == s.t.asked
  }

  /** What the row of a request comes to when its connection ends. */
  lemma FinishedFailing(s: State, w: Wire, k: nat, error: bool, now: real, later: real, token: Option<string>)
    requires Inv(s, w) && k in s.t.pending && (s.t.pending[k].failure.Some? || error)
    ensures Fails(s, Step(s, w, Finished(k, error, now, later, token)),
                  if s.t.pending[k].failure.Some? then s.t.pending[k].failure.value else Unavailable)
  {
    hide Received, Sourced;
    assert s.request == Some(k);
  }

  /**
   * Whatever a pending request was for, the user is told why it failed: no permission for status 401 or 403;
   * unavailable for any other status but 200, a body announced longer than 32 MiB, a redirect or a broken
   * connection; too large for a body that grows past 32 MiB.
   */
  lemma FailureReachesTheUser(s: State, w: Wire, e: Event, k: nat, f: Failure, error: bool, now: real, later: real,
      token: Option<string>)
    requires Inv(s, w) && k in s.t.pending
    requires match e
      case Responded(n, status, length) =>
        && n == k && (status != Some(200) || length > LIMIT)
        && f == if status in {Some(401), Some(403)} then NoPermission else Unavailable
      case Delivered(n, data) => n == k && |s.t.pending[k].data| + |data| > LIMIT && f == ImageTooLarge
      case Redirect(n) => n == k && f == Unavailable
      case _ => false
    ensures Fails(s, Step(Step(s, w, e), w, Finished(k, error, now, later, token)), f)
  {
    hide Inv, Received;
    StepKeeps(s, w, e);
    FinishedFailing(Step(s, w, e), w, k, error, now, later, token);
  }

  /** A refused request of this epoch ends as a permission failure when its turn comes. */
  lemma RefusalIsShown(s: State, w: Wire, now: real, later: real, token: Option<string>)
    requires Inv(s, w) && s.t.deferred != [] && s.request == Some(s.t.deferred[0])
    ensures Fails(s, Step(s, w, QueueTurn(now, later, token)), NoPermission)
  {
    hide Received, Sourced;
  }

  /** An acceptable head, and data within the limit, record no failure; the data is appended to its own row alone. */
  lemma BodyIsGathered(s: State, w: Wire, k: nat, length: int, data: seq<Byte>)
    requires length <= LIMIT && k in s.t.pending && |s.t.pending[k].data| + |data| <= LIMIT
    ensures Step(s, w, Responded(k, Some(200), length)) == s
    ensures var s', row := Step(s, w, Delivered(k, data)), s.t.pending[k];
      && s'.t.pending == s.t.pending[k := row.(data := row.data + data)]
      && s'.t.chunks == s.t.chunks + [Chunk(k, data)]
      && s' == s.(t := s.t.(pending := s'.t.pending, chunks := s'.t.chunks))
  {
  }

  /** A callback for a request that is not in the table changes nothing. */
  lemma StrangersAreIgnored(s: State, w: Wire, e: Event, k: nat)
    requires k !in s.t.pending
    requires match e
      case Responded(n, _, _) => n == k
      case Delivered(n, _) => n == k
      case Redirect(n) => n == k
      case Finished(n, _, _, _, _) => n == k
      case _ => false
    ensures Step(s, w, e) == s
  {
  }

  /** A frame comes exactly of a reply that the wire format makes it of, for that request and that monitor. */
  lemma FrameIff(w: Wire, row: Pending, error: bool, k: nat, monitor: Monitor, frame: Frame)
    ensures FrameOf(w, ReplyOf(row, error), k, monitor) == Ok(frame) <==>
      row.failure.None? && !error && w.frame(row.data, k, monitor) == Ok(frame)
    ensures row.failure.None? && !error && w.frame(row.data, k, monitor).Err? ==>
      FrameOf(w, ReplyOf(row, error), k, monitor) == w.frame(row.data, k, monitor)
  {
  }

  /** A list comes exactly of a reply whose inventory is acceptable; the user is told whether it is empty. */
  lemma ListIff(s: State, w: Wire, k: nat, error: bool, monitors: seq<Monitor>, now: real, later: real,
      token: Option<string>)
    requires Inv(s, w) && k in s.t.pending && s.t.pending[k].complete.purpose.List?
    ensures var row, s' := s.t.pending[k], Step(s, w, Finished(k, error, now, later, token));
      && (s'.monitors == monitors && !s'.message.Problem? <==>
            && row.failure.None? && !error && w.listing(row.data, k).Ok?
            && Inventory(w.listing(row.data, k).value) == Ok(monitors))
      && (!s'.message.Problem? ==> s'.message == if s'.monitors == [] then NoDisplays else Choose)
      && (row.failure.None? && !error ==>
            && (w.listing(row.data, k).Err? ==> Fails(s, s', w.listing(row.data, k).error))
            && (w.listing(row.data, k).Ok? && Inventory(w.listing(row.data, k).value).Err? ==>
                  Fails(s, s', Inventory(w.listing(row.data, k).value).error)))
  {
    hide Received, Sourced, Inventory;
    assert s.request == Some(k);
  }

  /** The broker is unavailable exactly when it says so in a well-formed reply; every other refusal is of the reply. */
  lemma UnavailableIff(l: Listing)
    ensures Inventory(l) == Err(Unavailable) <==>
      && l.items == 1 && l.rows.Some? && |l.rows.value| <= 2
      && l.brokerState.Some? && l.brokerState.value !in ["live", "not_started", "retired"]
    ensures Inventory(l).Err? ==> Inventory(l).error in {Unavailable, InvalidReply}
  {
  }
}
