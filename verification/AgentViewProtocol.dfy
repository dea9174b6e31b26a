/**
 * Agent View: the request state machine of `macos-app/AgentViewModel.swift` over the pending-request
 * table of `macos-app/AgentViewTransport.swift`, one function per function of the source. Completion
 * closures are the values they capture; the k-th request made has number k.
 */
module AgentViewProtocol {
  import opened Common

  const LIMIT: nat := 32 * 1024 * 1024

  datatype Failure = Unavailable | InvalidReply | ImageTooLarge | NoPermission

  datatype Monitor = Monitor(target: string, id: nat, width: nat, height: nat)

  datatype Frame = Frame(png: seq<Byte>, capturedAt: string)

  datatype Message = Choose | Hidden | Checking | NoDisplays | Requesting | Preview | Problem(error: Failure)

  // ---------------------------------------------------------------------------------------
  // The wire vocabulary, after JSON.
  // ---------------------------------------------------------------------------------------

  /** An inventory reply: number of content items, broker state, and each row's monitor if the row is valid. */
  datatype Listing = Listing(items: nat, brokerState: Option<string>, rows: Option<seq<Option<Monitor>>>)

  /** What the replies parse to: fixed functions of a body and the number (the id) of its request. */
  datatype Wire = Wire(listing: (seq<Byte>, nat) -> Result<Listing, Failure>,
                       frame: (seq<Byte>, nat, Monitor) -> Result<Frame, Failure>)

  function ValidRows(rows: seq<Option<Monitor>>): (monitors: Option<seq<Monitor>>)
    ensures monitors.Some? ==> |monitors.value| == |rows| && forall i :: 0 <= i < |rows| ==>
        rows[i] == Some(monitors.value[i])
  {
    if rows == [] then Some([])
    else
      var more := ValidRows(rows[1..]);
      if rows[0].None? || more.None? then None else Some([rows[0].value] + more.value)
  }

  function Targets(monitors: seq<Monitor>): set<string> {
    set m | m in monitors :: m.target
  }

  function Inventory(l: Listing): (r: Result<seq<Monitor>, Failure>)
    ensures r.Ok? ==> |r.value| <= 2
  {
    if l.items != 1 || l.brokerState.None? || l.rows.None? || |l.rows.value| > 2 then Err(InvalidReply)
    else if l.brokerState.value == "not_started" || l.brokerState.value == "retired" then
      if l.rows.value == [] then Ok([]) else Err(InvalidReply)
    else if l.brokerState.value != "live" then Err(Unavailable)
    else
      var monitors := ValidRows(l.rows.value);
      if monitors.None? || |Targets(monitors.value)| != |monitors.value| then Err(InvalidReply) else Ok(monitors.value)
  }

  function MonitorsOf(w: Wire, reply: Result<seq<Byte>, Failure>, k: nat): Result<seq<Monitor>, Failure> {
    if reply.Err? then Err(reply.error)
    else
      var listing := w.listing(reply.value, k);
      if listing.Err? then Err(listing.error) else Inventory(listing.value)
  }

  function FrameOf(w: Wire, reply: Result<seq<Byte>, Failure>, k: nat, monitor: Monitor): Result<Frame, Failure> {
    if reply.Err? then Err(reply.error) else w.frame(reply.value, k, monitor)
  }

  // ---------------------------------------------------------------------------------------
  // The transport.
  // ---------------------------------------------------------------------------------------

  datatype Purpose = List | Capture(monitor: Monitor)

  /** A completion closure: the epoch it captured and what it is for. */
  datatype Completion = Completion(ticket: nat, purpose: Purpose)

  datatype Pending = Pending(data: seq<Byte>, failure: Option<Failure>, complete: Completion)

  /** A body chunk delivered while its request was pending. */
  datatype Chunk = Chunk(task: nat, data: seq<Byte>)

  /**
   * `pending` is the table; `deferred` are the refused requests whose completion the main queue still
   * holds. The rest is history: every request made, every completion run, every chunk delivered.
   */
  datatype Transport = Transport(
    pending: map<nat, Pending>,
    deferred: seq<nat>,
    asked: seq<Completion>,
    answered: seq<nat>,
    chunks: seq<Chunk>)

  function Removed(pending: map<nat, Pending>, k: nat): map<nat, Pending> {
    map n | n in pending && n != k :: pending[n]
  }

  function Call(t: Transport, token: Option<string>, c: Completion): Transport {
    var k := |t.asked|;
    if token.None? || token.value == "" then t.(deferred := t.deferred + [k], asked := t.asked + [c])
    else t.(pending := t.pending[k := Pending([], None, c)], asked := t.asked + [c])
  }

  function Cancel(t: Transport, k: nat): Transport {
    t.(pending := Removed(t.pending, k))
  }

  function Close(t: Transport): Transport {
    t.(pending := map[])
  }

  function Fail(t: Transport, k: nat, failure: Failure): Transport {
    if k in t.pending then t.(pending := t.pending[k := t.pending[k].(failure := Some(failure))]) else t
  }

  /** The response head; `status` is absent when the response is not HTTP. */
  function DidReceiveResponse(t: Transport, k: nat, status: Option<int>, expectedLength: int): Transport {
    if k in t.pending && status == Some(200) && expectedLength <= LIMIT then t
    else Fail(t, k, if status == Some(401) || status == Some(403) then NoPermission else Unavailable)
  }

  function DidReceiveData(t: Transport, k: nat, data: seq<Byte>): Transport {
    if k !in t.pending then t
    else
      var row, chunks := t.pending[k], t.chunks + [Chunk(k, data)];
      if |row.data| + |data| > LIMIT then Fail(t.(chunks := chunks), k, ImageTooLarge)
      else t.(pending := t.pending[k := row.(data := row.data + data)], chunks := chunks)
  }

  function Redirected(t: Transport, k: nat): Transport {
    Fail(t, k, Unavailable)
  }

  function ReplyOf(row: Pending, error: bool): Result<seq<Byte>, Failure> {
    if row.failure.Some? then Err(row.failure.value) else if error then Err(Unavailable) else Ok(row.data)
  }

  /** The row leaves the table before its completion runs. */
  function Remove(t: Transport, k: nat): Transport {
    t.(pending := Removed(t.pending, k), answered := t.answered + [k])
  }

  // ---------------------------------------------------------------------------------------
  // The model over it.
  // ---------------------------------------------------------------------------------------

  /** `shown` is history: the request whose reply the frame came from. */
  datatype State = State(
    visible: bool,
    monitors: seq<Monitor>,
    selected: Option<Monitor>,
    frame: Option<Frame>,
    receivedAt: Option<real>,
    message: Message,
    busy: bool,
    epoch: nat,
    request: Option<nat>,
    nextRefresh: real,
    shown: Option<nat>,
    t: Transport)

  function Initial(): State {
    State(false, [], None, None, None, Choose, false, 0, None, 0.0, None, Transport(map[], [], [], [], []))
  }

  function Invalidate(s: State): State {
    s.(epoch := s.epoch + 1, request := None, busy := false,
       t := if s.request.Some? then Cancel(s.t, s.request.value) else s.t)
  }

  function Dropped(s: State): State {
    s.(frame := None, receivedAt := None, shown := None)
  }

  function Show(s: State, token: Option<string>): State {
    Reload(s.(visible := true), token)
  }

  function Hide(s: State): State {
    Dropped(Invalidate(s.(visible := false))).(message := Hidden)
  }

  function Reload(s: State, token: Option<string>): State {
    if !s.visible then s
    else
      var s1 := Dropped(Invalidate(s)).(busy := true, message := Checking);
      s1.(request := Some(|s1.t.asked|), t := Call(s1.t, token, Completion(s1.epoch, List)))
  }

  function Select(s: State, monitor: Option<Monitor>, now: real, token: Option<string>): State {
    if !s.visible then s
    else
      var selected := if monitor.Some? && monitor.value in s.monitors then monitor else None;
      var message := if selected.None? then Choose else Requesting;
      var s1 := Dropped(Invalidate(s)).(selected := selected, message := message, nextRefresh := 0.0);
      Tick(s1, now, token)
  }

  function Tick(s: State, now: real, token: Option<string>): State {
    if !s.visible || s.busy || s.selected.None? || now < s.nextRefresh then s
    else
      s.(busy := true, request := Some(|s.t.asked|),
         t := Call(s.t, token, Completion(s.epoch, Capture(s.selected.value))))
  }

  /** The completion that `reload` passes. */
  function Listed(s: State, ticket: nat, r: Result<seq<Monitor>, Failure>, now: real, token: Option<string>): State {
    if !s.visible || s.epoch != ticket then s
    else
      var idle := s.(busy := false, request := None);
      var s1 := match r
        case Ok(monitors) =>
          idle.(monitors := monitors,
                selected := if s.selected.Some? && s.selected.value !in monitors then None else s.selected,
                message := if monitors == [] then NoDisplays else Choose,
                nextRefresh := 0.0)
        case Err(error) => idle.(message := Problem(error), monitors := [], selected := None);
      Tick(s1, now, token)
  }

  /** The completion that `tick` passes, running for request `k`; `later` is the second clock reading. */
  function Captured(s: State, ticket: nat, monitor: Monitor, k: nat, r: Result<Frame, Failure>, now: real,
      later: real): State {
    if !s.visible || s.epoch != ticket || s.selected != Some(monitor) then s
    else
      var idle := s.(request := None, busy := false);
      match r
      case Ok(frame) =>
        idle.(frame := Some(frame), receivedAt := Some(now), message := Preview, nextRefresh := later + 2.0,
              shown := Some(k))
      case Err(error) =>
        Dropped(idle).(message := Problem(error), nextRefresh := now + 5.0)
  }

  function Completed(s: State, w: Wire, c: Completion, k: nat, reply: Result<seq<Byte>, Failure>, now: real,
      later: real, token: Option<string>): State {
    match c.purpose
    case List => Listed(s, c.ticket, MonitorsOf(w, reply, k), now, token)
    case Capture(monitor) => Captured(s, c.ticket, monitor, k, FrameOf(w, reply, k, monitor), now, later)
  }

  function DidComplete(s: State, w: Wire, k: nat, error: bool, now: real, later: real, token: Option<string>): State {
    if k !in s.t.pending then s
    else
      var row := s.t.pending[k];
      Completed(s.(t := Remove(s.t, k)), w, row.complete, k, ReplyOf(row, error), now, later, token)
  }

  /** The main queue runs the oldest refused request's completion. */
  function Refuse(s: State, w: Wire, now: real, later: real, token: Option<string>): State {
    if s.t.deferred == [] || s.t.deferred[0] >= |s.t.asked| then s
    else
      var k := s.t.deferred[0];
      var t := s.t.(deferred := s.t.deferred[1..], answered := s.t.answered + [k]);
      Completed(s.(t := t), w, s.t.asked[k], k, Err(NoPermission), now, later, token)
  }

  /** Hiding for good: the controller's `shutdown`. */
  function Shutdown(s: State): State {
    var s1 := Hide(s);
    s1.(t := Close(s1.t))
  }

  // ---------------------------------------------------------------------------------------
  // Runs.
  // ---------------------------------------------------------------------------------------

  /** User actions and timer ticks, session callbacks for any task at any time, and the main queue's turns. */
  datatype Event =
    | Shown(token: Option<string>)
    | HiddenByUser
    | Reloaded(token: Option<string>)
    | Selected(monitor: Option<Monitor>, now: real, token: Option<string>)
    | Ticked(now: real, token: Option<string>)
    | Responded(task: nat, status: Option<int>, expectedLength: int)
    | Delivered(task: nat, data: seq<Byte>)
    | Redirect(task: nat)
    | Finished(task: nat, error: bool, now: real, later: real, token: Option<string>)
    | QueueTurn(now: real, later: real, token: Option<string>)
    | ShutDown

  function Step(s: State, w: Wire, e: Event): State {
    match e
    case Shown(token) => Show(s, token)
    case HiddenByUser => Hide(s)
    case Reloaded(token) => Reload(s, token)
    case Selected(monitor, now, token) => Select(s, monitor, now, token)
    case Ticked(now, token) => Tick(s, now, token)
    case Responded(k, status, expectedLength) => s.(t := DidReceiveResponse(s.t, k, status, expectedLength))
    case Delivered(k, data) => s.(t := DidReceiveData(s.t, k, data))
    case Redirect(k) => s.(t := Redirected(s.t, k))
    case Finished(k, error, now, later, token) => DidComplete(s, w, k, error, now, later, token)
    case QueueTurn(now, later, token) => Refuse(s, w, now, later, token)
    case ShutDown => Shutdown(s)
  }

  ghost predicate IsRun(run: seq<State>, w: Wire, events: seq<Event>) {
    && |run| == |events| + 1 && run[0] == Initial()
    && forall i :: 0 <= i < |events| ==> run[i + 1] == Step(run[i], w, events[i])
  }
}
