/**
 * The two objects of Agent View: the transport's pending table (`macos-app/AgentViewTransport.swift`)
 * and the view model (`macos-app/AgentViewModel.swift`), each method proved against the function of
 * the same name.
 */
module AgentView {
  import opened Common
  import opened AgentViewProtocol
  import opened AgentViewSafety

  class AgentViewTransport {
    var pending: map<nat, Pending>
    var nextTask: nat
    // The main queue: completions of refused requests, with the number of each.
    var deferred: seq<(nat, Completion)>
    ghost var asked: seq<Completion>
    ghost var answered: seq<nat>
    ghost var chunks: seq<Chunk>

    constructor ()
      ensures State() == Transport(map[], [], [], [], []) && Valid()
    {
      pending, nextTask, deferred := map[], 0, [];
      asked, answered, chunks := [], [], [];
    }

    ghost predicate Valid()
      reads this
    {
      && nextTask == |asked|
      && forall i :: 0 <= i < |deferred| ==> deferred[i].0 < |asked| && deferred[i].1 == asked[deferred[i].0]
    }

    ghost function State(): Transport
      reads this
    {
      Transport(pending, Numbers(deferred), asked, answered, chunks)
    }

    /** Starts a request, or leaves its refusal with the main queue when there is no admission token. */
    method Call(token: Option<string>, completion: Completion) returns (handle: nat)
      requires Valid()
      modifies this
      ensures Valid() && handle == |old(asked)|
      ensures State() == AgentViewProtocol.Call(old(State()), token, completion)
    {
      handle := nextTask;
      nextTask := nextTask + 1;
      asked := asked + [completion];
      if token.None? || token.value == "" {
        deferred := deferred + [(handle, completion)];
        return;
      }
      pending := pending[handle := Pending([], None, completion)];
    }

    /** The handle's `cancel`; a refused request's handle does nothing, which is the same. */
    method Cancel(handle: nat)
      requires Valid()
      modifies this`pending
      ensures Valid() && State() == AgentViewProtocol.Cancel(old(State()), handle)
    {
      pending := Removed(pending, handle);
    }

    method Close()
      requires Valid()
      modifies this`pending
      ensures Valid() && State() == AgentViewProtocol.Close(old(State()))
    {
      pending := map[];
    }

    method DidReceiveResponse(task: nat, status: Option<int>, expectedLength: int) returns (allow: bool)
      requires Valid()
      modifies this`pending
      ensures Valid() && State() == AgentViewProtocol.DidReceiveResponse(old(State()), task, status, expectedLength)
      ensures allow <==> task in old(pending) && status == Some(200) && expectedLength <= LIMIT
    {
      if task in pending && status == Some(200) && expectedLength <= LIMIT { return true; }
      if task in pending {
        var failure := if status == Some(401) || status == Some(403) then NoPermission else Unavailable;
        pending := pending[task := pending[task].(failure := Some(failure))];
      }
      return false;
    }

    method DidReceiveData(task: nat, data: seq<Byte>)
      requires Valid()
      modifies this`pending, this`chunks
      ensures Valid() && State() == AgentViewProtocol.DidReceiveData(old(State()), task, data)
    {
      if task !in pending { return; }
      var row := pending[task];
      chunks := chunks + [Chunk(task, data)];
      if |row.data| + |data| > LIMIT {
        pending := pending[task := row.(failure := Some(ImageTooLarge))];
        return;
      }
      pending := pending[task := row.(data := row.data + data)];
    }

    method Redirected(task: nat)
      requires Valid()
      modifies this`pending
      ensures Valid() && State() == AgentViewProtocol.Redirected(old(State()), task)
    {
      if task in pending {
        pending := pending[task := pending[task].(failure := Some(Unavailable))];
      }
    }

    /** Takes a finished task off the table; the completion is the caller's to run. */
    method DidComplete(task: nat, error: bool) returns (finished: Option<(Completion, Result<seq<Byte>, Failure>)>)
      requires Valid()
      modifies this`pending, this`answered
      ensures Valid()
      ensures task !in old(pending) ==> finished.None? && State() == old(State())
      ensures task in old(pending) ==>
        && finished == Some((old(pending[task]).complete, ReplyOf(old(pending[task]), error)))
        && State() == Remove(old(State()), task)
    {
      if task !in pending { return None; }
      var row := pending[task];
      pending := Removed(pending, task);
      answered := answered + [task];
      if row.failure.Some? { return Some((row.complete, Err(row.failure.value))); }
      if error { return Some((row.complete, Err(Unavailable))); }
      return Some((row.complete, Ok(row.data)));
    }

    /** The main queue's turn: the oldest refusal, if any. */
    method NextRefusal() returns (refused: Option<(nat, Completion)>)
      requires Valid()
      modifies this`deferred, this`answered
      ensures Valid() && refused.None? == (old(State()).deferred == [])
      ensures refused.None? ==> State() == old(State())
      ensures refused.Some? ==>
        var k := old(State()).deferred[0];
        && k < |asked| && refused.value == (k, asked[k])
        && State() == old(State()).(deferred := old(State()).deferred[1..], answered := old(State()).answered + [k])
    {
      if deferred == [] { return None; }
      refused := Some(deferred[0]);
      answered := answered + [deferred[0].0];
      assert Numbers(deferred)[1..] == Numbers(deferred[1..]);
      deferred := deferred[1..];
    }
  }

  function Numbers(deferred: seq<(nat, Completion)>): seq<nat> {
    seq(|deferred|, i requires 0 <= i < |deferred| => deferred[i].0)
  }

  class AgentViewModel {
    const source: AgentViewTransport
    const wire: Wire
    var visible: bool
    var monitors: seq<Monitor>
    var selected: Option<Monitor>
    var frame: Option<Frame>
    var receivedAt: Option<real>
    var message: Message
    var busy: bool
    var epoch: nat
    var request: Option<nat>
    var nextRefresh: real
    ghost var shown: Option<nat>

    constructor (source: AgentViewTransport, wire: Wire)
      requires source.Valid() && source.State() == Transport(map[], [], [], [], [])
      ensures this.source == source && this.wire == wire && View() == Initial() && Safe()
    {
      this.source, this.wire := source, wire;
      visible, monitors, selected, frame, receivedAt, message := false, [], None, None, None, Choose;
      busy, epoch, request, nextRefresh, shown := false, 0, None, 0.0, None;
      new;
      hide Inv;
      assert View() == Initial();
      assert Inv(View(), wire) by { hide Inv; InitialIsSafe(wire); }
    }

    ghost function View(): State
      reads this, source
    {
      State(visible, monitors, selected, frame, receivedAt, message, busy, epoch, request, nextRefresh, shown,
          source.State())
    }

    ghost predicate Safe()
      reads this, source
    {
      source.Valid() && Inv(View(), wire)
    }

    method Invalidate()
      requires source.Valid()
      modifies this, source
      ensures source.Valid() && View() == AgentViewProtocol.Invalidate(old(View()))
    {
      epoch := epoch + 1;
      if request.Some? { source.Cancel(request.value); }
      request := None;
      busy := false;
    }

    method Drop()
      modifies this`frame, this`receivedAt, this`shown
      ensures View() == Dropped(old(View()))
    {
      frame, receivedAt, shown := None, None, None;
    }

    method Show(token: Option<string>)
      requires Safe()
      modifies this, source
      ensures Safe() && View() == AgentViewProtocol.Show(old(View()), token)
    {
      hide Inv, AgentViewProtocol.Reload;
      ShowKeeps(View(), wire, token);
      visible := true;
      ReloadView(token);
    }

    method Hide()
      requires Safe()
      modifies this, source
      ensures Safe() && View() == AgentViewProtocol.Hide(old(View()))
    {
      hide Inv;
      HideKeeps(View(), wire);
      visible := false;
      Invalidate();
      Drop();
      message := Hidden;
    }

    method ReloadView(token: Option<string>)
      requires source.Valid()
      modifies this, source
      ensures source.Valid() && View() == AgentViewProtocol.Reload(old(View()), token)
    {
      if !visible { return; }
      Invalidate();
      Drop();
      busy := true;
      message := Checking;
      var handle := source.Call(token, Completion(epoch, List));
      request := Some(handle);
    }

    method Reload(token: Option<string>)
      requires Safe()
      modifies this, source
      ensures Safe() && View() == AgentViewProtocol.Reload(old(View()), token)
    {
      hide Inv, AgentViewProtocol.Reload;
      ReloadKeeps(View(), wire, token);
      ReloadView(token);
    }

    method Select(monitor: Option<Monitor>, now: real, token: Option<string>)
      requires Safe()
      modifies this, source
      ensures Safe() && View() == AgentViewProtocol.Select(old(View()), monitor, now, token)
    {
      hide Inv, AgentViewProtocol.Tick;
      SelectKeeps(View(), wire, monitor, now, token);
      if !visible { return; }
      Invalidate();
      Drop();
      selected := if monitor.Some? && monitor.value in monitors then monitor else None;
      message := if selected.None? then Choose else Requesting;
      nextRefresh := 0.0;
      TickView(now, token);
    }

    method TickView(now: real, token: Option<string>)
      requires source.Valid()
      modifies this, source
      ensures source.Valid() && View() == AgentViewProtocol.Tick(old(View()), now, token)
    {
      if !visible || busy || selected.None? || now < nextRefresh { return; }
      busy := true;
      var handle := source.Call(token, Completion(epoch, Capture(selected.value)));
      request := Some(handle);
    }

    method Tick(now: real, token: Option<string>)
      requires Safe()
      modifies this, source
      ensures Safe() && View() == AgentViewProtocol.Tick(old(View()), now, token)
    {
      hide Inv, AgentViewProtocol.Tick;
      TickKeeps(View(), wire, now, token);
      TickView(now, token);
    }

    method Listed(ticket: nat, r: Result<seq<Monitor>, Failure>, now: real, token: Option<string>)
      requires source.Valid()
      modifies this, source
      ensures source.Valid() && View() == AgentViewProtocol.Listed(old(View()), ticket, r, now, token)
    {
      hide AgentViewProtocol.Tick;
      if !visible || epoch != ticket { return; }
      busy, request := false, None;
      match r {
        case Ok(listed) =>
          monitors := listed;
          if selected.Some? && selected.value !in listed { selected := None; }
          message := if listed == [] then NoDisplays else Choose;
          nextRefresh := 0.0;
        case Err(error) =>
          message, monitors, selected := Problem(error), [], None;
      }
      TickView(now, token);
    }

    method Captured(ticket: nat, monitor: Monitor, ghost k: nat, r: Result<Frame, Failure>, now: real, later: real)
      modifies this
      ensures View() == AgentViewProtocol.Captured(old(View()), ticket, monitor, k, r, now, later)
    {
      if !visible || epoch != ticket || selected != Some(monitor) { return; }
      request, busy := None, false;
      match r {
        case Ok(received) =>
          frame, receivedAt, message := Some(received), Some(now), Preview;
          nextRefresh := later + 2.0;
          shown := Some(k);
        case Err(error) =>
          Drop();
          message := Problem(error);
          nextRefresh := now + 5.0;
      }
    }

    /** Runs the completion of request `k`. */
    method Complete(c: Completion, k: nat, reply: Result<seq<Byte>, Failure>, now: real, later: real,
        token: Option<string>)
      requires source.Valid()
      modifies this, source
      ensures source.Valid() && View() == Completed(old(View()), wire, c, k, reply, now, later, token)
    {
      hide AgentViewProtocol.Listed, AgentViewProtocol.Captured;
      match c.purpose {
        case List => Listed(c.ticket, MonitorsOf(wire, reply, k), now, token);
        case Capture(monitor) => Captured(c.ticket, monitor, k, FrameOf(wire, reply, k, monitor), now, later);
      }
    }

    method DidComplete(task: nat, error: bool, now: real, later: real, token: Option<string>)
      requires Safe()
      modifies this, source
      ensures Safe() && View() == AgentViewProtocol.DidComplete(old(View()), wire, task, error, now, later, token)
    {
      hide Inv, Completed;
      DidCompleteKeeps(View(), wire, task, error, now, later, token);
      var finished := source.DidComplete(task, error);
      if finished.Some? {
        var (c, reply) := finished.value;
        Complete(c, task, reply, now, later, token);
      }
    }

    method QueueTurn(now: real, later: real, token: Option<string>)
      requires Safe()
      modifies this, source
      ensures Safe() && View() == Refuse(old(View()), wire, now, later, token)
    {
      hide Inv, Completed;
      RefuseKeeps(View(), wire, now, later, token);
      var refused := source.NextRefusal();
      if refused.Some? {
        var (k, c) := refused.value;
        Complete(c, k, Err(NoPermission), now, later, token);
      }
    }

    method Shutdown()
      requires Safe()
      modifies this, source
      ensures Safe() && View() == AgentViewProtocol.Shutdown(old(View()))
    {
      hide Inv, AgentViewProtocol.Hide;
      HideKeeps(View(), wire);
      Hide();
      source.Close();
      assert View() == AgentViewProtocol.Hide(old(View()));
    }

    /** Any event, delivered to whichever object handles it: the step of the same name, and the invariant with it. */
    method Deliver(e: Event)
      requires Safe()
      modifies this, source
      ensures Safe() && View() == Step(old(View()), wire, e)
    {
      hide Inv, Completed, AgentViewProtocol.Hide, AgentViewProtocol.Reload, AgentViewProtocol.Select,
          AgentViewProtocol.Tick,
        AgentViewProtocol.DidComplete, Refuse;
      match e {
        case Shown(token) => Show(token);
        case HiddenByUser => Hide();
        case Reloaded(token) => Reload(token);
        case Selected(monitor, now, token) => Select(monitor, now, token);
        case Ticked(now, token) => Tick(now, token);
        case Responded(task, status, expectedLength) =>
          StepKeeps(View(), wire, e);
          var _ := source.DidReceiveResponse(task, status, expectedLength);
        case Delivered(task, data) =>
          StepKeeps(View(), wire, e);
          source.DidReceiveData(task, data);
        case Redirect(task) =>
          StepKeeps(View(), wire, e);
          source.Redirected(task);
        case Finished(task, error, now, later, token) => DidComplete(task, error, now, later, token);
        case QueueTurn(now, later, token) => QueueTurn(now, later, token);
        case ShutDown => Shutdown();
      }
    }
  }
}
