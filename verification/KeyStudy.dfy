/**
 * The one-attempt key study, `collect` in `scripts/macos_concurrent_keys.py`: any call it makes may
 * raise, yet at most one key press is ever requested, and success is backed by evidence.
 */
module KeyStudy {
  import opened Common
  import opened PyJson
  import opened KeyEvidence
  import opened KeyLog

  // ---------------------------------------------------------------------------------------
  // The environment: every call may return anything or raise.
  // ---------------------------------------------------------------------------------------

  class World {
    const window: Json
    ghost var log: seq<Entry>
    var now: real

    constructor (window: Json)
      ensures this.window == window && log == []
    {
      this.window, log, now := window, [], 0.0;
    }

    ghost predicate Grew(was: seq<Entry>, e: Entry)
      reads this
    {
      && log == was + [e] && e in log && Quiet(was, log, window)
      && log[|was|..] == [e]
      && (!(e.Evaluated? && e.script == FieldState) ==> Calm(was, log, window))
      && (e.Evaluated? && e.script == FieldState && e.value.Ok? ==> LastState(log[|was|..]) == Some(e.value.value))
      && (e.Witnessed? && e.phase == After ==> !Unwitnessed(log))
    }

    method Prepare(key: string) returns (r: Result<Json, Exn>)
      modifies this`log
      ensures Grew(old(log), Prepared(key, r))
    {
      r := *;
      Appended(log, Prepared(key, r), window);
      log := log + [Prepared(key, r)];
    }

    /** The only call that posts input. */
    method Press(key: string, token: string) returns (r: Result<Json, Exn>)
      modifies this`log
      ensures Pressing(old(log), log, key, token, r, window)
    {
      r := *;
      Appended(log, Pressed(key, token, r), window);
      log := log + [Pressed(key, token, r)];
    }

    method Evaluate(script: Script) returns (r: Result<Json, Exn>)
      modifies this`log
      ensures Grew(old(log), Evaluated(script, r))
    {
      r := *;
      Appended(log, Evaluated(script, r), window);
      log := log + [Evaluated(script, r)];
    }

    method Witness(phase: Phase, sequence: int) returns (r: Result<Json, Exn>)
      modifies this`log
      ensures Grew(old(log), Witnessed(phase, sequence, r))
    {
      r := *;
      Appended(log, Witnessed(phase, sequence, r), window);
      log := log + [Witnessed(phase, sequence, r)];
    }

    method ValidateGeometry(receiver: Json, fixture: Json) returns (r: Result<Unit, Exn>)
      modifies this`log
      ensures Grew(old(log), GeometryChecked(receiver, r))
    {
      r := *;
      Appended(log, GeometryChecked(receiver, r), window);
      log := log + [GeometryChecked(receiver, r)];
    }

    method BeforeDispatch() returns (r: Result<Unit, Exn>)
      modifies this`log
      ensures Grew(old(log), Gate(r))
    {
      r := *;
      Appended(log, Gate(r), window);
      log := log + [Gate(r)];
    }

    method Checkpoint(attempted: bool, completed: bool) returns (r: Result<Unit, Exn>)
      modifies this`log
      ensures Grew(old(log), Checkpointed(attempted, completed, r))
    {
      r := *;
      Appended(log, Checkpointed(attempted, completed, r), window);
      log := log + [Checkpointed(attempted, completed, r)];
    }

    /** A monotonic clock. */
    method Clock() returns (r: Result<real, Exn>)
      modifies this`now
      ensures now >= old(now) && (r.Ok? ==> r.value == now)
    {
      var advance: real := *;
      now := if advance > 0.0 then now + advance else now;
      var raised: bool := *;
      var exn: Exn := *;
      r := if raised then Err(exn) else Ok(now);
    }

    method Pause(seconds: real) returns (r: Result<Unit, Exn>)
      requires seconds > 0.0
      modifies this`now
      ensures now >= old(now) && (r.Ok? ==> now >= old(now) + seconds)
    {
      r := *;
      if r.Ok? { now := now + seconds; }
    }
  }

  // ---------------------------------------------------------------------------------------
  // The study.
  // ---------------------------------------------------------------------------------------

  /** What the report keeps of one bracket. */
  datatype Row = Row(attempted: bool, before: Option<Json>, reply: Option<Json>, after: Option<Json>,
      witnessValid: bool, finishError: bool)

  /** `len(state.get('events', []))`, where it does not raise. */
  function EventCount(state: Json): Option<nat> {
    if !state.Obj? then None
    else if "events" !in state.fields then Some(0)
    else if HasLength(state.fields["events"]) then Some(Length(state.fields["events"]))
    else None
  }

  /** The evidence of a completed setup: three recorded clicks on the first field. */
  predicate SetUp(geometry: Json) {
    && Get(geometry, "active") == Str("first") && Get(geometry, "click_overflow") == Bool(false)
    && Get(geometry, "click_events").Arr? && |Get(geometry, "click_events").items| == 3
  }

  class Study {
    const world: World
    const key: string
    const deadline: Option<real>
    const gated: bool

    // The report.
    var completed: bool
    var preparation: Option<Row>
    var dispatch: Option<Row>
    var outcome: Option<Outcome>
    var stopped: bool

    /** `deadline` is absent when it is not finite. */
    constructor (world: World, key: string, deadline: Option<real>, gated: bool)
      ensures this.world == world && this.key == key && this.deadline == deadline && this.gated == gated
      ensures !completed && preparation.None? && dispatch.None? && outcome.None?
    {
      this.world, this.key, this.deadline, this.gated := world, key, deadline, gated;
      completed, preparation, dispatch, outcome, stopped := false, None, None, None, false;
    }

    function Window(): Json {
      world.window
    }

    predicate DispatchAttempted()
      reads this`dispatch
    {
      dispatch.Some? && dispatch.value.attempted
    }

    method Save() returns (r: Result<Unit, Exn>)
      modifies world
      ensures world.Grew(old(world.log), Checkpointed(DispatchAttempted(), completed, r))
    {
      r := world.Checkpoint(DispatchAttempted(), completed);
    }

    /** `require(clock() < deadline, …)` */
    method InTime() returns (r: Result<Unit, Exn>)
      modifies world`now
    {
      var t := world.Clock();
      if t.Err? { return Err(t.error); }
      return if deadline.Some? && t.value < deadline.value then Ok(Unit) else Err(Ordinary);
    }

    method SetRow(stage: Stage, row: Row)
      modifies this`preparation, this`dispatch
      ensures stage == Preparation ==> preparation == Some(row) && dispatch == old(dispatch)
      ensures stage == Dispatch ==> dispatch == Some(row) && preparation == old(preparation)
    {
      match stage
      case Preparation => preparation := Some(row);
      case Dispatch => dispatch := Some(row);
    }

    /** The steps up to the operation: the gate, the deadline, and the attempt put on record. */
    method Approach(stage: Stage, row0: Row) returns (r: Result<Unit, Exn>, row: Row)
      requires !completed
      modifies this`preparation, this`dispatch, world
      ensures Calm(old(world.log), world.log, Window())
      ensures row == row0.(attempted := row.attempted) && (r.Ok? ==> row.attempted)
      ensures r.Ok? && stage == Dispatch ==> dispatch == Some(row)
      ensures r.Ok? && stage == Dispatch ==>
        && world.log != [] && world.log[|world.log| - 1] == Checkpointed(true, false, Ok(Unit))
    {
      hide Quiet, Calm, LastState, Unwitnessed;
      ghost var was := world.log;
      CalmAt(was, Window());
      row := row0;
      if stage == Dispatch && gated {
        var early := InTime();
        if early.Err? { return early, row; }
        r := world.BeforeDispatch();
        if r.Err? { return r, row; }
      }
      var early := InTime();
      if early.Err? { return early, row; }
      row := row.(attempted := true);
      SetRow(stage, row);
      ghost var gatedLog := world.log;
      r := Save();
      Calmly(was, gatedLog, world.log, Window());
      if r.Err? { return r, row; }
      OkUnit(r);
      var started := world.Clock();
      if started.Err? { return Err(started.error), row; }
    }

    /** The inner `try` of a bracket. */
    method Operate(stage: Stage, token: string, row0: Row) returns (r: Result<Json, Exn>, row: Row, ghost at: nat)
      requires !completed && ValidKey(key)
      requires stage == Dispatch ==>
        && Lawful(world.log, Window()) && TokenGranted(world.log, key, token, Window())
        && BaselineTaken(world.log, 2)
      modifies this`preparation, this`dispatch, world
      ensures Operated(old(world.log), world.log, stage, key, token, r, at, Window())
      ensures row == row0.(attempted := row.attempted, reply := row.reply)
      ensures PressCount(world.log) > PressCount(old(world.log)) ==> row.attempted && DispatchAttempted()
      ensures r.Ok? ==> row.attempted && row.reply == Some(PublicReply(r.value))
    {
      hide Quiet, Calm, LastState, PressCount, Lawful, Unwitnessed, TokenGranted, BaselineTaken, ValidKey, PublicReply;
      ghost var was := world.log;
      var ready: Result<Unit, Exn>;
      ready, row := Approach(stage, row0);
      ghost var near := world.log;
      at := |near|;
      CalmKeeps(was, near, key, token, Window());
      if ready.Err? { return Err(ready.error), row, at; }
      match stage {
        case Preparation =>
          r := world.Prepare(key);
          Calmly(was, near, world.log, Window());
          CalmKeeps(was, world.log, key, token, Window());
        case Dispatch =>
          r := world.Press(key, token);
          PressAfterCalm(was, near, world.log, key, token, r, Window());
      }
      if r.Ok? {
        row := row.(reply := Some(PublicReply(r.value)));
        SetRow(stage, row);
      }
      var ended := world.Clock();
      if ended.Err? { r := Err(ended.error); }
    }

    /** The bracket's `finally`: the finishing witness, whatever happened; what it raises, if it raises. */
    method Finish(stage: Stage, sequence: int, row0: Row) returns (r: Result<Unit, Exn>, row: Row)
      requires row0.before.Some? && !row0.finishError && !row0.witnessValid
      modifies this`preparation, this`dispatch, world
      ensures Calm(old(world.log), world.log, Window()) && old(world.log) <= world.log && !Unwitnessed(world.log)
      ensures row.witnessValid ==>
        && row.after.Some? && Witnessed(After, sequence, Ok(row.after.value)) in world.log[|old(world.log)|..]
        && ValidWitness(row.after.value, sequence, After) && SameBaseline(row0.before.value, row.after.value)
      ensures row.attempted == row0.attempted && row.reply == row0.reply
      ensures r.Ok? ==> (row.finishError <==> !row.witnessValid)
      ensures stage == Dispatch && row.attempted && old(DispatchAttempted()) ==> DispatchAttempted()
    {
      hide LastState, PressCount, Lawful, ValidWitness, SameBaseline, Quiet, Calm, Unwitnessed;
      row := row0;
      ghost var was := world.log;
      var a := world.Witness(After, sequence);
      ghost var sampled := world.log;
      CalmKeeps(was, sampled, "", "", Window());
      if a == Err(Interrupt) { return Err(Interrupt), row; }
      if a.Ok? { row := row.(after := Some(a.value)); }
      if a.Ok? && ValidWitness(a.value, sequence, After) && SameBaseline(row.before.value, a.value) {
        row := row.(witnessValid := true);
      } else {
        row := row.(finishError := true);
      }
      SetRow(stage, row);
      r := Save();
      Calmly(was, sampled, world.log, Window());
      CalmKeeps(sampled, world.log, "", "", Window());
      assert world.log[|was|..][0] == Witnessed(After, sequence, a);
    }

    /** The bracket's opening: its row, the baseline and their record. */
    method OpenBracket(stage: Stage, sequence: int) returns (r: Result<Unit, Exn>, row: Row)
      requires !completed
      modifies this`preparation, this`dispatch, world
      ensures Calm(old(world.log), world.log, Window())
      ensures r.Ok? ==>
        && row.before.Some? && row == Row(false, row.before, None, None, false, false)
        && Witnessed(Before, sequence, Ok(row.before.value)) in world.log
            && ValidWitness(row.before.value, sequence, Before)
    {
      hide Quiet, Calm, LastState, Unwitnessed, ValidWitness;
      ghost var was := world.log;
      row := Row(false, None, None, None, false, false);
      SetRow(stage, row);
      r := Save();
      if r.Err? { return; }
      var early := InTime();
      if early.Err? { return early, row; }
      ghost var saved := world.log;
      var b := world.Witness(Before, sequence);
      ghost var sampled := world.log;
      Calmly(was, saved, sampled, Window());
      if b.Err? { return Err(b.error), row; }
      row := row.(before := Some(b.value));
      SetRow(stage, row);
      if !ValidWitness(b.value, sequence, Before) { return Err(Ordinary), row; }
      r := Save();
      Calmly(was, sampled, world.log, Window());
      CalmKeeps(sampled, world.log, "", "", Window());
    }

    /** One operation, on the log at `at`, between two witnesses. */
    method Bracket(stage: Stage, sequence: int, token: string) returns (r: Result<Json, Exn>, ghost at: nat)
      requires !completed && ValidKey(key) && sequence == (if stage == Preparation then 1 else 2)
      requires !Unwitnessed(world.log)
      requires stage == Dispatch ==> Lawful(world.log, Window()) && TokenGranted(world.log, key, token, Window())
      modifies this`preparation, this`dispatch, world
      ensures Operated(old(world.log), world.log, stage, key, token, r, at, Window())
      ensures PressCount(world.log) > PressCount(old(world.log)) ==> DispatchAttempted()
      ensures !Unwitnessed(world.log)
      ensures r.Ok? ==> at < |world.log| && Bracketed(world.log, sequence, at)
    {
      hide Quiet, Calm, LastState, PressCount, Lawful, Unwitnessed, ValidWitness, SameBaseline, TokenGranted,
          ValidKey, Operated,
        Bracketed;
      ghost var was := world.log;
      var ready, row := OpenBracket(stage, sequence);
      ghost var begun := world.log;
      CalmKeeps(was, begun, key, token, Window());
      if ready.Err? {
        CalmIsOperated(was, begun, stage, key, token, ready.error, 0, Window());
        return Err(ready.error), 0;
      }
      var b := row.before.value;
      r, row, at := Operate(stage, token, row);
      ghost var operated, outcome := world.log, r;
      ready, row := Finish(stage, sequence, row);
      OperatedInside(was, begun, operated, world.log, stage, key, token, r, at, Window());
      if ready.Err? { return Err(ready.error), at; }
      if r.Err? { return; }
      if row.finishError { return Err(Ordinary), at; }
      BracketClosed(begun, operated, world.log, sequence, at, b, row.after.value);
      var late := InTime();
      if late.Err? { return Err(late.error), at; }
    }

    /** Arms the fixture and reads its geometry. */
    method Begin() returns (r: Result<(Json, Json), Exn>)
      modifies world
      ensures Quiet(old(world.log), world.log, Window())
      ensures r.Ok? ==>
        && Evaluated(Arm, Ok(r.value.0)) in world.log && PyEq(r.value.0, PRISTINE)
        && Evaluated(TargetState, Ok(r.value.1)) in world.log
    {
      hide Quiet, Calm, PyEq;
      ghost var was := world.log;
      QuietAt(was, Window());
      var early := InTime();
      if early.Err? { return Err(early.error); }
      var before := world.Evaluate(Arm);
      ghost var armed := world.log;
      if before.Err? { return Err(before.error); }
      if !PyEq(before.value, PRISTINE) { return Err(Ordinary); }
      var geometry := world.Evaluate(TargetState);
      Quietly(was, armed, world.log, Window());
      QuietKeeps(armed, world.log, Window());
      if geometry.Err? { return Err(geometry.error); }
      if !SetUp(geometry.value) { return Err(Ordinary); }
      return Ok((before.value, geometry.value));
    }

    /** `require(fixture() == geometry, …)` */
    method SameGeometry(geometry: Json) returns (r: Result<Unit, Exn>)
      modifies world
      ensures Calm(old(world.log), world.log, Window()) && old(world.log) <= world.log
      ensures r.Ok? ==> GeometryAgain(world.log[|old(world.log)|..], geometry)
    {
      hide PyEq, Lawful, PressCount, LastState, Unwitnessed;
      var again := world.Evaluate(TargetState);
      if again.Err? { return Err(again.error); }
      if !PyEq(again.value, geometry) { return Err(Ordinary); }
      assert world.log[|old(world.log)|..][0] == Evaluated(TargetState, again);
      return Ok(Unit);
    }

    /** `require(state() == before and fixture() == geometry, …)` */
    method SameFixture(before: Json, geometry: Json) returns (r: Result<Unit, Exn>)
      modifies world
      ensures Quiet(old(world.log), world.log, Window()) && old(world.log) <= world.log
      ensures r.Ok? ==>
        GeometryAgain(world.log[|old(world.log)|..], geometry) && FieldAgain(world.log[|old(world.log)|..], before)
    {
      hide Quiet, Calm, PyEq, LastState, GeometryAgain;
      ghost var was := world.log;
      var state := world.Evaluate(FieldState);
      ghost var seen := world.log;
      QuietKeeps(was, seen, Window());
      if state.Err? { return Err(state.error); }
      if !PyEq(state.value, before) { return Err(Ordinary); }
      r := SameGeometry(geometry);
      CalmIsQuiet(seen, world.log, Window());
      Quietly(was, seen, world.log, Window());
      if r.Ok? { ReadTwice(was, seen, world.log, state.value, geometry); }
    }

    /** Polls the field until it shows two events or two seconds have passed; never posts again. */
    method Observe(native: Json) returns (r: Result<Json, Exn>)
      requires deadline.Some?
      modifies world
      ensures Quiet(old(world.log), world.log, Window()) && old(world.log) <= world.log
      ensures r.Ok? ==> LastState(world.log[|old(world.log)|..]) == Some(r.value)
    {
      hide Quiet, DefiniteNoPost, LastState;
      ghost var was := world.log;
      QuietAt(was, Window());
      var started := world.Clock();
      if started.Err? { return Err(started.error); }
      var until := if deadline.value < started.value + 2.0 then deadline.value else started.value + 2.0;
      r := world.Evaluate(FieldState);
      QuietKeeps(was, world.log, Window());
      if r.Err? { return; }
      while true
        invariant r.Ok? && Quiet(was, world.log, Window()) && was <= world.log
        invariant LastState(world.log[|was|..]) == Some(r.value)
        decreases ((until - world.now) * 20.0).Floor
      {
        var count := EventCount(r.value);
        if count.None? { return Err(Ordinary); }
        if count.value >= 2 || DefiniteNoPost(native) { return; }
        var t := world.Clock();
        if t.Err? { return Err(t.error); }
        if t.value >= until { return; }
        var paused := world.Pause(0.05);
        if paused.Err? { return Err(paused.error); }
        ghost var seen := world.log;
        r := world.Evaluate(FieldState);
        Quietly(was, seen, world.log, Window());
        QuietKeeps(seen, world.log, Window());
        if r.Err? { return; }
        LaterRead(was, seen, world.log);
      }
    }

    /** The `try` body of `collect`, up to its last deadline check. */
    method Run() returns (r: Result<Outcome, Exn>)
      requires PressCount(world.log) == 0 && Lawful(world.log, Window()) && !Unwitnessed(world.log)
      requires !completed && ValidKey(key) && deadline.Some?
      modifies this`preparation, this`dispatch, this`outcome, world
      ensures PressCount(world.log) <= 1 && Lawful(world.log, Window()) && !Unwitnessed(world.log)
      ensures PressCount(world.log) == 1 ==> DispatchAttempted()
      ensures r.Ok? ==> outcome == Some(r.value) && Evidence(world.log, key, Window(), r.value)
    {
      hide Quiet, Calm, PyEq, LastState, PressCount, Lawful, Unwitnessed, Operated, Bracketed, Unchanged, Armed,
          PreparationRefusal,
        PreparedToken, ValidKey, Evidence, GeometryAgain, FieldAgain;
      ghost var was := world.log;
      var begun := Begin();
      QuietKeeps(was, world.log, Window());
      if begun.Err? { return Err(begun.error); }
      var (before, geometry) := begun.value;
      ghost var ready := world.log;
      var prepared, at := Bracket(Preparation, 1, "");
      ghost var got := world.log;
      OperatedKeeps(ready, got, Preparation, key, "", prepared, at, Window());
      if prepared.Err? { return Err(prepared.error); }
      var same := SameFixture(before, geometry);
      QuietKeeps(got, world.log, Window());
      if same.Err? { return Err(same.error); }
      NothingChanged(ready, got, world.log, at, before, geometry);
      BracketStays(got, world.log, 1, at);
      var reply := prepared.value;
      assert PreparedAt(world.log, at, key, reply, before);
      if reply.Obj? && Get(reply, "ok") == Bool(false) {
        if !PreparationRefusal(reply) { return Err(Ordinary); }
        outcome := Some(PreparationRefused);
        RefusalEvidence(world.log, at, key, Window(), reply, before);
        return Ok(PreparationRefused);
      }
      r := Press(before, geometry, reply, at);
    }

    /** The branch of `collect` that has a preparation to use. */
    method Press(before: Json, geometry: Json, prepared: Json, ghost earlier: nat) returns (r: Result<Outcome, Exn>)
      requires PressCount(world.log) == 0 && Lawful(world.log, Window()) && !Unwitnessed(world.log)
      requires !completed && ValidKey(key) && deadline.Some?
      requires PreparedAt(world.log, earlier, key, prepared, before)
      requires Evaluated(Arm, Ok(before)) in world.log && PyEq(before, PRISTINE)
      requires Evaluated(TargetState, Ok(geometry)) in world.log
      modifies this`preparation, this`dispatch, this`outcome, world
      ensures PressCount(world.log) <= 1 && Lawful(world.log, Window()) && !Unwitnessed(world.log)
      ensures PressCount(world.log) == 1 ==> DispatchAttempted()
      ensures r.Ok? ==> outcome == Some(r.value) && Evidence(world.log, key, Window(), r.value)
    {
      hide Quiet, Calm, PyEq, LastState, PressCount, Lawful, Unwitnessed, Operated, Bracketed, PreparedAt, PressedAt,
          PreparedToken,
        ValidKey, Evidence, TokenGranted, Unread;
      var granted := PreparedToken(prepared, key, Window());
      if granted.None? { return Err(Ordinary); }
      var (token, receiver) := granted.value;
      ghost var was := world.log;
      var located := world.ValidateGeometry(receiver, geometry);
      CalmKeeps(was, world.log, key, token, Window());
      if located.Err? { return Err(located.error); }
      OkUnit(located);
      ghost var ready := world.log;
      PreparedIsOn(was, earlier, key, prepared, before);
      Grant(ready, key, token, prepared, receiver, Window());
      var pressed, at := Bracket(Dispatch, 2, token);
      OperatedKeeps(ready, world.log, Dispatch, key, token, pressed, at, Window());
      if pressed.Err? { return Err(pressed.error); }
      var native := pressed.value;
      PressPrepared(was, ready, world.log, earlier, at, key, token, Window(), prepared, native, before);
      r := Assess(before, geometry, prepared, native, ready, at);
    }

    /** What the dispatch did, read from the fixture and the receipt. */
    method Assess(before: Json, geometry: Json, prepared: Json, native: Json, ghost ready: seq<Entry>, ghost at: nat)
      returns (r: Result<Outcome, Exn>)
      requires PressCount(world.log) == 1 && Lawful(world.log, Window()) && !Unwitnessed(world.log) && deadline.Some?
      requires ready <= world.log && |ready| <= at < |world.log|
      requires PressedAt(world.log, at, key, Window(), prepared, native, before)
      requires Evaluated(Arm, Ok(before)) in ready && PyEq(before, PRISTINE)
          && Evaluated(TargetState, Ok(geometry)) in ready
      modifies this`outcome, world
      ensures PressCount(world.log) == 1 && Lawful(world.log, Window()) && !Unwitnessed(world.log)
      ensures r.Ok? ==> outcome == Some(r.value) && Evidence(world.log, key, Window(), r.value)
    {
      hide Quiet, Calm, PyEq, LastState, PressCount, Lawful, Unwitnessed, PressedAt, Unread, Unchanged, Armed,
          GeometryKept, GeometryAgain,
        DefiniteNoPost, VerifyEffect, ReceiptMatches, Classifiable, Evidence, Shown;
      ghost var was := world.log;
      var after := Observe(native);
      QuietKeeps(was, world.log, Window());
      if after.Err? { return Err(after.error); }
      ghost var seen := world.log;
      var same := SameGeometry(geometry);
      CalmIsQuiet(seen, world.log, Window());
      QuietKeeps(seen, world.log, Window());
      if same.Err? { return Err(same.error); }
      ReadTwice(was, seen, world.log, after.value, geometry);
      ReadAfter(was, world.log, at);
      GeometryKeeps(ready, was, world.log, at, geometry);
      ArmedBefore(ready, world.log, at, before);
      PressedThenRead(was, world.log, at, key, Window(), prepared, native, before);
      if DefiniteNoPost(native) {
        if !PyEq(after.value, before) { return Err(Ordinary); }
        outcome := Some(DispatchRefused);
        if !Classifiable(Get(native, "error")) { return Err(Ordinary); }
        NothingChanged(ready, was, world.log, at, before, geometry);
        PressEvidence(world.log, at, key, Window(), prepared, native, before, DispatchRefused);
        return Ok(DispatchRefused);
      }
      if !VerifyEffect(native, before, after.value, key) || !ReceiptMatches(native, prepared) { return Err(Ordinary); }
      outcome := Some(EffectVerified);
      PressEvidence(world.log, at, key, Window(), prepared, native, before, EffectVerified);
      return Ok(EffectVerified);
    }

    /**
     * The whole study. Whatever raises: at most one press, requested only on a covered log and always
     * followed by a finishing witness; `completed` only on evidence; and a normal return exactly when
     * completed and the last record could be written.
     */
    method Collect() returns (r: Result<Unit, Exn>)
      requires world.log == [] && preparation.None? && dispatch.None?
      modifies this, world
      ensures !ValidKey(key) || deadline.None? ==> r == Err(Ordinary) && world.log == []
      ensures PressCount(world.log) <= 1 && Lawful(world.log, Window()) && !Unwitnessed(world.log)
      ensures PressCount(world.log) == 1 ==> DispatchAttempted()
      ensures world.log != [] && completed ==> outcome.Some? && Evidence(world.log, key, Window(), outcome.value)
      ensures world.log != [] ==>
        (r.Ok? <==>
           && completed
           && exists attempted :: world.log[|world.log| - 1] == Checkpointed(attempted, true, Ok(Unit)))
    {
      hide Quiet, Calm, LastState, Evidence, PressCount, Lawful, Unwitnessed, ValidKey, Unread;
      if !ValidKey(key) || deadline.None? {
        EmptyLog(Window());
        return Err(Ordinary);
      }
      completed := false;
      ghost var was := world.log;
      EmptyLog(Window());
      r := Save();
      QuietKeeps(was, world.log, Window());
      if r.Err? { return; }
      var ran := Attempt();
      ghost var done := world.log;
      r := Save();
      CalmIsQuiet(done, world.log, Window());
      QuietKeeps(done, world.log, Window());
      if completed { EvidenceStays(done, world.log, key, Window(), outcome.value); }
      if r.Err? { return; }
      OkUnit(r);
      r := ran;
    }

    /** The `try` of `collect` and its handler, which looks at the fixture once more if a dispatch had begun. */
    method Attempt() returns (r: Result<Unit, Exn>)
      requires PressCount(world.log) == 0 && Lawful(world.log, Window()) && !Unwitnessed(world.log)
      requires !completed && ValidKey(key) && deadline.Some?
      modifies this, world
      ensures PressCount(world.log) <= 1 && Lawful(world.log, Window()) && !Unwitnessed(world.log)
      ensures PressCount(world.log) == 1 ==> DispatchAttempted()
      ensures completed ==> outcome.Some? && Evidence(world.log, key, Window(), outcome.value)
      ensures r.Ok? <==> completed
    {
      hide Quiet, Calm, LastState, Evidence, PressCount, Lawful, Unwitnessed, ValidKey;
      var ran := Run();
      if ran.Ok? {
        r := InTime();
        if r.Ok? {
          completed := true;
          return;
        }
      } else {
        r := Err(ran.error);
      }
      if r == Err(Ordinary) {
        stopped := true;
        if dispatch.Some? {
          ghost var failed := world.log;
          var seen := world.Evaluate(FieldState);
          QuietKeeps(failed, world.log, Window());
          if seen == Err(Interrupt) { r := Err(Interrupt); }
        }
      }
    }
  }

  lemma EmptyLog(window: Json)
    ensures PressCount([]) == 0 && Lawful([], window) && !Unwitnessed([])
  {
  }

  lemma CalmIsQuiet(t: seq<Entry>, t': seq<Entry>, window: Json)
    requires Calm(t, t', window)
    ensures Quiet(t, t', window) && Unread(t, t')
  {
  }

  lemma CalmIsOperated(t: seq<Entry>, t': seq<Entry>, stage: Stage, key: string, token: string, e: Exn, at: nat,
      window: Json)
    requires Calm(t, t', window)
    ensures Operated(t, t', stage, key, token, Err(e), at, window)
  {
  }

  lemma Grant(t: seq<Entry>, key: string, token: string, reply: Json, receiver: Json, window: Json)
    requires Prepared(key, Ok(reply)) in t && PreparedToken(reply, key, window) == Some((token, receiver))
    requires GeometryChecked(receiver, Ok(Unit)) in t
    ensures TokenGranted(t, key, token, window)
  {
  }

  /** A reading of the field, then one of the geometry, on the log after `was`. */
  lemma ReadTwice(was: seq<Entry>, seen: seq<Entry>, now: seq<Entry>, state: Json, geometry: Json)
    requires was <= seen <= now && LastState(seen[|was|..]) == Some(state)
    requires Unread(seen, now) && GeometryAgain(now[|seen|..], geometry)
    ensures LastState(now[|was|..]) == Some(state) && GeometryAgain(now[|was|..], geometry)
  {
    hide PyEq, LastState;
    var d := now[|seen|..];
    assert now[|was|..] == seen[|was|..] + d;
    LastStateSplit(seen[|was|..], d);
    var last :| Evaluated(TargetState, Ok(last)) in d && PyEq(last, geometry);
    assert Evaluated(TargetState, Ok(last)) in now[|was|..];
  }

  lemma LaterRead(was: seq<Entry>, seen: seq<Entry>, now: seq<Entry>)
    requires was <= seen <= now && LastState(now[|seen|..]).Some?
    ensures LastState(now[|was|..]) == LastState(now[|seen|..])
  {
    assert now[|was|..] == seen[|was|..] + now[|seen|..];
    LastStateSplit(seen[|was|..], now[|seen|..]);
  }

  lemma PreparedIsOn(t: seq<Entry>, at: nat, key: string, reply: Json, before: Json)
    requires PreparedAt(t, at, key, reply, before)
    ensures Prepared(key, Ok(reply)) in t
  {
  }

  /** The press just bracketed used the token of the preparation, and nothing had changed up to it. */
  lemma PressPrepared(was: seq<Entry>, ready: seq<Entry>, now: seq<Entry>, earlier: nat, at: nat, key: string,
      token: string,
      window: Json, reply: Json, native: Json, before: Json)
    requires Unread(was, ready) && Unread(ready, now) && |ready| <= at < |now|
    requires PreparedAt(was, earlier, key, reply, before) && now[at] == Pressed(key, token, Ok(native))
    requires PreparedToken(reply, key, window).Some? && PreparedToken(reply, key, window).value.0 == token
    requires Bracketed(now, 2, at)
    ensures PressedAt(now, at, key, window, reply, native, before)
  {
    hide Unread, Bracketed, PreparedAt, PreparedToken;
    UnreadTwice(was, ready, now);
    UnreadIsMore(was, ready);
    UnreadPrefix(was, now, at);
    PreparedStays(was, now[..at], earlier, key, reply, before);
  }

  /** Reading the field after the press leaves the press itself, and what stood before it. */
  lemma PressedThenRead(t: seq<Entry>, t': seq<Entry>, at: nat, key: string, window: Json, reply: Json, native: Json,
      before: Json)
    requires t <= t' && PressedAt(t, at, key, window, reply, native, before)
    ensures PressedAt(t', at, key, window, reply, native, before)
  {
    hide Bracketed, PreparedAt, PreparedToken;
    BracketStays(t, t', 2, at);
    Sides(t, t', at);
  }

  lemma PressEvidence(t: seq<Entry>, at: nat, key: string, window: Json, reply: Json, native: Json, before: Json,
      outcome: Outcome)
    requires PressCount(t) == 1 && at < |t| && PressedAt(t, at, key, window, reply, native, before)
    requires match outcome
      case PreparationRefused => false
      case DispatchRefused => DefiniteNoPost(native) && Classifiable(Get(native, "error")) && Unchanged(t, at, before)
      case EffectVerified =>
        && ReceiptMatches(native, reply) && Armed(t, at, before) && GeometryKept(t, at)
        && LastState(t[at + 1..]).Some? && VerifyEffect(native, before, LastState(t[at + 1..]).value, key)
    ensures Evidence(t, key, window, outcome)
  {
    hide PressedAt, DefiniteNoPost, Classifiable, Unchanged, ReceiptMatches, Armed, GeometryKept, VerifyEffect,
        LastState, PressCount;
    assert Shown(t, at, key, reply, native, before, outcome);
  }

  lemma RefusalEvidence(t: seq<Entry>, at: nat, key: string, window: Json, reply: Json, before: Json)
    requires PressCount(t) == 0 && PreparedAt(t, at, key, reply, before) && PreparationRefusal(reply)
    ensures Evidence(t, key, window, PreparationRefused)
  {
    hide PreparedAt, PreparationRefusal, PressCount;
  }
}
