/**
 * The log of the one-attempt key study: every call it made and what came back, what a lawful log looks
 * like, and what must be on it before the study may call itself complete.
 */
module KeyLog {
  import opened Common
  import opened PyJson
  import opened KeyEvidence

  /** What a call raises: an `Exception`, or something `except Exception` lets through. */
  datatype Exn = Ordinary | Interrupt

  datatype Unit = Unit

  datatype Script = Arm | FieldState | TargetState

  /** One call into the environment, with what came back. Clock readings and pauses are not logged. */
  datatype Entry =
    | Prepared(key: string, prepared: Result<Json, Exn>)
    | Pressed(key: string, token: string, native: Result<Json, Exn>)
    | Evaluated(script: Script, value: Result<Json, Exn>)
    | Witnessed(phase: Phase, sequence: int, sample: Result<Json, Exn>)
    | GeometryChecked(receiver: Json, geometry: Result<Unit, Exn>)
    | Gate(gate: Result<Unit, Exn>)
    | Checkpointed(attempted: bool, completed: bool, saved: Result<Unit, Exn>)

  datatype Stage = Preparation | Dispatch

  datatype Outcome = PreparationRefused | DispatchRefused | EffectVerified

  // ---------------------------------------------------------------------------------------
  // What a log must look like.
  // ---------------------------------------------------------------------------------------

  function PressCount(t: seq<Entry>): nat {
    if t == [] then 0 else PressCount(t[..|t| - 1]) + if t[|t| - 1].Pressed? then 1 else 0
  }

  /** The field state last read. */
  function LastState(t: seq<Entry>): Option<Json> {
    if t == [] then None
    else
      var e := t[|t| - 1];
      if e.Evaluated? && e.script == FieldState && e.value.Ok? then Some(e.value.value) else LastState(t[..|t| - 1])
  }

  /** A press was requested and no finishing witness has been asked for since. */
  predicate Unwitnessed(t: seq<Entry>) {
    if t == [] then false
    else if t[|t| - 1].Pressed? then true
    else if t[|t| - 1].Witnessed? && t[|t| - 1].phase == After then false
    else Unwitnessed(t[..|t| - 1])
  }

  /** The token came from a well-formed preparation of this key whose receiver passed the geometry check. */
  ghost predicate TokenGranted(t: seq<Entry>, key: string, token: string, window: Json) {
    exists reply, receiver ::
      && Prepared(key, Ok(reply)) in t && PreparedToken(reply, key, window) == Some((token, receiver))
      && GeometryChecked(receiver, Ok(Unit)) in t
  }

  ghost predicate BaselineTaken(t: seq<Entry>, sequence: int) {
    exists v :: Witnessed(Before, sequence, Ok(v)) in t && ValidWitness(v, sequence, Before)
  }

  /** What must precede a press: a granted token, a valid baseline, and, last of all, its attempt on record. */
  ghost predicate Covered(t: seq<Entry>, key: string, token: string, window: Json) {
    && t != [] && t[|t| - 1] == Checkpointed(true, false, Ok(Unit))
    && ValidKey(key) && TokenGranted(t, key, token, window) && BaselineTaken(t, 2)
  }

  ghost predicate Lawful(t: seq<Entry>, window: Json) {
    t == [] ||
    (var e := t[|t| - 1];
     Lawful(t[..|t| - 1], window) && (e.Pressed? ==> Covered(t[..|t| - 1], e.key, e.token, window)))
  }

  // ---------------------------------------------------------------------------------------
  // Evidence: what stands before an operation on the log, and what after it.
  // ---------------------------------------------------------------------------------------

  /**
   * A closed bracket around entry `at`: valid samples before and after, the second reporting the first as its
   * baseline.
   */
  ghost predicate Bracketed(t: seq<Entry>, sequence: int, at: nat)
    requires at < |t|
  {
    exists b, a ::
      && Witnessed(Before, sequence, Ok(b)) in t[..at] && ValidWitness(b, sequence, Before)
      && Witnessed(After, sequence, Ok(a)) in t[at + 1..] && ValidWitness(a, sequence, After)
      && SameBaseline(b, a)
  }

  /** The target's geometry, as it was read before, read again. */
  ghost predicate GeometryAgain(later: seq<Entry>, geometry: Json) {
    exists last :: Evaluated(TargetState, Ok(last)) in later && PyEq(last, geometry)
  }

  /** The last reading of the field, equal to the one it was armed with. */
  ghost predicate FieldAgain(later: seq<Entry>, before: Json) {
    LastState(later).Some? && PyEq(LastState(later).value, before)
  }

  /** The geometry was read on both sides of entry `at`, and is the same. */
  ghost predicate GeometryKept(t: seq<Entry>, at: nat)
    requires at < |t|
  {
    exists geometry :: Evaluated(TargetState, Ok(geometry)) in t[..at] && GeometryAgain(t[at + 1..], geometry)
  }

  /** The fixture was armed, pristine, before entry `at`. */
  predicate Armed(t: seq<Entry>, at: nat, before: Json)
    requires at < |t|
  {
    Evaluated(Arm, Ok(before)) in t[..at] && PyEq(before, PRISTINE)
  }

  /** Entry `at` changed nothing: the field read last after it, and the geometry, are as they were before it. */
  ghost predicate Unchanged(t: seq<Entry>, at: nat, before: Json)
    requires at < |t|
  {
    Armed(t, at, before) && FieldAgain(t[at + 1..], before) && GeometryKept(t, at)
  }

  /** A preparation that succeeded or was refused, bracketed, and that changed nothing. */
  ghost predicate PreparedAt(t: seq<Entry>, at: nat, key: string, reply: Json, before: Json) {
    && at < |t| && t[at] == Prepared(key, Ok(reply))
    && Bracketed(t, 1, at) && Unchanged(t, at, before)
  }

  /** A press with the token of an earlier preparation, both bracketed, nothing changed up to the press. */
  ghost predicate PressedAt(t: seq<Entry>, at: nat, key: string, window: Json, reply: Json, native: Json,
      before: Json) {
    && at < |t| && t[at].Pressed? && t[at].key == key && t[at].native == Ok(native)
    && Bracketed(t, 2, at)
    && PreparedToken(reply, key, window).Some? && PreparedToken(reply, key, window).value.0 == t[at].token
    && exists earlier: nat :: PreparedAt(t[..at], earlier, key, reply, before)
  }

  /** The evidence for each outcome of a press at `at`. */
  ghost predicate Shown(t: seq<Entry>, at: nat, key: string, reply: Json, native: Json, before: Json,
      outcome: Outcome) {
    && at < |t|
    && match outcome
       case PreparationRefused => false
       case DispatchRefused => DefiniteNoPost(native) && Classifiable(Get(native, "error")) && Unchanged(t, at, before)
       case EffectVerified =>
         && ReceiptMatches(native, reply) && Armed(t, at, before) && GeometryKept(t, at)
         && LastState(t[at + 1..]).Some? && VerifyEffect(native, before, LastState(t[at + 1..]).value, key)
  }

  /** What must be on the log for a study to call itself complete with an outcome. */
  ghost predicate Evidence(t: seq<Entry>, key: string, window: Json, outcome: Outcome) {
    if outcome == PreparationRefused then
      PressCount(t) == 0 && exists at: nat, reply, before ::
        PreparedAt(t, at, key, reply, before) && PreparationRefusal(reply)
    else
      && PressCount(t) == 1
      && exists at: nat, reply, native, before ::
           PressedAt(t, at, key, window, reply, native, before) && Shown(t, at, key, reply, native, before, outcome)
  }

  // ---------------------------------------------------------------------------------------
  // Growing logs.
  // ---------------------------------------------------------------------------------------

  lemma {:induction false} LastStateSplit(a: seq<Entry>, b: seq<Entry>)
    ensures LastState(a + b) == if LastState(b).Some? then LastState(b) else LastState(a)
    decreases |b|
  {
    if b == [] {
      assert a + b == a;
    } else {
      assert (a + b)[..|a + b| - 1] == a + b[..|b| - 1];
      LastStateSplit(a, b[..|b| - 1]);
    }
  }

  /** More of the log, in which no press was requested. */
  ghost predicate Quiet(t: seq<Entry>, t': seq<Entry>, window: Json) {
    && t <= t' && (forall e :: e in t ==> e in t')
    && PressCount(t') == PressCount(t)
    && (Lawful(t, window) ==> Lawful(t', window))
    && (Unwitnessed(t') ==> Unwitnessed(t))
  }

  /** More of the log, in which the field was not read. */
  predicate Unread(t: seq<Entry>, t': seq<Entry>) {
    t <= t' && LastState(t'[|t|..]).None?
  }

  /** More of the log, in which neither a press was requested nor the field read. */
  ghost predicate Calm(t: seq<Entry>, t': seq<Entry>, window: Json) {
    Quiet(t, t', window) && Unread(t, t')
  }

  lemma UnreadTwice(t: seq<Entry>, u: seq<Entry>, v: seq<Entry>)
    requires Unread(t, u) && Unread(u, v)
    ensures Unread(t, v)
  {
    assert v[|t|..] == u[|t|..] + v[|u|..];
    LastStateSplit(u[|t|..], v[|u|..]);
  }

  lemma UnreadPrefix(t: seq<Entry>, t': seq<Entry>, n: nat)
    requires Unread(t, t') && |t| <= n <= |t'|
    ensures Unread(t, t'[..n])
  {
    assert t'[|t|..] == t'[..n][|t|..] + t'[n..];
    LastStateSplit(t'[..n][|t|..], t'[n..]);
  }

  lemma CalmAt(t: seq<Entry>, window: Json)
    ensures Calm(t, t, window)
  {
  }

  lemma Calmly(t: seq<Entry>, u: seq<Entry>, v: seq<Entry>, window: Json)
    requires Calm(t, u, window) && Calm(u, v, window)
    ensures Calm(t, v, window)
  {
    hide Unread;
    UnreadTwice(t, u, v);
  }

  lemma CalmKeeps(t: seq<Entry>, t': seq<Entry>, key: string, token: string, window: Json)
    requires Calm(t, t', window)
    ensures TokenGranted(t, key, token, window) ==> TokenGranted(t', key, token, window)
    ensures forall n :: BaselineTaken(t, n) ==> BaselineTaken(t', n)
    ensures forall e :: e in t ==> e in t'
    ensures Lawful(t, window) ==> Lawful(t', window)
    ensures PressCount(t') == PressCount(t)
    ensures !Unwitnessed(t) ==> !Unwitnessed(t')
    ensures t <= t' && Unread(t, t')
  {
    hide PressCount, LastState, Unwitnessed, Lawful, PreparedToken, ValidWitness;
  }

  lemma QuietAt(t: seq<Entry>, window: Json)
    ensures Quiet(t, t, window)
  {
  }

  lemma Quietly(t: seq<Entry>, u: seq<Entry>, v: seq<Entry>, window: Json)
    requires Quiet(t, u, window) && Quiet(u, v, window)
    ensures Quiet(t, v, window)
  {
  }

  lemma QuietKeeps(t: seq<Entry>, t': seq<Entry>, window: Json)
    requires Quiet(t, t', window)
    ensures PressCount(t') == PressCount(t) && (Lawful(t, window) ==> Lawful(t', window))
    ensures !Unwitnessed(t) ==> !Unwitnessed(t')
    ensures t <= t' && forall e :: e in t ==> e in t'
  {
  }

  /** A press was requested, on a covered log. */
  ghost predicate Pressing(t: seq<Entry>, t': seq<Entry>, key: string, token: string, native: Result<Json, Exn>,
      window: Json) {
    && t' == t + [Pressed(key, token, native)]
    && PressCount(t') == PressCount(t) + 1
    && (Lawful(t, window) && Covered(t, key, token, window) ==> Lawful(t', window))
  }

  lemma Appended(t: seq<Entry>, e: Entry, window: Json)
    ensures e in t + [e] && (t + [e])[|t|..] == [e]
    ensures !e.Pressed? ==> Quiet(t, t + [e], window)
    ensures !(e.Evaluated? && e.script == FieldState) ==> Unread(t, t + [e])
    ensures e.Evaluated? && e.script == FieldState && e.value.Ok? ==> LastState([e]) == Some(e.value.value)
    ensures e.Witnessed? && e.phase == After ==> !Unwitnessed(t + [e])
    ensures e.Pressed? ==> Pressing(t, t + [e], e.key, e.token, e.native, window)
  {
    hide Covered;
    assert (t + [e])[..|t|] == t && (t + [e])[|t|] == e;
    LastStateOfOne(e);
    assert (t + [e])[|t|..] == [e];
  }

  lemma LastStateOfOne(e: Entry)
    ensures LastState([e]) == if e.Evaluated? && e.script == FieldState
        && e.value.Ok? then Some(e.value.value) else None
  {
    assert [e][..0] == [] && LastState([]) == None;
  }

  lemma OkUnit(r: Result<Unit, Exn>)
    requires r.Ok?
    ensures r == Ok(Unit)
  {
    match r.value
    case Unit =>
  }

  /** What an operation does to the log: its own request at most, at `at`, and that only once. */
  ghost predicate Operated(t: seq<Entry>, t': seq<Entry>, stage: Stage, key: string, token: string, r: Result<Json,
      Exn>, at: nat, window: Json) {
    || (Calm(t, t', window) && (r.Ok? ==> stage == Preparation && |t| <= at < |t'| && t'[at] == Prepared(key, r)))
    || (stage == Dispatch && PressedOnce(t, t', key, token, r, at, window))
  }

  ghost predicate PressedOnce(t: seq<Entry>, t': seq<Entry>, key: string, token: string, r: Result<Json, Exn>,
      at: nat, window: Json) {
    && Unread(t, t') && (forall e :: e in t ==> e in t')
    && PressCount(t') == PressCount(t) + 1 && Lawful(t', window)
    && (r.Ok? ==> |t| <= at < |t'| && t'[at] == Pressed(key, token, r))
  }

  lemma PressAfterCalm(was: seq<Entry>, near: seq<Entry>, now: seq<Entry>, key: string, token: string,
      r: Result<Json, Exn>, window: Json)
    requires Calm(was, near, window) && Pressing(near, now, key, token, r, window)
    requires Lawful(was, window) && Covered(near, key, token, window)
    ensures PressedOnce(was, now, key, token, r, |near|, window) && PressCount(near) == PressCount(was)
  {
    hide Covered, Lawful, PressCount, Unwitnessed;
    Appended(near, Pressed(key, token, r), window);
    UnreadTwice(was, near, now);
  }

  lemma OperatedInside(t: seq<Entry>, u: seq<Entry>, v: seq<Entry>, w: seq<Entry>,
      stage: Stage, key: string, token: string, r: Result<Json, Exn>, at: nat, window: Json)
    requires Calm(t, u, window) && Operated(u, v, stage, key, token, r, at, window) && Calm(v, w, window)
    ensures Operated(t, w, stage, key, token, r, at, window)
    ensures forall e :: Operated(t, w, stage, key, token, Err(e), at, window)
    ensures PressCount(w) > PressCount(t) ==> stage == Dispatch
    ensures PressCount(w) - PressCount(t) == PressCount(v) - PressCount(u)
    ensures u <= v <= w && (r.Ok? ==> |u| <= at < |v|)
  {
    hide LastState, Unread, Lawful, PressCount, Calm, TokenGranted, BaselineTaken;
    CalmKeeps(t, u, key, token, window);
    CalmKeeps(v, w, key, token, window);
    if Calm(u, v, window) {
      Calmly(t, u, v, window);
      Calmly(t, v, w, window);
      CalmKeeps(u, v, key, token, window);
    } else {
      UnreadIsMore(u, v);
      UnreadTwice(t, u, v);
      UnreadTwice(t, v, w);
      assert PressedOnce(t, w, key, token, r, at, window);
    }
  }

  lemma UnreadIsMore(t: seq<Entry>, t': seq<Entry>)
    requires Unread(t, t')
    ensures t <= t'
  {
  }

  /** What the one operation of a bracket leaves of what was known before it. */
  lemma OperatedKeeps(t: seq<Entry>, t': seq<Entry>, stage: Stage, key: string, token: string, r: Result<Json, Exn>,
      at: nat, window: Json)
    requires Operated(t, t', stage, key, token, r, at, window) && Lawful(t, window)
    ensures Lawful(t', window) && Unread(t, t') && t <= t' && (forall e :: e in t ==> e in t')
    ensures PressCount(t') <= PressCount(t) + 1 && (stage == Preparation ==> PressCount(t') == PressCount(t))
    ensures r.Ok? ==> |t| <= at < |t'|
    ensures r.Ok? && stage == Preparation ==> t'[at] == Prepared(key, r)
    ensures r.Ok? && stage == Dispatch ==> PressCount(t') == PressCount(t) + 1 && t'[at] == Pressed(key, token, r)
  {
    hide PressCount, Lawful, Unwitnessed, LastState;
  }

  lemma InPrefix(e: Entry, t: seq<Entry>, t': seq<Entry>, at: nat)
    requires e in t && t <= t' && |t| <= at <= |t'|
    ensures e in t'[..at]
  {
    var i :| 0 <= i < |t| && t[i] == e;
    assert t'[..at][i] == e;
  }

  lemma InSuffix(e: Entry, t: seq<Entry>, t': seq<Entry>, at: nat)
    requires t <= t' && at < |t| && e in t'[|t|..]
    ensures e in t'[at + 1..]
  {
    var i :| 0 <= i < |t'[|t|..]| && t'[|t|..][i] == e;
    assert t'[at + 1..][|t| - at - 1 + i] == e;
  }

  // ---------------------------------------------------------------------------------------
  // Evidence gathered, and kept.
  // ---------------------------------------------------------------------------------------

  lemma BracketClosed(u: seq<Entry>, v: seq<Entry>, w: seq<Entry>, sequence: int, at: nat, b: Json, a: Json)
    requires u <= v <= w && |u| <= at < |v|
    requires Witnessed(Before, sequence, Ok(b)) in u && ValidWitness(b, sequence, Before)
    requires Witnessed(After, sequence, Ok(a)) in w[|v|..] && ValidWitness(a, sequence, After) && SameBaseline(b, a)
    ensures Bracketed(w, sequence, at)
  {
    hide ValidWitness, SameBaseline;
    InPrefix(Witnessed(Before, sequence, Ok(b)), u, w, at);
    InSuffix(Witnessed(After, sequence, Ok(a)), v, w, at);
  }

  /** A later stretch of the log, on which the readings were made again, follows the operation. */
  lemma ReadAfter(t: seq<Entry>, w: seq<Entry>, at: nat)
    requires t <= w && at < |t|
    ensures LastState(w[|t|..]).Some? ==> LastState(w[at + 1..]) == LastState(w[|t|..])
    ensures forall geometry :: GeometryAgain(w[|t|..], geometry) ==> GeometryAgain(w[at + 1..], geometry)
  {
    hide PyEq;
    var d := w[|t|..];
    assert w[at + 1..] == t[at + 1..] + d;
    LastStateSplit(t[at + 1..], d);
    forall geometry | GeometryAgain(d, geometry) ensures GeometryAgain(w[at + 1..], geometry) {
      var last :| Evaluated(TargetState, Ok(last)) in d && PyEq(last, geometry);
      InSuffix(Evaluated(TargetState, Ok(last)), t, w, at);
    }
  }

  lemma GeometryKeeps(u: seq<Entry>, t: seq<Entry>, w: seq<Entry>, at: nat, geometry: Json)
    requires u <= t <= w && |u| <= at < |t|
    requires Evaluated(TargetState, Ok(geometry)) in u && GeometryAgain(w[|t|..], geometry)
    ensures GeometryKept(w, at)
  {
    hide GeometryAgain;
    InPrefix(Evaluated(TargetState, Ok(geometry)), u, w, at);
    ReadAfter(t, w, at);
  }

  lemma ArmedBefore(u: seq<Entry>, w: seq<Entry>, at: nat, before: Json)
    requires u <= w && |u| <= at < |w| && Evaluated(Arm, Ok(before)) in u && PyEq(before, PRISTINE)
    ensures Armed(w, at, before)
  {
    hide PyEq;
    InPrefix(Evaluated(Arm, Ok(before)), u, w, at);
  }

  lemma NothingChanged(u: seq<Entry>, t: seq<Entry>, w: seq<Entry>, at: nat, before: Json, geometry: Json)
    requires u <= t <= w && |u| <= at < |t|
    requires Evaluated(Arm, Ok(before)) in u && PyEq(before, PRISTINE) && Evaluated(TargetState, Ok(geometry)) in u
    requires GeometryAgain(w[|t|..], geometry) && FieldAgain(w[|t|..], before)
    ensures Unchanged(w, at, before)
  {
    hide GeometryAgain, PyEq;
    GeometryKeeps(u, t, w, at, geometry);
    ArmedBefore(u, w, at, before);
    ReadAfter(t, w, at);
  }

  /** As long as the field is not read again, what an entry was shown to be stays shown. */
  lemma BracketStays(t: seq<Entry>, t': seq<Entry>, sequence: int, at: nat)
    requires t <= t' && at < |t| && Bracketed(t, sequence, at)
    ensures Bracketed(t', sequence, at)
  {
    hide ValidWitness, SameBaseline;
    Sides(t, t', at);
  }

  lemma Sides(t: seq<Entry>, t': seq<Entry>, at: nat)
    requires t <= t' && at < |t|
    ensures t'[..at] == t[..at] && t'[at + 1..] == t[at + 1..] + t'[|t|..]
  {
  }

  lemma GeometryStays(t: seq<Entry>, t': seq<Entry>, at: nat)
    requires t <= t' && at < |t| && GeometryKept(t, at)
    ensures GeometryKept(t', at)
  {
    hide PyEq;
    Sides(t, t', at);
  }

  lemma FieldStays(t: seq<Entry>, t': seq<Entry>, at: nat)
    requires Unread(t, t') && at < |t|
    ensures LastState(t'[at + 1..]) == LastState(t[at + 1..])
  {
    Sides(t, t', at);
    LastStateSplit(t[at + 1..], t'[|t|..]);
  }

  lemma UnchangedStays(t: seq<Entry>, t': seq<Entry>, at: nat, before: Json)
    requires Unread(t, t') && at < |t| && Unchanged(t, at, before)
    ensures Unchanged(t', at, before)
  {
    hide PyEq, GeometryKept;
    Sides(t, t', at);
    GeometryStays(t, t', at);
    FieldStays(t, t', at);
  }

  lemma PreparedStays(t: seq<Entry>, t': seq<Entry>, at: nat, key: string, reply: Json, before: Json)
    requires Unread(t, t') && PreparedAt(t, at, key, reply, before)
    ensures PreparedAt(t', at, key, reply, before)
  {
    hide Bracketed, Unchanged;
    UnreadIsMore(t, t');
    BracketStays(t, t', 1, at);
    UnchangedStays(t, t', at, before);
  }

  lemma PressedStays(t: seq<Entry>, t': seq<Entry>, at: nat, key: string, window: Json, reply: Json, native: Json,
      before: Json)
    requires Unread(t, t') && PressedAt(t, at, key, window, reply, native, before)
    ensures PressedAt(t', at, key, window, reply, native, before)
  {
    hide Bracketed, PreparedAt, PreparedToken;
    UnreadIsMore(t, t');
    BracketStays(t, t', 2, at);
    Sides(t, t', at);
  }

  lemma ShownStays(t: seq<Entry>, t': seq<Entry>, at: nat, key: string, reply: Json, native: Json, before: Json,
      outcome: Outcome)
    requires Unread(t, t') && at < |t| && Shown(t, at, key, reply, native, before, outcome)
    ensures Shown(t', at, key, reply, native, before, outcome)
  {
    hide PyEq, GeometryKept, Unchanged, VerifyEffect, ReceiptMatches, DefiniteNoPost, Classifiable;
    UnreadIsMore(t, t');
    Sides(t, t', at);
    match outcome
    case DispatchRefused => UnchangedStays(t, t', at, before);
    case EffectVerified =>
      GeometryStays(t, t', at);
      FieldStays(t, t', at);
    case PreparationRefused =>
  }

  lemma EvidenceStays(t: seq<Entry>, t': seq<Entry>, key: string, window: Json, outcome: Outcome)
    requires Evidence(t, key, window, outcome) && Calm(t, t', window)
    ensures Evidence(t', key, window, outcome)
  {
    hide PressCount, Lawful, PreparationRefusal, PreparedAt, PressedAt, Shown, Calm;
    CalmKeeps(t, t', key, "", window);
    if outcome == PreparationRefused {
      var at: nat, reply, before :| PreparedAt(t, at, key, reply, before) && PreparationRefusal(reply);
      PreparedStays(t, t', at, key, reply, before);
    } else {
      var at: nat, reply, native, before :|
        PressedAt(t, at, key, window, reply, native, before) && Shown(t, at, key, reply, native, before, outcome);
      PressedIsOn(t, at, key, window, reply, native, before);
      PressedStays(t, t', at, key, window, reply, native, before);
      ShownStays(t, t', at, key, reply, native, before, outcome);
    }
  }

  lemma PressedIsOn(t: seq<Entry>, at: nat, key: string, window: Json, reply: Json, native: Json, before: Json)
    requires PressedAt(t, at, key, window, reply, native, before)
    ensures at < |t| && t[at].Pressed?
  {
  }

  // ---------------------------------------------------------------------------------------
  // What a lawful log says.
  // ---------------------------------------------------------------------------------------

  /** Every press, wherever it is, was covered when it was requested. */
  lemma {:induction false} PressIsCovered(t: seq<Entry>, window: Json, i: nat)
    requires Lawful(t, window) && i < |t| && t[i].Pressed?
    ensures Covered(t[..i], t[i].key, t[i].token, window)
  {
    hide Covered;
    var init := t[..|t| - 1];
    if i < |t| - 1 {
      PressIsCovered(init, window, i);
      assert init[..i] == t[..i];
    } else {
      assert init == t[..i];
    }
  }

  /** A count of one is one entry. */
  lemma {:induction false} CountOfOne(t: seq<Entry>, i: nat, j: nat)
    requires PressCount(t) <= 1 && i < |t| && j < |t| && t[i].Pressed? && t[j].Pressed?
    ensures i == j
  {
    var init := t[..|t| - 1];
    if i < |t| - 1 && j < |t| - 1 {
      CountOfOne(init, i, j);
    } else if i < |t| - 1 {
      Counted(init, i);
    } else if j < |t| - 1 {
      Counted(init, j);
    }
  }

  lemma {:induction false} Counted(t: seq<Entry>, i: nat)
    requires i < |t| && t[i].Pressed?
    ensures PressCount(t) >= 1
  {
    if i < |t| - 1 { Counted(t[..|t| - 1], i); }
  }

  /** Every press is followed by a request for the finishing witness. */
  lemma {:induction false} PressIsWitnessed(t: seq<Entry>, i: nat)
    requires !Unwitnessed(t) && i < |t| && t[i].Pressed?
    ensures exists j :: i < j < |t| && t[j].Witnessed? && t[j].phase == After
  {
    var last := t[|t| - 1];
    if !(last.Witnessed? && last.phase == After) {
      var init := t[..|t| - 1];
      assert i < |init|;
      PressIsWitnessed(init, i);
      var j :| i < j < |init| && init[j].Witnessed? && init[j].phase == After;
      assert t[j] == init[j];
    }
  }

  /**
   * The point of the study. With the evidence for an outcome on a lawful log: a refused preparation means no
   * press; otherwise there is one press, covered when it was requested, with the token of a preparation that
   * had changed nothing. After a refused dispatch the field, read after the press, is as it was armed. After a
   * verified effect the readings before and after the press differ by one trusted key pair and one caret step.
   */
  lemma StudyIsSound(t: seq<Entry>, key: string, window: Json, outcome: Outcome)
    requires Evidence(t, key, window, outcome) && Lawful(t, window)
    ensures outcome == PreparationRefused <==> forall i :: 0 <= i < |t| ==> !t[i].Pressed?
    ensures forall i, j :: 0 <= i < |t| && 0 <= j < |t| && t[i].Pressed? && t[j].Pressed? ==> i == j
    ensures outcome == PreparationRefused ==>
      exists at: nat, before :: at < |t| && t[at].Prepared? && Unchanged(t, at, before)
    ensures outcome != PreparationRefused ==>
      exists at: nat, before ::
        && at < |t| && t[at].Pressed? && Covered(t[..at], key, t[at].token, window)
        && Armed(t, at, before) && Bracketed(t, 2, at) && GeometryKept(t, at)
        && LastState(t[at + 1..]).Some?
        && var after := LastState(t[at + 1..]).value;
           if outcome == DispatchRefused then PyEq(after, before) else OnePairAndOneStep(before, after, key)
  {
    hide Covered, PreparedAt, PressedAt, Shown, Lawful, Bracketed, OnePairAndOneStep, PyEq;
    forall i, j | 0 <= i < |t| && 0 <= j < |t| && t[i].Pressed? && t[j].Pressed? ensures i == j {
      CountOfOne(t, i, j);
    }
    if outcome == PreparationRefused {
      forall i | 0 <= i < |t| ensures !t[i].Pressed? {
        if t[i].Pressed? { Counted(t, i); }
      }
      var at: nat, reply, before :| PreparedAt(t, at, key, reply, before) && PreparationRefusal(reply);
      PreparedChangedNothing(t, at, key, reply, before);
    } else {
      var at: nat, reply, native, before :|
        PressedAt(t, at, key, window, reply, native, before) && Shown(t, at, key, reply, native, before, outcome);
      PressedIsOn(t, at, key, window, reply, native, before);
      PressIsCovered(t, window, at);
      PressIsShown(t, at, key, window, reply, native, before, outcome);
    }
  }

  lemma PreparedChangedNothing(t: seq<Entry>, at: nat, key: string, reply: Json, before: Json)
    requires PreparedAt(t, at, key, reply, before)
    ensures at < |t| && t[at].Prepared? && Unchanged(t, at, before)
  {
  }

  lemma PressIsShown(t: seq<Entry>, at: nat, key: string, window: Json, reply: Json, native: Json, before: Json,
      outcome: Outcome)
    requires PressedAt(t, at, key, window, reply, native, before) && Shown(t, at, key, reply, native, before, outcome)
    ensures at < |t| && t[at].Pressed? && t[at].key == key && Bracketed(t, 2, at)
    ensures Armed(t, at, before) && GeometryKept(t, at) && LastState(t[at + 1..]).Some?
    ensures var after := LastState(t[at + 1..]).value;
      if outcome == DispatchRefused then PyEq(after, before) else OnePairAndOneStep(before, after, key)
  {
    hide PyEq, VerifyEffect, ReceiptMatches, DefiniteNoPost, Classifiable, GeometryKept, Bracketed, PreparedAt,
        PreparedToken, LastState,
      OnePairAndOneStep;
    if outcome == EffectVerified {
      EffectIsOnePairAndOneStep(native, before, LastState(t[at + 1..]).value, key);
    }
  }
}
