/**
 * What counts as evidence in the one-attempt key study: the checks of
 * `scripts/macos_concurrent_keys.py`, `scripts/macos_focus_witness.py` and
 * `scripts/macos_arrow_acceptance.py`. A check that raises is one that does not hold.
 */
module KeyEvidence {
  import opened Common
  import opened PyJson

  datatype Phase = Before | After

  predicate ValidKey(key: string) {
    key == "ArrowLeft" || key == "ArrowRight"
  }

  // ---------------------------------------------------------------------------------------
  // The passive witness.
  // ---------------------------------------------------------------------------------------

  predicate ValidSample(v: Json) {
    && HasKeys(v, {"status", "pid_status", "value_present", "valid"})
    && IntIn(v.fields["status"], -0x8000_0000, 0x7FFF_FFFF) && IntIn(v.fields["pid_status"], -0x8000_0000, 0x7FFF_FFFF)
    && v.fields["valid"].Bool? && v.fields["value_present"].Bool?
    && (v.fields["valid"].b ==>
          v.fields["status"] == Int(0) && v.fields["pid_status"] == Int(0) && v.fields["value_present"].b)
  }

  /** Whether focus changed is told only when both samples are valid. */
  predicate ValidChange(v: Json, who: string, before: string, after: string, changed: string)
    requires v.Obj? && {before, after, changed} <= v.fields.Keys
  {
    && ValidSample(v.fields[before]) && ValidSample(v.fields[after])
    && if v.fields[before].fields["valid"].b && v.fields[after].fields["valid"].b
       then v.fields[changed].Bool?
       else v.fields[changed] == Null
  }

  const BEFORE_FIELDS := {"sequence", "phase", "human", "receiver"}
  const AFTER_FIELDS := {"sequence", "phase", "complete", "human_before", "human_after", "receiver_before",
      "receiver_after",
    "human_changed", "receiver_changed", "foreground_changed", "target_foreground_observed", "elapsed_us",
    "continuous_isolation_verified"}

  predicate ValidFocus(v: Json, sequence: int, phase: Phase)
    requires v.Obj?
  {
    && Get(v, "sequence") == Int(sequence)
    && match phase
       case Before =>
         && v.fields.Keys - {"hid_activity"} == BEFORE_FIELDS && v.fields["phase"] == Str("before")
         && ValidSample(v.fields["human"]) && ValidSample(v.fields["receiver"])
       case After =>
         && v.fields.Keys - {"hid_activity"} == AFTER_FIELDS && v.fields["phase"] == Str("after")
         && v.fields["complete"] == Bool(true) && IntIn(v.fields["elapsed_us"], 0, 30000000)
         && ValidChange(v, "human", "human_before", "human_after", "human_changed")
         && ValidChange(v, "receiver", "receiver_before", "receiver_after", "receiver_changed")
         && (v.fields["foreground_changed"] == Null || v.fields["foreground_changed"].Bool?)
         && v.fields["target_foreground_observed"] == Bool(false)
             && v.fields["continuous_isolation_verified"] == Bool(false)
  }

  const COUNTERS := {"any_input", "key_down", "key_up", "mouse_move", "scroll"}

  /** Counters that went backwards are unknown; others are 32-bit, and `changed` says whether any moved. */
  predicate ValidActivity(v: Json, phase: Phase) {
    match phase
    case Before =>
      HasKeys(v, {"source", "sampled"}) && v.fields["source"] == Str("hid_system") && v.fields["sampled"] == Bool(true)
    case After =>
      && HasKeys(v, {"source", "counter_regression", "deltas", "changed", "attribution"})
      && v.fields["source"] == Str("hid_system") && v.fields["attribution"] == Str("not_authenticated")
      && v.fields["counter_regression"].Bool? && HasKeys(v.fields["deltas"], COUNTERS)
      && var deltas := v.fields["deltas"].fields;
         if v.fields["counter_regression"].b
         then v.fields["changed"] == Null && forall c :: c in COUNTERS ==> deltas[c] == Null
         else
           && (forall c :: c in COUNTERS ==> IntIn(deltas[c], 0, 0xFFFF_FFFF))
           && v.fields["changed"] == Bool(exists c :: c in COUNTERS && deltas[c] != Int(0))
  }

  predicate ValidWitness(v: Json, sequence: int, phase: Phase) {
    && v.Obj? && "hid_activity" in v.fields
    && ValidFocus(v, sequence, phase) && ValidActivity(v.fields["hid_activity"], phase)
  }

  /** The baseline the finishing witness reports is the one sampled at the start. */
  predicate SameBaseline(before: Json, after: Json) {
    && PyEq(Get(after, "human_before"), Get(before, "human"))
    && PyEq(Get(after, "receiver_before"), Get(before, "receiver"))
  }

  // ---------------------------------------------------------------------------------------
  // The preparation.
  // ---------------------------------------------------------------------------------------

  predicate IsHex(c: char) {
    '0' <= c <= '9' || 'a' <= c <= 'f'
  }

  predicate WellFormedToken(token: string) {
    |token| == 42 && token[..10] == "macos_key:" && forall i :: 10 <= i < |token| ==> IsHex(token[i])
  }

  function BothBounds(window: Json): Json {
    Obj(map["ax" := window, "cg" := window])
  }

  /** The token of a preparation, and the receiver whose geometry is still to be checked. */
  function PreparedToken(reply: Json, key: string, window: Json): (r: Option<(string, Json)>)
    ensures r.Some? ==>
      && WellFormedToken(r.value.0)
      && Get(Get(reply, "prepared"), "token") == Str(r.value.0) && Get(Get(reply, "prepared"), "receiver") == r.value.1
      && Get(reply, "ok") == Bool(true) && Get(Get(reply, "prepared"), "key") == Str(key)
  {
    if !HasKeys(reply, {"ok", "action_attempted", "prepared"}) || reply.fields["ok"] != Bool(true)
       || reply.fields["action_attempted"] != Bool(false) then None
    else
      var frozen := reply.fields["prepared"];
      if !HasKeys(frozen, {"token", "key", "receiver", "window", "expires_in_ms"}) || frozen.fields["key"] != Str(key)
         || frozen.fields["expires_in_ms"] != Int(10000) then None
      else
        var token, receiver := frozen.fields["token"], frozen.fields["receiver"];
        if !token.Str? || !WellFormedToken(token.s) then None
        else if !receiver.Obj? || Get(receiver, "role") != Str("AXTextField")
                || Get(receiver, "enabled") != Bool(true) then None
        else if !PyEq(frozen.fields["window"], BothBounds(window)) then None
        else Some((token.s, receiver))
  }

  predicate Classifiable(error: Json) {
    error.Str? && 0 < |error.s| <= 8192
  }

  /** A refusal to prepare: nothing in it but a diagnostic that can be classified. */
  predicate PreparationRefusal(reply: Json) {
    HasKeys(reply, {"ok", "error"}) && reply.fields["ok"] == Bool(false) && Classifiable(reply.fields["error"])
  }

  // ---------------------------------------------------------------------------------------
  // The dispatch.
  // ---------------------------------------------------------------------------------------

  predicate DefiniteNoPost(reply: Json) {
    && reply.Obj? && Get(reply, "ok") == Bool(false)
    && Get(reply, "action_attempted") == Bool(false) && Get(reply, "effects_unconfirmed") == Bool(false)
    && Get(reply, "posting_calls") == Int(0) && Get(reply, "effect_verified") == Bool(false)
    && (Get(reply, "focus_interference") == Null || Get(reply, "focus_interference") == Bool(false))
    && Get(reply, "error").Str? && Get(reply, "error").s != ""
    && "action" !in reply.fields
  }

  const PRISTINE := Obj(map["active" := Str("first"), "events" := Arr([]), "overflow" := Bool(false),
    "count" := Int(0), "caret" := Int(2), "end" := Int(2), "value" := Str("fixture-a")])

  predicate KeyEvent(event: Json, kind: string, key: string) {
    && event.Obj? && Get(event, "kind") == Str(kind) && Get(event, "target") == Str("first")
    && Get(event, "key") == Str(key) && Get(event, "code") == Str(key)
    && Get(event, "trusted") == Bool(true) && Get(event, "repeat") == Bool(false)
    && Get(event, "alt") == Bool(false) && Get(event, "control") == Bool(false)
    && Get(event, "meta") == Bool(false) && Get(event, "shift") == Bool(false)
  }

  predicate KeyReceipt(action: Json, key: string) {
    && action.Obj? && Get(action, "key") == Str(key) && Get(action, "status") == Str("dispatched")
    && Get(action, "posting_calls") == Int(2) && Get(action, "effect_verified") == Bool(false)
    && Get(action, "effects_unconfirmed") == Bool(true) && Get(action, "action_attempted") == Bool(true)
    && Get(action, "focus_interference") == Bool(false) && Get(action, "receiver_unchanged") == Bool(true)
    && Get(action, "detail") == Null
  }

  /** `verify_effect`. */
  predicate VerifyEffect(native: Json, before: Json, after: Json, key: string) {
    var expected := if key == "ArrowLeft" then 1 else 3;
    var events := Get(after, "events");
    && ValidKey(key) && native.Obj? && Get(native, "ok") == Bool(true)
    && KeyReceipt(Get(native, "action"), key)
    && before.Obj? && Get(before, "active") == Str("first") && Get(before, "events") == Arr([])
    && PyEq(Get(before, "caret"), Get(before, "end")) && PyEq(Get(before, "end"), Int(2))
        && Get(before, "value") == Str("fixture-a")
    && after.Obj? && Get(after, "active") == Str("first") && PyEq(Get(after, "value"), Get(before, "value"))
    && Get(after, "count") == Int(1) && Get(after, "overflow") == Bool(false)
    && Get(after, "caret").Int? && Get(after, "end").Int?
    && Get(after, "caret") == Get(after, "end") && Get(after, "end") == Int(expected)
    && events.Arr? && |events.items| == 2
    && KeyEvent(events.items[0], "keydown", key) && KeyEvent(events.items[1], "keyup", key)
  }

  /** The outer receipt and the receiver and window it names, against what was prepared. */
  predicate ReceiptMatches(native: Json, prepared: Json) {
    var action, frozen := Get(native, "action"), Get(prepared, "prepared");
    && Get(native, "action_attempted") == Bool(true) && Get(native, "effects_unconfirmed") == Bool(true)
    && Get(native, "focus_interference") == Bool(false)
    && PyEq(Get(action, "receiver"), Get(action, "after_receiver"))
        && PyEq(Get(action, "after_receiver"), Get(frozen, "receiver"))
    && PyEq(Get(action, "before"), Get(action, "after")) && PyEq(Get(action, "after"), Get(frozen, "window"))
  }

  function CaretOf(state: Json): real {
    var caret := Get(state, "caret");
    if IsNumber(caret) then Number(caret) else 0.0
  }

  function EventsOf(state: Json): seq<Json> {
    var events := Get(state, "events");
    if events.Arr? then events.items else []
  }

  /** One trusted key pair, one step of the caret in the key's direction, the text as it was. */
  predicate OnePairAndOneStep(before: Json, after: Json, key: string) {
    && CaretOf(after) - CaretOf(before) == (if key == "ArrowLeft" then -1.0 else 1.0)
    && |EventsOf(before)| == 0 && |EventsOf(after)| == 2
    && (forall i :: 0 <= i < 2 ==>
          && Get(EventsOf(after)[i], "kind") == Str(if i == 0 then "keydown" else "keyup")
          && Get(EventsOf(after)[i], "key") == Str(key) && Get(EventsOf(after)[i], "trusted") == Bool(true))
    && Get(after, "value") == Get(before, "value") == Str("fixture-a")
  }

  /** A verified effect is one pair and one step, not a refusal. */
  lemma EffectIsOnePairAndOneStep(native: Json, before: Json, after: Json, key: string)
    requires VerifyEffect(native, before, after, key)
    ensures OnePairAndOneStep(before, after, key) && !DefiniteNoPost(native)
  {
    hide PyEq, KeyReceipt;
    EqualToInt(Get(before, "caret"), Get(before, "end"), 2);
    EqualToString(Get(after, "value"), Get(before, "value"));
  }

  lemma EqualToInt(a: Json, b: Json, n: int)
    requires PyEq(a, b) && PyEq(b, Int(n))
    ensures IsNumber(a) && Number(a) == n as real
  {
  }

  lemma EqualToString(a: Json, b: Json)
    requires PyEq(a, b) && b.Str?
    ensures a == b
  {
  }

  /** A valid finishing witness cannot claim activity no counter shows, nor hide activity one does. */
  lemma ActivityIsCounted(v: Json, sequence: int)
    requires ValidWitness(v, sequence, After)
    ensures var activity := v.fields["hid_activity"];
      var deltas := Get(activity, "deltas");
      && (Get(activity, "changed") == Bool(true) <==>
            && Get(activity, "counter_regression") == Bool(false)
            && exists c :: c in COUNTERS && Get(deltas, c).Int? && Get(deltas, c).n > 0)
      && (Get(activity, "changed") == Null <==> Get(activity, "counter_regression") == Bool(true))
  {
    var activity := v.fields["hid_activity"];
    var deltas := activity.fields["deltas"].fields;
    assert forall c :: c in COUNTERS ==> c in deltas;
    if activity.fields["counter_regression"] == Bool(false) {
      forall c | c in COUNTERS ensures deltas[c] != Int(0) <==> Get(activity.fields["deltas"], c).n > 0 {
        assert IntIn(deltas[c], 0, 0xFFFF_FFFF);
      }
    }
  }

  // ---------------------------------------------------------------------------------------
  // What is written into the report.
  // ---------------------------------------------------------------------------------------

  /** A reply as the report keeps it: without the one-use token. */
  function PublicReply(reply: Json): Json {
    if !reply.Obj? then Obj(map["malformed_reply" := Bool(true)])
    else if !Get(reply, "prepared").Obj? then reply
    else
      var prepared := reply.fields["prepared"].fields;
      Obj(reply.fields["prepared" := Obj(map k | k in prepared && k != "token" :: prepared[k])])
  }

  lemma TokenIsNotReported(reply: Json, key: string, window: Json)
    requires PreparedToken(reply, key, window).Some?
    ensures Get(Get(PublicReply(reply), "prepared"), "token") == Null
    ensures forall k :: k != "token" ==> Get(Get(PublicReply(reply), "prepared"), k) == Get(Get(reply, "prepared"), k)
  {
  }
}
