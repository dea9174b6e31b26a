/**
 * What the checks of `scripts/macos_concurrent_keys.py`, `scripts/macos_focus_witness.py` and
 * `scripts/macos_arrow_acceptance.py` accept: exactly what an honest witness, preparation, refusal or receipt writes.
 */
module KeyLaws {
  import opened Common
  import opened PyJson
  import opened KeyEvidence

  // ---------------------------------------------------------------------------------------
  // Witnesses.
  // ---------------------------------------------------------------------------------------

  /** One sample of the focus, as its writer holds it. */
  datatype Sample = Sample(status: int, pidStatus: int, present: bool, valid: bool)

  predicate HonestSample(s: Sample) {
    && -0x8000_0000 <= s.status <= 0x7FFF_FFFF && -0x8000_0000 <= s.pidStatus <= 0x7FFF_FFFF
    && (s.valid ==> s.status == 0 && s.pidStatus == 0 && s.present)
  }

  function SampleJson(s: Sample): Json {
    Obj(map["status" := Int(s.status), "pid_status" := Int(s.pidStatus), "value_present" := Bool(s.present),
            "valid" := Bool(s.valid)])
  }

  lemma SampleIff(v: Json)
    ensures ValidSample(v) <==> exists s :: HonestSample(s) && v == SampleJson(s)
  {
    if ValidSample(v) {
      var f := v.fields;
      var s := Sample(f["status"].n, f["pid_status"].n, f["value_present"].b, f["valid"].b);
      assert f == SampleJson(s).fields;
    }
  }

  /** The five event counters' movements, or that one of them went backwards. */
  datatype Activity = Regressed | Moved(any: int, down: int, up: int, mouse: int, scroll: int)

  predicate HonestActivity(a: Activity) {
    a.Moved? ==> Count(a.any) && Count(a.down) && Count(a.up) && Count(a.mouse) && Count(a.scroll)
  }

  predicate Count(n: int) { 0 <= n < 0x1_0000_0000 }

  function CountersJson(any: Json, down: Json, up: Json, mouse: Json, scroll: Json): Json {
    Obj(map["any_input" := any, "key_down" := down, "key_up" := up, "mouse_move" := mouse, "scroll" := scroll])
  }

  function ActivityJson(a: Activity): Json {
    var deltas := if a.Regressed? then CountersJson(Null, Null, Null, Null, Null)
      else CountersJson(Int(a.any), Int(a.down), Int(a.up), Int(a.mouse), Int(a.scroll));
    Obj(map["source" := Str("hid_system"), "attribution" := Str("not_authenticated"),
            "counter_regression" := Bool(a.Regressed?), "deltas" := deltas,
            "changed" := if a.Regressed? then Null else Bool(a != Moved(0, 0, 0, 0, 0))])
  }

  lemma ActivityIff(v: Json)
    ensures ValidActivity(v, Before) <==> v == Obj(map["source" := Str("hid_system"), "sampled" := Bool(true)])
    ensures ValidActivity(v, After) <==> exists a :: HonestActivity(a) && v == ActivityJson(a)
  {
    if ValidActivity(v, Before) {
      assert v.fields == map["source" := Str("hid_system"), "sampled" := Bool(true)];
    }
    if ValidActivity(v, After) {
      var a := ActivityOf(v);
    }
    if a :| HonestActivity(a) && v == ActivityJson(a) {
      HonestIsValid(a);
    }
  }

  lemma ActivityOf(v: Json) returns (a: Activity)
    requires ValidActivity(v, After)
    ensures HonestActivity(a) && v == ActivityJson(a)
  {
    var f, d := v.fields, v.fields["deltas"].fields;
    if f["counter_regression"].b {
      a := Regressed;
      assert d == CountersJson(Null, Null, Null, Null, Null).fields;
    } else {
      assert forall c :: c in COUNTERS ==> d[c] == Int(d[c].n);
      a := Moved(d["any_input"].n, d["key_down"].n, d["key_up"].n, d["mouse_move"].n, d["scroll"].n);
      assert d == CountersJson(Int(a.any), Int(a.down), Int(a.up), Int(a.mouse), Int(a.scroll)).fields;
    }
    assert f == ActivityJson(a).fields;
  }

  lemma HonestIsValid(a: Activity)
    requires HonestActivity(a)
    ensures ValidActivity(ActivityJson(a), After)
  {
    var d := ActivityJson(a).fields["deltas"].fields;
    if a.Moved? {
      assert d["any_input"] == Int(a.any) && d["key_down"] == Int(a.down) && d["key_up"] == Int(a.up);
      assert d["mouse_move"] == Int(a.mouse) && d["scroll"] == Int(a.scroll);
      assert a != Moved(0, 0, 0, 0, 0) ==> exists c :: c in COUNTERS && d[c] != Int(0);
      assert a == Moved(0, 0, 0, 0, 0) ==> forall c :: c in COUNTERS ==> d[c] == Int(0);
    }
  }

  /** What the finishing witness saw; a change is told when both samples of its pair are valid, and only then. */
  datatype Finish = Finish(humanBefore: Sample, humanAfter: Sample, humanChanged: Option<bool>,
      receiverBefore: Sample, receiverAfter: Sample, receiverChanged: Option<bool>,
      foregroundChanged: Option<bool>, elapsed: int, activity: Activity)

  predicate HonestChange(before: Sample, after: Sample, changed: Option<bool>) {
    HonestSample(before) && HonestSample(after) && (changed.Some? <==> before.valid && after.valid)
  }

  predicate HonestFinish(w: Finish) {
    && HonestChange(w.humanBefore, w.humanAfter, w.humanChanged)
    && HonestChange(w.receiverBefore, w.receiverAfter, w.receiverChanged)
    && 0 <= w.elapsed <= 30_000_000 && HonestActivity(w.activity)
  }

  function MaybeBool(b: Option<bool>): Json { if b.Some? then Bool(b.value) else Null }

  function StartJson(sequence: int, human: Sample, receiver: Sample): Json {
    Obj(map["sequence" := Int(sequence), "phase" := Str("before"), "human" := SampleJson(human),
            "receiver" := SampleJson(receiver),
            "hid_activity" := Obj(map["source" := Str("hid_system"), "sampled" := Bool(true)])])
  }

  function FinishJson(sequence: int, w: Finish): (v: Json)
    ensures v.Obj?
  {
    Obj(map["sequence" := Int(sequence), "phase" := Str("after"), "complete" := Bool(true),
            "human_before" := SampleJson(w.humanBefore), "human_after" := SampleJson(w.humanAfter),
            "human_changed" := MaybeBool(w.humanChanged),
            "receiver_before" := SampleJson(w.receiverBefore), "receiver_after" := SampleJson(w.receiverAfter),
            "receiver_changed" := MaybeBool(w.receiverChanged),
            "foreground_changed" := MaybeBool(w.foregroundChanged), "target_foreground_observed" := Bool(false),
            "elapsed_us" := Int(w.elapsed), "continuous_isolation_verified" := Bool(false),
            "hid_activity" := ActivityJson(w.activity)])
  }

  /** The first witness accepted is exactly what an honest sampling of the two focuses writes. */
  lemma StartIff(v: Json, sequence: int)
    ensures ValidWitness(v, sequence, Before) <==>
      exists h, r :: HonestSample(h) && HonestSample(r) && v == StartJson(sequence, h, r)
  {
    hide ValidSample, HonestSample, ValidActivity, SampleJson;
    if v.Obj? && "hid_activity" in v.fields { ActivityIff(v.fields["hid_activity"]); }
    if ValidWitness(v, sequence, Before) {
      var f := v.fields;
      SampleIff(f["human"]);
      SampleIff(f["receiver"]);
      var h :| HonestSample(h) && f["human"] == SampleJson(h);
      var r :| HonestSample(r) && f["receiver"] == SampleJson(r);
      assert f.Keys == BEFORE_FIELDS + {"hid_activity"} == StartJson(sequence, h, r).fields.Keys;
      assert f == StartJson(sequence, h, r).fields;
    }
    if h, r :| HonestSample(h) && HonestSample(r) && v == StartJson(sequence, h, r) {
      SampleIff(SampleJson(h));
      SampleIff(SampleJson(r));
    }
  }

  /** The finishing witness accepted is exactly what an honest second sampling writes. */
  lemma FinishIff(v: Json, sequence: int)
    ensures ValidWitness(v, sequence, After) <==> exists w :: HonestFinish(w) && v == FinishJson(sequence, w)
  {
    hide HonestFinish, ValidWitness, FinishJson;
    if ValidWitness(v, sequence, After) {
      var w := FinishOf(v, sequence);
    }
    if w :| HonestFinish(w) && v == FinishJson(sequence, w) {
      FinishIsValid(sequence, w);
    }
  }

  lemma FinishOf(v: Json, sequence: int) returns (w: Finish)
    requires ValidWitness(v, sequence, After)
    ensures HonestFinish(w) && v == FinishJson(sequence, w)
  {
    hide ValidSample, HonestSample, ValidActivity, HonestActivity, SampleJson, ActivityJson, FinishJson;
    var f := v.fields;
    ActivityIff(f["hid_activity"]);
    var a :| HonestActivity(a) && f["hid_activity"] == ActivityJson(a);
    var hb, ha, hc := ChangeOf(v, "human", "human_before", "human_after", "human_changed");
    var rb, ra, rc := ChangeOf(v, "receiver", "receiver_before", "receiver_after", "receiver_changed");
    var fc := if f["foreground_changed"].Bool? then Some(f["foreground_changed"].b) else None;
    w := Finish(hb, ha, hc, rb, ra, rc, fc, f["elapsed_us"].n, a);
    FinishFields(sequence, w);
    ShownAlike(f, FinishJson(sequence, w).fields, sequence, w);
  }

  predicate ShowsFinish(f: map<string, Json>, sequence: int, w: Finish) {
    && f.Keys == AFTER_FIELDS + {"hid_activity"}
    && f["sequence"] == Int(sequence) && f["phase"] == Str("after") && f["complete"] == Bool(true)
    && f["human_before"] == SampleJson(w.humanBefore) && f["human_after"] == SampleJson(w.humanAfter)
    && f["human_changed"] == MaybeBool(w.humanChanged)
    && f["receiver_before"] == SampleJson(w.receiverBefore) && f["receiver_after"] == SampleJson(w.receiverAfter)
    && f["receiver_changed"] == MaybeBool(w.receiverChanged)
    && f["foreground_changed"] == MaybeBool(w.foregroundChanged)
    && f["target_foreground_observed"] == f["continuous_isolation_verified"] == Bool(false)
    && f["elapsed_us"] == Int(w.elapsed) && f["hid_activity"] == ActivityJson(w.activity)
  }

  lemma ShownAlike(f: map<string, Json>, g: map<string, Json>, sequence: int, w: Finish)
    requires ShowsFinish(f, sequence, w) && ShowsFinish(g, sequence, w)
    ensures f == g
  {
    hide SampleJson, ActivityJson, MaybeBool;
    forall k | k in f.Keys ensures f[k] == g[k] {
    }
  }

  lemma FinishFields(sequence: int, w: Finish)
    ensures ShowsFinish(FinishJson(sequence, w).fields, sequence, w)
  {
    hide SampleJson, ActivityJson, MaybeBool;
  }

  lemma ChangeOf(v: Json, who: string, before: string, after: string, changed: string)
      returns (b: Sample, a: Sample, c: Option<bool>)
    requires v.Obj? && {before, after, changed} <= v.fields.Keys && ValidChange(v, who, before, after, changed)
    ensures HonestChange(b, a, c)
    ensures v.fields[before] == SampleJson(b) && v.fields[after] == SampleJson(a) && v.fields[changed] == MaybeBool(c)
  {
    hide ValidSample;
    SampleIff(v.fields[before]);
    SampleIff(v.fields[after]);
    b :| HonestSample(b) && v.fields[before] == SampleJson(b);
    a :| HonestSample(a) && v.fields[after] == SampleJson(a);
    c := if v.fields[changed].Bool? then Some(v.fields[changed].b) else None;
    assert v.fields[before].fields["valid"].b == b.valid && v.fields[after].fields["valid"].b == a.valid;
  }

  lemma FinishIsValid(sequence: int, w: Finish)
    requires HonestFinish(w)
    ensures ValidWitness(FinishJson(sequence, w), sequence, After)
  {
    hide HonestSample, ValidActivity, HonestActivity, ActivityJson, ValidSample, SampleJson, FinishJson, ValidChange;
    var v := FinishJson(sequence, w);
    FinishFields(sequence, w);
    ActivityIff(v.fields["hid_activity"]);
    ChangeIsValid(v, "human", "human_before", "human_after", "human_changed", w.humanBefore, w.humanAfter,
                  w.humanChanged);
    ChangeIsValid(v, "receiver", "receiver_before", "receiver_after", "receiver_changed", w.receiverBefore,
                  w.receiverAfter, w.receiverChanged);
  }

  lemma ChangeIsValid(v: Json, who: string, before: string, after: string, changed: string, b: Sample, a: Sample,
      c: Option<bool>)
    requires v.Obj? && {before, after, changed} <= v.fields.Keys && HonestChange(b, a, c)
    requires v.fields[before] == SampleJson(b) && v.fields[after] == SampleJson(a) && v.fields[changed] == MaybeBool(c)
    ensures ValidChange(v, who, before, after, changed)
  {
    hide ValidSample;
    SampleIff(v.fields[before]);
    SampleIff(v.fields[after]);
  }

  // ---------------------------------------------------------------------------------------
  // Replies.
  // ---------------------------------------------------------------------------------------

  /** An object that has these entries, among others perhaps. */
  predicate Has(j: Json, entries: seq<(string, Json)>) {
    j.Obj? && forall i :: 0 <= i < |entries| ==> entries[i].0 in j.fields && j.fields[entries[i].0] == entries[i].1
  }

  predicate At(j: Json, entries: seq<(string, Json)>, i: nat) {
    i < |entries| ==> Get(j, entries[i].0) == entries[i].1
  }

  lemma HasByGet(j: Json, entries: seq<(string, Json)>)
    requires 0 < |entries| <= 10 && forall i :: 0 <= i < |entries| ==> entries[i].1 != Null
    ensures Has(j, entries) <==>
      && At(j, entries, 0) && At(j, entries, 1) && At(j, entries, 2) && At(j, entries, 3) && At(j, entries, 4)
      && At(j, entries, 5) && At(j, entries, 6) && At(j, entries, 7) && At(j, entries, 8) && At(j, entries, 9)
  {
  }

  function ZeroPost(): seq<(string, Json)> {
    [("ok", Bool(false)), ("action_attempted", Bool(false)), ("effects_unconfirmed", Bool(false)),
        ("posting_calls", Int(0)), ("effect_verified", Bool(false))]
  }

  /**
   * A reply proves that nothing was posted exactly when it says so in each of five fields, tells an error, and has no
   * receipt and no focus interference. Leaving any of the five out, or the error, proves nothing.
   */
  lemma NoPostIff(reply: Json)
    ensures DefiniteNoPost(reply) <==>
      && Has(reply, ZeroPost()) && Get(reply, "error").Str? && Get(reply, "error") != Str("")
      && "action" !in reply.fields && Get(reply, "focus_interference") in {Null, Bool(false)}
  {
    HasByGet(reply, ZeroPost());
  }

  function PreparationJson(token: string, key: string, receiver: Json, window: Json): Json {
    Obj(map["ok" := Bool(true), "action_attempted" := Bool(false),
            "prepared" := Obj(map["token" := Str(token), "key" := Str(key), "receiver" := receiver, "window" := window,
                                  "expires_in_ms" := Int(10000)])])
  }

  predicate IsToken(token: string, hex: string) {
    && token == "macos_key:" + hex && |hex| == 32
    && forall i :: 0 <= i < 32 ==> '0' <= hex[i] <= '9' || 'a' <= hex[i] <= 'f'
  }

  /** A preparation is taken exactly when it is this object, for this key, this window and an enabled text field. */
  lemma PreparedIff(reply: Json, key: string, window: Json, token: string, receiver: Json)
    ensures PreparedToken(reply, key, window) == Some((token, receiver)) <==>
      && (exists hex :: IsToken(token, hex))
      && Has(receiver, [("role", Str("AXTextField")), ("enabled", Bool(true))])
      && exists shown ::
           reply == PreparationJson(token, key, receiver, shown)
           && PyEq(shown, Obj(map["ax" := window, "cg" := window]))
  {
    hide PyEq;
    TokenIff(token);
    HasByGet(receiver, [("role", Str("AXTextField")), ("enabled", Bool(true))]);
    if PreparedToken(reply, key, window) == Some((token, receiver)) {
      var p := reply.fields["prepared"].fields;
      var whole := PreparationJson(token, key, receiver, p["window"]);
      assert p == whole.fields["prepared"].fields;
      assert reply.fields == whole.fields;
    }
  }

  lemma TokenIff(token: string)
    ensures WellFormedToken(token) <==> exists hex :: IsToken(token, hex)
  {
    if WellFormedToken(token) {
      var hex := token[10..];
      assert token == token[..10] + hex;
      assert IsToken(token, hex);
    }
  }

  function Receipt(key: string): seq<(string, Json)> {
    [("key", Str(key)), ("status", Str("dispatched")), ("posting_calls", Int(2)), ("effect_verified", Bool(false)),
        ("effects_unconfirmed", Bool(true)), ("action_attempted", Bool(true)), ("focus_interference", Bool(false)),
        ("receiver_unchanged", Bool(true))]
  }

  function Event(kind: string, key: string): seq<(string, Json)> {
    [("kind", Str(kind)), ("target", Str("first")), ("key", Str(key)), ("code", Str(key)), ("trusted", Bool(true)),
        ("repeat", Bool(false)), ("alt", Bool(false)), ("control", Bool(false)), ("meta", Bool(false)),
        ("shift", Bool(false))]
  }

  function FirstField(caret: int): seq<(string, Json)> {
    [("active", Str("first")), ("value", Str("fixture-a")), ("count", Int(1)), ("overflow", Bool(false)),
        ("caret", Int(caret)), ("end", Int(caret))]
  }

  lemma ReceiptIff(action: Json, key: string)
    ensures KeyReceipt(action, key) <==> Has(action, Receipt(key)) && Get(action, "detail") == Null
  {
    HasByGet(action, Receipt(key));
  }

  lemma EventIff(event: Json, kind: string, key: string)
    ensures KeyEvent(event, kind, key) <==> Has(event, Event(kind, key))
  {
    HasByGet(event, Event(kind, key));
  }

  /** What a page is like when its one field holds the fixture's text and an empty log. */
  predicate Untouched(before: Json) {
    && Has(before, [("active", Str("first")), ("events", Arr([])), ("value", Str("fixture-a"))])
    && PyEq(Get(before, "caret"), Int(2)) && PyEq(Get(before, "end"), Int(2))
  }

  /** And after one pair of that key: two events and one step of the caret. */
  predicate PressedOnce(after: Json, key: string) {
    && Has(after, FirstField(if key == "ArrowLeft" then 1 else 3))
    && Get(after, "events").Arr? && |Get(after, "events").items| == 2
    && Has(Get(after, "events").items[0], Event("keydown", key))
    && Has(Get(after, "events").items[1], Event("keyup", key))
  }

  /**
   * An effect is verified exactly when an arrow key's receipt reports two posted calls and nothing else, and the page
   * went from untouched to pressed once.
   */
  lemma EffectIff(native: Json, before: Json, after: Json, key: string)
    ensures VerifyEffect(native, before, after, key) <==>
      && key in ["ArrowLeft", "ArrowRight"] && Get(native, "ok") == Bool(true)
      && Has(Get(native, "action"), Receipt(key)) && Get(Get(native, "action"), "detail") == Null
      && Untouched(before) && PressedOnce(after, key)
  {
    hide PyEq, KeyReceipt, KeyEvent, Receipt, Event, Has;
    ReceiptIff(Get(native, "action"), key);
    BeforeIff(before);
    AfterIff(after, key);
    var items := if Get(after, "events").Arr? then Get(after, "events").items else [];
    if |items| == 2 {
      EventIff(items[0], "keydown", key);
      EventIff(items[1], "keyup", key);
    }
    SameText(Get(after, "value"), Get(before, "value"));
  }

  lemma SameText(a: Json, b: Json)
    ensures b == Str("fixture-a") ==> (PyEq(a, b) <==> a == Str("fixture-a"))
  {
  }

  lemma BeforeIff(before: Json)
    ensures Untouched(before) <==>
      && before.Obj? && Get(before, "active") == Str("first") && Get(before, "events") == Arr([])
      && Get(before, "value") == Str("fixture-a")
      && PyEq(Get(before, "caret"), Get(before, "end")) && PyEq(Get(before, "end"), Int(2))
  {
    hide PyEq;
    HasByGet(before, [("active", Str("first")), ("events", Arr([])), ("value", Str("fixture-a"))]);
    var caret, end := Get(before, "caret"), Get(before, "end");
    if PyEq(end, Int(2)) {
      if PyEq(caret, end) { PyEqIsTransitive(caret, end, Int(2)); }
      PyEqIsSymmetric(end, Int(2));
      if PyEq(caret, Int(2)) { PyEqIsTransitive(caret, Int(2), end); }
    }
  }

  lemma AfterIff(after: Json, key: string)
    ensures var expected := if key == "ArrowLeft" then 1 else 3;
      Has(after, FirstField(expected)) <==>
        && after.Obj? && Get(after, "active") == Str("first") && Get(after, "value") == Str("fixture-a")
        && Get(after, "count") == Int(1) && Get(after, "overflow") == Bool(false)
        && Get(after, "caret") == Get(after, "end") == Int(expected)
  {
    HasByGet(after, FirstField(if key == "ArrowLeft" then 1 else 3));
  }

  // ---------------------------------------------------------------------------------------
  // Receipts and reports.
  // ---------------------------------------------------------------------------------------

  ghost predicate AllEqual(values: seq<Json>) {
    forall i, j :: 0 <= i < |values| && 0 <= j < |values| ==> PyEq(values[i], values[j])
  }

  lemma ThreeEqual(a: Json, b: Json, c: Json)
    ensures PyEq(a, b) && PyEq(b, c) <==> AllEqual([a, b, c])
  {
    hide PyEq;
    PyEqIsReflexive(a);
    PyEqIsReflexive(b);
    PyEqIsReflexive(c);
    if PyEq(a, b) && PyEq(b, c) {
      PyEqIsTransitive(a, b, c);
      PyEqIsSymmetric(a, b);
      PyEqIsSymmetric(b, c);
      PyEqIsSymmetric(a, c);
    }
    if AllEqual([a, b, c]) {
      assert [a, b, c][0] == a && [a, b, c][1] == b && [a, b, c][2] == c;
    }
  }

  /**
   * A receipt matches exactly when it owns up to the attempt and to nothing of the focus, and the receiver, and
   * likewise the window, was one and the same when prepared, before the key and after it.
   */
  lemma ReceiptMatchesIff(native: Json, prepared: Json)
    ensures var action, frozen := Get(native, "action"), Get(prepared, "prepared");
      ReceiptMatches(native, prepared) <==>
        && [Get(native, "action_attempted"), Get(native, "effects_unconfirmed"), Get(native, "focus_interference")]
           == [Bool(true), Bool(true), Bool(false)]
        && AllEqual([Get(frozen, "receiver"), Get(action, "receiver"), Get(action, "after_receiver")])
        && AllEqual([Get(frozen, "window"), Get(action, "before"), Get(action, "after")])
  {
    hide PyEq, AllEqual;
    var action, frozen := Get(native, "action"), Get(prepared, "prepared");
    ThreeEqual(Get(action, "receiver"), Get(action, "after_receiver"), Get(frozen, "receiver"));
    ThreeEqual(Get(action, "before"), Get(action, "after"), Get(frozen, "window"));
    Rotated(Get(action, "receiver"), Get(action, "after_receiver"), Get(frozen, "receiver"));
    Rotated(Get(action, "before"), Get(action, "after"), Get(frozen, "window"));
  }

  lemma Rotated(a: Json, b: Json, c: Json)
    ensures AllEqual([a, b, c]) <==> AllEqual([c, a, b])
  {
    hide PyEq;
    var x, y := [a, b, c], [c, a, b];
    assert x[0] == y[1] && x[1] == y[2] && x[2] == y[0];
    if AllEqual(x) {
      forall i, j | 0 <= i < 3 && 0 <= j < 3 ensures PyEq(y[i], y[j]) { assert PyEq(x[(i + 2) % 3], x[(j + 2) % 3]); }
    }
    if AllEqual(y) {
      forall i, j | 0 <= i < 3 && 0 <= j < 3 ensures PyEq(x[i], x[j]) { assert PyEq(y[(i + 1) % 3], y[(j + 1) % 3]); }
    }
  }

  /** The report keeps everything of a reply but the one-use token, and says so of a reply that is no object. */
  lemma ReportKeepsTheRest(reply: Json)
    ensures !reply.Obj? ==> PublicReply(reply) == Obj(map["malformed_reply" := Bool(true)])
    ensures reply.Obj? ==>
      && PublicReply(reply).Obj? && PublicReply(reply).fields.Keys == reply.fields.Keys
      && (forall k :: k in reply.fields && (k != "prepared" || !reply.fields[k].Obj?) ==>
            PublicReply(reply).fields[k] == reply.fields[k])
      && (Get(reply, "prepared").Obj? ==>
            var kept := Get(PublicReply(reply), "prepared");
            && kept.Obj? && kept.fields.Keys == reply.fields["prepared"].fields.Keys - {"token"}
            && forall k :: k in kept.fields ==> kept.fields[k] == reply.fields["prepared"].fields[k])
  {
  }
}
