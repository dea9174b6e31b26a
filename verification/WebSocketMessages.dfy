/**
 * What `_recv_message` makes of a byte stream (RFC 6455 sections 5.4 and 5.5):
 * `scripts/codex_context_stress_e2e.py`.
 */
module WebSocketMessages {
  import opened Common
  import opened WebSocketFrames

  predicate IsData(f: Frame) { f.opcode <= 2 }

  predicate IsStart(f: Frame) { f.opcode == 1 || f.opcode == 2 }

  predicate EndsMessage(f: Frame) { IsData(f) && f.fin }

  function Concatenated(parts: seq<seq<Byte>>): seq<Byte> {
    if parts == [] then [] else parts[0] + Concatenated(parts[1..])
  }

  /** A text, no text (a close frame, a binary message, a stray continuation), or a stream that broke off. */
  datatype Outcome = Text(data: seq<Byte>) | NoText | Broken

  datatype Received = Received(outcome: Outcome, rest: seq<Byte>, pongs: seq<seq<Byte>>)

  /** What the two message variables become once a data frame has been read. */
  function FirstAfter(first: Option<Opcode>, f: Frame): Option<Opcode> {
    if f.opcode == 0 then first else Some(f.opcode)
  }

  function ChunksAfter(chunks: seq<seq<Byte>>, f: Frame): seq<seq<Byte>> {
    if f.opcode == 0 then chunks + [f.payload] else [f.payload]
  }

  function Finished(first: Option<Opcode>, chunks: seq<seq<Byte>>): Outcome {
    if first == Some(1) then Text(Concatenated(chunks)) else NoText
  }

  /** The loop of `_recv_message`: the outcome, the bytes left unread and the payloads it answered with pongs. */
  function Receive(s: seq<Byte>, first: Option<Opcode>, chunks: seq<seq<Byte>>): Received
    decreases |s|
  {
    match ParseFrame(s)
    case None => Received(Broken, [], [])
    case Some((f, rest)) =>
      if f.opcode == 8 then Received(NoText, rest, [])
      else if f.opcode == 9 then
        var r := Receive(rest, first, chunks);
        r.(pongs := [f.payload] + r.pongs)
      else if !IsData(f) then Receive(rest, first, chunks)
      else if f.fin then Received(Finished(FirstAfter(first, f), ChunksAfter(chunks, f)), rest, [])
      else Receive(rest, FirstAfter(first, f), ChunksAfter(chunks, f))
  }

  /** One turn of the loop, if a frame is left to read, and the end if none is. */
  lemma ReceiveFrame(s: seq<Byte>, f: Frame, rest: seq<Byte>, first: Option<Opcode>, chunks: seq<seq<Byte>>)
    requires ParseFrame(s) == Some((f, rest))
    ensures |rest| < |s| && |f.payload| < TWO_64
    ensures f.opcode == 8 ==> Receive(s, first, chunks) == Received(NoText, rest, [])
    ensures f.opcode == 9 ==>
      var later := Receive(rest, first, chunks);
      Receive(s, first, chunks) == Received(later.outcome, later.rest, [f.payload] + later.pongs)
    ensures f.opcode != 8 && f.opcode != 9 && !IsData(f) ==> Receive(s, first, chunks) == Receive(rest, first, chunks)
    ensures EndsMessage(f) ==>
      Receive(s, first, chunks) == Received(Finished(FirstAfter(first, f), ChunksAfter(chunks, f)), rest, [])
    ensures IsData(f) && !f.fin ==>
      Receive(s, first, chunks) == Receive(rest, FirstAfter(first, f), ChunksAfter(chunks, f))
  {
    hide ParseFrame, Concatenated;
    ParseShrinks(s);
    ReadsFit(s, f, rest);
  }

  lemma ReceiveNothing(s: seq<Byte>, first: Option<Opcode>, chunks: seq<seq<Byte>>)
    requires ParseFrame(s).None?
    ensures Receive(s, first, chunks) == Received(Broken, [], [])
  {
    hide ParseFrame;
  }

  // ---------------------------------------------------------------------------------------
  // The same, told of lists of frames.
  // ---------------------------------------------------------------------------------------

  predicate AllFit(fs: seq<Frame>, shapes: seq<Shape>) {
    |fs| == |shapes| && forall i :: 0 <= i < |fs| ==> Fits(fs[i], shapes[i])
  }

  function Stream(fs: seq<Frame>, shapes: seq<Shape>): seq<Byte>
    requires AllFit(fs, shapes)
  {
    if fs == [] then [] else Wire(fs[0], shapes[0]) + Stream(fs[1..], shapes[1..])
  }

  function DataFrames(fs: seq<Frame>): seq<Frame> {
    if fs == [] then [] else (if IsData(fs[0]) then [fs[0]] else []) + DataFrames(fs[1..])
  }

  function Payloads(fs: seq<Frame>): seq<seq<Byte>> {
    seq(|fs|, i requires 0 <= i < |fs| => fs[i].payload)
  }

  function Pings(fs: seq<Frame>): seq<seq<Byte>> {
    if fs == [] then [] else (if fs[0].opcode == 9 then [fs[0].payload] else []) + Pings(fs[1..])
  }

  /** The frames up to and including the first that ends a message, with no close frame before it. */
  predicate Completes(fs: seq<Frame>) {
    && fs != [] && EndsMessage(fs[|fs| - 1])
    && forall i :: 0 <= i < |fs| - 1 ==> fs[i].opcode != 8 && !EndsMessage(fs[i])
  }

  /** The text starts at the last starting frame, which says text, and runs through all data frames after it. */
  predicate TextFrom(fs: seq<Frame>, k: nat, text: seq<Byte>) {
    && k < |fs| && fs[k].opcode == 1
    && (forall j :: k < j < |fs| ==> !IsStart(fs[j]))
    && text == Concatenated(Payloads(DataFrames(fs[k..])))
  }

  predicate Carries(fs: seq<Frame>, shapes: seq<Shape>, s: seq<Byte>, rest: seq<Byte>) {
    AllFit(fs, shapes) && s == Stream(fs, shapes) + rest
  }

  /** The outcome of a list of frames, frame by frame. */
  function Verdict(fs: seq<Frame>, first: Option<Opcode>, chunks: seq<seq<Byte>>): Outcome {
    if fs == [] then Finished(first, chunks)
    else if IsData(fs[0]) then Verdict(fs[1..], FirstAfter(first, fs[0]), ChunksAfter(chunks, fs[0]))
    else Verdict(fs[1..], first, chunks)
  }

  /** Frames none of which ends a message or closes the connection. */
  predicate Unfinished(fs: seq<Frame>) {
    forall i :: 0 <= i < |fs| ==> fs[i].opcode != 8 && !EndsMessage(fs[i])
  }

  /** The frames up to and including a close frame, with no message ended before it. */
  predicate Closes(fs: seq<Frame>) {
    fs != [] && fs[|fs| - 1].opcode == 8 && Unfinished(fs[..|fs| - 1])
  }

  /** The last starting frame says text. */
  predicate IsText(fs: seq<Frame>) {
    exists k :: 0 <= k < |fs| && fs[k].opcode == 1 && forall j :: k < j < |fs| ==> !IsStart(fs[j])
  }

  lemma CompletesTail(fs: seq<Frame>)
    requires Completes(fs) && |fs| > 1
    ensures Completes(fs[1..]) && fs[0].opcode != 8 && !EndsMessage(fs[0])
  {
  }

  lemma {:induction false} ReceiveStream(fs: seq<Frame>, shapes: seq<Shape>, rest: seq<Byte>, first: Option<Opcode>,
      chunks: seq<seq<Byte>>)
    requires AllFit(fs, shapes) && Completes(fs)
    ensures Receive(Stream(fs, shapes) + rest, first, chunks) == Received(Verdict(fs, first, chunks), rest, Pings(fs))
  {
    hide ParseFrame, Wire, Fits, Concatenated;
    var f, later := fs[0], Stream(fs[1..], shapes[1..]) + rest;
    WireParses(f, shapes[0], later);
    assert Stream(fs, shapes) + rest == Wire(f, shapes[0]) + later;
    if |fs| == 1 {
      assert fs[1..] == [] && later == rest;
    } else {
      CompletesTail(fs);
      var first' := if IsData(f) then FirstAfter(first, f) else first;
      var chunks' := if IsData(f) then ChunksAfter(chunks, f) else chunks;
      ReceiveStream(fs[1..], shapes[1..], rest, first', chunks');
    }
  }

  /** Whatever ended with a message was such a list of frames. */
  /** A stream that closes first gives no text, and one that breaks off nothing at all; the pings were answered. */
  lemma {:induction false} ReceiveNoMessage(fs: seq<Frame>, shapes: seq<Shape>, rest: seq<Byte>, first: Option<Opcode>,
      chunks: seq<seq<Byte>>)
    requires AllFit(fs, shapes) && (Closes(fs) || (Unfinished(fs) && ParseFrame(rest).None?))
    ensures Receive(Stream(fs, shapes) + rest, first, chunks) ==
      if Closes(fs) then Received(NoText, rest, Pings(fs)) else Received(Broken, [], Pings(fs))
  {
    hide ParseFrame, Wire, Fits, Concatenated;
    if fs == [] {
      assert Stream(fs, shapes) + rest == rest;
    } else {
      var f, later := fs[0], Stream(fs[1..], shapes[1..]) + rest;
      WireParses(f, shapes[0], later);
      assert Stream(fs, shapes) + rest == Wire(f, shapes[0]) + later;
      if f.opcode == 8 {
        OnlyClose(fs);
        assert later == rest;
      } else {
        NoMessageTail(fs);
        var first' := if IsData(f) then FirstAfter(first, f) else first;
        var chunks' := if IsData(f) then ChunksAfter(chunks, f) else chunks;
        ReceiveNoMessage(fs[1..], shapes[1..], rest, first', chunks');
      }
    }
  }

  lemma OnlyClose(fs: seq<Frame>)
    requires fs != [] && fs[0].opcode == 8 && (Closes(fs) || Unfinished(fs))
    ensures Closes(fs) && |fs| == 1 && fs[1..] == []
  {
  }

  lemma NoMessageTail(fs: seq<Frame>)
    requires fs != [] && fs[0].opcode != 8 && (Closes(fs) || Unfinished(fs))
    ensures !EndsMessage(fs[0]) && (Closes(fs[1..]) <==> Closes(fs)) && (Unfinished(fs[1..]) <==> Unfinished(fs))
  {
    var tail := fs[1..];
    assert forall i :: 0 <= i < |tail| ==> tail[i] == fs[i + 1];
    if Closes(fs) {
      assert fs[..|fs| - 1][0] == fs[0];
      assert forall i :: 0 <= i < |tail| - 1 ==> tail[i] == fs[..|fs| - 1][i + 1];
    }
    if Closes(tail) { assert fs[|fs| - 1] == tail[|tail| - 1]; }
  }

  /** Every stream is such frames and a rest: a message, a close frame, or frames that break off. */
  lemma {:induction false} StreamReceived(s: seq<Byte>, first: Option<Opcode>, chunks: seq<seq<Byte>>)
    returns (fs: seq<Frame>, shapes: seq<Shape>, rest: seq<Byte>)
    ensures Carries(fs, shapes, s, rest)
    ensures Completes(fs) || Closes(fs) || (Unfinished(fs) && ParseFrame(rest).None?)
    decreases |s|
  {
    hide ParseFrame, Wire, Fits, Concatenated;
    match ParseFrame(s)
    case None =>
      fs, shapes, rest := [], [], s;
      assert s == Stream(fs, shapes) + rest;
    case Some((f, later)) =>
      ParseShrinks(s);
      var shape := ShapeOf(s, f, later);
      if EndsMessage(f) || f.opcode == 8 {
        fs, shapes, rest := [f], [shape], later;
        assert Stream(fs, shapes) == Wire(f, shape) + Stream([], []);
        assert s == Stream(fs, shapes) + rest;
      } else {
        var more, moreShapes;
        more, moreShapes, rest := StreamReceived(later, first, chunks);
        fs, shapes := [f] + more, [shape] + moreShapes;
        assert fs[1..] == more && shapes[1..] == moreShapes;
        assert s == Stream(fs, shapes) + rest;
        OneMore(f, more);
      }
  }

  lemma OneMore(f: Frame, more: seq<Frame>)
    requires f.opcode != 8 && !EndsMessage(f)
    ensures Completes(more) ==> Completes([f] + more)
    ensures Closes(more) ==> Closes([f] + more)
    ensures Unfinished(more) ==> Unfinished([f] + more)
  {
    var fs := [f] + more;
    if more != [] { assert fs[..|fs| - 1] == [f] + more[..|more| - 1]; }
  }

  lemma ParseShrinks(s: seq<Byte>)
    requires ParseFrame(s).Some?
    ensures |ParseFrame(s).value.1| < |s|
  {
  }

  lemma {:induction false} VerdictIsText(fs: seq<Frame>, first: Option<Opcode>, chunks: seq<seq<Byte>>, text: seq<Byte>)
    ensures Verdict(fs, first, chunks) == Text(text) <==>
      || (exists k: nat :: TextFrom(fs, k, text))
      || (first == Some(1) && (forall j :: 0 <= j < |fs| ==> !IsStart(fs[j]))
          && text == Concatenated(chunks + Payloads(DataFrames(fs))))
  {
    hide TextFrom, Concatenated;
    if fs == [] {
      assert !exists k: nat :: TextFrom(fs, k, text)
          by { hide *; forall k: nat ensures !TextFrom(fs, k, text) { NoTextIn(k, text); } }
      assert chunks + Payloads(DataFrames(fs)) == chunks;
    } else {
      var f, more := fs[0], fs[1..];
      var first' := if IsData(f) then FirstAfter(first, f) else first;
      var chunks' := if IsData(f) then ChunksAfter(chunks, f) else chunks;
      VerdictIsText(more, first', chunks', text);
      TextFromStep(fs, text);
      if IsData(f) {
        assert Payloads(DataFrames(fs)) == [f.payload] + Payloads(DataFrames(more));
        assert !IsStart(f) ==> chunks + Payloads(DataFrames(fs)) == chunks' + Payloads(DataFrames(more));
        assert IsStart(f) ==> Payloads(DataFrames(fs)) == chunks' + Payloads(DataFrames(more));
      } else {
        assert DataFrames(fs) == DataFrames(more);
      }
      assert (forall j :: 0 <= j < |fs| ==> !IsStart(fs[j])) <==> !IsStart(f) && forall j :: 0 <= j < |more| ==>
          !IsStart(more[j])
        by { StartsStep(fs); }
    }
  }

  lemma StartsStep(fs: seq<Frame>)
    requires fs != []
    ensures (forall j :: 0 <= j < |fs| ==> !IsStart(fs[j])) <==>
      !IsStart(fs[0]) && forall j :: 0 <= j < |fs[1..]| ==> !IsStart(fs[1..][j])
  {
    forall j | 1 <= j < |fs| ensures fs[j] == fs[1..][j - 1] {}
    if !IsStart(fs[0]) && forall j :: 0 <= j < |fs[1..]| ==> !IsStart(fs[1..][j]) {
      forall j | 0 <= j < |fs| ensures !IsStart(fs[j]) { if j > 0 { assert fs[j] == fs[1..][j - 1]; } }
    }
  }

  lemma NoTextIn(k: nat, text: seq<Byte>)
    ensures !TextFrom([], k, text)
  {
  }

  lemma TextFromStep(fs: seq<Frame>, text: seq<Byte>)
    requires fs != []
    ensures (exists k: nat :: TextFrom(fs, k, text)) <==>
      || (exists k: nat :: TextFrom(fs[1..], k, text))
      || (fs[0].opcode == 1 && (forall j :: 0 <= j < |fs[1..]| ==> !IsStart(fs[1..][j]))
          && text == Concatenated(Payloads(DataFrames(fs))))
  {
    hide TextFrom, Concatenated, DataFrames;
    var more := fs[1..];
    TextAtFirst(fs, text);
    forall k: nat ensures TextFrom(fs, k + 1, text) <==> TextFrom(more, k, text) { TextShifts(fs, k, text); }
    if k: nat :| TextFrom(fs, k, text) {
      if k > 0 { assert TextFrom(fs, k - 1 + 1, text) <==> TextFrom(more, k - 1, text); }
    }
  }

  lemma TextShifts(fs: seq<Frame>, k: nat, text: seq<Byte>)
    requires fs != []
    ensures TextFrom(fs, k + 1, text) <==> TextFrom(fs[1..], k, text)
  {
    hide Concatenated, DataFrames, IsStart;
    var more := fs[1..];
    if k < |more| {
      assert fs[k + 1..] == more[k..];
      if TextFrom(fs, k + 1, text) {
        forall j | k < j < |more| ensures !IsStart(more[j]) { assert more[j] == fs[j + 1]; }
      }
      if TextFrom(more, k, text) {
        forall j | k + 1 < j < |fs| ensures !IsStart(fs[j]) { assert fs[j] == more[j - 1]; }
      }
    }
  }

  lemma TextAtFirst(fs: seq<Frame>, text: seq<Byte>)
    requires fs != []
    ensures TextFrom(fs, 0, text) <==>
      && fs[0].opcode == 1 && (forall j :: 0 <= j < |fs[1..]| ==> !IsStart(fs[1..][j]))
      && text == Concatenated(Payloads(DataFrames(fs)))
  {
    hide Concatenated, DataFrames, IsStart;
    var more := fs[1..];
    assert fs[0..] == fs;
    if forall j :: 0 <= j < |more| ==> !IsStart(more[j]) {
      forall j | 0 < j < |fs| ensures !IsStart(fs[j]) { assert fs[j] == more[j - 1]; }
    }
    if forall j :: 0 < j < |fs| ==> !IsStart(fs[j]) {
      forall j | 0 <= j < |more| ensures !IsStart(more[j]) { assert more[j] == fs[j + 1]; }
    }
  }

  /** Exactly when a text comes out: which one, what is left unread, and what was answered. */
  lemma TextIff(s: seq<Byte>, text: seq<Byte>, rest: seq<Byte>, pongs: seq<seq<Byte>>)
    ensures Receive(s, None, []) == Received(Text(text), rest, pongs) <==>
      exists fs, shapes, k: nat ::
        Carries(fs, shapes, s, rest) && Completes(fs) && TextFrom(fs, k, text) && pongs == Pings(fs)
  {
    hide Receive, Verdict, Stream, Completes, Closes, Unfinished, TextFrom, Pings, AllFit, Concatenated, ParseFrame;
    if Receive(s, None, []) == Received(Text(text), rest, pongs) {
      var fs, shapes := ReceivedFrames(s);
      VerdictIsText(fs, None, [], text);
      var k: nat :| TextFrom(fs, k, text);
      assert Carries(fs, shapes, s, rest) && Completes(fs) && TextFrom(fs, k, text);
    }
    if fs, shapes, k: nat :|
      Carries(fs, shapes, s, rest) && Completes(fs) && TextFrom(fs, k, text) && pongs == Pings(fs)
    {
      ReceiveStream(fs, shapes, rest, None, []);
      VerdictIsText(fs, None, [], text);
    }
  }

  /** The frames behind an outcome, and what each kind of them comes to. */
  lemma ReceivedFrames(s: seq<Byte>) returns (fs: seq<Frame>, shapes: seq<Shape>)
    ensures var r := Receive(s, None, []);
      && r.pongs == Pings(fs)
      && match r.outcome
         case Text(_) => Carries(fs, shapes, s, r.rest) && Completes(fs) && r.outcome == Verdict(fs, None, [])
         case NoText =>
           && Carries(fs, shapes, s, r.rest)
           && (Closes(fs) || (Completes(fs) && r.outcome == Verdict(fs, None, [])))
         case Broken =>
           && r.rest == [] && Unfinished(fs)
           && exists rest :: Carries(fs, shapes, s, rest) && ParseFrame(rest).None?
  {
    hide Receive, Verdict, Stream, Completes, Closes, Unfinished, Pings, AllFit, ParseFrame;
    var rest;
    fs, shapes, rest := StreamReceived(s, None, []);
    if Completes(fs) {
      ReceiveStream(fs, shapes, rest, None, []);
      VerdictIsNotBroken(fs, None, []);
    } else {
      ReceiveNoMessage(fs, shapes, rest, None, []);
    }
  }

  lemma {:induction false} VerdictIsNotBroken(fs: seq<Frame>, first: Option<Opcode>, chunks: seq<seq<Byte>>)
    ensures !Verdict(fs, first, chunks).Broken?
  {
    if fs != [] {
      if IsData(fs[0]) {
        VerdictIsNotBroken(fs[1..], FirstAfter(first, fs[0]), ChunksAfter(chunks, fs[0]));
      } else {
        VerdictIsNotBroken(fs[1..], first, chunks);
      }
    }
  }

  /** A completed message is a text exactly when its last starting frame says so. */
  lemma VerdictTextIff(fs: seq<Frame>)
    ensures Verdict(fs, None, []).Text? <==> IsText(fs)
  {
    hide Verdict, Concatenated, DataFrames;
    if Verdict(fs, None, []).Text? {
      VerdictIsText(fs, None, [], Verdict(fs, None, []).data);
      var k: nat :| TextFrom(fs, k, Verdict(fs, None, []).data);
    }
    if k :| 0 <= k < |fs| && fs[k].opcode == 1 && forall j :: k < j < |fs| ==> !IsStart(fs[j]) {
      var text := Concatenated(Payloads(DataFrames(fs[k..])));
      assert TextFrom(fs, k, text);
      VerdictIsText(fs, None, [], text);
    }
  }

  /** Exactly when there is no text: a close frame came first, or the message that ended is no text. */
  lemma NoTextIff(s: seq<Byte>, rest: seq<Byte>, pongs: seq<seq<Byte>>)
    ensures Receive(s, None, []) == Received(NoText, rest, pongs) <==>
      exists fs, shapes ::
        && Carries(fs, shapes, s, rest) && pongs == Pings(fs)
        && (Closes(fs) || (Completes(fs) && !IsText(fs)))
  {
    hide Receive, Verdict, Stream, Completes, Closes, Unfinished, IsText, Pings, AllFit, ParseFrame;
    if Receive(s, None, []) == Received(NoText, rest, pongs) {
      var fs, shapes := ReceivedFrames(s);
      VerdictTextIff(fs);
    }
    if fs, shapes :|
      && Carries(fs, shapes, s, rest) && pongs == Pings(fs)
      && (Closes(fs) || (Completes(fs) && !IsText(fs)))
    {
      if Closes(fs) {
        ReceiveNoMessage(fs, shapes, rest, None, []);
      } else {
        ReceiveStream(fs, shapes, rest, None, []);
        VerdictTextIff(fs);
        VerdictIsNotBroken(fs, None, []);
      }
    }
  }

  /** Exactly when the stream breaks off: after frames that neither end a message nor close, no whole frame is left. */
  lemma BrokenIff(s: seq<Byte>, pongs: seq<seq<Byte>>)
    ensures Receive(s, None, []) == Received(Broken, [], pongs) <==>
      exists fs, shapes, rest ::
        Carries(fs, shapes, s, rest) && Unfinished(fs) && ParseFrame(rest).None? && pongs == Pings(fs)
  {
    hide Receive, Verdict, Stream, Completes, Pings, AllFit, ParseFrame;
    if Receive(s, None, []) == Received(Broken, [], pongs) {
      var fs, shapes := ReceivedFrames(s);
    }
    if fs, shapes, rest :|
      Carries(fs, shapes, s, rest) && Unfinished(fs) && ParseFrame(rest).None? && pongs == Pings(fs)
    {
      ReceiveNoMessage(fs, shapes, rest, None, []);
    }
  }

  // ---------------------------------------------------------------------------------------
  // Fragmented messages.
  // ---------------------------------------------------------------------------------------

  /** A message cut into parts: the first frame names its kind, the last is final. */
  function Fragments(opcode: Opcode, parts: seq<seq<Byte>>): seq<Frame>
    requires parts != []
  {
    seq(|parts|, i requires 0 <= i < |parts| => Frame(i == |parts| - 1, if i == 0 then opcode else 0, parts[i]))
  }

  /** A message cut anywhere, with any other frames but a close among its fragments, comes out whole. */
  lemma Reassembly(opcode: Opcode, parts: seq<seq<Byte>>, fs: seq<Frame>, shapes: seq<Shape>, rest: seq<Byte>)
    requires parts != [] && (opcode == 1 || opcode == 2)
    requires AllFit(fs, shapes) && DataFrames(fs) == Fragments(opcode, parts)
    requires IsData(fs[|fs| - 1]) && forall i :: 0 <= i < |fs| ==> fs[i].opcode != 8
    ensures Receive(Stream(fs, shapes) + rest, None, [])
         == Received(if opcode == 1 then Text(Concatenated(parts)) else NoText, rest, Pings(fs))
  {
    hide Receive, Stream, Verdict, AllFit, Concatenated, Pings;
    OnlyLastEnds(fs);
    ReceiveStream(fs, shapes, rest, None, []);
    VerdictOfData(fs, None, []);
    var cut := Fragments(opcode, parts);
    assert Verdict(cut, None, []) == Verdict(cut[1..], Some(opcode), [parts[0]])
        by { OpeningFragment(cut, opcode, parts); }
    Continuations(cut[1..], opcode, [parts[0]]);
    assert [parts[0]] + Payloads(cut[1..]) == parts;
  }

  lemma OpeningFragment(cut: seq<Frame>, opcode: Opcode, parts: seq<seq<Byte>>)
    requires parts != [] && (opcode == 1 || opcode == 2) && cut == Fragments(opcode, parts)
    ensures Verdict(cut, None, []) == Verdict(cut[1..], Some(opcode), [parts[0]])
  {
  }

  lemma {:induction false} Continuations(fs: seq<Frame>, opcode: Opcode, chunks: seq<seq<Byte>>)
    requires forall i :: 0 <= i < |fs| ==> fs[i].opcode == 0
    ensures Verdict(fs, Some(opcode), chunks) == Finished(Some(opcode), chunks + Payloads(fs))
  {
    if fs == [] {
      assert chunks + Payloads(fs) == chunks;
    } else {
      Continuations(fs[1..], opcode, chunks + [fs[0].payload]);
      assert chunks + [fs[0].payload] + Payloads(fs[1..]) == chunks + Payloads(fs);
    }
  }

  lemma {:induction false} VerdictOfData(fs: seq<Frame>, first: Option<Opcode>, chunks: seq<seq<Byte>>)
    ensures Verdict(fs, first, chunks) == Verdict(DataFrames(fs), first, chunks)
  {
    if fs != [] {
      if IsData(fs[0]) {
        assert DataFrames(fs)[0] == fs[0] && DataFrames(fs)[1..] == DataFrames(fs[1..]);
        VerdictOfData(fs[1..], FirstAfter(first, fs[0]), ChunksAfter(chunks, fs[0]));
      } else {
        assert DataFrames(fs) == DataFrames(fs[1..]);
        VerdictOfData(fs[1..], first, chunks);
      }
    }
  }

  lemma {:induction false} OnlyLastEnds(fs: seq<Frame>)
    requires fs != [] && IsData(fs[|fs| - 1]) && forall i :: 0 <= i < |fs| ==> fs[i].opcode != 8
    requires forall i :: 0 <= i < |DataFrames(fs)| ==> (DataFrames(fs)[i].fin <==> i == |DataFrames(fs)| - 1)
    ensures Completes(fs)
  {
    var more := fs[1..];
    if |fs| == 1 {
      assert DataFrames(fs) == [fs[0]] + DataFrames([]);
      assert DataFrames(fs)[0] == fs[0];
    } else {
      assert more[|more| - 1] == fs[|fs| - 1];
      SomeData(more);
      if IsData(fs[0]) {
        assert DataFrames(fs) == [fs[0]] + DataFrames(more);
        assert forall i :: 0 <= i < |DataFrames(more)| ==> DataFrames(more)[i] == DataFrames(fs)[i + 1];
        assert DataFrames(fs)[0] == fs[0];
      } else {
        assert DataFrames(fs) == DataFrames(more);
      }
      OnlyLastEnds(more);
      forall i | 0 < i < |fs| - 1 ensures !EndsMessage(fs[i]) { assert fs[i] == more[i - 1]; }
    }
  }

  lemma {:induction false} SomeData(fs: seq<Frame>)
    requires fs != [] && IsData(fs[|fs| - 1])
    ensures DataFrames(fs) != []
  {
    if |fs| > 1 {
      assert fs[1..][|fs| - 2] == fs[|fs| - 1];
      SomeData(fs[1..]);
    }
  }

  /**
   * A new text frame inside an unfinished message is taken for the start of another, not refused as section 5.4
   * asks.
   */
  lemma InterruptedMessageIsDropped(a: seq<Byte>, b: seq<Byte>, shape: Shape, rest: seq<Byte>)
    requires Fits(Frame(false, 1, a), shape) && Fits(Frame(true, 1, b), shape)
    ensures Receive(Wire(Frame(false, 1, a), shape) + Wire(Frame(true, 1, b), shape) + rest, None, [])
         == Received(Text(b), rest, [])
  {
    hide Wire, Fits, ParseFrame;
    var second := Wire(Frame(true, 1, b), shape) + rest;
    assert Wire(Frame(false, 1, a), shape) + Wire(Frame(true, 1, b), shape) + rest == Wire(Frame(false, 1, a),
        shape) + second;
    WireParses(Frame(false, 1, a), shape, second);
    WireParses(Frame(true, 1, b), shape, rest);
    assert Concatenated([b]) == b by { assert Concatenated([b]) == b + Concatenated([]); }
    assert Receive(second, Some(1), [a]) == Received(Finished(Some(1), [b]), rest, []);
  }

  // ---------------------------------------------------------------------------------------
  // The pongs on the wire.
  // ---------------------------------------------------------------------------------------

  function PongBytes(pongs: seq<seq<Byte>>, keys: seq<Key>): seq<Byte>
    requires |pongs| == |keys|
  {
    if pongs == [] then [] else ClientFrame(10, keys[0], pongs[0]) + PongBytes(pongs[1..], keys[1..])
  }

  /** All frames of a stream, when it ends between two of them. */
  function ParseAll(s: seq<Byte>): Option<seq<Frame>>
    decreases |s|
  {
    if s == [] then Some([])
    else
      match ParseFrame(s)
      case None => None
      case Some((f, rest)) =>
        var more := ParseAll(rest);
        if more.None? then None else Some([f] + more.value)
  }

  function PongFrames(pongs: seq<seq<Byte>>): seq<Frame> {
    seq(|pongs|, i requires 0 <= i < |pongs| => Frame(true, 10, pongs[i]))
  }

  /** Peers read back one final pong per answered ping, same payloads, same order. */
  lemma {:induction false} PongsReadBack(pongs: seq<seq<Byte>>, keys: seq<Key>)
    requires |pongs| == |keys| && forall i :: 0 <= i < |pongs| ==> |pongs[i]| < TWO_64
    ensures ParseAll(PongBytes(pongs, keys)) == Some(PongFrames(pongs))
  {
    hide ParseFrame, ClientFrame;
    if pongs != [] {
      FrameRoundTrip(10, keys[0], pongs[0], PongBytes(pongs[1..], keys[1..]));
      PongsReadBack(pongs[1..], keys[1..]);
      ParseShrinks(PongBytes(pongs, keys));
      assert PongFrames(pongs) == [Frame(true, 10, pongs[0])] + PongFrames(pongs[1..]);
    }
  }

  /** No ping is too long to answer. */
  lemma {:induction false} PongsFit(s: seq<Byte>, first: Option<Opcode>, chunks: seq<seq<Byte>>)
    ensures forall i :: 0 <= i < |Receive(s, first, chunks).pongs| ==> |Receive(s, first, chunks).pongs[i]| < TWO_64
    decreases |s|
  {
    hide ParseFrame, Concatenated;
    match ParseFrame(s)
    case None =>
    case Some((f, rest)) =>
      ParseShrinks(s);
      ReadsFit(s, f, rest);
      if f.opcode != 8 && !EndsMessage(f) {
        PongsFit(rest, if IsData(f) then FirstAfter(first, f) else first,
            if IsData(f) then ChunksAfter(chunks, f) else chunks);
      }
  }

  lemma ReadsFit(s: seq<Byte>, f: Frame, rest: seq<Byte>)
    requires ParseFrame(s) == Some((f, rest))
    ensures |f.payload| < TWO_64
  {
    hide ParseFrame;
    var shape := ShapeOf(s, f, rest);
  }
}
