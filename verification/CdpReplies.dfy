/**
 * What the browser-debugging client's `call` makes of a byte stream:
 * `scripts/verify-macos-chromium-controls.py`. It reads whole, unmasked frames of at most
 * 1 MiB, answers pings, and returns the first text that answers its own request.
 */
module CdpReplies {
  import opened Common
  import opened Bits
  import opened WebSocketFrames
  import opened WebSocketMessages

  const CDP_LIMIT := 1024 * 1024
  const FRAME_LIMIT := 256

  /** What a text says about the awaited request: nothing, a failure (or no JSON object), or its result. */
  datatype Reply<+T> = Unrelated | Failure | Answer(result: T)

  datatype Reading<+T> = Reading(answer: Option<T>, rest: seq<Byte>, pongs: seq<seq<Byte>>)

  /** One turn of the loop's frame reader; `None` where it raises. */
  function CdpFrame(s: seq<Byte>): (r: Option<(Frame, seq<Byte>)>)
    ensures r.Some? ==> |r.value.1| < |s|
  {
    if |s| < 2 || And(s[0], 0x80) == 0 || And(s[1], 0x80) != 0 || And(s[0], 0x70) != 0 then None
    else
      HeaderMasks(s[0]);
      HeaderMasks(s[1]);
      var code := And(s[1], 127);
      var start := 2 + ExtendedWidth(code);
      if |s| < start then None
      else
        var size := if ExtendedWidth(code) == 0 then code else FromBigEndian(s[2..start]);
        if size > CDP_LIMIT || |s| < start + size then None
        else Some((Frame(true, And(s[0], 15), s[start..start + size]), s[start + size..]))
  }

  /** What that reader makes of a stream whose first two bytes it takes, in the header's numbers. */
  lemma CdpByHeader(s: seq<Byte>)
    requires |s| >= 2 && And(s[0], 0x80) != 0 && And(s[1], 0x80) == 0 && And(s[0], 0x70) == 0
    ensures var b0: int, b1: int := s[0], s[1];
      var start := 2 + ExtendedWidth(b1 % 128);
      && And(s[0], 15) == b0 % 16 && And(s[1], 127) == b1 % 128
      && (|s| < start ==> CdpFrame(s).None?)
      && (|s| >= start ==>
            var size := if ExtendedWidth(b1 % 128) == 0 then b1 % 128 else FromBigEndian(s[2..start]);
            && (size > CDP_LIMIT || |s| < start + size ==> CdpFrame(s).None?)
            && (size <= CDP_LIMIT && |s| >= start + size ==>
                  CdpFrame(s) == Some((Frame(true, b0 % 16, s[start..start + size]), s[start + size..]))))
  {
    hide And, FromBigEndian;
    HeaderMasks(s[0]);
    HeaderMasks(s[1]);
  }

  /** The read loop of `call`, with `n` turns left. */
  function Await<T>(s: seq<Byte>, judge: seq<Byte> -> Reply<T>, n: nat): Reading<T>
    decreases n
  {
    if n == 0 then Reading(None, s, [])
    else
      match CdpFrame(s)
      case None => Reading(None, [], [])
      case Some((f, rest)) =>
        if f.opcode == 9 then
          var r := Await(rest, judge, n - 1);
          r.(pongs := [f.payload] + r.pongs)
        else if f.opcode != 1 then Reading(None, rest, [])
        else
          match judge(f.payload)
          case Unrelated => Await(rest, judge, n - 1)
          case Failure => Reading(None, rest, [])
          case Answer(result) => Reading(Some(result), rest, [])
  }

  lemma AwaitNone<T>(s: seq<Byte>, judge: seq<Byte> -> Reply<T>)
    ensures Await(s, judge, 0) == Reading(None, s, [])
  {
  }

  lemma AwaitStep<T>(s: seq<Byte>, judge: seq<Byte> -> Reply<T>, n: nat)
    requires n > 0
    ensures match CdpFrame(s)
      case None => Await(s, judge, n) == Reading(None, [], [])
      case Some((f, rest)) =>
        var later := Await(rest, judge, n - 1);
        && (f.opcode == 9 ==>
              |f.payload| <= CDP_LIMIT && Await(s, judge, n) == later.(pongs := [f.payload] + later.pongs))
        && (f.opcode != 9 && f.opcode != 1 ==> Await(s, judge, n) == Reading(None, rest, []))
        && (f.opcode == 1 ==> Await(s, judge, n) == match judge(f.payload)
              case Unrelated => later
              case Failure => Reading(None, rest, [])
              case Answer(result) => Reading(Some(result), rest, []))
  {
    hide CdpFrame;
    match CdpFrame(s)
    case None =>
    case Some((f, rest)) => RefinesParse(s, f, rest);
  }

  /** The frames this reader takes: whole, unmasked, no reserved bits, at most 1 MiB. */
  predicate Taken(f: Frame, shape: Shape) {
    Fits(f, shape) && f.fin && shape.key.None? && shape.reserved == 0 && |f.payload| <= CDP_LIMIT
  }

  /** This reader is the general one with the four refusals added. */
  lemma RefinesParse(s: seq<Byte>, f: Frame, rest: seq<Byte>)
    ensures CdpFrame(s) == Some((f, rest)) <==>
      && ParseFrame(s) == Some((f, rest)) && f.fin && |f.payload| <= CDP_LIMIT
      && s[1] < 128 && s[0] % 128 < 16
  {
    hide Masked, And, FromBigEndian;
    if |s| >= 2 {
      HeaderMasks(s[0]);
      HeaderMasks(s[1]);
    }
  }

  lemma TakenIff(s: seq<Byte>, f: Frame, rest: seq<Byte>)
    ensures CdpFrame(s) == Some((f, rest)) <==> exists shape :: Taken(f, shape) && s == Wire(f, shape) + rest
  {
    hide ParseFrame, CdpFrame, Masked, BigEndian, FromBigEndian;
    RefinesParse(s, f, rest);
    if CdpFrame(s) == Some((f, rest)) {
      var shape := ShapeOf(s, f, rest);
      WireHead(f, shape, rest);
      assert Taken(f, shape);
    }
    if shape :| Taken(f, shape) && s == Wire(f, shape) + rest {
      WireParses(f, shape, rest);
      WireHead(f, shape, rest);
    }
  }

  lemma WireHead(f: Frame, shape: Shape, rest: seq<Byte>)
    requires Fits(f, shape)
    ensures |Wire(f, shape)| >= 2
    ensures var s := Wire(f, shape) + rest; var b0: int, b1: int := s[0], s[1];
      (b1 < 128 <==> shape.key.None?) && (b0 % 128 < 16 <==> shape.reserved == 0)
  {
    hide Masked, BigEndian;
    var s := Wire(f, shape) + rest;
    var b0: int := s[0];
    assert b0 == (if f.fin then 128 else 0) + (16 * shape.reserved + f.opcode);
    assert b0 % 128 == 16 * shape.reserved + f.opcode;
  }

  /** Pings and unrelated texts, then the answer. */
  ghost predicate LeadsTo<T>(fs: seq<Frame>, judge: seq<Byte> -> Reply<T>, result: T) {
    && fs != []
    && (forall i :: 0 <= i < |fs| - 1 ==> fs[i].opcode == 9 || (fs[i].opcode == 1 && judge(fs[i].payload) == Unrelated))
    && fs[|fs| - 1].opcode == 1 && judge(fs[|fs| - 1].payload) == Answer(result)
  }

  predicate AllTaken(fs: seq<Frame>, shapes: seq<Shape>) {
    |fs| == |shapes| && forall i :: 0 <= i < |fs| ==> Taken(fs[i], shapes[i])
  }

  lemma {:induction false} AwaitStream<T>(fs: seq<Frame>, shapes: seq<Shape>, rest: seq<Byte>,
      judge: seq<Byte> -> Reply<T>, result: T, n: nat)
    requires AllTaken(fs, shapes) && LeadsTo(fs, judge, result) && |fs| <= n
    ensures AllFit(fs, shapes)
    ensures Await(Stream(fs, shapes) + rest, judge, n) == Reading(Some(result), rest, Pings(fs))
  {
    hide Wire, Fits, CdpFrame;
    assert AllFit(fs, shapes);
    var f, later := fs[0], Stream(fs[1..], shapes[1..]) + rest;
    assert Stream(fs, shapes) + rest == Wire(f, shapes[0]) + later;
    TakenIff(Stream(fs, shapes) + rest, f, later);
    if |fs| == 1 {
      assert fs[1..] == [] && later == rest;
    } else {
      AwaitStream(fs[1..], shapes[1..], rest, judge, result, n - 1);
    }
  }

  lemma {:induction false} StreamAwaited<T>(s: seq<Byte>, judge: seq<Byte> -> Reply<T>, n: nat)
    returns (fs: seq<Frame>, shapes: seq<Shape>)
    requires Await(s, judge, n).answer.Some?
    ensures AllTaken(fs, shapes) && |fs| <= n && LeadsTo(fs, judge, Await(s, judge, n).answer.value)
    ensures Carries(fs, shapes, s, Await(s, judge, n).rest)
    decreases n
  {
    hide Wire, Fits, CdpFrame;
    var r := Await(s, judge, n);
    var (f, rest) := CdpFrame(s).value;
    TakenIff(s, f, rest);
    var shape :| Taken(f, shape) && s == Wire(f, shape) + rest;
    if f.opcode == 1 && judge(f.payload).Answer? {
      fs, shapes := [f], [shape];
      assert Stream(fs, shapes) == Wire(f, shape) + Stream([], []);
      assert s == Stream(fs, shapes) + r.rest;
    } else {
      var more, moreShapes := StreamAwaited(rest, judge, n - 1);
      fs, shapes := [f] + more, [shape] + moreShapes;
      assert fs[1..] == more && shapes[1..] == moreShapes;
      assert s == Stream(fs, shapes) + r.rest;
    }
  }

  /** Exactly when a call returns a result: which frames it read, what it left, which pings it answered. */
  lemma AnswerIff<T(!new)>(s: seq<Byte>, judge: seq<Byte> -> Reply<T>, result: T, rest: seq<Byte>,
      pongs: seq<seq<Byte>>)
    ensures Await(s, judge, FRAME_LIMIT) == Reading(Some(result), rest, pongs) <==>
      exists fs, shapes ::
        && Carries(fs, shapes, s, rest) && AllTaken(fs, shapes) && |fs| <= FRAME_LIMIT
        && LeadsTo(fs, judge, result) && pongs == Pings(fs)
  {
    hide Await, Stream, AllTaken, AllFit, Pings, LeadsTo;
    if Await(s, judge, FRAME_LIMIT) == Reading(Some(result), rest, pongs) {
      var fs, shapes := StreamAwaited(s, judge, FRAME_LIMIT);
      AwaitStream(fs, shapes, rest, judge, result, FRAME_LIMIT);
      assert Carries(fs, shapes, s, rest);
    }
    if fs, shapes :|
      && Carries(fs, shapes, s, rest) && AllTaken(fs, shapes) && |fs| <= FRAME_LIMIT
      && LeadsTo(fs, judge, result) && pongs == Pings(fs)
    {
      AwaitStream(fs, shapes, rest, judge, result, FRAME_LIMIT);
    }
  }

  // ---------------------------------------------------------------------------------------
  // The blank line that ends the handshake.
  // ---------------------------------------------------------------------------------------

  predicate BlankLineAt(s: seq<Byte>, i: nat) {
    i + 4 <= |s| && s[i..i + 4] == [13, 10, 13, 10]
  }

  predicate FirstBlankLine(s: seq<Byte>, i: nat) {
    BlankLineAt(s, i) && forall j: nat :: j < i ==> !BlankLineAt(s, j)
  }

  /** Python's search for the first occurrence. */
  function FindBlankLine(s: seq<Byte>, from: nat): (r: Option<nat>)
    requires from <= |s| && forall j: nat :: j < from ==> !BlankLineAt(s, j)
    ensures r.Some? ==> FirstBlankLine(s, r.value)
    ensures r.None? ==> forall j: nat :: !BlankLineAt(s, j)
    decreases |s| - from
  {
    if BlankLineAt(s, from) then Some(from)
    else if from == |s| then None
    else FindBlankLine(s, from + 1)
  }
}
