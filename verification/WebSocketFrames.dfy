/**
 * WebSocket framing (RFC 6455 sections 5.2 and 5.3) as the two Python clients write and read it:
 * `scripts/codex_context_stress_e2e.py` and `scripts/verify-macos-chromium-controls.py`.
 */
module WebSocketFrames {
  import opened Common
  import opened Bits

  type Opcode = n: int | 0 <= n < 16

  datatype Frame = Frame(fin: bool, opcode: Opcode, payload: seq<Byte>)

  const TWO_64 := 0x1_0000_0000_0000_0000

  // ---------------------------------------------------------------------------------------
  // Big-endian numbers.
  // ---------------------------------------------------------------------------------------

  function BigEndian(n: nat, width: nat): (bytes: seq<Byte>)
    ensures |bytes| == width
  {
    if width == 0 then [] else BigEndian(n / 256, width - 1) + [n % 256]
  }

  function FromBigEndian(bytes: seq<Byte>): nat {
    if bytes == [] then 0 else 256 * FromBigEndian(bytes[..|bytes| - 1]) + bytes[|bytes| - 1]
  }

  function Limit(width: nat): (limit: nat)
    ensures limit > 0
  {
    if width == 0 then 1 else 256 * Limit(width - 1)
  }

  lemma {:induction false} BigEndianRoundTrip(n: nat, width: nat)
    requires n < Limit(width)
    ensures FromBigEndian(BigEndian(n, width)) == n
  {
    if width > 0 {
      BigEndianRoundTrip(n / 256, width - 1);
      assert BigEndian(n, width)[..width - 1] == BigEndian(n / 256, width - 1);
    }
  }

  lemma {:induction false} FromBigEndianRoundTrip(bytes: seq<Byte>)
    ensures FromBigEndian(bytes) < Limit(|bytes|)
    ensures BigEndian(FromBigEndian(bytes), |bytes|) == bytes
  {
    if bytes != [] {
      FromBigEndianRoundTrip(bytes[..|bytes| - 1]);
      assert bytes == bytes[..|bytes| - 1] + [bytes[|bytes| - 1]];
    }
  }

  /** Digit `place` of `n` in base 256, counted from the lowest. */
  function Digit(n: nat, place: nat): Byte { n / Limit(place) % 256 }

  /** The bytes are the digits of `n`, of decreasing weight. */
  predicate Digits(bytes: seq<Byte>, n: nat) {
    forall i :: 0 <= i < |bytes| ==> bytes[i] == Digit(n, |bytes| - 1 - i)
  }

  lemma {:induction false} BigEndianDigits(n: nat, width: nat)
    ensures Digits(BigEndian(n, width), n)
  {
    hide Digit;
    if width > 0 {
      BigEndianDigits(n / 256, width - 1);
      forall i | 0 <= i < width ensures BigEndian(n, width)[i] == Digit(n, width - 1 - i) {
        if i == width - 1 { LowestDigit(n); } else { NextDigit(n, width - 2 - i); }
      }
    }
  }

  lemma LowestDigit(n: nat)
    ensures Digit(n, 0) == n % 256
  {
  }

  lemma NextDigit(n: nat, place: nat)
    ensures Digit(n / 256, place) == Digit(n, place + 1)
  {
    DivideTwice(n, Limit(place));
  }

  lemma DivideTwice(n: nat, m: nat)
    requires m > 0
    ensures n / 256 / m == n / (256 * m)
  {
    var q, r := n / 256 / m, n / 256 % m;
    assert n / 256 == m * q + r;
    assert n == (256 * m) * q + (256 * r + n % 256);
    Quotient(256 * m, q, 256 * r + n % 256);
  }

  lemma Quotient(m: nat, q: nat, r: nat)
    requires r < m
    ensures (m * q + r) / m == q
  {
    var x := m * q + r;
    assert m * (x / m - q) == r - x % m;
    SmallMultiple(m, x / m - q);
  }

  lemma SmallMultiple(m: int, e: int)
    requires m > 0 && -m < m * e < m
    ensures e == 0
  {
  }

  lemma Limits()
    ensures Limit(2) == 0x1_0000 && Limit(8) == TWO_64
  {
    assert Limit(4) == 0x1_0000_0000;
    assert Limit(6) == 0x1_0000_0000_0000;
  }

  // ---------------------------------------------------------------------------------------
  // Masking.
  // ---------------------------------------------------------------------------------------

  type Key = k: seq<Byte> | |k| == 4 witness [0, 0, 0, 0]

  function Masked(key: Key, payload: seq<Byte>): (masked: seq<Byte>)
    ensures |masked| == |payload|
  {
    seq(|payload|, i requires 0 <= i < |payload| => XorByte(payload[i], key[i % 4]))
  }

  lemma MaskTwice(key: Key, payload: seq<Byte>)
    ensures Masked(key, Masked(key, payload)) == payload
  {
    forall i | 0 <= i < |payload| ensures XorByte(XorByte(payload[i], key[i % 4]), key[i % 4]) == payload[i] {
      XorTwice(payload[i], key[i % 4]);
    }
  }

  /** Octet `i` of the masked form differs from octet `i` of the payload in the bits of key octet `i` modulo 4. */
  lemma MaskedBits(key: Key, payload: seq<Byte>, i: nat, k: nat)
    requires i < |payload|
    ensures Bit(Masked(key, payload)[i], k) <==> Bit(payload[i], k) != Bit(key[i % 4], k)
  {
    XorBits(payload[i], key[i % 4], k);
  }

  // ---------------------------------------------------------------------------------------
  // What the clients write.
  // ---------------------------------------------------------------------------------------

  /** The seven-bit length code and the extended length that follows the second byte. */
  function LengthCode(n: nat): (code: Byte)
    ensures code < 128
  {
    if n < 126 then n else if n <= 0xFFFF then 126 else 127
  }

  function LengthBytes(n: nat): seq<Byte> {
    if n < 126 then [] else if n <= 0xFFFF then BigEndian(n, 2) else BigEndian(n, 8)
  }

  /** The bytes of `_send_frame`: final, masked, shortest length form. */
  function ClientFrame(opcode: Byte, key: Key, payload: seq<Byte>): seq<Byte> {
    HeaderMasks(opcode);
    OrHigh(And(opcode, 0x0F), 128);
    OrHigh(LengthCode(|payload|), 128);
    [Or(128, And(opcode, 0x0F)), Or(128, LengthCode(|payload|))] + LengthBytes(|payload|) + key + Masked(key, payload)
  }

  // ---------------------------------------------------------------------------------------
  // What `_recv_frame` reads.
  // ---------------------------------------------------------------------------------------

  /** The declared length, and how many bytes of extended length declare it. */
  function ExtendedWidth(code: nat): nat {
    if code == 126 then 2 else if code == 127 then 8 else 0
  }

  /** The first frame of a byte stream and what follows it; `None` when the stream ends inside it. */
  function ParseFrame(s: seq<Byte>): (r: Option<(Frame, seq<Byte>)>)
    ensures r.Some? ==> |r.value.1| < |s|
  {
    if |s| < 2 then None
    else
      HeaderMasks(s[0]);
      HeaderMasks(s[1]);
      var fin, opcode := And(s[0], 0x80) != 0, And(s[0], 0x0F);
      var masked, code := And(s[1], 0x80) != 0, And(s[1], 0x7F);
      var width := ExtendedWidth(code);
      var start := 2 + width;
      if |s| < start then None
      else
        var length := if width == 0 then code else FromBigEndian(s[2..start]);
        var body := start + if masked then 4 else 0;
        if |s| < body + length then None
        else
          var payload := s[body..body + length];
          Some((Frame(fin, opcode, if masked then Masked(s[start..start + 4], payload) else payload),
              s[body + length..]))
  }

  // ---------------------------------------------------------------------------------------
  // Every encoding of a frame the wire format allows.
  // ---------------------------------------------------------------------------------------

  /** The free choices of a sender: reserved bits, length width (0, 2 or 8 bytes) and masking key. */
  datatype Shape = Shape(reserved: nat, width: nat, key: Option<Key>)

  predicate Fits(f: Frame, s: Shape) {
    && s.reserved < 8 && s.width in {0, 2, 8}
    && |f.payload| < (if s.width == 0 then 126 else if s.width == 2 then 0x1_0000 else TWO_64)
  }

  function Wire(f: Frame, s: Shape): seq<Byte>
    requires Fits(f, s)
  {
    var code := if s.width == 0 then |f.payload| else if s.width == 2 then 126 else 127;
    [(if f.fin then 128 else 0) + 16 * s.reserved + f.opcode, (if s.key.Some? then 128 else 0) + code]
    + BigEndian(|f.payload|, s.width)
    + if s.key.Some? then s.key.value + Masked(s.key.value, f.payload) else f.payload
  }

  function MinimalShape(key: Key, n: nat): Shape {
    Shape(0, if n < 126 then 0 else if n <= 0xFFFF then 2 else 8, Some(key))
  }

  /** Where the five parts of an encoding lie. */
  lemma Parts(head: seq<Byte>, ext: seq<Byte>, key: seq<Byte>, body: seq<Byte>, rest: seq<Byte>)
    requires |head| == 2
    ensures var bytes, start, at := head + ext + key + body + rest, 2 + |ext|, 2 + |ext| + |key|;
      && bytes[0] == head[0] && bytes[1] == head[1]
      && |bytes| == at + |body| + |rest|
      && bytes[2..start] == ext && bytes[start..at] == key
      && bytes[at..at + |body|] == body && bytes[at + |body|..] == rest
  {
  }

  function KeyBytes(s: Shape): seq<Byte> {
    if s.key.Some? then s.key.value else []
  }

  function Body(f: Frame, s: Shape): (body: seq<Byte>)
    ensures |body| == |f.payload|
  {
    if s.key.Some? then Masked(s.key.value, f.payload) else f.payload
  }

  lemma WireParses(f: Frame, s: Shape, rest: seq<Byte>)
    requires Fits(f, s)
    ensures ParseFrame(Wire(f, s) + rest) == Some((f, rest))
  {
    hide Masked, And, BigEndian, FromBigEndian, Limit, ParseFrame;
    var bytes := Wire(f, s) + rest;
    var head, ext := bytes[..2], BigEndian(|f.payload|, s.width);
    assert Wire(f, s) == head + ext + KeyBytes(s) + Body(f, s);
    Parts(head, ext, KeyBytes(s), Body(f, s), rest);
    assert bytes == head + ext + KeyBytes(s) + Body(f, s) + rest;
    var b0: int, b1: int := bytes[0], bytes[1];
    assert b0 % 16 == f.opcode && (b0 >= 128 <==> f.fin);
    Limits();
    if s.width > 0 { BigEndianRoundTrip(|f.payload|, s.width); }
    if s.key.Some? { MaskTwice(s.key.value, f.payload); }
    ParsedParts(bytes, s.width, s.key.Some?, f.payload);
  }

  /** What the reader makes of a stream whose parts have the lengths its second byte declares. */
  lemma ParsedParts(bytes: seq<Byte>, width: nat, masked: bool, payload: seq<Byte>)
    requires width in {0, 2, 8} && |bytes| >= 2 && (bytes[1] >= 128 <==> masked)
    requires ExtendedWidth(bytes[1] % 128) == width
    requires var start, at := 2 + width, 2 + width + if masked then 4 else 0;
      && |bytes| >= at + |payload|
      && (if width == 0 then bytes[1] % 128 else FromBigEndian(bytes[2..start])) == |payload|
      && payload == if masked then Masked(bytes[start..at], bytes[at..at + |payload|]) else bytes[at..at + |payload|]
    ensures ParseFrame(bytes) == Some((Frame(bytes[0] >= 128, bytes[0] % 16, payload),
                                       bytes[2 + width + (if masked then 4 else 0) + |payload|..]))
  {
    hide Masked, And, FromBigEndian;
    HeaderMasks(bytes[0]);
    HeaderMasks(bytes[1]);
  }

  /** The reader accepts exactly the encodings of a frame, and nothing of the bytes after it. */
  lemma ParseIffWire(bytes: seq<Byte>, f: Frame, rest: seq<Byte>)
    ensures ParseFrame(bytes) == Some((f, rest)) <==> exists s :: Fits(f, s) && bytes == Wire(f, s) + rest
  {
    hide ParseFrame, Wire, Fits;
    if ParseFrame(bytes) == Some((f, rest)) {
      var s := ShapeOf(bytes, f, rest);
    }
    if s :| Fits(f, s) && bytes == Wire(f, s) + rest {
      WireParses(f, s, rest);
    }
  }

  /** What a successful read says of the stream, in the header's numbers. */
  lemma ParsedFrame(bytes: seq<Byte>, f: Frame, rest: seq<Byte>)
    requires ParseFrame(bytes) == Some((f, rest))
    ensures |bytes| >= 2
    ensures var b0: int, b1: int := bytes[0], bytes[1];
      var width, masked := ExtendedWidth(b1 % 128), b1 >= 128;
      var start, at, n := 2 + width, 2 + width + if masked then 4 else 0, |f.payload|;
      && f.fin == (b0 >= 128) && f.opcode == b0 % 16
      && |bytes| >= at + n && rest == bytes[at + n..]
      && n == (if width == 0 then b1 % 128 else FromBigEndian(bytes[2..start]))
      && f.payload == if masked then Masked(bytes[start..at], bytes[at..at + n]) else bytes[at..at + n]
  {
    hide Masked, And, FromBigEndian;
    HeaderMasks(bytes[0]);
    HeaderMasks(bytes[1]);
  }

  lemma ShapeOf(bytes: seq<Byte>, f: Frame, rest: seq<Byte>) returns (s: Shape)
    requires ParseFrame(bytes) == Some((f, rest))
    ensures Fits(f, s) && bytes == Wire(f, s) + rest
  {
    hide Masked, BigEndian, FromBigEndian, ParseFrame, Wire, Fits, Body;
    ParsedFrame(bytes, f, rest);
    var b0: int, b1: int := bytes[0], bytes[1];
    var width, masked, n := ExtendedWidth(b1 % 128), b1 >= 128, |f.payload|;
    var start, at := 2 + width, 2 + width + if masked then 4 else 0;
    var ext, key, body := bytes[2..start], bytes[start..at], bytes[at..at + n];
    s := Shape(b0 % 128 / 16, width, if masked then Some(key) else None);
    Pieces(bytes, start, at, n);
    LengthFits(f, s, b1, ext);
    MaskedBody(f, s, body);
    WireOfPieces(f, s, b0, b1, ext, body);
  }

  lemma Pieces(bytes: seq<Byte>, start: nat, at: nat, n: nat)
    requires 2 <= start <= at && at + n <= |bytes|
    ensures bytes == [bytes[0], bytes[1]] + bytes[2..start] + bytes[start..at] + bytes[at..at + n] + bytes[at + n..]
  {
  }

  lemma LengthFits(f: Frame, s: Shape, b1: Byte, ext: seq<Byte>)
    requires s.reserved < 8 && s.width == ExtendedWidth(b1 % 128) && |ext| == s.width
    requires |f.payload| == if s.width == 0 then b1 % 128 else FromBigEndian(ext)
    ensures Fits(f, s) && BigEndian(|f.payload|, s.width) == ext
  {
    hide BigEndian, FromBigEndian, Limit;
    Limits();
    if s.width == 0 { NoBytes(|f.payload|); } else { FromBigEndianRoundTrip(ext); }
  }

  lemma NoBytes(n: nat)
    ensures BigEndian(n, 0) == []
  {
  }

  lemma MaskedBody(f: Frame, s: Shape, body: seq<Byte>)
    requires f.payload == if s.key.Some? then Masked(s.key.value, body) else body
    ensures Body(f, s) == body
  {
    hide Masked;
    if s.key.Some? { MaskTwice(s.key.value, body); }
  }

  lemma WireOfPieces(f: Frame, s: Shape, b0: Byte, b1: Byte, ext: seq<Byte>, body: seq<Byte>)
    requires Fits(f, s) && BigEndian(|f.payload|, s.width) == ext && Body(f, s) == body
    requires f.fin == (b0 >= 128) && f.opcode == b0 % 16 && s.reserved == b0 % 128 / 16
    requires s.key.Some? <==> b1 >= 128
    requires s.width == ExtendedWidth(b1 % 128) && (s.width == 0 ==> |f.payload| == b1 % 128)
    ensures Wire(f, s) == [b0, b1] + ext + KeyBytes(s) + body
  {
    hide Masked, BigEndian;
    HeadBytes(b0, b1, f, s);
  }

  lemma HeadBytes(b0: Byte, b1: Byte, f: Frame, s: Shape)
    requires f.fin == (b0 >= 128) && f.opcode == b0 % 16 && s.reserved == b0 % 128 / 16
    requires s.key.Some? <==> b1 >= 128
    requires s.width == ExtendedWidth(b1 % 128) && (s.width == 0 ==> |f.payload| == b1 % 128)
    ensures (if f.fin then 128 else 0) + 16 * s.reserved + f.opcode == b0
    ensures (if s.key.Some? then 128 else 0)
          + (if s.width == 0 then |f.payload| else if s.width == 2 then 126 else 127) == b1
  {
  }

  lemma ClientFrameIsWire(opcode: Opcode, key: Key, payload: seq<Byte>)
    requires |payload| < TWO_64
    ensures Fits(Frame(true, opcode, payload), MinimalShape(key, |payload|))
    ensures ClientFrame(opcode, key, payload) == Wire(Frame(true, opcode, payload), MinimalShape(key, |payload|))
  {
    hide Masked, And, Or, BigEndian;
    HeaderMasks(opcode);
    OrHigh(opcode, 128);
    OrHigh(LengthCode(|payload|), 128);
    assert |payload| < 126 ==> BigEndian(|payload|, 0) == [];
  }

  /**
   * The header a client sends: its final bit and opcode, the masked bit and the shortest length form, in bytes of
   * decreasing weight; then the key and the masked payload.
   */
  lemma ClientFrameLayout(opcode: Opcode, key: Key, payload: seq<Byte>)
    requires |payload| < TWO_64
    ensures var bytes, n := ClientFrame(opcode, key, payload), |payload|;
      var start := if n < 126 then 2 else if n < 0x1_0000 then 4 else 10;
      && |bytes| == start + 4 + n && bytes[start..start + 4] == key && bytes[start + 4..] == Masked(key, payload)
      && bytes[0] == 128 + opcode
      && bytes[1] == 128 + (if n < 126 then n else if n < 0x1_0000 then 126 else 127)
      && Digits(bytes[2..start], n)
  {
    hide Masked, And, Or, BigEndian, Digits;
    HeaderMasks(opcode);
    OrHigh(opcode, 128);
    OrHigh(LengthCode(|payload|), 128);
    var bytes, n, ext := ClientFrame(opcode, key, payload), |payload|, LengthBytes(|payload|);
    var start := if n < 126 then 2 else if n < 0x1_0000 then 4 else 10;
    assert start == 2 + |ext|;
    Parts([bytes[0], bytes[1]], ext, key, Masked(key, payload), []);
    assert bytes == [bytes[0], bytes[1]] + ext + key + Masked(key, payload) + [];
    BigEndianDigits(n, |ext|);
  }

  lemma ParsedShort(s: seq<Byte>)
    ensures |s| < 2 ==> ParseFrame(s).None?
  {
  }

  /** What the reader makes of a stream of at least two bytes, in the header's numbers. */
  lemma ParsedByHeader(s: seq<Byte>)
    requires |s| >= 2
    ensures var b0: int, b1: int := s[0], s[1];
      var width, masked := ExtendedWidth(b1 % 128), b1 >= 128;
      var start, at := 2 + width, 2 + width + if masked then 4 else 0;
      && (|s| < start ==> ParseFrame(s).None?)
      && (|s| >= start ==>
            var n := if width == 0 then b1 % 128 else FromBigEndian(s[2..start]);
            && (|s| < at + n ==> ParseFrame(s).None?)
            && (|s| >= at + n ==>
                  var body := s[at..at + n];
                  var payload := if masked then Masked(s[start..at], body) else body;
                  ParseFrame(s) == Some((Frame(b0 >= 128, b0 % 16, payload), s[at + n..]))))
  {
    hide Masked, And, FromBigEndian;
    HeaderMasks(s[0]);
    HeaderMasks(s[1]);
  }

  /** A frame survives the wire, whatever its opcode, key and length, and leaves what follows untouched. */
  lemma FrameRoundTrip(opcode: Opcode, key: Key, payload: seq<Byte>, rest: seq<Byte>)
    requires |payload| < TWO_64
    ensures ParseFrame(ClientFrame(opcode, key, payload) + rest) == Some((Frame(true, opcode, payload), rest))
  {
    hide ParseFrame, Wire, ClientFrame;
    ClientFrameIsWire(opcode, key, payload);
    WireParses(Frame(true, opcode, payload), MinimalShape(key, |payload|), rest);
  }
}
