/**
 * What decoding means byte by byte (W3C PNG sections 5.3, 9.2 to 9.4 and 11.2.1), said of the reader of
 * `scripts/test-linux-display-cutover.py` in its results alone.
 */
module PngLaws {
  import opened Common
  import opened PngFilter
  import opened PngReader

  // ---------------------------------------------------------------------------------------
  // One byte.
  // ---------------------------------------------------------------------------------------

  /** `p` is the nearest of the three to l + u - c, ties going to l, then u, then c. */
  predicate IsNearest(p: int, l: int, u: int, c: int) {
    var e := l + u - c;
    || (p == l && Abs(e - l) <= Abs(e - u) && Abs(e - l) <= Abs(e - c))
    || (p == u && Abs(e - u) < Abs(e - l) && Abs(e - u) <= Abs(e - c))
    || (p == c && Abs(e - c) < Abs(e - l) && Abs(e - c) < Abs(e - u))
  }

  /** Byte `y` is byte `x` reconstructed with filter `t` from the bytes before, above and before-above. */
  ghost predicate Reconstructed(t: FilterType, x: int, l: int, u: int, c: int, y: int) {
    match t
    case 0 => y == x
    case 1 => y == (x + l) % 256
    case 2 => y == (x + u) % 256
    case 3 => exists q :: 2 * q <= l + u <= 2 * q + 1 && y == (x + q) % 256
    case _ => exists p :: IsNearest(p, l, u, c) && y == (x + p) % 256
  }

  function LeftOf(row: seq<Byte>, bpp: nat, i: nat): int
    requires i < |row|
  {
    if i >= bpp && bpp > 0 then row[i - bpp] else 0
  }

  /** Every byte of `row` is reconstructed from `raw`, the row itself and the row above. */
  ghost predicate RowReconstructed(t: FilterType, bpp: nat, above: seq<Byte>, raw: seq<Byte>, row: seq<Byte>) {
    && |row| == |raw| == |above|
    && forall i :: 0 <= i < |row| ==>
         Reconstructed(t, raw[i], LeftOf(row, bpp, i), above[i], LeftOf(above, bpp, i), row[i])
  }

  /** Unfiltering is reconstruction, filter type by filter type. */
  lemma UnfilterReconstructs(t: FilterType, bpp: nat, above: seq<Byte>, raw: seq<Byte>)
    requires |above| == |raw|
    ensures RowReconstructed(t, bpp, above, raw, UnfilterRow(t, bpp, above, raw))
  {
    hide Reconstructed, UnfilterRow;
    var row := UnfilterRow(t, bpp, above, raw);
    forall i | 0 <= i < |row|
      ensures Reconstructed(t, raw[i], LeftOf(row, bpp, i), above[i], LeftOf(above, bpp, i), row[i])
    {
      ByteOfRow(t, bpp, above, raw, i);
      PredictorReconstructs(t, raw[i], LeftOf(row, bpp, i), above[i], LeftOf(above, bpp, i));
    }
  }

  lemma ByteOfRow(t: FilterType, bpp: nat, above: seq<Byte>, raw: seq<Byte>, i: nat)
    requires |above| == |raw| && i < |raw|
    ensures var row := UnfilterRow(t, bpp, above, raw);
      row[i] == (raw[i] + Predictor(t, LeftOf(row, bpp, i), above[i], LeftOf(above, bpp, i))) % 256
  {
    hide Predictor, UnfilterRow;
    var row := UnfilterRow(t, bpp, above, raw);
    UnfilteredExtends(t, bpp, above, raw, i);
    UnfilteredExtends(t, bpp, above, raw, i + 1);
    var done := Unfiltered(t, bpp, above, raw, i);
    assert done == row[..i] && Unfiltered(t, bpp, above, raw, i + 1)[i] == row[i];
    assert Before(done, bpp, i) == LeftOf(row, bpp, i) && Before(above, bpp, i) == LeftOf(above, bpp, i);
  }

  lemma PredictorReconstructs(t: FilterType, x: Byte, l: Byte, u: Byte, c: Byte)
    ensures Reconstructed(t, x, l, u, c, (x + Predictor(t, l, u, c)) % 256)
  {
    if t == 3 {
      var q := Predictor(t, l, u, c);
      assert 2 * q <= l + u <= 2 * q + 1;
    } else if t == 4 {
      assert IsNearest(Predictor(t, l, u, c), l, u, c);
    }
  }

  // ---------------------------------------------------------------------------------------
  // All rows.
  // ---------------------------------------------------------------------------------------

  /** `n` rows, each behind a filter type of the five. */
  predicate Legal(stream: seq<Byte>, stride: nat, n: nat) {
    |stream| == n * stride && forall k: nat :: k < n ==> k * stride < |stream| && stream[k * stride] <= 4
  }

  lemma Strides(k: nat, n: nat, stride: nat)
    requires k < n && stride > 0
    ensures k * stride + stride == (k + 1) * stride <= n * stride && k * stride < n * stride
  {
    Larger(k + 1, n, stride);
  }

  lemma Larger(a: nat, b: nat, s: nat)
    requires a <= b
    ensures a * s <= b * s
  {
  }

  /** A stream of the right length decodes exactly when every row's filter type is one of the five. */
  lemma {:induction false} RowsDecodeIff(stream: seq<Byte>, above: seq<Byte>, n: nat, index: nat, bpp: nat)
    requires |stream| == n * (|above| + 1)
    ensures DecodedRows(stream, above, n, index, bpp).Ok? <==> Legal(stream, |above| + 1, n)
    decreases n
  {
    hide UnfilterRow;
    var stride := |above| + 1;
    if n > 0 {
      Strides(0, n, stride);
      RowsLeft(n, stride);
      var tail, row := stream[stride..], stream[1..stride];
      if stream[0] <= 4 {
        RowsDecodeIff(tail, UnfilterRow(stream[0], bpp, above, row), n - 1, index + 1, bpp);
        LegalStep(stream, stride, n);
      } else {
        assert !Legal(stream, stride, n) by { assert 0 * stride == 0; }
      }
    }
  }

  lemma LegalStep(stream: seq<Byte>, stride: nat, n: nat)
    requires n > 0 && stride > 0 && |stream| == n * stride && stream[0] <= 4
    requires |stream| >= stride && |stream[stride..]| == (n - 1) * stride
    ensures Legal(stream, stride, n) <==> Legal(stream[stride..], stride, n - 1)
  {
    var tail := stream[stride..];
    if Legal(tail, stride, n - 1) {
      forall k: nat | k < n ensures k * stride < |stream| && stream[k * stride] <= 4 {
        Strides(k, n, stride);
        if k > 0 {
          Strides(k - 1, n - 1, stride);
          assert tail[(k - 1) * stride] == stream[k * stride];
        } else {
          assert 0 * stride == 0;
        }
      }
    }
    if Legal(stream, stride, n) {
      forall k: nat | k < n - 1 ensures k * stride < |tail| && tail[k * stride] <= 4 {
        Strides(k, n - 1, stride);
        Strides(k + 1, n, stride);
        assert tail[k * stride] == stream[(k + 1) * stride];
      }
    }
  }

  /** Row `k` is reconstructed from its own bytes of the stream and the row above it. */
  ghost predicate RowShown(stream: seq<Byte>, above: seq<Byte>, bpp: nat, rows: seq<seq<Byte>>, k: nat)
    requires k < |rows|
  {
    var at := k * (|above| + 1);
    && at + |above| + 1 <= |stream| && stream[at] <= 4
    && RowReconstructed(stream[at], bpp, if k == 0 then above else rows[k - 1], stream[at + 1..at + |above| + 1],
                        rows[k])
  }

  lemma FirstRow(stream: seq<Byte>, above: seq<Byte>, n: nat, index: nat, bpp: nat, rows: seq<seq<Byte>>)
    requires n > 0 && |stream| == n * (|above| + 1) && DecodedRows(stream, above, n, index, bpp) == Ok(rows)
    ensures |stream| >= |above| + 1 && |stream[|above| + 1..]| == (n - 1) * (|above| + 1)
    ensures stream[0] <= 4 && |rows| == n
    ensures rows[0] == UnfilterRow(stream[0], bpp, above, stream[1..|above| + 1])
    ensures DecodedRows(stream[|above| + 1..], rows[0], n - 1, index + 1, bpp) == Ok(rows[1..])
  {
    hide UnfilterRow;
    RowsLeft(n, |above| + 1);
  }

  lemma ShownFirst(stream: seq<Byte>, above: seq<Byte>, bpp: nat, rows: seq<seq<Byte>>)
    requires |stream| >= |above| + 1 && stream[0] <= 4 && rows != []
    requires rows[0] == UnfilterRow(stream[0], bpp, above, stream[1..|above| + 1])
    ensures RowShown(stream, above, bpp, rows, 0)
  {
    hide UnfilterRow, RowReconstructed;
    var stride := |above| + 1;
    assert 0 * stride == 0;
    UnfilterReconstructs(stream[0], bpp, above, stream[1..stride]);
  }

  lemma ShownLater(stream: seq<Byte>, above: seq<Byte>, bpp: nat, rows: seq<seq<Byte>>, k: nat)
    requires |stream| >= |above| + 1 && 0 < k < |rows| && |rows[0]| == |above|
    requires RowShown(stream[|above| + 1..], rows[0], bpp, rows[1..], k - 1)
    ensures RowShown(stream, above, bpp, rows, k)
  {
    hide RowReconstructed;
    var stride, at := |above| + 1, (k - 1) * (|above| + 1);
    var tail := stream[stride..];
    RowsLeft(k, stride);
    assert tail[at] == stream[stride + at];
    assert tail[at + 1..at + stride] == stream[stride + at + 1..stride + at + stride];
  }

  /** Each decoded row is reconstructed from the stream and the row above it. */
  lemma {:induction false} RowsAreReconstructed(stream: seq<Byte>, above: seq<Byte>, n: nat, index: nat, bpp: nat,
      rows: seq<seq<Byte>>, k: nat)
    requires |stream| == n * (|above| + 1) && DecodedRows(stream, above, n, index, bpp) == Ok(rows) && k < n
    ensures |rows| == n && RowShown(stream, above, bpp, rows, k)
    decreases n
  {
    hide UnfilterRow, RowShown, DecodedRows;
    FirstRow(stream, above, n, index, bpp, rows);
    if k == 0 {
      ShownFirst(stream, above, bpp, rows);
    } else {
      RowsAreReconstructed(stream[|above| + 1..], rows[0], n - 1, index + 1, bpp, rows[1..], k - 1);
      ShownLater(stream, above, bpp, rows, k);
    }
  }

  // ---------------------------------------------------------------------------------------
  // Bytes of the file.
  // ---------------------------------------------------------------------------------------

  /** Four bytes as one number, the most significant first. */
  function Number32(a: int, b: int, c: int, d: int): int { 0x100_0000 * a + 0x1_0000 * b + 0x100 * c + d }

  lemma Big32Is(bytes: seq<Byte>)
    requires |bytes| == 4
    ensures FromBig32(bytes) == Number32(bytes[0], bytes[1], bytes[2], bytes[3])
  {
  }

  /** Where the parts of the next chunk lie, and over what its CRC is taken. */
  lemma ChunkLayout(data: seq<Byte>, crc: seq<Byte> -> U32, c: Chunk, rest: seq<Byte>)
    ensures NextChunk(data, crc) == Ok((c, rest)) <==>
      && |data| == 12 + |c.payload| + |rest| && |c.kind| == 4
      && Number32(data[0], data[1], data[2], data[3]) == |c.payload|
      && data[4..] == c.kind + c.payload + data[8 + |c.payload|..12 + |c.payload|] + rest
      && crc(c.kind + c.payload) == FromBig32(data[8 + |c.payload|..12 + |c.payload|])
  {
    hide FromBig32;
    var n := |c.payload|;
    if |data| >= 12 {
      Big32Is(data[..4]);
      if |data| == 12 + n + |rest| && |c.kind| == 4 {
        DataAfterLength(data, c.kind, c.payload, rest);
      }
    }
  }

  lemma DataAfterLength(data: seq<Byte>, kind: seq<Byte>, payload: seq<Byte>, rest: seq<Byte>)
    requires |data| == 12 + |payload| + |rest| && |kind| == 4
    ensures data[4..] == kind + payload + data[8 + |payload|..12 + |payload|] + rest <==>
      data[4..8] == kind && data[8..8 + |payload|] == payload && data[12 + |payload|..] == rest
  {
    var n, all := |payload|, kind + payload + data[8 + |payload|..12 + |payload|] + rest;
    assert data[4..] == data[4..8] + data[8..8 + n] + data[8 + n..12 + n] + data[12 + n..];
    assert all[..4] == kind && all[4..4 + n] == payload && all[8 + n..] == rest;
    assert data[4..][..4] == data[4..8] && data[4..][4..4 + n] == data[8..8 + n]
      && data[4..][8 + n..] == data[12 + n..];
  }

  /** The seven fields of an image header, in their order. */
  lemma HeaderLayout(p: seq<Byte>)
    requires |p| == 13
    ensures var h := ParseHeader(p);
      && h.width == Number32(p[0], p[1], p[2], p[3])
      && h.height == Number32(p[4], p[5], p[6], p[7])
      && h.bitDepth == p[8] && h.colorType == p[9] && h.compression == p[10] && h.filterMethod == p[11]
      && h.interlace == p[12]
  {
    hide FromBig32;
    Big32Is(p[..4]);
    Big32Is(p[4..8]);
  }

  // ---------------------------------------------------------------------------------------
  // Images.
  // ---------------------------------------------------------------------------------------

  /** Bytes a pixel of a colour type takes at eight bits a sample. */
  predicate PixelBytes(colorType: Byte, bpp: nat) {
    (colorType == 2 && bpp == 3) || (colorType == 6 && bpp == 4)
  }

  /** The data is `height` rows of filter type and bytes, from which the image's rows are reconstructed. */
  ghost predicate ShowsRows(stream: seq<Byte>, image: Image) {
    var rowBytes := image.width * image.bytesPerPixel;
    && |image.rows| == image.height && Rectangular(image.rows, rowBytes)
    && Legal(stream, rowBytes + 1, image.height)
    && forall k: nat :: k < image.height ==>
         RowShown(stream, Zeros(rowBytes), image.bytesPerPixel, image.rows, k)
  }

  /**
   * An image comes out exactly of a supported header (8-bit RGB or RGBA, no interlacing, sides of 1 to 4096) and
   * inflated data of its length with legal filter types; and then it has the header's sides, 3 or 4 bytes a pixel,
   * and the rows reconstructed from that data.
   */
  lemma ImageIff(h: Header, compressed: seq<Byte>, inflate: seq<Byte> -> Option<seq<Byte>>)
    ensures DecodeImage(Some(h), compressed, inflate).Ok? <==>
      && 0 < h.width <= 4096 && 0 < h.height <= 4096 && h.bitDepth == 8 && (h.colorType == 2 || h.colorType == 6)
      && h.compression == 0 && h.filterMethod == 0 && h.interlace == 0
      && inflate(compressed).Some?
      && Legal(inflate(compressed).value, h.width * (if h.colorType == 2 then 3 else 4) + 1, h.height)
    ensures DecodeImage(Some(h), compressed, inflate).Ok? ==>
      var image := DecodeImage(Some(h), compressed, inflate).value;
      && image.width == h.width && image.height == h.height && PixelBytes(h.colorType, image.bytesPerPixel)
      && inflate(compressed).Some? && ShowsRows(inflate(compressed).value, image)
  {
    hide DecodedRows, Legal, Zeros, RowShown;
    if inflate(compressed).Some? {
      var data := inflate(compressed).value;
      var bpp := BytesPerPixel(h);
      var rowBytes := h.width * bpp;
      LegalLength(data, rowBytes + 1, h.height);
      if |data| == h.height * (rowBytes + 1) {
        RowsDecodeIff(data, Zeros(rowBytes), h.height, 0, bpp);
        if DecodeImage(Some(h), compressed, inflate).Ok? {
          var image := DecodeImage(Some(h), compressed, inflate).value;
          forall k: nat | k < image.height ensures RowShown(data, Zeros(rowBytes), bpp, image.rows, k) {
            RowsAreReconstructed(data, Zeros(rowBytes), h.height, 0, bpp, image.rows, k);
          }
        }
      }
    }
  }

  lemma LegalLength(stream: seq<Byte>, stride: nat, n: nat)
    ensures Legal(stream, stride, n) ==> |stream| == n * stride
  {
  }

  // ---------------------------------------------------------------------------------------
  // What is said of a file that is refused.
  // ---------------------------------------------------------------------------------------

  /** A chunk is refused for the first of three faults: it is cut short, it outruns the file, or its CRC differs. */
  lemma ChunkErrors(data: seq<Byte>, crc: seq<Byte> -> U32)
    ensures NextChunk(data, crc) == Err(TruncatedChunk) <==> |data| < 12
    ensures NextChunk(data, crc) == Err(OversizedChunk) <==>
      |data| >= 12 && |data| < 12 + Number32(data[0], data[1], data[2], data[3])
    ensures NextChunk(data, crc).Err? ==> NextChunk(data, crc).error in {TruncatedChunk, OversizedChunk, BadCrc}
  {
    if |data| >= 12 { Big32Is(data[..4]); }
  }

  /** A chunk in the wrong place or of the wrong size is named for what it is; the image's chunks are taken in order. */
  lemma AbsorbErrors(c: Chunk, header: Option<Header>, compressed: seq<Byte>)
    requires |c.kind| == 4
    ensures var r, kind := Absorb(c, header, compressed), Text(c.kind);
      && (r == Err(InvalidIhdr) <==> kind == "IHDR" && (header.Some? || |c.payload| != 13))
      && (r == Err(IdatBeforeIhdr) <==> kind == "IDAT" && header.None?)
      && (r == Err(OversizedIdat) <==> kind == "IDAT" && header.Some? && |compressed| + |c.payload| > 67_108_864)
      && (r == Err(NonEmptyIend) <==> kind == "IEND" && c.payload != [])
      && (r.Err? ==> r.error in {InvalidIhdr, IdatBeforeIhdr, OversizedIdat, NonEmptyIend})
      && (r.Ok? ==>
            && r.value.0 == (if kind == "IHDR" then Some(ParseHeader(c.payload)) else header)
            && r.value.1 == (if kind == "IDAT" then compressed + c.payload else compressed))
  {
    hide ParseHeader;
    Kinds(c.kind);
  }

  function Text(kind: seq<Byte>): string {
    seq(|kind|, i requires 0 <= i < |kind| => kind[i] as char)
  }

  lemma Kinds(kind: seq<Byte>)
    requires |kind| == 4
    ensures Text(kind) == "IHDR" <==> kind == IHDR
    ensures Text(kind) == "IDAT" <==> kind == IDAT
    ensures Text(kind) == "IEND" <==> kind == IEND
  {
    var t := Text(kind);
    assert t == [kind[0] as char, kind[1] as char, kind[2] as char, kind[3] as char];
    assert kind == [kind[0], kind[1], kind[2], kind[3]];
  }

  /** The image is refused for its first fault, in this order. */
  lemma ImageErrors(h: Header, compressed: seq<Byte>, inflate: seq<Byte> -> Option<seq<Byte>>)
    ensures var r := DecodeImage(Some(h), compressed, inflate);
      var sides := 0 < h.width <= 4096 && 0 < h.height <= 4096;
      var depth, color := h.bitDepth == 8, h.colorType == 2 || h.colorType == 6;
      var plain := h.compression == h.filterMethod == h.interlace == 0;
      var stride := h.width * (if h.colorType == 2 then 3 else 4) + 1;
      && (r == Err(InvalidDimensions) <==> !sides)
      && (r == Err(InvalidDepth) <==> sides && !depth)
      && (r == Err(InvalidColor) <==> sides && depth && !color)
      && (r == Err(InvalidEncoding) <==> sides && depth && color && !plain)
      && (r == Err(InvalidPixels) <==> sides && depth && color && plain && inflate(compressed).None?)
      && (sides && depth && color && plain && inflate(compressed).Some? ==>
            var data := inflate(compressed).value;
            && (r == Err(WrongLength) <==> |data| != h.height * stride)
            && (|data| == h.height * stride ==>
                  forall k: nat :: r == Err(BadFilter(k)) <==> FirstBadRow(data, stride, h.height, k)))
  {
    hide DecodedRows, Zeros, FirstBadRow;
    var bpp := if h.colorType == 2 then 3 else 4;
    var rowBytes := h.width * bpp;
    if inflate(compressed).Some? && |inflate(compressed).value| == h.height * (rowBytes + 1) {
      var data := inflate(compressed).value;
      forall k: nat
        ensures DecodedRows(data, Zeros(rowBytes), h.height, 0, bpp) == Err(BadFilter(k)) <==>
          FirstBadRow(data, rowBytes + 1, h.height, k)
      {
        BadFilterIff(data, Zeros(rowBytes), h.height, 0, bpp, k);
      }
      OnlyFiltersFail(data, Zeros(rowBytes), h.height, 0, bpp);
    }
  }

  lemma ImageWithoutHeader(compressed: seq<Byte>, inflate: seq<Byte> -> Option<seq<Byte>>)
    ensures DecodeImage(None, compressed, inflate) == Err(InvalidDimensions)
  {
  }

  /** The byte row `k` begins with, if there is one. */
  function FilterOf(stream: seq<Byte>, stride: nat, k: nat): Option<Byte> {
    if k * stride < |stream| then Some(stream[k * stride]) else None
  }

  predicate Known(t: Option<Byte>) { t.Some? && t.value <= 4 }

  /** Row `k` is the first whose filter type is none of the five. */
  predicate FirstBadRow(stream: seq<Byte>, stride: nat, n: nat, k: nat) {
    && k < n && FilterOf(stream, stride, k).Some? && !Known(FilterOf(stream, stride, k))
    && forall j: nat :: j < k ==> Known(FilterOf(stream, stride, j))
  }

  lemma {:induction false} OnlyFiltersFail(stream: seq<Byte>, above: seq<Byte>, n: nat, index: nat, bpp: nat)
    requires |stream| == n * (|above| + 1)
    ensures var r := DecodedRows(stream, above, n, index, bpp); r.Err? ==> r.error.BadFilter? && r.error.row >= index
    decreases n
  {
    hide UnfilterRow;
    if n > 0 {
      RowsLeft(n, |above| + 1);
      if stream[0] <= 4 {
        var row := UnfilterRow(stream[0], bpp, above, stream[1..1 + |above|]);
        OnlyFiltersFail(stream[1 + |above|..], row, n - 1, index + 1, bpp);
      }
    }
  }

  lemma {:induction false} BadFilterIff(stream: seq<Byte>, above: seq<Byte>, n: nat, index: nat, bpp: nat, k: nat)
    requires |stream| == n * (|above| + 1)
    ensures DecodedRows(stream, above, n, index, bpp) == Err(BadFilter(index + k)) <==>
      FirstBadRow(stream, |above| + 1, n, k)
    decreases n
  {
    hide UnfilterRow, DecodedRows, FirstBadRow;
    var stride := |above| + 1;
    FailsWithRest(stream, above, n, index, bpp);
    BadAtOnce(stream, stride, n, k);
    if n > 0 && stream[0] <= 4 {
      var row, tail := UnfilterRow(stream[0], bpp, above, stream[1..stride]), stream[stride..];
      if k > 0 {
        BadFilterIff(tail, row, n - 1, index + 1, bpp, k - 1);
        BadRowStep(stream, stride, n, k);
      } else {
        OnlyFiltersFail(tail, row, n - 1, index + 1, bpp);
      }
    }
  }

  lemma FailsWithRest(stream: seq<Byte>, above: seq<Byte>, n: nat, index: nat, bpp: nat)
    requires |stream| == n * (|above| + 1)
    ensures var r, stride := DecodedRows(stream, above, n, index, bpp), |above| + 1;
      && (n == 0 ==> r.Ok?)
      && (n > 0 ==>
            && |stream| >= stride && |stream[stride..]| == (n - 1) * stride
            && (stream[0] > 4 ==> r == Err(BadFilter(index)))
            && (stream[0] <= 4 ==>
                  var row := UnfilterRow(stream[0], bpp, above, stream[1..stride]);
                  var rest := DecodedRows(stream[stride..], row, n - 1, index + 1, bpp);
                  (r.Err? <==> rest.Err?) && (r.Err? ==> r.error == rest.error)))
  {
    hide UnfilterRow;
    if n > 0 { RowsLeft(n, |above| + 1); }
  }

  lemma BadAtOnce(stream: seq<Byte>, stride: nat, n: nat, k: nat)
    ensures n == 0 ==> !FirstBadRow(stream, stride, n, k)
    ensures n > 0 && stream != [] ==>
      if stream[0] > 4 then FirstBadRow(stream, stride, n, k) <==> k == 0 else !FirstBadRow(stream, stride, n, 0)
  {
    assert 0 * stride == 0;
    if stream != [] {
      assert FilterOf(stream, stride, 0) == Some(stream[0]);
      hide FilterOf;
    }
  }

  lemma NextFilter(stream: seq<Byte>, stride: nat, k: nat)
    requires stride <= |stream|
    ensures FilterOf(stream, stride, k + 1) == FilterOf(stream[stride..], stride, k)
  {
    RowsLeft(k + 1, stride);
    assert k * stride < |stream[stride..]| ==> stream[stride..][k * stride] == stream[stride + k * stride];
  }

  lemma BadRowStep(stream: seq<Byte>, stride: nat, n: nat, k: nat)
    requires 0 < stride <= |stream| && n > 0 && k > 0 && stream[0] <= 4
    ensures FirstBadRow(stream, stride, n, k) <==> FirstBadRow(stream[stride..], stride, n - 1, k - 1)
  {
    assert Known(FilterOf(stream, stride, 0)) by { assert 0 * stride == 0; }
    hide FilterOf, Known;
    var tail := stream[stride..];
    forall j: nat ensures FilterOf(stream, stride, j + 1) == FilterOf(tail, stride, j) {
      NextFilter(stream, stride, j);
    }
    assert k - 1 + 1 == k;
    if FirstBadRow(tail, stride, n - 1, k - 1) {
      forall j: nat | j < k ensures Known(FilterOf(stream, stride, j)) {
        if j > 0 { assert Known(FilterOf(tail, stride, j - 1)) && j - 1 + 1 == j; }
      }
    }
    if FirstBadRow(stream, stride, n, k) {
      forall j: nat | j < k - 1 ensures Known(FilterOf(tail, stride, j)) {
        assert Known(FilterOf(stream, stride, j + 1));
      }
    }
  }
}
