/**
 * `decode_png` of `scripts/test-linux-display-cutover.py`: the chunk walk, the header checks and
 * the rows. CRC-32 and zlib's decompressor are parameters; file reading is left to the caller.
 */
module PngReader {
  import opened Common
  import opened PngFilter

  type U32 = n: int | 0 <= n < 0x1_0000_0000

  datatype PngError =
    | NotPng | TruncatedChunk | OversizedChunk | BadCrc | InvalidIhdr | IdatBeforeIhdr | OversizedIdat | NonEmptyIend
    | MissingIend | InvalidDimensions | InvalidDepth | InvalidColor | InvalidEncoding
    | InvalidPixels | WrongLength | BadFilter(row: nat)

  datatype Header = Header(width: U32, height: U32, bitDepth: Byte, colorType: Byte, compression: Byte,
      filterMethod: Byte, interlace: Byte)

  datatype Image = Image(width: nat, height: nat, bytesPerPixel: nat, rows: seq<seq<Byte>>)

  const SIGNATURE: seq<Byte> := [0x89, 0x50, 0x4E, 0x47, 0x0D, 0x0A, 0x1A, 0x0A]
  const IHDR: seq<Byte> := [0x49, 0x48, 0x44, 0x52]
  const IDAT: seq<Byte> := [0x49, 0x44, 0x41, 0x54]
  const IEND: seq<Byte> := [0x49, 0x45, 0x4E, 0x44]
  const MAX_IDAT := 64 * 1024 * 1024
  const MAX_SIDE := 4096

  // ---------------------------------------------------------------------------------------
  // Rows.
  // ---------------------------------------------------------------------------------------

  function Zeros(n: nat): (row: seq<Byte>)
    ensures |row| == n
  {
    if n == 0 then [] else Zeros(n - 1) + [0]
  }

  predicate Rectangular(rows: seq<seq<Byte>>, rowBytes: nat) {
    forall i :: 0 <= i < |rows| ==> |rows[i]| == rowBytes
  }

  /** `rows` then whatever the rest of the stream decodes to. */
  function After(rows: seq<seq<Byte>>, rest: Result<seq<seq<Byte>>, PngError>): Result<seq<seq<Byte>>, PngError> {
    if rest.Ok? then Ok(rows + rest.value) else rest
  }

  /** The next `n` rows of the stream below `previous`, the first of them numbered `index`. */
  function DecodedRows(stream: seq<Byte>, previous: seq<Byte>, n: nat, index: nat,
      bpp: nat): (r: Result<seq<seq<Byte>>, PngError>)
    ensures r.Ok? ==> |r.value| == n && Rectangular(r.value, |previous|)
  {
    if n == 0 then Ok([])
    else if |stream| < |previous| + 1 then Err(WrongLength)
    else if stream[0] > 4 then Err(BadFilter(index))
    else
      var row := UnfilterRow(stream[0], bpp, previous, stream[1..1 + |previous|]);
      After([row], DecodedRows(stream[1 + |previous|..], row, n - 1, index + 1, bpp))
  }

  /** What a writer emits: each row's filter type, then the row filtered against the row above. */
  function FilteredStream(types: seq<FilterType>, rows: seq<seq<Byte>>, previous: seq<Byte>, bpp: nat): seq<Byte>
    requires |types| == |rows| && Rectangular(rows, |previous|)
  {
    if rows == [] then []
    else [types[0]] + FilterRow(types[0], bpp, previous, rows[0]) + FilteredStream(types[1..], rows[1..], rows[0], bpp)
  }

  /** Whatever filter each row was written with, the reader recovers the rows. */
  lemma {:induction false} RowsRoundTrip(types: seq<FilterType>, rows: seq<seq<Byte>>, previous: seq<Byte>,
      index: nat, bpp: nat)
    requires |types| == |rows| && Rectangular(rows, |previous|)
    ensures DecodedRows(FilteredStream(types, rows, previous, bpp), previous, |rows|, index, bpp) == Ok(rows)
  {
    hide UnfilterRow, FilterRow;
    if rows != [] {
      var filtered := FilterRow(types[0], bpp, previous, rows[0]);
      var stream := FilteredStream(types, rows, previous, bpp);
      assert stream[1..1 + |previous|] == filtered;
      assert stream[1 + |previous|..] == FilteredStream(types[1..], rows[1..], rows[0], bpp);
      UnfilterFilter(types[0], bpp, previous, rows[0]);
      RowsRoundTrip(types[1..], rows[1..], rows[0], index + 1, bpp);
      assert rows == [rows[0]] + rows[1..];
    }
  }

  lemma {:induction false} StreamLength(types: seq<FilterType>, rows: seq<seq<Byte>>, previous: seq<Byte>, bpp: nat)
    requires |types| == |rows| && Rectangular(rows, |previous|)
    ensures |FilteredStream(types, rows, previous, bpp)| == |rows| * (|previous| + 1)
  {
    hide FilterRow;
    if rows != [] {
      StreamLength(types[1..], rows[1..], rows[0], bpp);
      RowsLeft(|rows|, |previous| + 1);
    }
  }

  lemma RowsLeft(n: nat, stride: nat)
    requires n > 0
    ensures n * stride == stride + (n - 1) * stride && (n - 1) * stride >= 0
  {
  }

  /** The source's row loop, with `previous` the buffer of the row above. */
  method DecodeRows(inflated: seq<Byte>, height: nat, rowBytes: nat, bpp: nat) returns (r: Result<seq<seq<Byte>>,
      PngError>)
    requires bpp > 0 && |inflated| == height * (rowBytes + 1)
    ensures r == DecodedRows(inflated, Zeros(rowBytes), height, 0, bpp)
  {
    hide UnfilterRow, DecodedRows, After;
    var rows: seq<seq<Byte>> := [];
    var previous := new Byte[rowBytes](ZeroAt);
    assert previous[..] == Zeros(rowBytes) by { ZerosAreZero(rowBytes); }
    var offset := 0;
    ghost var whole := DecodedRows(inflated, Zeros(rowBytes), height, 0, bpp);
    assert inflated[0..] == inflated;
    AfterUnits(rows, whole);
    for rowIndex := 0 to height
      invariant 0 <= offset <= |inflated| && |inflated| - offset == (height - rowIndex) * (rowBytes + 1)
      invariant previous.Length == rowBytes
      invariant After(rows, DecodedRows(inflated[offset..], previous[..], height - rowIndex, rowIndex, bpp)) == whole
    {
      RowsLeft(height - rowIndex, rowBytes + 1);
      var filterType := inflated[offset];
      var raw := inflated[offset + 1..offset + 1 + rowBytes];
      DecodedRowsStep(inflated, offset, previous[..], height - rowIndex, rowIndex, bpp);
      if filterType > 4 {
        AfterUnits(rows, Err(BadFilter(rowIndex)));
        return Err(BadFilter(rowIndex));
      }
      offset := offset + rowBytes + 1;
      var reconstructed := UnfilterInPlace(filterType, bpp, raw, previous);
      AfterAppend(rows, reconstructed[..], DecodedRows(inflated[offset..], reconstructed[..], height - rowIndex - 1,
          rowIndex + 1, bpp));
      rows := rows + [reconstructed[..]];
      previous := reconstructed;
    }
    NoRowsLeft(rows, inflated[offset..], previous[..], height, bpp);
    return Ok(rows);
  }

  lemma DecodedRowsStep(inflated: seq<Byte>, offset: nat, previous: seq<Byte>, n: nat, index: nat, bpp: nat)
    requires n > 0 && offset + |previous| + 1 <= |inflated|
    ensures DecodedRows(inflated[offset..], previous, n, index, bpp) ==
            if inflated[offset] > 4 then Err(BadFilter(index))
            else
              var row := UnfilterRow(inflated[offset], bpp, previous, inflated[offset + 1..offset + 1 + |previous|]);
              After([row], DecodedRows(inflated[offset + |previous| + 1..], row, n - 1, index + 1, bpp))
  {
    hide UnfilterRow;
    var rest := inflated[offset..];
    assert rest[1..1 + |previous|] == inflated[offset + 1..offset + 1 + |previous|];
    assert rest[1 + |previous|..] == inflated[offset + |previous| + 1..];
  }

  lemma AfterUnits(rows: seq<seq<Byte>>, rest: Result<seq<seq<Byte>>, PngError>)
    ensures After([], rest) == rest
    ensures rest.Err? ==> After(rows, rest) == rest
  {
    if rest.Ok? { assert [] + rest.value == rest.value; }
  }

  lemma NoRowsLeft(rows: seq<seq<Byte>>, rest: seq<Byte>, previous: seq<Byte>, index: nat, bpp: nat)
    ensures After(rows, DecodedRows(rest, previous, 0, index, bpp)) == Ok(rows)
  {
    assert rows + [] == rows;
  }

  lemma {:induction false} ZerosAreZero(n: nat)
    ensures forall i :: 0 <= i < n ==> Zeros(n)[i] == 0
  {
    if n > 0 { ZerosAreZero(n - 1); }
  }

  lemma AfterAppend(rows: seq<seq<Byte>>, row: seq<Byte>, rest: Result<seq<seq<Byte>>, PngError>)
    ensures After(rows, After([row], rest)) == After(rows + [row], rest)
  {
    if rest.Ok? { assert rows + ([row] + rest.value) == (rows + [row]) + rest.value; }
  }

  // ---------------------------------------------------------------------------------------
  // Chunks.
  // ---------------------------------------------------------------------------------------

  function Big32(n: U32): (bytes: seq<Byte>)
    ensures |bytes| == 4
  {
    [n / 0x100_0000, n / 0x1_0000 % 0x100, n / 0x100 % 0x100, n % 0x100]
  }

  function FromBig32(bytes: seq<Byte>): U32
    requires |bytes| == 4
  {
    var b0: int, b1: int, b2: int, b3: int := bytes[0], bytes[1], bytes[2], bytes[3];
    b0 * 0x100_0000 + b1 * 0x1_0000 + b2 * 0x100 + b3
  }

  lemma Big32RoundTrip(n: U32, bytes: seq<Byte>)
    requires |bytes| == 4
    ensures FromBig32(Big32(n)) == n && Big32(FromBig32(bytes)) == bytes
  {
    assert n / 0x100 / 0x100 == n / 0x1_0000 && n / 0x1_0000 / 0x100 == n / 0x100_0000;
    var m := FromBig32(bytes);
    var b0: int, b1: int, b2: int, b3: int := bytes[0], bytes[1], bytes[2], bytes[3];
    assert m / 0x100 == b0 * 0x1_0000 + b1 * 0x100 + b2;
    assert m / 0x1_0000 == b0 * 0x100 + b1;
    assert m / 0x100_0000 == b0;
    assert Big32(m) == [b0, b1, b2, b3] == bytes;
  }

  datatype Chunk = Chunk(kind: seq<Byte>, payload: seq<Byte>)

  predicate ValidChunk(c: Chunk) {
    |c.kind| == 4 && |c.payload| < 0x1_0000_0000
  }

  /** Length, type, payload, CRC (W3C PNG section 5.3). */
  function ChunkBytes(c: Chunk, crc: seq<Byte> -> U32): seq<Byte>
    requires ValidChunk(c)
  {
    Big32(|c.payload|) + c.kind + c.payload + Big32(crc(c.kind + c.payload))
  }

  function AllBytes(chunks: seq<Chunk>, crc: seq<Byte> -> U32): seq<Byte>
    requires forall i :: 0 <= i < |chunks| ==> ValidChunk(chunks[i])
  {
    if chunks == [] then [] else ChunkBytes(chunks[0], crc) + AllBytes(chunks[1..], crc)
  }

  function ParseHeader(payload: seq<Byte>): Header
    requires |payload| == 13
  {
    Header(FromBig32(payload[..4]), FromBig32(payload[4..8]), payload[8], payload[9], payload[10], payload[11],
        payload[12])
  }

  /** What the walk has gathered: the header, the compressed bytes, and the data after IEND. */
  datatype Walked = Walked(header: Option<Header>, compressed: seq<Byte>, rest: seq<Byte>, sawIend: bool)

  /** The next chunk of the data and what follows it. */
  function NextChunk(data: seq<Byte>, crc: seq<Byte> -> U32): (r: Result<(Chunk, seq<Byte>), PngError>)
    ensures r.Ok? ==> ValidChunk(r.value.0) && |r.value.1| < |data|
  {
    if |data| < 12 then Err(TruncatedChunk)
    else
      var length := FromBig32(data[..4]);
      if 8 + length + 4 > |data| then Err(OversizedChunk)
      else
        var c := Chunk(data[4..8], data[8..8 + length]);
        if crc(c.kind + c.payload) != FromBig32(data[8 + length..12 + length]) then Err(BadCrc)
        else Ok((c, data[12 + length..]))
  }

  /** One chunk's effect on the header and the compressed bytes; IEND has none but must be empty. */
  function Absorb(c: Chunk, header: Option<Header>, compressed: seq<Byte>): Result<(Option<Header>, seq<Byte>),
      PngError> {
    if c.kind == IHDR then
      if header.Some? || |c.payload| != 13 then Err(InvalidIhdr) else Ok((Some(ParseHeader(c.payload)), compressed))
    else if c.kind == IDAT then
      if header.None? then Err(IdatBeforeIhdr)
      else if |compressed + c.payload| > MAX_IDAT then Err(OversizedIdat)
      else Ok((header, compressed + c.payload))
    else if c.kind == IEND && c.payload != [] then Err(NonEmptyIend)
    else Ok((header, compressed))
  }

  function Walk(data: seq<Byte>, header: Option<Header>, compressed: seq<Byte>,
      crc: seq<Byte> -> U32): Result<Walked, PngError>
    decreases |data|
  {
    if data == [] then Ok(Walked(header, compressed, [], false))
    else
      match NextChunk(data, crc)
      case Err(e) => Err(e)
      case Ok((c, rest)) =>
        match Absorb(c, header, compressed)
        case Err(e) => Err(e)
        case Ok((header', compressed')) =>
          if c.kind == IEND then Ok(Walked(header', compressed', rest, true))
          else Walk(rest, header', compressed', crc)
  }

  lemma NextChunkOfBytes(c: Chunk, rest: seq<Byte>, crc: seq<Byte> -> U32)
    requires ValidChunk(c)
    ensures NextChunk(ChunkBytes(c, crc) + rest, crc) == Ok((c, rest))
  {
    hide Big32, FromBig32;
    var data := ChunkBytes(c, crc) + rest;
    Big32RoundTrip(|c.payload|, [0, 0, 0, 0]);
    Big32RoundTrip(crc(c.kind + c.payload), [0, 0, 0, 0]);
    var n := |c.payload|;
    assert data[..4] == Big32(n) && data[4..8] == c.kind && data[8..8 + n] == c.payload;
    assert data[8 + n..12 + n] == Big32(crc(c.kind + c.payload)) && data[12 + n..] == rest;
  }

  lemma BytesOfNextChunk(data: seq<Byte>, crc: seq<Byte> -> U32)
    requires NextChunk(data, crc).Ok?
    ensures data == ChunkBytes(NextChunk(data, crc).value.0, crc) + NextChunk(data, crc).value.1
  {
    hide Big32, FromBig32;
    var n := FromBig32(data[..4]);
    Big32RoundTrip(0, data[..4]);
    Big32RoundTrip(0, data[8 + n..12 + n]);
    assert data == data[..4] + data[4..8] + data[8..8 + n] + data[8 + n..12 + n] + data[12 + n..];
  }

  // ---------------------------------------------------------------------------------------
  // Well-formed chunk lists, declaratively.
  // ---------------------------------------------------------------------------------------

  predicate AllValid(chunks: seq<Chunk>) { forall i :: 0 <= i < |chunks| ==> ValidChunk(chunks[i]) }

  /** IEND, empty, is the last chunk and only the last. */
  predicate EndsInIend(chunks: seq<Chunk>) {
    && chunks != [] && chunks[|chunks| - 1].payload == []
    && forall i :: 0 <= i < |chunks| ==> (chunks[i].kind == IEND <==> i == |chunks| - 1)
  }

  function IdatData(chunks: seq<Chunk>): seq<Byte> {
    if chunks == [] then [] else (if chunks[0].kind == IDAT then chunks[0].payload else []) + IdatData(chunks[1..])
  }

  /** The only IHDR is chunk `h`, of 13 bytes, and no IDAT comes before it. */
  predicate HeaderAt(chunks: seq<Chunk>, h: nat) {
    && h < |chunks| && |chunks[h].payload| == 13
    && (forall i :: 0 <= i < |chunks| ==> (chunks[i].kind == IHDR <==> i == h))
    && (forall i :: 0 <= i < h ==> chunks[i].kind != IDAT)
  }

  predicate WellFormed(chunks: seq<Chunk>, h: nat) {
    AllValid(chunks) && EndsInIend(chunks) && HeaderAt(chunks, h) && |IdatData(chunks)| <= MAX_IDAT
  }

  /** Absorbing a chunk list up to its IEND, which must be its last chunk. */
  function Fold(chunks: seq<Chunk>, header: Option<Header>, compressed: seq<Byte>): Option<(Option<Header>,
      seq<Byte>)> {
    if chunks == [] then None
    else
      match Absorb(chunks[0], header, compressed)
      case Err(_) => None
      case Ok((header', compressed')) =>
        if chunks[0].kind != IEND then Fold(chunks[1..], header', compressed')
        else if |chunks| == 1 then Some((header', compressed'))
        else None
  }

  lemma {:induction false} WalkOfChunks(chunks: seq<Chunk>, rest: seq<Byte>, header: Option<Header>,
      compressed: seq<Byte>, crc: seq<Byte> -> U32)
    requires AllValid(chunks) && Fold(chunks, header, compressed).Some?
    ensures var (h, z) := Fold(chunks, header, compressed).value;
            Walk(AllBytes(chunks, crc) + rest, header, compressed, crc) == Ok(Walked(h, z, rest, true))
  {
    hide NextChunk, ChunkBytes, Absorb;
    var tail := AllBytes(chunks[1..], crc) + rest;
    var data := AllBytes(chunks, crc) + rest;
    assert data == ChunkBytes(chunks[0], crc) + tail;
    NextChunkOfBytes(chunks[0], tail, crc);
    assert data != [] by { assert |ChunkBytes(chunks[0], crc)| > 0 by { ChunkLength(chunks[0], crc); } }
    if chunks[0].kind == IEND {
      assert chunks[1..] == [] && tail == rest;
    } else {
      var (header', compressed') := Absorb(chunks[0], header, compressed).value;
      WalkOfChunks(chunks[1..], rest, header', compressed', crc);
    }
  }

  lemma ChunkLength(c: Chunk, crc: seq<Byte> -> U32)
    requires ValidChunk(c)
    ensures |ChunkBytes(c, crc)| == 12 + |c.payload|
  {
  }

  lemma {:induction false} ChunksOfWalk(data: seq<Byte>, header: Option<Header>, compressed: seq<Byte>,
      crc: seq<Byte> -> U32)
    returns (chunks: seq<Chunk>)
    requires Walk(data, header, compressed, crc).Ok? && Walk(data, header, compressed, crc).value.sawIend
    ensures var w := Walk(data, header, compressed, crc).value;
            && AllValid(chunks) && data == AllBytes(chunks, crc) + w.rest
            && Fold(chunks, header, compressed) == Some((w.header, w.compressed))
    decreases |data|
  {
    hide NextChunk, ChunkBytes, Absorb;
    BytesOfNextChunk(data, crc);
    var (c, rest) := NextChunk(data, crc).value;
    var (header', compressed') := Absorb(c, header, compressed).value;
    if c.kind == IEND {
      chunks := [c];
      assert AllBytes(chunks, crc) == ChunkBytes(c, crc) + [] == ChunkBytes(c, crc);
    } else {
      var more := ChunksOfWalk(rest, header', compressed', crc);
      chunks := [c] + more;
      assert chunks[1..] == more;
      assert data == AllBytes(chunks, crc) + Walk(rest, header', compressed', crc).value.rest;
    }
  }

  lemma EndsInIendTail(chunks: seq<Chunk>)
    requires chunks != [] && chunks[0].kind != IEND
    ensures EndsInIend(chunks) <==> EndsInIend(chunks[1..])
  {
    if EndsInIend(chunks[1..]) {
      forall i | 0 <= i < |chunks| ensures chunks[i].kind == IEND <==> i == |chunks| - 1 {
        if i > 0 { assert chunks[i] == chunks[1..][i - 1]; }
      }
    }
  }

  predicate NoHeader(chunks: seq<Chunk>) { forall i :: 0 <= i < |chunks| ==> chunks[i].kind != IHDR }

  /** Past the header: only data, ancillary chunks and the end. */
  lemma {:induction false} FoldPastHeader(chunks: seq<Chunk>, header: Header, compressed: seq<Byte>)
    requires |compressed| <= MAX_IDAT
    ensures Fold(chunks, Some(header), compressed) ==
            if EndsInIend(chunks) && NoHeader(chunks) && |compressed + IdatData(chunks)| <= MAX_IDAT
            then Some((Some(header), compressed + IdatData(chunks))) else None
  {
    if chunks != [] {
      var c := chunks[0];
      assert chunks == [c] + chunks[1..];
      if c.kind == IEND {
        assert IdatData(chunks) == IdatData(chunks[1..]);
        if |chunks| == 1 { assert compressed + IdatData(chunks) == compressed; }
        else { assert chunks[0].kind == IEND && 0 != |chunks| - 1; }
      } else {
        EndsInIendTail(chunks);
        assert NoHeader(chunks) <==> c.kind != IHDR && NoHeader(chunks[1..]);
        if c.kind == IDAT {
          assert (compressed + c.payload) + IdatData(chunks[1..]) == compressed + IdatData(chunks);
          if |compressed + c.payload| <= MAX_IDAT { FoldPastHeader(chunks[1..], header, compressed + c.payload); }
        } else if c.kind != IHDR {
          assert IdatData(chunks) == IdatData(chunks[1..]);
          FoldPastHeader(chunks[1..], header, compressed);
        }
      }
    }
  }

  /** A chunk list folds to a header and data exactly when it is well formed, and to its own header and data. */
  lemma {:induction false} FoldIffWellFormed(chunks: seq<Chunk>, header: Header, compressed: seq<Byte>)
    requires AllValid(chunks)
    ensures Fold(chunks, None, []) == Some((Some(header), compressed)) <==>
            exists h: nat ::
              && WellFormed(chunks, h) && header == ParseHeader(chunks[h].payload)
              && compressed == IdatData(chunks)
  {
    if chunks != [] {
      var c, tail := chunks[0], chunks[1..];
      assert chunks == [c] + tail;
      if c.kind == IEND {
        assert forall h: nat :: !(HeaderAt(chunks, h) && EndsInIend(chunks));
      } else if c.kind == IHDR {
        HeaderFirst(chunks, header, compressed);
      } else if c.kind == IDAT {
        assert forall h: nat :: !HeaderAt(chunks, h);
      } else {
        FoldIffWellFormed(tail, header, compressed);
        EndsInIendTail(chunks);
        assert IdatData(chunks) == IdatData(tail);
        forall h: nat | WellFormed(tail, h) ensures WellFormed(chunks, h + 1)
            && chunks[h + 1] == tail[h] { HeaderShifts(chunks, h); }
        forall h: nat | WellFormed(chunks, h) ensures h > 0 && WellFormed(tail, h - 1)
            && chunks[h] == tail[h - 1] { HeaderShifts(chunks, h - 1); }
      }
    }
  }

  lemma HeaderShifts(chunks: seq<Chunk>, h: int)
    requires chunks != [] && chunks[0].kind != IHDR && chunks[0].kind != IDAT && h >= -1
    ensures h >= 0 ==> (HeaderAt(chunks, h + 1) <==> HeaderAt(chunks[1..], h))
    ensures !HeaderAt(chunks, 0)
  {
    if h >= 0 && HeaderAt(chunks[1..], h) {
      forall i | 0 <= i < |chunks| ensures chunks[i].kind == IHDR <==>
          i == h + 1 { if i > 0 { assert chunks[i] == chunks[1..][i - 1]; } }
      forall i | 0 <= i < h + 1 ensures chunks[i].kind != IDAT { if i > 0 { assert chunks[i] == chunks[1..][i - 1]; } }
    }
  }

  lemma OneHeader(chunks: seq<Chunk>)
    requires chunks != [] && chunks[0].kind == IHDR
    ensures forall h: nat :: HeaderAt(chunks, h) ==> h == 0
  {
  }

  lemma FoldFromHeader(chunks: seq<Chunk>)
    requires chunks != [] && chunks[0].kind == IHDR
    ensures Fold(chunks, None, []) ==
      if |chunks[0].payload| == 13 then Fold(chunks[1..], Some(ParseHeader(chunks[0].payload)), []) else None
  {
  }

  lemma HeaderFirst(chunks: seq<Chunk>, header: Header, compressed: seq<Byte>)
    requires AllValid(chunks) && chunks != [] && chunks[0].kind == IHDR
    ensures Fold(chunks, None, []) == Some((Some(header), compressed)) <==>
            exists h: nat ::
              && WellFormed(chunks, h) && header == ParseHeader(chunks[h].payload)
              && compressed == IdatData(chunks)
  {
    hide ParseHeader;
    var c, tail := chunks[0], chunks[1..];
    assert chunks == [c] + tail;
    OneHeader(chunks);
    FoldFromHeader(chunks);
    hide Fold;
    if |c.payload| == 13 {
      FoldPastHeader(tail, ParseHeader(c.payload), []);
      assert [] + IdatData(tail) == IdatData(tail) == IdatData(chunks);
      EndsInIendTail(chunks);
      assert HeaderAt(chunks, 0) <==> NoHeader(tail);
      assert WellFormed(chunks, 0) <==> EndsInIend(tail) && NoHeader(tail) && |IdatData(chunks)| <= MAX_IDAT;
    }
  }

  // ---------------------------------------------------------------------------------------
  // The whole file.
  // ---------------------------------------------------------------------------------------

  function BytesPerPixel(h: Header): nat { if h.colorType == 2 then 3 else 4 }

  function DecodeImage(header: Option<Header>, compressed: seq<Byte>,
      inflate: seq<Byte> -> Option<seq<Byte>>): Result<Image, PngError> {
    if header.None? || !(0 < header.value.width <= MAX_SIDE
        && 0 < header.value.height <= MAX_SIDE) then Err(InvalidDimensions)
    else
      var h := header.value;
      if h.bitDepth != 8 then Err(InvalidDepth)
      else if h.colorType !in {2, 6} then Err(InvalidColor)
      else if h.compression != 0 || h.filterMethod != 0 || h.interlace != 0 then Err(InvalidEncoding)
      else
        var rowBytes := h.width * BytesPerPixel(h);
        match inflate(compressed)
        case None => Err(InvalidPixels)
        case Some(inflated) =>
          if |inflated| != h.height * (rowBytes + 1) then Err(WrongLength)
          else
            match DecodedRows(inflated, Zeros(rowBytes), h.height, 0, BytesPerPixel(h))
            case Err(e) => Err(e)
            case Ok(rows) => Ok(Image(h.width, h.height, BytesPerPixel(h), rows))
  }

  function Decode(data: seq<Byte>, crc: seq<Byte> -> U32, inflate: seq<Byte> -> Option<seq<Byte>>): Result<Image,
      PngError> {
    if |data| < 8 || data[..8] != SIGNATURE then Err(NotPng)
    else
      match Walk(data[8..], None, [], crc)
      case Err(e) => Err(e)
      case Ok(w) =>
        if !w.sawIend || w.rest != [] then Err(MissingIend) else DecodeImage(w.header, w.compressed, inflate)
  }

  /** `decode_png`, from the file's bytes: the chunk loop with its cursor, then the checks and the rows. */
  method DecodePng(data: seq<Byte>, crc: seq<Byte> -> U32,
      inflate: seq<Byte> -> Option<seq<Byte>>) returns (r: Result<Image, PngError>)
    ensures r == Decode(data, crc, inflate)
  {
    hide NextChunk, Absorb, DecodedRows;
    if |data| < 8 || data[..8] != SIGNATURE { return Err(NotPng); }
    var cursor := 8;
    var header: Option<Header> := None;
    var compressed: seq<Byte> := [];
    var sawIend := false;
    while cursor < |data| && !sawIend
      invariant 8 <= cursor <= |data|
      invariant if sawIend then Walk(data[8..], None, [], crc) == Ok(Walked(header, compressed, data[cursor..], true))
                else Walk(data[8..], None, [], crc) == Walk(data[cursor..], header, compressed, crc)
      decreases !sawIend, |data| - cursor
    {
      var next := NextChunk(data[cursor..], crc);
      if next.Err? { return Err(next.error); }
      var (c, rest) := next.value;
      ChunkInData(data, cursor, c, rest, crc);
      var absorbed := Absorb(c, header, compressed);
      if absorbed.Err? { return Err(absorbed.error); }
      cursor := cursor + 12 + |c.payload|;
      header, compressed := absorbed.value.0, absorbed.value.1;
      if c.kind == IEND { sawIend := true; }
    }
    if !(sawIend && cursor == |data|) { return Err(MissingIend); }
    if header.None? || !(0 < header.value.width <= MAX_SIDE
        && 0 < header.value.height <= MAX_SIDE) { return Err(InvalidDimensions); }
    var h := header.value;
    if h.bitDepth != 8 { return Err(InvalidDepth); }
    if h.colorType !in {2, 6} { return Err(InvalidColor); }
    if h.compression != 0 || h.filterMethod != 0 || h.interlace != 0 { return Err(InvalidEncoding); }
    var rowBytes := h.width * BytesPerPixel(h);
    var inflated := inflate(compressed);
    if inflated.None? { return Err(InvalidPixels); }
    if |inflated.value| != h.height * (rowBytes + 1) { return Err(WrongLength); }
    var rows := DecodeRows(inflated.value, h.height, rowBytes, BytesPerPixel(h));
    match rows {
      case Err(e) => return Err(e);
      case Ok(decoded) => return Ok(Image(h.width, h.height, BytesPerPixel(h), decoded));
    }
  }

  lemma ChunkInData(data: seq<Byte>, cursor: nat, c: Chunk, rest: seq<Byte>, crc: seq<Byte> -> U32)
    requires cursor < |data| && NextChunk(data[cursor..], crc) == Ok((c, rest))
    ensures cursor + 12 + |c.payload| <= |data| && rest == data[cursor + 12 + |c.payload|..]
  {
    BytesOfNextChunk(data[cursor..], crc);
    ChunkLength(c, crc);
    assert data[cursor..][12 + |c.payload|..] == rest;
  }

  function FileOf(chunks: seq<Chunk>, crc: seq<Byte> -> U32): seq<Byte>
    requires AllValid(chunks)
  {
    SIGNATURE + AllBytes(chunks, crc)
  }

  /** Every well-formed file decodes from its header and its joined IDAT data alone, wherever the data was cut. */
  lemma WellFormedDecodes(chunks: seq<Chunk>, h: nat, crc: seq<Byte> -> U32, inflate: seq<Byte> -> Option<seq<Byte>>)
    requires WellFormed(chunks, h)
    ensures Decode(FileOf(chunks, crc), crc, inflate) == DecodeImage(Some(ParseHeader(chunks[h].payload)),
        IdatData(chunks), inflate)
  {
    hide DecodeImage, Walk, Fold, ParseHeader;
    var data := FileOf(chunks, crc);
    FoldIffWellFormed(chunks, ParseHeader(chunks[h].payload), IdatData(chunks));
    WalkOfChunks(chunks, [], None, [], crc);
    assert data[..8] == SIGNATURE && data[8..] == AllBytes(chunks, crc) + [];
  }

  /** `data` is the well-formed file `chunks`, with its IHDR at `h`, and its image is `image`. */
  ghost predicate FileShows(data: seq<Byte>, chunks: seq<Chunk>, h: nat, crc: seq<Byte> -> U32,
      inflate: seq<Byte> -> Option<seq<Byte>>,
                            image: Image) {
    && WellFormed(chunks, h) && data == FileOf(chunks, crc)
    && DecodeImage(Some(ParseHeader(chunks[h].payload)), IdatData(chunks), inflate) == Ok(image)
  }

  /** A file is accepted exactly when it is a well-formed chunk list, with nothing after IEND, whose image decodes. */
  lemma DecodesIffWellFormed(data: seq<Byte>, crc: seq<Byte> -> U32, inflate: seq<Byte> -> Option<seq<Byte>>,
      image: Image)
    ensures Decode(data, crc, inflate) == Ok(image) <==>
        exists chunks: seq<Chunk>, h: nat :: FileShows(data, chunks, h, crc, inflate, image)
  {
    hide Walk, Fold, ParseHeader, EndsInIend, DecodeImage;
    if Decode(data, crc, inflate) == Ok(image) {
      var w := Walk(data[8..], None, [], crc).value;
      var chunks := ChunksOfWalk(data[8..], None, [], crc);
      assert w.header.Some? by { HeaderIsNeeded(w.header, w.compressed, inflate); }
      FoldIffWellFormed(chunks, w.header.value, w.compressed);
      var h: nat :| WellFormed(chunks, h) && w.header.value == ParseHeader(chunks[h].payload)
          && w.compressed == IdatData(chunks);
      assert data == FileOf(chunks, crc)
          by { assert data == data[..8] + data[8..]; assert AllBytes(chunks, crc) + [] == AllBytes(chunks, crc); }
      assert FileShows(data, chunks, h, crc, inflate, image);
    }
    if chunks: seq<Chunk>, h: nat :| FileShows(data, chunks, h, crc, inflate, image) {
      WellFormedDecodes(chunks, h, crc, inflate);
    }
  }

  lemma HeaderIsNeeded(header: Option<Header>, compressed: seq<Byte>, inflate: seq<Byte> -> Option<seq<Byte>>)
    ensures DecodeImage(header, compressed, inflate).Ok? ==> header.Some?
  {
  }

  predicate SupportedHeader(h: Header) {
    0 < h.width <= MAX_SIDE && 0 < h.height <= MAX_SIDE && h.bitDepth == 8 && h.colorType in {2, 6}
    && h.compression == 0 && h.filterMethod == 0 && h.interlace == 0
  }

  lemma ImageRoundTrip(header: Header, types: seq<FilterType>, rows: seq<seq<Byte>>, compressed: seq<Byte>,
      inflate: seq<Byte> -> Option<seq<Byte>>)
    requires SupportedHeader(header) && |types| == |rows| == header.height
    requires var rowBytes := header.width * BytesPerPixel(header);
             && Rectangular(rows, rowBytes)
             && inflate(compressed) == Some(FilteredStream(types, rows, Zeros(rowBytes), BytesPerPixel(header)))
    ensures DecodeImage(Some(header), compressed,
        inflate) == Ok(Image(header.width, header.height, BytesPerPixel(header), rows))
  {
    hide DecodedRows, FilteredStream, Zeros;
    var rowBytes := header.width * BytesPerPixel(header);
    RowsRoundTrip(types, rows, Zeros(rowBytes), 0, BytesPerPixel(header));
    StreamLength(types, rows, Zeros(rowBytes), BytesPerPixel(header));
  }

  /**
   * End to end: whatever image, row filters, ancillary chunks and cuts of the compressed stream a
   * writer chose, the reader returns the writer's rows.
   */
  lemma WriterRoundTrip(chunks: seq<Chunk>, h: nat, header: Header, types: seq<FilterType>, rows: seq<seq<Byte>>,
      crc: seq<Byte> -> U32,
                        inflate: seq<Byte> -> Option<seq<Byte>>)
    requires WellFormed(chunks, h) && header == ParseHeader(chunks[h].payload) && SupportedHeader(header)
        && |types| == |rows| == header.height
    requires var rowBytes := header.width * BytesPerPixel(header);
             && Rectangular(rows, rowBytes)
             && inflate(IdatData(chunks)) == Some(FilteredStream(types, rows, Zeros(rowBytes), BytesPerPixel(header)))
    ensures Decode(FileOf(chunks, crc), crc,
        inflate) == Ok(Image(header.width, header.height, BytesPerPixel(header), rows))
  {
    hide WellFormed, Decode, DecodeImage, SupportedHeader, FilteredStream, Zeros, BytesPerPixel;
    WellFormedDecodes(chunks, h, crc, inflate);
    ImageRoundTrip(header, types, rows, IdatData(chunks), inflate);
  }
}
