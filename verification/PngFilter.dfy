/**
 * Row filtering as in `scripts/test-linux-display-cutover.py`: the reader's in-place unfilter loop
 * against the filters of the W3C PNG specification, sections 9.2 to 9.4.
 */
module PngFilter {
  import opened Common

  // ---------------------------------------------------------------------------------------
  // Predictors.
  // ---------------------------------------------------------------------------------------

  function Abs(x: int): nat { if x < 0 then -x else x }

  function PaethPredictor(left: Byte, up: Byte, upperLeft: Byte): Byte {
    var estimate := left + up - upperLeft;
    var leftDistance := Abs(estimate - left);
    var upDistance := Abs(estimate - up);
    var upperLeftDistance := Abs(estimate - upperLeft);
    if leftDistance <= upDistance && leftDistance <= upperLeftDistance then left
    else if upDistance <= upperLeftDistance then up
    else upperLeft
  }

  /** The neighbour nearest to left + up - upperLeft, ties going to left, then up, then upper-left. */
  lemma PaethIsNearest(left: Byte, up: Byte, upperLeft: Byte, n: Byte)
    requires n in [left, up, upperLeft]
    ensures var p, r := left + up - upperLeft, PaethPredictor(left, up, upperLeft);
            && r in [left, up, upperLeft]
            && Abs(p - r) <= Abs(p - n)
            && (Abs(p - left) == Abs(p - r) ==> r == left)
            && (Abs(p - left) > Abs(p - r) && Abs(p - up) == Abs(p - r) ==> r == up)
  {
  }

  type FilterType = t: int | 0 <= t <= 4

  function Predictor(t: FilterType, left: Byte, up: Byte, upperLeft: Byte): Byte {
    if t == 0 then 0
    else if t == 1 then left
    else if t == 2 then up
    else if t == 3 then (left + up) / 2
    else PaethPredictor(left, up, upperLeft)
  }

  /** The byte `bpp` places before `i`, zero at the left edge. */
  function Before(row: seq<Byte>, bpp: nat, i: nat): Byte
    requires i <= |row|
  {
    if bpp <= i && bpp > 0 then row[i - bpp] else 0
  }

  // ---------------------------------------------------------------------------------------
  // The specification's filter: each byte less its prediction from the original bytes.
  // ---------------------------------------------------------------------------------------

  function FilterByte(t: FilterType, bpp: nat, previous: seq<Byte>, row: seq<Byte>, i: nat): Byte
    requires |previous| == |row| && i < |row|
  {
    (row[i] - Predictor(t, Before(row, bpp, i), previous[i], Before(previous, bpp, i))) % 256
  }

  function FilterRow(t: FilterType, bpp: nat, previous: seq<Byte>, row: seq<Byte>): (filtered: seq<Byte>)
    requires |previous| == |row|
    ensures |filtered| == |row|
  {
    seq(|row|, i requires 0 <= i < |row| => FilterByte(t, bpp, previous, row, i))
  }

  // ---------------------------------------------------------------------------------------
  // The reader's unfilter.
  // ---------------------------------------------------------------------------------------

  /** The first `n` reconstructed bytes. */
  function Unfiltered(t: FilterType, bpp: nat, previous: seq<Byte>, raw: seq<Byte>, n: nat): (row: seq<Byte>)
    requires |previous| == |raw| && n <= |raw|
    ensures |row| == n
  {
    if n == 0 then []
    else
      var done := Unfiltered(t, bpp, previous, raw, n - 1);
      var predictor := Predictor(t, Before(done, bpp, n - 1), previous[n - 1], Before(previous, bpp, n - 1));
      done + [(raw[n - 1] + predictor) % 256]
  }

  function UnfilterRow(t: FilterType, bpp: nat, previous: seq<Byte>, raw: seq<Byte>): (row: seq<Byte>)
    requires |previous| == |raw|
    ensures |row| == |raw|
  {
    Unfiltered(t, bpp, previous, raw, |raw|)
  }

  lemma AddThenSubtract(x: Byte, p: Byte)
    ensures ((x - p) % 256 + p) % 256 == x && ((x + p) % 256 - p) % 256 == x
  {
  }

  lemma {:induction false} UnfilteredPrefix(t: FilterType, bpp: nat, previous: seq<Byte>, row: seq<Byte>, n: nat)
    requires |previous| == |row| && n <= |row|
    ensures Unfiltered(t, bpp, previous, FilterRow(t, bpp, previous, row), n) == row[..n]
  {
    hide Predictor;
    if n > 0 {
      UnfilteredPrefix(t, bpp, previous, row, n - 1);
      assert Before(row[..n - 1], bpp, n - 1) == Before(row, bpp, n - 1);
      AddThenSubtract(row[n - 1], Predictor(t, Before(row, bpp, n - 1), previous[n - 1], Before(previous, bpp, n - 1)));
      assert row[..n] == row[..n - 1] + [row[n - 1]];
    }
  }

  /** Unfiltering a filtered row gives the row back, for every filter type and pixel width. */
  lemma UnfilterFilter(t: FilterType, bpp: nat, previous: seq<Byte>, row: seq<Byte>)
    requires |previous| == |row|
    ensures UnfilterRow(t, bpp, previous, FilterRow(t, bpp, previous, row)) == row
  {
    UnfilteredPrefix(t, bpp, previous, row, |row|);
    assert row[..|row|] == row;
  }

  lemma {:induction false} UnfilteredExtends(t: FilterType, bpp: nat, previous: seq<Byte>, raw: seq<Byte>, n: nat)
    requires |previous| == |raw| && n <= |raw|
    ensures Unfiltered(t, bpp, previous, raw, n) == UnfilterRow(t, bpp, previous, raw)[..n]
    decreases |raw| - n
  {
    hide Predictor, Before;
    if n < |raw| { UnfilteredExtends(t, bpp, previous, raw, n + 1); }
  }

  /** Every raw row is the filtering of what it unfilters to: no two rows share a raw form. */
  lemma FilterUnfilter(t: FilterType, bpp: nat, previous: seq<Byte>, raw: seq<Byte>)
    requires |previous| == |raw|
    ensures FilterRow(t, bpp, previous, UnfilterRow(t, bpp, previous, raw)) == raw
  {
    hide Predictor;
    var row := UnfilterRow(t, bpp, previous, raw);
    forall i | 0 <= i < |raw| ensures FilterByte(t, bpp, previous, row, i) == raw[i] {
      UnfilteredExtends(t, bpp, previous, raw, i);
      UnfilteredExtends(t, bpp, previous, raw, i + 1);
      assert Unfiltered(t, bpp, previous, raw, i + 1)[i] == row[i];
      assert Before(row[..i], bpp, i) == Before(row, bpp, i);
      AddThenSubtract(raw[i], Predictor(t, Before(row, bpp, i), previous[i], Before(previous, bpp, i)));
    }
  }

  function ZeroAt(i: nat): Byte { 0 }

  /** The source's inner loop: fill the reconstructed buffer from left to right, reading back from it. */
  method UnfilterInPlace(t: FilterType, bpp: nat, raw: seq<Byte>,
      previous: array<Byte>) returns (reconstructed: array<Byte>)
    requires bpp > 0 && previous.Length == |raw|
    ensures fresh(reconstructed) && reconstructed.Length == |raw|
    ensures reconstructed[..] == UnfilterRow(t, bpp, previous[..], raw)
  {
    hide PaethPredictor;
    reconstructed := new Byte[|raw|](ZeroAt);
    var index := 0;
    while index < |raw|
      invariant 0 <= index <= |raw|
      invariant reconstructed[..index] == Unfiltered(t, bpp, previous[..], raw, index)
    {
      var left: Byte := if index >= bpp then reconstructed[index - bpp] else 0;
      var up: Byte := previous[index];
      var upperLeft: Byte := if index >= bpp then previous[index - bpp] else 0;
      var predictor: Byte;
      if t == 0 { predictor := 0; }
      else if t == 1 { predictor := left; }
      else if t == 2 { predictor := up; }
      else if t == 3 { predictor := (left + up) / 2; }
      else { predictor := PaethPredictor(left, up, upperLeft); }
      ghost var done := reconstructed[..index];
      assert left == Before(done, bpp, index) && upperLeft == Before(previous[..], bpp, index);
      reconstructed[index] := (raw[index] + predictor) % 256;
      assert reconstructed[..index + 1] == done + [reconstructed[index]];
      index := index + 1;
    }
    assert reconstructed[..] == reconstructed[..index];
  }
}
