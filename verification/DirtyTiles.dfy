/**
 * The dirty-tile partition of `examples/damage-trace.rs`: damage rectangles to screen tiles in clipped
 * integer arithmetic, against the tiles in which some damaged pixel of the screen lies.
 */
module DirtyTiles {
  import opened Singles

  /** A damage rectangle; the origin may lie off the screen. */
  datatype Rect = Rect(x: int, y: int, w: nat, h: nat)

  datatype Tile = Tile(x: nat, y: nat)

  const SIDE := 65535
  const TWO_32 := 0x1_0000_0000

  // ---------------------------------------------------------------------------------------
  // The definition, pixel by pixel.
  // ---------------------------------------------------------------------------------------

  predicate Covers(r: Rect, px: int, py: int) {
    r.x <= px < r.x + r.w && r.y <= py < r.y + r.h
  }

  function TileOf(px: nat, py: nat, ts: nat): Tile
    requires ts > 0
  {
    Tile(px / ts, py / ts)
  }

  /** A pixel that is on the screen, in the tile and in one of the rectangles. */
  predicate Damages(rects: seq<Rect>, sw: nat, sh: nat, ts: nat, px: nat, py: nat, tile: Tile)
    requires ts > 0
  {
    && px < sw && py < sh && TileOf(px, py, ts) == tile
    && exists i :: 0 <= i < |rects| && Covers(rects[i], px, py)
  }

  ghost predicate IsDirty(rects: seq<Rect>, sw: nat, sh: nat, ts: nat, tile: Tile)
    requires ts > 0
  {
    exists px: nat, py: nat :: Damages(rects, sw, sh, ts, px, py, tile)
  }

  // ---------------------------------------------------------------------------------------
  // Intervals and boxes of tiles.
  // ---------------------------------------------------------------------------------------

  function Max(a: int, b: int): int { if a > b then a else b }

  function Min(a: int, b: int): int { if a < b then a else b }

  /** The tiles of an interval of pixels are those between the tiles of its ends. */
  lemma TilesOfInterval(low: nat, high: nat, ts: nat, t: nat)
    requires low < high && ts > 0
    ensures (exists p: nat :: low <= p < high && p / ts == t) <==> low / ts <= t <= (high - 1) / ts
  {
    if p: nat :| low <= p < high && p / ts == t {
      Divided(low, p, ts);
      Divided(p, high - 1, ts);
    }
    if low / ts <= t <= (high - 1) / ts {
      var p := Max(low, t * ts);
      Quotient(low, ts);
      Quotient(high - 1, ts);
      if t * ts >= low {
        Times(t, (high - 1) / ts, ts);
        Exact(t, 0, ts);
      } else {
        LastBelow(low, t, ts);
      }
      assert low <= p < high && p / ts == t;
    }
  }

  lemma LastBelow(low: nat, t: nat, ts: nat)
    requires ts > 0 && low / ts <= t && t * ts < low
    ensures low / ts == t
  {
    Quotient(low, ts);
    StepUp(low / ts, ts);
    if low / ts < t { Times(low / ts + 1, t, ts); }
  }

  lemma StepUp(q: nat, ts: nat)
    ensures (q + 1) * ts == q * ts + ts
  {
  }

  lemma Divided(a: nat, b: nat, ts: nat)
    requires a <= b && ts > 0
    ensures a / ts <= b / ts
  {
    Quotient(a, ts);
    Quotient(b, ts);
    StepUp(b / ts, ts);
    if a / ts > b / ts { Times(b / ts + 1, a / ts, ts); }
  }

  lemma Quotient(a: nat, ts: nat)
    requires ts > 0
    ensures a / ts * ts <= a < a / ts * ts + ts
  {
    assert a == ts * (a / ts) + a % ts;
  }

  lemma Times(a: int, b: int, ts: nat)
    requires a <= b
    ensures a * ts <= b * ts
  {
  }

  lemma Exact(q: nat, r: nat, ts: nat)
    requires r < ts
    ensures (q * ts + r) / ts == q
  {
    var a := q * ts + r;
    Quotient(a, ts);
    var d := a / ts;
    StepUp(d, ts);
    StepUp(q, ts);
    if d < q { Times(d + 1, q, ts); }
    if d > q { Times(q + 1, d, ts); }
  }

  /** The tiles from (x0, y0) to (x1, y1), the upper ends left out. */
  function Box(x0: nat, x1: nat, y0: nat, y1: nat): set<Tile> {
    set x, y | x0 <= x < x1 && y0 <= y < y1 :: Tile(x, y)
  }

  lemma {:induction false} RowSize(x0: nat, x1: nat, y: nat)
    requires x0 <= x1
    ensures |Box(x0, x1, y, y + 1)| == x1 - x0
    decreases x1
  {
    if x0 < x1 {
      RowSize(x0, x1 - 1, y);
      assert Box(x0, x1, y, y + 1) == Box(x0, x1 - 1, y, y + 1) + {Tile(x1 - 1, y)};
    } else {
      assert Box(x0, x1, y, y + 1) == {};
    }
  }

  lemma {:induction false} BoxSize(x0: nat, x1: nat, y0: nat, y1: nat)
    requires x0 <= x1 && y0 <= y1
    ensures |Box(x0, x1, y0, y1)| == (y1 - y0) * (x1 - x0)
    decreases y1
  {
    hide Box;
    if y0 < y1 {
      BoxSize(x0, x1, y0, y1 - 1);
      RowSize(x0, x1, y1 - 1);
      LastRow(x0, x1, y0, y1);
      StepUp(y1 - 1 - y0, x1 - x0);
    } else {
      NoRows(x0, x1, y0);
    }
  }

  lemma LastRow(x0: nat, x1: nat, y0: nat, y1: nat)
    requires y0 < y1
    ensures Box(x0, x1, y0, y1) == Box(x0, x1, y0, y1 - 1) + Box(x0, x1, y1 - 1, y1)
    ensures Box(x0, x1, y0, y1 - 1) !! Box(x0, x1, y1 - 1, y1)
  {
  }

  lemma NoRows(x0: nat, x1: nat, y: nat)
    ensures Box(x0, x1, y, y) == {}
  {
  }

  lemma {:induction false} SubsetSize<T>(a: set<T>, b: set<T>)
    requires a <= b
    ensures |a| <= |b|
    ensures |a| == |b| ==> a == b
  {
    assert b == a + (b - a);
  }

  // ---------------------------------------------------------------------------------------
  // The loop.
  // ---------------------------------------------------------------------------------------

  /** A rectangle clipped to the screen: left, top, right and bottom, the last two exclusive. */
  datatype Clip = Clip(x0: int, y0: int, x1: int, y1: int)

  function Clipped(r: Rect, sw: nat, sh: nat): (c: Clip)
    ensures 0 <= c.x0 && 0 <= c.y0 && c.x1 <= sw && c.y1 <= sh
  {
    Clip(Max(r.x, 0), Max(r.y, 0), Min(r.x + r.w, sw), Min(r.y + r.h, sh))
  }

  predicate Empty(c: Clip) {
    c.x0 >= c.x1 || c.y0 >= c.y1
  }

  lemma CoversIsInClip(r: Rect, sw: nat, sh: nat, px: nat, py: nat)
    ensures px < sw && py < sh && Covers(r, px, py) <==>
      Clipped(r, sw, sh).x0 <= px < Clipped(r, sw, sh).x1 && Clipped(r, sw, sh).y0 <= py < Clipped(r, sw, sh).y1
  {
  }

  /** `as u16` */
  function U16(n: nat): nat {
    n % 0x1_0000
  }

  /** On a screen no wider than 65535 no tile index is truncated. */
  lemma NotTruncated(p: nat, ts: nat)
    requires p < SIDE && ts > 0
    ensures U16(p / ts) == p / ts
  {
    Divided(p / ts, p / ts, 1);
    Quotient(p, ts);
    assert p / ts <= p by { Times(1, ts, p / ts); assert p / ts * ts == ts * (p / ts); }
  }

  /** The tiles of one rectangle, as the source bounds them. */
  ghost predicate RectDirty(r: Rect, sw: nat, sh: nat, ts: nat, tile: Tile)
    requires ts > 0
  {
    exists px: nat, py: nat :: px < sw && py < sh && TileOf(px, py, ts) == tile && Covers(r, px, py)
  }

  /** The tiles a clipped rectangle reaches. */
  function Reached(c: Clip, ts: nat): set<Tile>
    requires ts > 0 && 0 <= c.x0 && 0 <= c.y0
  {
    if Empty(c) then {} else Box(c.x0 / ts, (c.x1 - 1) / ts + 1, c.y0 / ts, (c.y1 - 1) / ts + 1)
  }

  lemma RectTiles(r: Rect, sw: nat, sh: nat, ts: nat, tile: Tile)
    requires ts > 0
    ensures RectDirty(r, sw, sh, ts, tile) <==> tile in Reached(Clipped(r, sw, sh), ts)
  {
    hide Covers, Clipped, Box;
    var c := Clipped(r, sw, sh);
    if RectDirty(r, sw, sh, ts, tile) {
      var px: nat, py: nat :| px < sw && py < sh && TileOf(px, py, ts) == tile && Covers(r, px, py);
      CoversIsInClip(r, sw, sh, px, py);
      InReached(c, ts, tile, px, py);
    }
    if tile in Reached(c, ts) {
      var px, py := PixelReached(c, ts, tile);
      CoversIsInClip(r, sw, sh, px, py);
    }
  }

  lemma InReached(c: Clip, ts: nat, tile: Tile, px: nat, py: nat)
    requires ts > 0 && 0 <= c.x0 <= px < c.x1 && 0 <= c.y0 <= py < c.y1 && TileOf(px, py, ts) == tile
    ensures tile in Reached(c, ts)
  {
    TilesOfInterval(c.x0, c.x1, ts, tile.x);
    TilesOfInterval(c.y0, c.y1, ts, tile.y);
  }

  lemma PixelReached(c: Clip, ts: nat, tile: Tile) returns (px: nat, py: nat)
    requires ts > 0 && 0 <= c.x0 && 0 <= c.y0 && tile in Reached(c, ts)
    ensures c.x0 <= px < c.x1 && c.y0 <= py < c.y1 && TileOf(px, py, ts) == tile
  {
    TilesOfInterval(c.x0, c.x1, ts, tile.x);
    TilesOfInterval(c.y0, c.y1, ts, tile.y);
    px :| c.x0 <= px < c.x1 && px / ts == tile.x;
    py :| c.y0 <= py < c.y1 && py / ts == tile.y;
  }

  lemma DirtyStep(rects: seq<Rect>, n: nat, sw: nat, sh: nat, ts: nat, tile: Tile)
    requires ts > 0 && n < |rects|
    ensures IsDirty(rects[..n + 1], sw, sh, ts, tile) <==>
      IsDirty(rects[..n], sw, sh, ts, tile) || RectDirty(rects[n], sw, sh, ts, tile)
  {
    var a, b := rects[..n], rects[..n + 1];
    assert b == a + [rects[n]];
    if px: nat, py: nat :| Damages(b, sw, sh, ts, px, py, tile) {
      var i :| 0 <= i < |b| && Covers(b[i], px, py);
      if i < n { assert Covers(a[i], px, py); assert Damages(a, sw, sh, ts, px, py, tile); }
    }
    if px: nat, py: nat :| Damages(a, sw, sh, ts, px, py, tile) {
      var i :| 0 <= i < |a| && Covers(a[i], px, py);
      assert Covers(b[i], px, py);
      assert Damages(b, sw, sh, ts, px, py, tile);
    }
    if RectDirty(rects[n], sw, sh, ts, tile) {
      var px: nat, py: nat :| px < sw && py < sh && TileOf(px, py, ts) == tile && Covers(rects[n], px, py);
      assert Covers(b[n], px, py);
      assert Damages(b, sw, sh, ts, px, py, tile);
    }
  }

  /** The tile set of one tick: exactly the tiles in which a pixel of the screen was damaged. */
  method CollectDirtyTiles(rects: seq<Rect>, sw: nat, sh: nat, ts: nat) returns (tiles: set<Tile>)
    requires ts >= 1 && sw <= SIDE && sh <= SIDE
    ensures forall tile :: tile in tiles <==> IsDirty(rects, sw, sh, ts, tile)
  {
    hide Covers, IsDirty, Box;
    tiles := {};
    Nothing(sw, sh, ts);
    assert rects[..0] == [];
    for n := 0 to |rects|
      invariant forall tile :: tile in tiles <==> IsDirty(rects[..n], sw, sh, ts, tile)
    {
      ghost var before := tiles;
      var c := Clipped(rects[n], sw, sh);
      if !Empty(c) {
        NotTruncated(c.x0, ts); NotTruncated(c.x1 - 1, ts); NotTruncated(c.y0, ts); NotTruncated(c.y1 - 1, ts);
        tiles := Insert(tiles, U16(c.x0 / ts), U16((c.x1 - 1) / ts), U16(c.y0 / ts), U16((c.y1 - 1) / ts));
      }
      forall tile ensures tile in tiles <==> IsDirty(rects[..n + 1], sw, sh, ts, tile) {
        RectTiles(rects[n], sw, sh, ts, tile);
        DirtyStep(rects, n, sw, sh, ts, tile);
      }
    }
    assert rects[..|rects|] == rects;
  }

  lemma Nothing(sw: nat, sh: nat, ts: nat)
    requires ts > 0
    ensures forall tile :: !IsDirty([], sw, sh, ts, tile)
  {
  }

  /** The two inner loops, over inclusive ranges. */
  method Insert(before: set<Tile>, tx0: nat, tx1: nat, ty0: nat, ty1: nat) returns (tiles: set<Tile>)
    ensures tiles == before + Box(tx0, tx1 + 1, ty0, ty1 + 1)
  {
    tiles := before;
    var ty := ty0;
    while ty <= ty1
      invariant ty0 <= ty && (ty0 <= ty1 ==> ty <= ty1 + 1) && (ty0 > ty1 ==> ty == ty0)
      invariant tiles == before + Box(tx0, tx1 + 1, ty0, ty)
    {
      var tx := tx0;
      while tx <= tx1
        invariant tx0 <= tx && (tx0 <= tx1 ==> tx <= tx1 + 1) && (tx0 > tx1 ==> tx == tx0)
        invariant tiles == before + Box(tx0, tx1 + 1, ty0, ty) + Box(tx0, tx, ty, ty + 1)
      {
        tiles := tiles + {Tile(tx, ty)};
        assert Box(tx0, tx + 1, ty, ty + 1) == Box(tx0, tx, ty, ty + 1) + {Tile(tx, ty)};
        tx := tx + 1;
      }
      assert Box(tx0, tx1 + 1, ty0, ty + 1) == Box(tx0, tx1 + 1, ty0, ty) + Box(tx0, tx1 + 1, ty, ty + 1);
      ty := ty + 1;
    }
  }

  // ---------------------------------------------------------------------------------------
  // The grid.
  // ---------------------------------------------------------------------------------------

  /** `(side + tile_size_px - 1) / tile_size_px` in 32 bits. */
  function GridSide(side: nat, ts: nat): nat
    requires ts > 0
  {
    (side + ts - 1) % TWO_32 / ts
  }

  function GridTotal(sw: nat, sh: nat, ts: nat): nat
    requires ts > 0
  {
    GridSide(sw, ts) * GridSide(sh, ts) % TWO_32
  }

  predicate Wraps(side: nat, ts: nat) {
    side + ts > TWO_32
  }

  /** The screen as one rectangle. */
  function Screen(sw: nat, sh: nat): seq<Rect> {
    [Rect(0, 0, sw, sh)]
  }

  /** How many tiles a side has. */
  function Across(side: nat, ts: nat): (n: nat)
    requires ts > 0
    ensures n == 0 <==> side == 0
  {
    if side == 0 then 0 else (side - 1) / ts + 1
  }

  lemma GridSideIs(side: nat, ts: nat)
    requires 1 <= ts < TWO_32 && side <= SIDE
    ensures GridSide(side, ts) == if Wraps(side, ts) then 0 else Across(side, ts)
    ensures Across(side, ts) <= side
  {
    AcrossIs(side, ts);
    var n := side + ts - 1;
    if Wraps(side, ts) {
      assert n % TWO_32 == n - TWO_32;
      Exact(0, n - TWO_32, ts);
    } else {
      assert n % TWO_32 == n;
    }
  }

  lemma AcrossIs(side: nat, ts: nat)
    requires ts > 0
    ensures (side + ts - 1) / ts == Across(side, ts) <= side
  {
    if side == 0 {
      Exact(0, ts - 1, ts);
    } else {
      var q := (side - 1) / ts;
      Quotient(side - 1, ts);
      StepUp(q, ts);
      Exact(q + 1, side - 1 - q * ts, ts);
      AtMost(q, ts);
    }
  }

  lemma AtMost(q: nat, ts: nat)
    requires ts > 0
    ensures q <= q * ts
  {
  }

  /** The tiles of the whole screen. */
  function AllTiles(sw: nat, sh: nat, ts: nat): set<Tile>
    requires ts > 0
  {
    Box(0, Across(sw, ts), 0, Across(sh, ts))
  }

  ghost predicate Dirty(tiles: set<Tile>, rects: seq<Rect>, sw: nat, sh: nat, ts: nat)
    requires ts > 0
  {
    forall tile :: tile in tiles <==> IsDirty(rects, sw, sh, ts, tile)
  }

  lemma ScreenIsAllTiles(sw: nat, sh: nat, ts: nat)
    requires ts > 0
    ensures Dirty(AllTiles(sw, sh, ts), Screen(sw, sh), sw, sh, ts)
  {
    hide IsDirty, RectDirty, Box;
    var rects := Screen(sw, sh);
    Nothing(sw, sh, ts);
    assert rects[..1] == rects && rects[..0] == [];
    Exact(0, 0, ts);
    NoTiles();
    forall tile ensures tile in AllTiles(sw, sh, ts) <==> IsDirty(rects, sw, sh, ts, tile) {
      DirtyStep(rects, 0, sw, sh, ts, tile);
      RectTiles(rects[0], sw, sh, ts, tile);
    }
  }

  lemma NoTiles()
    ensures forall n: nat :: Box(0, 0, 0, n) == {} && Box(0, n, 0, 0) == {}
  {
  }

  /** Unless a sum wraps, the grid's count is the number of tiles the screen has; if one does, it is zero. */
  lemma GridCountsTheScreen(sw: nat, sh: nat, ts: nat)
    requires 1 <= ts < TWO_32 && sw <= SIDE && sh <= SIDE
    ensures GridTotal(sw, sh, ts) == if Wraps(sw, ts) || Wraps(sh, ts) then 0 else |AllTiles(sw, sh, ts)|
    ensures AllTiles(sw, sh, ts) == {} <==> sw == 0 || sh == 0
    ensures |AllTiles(sw, sh, ts)| == 0 <==> sw == 0 || sh == 0
  {
    hide GridSide, Across;
    GridSideIs(sw, ts);
    GridSideIs(sh, ts);
    var w, h := Across(sw, ts), Across(sh, ts);
    Product(w, h);
    BoxSize(0, w, 0, h);
    if sw > 0 && sh > 0 {
      assert Tile(0, 0) in AllTiles(sw, sh, ts);
    }
  }

  lemma Product(a: nat, b: nat)
    requires a <= SIDE && b <= SIDE
    ensures 0 <= a * b < TWO_32
    ensures a == 0 || b == 0 ==> a * b == 0
  {
    Times(a, SIDE, b);
    Times(b, SIDE, SIDE);
  }

  lemma DirtyIsOnScreen(tiles: set<Tile>, rects: seq<Rect>, sw: nat, sh: nat, ts: nat)
    requires ts > 0 && Dirty(tiles, rects, sw, sh, ts)
    ensures tiles <= AllTiles(sw, sh, ts)
  {
    hide Across, AllTiles;
    ScreenIsAllTiles(sw, sh, ts);
    forall tile | tile in tiles ensures tile in AllTiles(sw, sh, ts) {
      var px: nat, py: nat :| Damages(rects, sw, sh, ts, px, py, tile);
      assert Covers(Screen(sw, sh)[0], px, py);
      assert Damages(Screen(sw, sh), sw, sh, ts, px, py, tile);
    }
  }

  /**
   * No damage is reported as more tiles than the grid has, exactly when neither 32-bit sum wraps or the
   * screen has no pixels.
   */
  lemma CountWithinGridIff(sw: nat, sh: nat, ts: nat)
    requires 1 <= ts < TWO_32 && sw <= SIDE && sh <= SIDE
    ensures (forall rects: seq<Rect>, tiles: set<Tile> :: Dirty(tiles, rects, sw, sh, ts) ==>
        |tiles| <= GridTotal(sw, sh, ts)) <==>
      sw == 0 || sh == 0 || (!Wraps(sw, ts) && !Wraps(sh, ts))
  {
    hide Dirty, AllTiles, GridTotal;
    var all := AllTiles(sw, sh, ts);
    GridCountsTheScreen(sw, sh, ts);
    ScreenIsAllTiles(sw, sh, ts);
    forall rects: seq<Rect>, tiles: set<Tile> | Dirty(tiles, rects, sw, sh, ts) ensures |tiles| <= |all| {
      DirtyIsOnScreen(tiles, rects, sw, sh, ts);
      SubsetSize(tiles, all);
    }
  }

  /** `tiles.len() as f32 / total_tiles as f32`, clamped to at most 1, with 0 for an empty grid. */
  function Fraction(count: nat, total: nat): real {
    if total == 0 then 0.0 else Ratio(count, total)
  }

  ghost predicate EveryPixelDirty(rects: seq<Rect>, sw: nat, sh: nat, ts: nat)
    requires ts > 0
  {
    forall px: nat, py: nat :: px < sw && py < sh ==> IsDirty(rects, sw, sh, ts, TileOf(px, py, ts))
  }

  /** Below the wrap, any damage has the fraction one exactly when its count rounds to the same single as the total. */
  lemma FractionOfDamage(tiles: set<Tile>, rects: seq<Rect>, sw: nat, sh: nat, ts: nat)
    requires 1 <= ts < TWO_32 && 0 < sw <= SIDE && 0 < sh <= SIDE && Dirty(tiles, rects, sw, sh, ts)
    requires !Wraps(sw, ts) && !Wraps(sh, ts)
    ensures var total := GridTotal(sw, sh, ts);
      && |tiles| <= total && total > 0
      && (Fraction(|tiles|, total) == 1.0 <==> Single(|tiles|) == Single(total))
      && (|tiles| == total <==> EveryPixelDirty(rects, sw, sh, ts))
  {
    hide Dirty, IsDirty, AllTiles, GridTotal, TileOf, Ratio, Single;
    var all := AllTiles(sw, sh, ts);
    GridCountsTheScreen(sw, sh, ts);
    DirtyIsOnScreen(tiles, rects, sw, sh, ts);
    SubsetSize(tiles, all);
    RatioIsOneIff(|tiles|, |all|);
    EveryTile(tiles, rects, sw, sh, ts);
  }

  /**
   * Below the wrap, on a screen with pixels: the fraction is one exactly when every pixel's tile is dirty, for
   * all damage, if and only if the grid total and the total less one are different singles.
   */
  lemma FractionIsOneIff(sw: nat, sh: nat, ts: nat)
    requires 1 <= ts < TWO_32 && 0 < sw <= SIDE && 0 < sh <= SIDE
    requires !Wraps(sw, ts) && !Wraps(sh, ts)
    ensures GridTotal(sw, sh, ts) > 0
    ensures (forall rects: seq<Rect>, tiles: set<Tile> :: Dirty(tiles, rects, sw, sh, ts) ==>
              (Fraction(|tiles|, GridTotal(sw, sh, ts)) == 1.0 <==> EveryPixelDirty(rects, sw, sh, ts)))
      <==> Single(GridTotal(sw, sh, ts) - 1) != Single(GridTotal(sw, sh, ts))
  {
    hide Dirty, AllTiles, GridTotal, EveryPixelDirty, Ratio, Single;
    var total := GridTotal(sw, sh, ts);
    forall rects: seq<Rect>, tiles: set<Tile> | Dirty(tiles, rects, sw, sh, ts)
      ensures |tiles| <= total && total > 0
      ensures Fraction(|tiles|, total) == 1.0 <==> Single(|tiles|) == Single(total)
      ensures |tiles| == total <==> EveryPixelDirty(rects, sw, sh, ts)
    {
      FractionOfDamage(tiles, rects, sw, sh, ts);
    }
    var rects, tiles := AllButFirst(sw, sh, ts);
    assert Fraction(total - 1, total) == 1.0 <==> Single(total - 1) == Single(total);
    RatiosBelowOneIff(total);
  }

  /** Two rectangles that leave just the first tile of the screen clean. */
  lemma AllButFirst(sw: nat, sh: nat, ts: nat) returns (rects: seq<Rect>, tiles: set<Tile>)
    requires 1 <= ts < TWO_32 && 0 < sw <= SIDE && 0 < sh <= SIDE && !Wraps(sw, ts) && !Wraps(sh, ts)
    ensures Dirty(tiles, rects, sw, sh, ts) && |tiles| == GridTotal(sw, sh, ts) - 1
  {
    hide IsDirty, Across, GridTotal, Covers;
    rects := [Rect(ts, 0, if sw > ts then sw - ts else 0, sh), Rect(0, ts, sw, if sh > ts then sh - ts else 0)];
    var all := AllTiles(sw, sh, ts);
    tiles := all - {Tile(0, 0)};
    ScreenIsAllTiles(sw, sh, ts);
    forall tile ensures tile in tiles <==> IsDirty(rects, sw, sh, ts, tile) {
      DirtyButFirst(rects, sw, sh, ts, tile);
    }
    GridCountsTheScreen(sw, sh, ts);
    FirstTile(sw, sh, ts);
    assert all == tiles + {Tile(0, 0)};
  }

  lemma FirstTile(sw: nat, sh: nat, ts: nat)
    requires ts > 0 && sw > 0 && sh > 0
    ensures Tile(0, 0) in AllTiles(sw, sh, ts)
  {
  }

  lemma DirtyButFirst(rects: seq<Rect>, sw: nat, sh: nat, ts: nat, tile: Tile)
    requires ts > 0
    requires rects == [Rect(ts, 0, if sw > ts then sw - ts else 0, sh), Rect(0, ts, sw, if sh > ts then sh - ts else 0)]
    ensures IsDirty(rects, sw, sh, ts, tile) <==> IsDirty(Screen(sw, sh), sw, sh, ts, tile) && tile != Tile(0, 0)
  {
    hide TileOf;
    forall px: nat, py: nat | px < sw && py < sh
      ensures (exists i :: 0 <= i < |rects| && Covers(rects[i], px, py)) <==> TileOf(px, py, ts) != Tile(0, 0)
      ensures Covers(Screen(sw, sh)[0], px, py)
    {
      InFirstTile(px, py, ts);
      assert Covers(rects[0], px, py) <==> px >= ts;
      assert Covers(rects[1], px, py) <==> py >= ts;
    }
    if px: nat, py: nat :| Damages(rects, sw, sh, ts, px, py, tile) {
      assert Damages(Screen(sw, sh), sw, sh, ts, px, py, tile);
    }
    if tile != Tile(0, 0) {
      if px: nat, py: nat :| Damages(Screen(sw, sh), sw, sh, ts, px, py, tile) {
        assert Damages(rects, sw, sh, ts, px, py, tile);
      }
    }
  }

  lemma InFirstTile(px: nat, py: nat, ts: nat)
    requires ts > 0
    ensures TileOf(px, py, ts) == Tile(0, 0) <==> px < ts && py < ts
  {
    if px < ts { Exact(0, px, ts); } else { Divided(ts, px, ts); Exact(1, 0, ts); }
    if py < ts { Exact(0, py, ts); } else { Divided(ts, py, ts); Exact(1, 0, ts); }
  }

  /** Up to 2^24 tiles every count is a single of its own. */
  lemma SmallGridsAreExact(total: nat)
    requires 0 < total <= PRECISION
    ensures Single(total - 1) != Single(total)
  {
    SingleOfSmall(total - 1);
    SingleOfSmall(total);
  }

  /** Beyond, one clean tile can vanish: on a 4097 by 4096 screen of one-pixel tiles the fraction is still one. */
  lemma CleanTileVanishes() returns (rects: seq<Rect>, tiles: set<Tile>)
    ensures Dirty(tiles, rects, 4097, 4096, 1) && GridTotal(4097, 4096, 1) == 16_781_312 && |tiles| == 16_781_311
    ensures Fraction(|tiles|, GridTotal(4097, 4096, 1)) == 1.0 && !EveryPixelDirty(rects, 4097, 4096, 1)
  {
    hide Dirty, EveryPixelDirty, Ratio, Single, AllTiles;
    rects, tiles := AllButFirst(4097, 4096, 1);
    FractionOfDamage(tiles, rects, 4097, 4096, 1);
    assert GridTotal(4097, 4096, 1) == 16_781_312;
    SameSingle();
  }

  lemma SameSingle()
    ensures Single(16_781_311) == Single(16_781_312) == 16_781_312
  {
    assert Ulp(16_781_311) == 2 * Ulp(8_390_655) == 2;
    assert Ulp(16_781_312) == 2 * Ulp(8_390_656) == 2;
  }

  lemma EveryTile(tiles: set<Tile>, rects: seq<Rect>, sw: nat, sh: nat, ts: nat)
    requires ts > 0 && Dirty(tiles, rects, sw, sh, ts) && tiles <= AllTiles(sw, sh, ts)
    ensures tiles == AllTiles(sw, sh, ts) <==> EveryPixelDirty(rects, sw, sh, ts)
  {
    hide AllTiles, TileOf;
    ScreenIsAllTiles(sw, sh, ts);
    if tiles == AllTiles(sw, sh, ts) {
      forall px: nat, py: nat | px < sw && py < sh ensures IsDirty(rects, sw, sh, ts, TileOf(px, py, ts)) {
        assert Covers(Screen(sw, sh)[0], px, py);
        assert Damages(Screen(sw, sh), sw, sh, ts, px, py, TileOf(px, py, ts));
      }
    }
    if EveryPixelDirty(rects, sw, sh, ts) {
      forall tile | tile in AllTiles(sw, sh, ts) ensures tile in tiles {
        var px: nat, py: nat :| Damages(Screen(sw, sh), sw, sh, ts, px, py, tile);
        assert IsDirty(rects, sw, sh, ts, TileOf(px, py, ts));
      }
    }
  }
}
