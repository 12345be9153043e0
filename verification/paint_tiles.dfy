/**
 * Image-paint partial redraw bookkeeping. A paint stroke touches an image
 * rectangle, already clipped to the image. A non-empty one grows the dirty
 * region and has every undo tile it overlaps pushed, row by row. Undo tiles
 * are squares of 2^6 pixels, found by an arithmetic shift right of pixel
 * coordinates.
 */
module PaintTiles {

  /** log2 of the undo tile side. */
  const TileBits: nat := 6
  const TileSize: nat := 64

  const IntMax: int := 0x7fff_ffff
  const IntMin: int := -0x8000_0000

  /** Arithmetic shift right by the tile bits: floor division, also for negative values. */
  function TileOf(v: int): (t: int)
    ensures t * TileSize <= v < (t + 1) * TileSize
  {
    v / TileSize
  }

  /** An integer rectangle with inclusive minimum and exclusive maximum. */
  datatype Rect = Rect(xmin: int, xmax: int, ymin: int, ymax: int)

  /** The empty accumulator: minima at the largest int, maxima at the smallest. */
  function InitMinmax(): (r: Rect)
    ensures r.xmin == IntMax && r.ymin == IntMax && r.xmax == IntMin && r.ymax == IntMin
  {
    Rect(IntMax, IntMin, IntMax, IntMin)
  }

  function Min(a: int, b: int): int { if a < b then a else b }
  function Max(a: int, b: int): int { if a > b then a else b }

  /** Grows `r` to the bounding box of `r` and `o`. */
  function DoMinmax(r: Rect, o: Rect): (u: Rect)
    ensures u.xmin <= r.xmin && u.xmin <= o.xmin && (u.xmin == r.xmin || u.xmin == o.xmin)
    ensures u.ymin <= r.ymin && u.ymin <= o.ymin && (u.ymin == r.ymin || u.ymin == o.ymin)
    ensures u.xmax >= r.xmax && u.xmax >= o.xmax && (u.xmax == r.xmax || u.xmax == o.xmax)
    ensures u.ymax >= r.ymax && u.ymax >= o.ymax && (u.ymax == r.ymax || u.ymax == o.ymax)
  {
    Rect(Min(r.xmin, o.xmin), Max(r.xmax, o.xmax), Min(r.ymin, o.ymin), Max(r.ymax, o.ymax))
  }

  /** A rectangle that fits in the int range. */
  predicate InIntRange(o: Rect)
  {
    IntMin <= o.xmin <= IntMax && IntMin <= o.xmax <= IntMax && IntMin <= o.ymin <= IntMax && IntMin <= o.ymax <= IntMax
  }

  /** Merging into a cleared accumulator yields the merged rectangle itself. */
  lemma MinmaxFromCleared(o: Rect)
    requires InIntRange(o)
    ensures DoMinmax(InitMinmax(), o) == o
  {
  }

  /** Merging is commutative and merging twice is merging once. */
  lemma MinmaxLaws(r: Rect, o: Rect)
    ensures DoMinmax(r, o) == DoMinmax(o, r)
    ensures DoMinmax(DoMinmax(r, o), o) == DoMinmax(r, o)
  {
  }

  /**
   * A painted region given as corner and size, already clipped to the image
   * (clipping itself is not part of this model).
   */
  datatype Region = Region(x: int, y: int, w: int, h: int)

  /** A tile, by tile column and row. */
  datatype Tile = Tile(tx: int, ty: int)

  /** The tile span of a region: first and last column, first and last row. */
  datatype TileSpan = TileSpan(tx: int, ty: int, tw: int, th: int)

  function RegionTiles(c: Region): TileSpan
  {
    TileSpan(TileOf(c.x), TileOf(c.y), TileOf(c.x + c.w - 1), TileOf(c.y + c.h - 1))
  }

  /**
   * For a region at least one pixel wide and high the span is non-empty,
   * every pixel of the region lies in a tile of the span, and every tile of
   * the span meets the region.
   */
  lemma RegionTilesCover(c: Region, px: int, py: int, t: Tile)
    ensures var s := RegionTiles(c);
            c.w >= 1 && c.h >= 1 ==> s.tx <= s.tw && s.ty <= s.th
    ensures var s := RegionTiles(c);
            c.x <= px < c.x + c.w && c.y <= py < c.y + c.h ==>
              s.tx <= TileOf(px) <= s.tw && s.ty <= TileOf(py) <= s.th
    ensures var s := RegionTiles(c);
            s.tx <= t.tx <= s.tw && s.ty <= t.ty <= s.th ==>
              t.tx * TileSize < c.x + c.w && c.x < (t.tx + 1) * TileSize
              && t.ty * TileSize < c.y + c.h && c.y < (t.ty + 1) * TileSize
  {
    if c.w >= 1 && c.h >= 1 {
      DivMono(c.x, c.x + c.w - 1);
      DivMono(c.y, c.y + c.h - 1);
    }
    if c.x <= px < c.x + c.w && c.y <= py < c.y + c.h {
      DivMono(c.x, px);
      DivMono(px, c.x + c.w - 1);
      DivMono(c.y, py);
      DivMono(py, c.y + c.h - 1);
    }
  }

  lemma DivMono(a: int, b: int)
    requires a <= b
    ensures TileOf(a) <= TileOf(b)
  {
    var ta := TileOf(a);
    var tb := TileOf(b);
  }

  // ---------------------------------------------------------------------------
  // Tile pushes

  /** Tiles of row `y` from column `x` to `tw`, left to right. */
  function Row(y: int, x: int, tw: int): seq<Tile>
    decreases tw - x + 1
  {
    if x > tw then [] else [Tile(x, y)] + Row(y, x + 1, tw)
  }

  /** Tiles of rows `y` to `th`, each from column `tx` to `tw`, bottom row first. */
  function Rows(y: int, th: int, tx: int, tw: int): seq<Tile>
    decreases th - y + 1
  {
    if y > th then [] else Row(y, tx, tw) + Rows(y + 1, th, tx, tw)
  }

  /** Row-major order: by row, then by column. */
  predicate Before(a: Tile, b: Tile)
  {
    a.ty < b.ty || (a.ty == b.ty && a.tx < b.tx)
  }

  predicate RowMajor(s: seq<Tile>)
  {
    forall i, j :: 0 <= i < j < |s| ==> Before(s[i], s[j])
  }

  function Count(lo: int, hi: int): nat
  {
    if hi < lo then 0 else hi - lo + 1
  }

  lemma {:induction false} RowProps(y: int, x: int, tw: int)
    ensures |Row(y, x, tw)| == Count(x, tw)
    ensures forall t :: t in Row(y, x, tw) <==> t.ty == y && x <= t.tx <= tw
    ensures RowMajor(Row(y, x, tw))
    decreases tw - x + 1
  {
    if x <= tw {
      RowProps(y, x + 1, tw);
      var s := Row(y, x, tw);
      assert s[1..] == Row(y, x + 1, tw);
      forall i, j | 0 <= i < j < |s| ensures Before(s[i], s[j]) {
        if i == 0 { assert s[j] in Row(y, x + 1, tw); }
        else { assert s[i] == s[1..][i - 1] && s[j] == s[1..][j - 1]; }
      }
    }
  }

  lemma SuccMul(a: nat, b: nat)
    ensures (a + 1) * b == b + a * b
  {
  }

  lemma {:induction false} RowsCount(y: int, th: int, tx: int, tw: int)
    ensures |Rows(y, th, tx, tw)| == Count(y, th) * Count(tx, tw)
    decreases th - y + 1
  {
    if y <= th {
      RowProps(y, tx, tw);
      RowsCount(y + 1, th, tx, tw);
      assert Count(y, th) == Count(y + 1, th) + 1;
      SuccMul(Count(y + 1, th), Count(tx, tw));
    }
  }

  lemma {:induction false} RowsMembers(y: int, th: int, tx: int, tw: int)
    ensures forall t :: t in Rows(y, th, tx, tw) <==> y <= t.ty <= th && tx <= t.tx <= tw
    decreases th - y + 1
  {
    if y <= th {
      RowProps(y, tx, tw);
      RowsMembers(y + 1, th, tx, tw);
    }
  }

  lemma {:induction false} RowsOrder(y: int, th: int, tx: int, tw: int)
    ensures RowMajor(Rows(y, th, tx, tw))
    decreases th - y + 1
  {
    if y <= th {
      RowProps(y, tx, tw);
      RowsMembers(y + 1, th, tx, tw);
      RowsOrder(y + 1, th, tx, tw);
      var a := Row(y, tx, tw);
      var b := Rows(y + 1, th, tx, tw);
      forall i, j | 0 <= i < j < |a + b| ensures Before((a + b)[i], (a + b)[j]) {
        if j < |a| {
          assert (a + b)[i] == a[i] && (a + b)[j] == a[j];
        } else if i < |a| {
          assert (a + b)[i] == a[i] && a[i] in a;
          assert (a + b)[j] == b[j - |a|] && b[j - |a|] in b;
        } else {
          assert (a + b)[i] == b[i - |a|] && (a + b)[j] == b[j - |a|];
        }
      }
    }
  }

  /**
   * The pushed tiles are exactly the tiles of the span, each once, in
   * row-major order.
   */
  lemma RowsProps(y: int, th: int, tx: int, tw: int)
    ensures |Rows(y, th, tx, tw)| == Count(y, th) * Count(tx, tw)
    ensures forall t :: t in Rows(y, th, tx, tw) <==> y <= t.ty <= th && tx <= t.tx <= tw
    ensures RowMajor(Rows(y, th, tx, tw))
  {
    RowsCount(y, th, tx, tw);
    RowsMembers(y, th, tx, tw);
    RowsOrder(y, th, tx, tw);
  }

  /** The pushes of the tile loops: rows `ty..th`, each over columns `tx..tw`. */
  method PushTiles(s: TileSpan) returns (pushed: seq<Tile>)
    ensures pushed == Rows(s.ty, s.th, s.tx, s.tw)
    ensures |pushed| == Count(s.ty, s.th) * Count(s.tx, s.tw)
    ensures forall t :: t in pushed <==> s.ty <= t.ty <= s.th && s.tx <= t.tx <= s.tw
    ensures RowMajor(pushed)
  {
    ghost var all := Rows(s.ty, s.th, s.tx, s.tw);
    pushed := [];
    var ty := s.ty;
    while ty <= s.th
      invariant pushed + Rows(ty, s.th, s.tx, s.tw) == all
      decreases s.th - ty + 1
    {
      ghost var before := pushed;
      assert Rows(ty, s.th, s.tx, s.tw) == Row(ty, s.tx, s.tw) + Rows(ty + 1, s.th, s.tx, s.tw);
      pushed := PushRow(pushed, ty, s.tx, s.tw);
      assert before + Rows(ty, s.th, s.tx, s.tw) == pushed + Rows(ty + 1, s.th, s.tx, s.tw);
      ty := ty + 1;
    }
    RowsProps(s.ty, s.th, s.tx, s.tw);
  }

  /** Pushes the tiles of row `ty` from column `tx` to `tw`, left to right. */
  method PushRow(pushed: seq<Tile>, ty: int, tx: int, tw: int) returns (r: seq<Tile>)
    ensures r == pushed + Row(ty, tx, tw)
  {
    r := pushed;
    var x := tx;
    while x <= tw
      invariant r + Row(ty, x, tw) == pushed + Row(ty, tx, tw)
      decreases tw - x + 1
    {
      assert Row(ty, x, tw) == [Tile(x, ty)] + Row(ty, x + 1, tw);
      r := r + [Tile(x, ty)];
      x := x + 1;
    }
  }

  /** The partial-redraw state: the dirty region, the undo tiles pushed so far, and whether the image is marked dirty. */
  datatype PaintState = PaintState(dirty: Rect, pushed: seq<Tile>, imageDirty: bool)

  /** Start of a redraw cycle: an empty dirty region. */
  function ClearPartialRedraw(st: PaintState): (r: PaintState)
    ensures r.dirty == InitMinmax() && r.pushed == st.pushed && r.imageDirty == st.imageDirty
  {
    st.(dirty := InitMinmax())
  }

  /**
   * Marks a painted region. A region of zero width or height changes nothing.
   * Otherwise the dirty region grows to include it, every tile it overlaps is
   * pushed once in row-major order after the earlier pushes, and the image is
   * marked dirty.
   */
  method DirtyRegion(st: PaintState, c: Region) returns (r: PaintState)
    ensures c.w == 0 || c.h == 0 ==> r == st
    ensures c.w != 0 && c.h != 0 ==>
              && r.imageDirty
              && r.dirty == DoMinmax(st.dirty, Rect(c.x, c.x + c.w, c.y, c.y + c.h))
              && r.dirty.xmin <= c.x && c.x + c.w <= r.dirty.xmax
              && r.dirty.ymin <= c.y && c.y + c.h <= r.dirty.ymax
              && (var s := RegionTiles(c);
                  && |r.pushed| == |st.pushed| + Count(s.ty, s.th) * Count(s.tx, s.tw)
                  && r.pushed[..|st.pushed|] == st.pushed
                  && RowMajor(r.pushed[|st.pushed|..])
                  && (forall t :: t in r.pushed[|st.pushed|..] <==> s.tx <= t.tx <= s.tw && s.ty <= t.ty <= s.th)
                  && (forall px, py :: c.x <= px < c.x + c.w && c.y <= py < c.y + c.h ==>
                        Tile(TileOf(px), TileOf(py)) in r.pushed[|st.pushed|..]))
  {
    if c.w == 0 || c.h == 0 {
      return st;
    }
    var merged := DoMinmax(st.dirty, Rect(c.x, c.x + c.w, c.y, c.y + c.h));
    var s := RegionTiles(c);
    var tiles := PushTiles(s);
    r := PaintState(merged, st.pushed + tiles, true);
    assert r.pushed[|st.pushed|..] == tiles;
    assert r.pushed[..|st.pushed|] == st.pushed;
    forall px, py | c.x <= px < c.x + c.w && c.y <= py < c.y + c.h
      ensures Tile(TileOf(px), TileOf(py)) in tiles
    {
      RegionTilesCover(c, px, py, Tile(0, 0));
    }
  }
}
