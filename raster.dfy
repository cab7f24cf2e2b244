/** Pixel rasterisation: the renderer's point log and the exact pixel sequences
    that the paddle (a filled rectangle) and the ball (a filled disc) emit. */
module Raster {
  /** A pixel handed to the renderer's DrawPoint, as (x, y). */
  type Point = (int, int)

  /** The renderer, reduced to what the game logic gives it: the points drawn,
      in the order of the DrawPoint calls. */
  class Renderer {
    var points: seq<Point>

    constructor ()
      ensures points == []
    {
      points := [];
    }

    method DrawPoint(x: int, y: int)
      modifies this
      ensures points == old(points) + [(x, y)]
    {
      points := points + [(x, y)];
    }
  }

  /** Half of `n`, truncated toward zero: the value of `int32(n / 2)` when `n / 2`
      is taken exactly (Go's float-to-integer conversion truncates). */
  function TruncHalf(n: int): (h: int)
    ensures n >= 0 ==> 0 <= h && 2 * h <= n <= 2 * h + 1
    ensures n < 0 ==> h <= 0 && 2 * h - 1 <= n <= 2 * h
  {
    if n >= 0 then n / 2 else -((-n) / 2)
  }

  /** The first pixel coordinate of an extent centred at `centre`:
      `int32(centre - extent/2)`, which is exactly `centre - extent/2` when
      the extent is even (as the paddle's 20 and 100 are). */
  function Corner(centre: int, extent: nat): (c: int)
    ensures extent % 2 == 0 ==> c == centre - extent / 2
    ensures centre - extent / 2 - 1 <= c <= centre - extent / 2 + 1
  {
    TruncHalf(2 * centre - extent)
  }

  /** `p` is drawn before `q` in row-major order: an earlier row, or the same
      row and an earlier column. */
  predicate Precedes(p: Point, q: Point)
  {
    p.1 < q.1 || (p.1 == q.1 && p.0 < q.0)
  }

  /** The points of `s` come in strictly increasing row-major order; in
      particular no point occurs twice. */
  predicate RowMajor(s: seq<Point>)
  {
    forall a, b :: 0 <= a < b < |s| ==> Precedes(s[a], s[b])
  }

  lemma {:induction false} RowMajorAppend(s: seq<Point>, t: seq<Point>)
    requires RowMajor(s) && RowMajor(t)
    requires forall a, b :: 0 <= a < |s| && 0 <= b < |t| ==> Precedes(s[a], t[b])
    ensures RowMajor(s + t)
  {
    var u := s + t;
    forall a, b | 0 <= a < b < |u|
      ensures Precedes(u[a], u[b])
    {
      if b < |s| {
        assert u[a] == s[a] && u[b] == s[b];
      } else if a >= |s| {
        assert u[a] == t[a - |s|] && u[b] == t[b - |s|];
      } else {
        assert u[a] == s[a] && u[b] == t[b - |s|];
      }
    }
  }

  // ---------------------------------------------------------------------------
  // Filled rectangle (the paddle): rows top to bottom, each row left to right.
  // ---------------------------------------------------------------------------

  /** The first `n` pixels of row `y`, starting at column `sx`, left to right. */
  function Row(sx: int, y: int, n: nat): seq<Point>
  {
    if n == 0 then [] else Row(sx, y, n - 1) + [(sx + n - 1, y)]
  }

  /** The first `h` rows of a rectangle `w` pixels wide whose top-left pixel is
      (sx, sy), top to bottom. */
  function Rect(sx: int, sy: int, w: nat, h: nat): seq<Point>
  {
    if h == 0 then [] else Rect(sx, sy, w, h - 1) + Row(sx, sy + h - 1, w)
  }

  /** Pixel `i` of a row is column `sx + i` of that row. */
  lemma {:induction false} RowContents(sx: int, y: int, n: nat)
    ensures |Row(sx, y, n)| == n
    ensures forall i :: 0 <= i < n ==> Row(sx, y, n)[i] == (sx + i, y)
    decreases n
  {
    if n > 0 {
      RowContents(sx, y, n - 1);
    }
  }

  /** A row holds exactly the pixels of its line between its first and last column. */
  lemma {:induction false} RowMembership(sx: int, y: int, n: nat, p: Point)
    ensures p in Row(sx, y, n) <==> p.1 == y && sx <= p.0 < sx + n
  {
    RowContents(sx, y, n);
    if p.1 == y && sx <= p.0 < sx + n {
      assert Row(sx, y, n)[p.0 - sx] == p;
    }
  }

  lemma {:induction false} RowIsRowMajor(sx: int, y: int, n: nat)
    ensures RowMajor(Row(sx, y, n))
  {
    RowContents(sx, y, n);
  }

  /** A `w` by `h` rectangle emits exactly `w * h` points. */
  lemma {:induction false} RectLength(sx: int, sy: int, w: nat, h: nat)
    ensures |Rect(sx, sy, w, h)| == w * h
    decreases h
  {
    if h > 0 {
      RectLength(sx, sy, w, h - 1);
      RowContents(sx, sy + h - 1, w);
      assert w * h == w * (h - 1) + w;
    }
  }

  /** Row `j` of a rectangle starts right after the `j` rows before it. */
  lemma {:induction false} RectAtRow(sx: int, sy: int, w: nat, h: nat, j: nat, i: nat)
    requires j < h && i < w
    ensures |Rect(sx, sy, w, j)| + i < |Rect(sx, sy, w, h)|
    ensures Rect(sx, sy, w, h)[|Rect(sx, sy, w, j)| + i] == (sx + i, sy + j)
    decreases h
  {
    var top, last := Rect(sx, sy, w, h - 1), Row(sx, sy + h - 1, w);
    assert Rect(sx, sy, w, h) == top + last;
    RowContents(sx, sy + h - 1, w);
    assert |top + last| == |top| + w;
    var k := |Rect(sx, sy, w, j)| + i;
    if j < h - 1 {
      RectAtRow(sx, sy, w, h - 1, j, i);
      assert k < |top|;
      assert (top + last)[k] == top[k];
    } else {
      assert Rect(sx, sy, w, j) == top;
      assert (top + last)[|top| + i] == last[i];
    }
  }

  /** Every pixel inside a rectangle's bounds is emitted: this gives its
      position in the sequence. */
  lemma RectIndex(sx: int, sy: int, w: nat, h: nat, j: nat, i: nat) returns (k: nat)
    requires j < h && i < w
    ensures k < |Rect(sx, sy, w, h)| && Rect(sx, sy, w, h)[k] == (sx + i, sy + j)
  {
    RectAtRow(sx, sy, w, h, j, i);
    k := |Rect(sx, sy, w, j)| + i;
  }

  /** The point emitted at position `j * w + i` is column `i` of row `j`: the
      outer loop runs over rows, the inner one over columns. */
  lemma RectAt(sx: int, sy: int, w: nat, h: nat, j: nat, i: nat)
    requires j < h && i < w
    ensures j * w + i < |Rect(sx, sy, w, h)|
    ensures Rect(sx, sy, w, h)[j * w + i] == (sx + i, sy + j)
  {
    RectAtRow(sx, sy, w, h, j, i);
    RectLength(sx, sy, w, j);
  }

  /** Every point of a rectangle lies inside its bounds. */
  lemma {:induction false} RectBounds(sx: int, sy: int, w: nat, h: nat)
    ensures forall k :: 0 <= k < |Rect(sx, sy, w, h)| ==>
              sx <= Rect(sx, sy, w, h)[k].0 < sx + w && sy <= Rect(sx, sy, w, h)[k].1 < sy + h
    decreases h
  {
    if h > 0 {
      var top, last := Rect(sx, sy, w, h - 1), Row(sx, sy + h - 1, w);
      var rect: seq<Point> := top + last;
      RectBounds(sx, sy, w, h - 1);
      RowContents(sx, sy + h - 1, w);
      forall k | 0 <= k < |rect|
        ensures sx <= rect[k].0 < sx + w && sy <= rect[k].1 < sy + h
      {
        if k < |top| {
          assert rect[k] == top[k];
        } else {
          assert rect[k] == last[k - |top|];
        }
      }
    }
  }

  /** A rectangle holds exactly the pixels inside its bounds: nothing outside is drawn. */
  lemma RectMembership(sx: int, sy: int, w: nat, h: nat, p: Point)
    ensures p in Rect(sx, sy, w, h) <==> sx <= p.0 < sx + w && sy <= p.1 < sy + h
  {
    var rect := Rect(sx, sy, w, h);
    if p in rect {
      var k :| 0 <= k < |rect| && rect[k] == p;
      RectBounds(sx, sy, w, h);
    }
    if sx <= p.0 < sx + w && sy <= p.1 < sy + h {
      var k := RectIndex(sx, sy, w, h, p.1 - sy, p.0 - sx);
      assert rect[k] == p;
    }
  }

  /** A rectangle is emitted in row-major order, so no pixel is emitted twice. */
  lemma {:induction false} RectIsRowMajor(sx: int, sy: int, w: nat, h: nat)
    ensures RowMajor(Rect(sx, sy, w, h))
    ensures forall a, b :: 0 <= a < b < |Rect(sx, sy, w, h)| ==> Rect(sx, sy, w, h)[a] != Rect(sx, sy, w, h)[b]
    decreases h
  {
    if h > 0 {
      var top, last := Rect(sx, sy, w, h - 1), Row(sx, sy + h - 1, w);
      RectIsRowMajor(sx, sy, w, h - 1);
      RectBounds(sx, sy, w, h - 1);
      RowContents(sx, sy + h - 1, w);
      RowIsRowMajor(sx, sy + h - 1, w);
      RowMajorAppend(top, last);
    }
  }

  // ---------------------------------------------------------------------------
  // Filled disc (the ball): offsets -r <= dy < r, -r <= dx < r, rows first.
  // ---------------------------------------------------------------------------

  /** The integer disc test of the ball: no square root, exact. */
  predicate InDisc(dx: int, dy: int, r: int)
  {
    dx * dx + dy * dy <= r * r
  }

  /** The pixels of row offset `dy` of the disc centred at (cx, cy), for the
      column offsets `-r <= dx < hi`, left to right. */
  function DiscRow(cx: int, cy: int, r: int, dy: int, hi: int): seq<Point>
    decreases hi + r
  {
    if hi <= -r then []
    else DiscRow(cx, cy, r, dy, hi - 1) + (if InDisc(hi - 1, dy, r) then [(cx + hi - 1, cy + dy)] else [])
  }

  /** The pixels of the row offsets `-r <= dy < hi` of the disc, top to bottom. */
  function DiscRows(cx: int, cy: int, r: int, hi: int): seq<Point>
    decreases hi + r
  {
    if hi <= -r then [] else DiscRows(cx, cy, r, hi - 1) + DiscRow(cx, cy, r, hi - 1, r)
  }

  /** The whole disc of radius `r` centred at (cx, cy). */
  function Disc(cx: int, cy: int, r: int): seq<Point>
  {
    DiscRows(cx, cy, r, r)
  }

  /** Drawing the next column of a disc row after `done` extends the log by
      that column's pixel, if it passes the disc test. */
  lemma DiscRowExtend(done: seq<Point>, cx: int, cy: int, r: int, dy: int, dx: int)
    requires -r <= dx
    ensures done + DiscRow(cx, cy, r, dy, dx + 1)
            == done + DiscRow(cx, cy, r, dy, dx) + (if InDisc(dx, dy, r) then [(cx + dx, cy + dy)] else [])
  {
  }

  /** Drawing the next row of the disc after `done` extends the log by that row. */
  lemma DiscRowsExtend(done: seq<Point>, cx: int, cy: int, r: int, dy: int)
    requires -r <= dy
    ensures done + DiscRows(cx, cy, r, dy + 1) == done + DiscRows(cx, cy, r, dy) + DiscRow(cx, cy, r, dy, r)
  {
  }

  /** Every point of a disc row is on that row, at a column offset in
      [-r, hi), and passes the disc test. */
  lemma {:induction false} DiscRowBounds(cx: int, cy: int, r: int, dy: int, hi: int)
    ensures forall k :: 0 <= k < |DiscRow(cx, cy, r, dy, hi)| ==>
              var p := DiscRow(cx, cy, r, dy, hi)[k];
              p.1 == cy + dy && -r <= p.0 - cx < hi && InDisc(p.0 - cx, dy, r)
    decreases hi + r
  {
    if hi > -r {
      var left := DiscRow(cx, cy, r, dy, hi - 1);
      var next: seq<Point> := if InDisc(hi - 1, dy, r) then [(cx + hi - 1, cy + dy)] else [];
      var row: seq<Point> := left + next;
      DiscRowBounds(cx, cy, r, dy, hi - 1);
      forall k | 0 <= k < |row|
        ensures row[k].1 == cy + dy && -r <= row[k].0 - cx < hi && InDisc(row[k].0 - cx, dy, r)
      {
        if k < |left| {
          assert row[k] == left[k];
        } else {
          assert row[k] == next[k - |left|];
        }
      }
    }
  }

  /** Every point of the disc rows so far is at a row offset in [-r, hi), at a
      column offset in [-r, r), and passes the disc test. */
  lemma {:induction false} DiscRowsBounds(cx: int, cy: int, r: int, hi: int)
    ensures forall k :: 0 <= k < |DiscRows(cx, cy, r, hi)| ==>
              var p := DiscRows(cx, cy, r, hi)[k];
              -r <= p.1 - cy < hi && -r <= p.0 - cx < r && InDisc(p.0 - cx, p.1 - cy, r)
    decreases hi + r
  {
    if hi > -r {
      var top, last := DiscRows(cx, cy, r, hi - 1), DiscRow(cx, cy, r, hi - 1, r);
      var rows: seq<Point> := top + last;
      DiscRowsBounds(cx, cy, r, hi - 1);
      DiscRowBounds(cx, cy, r, hi - 1, r);
      forall k | 0 <= k < |rows|
        ensures -r <= rows[k].1 - cy < hi && -r <= rows[k].0 - cx < r && InDisc(rows[k].0 - cx, rows[k].1 - cy, r)
      {
        if k < |top| {
          assert rows[k] == top[k];
        } else {
          assert rows[k] == last[k - |top|];
        }
      }
    }
  }

  /** Every offset of a row that passes the disc test is emitted: this gives
      its position in the row. */
  lemma {:induction false} DiscRowIndex(cx: int, cy: int, r: int, dy: int, hi: int, dx: int) returns (k: nat)
    requires -r <= dx < hi && InDisc(dx, dy, r)
    ensures k < |DiscRow(cx, cy, r, dy, hi)| && DiscRow(cx, cy, r, dy, hi)[k] == (cx + dx, cy + dy)
    decreases hi + r
  {
    var left := DiscRow(cx, cy, r, dy, hi - 1);
    if dx == hi - 1 {
      k := |left|;
    } else {
      k := DiscRowIndex(cx, cy, r, dy, hi - 1, dx);
    }
  }

  /** Every offset in the rows so far that passes the disc test is emitted:
      this gives its position. */
  lemma {:induction false} DiscRowsIndex(cx: int, cy: int, r: int, hi: int, dx: int, dy: int) returns (k: nat)
    requires -r <= dy < hi && -r <= dx < r && InDisc(dx, dy, r)
    ensures k < |DiscRows(cx, cy, r, hi)| && DiscRows(cx, cy, r, hi)[k] == (cx + dx, cy + dy)
    decreases hi + r
  {
    var top := DiscRows(cx, cy, r, hi - 1);
    if dy == hi - 1 {
      var j := DiscRowIndex(cx, cy, r, dy, r, dx);
      k := |top| + j;
    } else {
      k := DiscRowsIndex(cx, cy, r, hi - 1, dx, dy);
    }
  }

  /** The disc holds the pixel at offset (dx, dy) from its centre if and only
      if both offsets lie in [-r, r) and dx*dx + dy*dy <= r*r. */
  lemma DiscMembership(cx: int, cy: int, r: int, p: Point)
    ensures p in Disc(cx, cy, r) <==>
              -r <= p.0 - cx < r && -r <= p.1 - cy < r && InDisc(p.0 - cx, p.1 - cy, r)
  {
    var disc := Disc(cx, cy, r);
    if p in disc {
      var k :| 0 <= k < |disc| && disc[k] == p;
      DiscRowsBounds(cx, cy, r, r);
    }
    if -r <= p.0 - cx < r && -r <= p.1 - cy < r && InDisc(p.0 - cx, p.1 - cy, r) {
      var k := DiscRowsIndex(cx, cy, r, r, p.0 - cx, p.1 - cy);
      assert disc[k] == p;
    }
  }

  lemma {:induction false} DiscRowIsRowMajor(cx: int, cy: int, r: int, dy: int, hi: int)
    ensures RowMajor(DiscRow(cx, cy, r, dy, hi))
    decreases hi + r
  {
    if hi > -r {
      var left := DiscRow(cx, cy, r, dy, hi - 1);
      var next: seq<Point> := if InDisc(hi - 1, dy, r) then [(cx + hi - 1, cy + dy)] else [];
      DiscRowIsRowMajor(cx, cy, r, dy, hi - 1);
      DiscRowBounds(cx, cy, r, dy, hi - 1);
      RowMajorAppend(left, next);
    }
  }

  lemma {:induction false} DiscRowsIsRowMajor(cx: int, cy: int, r: int, hi: int)
    ensures RowMajor(DiscRows(cx, cy, r, hi))
    decreases hi + r
  {
    if hi > -r {
      var top, last := DiscRows(cx, cy, r, hi - 1), DiscRow(cx, cy, r, hi - 1, r);
      DiscRowsIsRowMajor(cx, cy, r, hi - 1);
      DiscRowIsRowMajor(cx, cy, r, hi - 1, r);
      DiscRowsBounds(cx, cy, r, hi - 1);
      DiscRowBounds(cx, cy, r, hi - 1, r);
      RowMajorAppend(top, last);
    }
  }

  /** The disc is emitted row by row, each row left to right, and no pixel twice. */
  lemma {:induction false} DiscIsRowMajor(cx: int, cy: int, r: int)
    ensures RowMajor(Disc(cx, cy, r))
    ensures forall a, b :: 0 <= a < b < |Disc(cx, cy, r)| ==> Disc(cx, cy, r)[a] != Disc(cx, cy, r)[b]
  {
    DiscRowsIsRowMajor(cx, cy, r, r);
  }
}
