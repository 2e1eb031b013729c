/**
 The line tool: Bresenham's loop, which decides each step from an error term
 updated by addition alone.

 The loop is proved to place its k-th dot where a closed formula puts it: k
 pixels along the longer axis and the rounded ideal distance along the shorter.
 What a line has to look like is then proved of the formula.
 */
module Bresenham {

  datatype Point = Point(x: int, y: int)

  function Abs(v: int): nat { if v < 0 then -v else v }

  function Max(a: nat, b: nat): nat { if a >= b then a else b }

  /** The coordinate `n` pixels from `a` in the direction of `b`. */
  function Along(a: int, b: int, n: int): int { if a < b then a + n else a - n }

  // ---- the reference: rounding the ideal line ----

  /** k * minor / major to the nearest integer, an exact half rounding down. */
  function Rounded(k: nat, minor: nat, major: nat): nat
    requires major > 0
  {
    (2 * k * minor + major - 1) / (2 * major)
  }

  /** The k-th dot from `a` towards `b`. */
  function Dot(a: Point, b: Point, k: nat): Point {
    var dx, dy := Abs(b.x - a.x), Abs(b.y - a.y);
    if dx == 0 && dy == 0 then a
    else if dx >= dy then Point(Along(a.x, b.x, k), Along(a.y, b.y, Rounded(k, dy, dx)))
    else Point(Along(a.x, b.x, Rounded(k, dx, dy)), Along(a.y, b.y, k))
  }

  /** The number of steps between the two ends. */
  function Steps(a: Point, b: Point): nat { Max(Abs(b.x - a.x), Abs(b.y - a.y)) }

  /** `m` pixels on the shorter axis are within half a pixel of `k` along the longer. */
  ghost predicate Nearest(k: int, minor: int, major: int, m: int) {
    0 - major <= 2 * (m * major) - 2 * (k * minor) < major
  }

  lemma Expand(p: int, q: int, r: int)
    ensures (p + q) * r == p * r + q * r
    ensures (p - q) * r == p * r - q * r
  {
  }

  lemma AtLeastOnce(p: int, q: int, r: int)
    requires p > q && r >= 0
    ensures p * r >= q * r + r
  {
    Expand(p - q - 1, q + 1, r);
    Expand(q, 1, r);
    assert (p - q - 1) * r >= 0;
  }

  lemma NearestUnique(k: int, minor: int, major: int, m: int, m': int)
    requires Nearest(k, minor, major, m) && Nearest(k, minor, major, m')
    ensures m == m'
  {
    if m > m' {
      AtLeastOnce(m, m', major);
    } else if m < m' {
      AtLeastOnce(m', m, major);
    }
  }

  /** Being rounded is the same as being the one integer within half a pixel. */
  lemma RoundedIff(k: nat, minor: nat, major: nat, m: nat)
    requires major > 0
    ensures m == Rounded(k, minor, major) <==> Nearest(k, minor, major, m)
  {
    RoundedNearest(k, minor, major);
    if Nearest(k, minor, major, m) {
      NearestUnique(k, minor, major, m, Rounded(k, minor, major));
    }
  }

  lemma RoundedNearest(k: nat, minor: nat, major: nat)
    requires major > 0
    ensures Nearest(k, minor, major, Rounded(k, minor, major))
  {
    var num, den := 2 * k * minor + major - 1, 2 * major;
    var q := num / den;
    assert num == den * q + num % den;
    assert den * q == 2 * (q * major);
    assert 2 * k * minor == 2 * (k * minor);
  }

  /** `p` is within half a pixel of the ideal line from `a` to `b`, measured on the shorter axis. */
  ghost predicate NearLine(a: Point, b: Point, p: Point) {
    var dx, dy := b.x - a.x, b.y - a.y;
    2 * Abs((p.y - a.y) * dx - (p.x - a.x) * dy) <= Max(Abs(dx), Abs(dy))
  }

  /** One pixel at most on either axis, and not standing still. */
  ghost predicate Adjacent(p: Point, q: Point) {
    Abs(q.x - p.x) <= 1 && Abs(q.y - p.y) <= 1 && p != q
  }

  lemma SignedOffset(p: int, dx: int, q: int, dy: int, p': int, dx': int, q': int, dy': int)
    requires (p' == p && dy' == dy) || (p' == -p && dy' == -dy)
    requires (q' == q && dx' == dx) || (q' == -q && dx' == -dx)
    ensures Abs(p' * dx' - q' * dy') == Abs(p * dx - q * dy)
  {
    var u, v := p * dx, q * dy;
    assert (-p) * dx == -u && p * (-dx) == -u && (-p) * (-dx) == u;
    assert (-q) * dy == -v && q * (-dy) == -v && (-q) * (-dy) == v;
  }

  lemma DotIsNear(a: Point, b: Point, k: nat)
    ensures NearLine(a, b, Dot(a, b, k))
  {
    var dx, dy := Abs(b.x - a.x), Abs(b.y - a.y);
    var p := Dot(a, b, k);
    if dx == 0 && dy == 0 {
    } else if dx >= dy {
      var m := Rounded(k, dy, dx);
      RoundedNearest(k, dy, dx);
      SignedOffset(m, dx, k, dy, p.y - a.y, b.x - a.x, p.x - a.x, b.y - a.y);
    } else {
      var m := Rounded(k, dx, dy);
      RoundedNearest(k, dx, dy);
      SignedOffset(k, dx, m, dy, p.y - a.y, b.x - a.x, p.x - a.x, b.y - a.y);
    }
  }

  /** Along the line the shorter axis moves by nothing or by one. */
  lemma RoundedStep(k: nat, minor: nat, major: nat)
    requires 0 < major && minor <= major
    ensures Rounded(k, minor, major) <= Rounded(k + 1, minor, major) <= Rounded(k, minor, major) + 1
  {
    var m := Rounded(k, minor, major);
    RoundedNearest(k, minor, major);
    Expand(k, 1, minor);
    Expand(m, 1, major);
    if Nearest(k + 1, minor, major, m) {
      RoundedIff(k + 1, minor, major, m);
    } else {
      RoundedIff(k + 1, minor, major, m + 1);
    }
  }

  lemma DotsAdjacent(a: Point, b: Point, k: nat)
    requires k < Steps(a, b)
    ensures Adjacent(Dot(a, b, k), Dot(a, b, k + 1))
  {
    var dx, dy := Abs(b.x - a.x), Abs(b.y - a.y);
    if dx >= dy {
      RoundedStep(k, dy, dx);
    } else {
      RoundedStep(k, dx, dy);
    }
  }

  lemma DotsMeetEnds(a: Point, b: Point)
    ensures Dot(a, b, 0) == a && Dot(a, b, Steps(a, b)) == b
  {
    var dx, dy := Abs(b.x - a.x), Abs(b.y - a.y);
    if dx == 0 && dy == 0 {
    } else if dx >= dy {
      RoundedIff(0, dy, dx, 0);
      RoundedIff(dx, dy, dx, dy);
    } else {
      RoundedIff(0, dx, dy, 0);
      RoundedIff(dy, dx, dy, dx);
    }
  }

  // ---- the loop ----

  /** All the dots of the line, in order. */
  function Dots(a: Point, b: Point): seq<Point> { seq(Steps(a, b) + 1, k requires 0 <= k => Dot(a, b, k)) }

  /** What a drawn line has to look like. */
  ghost predicate IsLine(dots: seq<Point>, a: Point, b: Point) {
    && |dots| == Max(Abs(b.x - a.x), Abs(b.y - a.y)) + 1
    && dots[0] == a && dots[|dots| - 1] == b
    && (forall k :: 0 <= k < |dots| - 1 ==> Adjacent(dots[k], dots[k+1]))
    && (forall k :: 0 <= k < |dots| ==> NearLine(a, b, dots[k]))
  }

  /** The rounded dots form a line between any two points. */
  lemma DotsAreLine(a: Point, b: Point)
    ensures IsLine(Dots(a, b), a, b)
  {
    var dots := Dots(a, b);
    DotsMeetEnds(a, b);
    forall q | 0 <= q < |dots| ensures NearLine(a, b, dots[q]) {
      DotIsNear(a, b, q);
    }
    forall q | 0 <= q < |dots| - 1 ensures Adjacent(dots[q], dots[q+1]) {
      DotsAdjacent(a, b, q);
    }
  }

  /**
   The error term after `i` steps in x and `j` in y, and that after `k` turns
   of the loop both counters are where the formula puts them.
   */
  ghost predicate OnTrack(dx: int, dy: int, k: int, i: int, j: int, err: int) {
    && err == j * dx + dx - i * dy - dy
    && if dx >= dy then i == k && Nearest(k, dy, dx, j) else j == k && Nearest(k, dx, dy, i)
  }

  /** One turn of the loop keeps the counters on the formula. */
  lemma OnTrackStep(dx: int, dy: int, k: int, i: int, j: int, err: int)
    requires 0 <= dx && 0 <= dy && dx + dy > 0 && OnTrack(dx, dy, k, i, j, err)
    ensures var right, down := 2 * err > 0 - dy, 2 * err < dx;
            OnTrack(dx, dy, k + 1, if right then i + 1 else i, if down then j + 1 else j,
                    err - (if right then dy else 0) + (if down then dx else 0))
  {
    Expand(i, 1, dy);
    Expand(j, 1, dx);
    Expand(k, 1, dy);
    Expand(k, 1, dx);
  }

  /** Where the loop stands: the pixel to plot next and the error term. */
  datatype Pen = Pen(at: Point, err: int)

  /** One turn of the loop after the plot. */
  function Turn(a: Point, b: Point, pen: Pen): Pen {
    var dx, dy: int := Abs(b.x - a.x), Abs(b.y - a.y);
    var right, down := 2 * pen.err > -dy, 2 * pen.err < dx;
    var sx, sy := if a.x < b.x then 1 else -1, if a.y < b.y then 1 else -1;
    Pen(Point(if right then pen.at.x + sx else pen.at.x, if down then pen.at.y + sy else pen.at.y),
        pen.err - (if right then dy else 0) + (if down then dx else 0))
  }

  function After(a: Point, b: Point, k: nat): Pen {
    if k == 0 then Pen(a, Abs(b.x - a.x) - Abs(b.y - a.y)) else Turn(a, b, After(a, b, k - 1))
  }

  /** The loop's variables after `k` turns, `i` of which moved x and `j` of which moved y. */
  ghost predicate Reached(a: Point, b: Point, k: nat, i: nat, j: nat, pen: Pen) {
    && pen.at == Point(Along(a.x, b.x, i), Along(a.y, b.y, j))
    && if a == b then k == i == j == 0
       else OnTrack(Abs(b.x - a.x), Abs(b.y - a.y), k, i, j, pen.err)
  }

  lemma ReachedDot(a: Point, b: Point, k: nat, i: nat, j: nat, pen: Pen)
    requires Reached(a, b, k, i, j, pen)
    ensures pen.at == Dot(a, b, k)
  {
    var dx, dy := Abs(b.x - a.x), Abs(b.y - a.y);
    if a == b {
    } else if dx >= dy {
      RoundedIff(k, dy, dx, j);
    } else {
      RoundedIff(k, dx, dy, i);
    }
  }

  ghost predicate OnLine(a: Point, b: Point, k: nat, pen: Pen) {
    exists i, j :: Reached(a, b, k, i, j, pen)
  }

  lemma ReachedStep(a: Point, b: Point, k: nat, i: nat, j: nat, pen: Pen) returns (i': nat, j': nat)
    requires Reached(a, b, k, i, j, pen) && k < Steps(a, b)
    ensures Reached(a, b, k + 1, i', j', Turn(a, b, pen))
  {
    var dx, dy: int := Abs(b.x - a.x), Abs(b.y - a.y);
    OnTrackStep(dx, dy, k, i, j, pen.err);
    i' := if 2 * pen.err > 0 - dy then i + 1 else i;
    j' := if 2 * pen.err < dx then j + 1 else j;
    TurnMoves(a, b, pen, i, j, i', j');
  }

  lemma TurnMoves(a: Point, b: Point, pen: Pen, i: nat, j: nat, i': nat, j': nat)
    requires pen.at == Point(Along(a.x, b.x, i), Along(a.y, b.y, j))
    requires i' == (if 2 * pen.err > 0 - Abs(b.y - a.y) then i + 1 else i)
    requires j' == (if 2 * pen.err < Abs(b.x - a.x) then j + 1 else j)
    ensures Turn(a, b, pen) ==
            Pen(Point(Along(a.x, b.x, i'), Along(a.y, b.y, j')),
                pen.err - (if i' > i then Abs(b.y - a.y) else 0) + (if j' > j then Abs(b.x - a.x) else 0))
  {
  }

  lemma OnLineStep(a: Point, b: Point, k: nat, pen: Pen)
    requires OnLine(a, b, k, pen) && k < Steps(a, b)
    ensures OnLine(a, b, k + 1, Turn(a, b, pen))
  {
    var i, j :| Reached(a, b, k, i, j, pen);
    var i', j' := ReachedStep(a, b, k, i, j, pen);
  }

  lemma OnLineStart(a: Point, b: Point)
    ensures OnLine(a, b, 0, After(a, b, 0))
  {
    assert Reached(a, b, 0, 0, 0, After(a, b, 0));
  }

  lemma {:induction false} AfterOnLine(a: Point, b: Point, k: nat)
    requires k <= Steps(a, b)
    ensures OnLine(a, b, k, After(a, b, k))
  {
    if k == 0 {
      OnLineStart(a, b);
    } else {
      AfterOnLine(a, b, k - 1);
      OnLineStep(a, b, k - 1, After(a, b, k - 1));
    }
  }

  /** Before the last step the dot is short of `b` on the longer axis. */
  lemma NotThereYet(a: Point, b: Point, k: nat)
    requires k < Steps(a, b)
    ensures Dot(a, b, k) != b
  {
  }

  /** Addition alone follows the rounded line exactly. */
  lemma AfterIsDot(a: Point, b: Point, k: nat)
    requires k <= Steps(a, b)
    ensures After(a, b, k).at == Dot(a, b, k)
  {
    AfterOnLine(a, b, k);
    var i, j :| Reached(a, b, k, i, j, After(a, b, k));
    ReachedDot(a, b, k, i, j, After(a, b, k));
  }

  /** The loop reaches `b` at its last step and not before. */
  lemma AfterMeetsEnd(a: Point, b: Point, k: nat)
    requires k <= Steps(a, b)
    ensures After(a, b, k).at == b <==> k == Steps(a, b)
  {
    AfterIsDot(a, b, k);
    DotsMeetEnds(a, b);
    if k < Steps(a, b) {
      NotThereYet(a, b, k);
    }
  }

  lemma TraceIsDots(a: Point, b: Point, dots: seq<Point>)
    requires |dots| == Steps(a, b) + 1
    requires forall k {:trigger dots[k]} :: 0 <= k < |dots| ==> dots[k] == After(a, b, k).at
    ensures dots == Dots(a, b)
  {
    forall k | 0 <= k < |dots| ensures dots[k] == Dots(a, b)[k] {
      AfterIsDot(a, b, k);
    }
  }

  /**
   Draws the line, returning the dots in the order they were plotted. All
   arithmetic is on coordinates far below the width of an int.
   */
  method DrawLine(a: Point, b: Point) returns (dots: seq<Point>)
    ensures dots == Dots(a, b)
  {
    var dx, dy := b.x - a.x, b.y - a.y;
    if dx < 0 { dx := -dx; }
    if dy < 0 { dy := -dy; }
    var sx, sy := if a.x < b.x then 1 else -1, if a.y < b.y then 1 else -1;
    var err := dx - dy;
    var x0, y0 := a.x, a.y;
    dots := [];
    ghost var k: nat := 0;
    while true
      invariant k <= Steps(a, b) && |dots| == k && Pen(Point(x0, y0), err) == After(a, b, k)
      invariant forall q {:trigger dots[q]} :: 0 <= q < k ==> dots[q] == After(a, b, q).at
      decreases Steps(a, b) - k
    {
      AfterMeetsEnd(a, b, k);
      dots := dots + [Point(x0, y0)];
      if x0 == b.x && y0 == b.y {
        break;
      }
      x0, y0, err := Advance(a, b, dx, dy, sx, sy, x0, y0, err);
      k := k + 1;
    }
    TraceIsDots(a, b, dots);
  }

  method Advance(ghost a: Point, ghost b: Point, dx: int, dy: int, sx: int, sy: int, x0: int, y0: int, err: int)
    returns (x1: int, y1: int, e: int)
    requires dx == Abs(b.x - a.x) && dy == Abs(b.y - a.y)
    requires sx == (if a.x < b.x then 1 else -1) && sy == (if a.y < b.y then 1 else -1)
    ensures Pen(Point(x1, y1), e) == Turn(a, b, Pen(Point(x0, y0), err))
  {
    x1, y1, e := x0, y0, err;
    var e2 := 2 * err;
    if e2 > -dy { e := e - dy; x1 := x1 + sx; }
    if e2 < dx { e := e + dx; y1 := y1 + sy; }
  }
}
