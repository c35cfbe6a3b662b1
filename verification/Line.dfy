/** The chart renderer's `draw_line`: an all-octant integer line, drawn into a clipped image. */
module Line {

  datatype Point = Point(x: int, y: int)

  function Abs(n: int): (r: int)
    ensures r >= 0 && (r == n || r == -n)
  {
    if n < 0 then -n else n
  }

  /** The direction of an axis, as the code picks it. */
  function Sign(from: int, to: int): int {
    if from < to then 1 else -1
  }

  function Max(a: int, b: int): int {
    if a < b then b else a
  }

  /** `minor * k / major`, rounded to the nearest integer, halves up. */
  function Nearest(major: int, minor: int, k: nat): int
    requires major > 0
  {
    (2 * minor * k + major) / (2 * major)
  }

  /** How far the line has gone along x and along y after `k` moves. */
  function Along(a: int, b: int, k: nat): Point
    requires a >= 0 && b >= 0
  {
    if a == 0 && b == 0 then Point(0, 0)
    else if a >= b then Point(k, Nearest(a, b, k))
    else Point(Nearest(b, a, k), k)
  }

  /** The `k`-th pixel of the line: the reference the loop is held against. */
  function Pixel(p: Point, q: Point, k: nat): Point {
    var d := Along(Abs(q.x - p.x), Abs(q.y - p.y), k);
    Point(p.x + Sign(p.x, q.x) * d.x, p.y + Sign(p.y, q.y) * d.y)
  }

  function Moves(p: Point, q: Point): (n: int)
    ensures n >= 0
  {
    Max(Abs(q.x - p.x), Abs(q.y - p.y))
  }

  // --- Arithmetic -----------------------------------------------------------------------------------

  lemma Strictly(d: int, q: int, r: int)
    requires d > 0
    ensures q < r ==> d * q + d <= d * r
  {
    if q < r {
      assert d * (r - q - 1) >= 0;
    }
  }

  lemma DivisionBounds(n: int, d: int, q: int)
    requires d > 0
    ensures q == n / d <==> d * q <= n < d * q + d
  {
    var r := n / d;
    assert n == d * r + n % d;
    if d * q <= n < d * q + d && q != r {
      Strictly(d, q, r);
      Strictly(d, r, q);
    }
  }

  /** `j` is the rounded quotient exactly when it is off by at most half, upwards excluded. */
  lemma NearestBounds(major: int, minor: int, k: nat, j: int)
    requires major > 0
    ensures j == Nearest(major, minor, k) <==> -major <= 2 * (minor * k - major * j) < major
  {
    DivisionBounds(2 * minor * k + major, 2 * major, j);
    assert 2 * major * j == 2 * (major * j) && 2 * minor * k == 2 * (minor * k);
  }

  /** The loop's `err` after `i` moves along x and `j` along y. */
  function Err(a: int, b: int, i: int, j: int): int {
    a - b - b * i + a * j
  }

  /** `(i, j)` is where `k` moves lead, in terms of the error term `b * i - a * j`. */
  ghost predicate OnTrack(a: int, b: int, k: nat, i: int, j: int) {
    && a >= 0 && b >= 0 && a + b > 0
    && if a >= b then i == k && -a <= 2 * (b * i - a * j) < a
       else j == k && -b < 2 * (b * i - a * j) <= b
  }

  lemma OnTrackIsAlong(a: int, b: int, k: nat, i: int, j: int)
    requires a >= 0 && b >= 0 && a + b > 0
    ensures OnTrack(a, b, k, i, j) <==> Point(i, j) == Along(a, b, k)
  {
    if a >= b {
      NearestBounds(a, b, k, j);
    } else {
      NearestBounds(b, a, k, i);
    }
  }

  lemma ErrMoves(a: int, b: int, i: int, j: int)
    ensures Err(a, b, i + 1, j) == Err(a, b, i, j) - b && Err(a, b, i, j + 1) == Err(a, b, i, j) + a
    ensures Err(a, b, i + 1, j + 1) == Err(a, b, i, j) - b + a
  {
  }

  /** One round of the loop: at least one axis moves, and the track is kept. */
  lemma RoundStaysOnTrack(a: int, b: int, k: nat, i: int, j: int)
    requires OnTrack(a, b, k, i, j)
    ensures var e2 := 2 * Err(a, b, i, j);
            // The second test uses `e2`, not the updated error.
            OnTrack(a, b, k + 1, if e2 >= -b then i + 1 else i, if e2 <= a then j + 1 else j)
  {
    assert b * (i + 1) == b * i + b && a * (j + 1) == a * j + a;
  }

  /** The track reaches the far end after `max(a, b)` moves, and no earlier. */
  lemma EndOfTrack(a: int, b: int, k: nat, i: int, j: int)
    requires OnTrack(a, b, k, i, j) && k <= Max(a, b)
    ensures (i == a && j == b) <==> k == Max(a, b)
    ensures 0 <= i <= a && 0 <= j <= b
  {
    OnTrackIsAlong(a, b, k, i, j);
    if a >= b {
      TrackInside(a, b, k);
    } else {
      TrackInside(b, a, k);
    }
  }

  lemma TrackInside(major: int, minor: int, k: nat)
    requires 0 < major && 0 <= minor <= major && k <= major
    ensures 0 <= Nearest(major, minor, k) <= minor
    ensures k == major ==> Nearest(major, minor, k) == minor
  {
    NearestBounds(major, minor, k, Nearest(major, minor, k));
    NearestBounds(major, minor, k, minor);
    InsideByBounds(major, minor, k, Nearest(major, minor, k));
  }

  lemma InsideByBounds(major: int, minor: int, k: nat, j: int)
    requires 0 < major && 0 <= minor <= major && k <= major
    requires -major <= 2 * (minor * k - major * j) < major
    ensures 0 <= j <= minor
    ensures k == major ==> -major <= 2 * (minor * k - major * minor) < major
  {
    Strictly(major, j, 0);
    Strictly(major, minor, j);
    Product(minor, k, major);
    Bounded(major, minor, j, minor * k, major * j, major * minor);
  }

  lemma Product(m: int, k: int, n: int)
    requires m >= 0 && 0 <= k <= n
    ensures 0 <= m * k <= n * m
  {
    assert n * m == m * k + m * (n - k);
  }

  lemma Bounded(major: int, minor: int, j: int, mk: int, mj: int, mm: int)
    requires 0 < major && -major <= 2 * (mk - mj) < major && 0 <= mk <= mm
    requires (j < 0 ==> mj + major <= 0) && (minor < j ==> mm + major <= mj)
    ensures 0 <= j <= minor
  {
  }

  // --- What the reference promises --------------------------------------------------------------------

  lemma AlongSpans(a: int, b: int, k: nat)
    requires a >= 0 && b >= 0 && k <= Max(a, b)
    ensures 0 <= Along(a, b, k).x <= a && 0 <= Along(a, b, k).y <= b
    ensures Along(a, b, k) == Point(a, b) <==> k == Max(a, b)
    ensures k == 0 ==> Along(a, b, k) == Point(0, 0)
  {
    if a + b > 0 {
      var d := Along(a, b, k);
      OnTrackIsAlong(a, b, k, d.x, d.y);
      EndOfTrack(a, b, k, d.x, d.y);
      OnTrackIsAlong(a, b, 0, 0, 0);
    }
  }

  /** Both endpoints are drawn, the far one last, and every pixel lies in the rectangle they span. */
  lemma LineSpans(p: Point, q: Point, k: nat)
    requires k <= Moves(p, q)
    ensures Pixel(p, q, 0) == p && (Pixel(p, q, k) == q <==> k == Moves(p, q))
    ensures p.x <= Pixel(p, q, k).x <= q.x || q.x <= Pixel(p, q, k).x <= p.x
    ensures p.y <= Pixel(p, q, k).y <= q.y || q.y <= Pixel(p, q, k).y <= p.y
  {
    AlongSpans(Abs(q.x - p.x), Abs(q.y - p.y), 0);
    AlongSpans(Abs(q.x - p.x), Abs(q.y - p.y), k);
  }

  /** No pixel is more than half a pixel off the ideal line, measured along the minor axis. */
  lemma LineIsClose(p: Point, q: Point, k: nat)
    requires k <= Moves(p, q)
    ensures var a, b := Abs(q.x - p.x), Abs(q.y - p.y);
            var r := Pixel(p, q, k);
            2 * Abs(a * Abs(r.y - p.y) - b * Abs(r.x - p.x)) <= Max(a, b)
  {
    var a, b := Abs(q.x - p.x), Abs(q.y - p.y);
    var d := Along(a, b, k);
    if a > 0 || b > 0 {
      OnTrackIsAlong(a, b, k, d.x, d.y);
      EndOfTrack(a, b, k, d.x, d.y);
    }
    var r := Pixel(p, q, k);
    assert Abs(r.x - p.x) == Abs(d.x) && Abs(r.y - p.y) == Abs(d.y);
  }

  /** Consecutive pixels touch: the major axis advances by one, the other by at most one. */
  lemma LineIsConnected(p: Point, q: Point, k: nat)
    requires k < Moves(p, q)
    ensures var r, s := Pixel(p, q, k), Pixel(p, q, k + 1);
            Max(Abs(s.x - r.x), Abs(s.y - r.y)) == 1
  {
    var a, b := Abs(q.x - p.x), Abs(q.y - p.y);
    var d, e := Along(a, b, k), Along(a, b, k + 1);
    OnTrackIsAlong(a, b, k, d.x, d.y);
    RoundStaysOnTrack(a, b, k, d.x, d.y);
    var e2 := 2 * Err(a, b, d.x, d.y);
    OnTrackIsAlong(a, b, k + 1, if e2 >= -b then d.x + 1 else d.x, if e2 <= a then d.y + 1 else d.y);
  }

  const I32_MAX: int := 0x7fff_ffff

  // --- The loop ---------------------------------------------------------------------------------------

  /** The image: which pixels have been written. Writes outside it are ignored. */
  class Image {
    const written: array2<bool>

    constructor (width: nat, height: nat)
      ensures written.Length0 == width && written.Length1 == height && fresh(written)
      ensures forall x, y :: 0 <= x < width && 0 <= y < height ==> !written[x, y]
    {
      written := new bool[width, height]((_, _) => false);
    }

    predicate Inside(x: int, y: int) {
      0 <= x < written.Length0 && 0 <= y < written.Length1
    }

    /** `blend`, with a positive coverage. */
    method Blend(x: int, y: int)
      modifies written
      ensures forall u, v :: 0 <= u < written.Length0 && 0 <= v < written.Length1 ==>
                (written[u, v] <==> old(written[u, v]) || (u == x && v == y))
    {
      if 0 <= x < written.Length0 && 0 <= y < written.Length1 {
        written[x, y] := true;
      }
    }
  }

  /** The three pixels written for a point of the line. */
  predicate Thickened(r: Point, u: int, v: int) {
    (u == r.x && v == r.y) || (u == r.x + 1 && v == r.y) || (u == r.x && v == r.y + 1)
  }

  /** The pixel itself, and its right and lower neighbours to make the line heavier. */
  method Plot(img: Image, r: Point)
    modifies img.written
    ensures forall u, v :: img.Inside(u, v) ==> (img.written[u, v] <==> old(img.written[u, v]) || Thickened(r, u, v))
  {
    img.Blend(r.x, r.y);
    img.Blend(r.x + 1, r.y);
    img.Blend(r.x, r.y + 1);
  }

  ghost predicate Covered(path: seq<Point>, u: int, v: int) {
    exists k :: 0 <= k < |path| && Thickened(path[k], u, v)
  }

  /** The loop's variables. */
  datatype Cursor = Cursor(x: int, y: int, err: int)

  function Start(p: Point, q: Point): Cursor {
    Cursor(p.x, p.y, Abs(q.x - p.x) - Abs(q.y - p.y))
  }

  /** One round of the loop. The second test looks at the error from before the first. */
  function Round(p: Point, q: Point, c: Cursor): Cursor {
    var dx, dy := Abs(q.x - p.x), -Abs(q.y - p.y);
    var c1 := if 2 * c.err >= dy then Cursor(c.x + Sign(p.x, q.x), c.y, c.err + dy) else c;
    if 2 * c.err <= dx then Cursor(c1.x, c1.y + Sign(p.y, q.y), c1.err + dx) else c1
  }

  function Rounds(p: Point, q: Point, k: nat): Cursor {
    if k == 0 then Start(p, q) else Round(p, q, Rounds(p, q, k - 1))
  }

  /** The loop has gone `i` along x and `j` along y. */
  ghost predicate Gone(p: Point, q: Point, c: Cursor, i: int, j: int) {
    && c.x == p.x + Sign(p.x, q.x) * i
    && c.y == p.y + Sign(p.y, q.y) * j
    && c.err == Err(Abs(q.x - p.x), Abs(q.y - p.y), i, j)
  }

  lemma RoundGoes(p: Point, q: Point, c: Cursor, i: int, j: int)
    requires Gone(p, q, c, i, j)
    ensures var a, b := Abs(q.x - p.x), Abs(q.y - p.y);
            Gone(p, q, Round(p, q, c), if 2 * c.err >= -b then i + 1 else i, if 2 * c.err <= a then j + 1 else j)
  {
    var a, b := Abs(q.x - p.x), Abs(q.y - p.y);
    ErrMoves(a, b, i, j);
    assert Sign(p.x, q.x) * (i + 1) == Sign(p.x, q.x) * i + Sign(p.x, q.x);
    assert Sign(p.y, q.y) * (j + 1) == Sign(p.y, q.y) * j + Sign(p.y, q.y);
  }

  /** After `k` rounds it is on track. */
  lemma {:induction false} RoundsOnTrack(p: Point, q: Point, k: nat) returns (i: int, j: int)
    requires 0 < Moves(p, q) && k <= Moves(p, q)
    ensures OnTrack(Abs(q.x - p.x), Abs(q.y - p.y), k, i, j) && Gone(p, q, Rounds(p, q, k), i, j)
  {
    if k == 0 {
      i, j := 0, 0;
    } else {
      i, j := RoundsOnTrack(p, q, k - 1);
      var a, b := Abs(q.x - p.x), Abs(q.y - p.y);
      RoundStaysOnTrack(a, b, k - 1, i, j);
      RoundGoes(p, q, Rounds(p, q, k - 1), i, j);
      var e2 := 2 * Err(a, b, i, j);
      i, j := if e2 >= -b then i + 1 else i, if e2 <= a then j + 1 else j;
    }
  }

  /** The loop's pixel is the reference's, and it is the far end exactly after `Moves` rounds. */
  lemma RoundsArePixels(p: Point, q: Point, k: nat)
    requires k <= Moves(p, q)
    ensures Pixel(p, q, k) == Point(Rounds(p, q, k).x, Rounds(p, q, k).y)
    ensures Pixel(p, q, k) == q <==> k == Moves(p, q)
  {
    var a, b := Abs(q.x - p.x), Abs(q.y - p.y);
    if a + b > 0 {
      var i, j := RoundsOnTrack(p, q, k);
      OnTrackIsAlong(a, b, k, i, j);
      EndOfTrack(a, b, k, i, j);
    }
  }

  predicate Fits(n: int) {
    -I32_MAX - 1 <= n <= I32_MAX
  }

  /** What is computed before the loop. */
  predicate SetupFits(p: Point, q: Point) {
    var a, b := Abs(q.x - p.x), Abs(q.y - p.y);
    Fits(q.x - p.x) && Fits(q.y - p.y) && Fits(a) && Fits(b) && Fits(-b) && Fits(a - b)
  }

  /** What one round does to the error. */
  predicate ErrorFits(a: int, b: int, err: int) {
    var moved := if 2 * err >= -b then err - b else err;
    Fits(2 * err) && Fits(moved) && Fits(if 2 * err <= a then moved + a else moved)
  }

  /** What round `k` computes: the pixel, its neighbours and, unless it is the last, the new error. */
  predicate RoundFits(p: Point, q: Point, k: nat) {
    var c := Rounds(p, q, k);
    && Fits(c.x) && Fits(c.y) && Fits(c.x + 1) && Fits(c.y + 1)
    && (k < Moves(p, q) ==> ErrorFits(Abs(q.x - p.x), Abs(q.y - p.y), c.err))
  }

  lemma ErrorStaysSmall(p: Point, q: Point, k: nat)
    requires k < Moves(p, q) && 3 * Moves(p, q) <= I32_MAX
    ensures ErrorFits(Abs(q.x - p.x), Abs(q.y - p.y), Rounds(p, q, k).err)
  {
    var d := ErrorTerm(p, q, k);
    SmallError(Abs(q.x - p.x), Abs(q.y - p.y), d);
  }

  /** The loop's error differs from its first value by at most half the longer side. */
  lemma ErrorTerm(p: Point, q: Point, k: nat) returns (d: int)
    requires 0 < Moves(p, q) && k <= Moves(p, q)
    ensures var a, b := Abs(q.x - p.x), Abs(q.y - p.y);
            && Rounds(p, q, k).err == a - b - d
            && if a >= b then -a <= 2 * d <= a else -b <= 2 * d <= b
  {
    var i, j := RoundsOnTrack(p, q, k);
    d := Abs(q.y - p.y) * i - Abs(q.x - p.x) * j;
  }

  /** `d` is the error term of a point on the track. */
  lemma SmallError(a: int, b: int, d: int)
    requires a >= 0 && b >= 0 && 3 * a <= I32_MAX && 3 * b <= I32_MAX
    requires if a >= b then -a <= 2 * d <= a else -b <= 2 * d <= b
    ensures ErrorFits(a, b, a - b - d)
  {
  }

  /**
    While the longer side is at most a third of the 32-bit range, no value leaves it if and only if
    neither endpoint has the largest coordinate, whose right or lower neighbour there is none.
   */
  lemma NoOverflow(p: Point, q: Point)
    requires Fits(p.x) && Fits(p.y) && Fits(q.x) && Fits(q.y) && 3 * Moves(p, q) <= I32_MAX
    ensures SetupFits(p, q)
    ensures (forall k :: 0 <= k <= Moves(p, q) ==> RoundFits(p, q, k)) <==>
              p.x < I32_MAX && p.y < I32_MAX && q.x < I32_MAX && q.y < I32_MAX
  {
    if p.x < I32_MAX && p.y < I32_MAX && q.x < I32_MAX && q.y < I32_MAX {
      forall k | 0 <= k <= Moves(p, q) ensures RoundFits(p, q, k) {
        RoundsArePixels(p, q, k);
        LineSpans(p, q, k);
        if k < Moves(p, q) {
          ErrorStaysSmall(p, q, k);
        }
      }
    } else {
      RoundsArePixels(p, q, 0);
      RoundsArePixels(p, q, Moves(p, q));
      LineSpans(p, q, 0);
      assert !RoundFits(p, q, 0) || !RoundFits(p, q, Moves(p, q));
    }
  }

  /** Draws the line from `p` to `q`, and tells the pixels it went through. */
  method DrawLine(img: Image, p: Point, q: Point) returns (ghost path: seq<Point>)
    modifies img.written
    ensures |path| == Moves(p, q) + 1
    ensures forall k :: 0 <= k < |path| ==> path[k] == Pixel(p, q, k)
    ensures forall u, v :: img.Inside(u, v) ==>
              (img.written[u, v] <==> old(img.written[u, v]) || Covered(path, u, v))
  {
    var dx := Abs(q.x - p.x);
    var dy := -Abs(q.y - p.y);
    var sx := Sign(p.x, q.x);
    var sy := Sign(p.y, q.y);
    var err := dx + dy;
    var x, y := p.x, p.y;
    path := [];
    while true
      invariant |path| <= Moves(p, q) && Cursor(x, y, err) == Rounds(p, q, |path|)
      invariant forall m :: 0 <= m < |path| ==> path[m] == Pixel(p, q, m)
      invariant forall u, v :: img.Inside(u, v) ==>
                  (img.written[u, v] <==> old(img.written[u, v]) || Covered(path, u, v))
      decreases Moves(p, q) - |path|
    {
      RoundsArePixels(p, q, |path|);
      CoveredSnoc(path, Point(x, y));
      path := path + [Point(x, y)];
      Plot(img, Point(x, y));
      if x == q.x && y == q.y {
        break;
      }
      var e2 := 2 * err;
      if e2 >= dy {
        err := err + dy;
        x := x + sx;
      }
      if e2 <= dx {
        err := err + dx;
        y := y + sy;
      }
    }
  }

  /** What is drawn for a path: its pixels, the one right of each and the one below it. */
  lemma CoveredMeans(path: seq<Point>, u: int, v: int)
    ensures Covered(path, u, v) <==> Point(u, v) in path || Point(u - 1, v) in path || Point(u, v - 1) in path
  {
    if k :| 0 <= k < |path| && path[k] in {Point(u, v), Point(u - 1, v), Point(u, v - 1)} {
      assert Thickened(path[k], u, v);
    }
    if k :| 0 <= k < |path| && Thickened(path[k], u, v) {
      assert path[k] in path && path[k] in {Point(u, v), Point(u - 1, v), Point(u, v - 1)};
    }
  }

  lemma CoveredSnoc(path: seq<Point>, r: Point)
    ensures forall u, v :: Covered(path + [r], u, v) <==> Covered(path, u, v) || Thickened(r, u, v)
  {
    forall u, v ensures Covered(path + [r], u, v) <==> Covered(path, u, v) || Thickened(r, u, v) {
      var l := path + [r];
      assert forall k :: 0 <= k < |path| ==> l[k] == path[k];
      assert l[|path|] == r;
    }
  }
}
