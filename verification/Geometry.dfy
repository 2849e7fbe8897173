/**
  The area a mode covers under a projective transform: the box around the images of
  its four corners, in exact arithmetic.
 */
module Geometry {
  import opened Options
  import opened Display

  datatype Point = Point(x: real, y: real)

  datatype Box = Box(x1: int, y1: int, x2: int, y2: int)

  function FixedToReal(f: int): real { f as real / 65536.0 }

  function RowAt(row: seq<int>, x: real, y: real): real
    requires |row| == 3
  {
    Affine(FixedToReal(row[0]), FixedToReal(row[1]), FixedToReal(row[2]), x, y)
  }

  function Affine(a: real, b: real, c: real, x: real, y: real): real { a * x + b * y + c }

  predicate OutOfRange(v: real) { v > 32767.0 || v < -32767.0 }

  /** The image of a point; a zero divisor or a coordinate out of range rejects it. */
  function Image(m: Matrix, p: Point): Option<Point> {
    var d := RowAt(m[2], p.x, p.y);
    if d == 0.0 then None
    else
      var q := Point(RowAt(m[0], p.x, p.y) / d, RowAt(m[1], p.x, p.y) / d);
      if OutOfRange(q.x) || OutOfRange(q.y) then None else Some(q)
  }

  /** The program ignores a rejection and keeps the point. */
  function ImageOrSame(m: Matrix, p: Point): Point {
    var q := Image(m, p);
    if q.Some? then q.value else p
  }

  function Ceiling(x: real): int { -((-x).Floor) }

  function PointBox(p: Point): Box {
    Box(p.x.Floor, p.y.Floor, Ceiling(p.x), Ceiling(p.y))
  }

  function Join(a: Box, b: Box): Box {
    Box(if b.x1 < a.x1 then b.x1 else a.x1, if b.y1 < a.y1 then b.y1 else a.y1,
        if b.x2 > a.x2 then b.x2 else a.x2, if b.y2 > a.y2 then b.y2 else a.y2)
  }

  function CornersOf(mode: Mode, rotation: Rotation): (c: seq<Point>)
    ensures |c| == 4
  {
    Rectangle(ModeWidth(mode, rotation) as real, ModeHeight(mode, rotation) as real)
  }

  /** The box around the images of the points. */
  function BoxAround(m: Matrix, points: seq<Point>): Box
    requires points != []
  {
    var last := PointBox(ImageOrSame(m, points[|points| - 1]));
    if |points| == 1 then last else Join(BoxAround(m, points[..|points| - 1]), last)
  }

  function Bounds(mode: Mode, rotation: Rotation, transform: Transform): Box {
    BoxAround(transform.matrix, CornersOf(mode, rotation))
  }

  predicate Inside(p: Point, b: Box) {
    b.x1 as real <= p.x <= b.x2 as real && b.y1 as real <= p.y <= b.y2 as real
  }

  predicate Within(a: Box, b: Box) {
    b.x1 <= a.x1 && a.x2 <= b.x2 && b.y1 <= a.y1 && a.y2 <= b.y2
  }

  /** The box contains the images of all the points. */
  predicate Covers(m: Matrix, points: seq<Point>, b: Box) {
    forall p :: p in points ==> Inside(ImageOrSame(m, p), b)
  }

  /** The box around the images is the least integer box that contains them. */
  lemma {:induction false} BoxAroundIsLeast(m: Matrix, points: seq<Point>, b: Box)
    requires points != []
    ensures Covers(m, points, b) <==> Within(BoxAround(m, points), b)
    decreases |points|
  {
    var n := |points| - 1;
    assert points == points[..n] + [points[n]];
    PointBoxIsLeast(ImageOrSame(m, points[n]), b);
    if n > 0 {
      BoxAroundIsLeast(m, points[..n], b);
    }
  }

  lemma {:induction false} PointBoxIsLeast(p: Point, b: Box)
    ensures Inside(p, b) <==> Within(PointBox(p), b)
  {
  }

  /** What an affine form stays below at the corners of a rectangle, it stays below on the rectangle. */
  lemma {:induction false} AffineBelow(a: real, b: real, c: real, w: real, h: real, x: real, y: real, k: real)
    requires 0.0 <= x <= w && 0.0 <= y <= h
    requires Affine(a, b, c, 0.0, 0.0) <= k && Affine(a, b, c, w, 0.0) <= k
    requires Affine(a, b, c, w, h) <= k && Affine(a, b, c, 0.0, h) <= k
    ensures Affine(a, b, c, x, y) <= k
  {
    var p, q, pw, qh := a * x, b * y, a * w, b * h;
    assert a * 0.0 == 0.0 && b * 0.0 == 0.0;
    MulBetween(a, x, w);
    MulBetween(b, y, h);
    assert p + q + c <= k;
  }

  lemma {:induction false} MulBetween(a: real, x: real, w: real)
    requires 0.0 <= x <= w
    ensures a * x <= 0.0 || a * x <= a * w
  {
    if a > 0.0 {
      assert a * (w - x) >= 0.0;
    } else {
      assert (-a) * x >= 0.0;
    }
  }

  /** n <= k d says that the affine form n - k d is not positive. */
  lemma {:induction false} Combine(n0: real, n1: real, n2: real, d0: real, d1: real, d2: real, k: real, x: real,
                                   y: real)
    ensures Affine(n0, n1, n2, x, y) <= k * Affine(d0, d1, d2, x, y) <==>
            Affine(n0 - k * d0, n1 - k * d1, n2 - k * d2, x, y) <= 0.0
  {
    assert k * (d0 * x + d1 * y + d2) == k * (d0 * x) + k * (d1 * y) + k * d2;
    assert (n0 - k * d0) * x == n0 * x - (k * d0) * x;
    assert (n1 - k * d1) * y == n1 * y - (k * d1) * y;
    assert k * (d0 * x) == (k * d0) * x && k * (d1 * y) == (k * d1) * y;
  }

  /** If n <= k d at the corners, for two affine forms n and d, then on the whole rectangle. */
  lemma {:induction false} BelowOnRectangle(n0: real, n1: real, n2: real, d0: real, d1: real, d2: real, k: real,
                         w: real, h: real, x: real, y: real)
    requires 0.0 <= x <= w && 0.0 <= y <= h
    requires Affine(n0, n1, n2, 0.0, 0.0) <= k * Affine(d0, d1, d2, 0.0, 0.0)
    requires Affine(n0, n1, n2, w, 0.0) <= k * Affine(d0, d1, d2, w, 0.0)
    requires Affine(n0, n1, n2, w, h) <= k * Affine(d0, d1, d2, w, h)
    requires Affine(n0, n1, n2, 0.0, h) <= k * Affine(d0, d1, d2, 0.0, h)
    ensures Affine(n0, n1, n2, x, y) <= k * Affine(d0, d1, d2, x, y)
  {
    Combine(n0, n1, n2, d0, d1, d2, k, 0.0, 0.0);
    Combine(n0, n1, n2, d0, d1, d2, k, w, 0.0);
    Combine(n0, n1, n2, d0, d1, d2, k, w, h);
    Combine(n0, n1, n2, d0, d1, d2, k, 0.0, h);
    Combine(n0, n1, n2, d0, d1, d2, k, x, y);
    var a, b, c := n0 - k * d0, n1 - k * d1, n2 - k * d2;
    assert Affine(a, b, c, 0.0, 0.0) <= 0.0;
    AffineBelow(a, b, c, w, h, x, y, 0.0);
  }

  /** The corners of the rectangle from the origin to (w, h). */
  function Rectangle(w: real, h: real): (c: seq<Point>)
    ensures |c| == 4
  {
    [Point(0.0, 0.0), Point(w, 0.0), Point(w, h), Point(0.0, h)]
  }

  /** An affine form that is positive at the corners is positive on the rectangle. */
  lemma {:induction false} PositiveOnRectangle(a: real, b: real, c: real, w: real, h: real, x: real, y: real)
    requires 0.0 <= x <= w && 0.0 <= y <= h
    requires forall p :: p in Rectangle(w, h) ==> Affine(a, b, c, p.x, p.y) > 0.0
    ensures Affine(a, b, c, x, y) > 0.0
  {
    var r := Rectangle(w, h);
    assert r[0] in r && r[1] in r && r[2] in r && r[3] in r;
    var e := LeastOf4(Affine(a, b, c, 0.0, 0.0), Affine(a, b, c, w, 0.0), Affine(a, b, c, w, h),
      Affine(a, b, c, 0.0, h));
    NegateAffine(a, b, c, 0.0, 0.0);
    NegateAffine(a, b, c, w, 0.0);
    NegateAffine(a, b, c, w, h);
    NegateAffine(a, b, c, 0.0, h);
    NegateAffine(a, b, c, x, y);
    AffineBelow(-a, -b, -c, w, h, x, y, -e);
  }

  function LeastOf4(p: real, q: real, r: real, s: real): (m: real)
    ensures m <= p && m <= q && m <= r && m <= s && m in [p, q, r, s]
  {
    var a, b := if p < q then p else q, if r < s then r else s;
    if a < b then a else b
  }

  lemma {:induction false} NegateAffine(a: real, b: real, c: real, x: real, y: real)
    ensures Affine(-a, -b, -c, x, y) == -Affine(a, b, c, x, y)
  {
    assert (-a) * x == -(a * x) && (-b) * y == -(b * y);
  }

  /** A quotient of two forms stays between the bounds it has at the corners, where the divisor is positive. */
  lemma {:induction false} QuotientBetween(n0: real, n1: real, n2: real, d0: real, d1: real, d2: real, lo: real,
                                           hi: real, w: real, h: real, x: real, y: real)
    requires 0.0 <= x <= w && 0.0 <= y <= h
    requires forall p :: p in Rectangle(w, h) ==>
      && Affine(d0, d1, d2, p.x, p.y) > 0.0
      && lo <= Affine(n0, n1, n2, p.x, p.y) / Affine(d0, d1, d2, p.x, p.y) <= hi
    ensures Affine(d0, d1, d2, x, y) > 0.0
    ensures lo <= Affine(n0, n1, n2, x, y) / Affine(d0, d1, d2, x, y) <= hi
  {
    QuotientBelow(n0, n1, n2, d0, d1, d2, hi, w, h, x, y);
    forall p | p in Rectangle(w, h)
      ensures Affine(-n0, -n1, -n2, p.x, p.y) / Affine(d0, d1, d2, p.x, p.y) <= -lo
    {
      NegateAffine(n0, n1, n2, p.x, p.y);
      NegateNumerator(Affine(n0, n1, n2, p.x, p.y), Affine(d0, d1, d2, p.x, p.y));
    }
    QuotientBelow(-n0, -n1, -n2, d0, d1, d2, -lo, w, h, x, y);
    NegateAffine(n0, n1, n2, x, y);
    NegateNumerator(Affine(n0, n1, n2, x, y), Affine(d0, d1, d2, x, y));
  }

  lemma {:induction false} QuotientBelow(n0: real, n1: real, n2: real, d0: real, d1: real, d2: real, hi: real,
                      w: real, h: real, x: real, y: real)
    requires 0.0 <= x <= w && 0.0 <= y <= h
    requires forall p :: p in Rectangle(w, h) ==>
      Affine(d0, d1, d2, p.x, p.y) > 0.0 && Affine(n0, n1, n2, p.x, p.y) / Affine(d0, d1, d2, p.x, p.y) <= hi
    ensures Affine(d0, d1, d2, x, y) > 0.0
    ensures Affine(n0, n1, n2, x, y) / Affine(d0, d1, d2, x, y) <= hi
  {
    PositiveOnRectangle(d0, d1, d2, w, h, x, y);
    forall p | p in Rectangle(w, h)
      ensures Affine(n0, n1, n2, p.x, p.y) <= hi * Affine(d0, d1, d2, p.x, p.y)
    {
      CornerBelow(n0, n1, n2, d0, d1, d2, hi, p);
    }
    CrossedUpper(n0, n1, n2, d0, d1, d2, hi, w, h, x, y);
    CrossMultiply(Affine(n0, n1, n2, x, y), Affine(d0, d1, d2, x, y), hi);
  }

  lemma {:induction false} CrossedUpper(n0: real, n1: real, n2: real, d0: real, d1: real, d2: real, hi: real,
                     w: real, h: real, x: real, y: real)
    requires 0.0 <= x <= w && 0.0 <= y <= h
    requires forall p :: p in Rectangle(w, h) ==> Affine(n0, n1, n2, p.x, p.y) <= hi * Affine(d0, d1, d2, p.x, p.y)
    ensures Affine(n0, n1, n2, x, y) <= hi * Affine(d0, d1, d2, x, y)
  {
    var r := Rectangle(w, h);
    assert r[0] in r && r[1] in r && r[2] in r && r[3] in r;
    BelowOnRectangle(n0, n1, n2, d0, d1, d2, hi, w, h, x, y);
  }

  lemma {:induction false} CornerBelow(n0: real, n1: real, n2: real, d0: real, d1: real, d2: real, hi: real, p: Point)
    requires Affine(d0, d1, d2, p.x, p.y) > 0.0 && Affine(n0, n1, n2, p.x, p.y) / Affine(d0, d1, d2, p.x, p.y) <= hi
    ensures Affine(n0, n1, n2, p.x, p.y) <= hi * Affine(d0, d1, d2, p.x, p.y)
  {
    CrossMultiply(Affine(n0, n1, n2, p.x, p.y), Affine(d0, d1, d2, p.x, p.y), hi);
  }

  lemma {:induction false} NegateNumerator(n: real, d: real)
    requires d != 0.0
    ensures (-n) / d == -(n / d)
  {
    var q := n / d;
    assert n == q * d;
    assert -n == (-q) * d;
  }

  lemma {:induction false} CrossMultiply(n: real, d: real, k: real)
    requires d > 0.0
    ensures n / d <= k <==> n <= k * d
  {
    var q := n / d;
    assert n == q * d;
    assert (k - q) * d == k * d - n;
    assert k >= q ==> (k - q) * d >= 0.0;
    assert k < q ==> (k - q) * d < 0.0;
  }

  /** The divisor has one sign at all the corners; so it is for every affine transform. */
  predicate SameSide(m: Matrix, w: real, h: real) {
    || (forall p :: p in Rectangle(w, h) ==> RowAt(m[2], p.x, p.y) > 0.0)
    || (forall p :: p in Rectangle(w, h) ==> RowAt(m[2], p.x, p.y) < 0.0)
  }

  lemma {:induction false} AffineIsSameSide(m: Matrix, w: real, h: real)
    requires m[2][0] == 0 && m[2][1] == 0 && m[2][2] != 0
    ensures SameSide(m, w, h)
  {
    assert FixedToReal(m[2][0]) == 0.0 && FixedToReal(m[2][1]) == 0.0;
    forall p: Point ensures RowAt(m[2], p.x, p.y) == FixedToReal(m[2][2]) {
      assert 0.0 * p.x == 0.0 && 0.0 * p.y == 0.0;
    }
  }

  /** One coordinate of the image of a point lies between the bounds the corners' images have. */
  lemma {:induction false} CoordinateBetween(m: Matrix, j: nat, lo: real, hi: real, w: real, h: real, x: real, y: real)
    requires j < 2 && 0.0 <= x <= w && 0.0 <= y <= h && SameSide(m, w, h)
    requires forall p :: p in Rectangle(w, h) ==>
      RowAt(m[2], p.x, p.y) != 0.0 && lo <= RowAt(m[j], p.x, p.y) / RowAt(m[2], p.x, p.y) <= hi
    ensures RowAt(m[2], x, y) != 0.0 && lo <= RowAt(m[j], x, y) / RowAt(m[2], x, y) <= hi
  {
    var n0, n1, n2 := FixedToReal(m[j][0]), FixedToReal(m[j][1]), FixedToReal(m[j][2]);
    var d0, d1, d2 := FixedToReal(m[2][0]), FixedToReal(m[2][1]), FixedToReal(m[2][2]);
    if forall p :: p in Rectangle(w, h) ==> RowAt(m[2], p.x, p.y) > 0.0 {
      QuotientBetween(n0, n1, n2, d0, d1, d2, lo, hi, w, h, x, y);
    } else {
      forall p | p in Rectangle(w, h)
        ensures Affine(-d0, -d1, -d2, p.x, p.y) > 0.0
        ensures lo <= Affine(-n0, -n1, -n2, p.x, p.y) / Affine(-d0, -d1, -d2, p.x, p.y) <= hi
      {
        NegateAffine(n0, n1, n2, p.x, p.y);
        NegateAffine(d0, d1, d2, p.x, p.y);
        NegateQuotient(Affine(n0, n1, n2, p.x, p.y), Affine(d0, d1, d2, p.x, p.y));
      }
      QuotientBetween(-n0, -n1, -n2, -d0, -d1, -d2, lo, hi, w, h, x, y);
      NegateAffine(n0, n1, n2, x, y);
      NegateAffine(d0, d1, d2, x, y);
      NegateQuotient(Affine(n0, n1, n2, x, y), Affine(d0, d1, d2, x, y));
    }
  }

  lemma {:induction false} NegateQuotient(n: real, d: real)
    requires d != 0.0
    ensures (-n) / (-d) == n / d
  {
    var q := n / d;
    assert n == q * d;
    assert -n == q * (-d);
  }

  /**
    The box holds the image of every point of the mode's rectangle, not only of its
    corners, whenever no corner is rejected and the divisor keeps its sign.
   */
  lemma {:induction false} BoundsHoldWholeImage(mode: Mode, rotation: Rotation, transform: Transform, p: Point)
    requires var w, h := ModeWidth(mode, rotation) as real, ModeHeight(mode, rotation) as real;
             && 0.0 <= p.x <= w && 0.0 <= p.y <= h
             && SameSide(transform.matrix, w, h)
             && forall c :: c in CornersOf(mode, rotation) ==> Image(transform.matrix, c).Some?
    ensures Image(transform.matrix, p).Some?
      && Inside(Image(transform.matrix, p).value, Bounds(mode, rotation, transform))
  {
    var m := transform.matrix;
    var w, h := ModeWidth(mode, rotation) as real, ModeHeight(mode, rotation) as real;
    var corners, b := CornersOf(mode, rotation), Bounds(mode, rotation, transform);
    assert corners == Rectangle(w, h);
    BoxAroundIsLeast(m, corners, b);
    BoxAroundIsLeast(m, corners, Box(-32767, -32767, 32767, 32767));
    forall c | c in corners ensures Inside(Image(m, c).value, b) {
      assert ImageOrSame(m, c) == Image(m, c).value;
    }
    CoordinateBetween(m, 0, b.x1 as real, b.x2 as real, w, h, p.x, p.y);
    CoordinateBetween(m, 1, b.y1 as real, b.y2 as real, w, h, p.x, p.y);
  }

  function Between(u: real, v: real, t: real): real { u + t * (v - u) }

  lemma {:induction false} AffineBetween(a: real, b: real, c: real, p: Point, q: Point, t: real)
    ensures Affine(a, b, c, Between(p.x, q.x, t), Between(p.y, q.y, t))
         == Between(Affine(a, b, c, p.x, p.y), Affine(a, b, c, q.x, q.y), t)
  {
    assert a * (p.x + t * (q.x - p.x)) == a * p.x + t * (a * q.x - a * p.x);
    assert b * (p.y + t * (q.y - p.y)) == b * p.y + t * (b * q.y - b * p.y);
  }

  lemma {:induction false} Product(a: real, b: real)
    requires a >= 0.0 && b >= 0.0
    ensures a * b >= 0.0
  {
  }

  /** A step of part t towards another number of the interval stays in it. */
  lemma {:induction false} BetweenStaysInside(u: real, v: real, t: real, w: real)
    requires 0.0 <= u <= w && 0.0 <= v <= w && 0.0 <= t <= 1.0
    ensures 0.0 <= Between(u, v, t) <= w
  {
    var tu, tv, tw := t * u, t * v, t * w;
    Product(1.0 - t, u);
    Product(t, v);
    Product(1.0 - t, w - u);
    Product(t, w - v);
    assert (1.0 - t) * u == u - tu;
    assert (1.0 - t) * (w - u) == w - u - tw + tu;
    assert t * (w - v) == tw - tv;
    assert t * (v - u) == tv - tu;
  }

  lemma {:induction false} ZeroBetween(u: real, v: real) returns (t: real)
    requires v < 0.0 < u
    ensures 0.0 <= t <= 1.0 && Between(u, v, t) == 0.0
  {
    t := u / (u - v);
    assert t * (u - v) == u;
    assert t * (v - u) == -(t * (u - v));
    CrossMultiply(u, u - v, 1.0);
    CrossMultiply(-u, u - v, 0.0);
    NegateNumerator(u, u - v);
  }

  predicate InRectangle(p: Point, w: real, h: real) { 0.0 <= p.x <= w && 0.0 <= p.y <= h }

  /** Between a corner where the divisor is positive and one where it is negative lies a point without an image. */
  lemma {:induction false} SignChangeLosesPoint(m: Matrix, w: real, h: real, p: Point, q: Point) returns (z: Point)
    requires InRectangle(p, w, h) && InRectangle(q, w, h)
    requires RowAt(m[2], p.x, p.y) > 0.0 > RowAt(m[2], q.x, q.y)
    ensures InRectangle(z, w, h) && Image(m, z) == None
  {
    var t := ZeroBetween(RowAt(m[2], p.x, p.y), RowAt(m[2], q.x, q.y));
    z := Point(Between(p.x, q.x, t), Between(p.y, q.y, t));
    BetweenStaysInside(p.x, q.x, t, w);
    BetweenStaysInside(p.y, q.y, t, h);
    AffineBetween(FixedToReal(m[2][0]), FixedToReal(m[2][1]), FixedToReal(m[2][2]), p, q, t);
  }

  /**
    Exactly when the corners tell everything: with no corner rejected, every point of
    the mode's rectangle has an image inside the box if and only if the divisor has one
    sign at all four corners.
   */
  lemma {:induction false} BoundsHoldExactlyOnOneSide(mode: Mode, rotation: Rotation, transform: Transform)
    requires forall c :: c in CornersOf(mode, rotation) ==> Image(transform.matrix, c).Some?
    ensures var w, h := ModeWidth(mode, rotation) as real, ModeHeight(mode, rotation) as real;
            SameSide(transform.matrix, w, h) <==>
            forall p: Point :: InRectangle(p, w, h) ==>
              Image(transform.matrix, p).Some?
                && Inside(Image(transform.matrix, p).value, Bounds(mode, rotation, transform))
  {
    var m := transform.matrix;
    var w, h := ModeWidth(mode, rotation) as real, ModeHeight(mode, rotation) as real;
    if SameSide(m, w, h) {
      forall p: Point | InRectangle(p, w, h)
        ensures Image(m, p).Some? && Inside(Image(m, p).value, Bounds(mode, rotation, transform))
      {
        BoundsHoldWholeImage(mode, rotation, transform, p);
      }
    } else {
      var q :| q in Rectangle(w, h) && RowAt(m[2], q.x, q.y) <= 0.0;
      var p :| p in Rectangle(w, h) && RowAt(m[2], p.x, p.y) >= 0.0;
      assert Image(m, p).Some? && Image(m, q).Some?;
      var z := SignChangeLosesPoint(m, w, h, p, q);
    }
  }

  /** A transform no corner rejects, whose divisor vanishes across the middle of a mode of 1024 x 768. */
  lemma {:induction false} CornersMissSignChange()
    ensures var transform := Transform([[65536, 0, 0], [0, 65536, 0], [128, 0, -65536]], "", []);
            var mode := Mode(1, 1024, 768);
            && (forall c :: c in CornersOf(mode, NO_ROTATION) ==> Image(transform.matrix, c).Some?)
            && !SameSide(transform.matrix, 1024.0, 768.0)
            && exists p: Point :: InRectangle(p, 1024.0, 768.0) && Image(transform.matrix, p) == None
  {
    var transform := Transform([[65536, 0, 0], [0, 65536, 0], [128, 0, -65536]], "", []);
    var m, corners := transform.matrix, CornersOf(Mode(1, 1024, 768), NO_ROTATION);
    forall p: Point
      ensures RowAt(m[0], p.x, p.y) == p.x && RowAt(m[1], p.x, p.y) == p.y && RowAt(m[2], p.x, p.y) == p.x / 512.0 - 1.0
    {
    }
    assert corners == Rectangle(1024.0, 768.0) && corners[0] in corners && corners[1] in corners;
    var middle := Point(512.0, 0.0);
    assert InRectangle(middle, 1024.0, 768.0) && Image(m, middle) == None;
  }

  /** So for an affine transform the corners always tell everything. */
  lemma {:induction false} AffineBoundsHold(mode: Mode, rotation: Rotation, transform: Transform)
    requires transform.matrix[2][0] == 0 && transform.matrix[2][1] == 0
    requires forall c :: c in CornersOf(mode, rotation) ==> Image(transform.matrix, c).Some?
    ensures var w, h := ModeWidth(mode, rotation) as real, ModeHeight(mode, rotation) as real;
            forall p: Point :: InRectangle(p, w, h) ==>
              Image(transform.matrix, p).Some?
                && Inside(Image(transform.matrix, p).value, Bounds(mode, rotation, transform))
  {
    var corners, row := CornersOf(mode, rotation), transform.matrix[2];
    assert corners[0] in corners && corners[0] == Point(0.0, 0.0);
    assert RowAt(row, 0.0, 0.0) == FixedToReal(row[2]) != 0.0;
    AffineIsSameSide(transform.matrix, ModeWidth(mode, rotation) as real, ModeHeight(mode, rotation) as real);
    BoundsHoldExactlyOnOneSide(mode, rotation, transform);
  }

  /** A point of the plane turned by a quarter around the origin, n times. */
  function Turned(p: Point, n: nat): Point {
    if n == 0 then p else var q := Turned(p, n - 1); Point(-q.y, q.x)
  }

  /** Where a point of a mode goes when it is turned by n quarters and moved right of and below the origin again. */
  function TurnedMode(mode: Mode, n: nat, p: Point): Point {
    var t, w, h := Turned(p, n), mode.width as real, mode.height as real;
    if n == 0 then t
    else if n == 1 then Point(t.x + h, t.y)
    else if n == 2 then Point(t.x + w, t.y + h)
    else Point(t.x, t.y + w)
  }

  /**
    The mode turned by n quarters fills exactly the area its rotation gives it; any other
    rotation word gives it none.
   */
  lemma {:induction false} TurnedModeFillsArea(mode: Mode, rotation: Rotation, n: nat, q: Point)
    requires n < 4 && rotation.turn == [1, 2, 4, 8][n]
    ensures InRectangle(q, ModeWidth(mode, rotation) as real, ModeHeight(mode, rotation) as real) <==>
            exists p :: InRectangle(p, mode.width as real, mode.height as real) && q == TurnedMode(mode, n, p)
  {
    if InRectangle(q, ModeWidth(mode, rotation) as real, ModeHeight(mode, rotation) as real) {
      var p := TurnedBack(mode, rotation, n, q);
    }
    if p :| InRectangle(p, mode.width as real, mode.height as real) && q == TurnedMode(mode, n, p) {
      TurnedInside(mode, rotation, n, p);
    }
  }

  lemma {:induction false} TurnedInside(mode: Mode, rotation: Rotation, n: nat, p: Point)
    requires n < 4 && rotation.turn == [1, 2, 4, 8][n] && InRectangle(p, mode.width as real, mode.height as real)
    ensures InRectangle(TurnedMode(mode, n, p), ModeWidth(mode, rotation) as real, ModeHeight(mode, rotation) as real)
  {
    TurnedThrice(p);
    assert n in {0, 1, 2, 3};
  }

  lemma {:induction false} TurnedBack(mode: Mode, rotation: Rotation, n: nat, q: Point) returns (p: Point)
    requires n < 4 && rotation.turn == [1, 2, 4, 8][n]
    requires InRectangle(q, ModeWidth(mode, rotation) as real, ModeHeight(mode, rotation) as real)
    ensures InRectangle(p, mode.width as real, mode.height as real) && TurnedMode(mode, n, p) == q
  {
    var w, h := mode.width as real, mode.height as real;
    assert n in {0, 1, 2, 3};
    p := if n == 0 then q else if n == 1 then Point(q.y, h - q.x)
         else if n == 2 then Point(w - q.x, h - q.y) else Point(w - q.y, q.x);
    TurnedThrice(p);
  }

  lemma {:induction false} TurnedThrice(p: Point)
    ensures Turned(p, 1) == Point(-p.y, p.x) && Turned(p, 2) == Point(-p.x, -p.y) && Turned(p, 3) == Point(p.y, -p.x)
  {
    assert Turned(p, 3) == var q := Turned(p, 2); Point(-q.y, q.x);
  }

  lemma {:induction false} OtherwiseNoArea(mode: Mode, rotation: Rotation)
    requires rotation.turn !in [1, 2, 4, 8]
    ensures ModeWidth(mode, rotation) == 0 == ModeHeight(mode, rotation)
  {
    assert forall n :: 0 <= n < 4 ==> [1, 2, 4, 8][n] in [1, 2, 4, 8];
    assert [1, 2, 4, 8][0] == 1 && [1, 2, 4, 8][1] == 2 && [1, 2, 4, 8][2] == 4 && [1, 2, 4, 8][3] == 8;
  }

  /** A row of the matrix, with its numbers taken as integers. */
  function Scaled(row: seq<int>, p: Point): real
    requires |row| == 3
  {
    row[0] as real * p.x + row[1] as real * p.y + row[2] as real
  }

  /**
    The image in homogeneous coordinates, where the fixed point scale does not matter: q is
    the image of p exactly when the product of the matrix with (p, 1) is a multiple of
    (q, 1), with a factor that is not zero, and q is in range.
   */
  lemma {:induction false} ImageIsProjective(m: Matrix, p: Point, q: Point)
    ensures Image(m, p) == Some(q) <==>
      var k := Scaled(m[2], p);
      && k != 0.0 && Scaled(m[0], p) == k * q.x && Scaled(m[1], p) == k * q.y
      && -32767.0 <= q.x <= 32767.0 && -32767.0 <= q.y <= 32767.0
  {
    ProductScales(m[0], p);
    ProductScales(m[1], p);
    ProductScales(m[2], p);
    var d, n0, n1 := RowAt(m[2], p.x, p.y), RowAt(m[0], p.x, p.y), RowAt(m[1], p.x, p.y);
    if d != 0.0 {
      QuotientIs(n0, d, q.x);
      QuotientIs(n1, d, q.y);
    }
  }

  lemma {:induction false} ProductScales(row: seq<int>, p: Point)
    requires |row| == 3
    ensures Scaled(row, p) == 65536.0 * RowAt(row, p.x, p.y)
  {
  }

  lemma {:induction false} QuotientIs(n: real, d: real, q: real)
    requires d != 0.0
    ensures n / d == q <==> 65536.0 * n == (65536.0 * d) * q
  {
    assert n == (n / d) * d;
    if n == d * q {
      assert (n / d - q) * d == 0.0;
    }
  }

  /** Without a transform a mode within range covers just its own area, turned as it is. */
  lemma {:induction false} UntransformedBounds(mode: Mode, rotation: Rotation, transform: Transform)
    requires transform.matrix == [[65536, 0, 0], [0, 65536, 0], [0, 0, 65536]]
    requires mode.width <= 32767 && mode.height <= 32767 && rotation.turn in [1, 2, 4, 8]
    ensures Bounds(mode, rotation, transform) ==
            if rotation.turn in [1, 4] then Box(0, 0, mode.width, mode.height) else Box(0, 0, mode.height, mode.width)
  {
    UnitBox(transform.matrix, ModeWidth(mode, rotation), ModeHeight(mode, rotation));
  }

  lemma {:induction false} UnitBox(m: Matrix, w: nat, h: nat)
    requires m == [[65536, 0, 0], [0, 65536, 0], [0, 0, 65536]] && w <= 32767 && h <= 32767
    ensures BoxAround(m, Rectangle(w as real, h as real)) == Box(0, 0, w, h)
  {
    var c := Rectangle(w as real, h as real);
    UnitImage(m, 0, 0);
    UnitImage(m, w, 0);
    UnitImage(m, w, h);
    UnitImage(m, 0, h);
    assert BoxAround(m, c[..1]) == Box(0, 0, 0, 0);
    assert c[..2][..1] == c[..1] && BoxAround(m, c[..2]) == Box(0, 0, w, 0);
    assert c[..3][..2] == c[..2] && BoxAround(m, c[..3]) == Box(0, 0, w, h);
    assert c[..4] == c && c[..4][..3] == c[..3] && BoxAround(m, c) == Box(0, 0, w, h);
  }

  lemma {:induction false} UnitImage(m: Matrix, x: nat, y: nat)
    requires m == [[65536, 0, 0], [0, 65536, 0], [0, 0, 65536]] && x <= 32767 && y <= 32767
    ensures ImageOrSame(m, Point(x as real, y as real)) == Point(x as real, y as real)
    ensures PointBox(Point(x as real, y as real)) == Box(x, y, x, y)
  {
    var p := Point(x as real, y as real);
    assert RowAt(m[0], p.x, p.y) == p.x && RowAt(m[1], p.x, p.y) == p.y && RowAt(m[2], p.x, p.y) == 1.0;
    assert (-(x as real)).Floor + x == 0 && (-(y as real)).Floor + y == 0;
  }

  /** The first n terms of the product of a row and a vector. */
  function PartialProduct(row: seq<int>, vector: seq<real>, n: nat): real
    requires n <= |row| && n <= |vector|
  {
    if n == 0 then 0.0 else PartialProduct(row, vector, n - 1) + FixedToReal(row[n - 1]) * vector[n - 1]
  }

  lemma {:induction false} ProductIsRow(row: seq<int>, x: real, y: real)
    requires |row| == 3
    ensures PartialProduct(row, [x, y, 1.0], 3) == RowAt(row, x, y)
  {
    var v := [x, y, 1.0];
    assert PartialProduct(row, v, 1) == 0.0 + FixedToReal(row[0]) * x;
    assert PartialProduct(row, v, 2) == PartialProduct(row, v, 1) + FixedToReal(row[1]) * y;
    assert PartialProduct(row, v, 3) == PartialProduct(row, v, 2) + FixedToReal(row[2]) * 1.0;
  }

  /** The double loop over the matrix. */
  method TransformPoint(m: Matrix, p: Point) returns (ok: bool, q: Point)
    ensures ok == Image(m, p).Some?
    ensures q == ImageOrSame(m, p)
  {
    var vector := [p.x, p.y, 1.0];
    var result := [];
    for j := 0 to 3
      invariant |result| == j
      invariant forall k :: 0 <= k < j ==> result[k] == RowAt(m[k], p.x, p.y)
    {
      var v := 0.0;
      for i := 0 to 3
        invariant v == PartialProduct(m[j], vector, i)
      {
        v := v + FixedToReal(m[j][i]) * vector[i];
      }
      ProductIsRow(m[j], p.x, p.y);
      result := result + [v];
    }
    if result[2] == 0.0 {
      return false, p;
    }
    for j := 0 to 2
      invariant |vector| == 3
      invariant j > 0 ==> vector[0] == result[0] / result[2] && !OutOfRange(vector[0])
      invariant j > 1 ==> vector[1] == result[1] / result[2] && !OutOfRange(vector[1])
    {
      vector := vector[j := result[j] / result[2]];
      if OutOfRange(vector[j]) {
        return false, p;
      }
    }
    return true, Point(vector[0], vector[1]);
  }

  method PathBounds(m: Matrix, points: seq<Point>) returns (box: Box)
    requires points != []
    ensures box == BoxAround(m, points)
  {
    box := Box(0, 0, 0, 0);
    for i := 0 to |points|
      invariant i > 0 ==> box == BoxAround(m, points[..i])
    {
      var ok, q := TransformPoint(m, points[i]);
      var point := PointBox(q);
      assert points[..i + 1][..i] == points[..i];
      if i == 0 {
        box := point;
      } else {
        if point.x1 < box.x1 { box := box.(x1 := point.x1); }
        if point.y1 < box.y1 { box := box.(y1 := point.y1); }
        if point.x2 > box.x2 { box := box.(x2 := point.x2); }
        if point.y2 > box.y2 { box := box.(y2 := point.y2); }
      }
    }
    assert points[..|points|] == points;
  }

  method ModeGeometry(mode: Mode, rotation: Rotation, transform: Transform) returns (bounds: Box)
    ensures bounds == Bounds(mode, rotation, transform)
  {
    var w, h := ModeWidth(mode, rotation) as real, ModeHeight(mode, rotation) as real;
    bounds := PathBounds(transform.matrix, [Point(0.0, 0.0), Point(w, 0.0), Point(w, h), Point(0.0, h)]);
  }
}
