/** Sizes of rotated modes and bounding boxes under projective transforms (`mode_width`,
    `mode_height`, `transform_point`, `path_bounds`, `mode_geometry`), over exact reals. */
module Geometry {
  import opened RandrState

  datatype Point = Point(x: real, y: real)

  datatype Box = Box(x1: int, y1: int, x2: int, y2: int)

  function ModeWidth(m: Mode, r: Rotation): nat {
    if r.direction == ROTATE_0 || r.direction == ROTATE_180 then m.width
    else if r.direction == ROTATE_90 || r.direction == ROTATE_270 then m.height
    else 0
  }

  function ModeHeight(m: Mode, r: Rotation): nat {
    if r.direction == ROTATE_0 || r.direction == ROTATE_180 then m.height
    else if r.direction == ROTATE_90 || r.direction == ROTATE_270 then m.width
    else 0
  }

  /** A quarter turn, which doubles the direction bit, exchanges the sides of a mode; unturned it is as it is. */
  lemma QuarterTurn(m: Mode, r: Rotation)
    requires r.direction in {1, 2, 4}
    ensures var turned := r.(direction := 2 * r.direction);
      ModeWidth(m, turned) == ModeHeight(m, r) && ModeHeight(m, turned) == ModeWidth(m, r)
    ensures r.direction == 1 ==> ModeWidth(m, r) == m.width && ModeHeight(m, r) == m.height
  {
  }

  function Dot(r: Row, p: Point): real {
    r.a * p.x + r.b * p.y + r.c
  }

  /** The image of a point, None where the code refuses to transform it: a zero third
      coordinate, or an image beyond 32767 in either direction. */
  function TransformPoint(t: Transform, p: Point): Option<Point> {
    var w := Dot(t.r2, p);
    if w == 0.0 then None
    else
      var q := Point(Dot(t.r0, p) / w, Dot(t.r1, p) / w);
      if q.x > 32767.0 || q.x < -32767.0 || q.y > 32767.0 || q.y < -32767.0 then None
      else Some(q)
  }

  /** The image as the solution of the homogeneous equations; there is none where the third coordinate is 0, or the
      solution is out of range. */
  lemma ImageSolves(t: Transform, p: Point, q: Point)
    ensures var w := t.r2.a * p.x + t.r2.b * p.y + t.r2.c;
      TransformPoint(t, p) == Some(q) <==>
        && w != 0.0 && -32767.0 <= q.x <= 32767.0 && -32767.0 <= q.y <= 32767.0
        && q.x * w == t.r0.a * p.x + t.r0.b * p.y + t.r0.c
        && q.y * w == t.r1.a * p.x + t.r1.b * p.y + t.r1.c
  {
    assert Dot(t.r2, p) == t.r2.a * p.x + t.r2.b * p.y + t.r2.c;
    assert Dot(t.r0, p) == t.r0.a * p.x + t.r0.b * p.y + t.r0.c;
    assert Dot(t.r1, p) == t.r1.a * p.x + t.r1.b * p.y + t.r1.c;
    ImageDivides(t, p, q, Dot(t.r0, p), Dot(t.r1, p), Dot(t.r2, p));
  }

  lemma ImageDivides(t: Transform, p: Point, q: Point, x: real, y: real, w: real)
    requires x == Dot(t.r0, p) && y == Dot(t.r1, p) && w == Dot(t.r2, p)
    ensures TransformPoint(t, p) == Some(q) <==>
      && w != 0.0 && -32767.0 <= q.x <= 32767.0 && -32767.0 <= q.y <= 32767.0 && q.x * w == x && q.y * w == y
  {
    if w != 0.0 {
      DividedBack(x, w, q.x);
      DividedBack(y, w, q.y);
    }
  }

  lemma DividedBack(a: real, w: real, q: real)
    requires w != 0.0
    ensures q == a / w <==> q * w == a
  {
    assert a / w * w == a;
    if q * w == a { assert q * w / w == q; }
  }

  /** The point `path_bounds` takes for a corner: its image, or the corner itself where
      `transform_point` fails, because its result is ignored. */
  function Image(t: Transform, p: Point): Point {
    match TransformPoint(t, p)
    case Some(q) => q
    case None => p
  }

  function Ceil(x: real): int {
    -((-x).Floor)
  }

  function Cell(p: Point): Box {
    Box(p.x.Floor, p.y.Floor, Ceil(p.x), Ceil(p.y))
  }

  function Min(a: int, b: int): int { if a < b then a else b }

  function Max(a: int, b: int): int { if a > b then a else b }

  function Join(a: Box, b: Box): Box {
    Box(Min(a.x1, b.x1), Min(a.y1, b.y1), Max(a.x2, b.x2), Max(a.y2, b.y2))
  }

  /** The box of the first `n` points. */
  function BoundsOf(t: Transform, ps: seq<Point>, n: nat): Box
    requires 0 < n <= |ps|
  {
    if n == 1 then Cell(Image(t, ps[0]))
    else Join(BoundsOf(t, ps, n - 1), Cell(Image(t, ps[n - 1])))
  }

  method PathBounds(t: Transform, points: seq<Point>) returns (box: Box)
    requires points != []
    ensures box == BoundsOf(t, points, |points|)
  {
    box := Box(0, 0, 0, 0);
    for i := 0 to |points|
      invariant i > 0 ==> box == BoundsOf(t, points, i)
    {
      var point := Cell(Image(t, points[i]));
      if i == 0 {
        box := point;
      } else {
        if point.x1 < box.x1 { box := box.(x1 := point.x1); }
        if point.y1 < box.y1 { box := box.(y1 := point.y1); }
        if point.x2 > box.x2 { box := box.(x2 := point.x2); }
        if point.y2 > box.y2 { box := box.(y2 := point.y2); }
      }
    }
  }

  function Corners(w: nat, h: nat): seq<Point> {
    [Point(0.0, 0.0), Point(w as real, 0.0), Point(w as real, h as real), Point(0.0, h as real)]
  }

  /** The box a mode covers in the screen, relative to the CRTC's position. */
  function ModeBox(m: Mode, r: Rotation, t: Transform): Box {
    BoundsOf(t, Corners(ModeWidth(m, r), ModeHeight(m, r)), 4)
  }

  method ModeGeometry(m: Mode, r: Rotation, t: Transform) returns (bounds: Box)
    ensures bounds == ModeBox(m, r, t)
  {
    bounds := PathBounds(t, Corners(ModeWidth(m, r), ModeHeight(m, r)));
  }

  // ----- The box is the least one -----

  predicate Holds(b: Box, p: Point) {
    b.x1 as real <= p.x <= b.x2 as real && b.y1 as real <= p.y <= b.y2 as real
  }

  predicate Within(a: Box, b: Box) {
    b.x1 <= a.x1 && b.y1 <= a.y1 && a.x2 <= b.x2 && a.y2 <= b.y2
  }

  lemma FloorIsGreatest(x: real, n: int)
    ensures x.Floor as real <= x && x <= Ceil(x) as real
    ensures n as real <= x ==> n <= x.Floor
    ensures x <= n as real ==> Ceil(x) <= n
  {
    assert -x - 1.0 < (-x).Floor as real <= -x;
    assert x - 1.0 < x.Floor as real <= x;
  }

  lemma CellIsLeast(p: Point, b: Box)
    ensures Holds(Cell(p), p)
    ensures Holds(b, p) ==> Within(Cell(p), b)
  {
    FloorIsGreatest(p.x, b.x1);
    FloorIsGreatest(p.x, b.x2);
    FloorIsGreatest(p.y, b.y1);
    FloorIsGreatest(p.y, b.y2);
  }

  /** An integer box contains the images of the points exactly when it contains the computed box. */
  lemma {:induction false} BoundsAreLeast(t: Transform, ps: seq<Point>, n: nat, b: Box)
    requires 0 < n <= |ps|
    ensures (forall i :: 0 <= i < n ==> Holds(b, Image(t, ps[i]))) <==> Within(BoundsOf(t, ps, n), b)
    decreases n
  {
    CellIsLeast(Image(t, ps[n - 1]), b);
    if n > 1 {
      BoundsAreLeast(t, ps, n - 1, b);
    }
  }

  // ----- The box holds the image of the whole rectangle -----

  /** The transform is in front of the camera and in range at every corner. */
  predicate Proper(t: Transform, w: nat, h: nat) {
    forall i :: 0 <= i < 4 ==>
      Dot(t.r2, Corners(w, h)[i]) > 0.0 && TransformPoint(t, Corners(w, h)[i]).Some?
  }

  lemma AffineOnRectangle(r: Row, w: real, h: real, u: real, v: real)
    requires 0.0 <= u <= w && 0.0 <= v <= h
    ensures var least := if r.a >= 0.0 then 0.0 else w;
      var low := if r.b >= 0.0 then 0.0 else h;
      Dot(r, Point(least, low)) <= Dot(r, Point(u, v))
  {
    var least := if r.a >= 0.0 then 0.0 else w;
    var low := if r.b >= 0.0 then 0.0 else h;
    assert r.a * (u - least) >= 0.0;
    assert r.b * (v - low) >= 0.0;
    assert Dot(r, Point(u, v)) - Dot(r, Point(least, low)) == r.a * (u - least) + r.b * (v - low);
  }

  /** A linear condition that holds at the four corners holds in the whole rectangle. */
  lemma CornersDecide(r: Row, w: nat, h: nat, p: Point, bound: real)
    requires 0.0 <= p.x <= w as real && 0.0 <= p.y <= h as real
    requires forall i :: 0 <= i < 4 ==> Dot(r, Corners(w, h)[i]) >= bound
    ensures Dot(r, p) >= bound
  {
    AffineOnRectangle(r, w as real, h as real, p.x, p.y);
    var cs := Corners(w, h);
    assert Dot(r, cs[0]) >= bound && Dot(r, cs[1]) >= bound && Dot(r, cs[2]) >= bound && Dot(r, cs[3]) >= bound;
  }

  /** `r` minus `k` times `s`. */
  function Minus(r: Row, k: real, s: Row): Row {
    Row(r.a - k * s.a, r.b - k * s.b, r.c - k * s.c)
  }

  lemma MinusDot(r: Row, k: real, s: Row, p: Point)
    ensures Dot(Minus(r, k, s), p) == Dot(r, p) - k * Dot(s, p)
  {
  }

  lemma Quotient(n: real, d: real, k: real)
    requires d > 0.0
    ensures n / d >= k <==> n - k * d >= 0.0
  {
    assert n - k * d == (n / d - k) * d by { assert (n / d) * d == n; }
    if n / d >= k { assert (n / d - k) * d >= 0.0; }
    if n / d < k { assert (k - n / d) * d > 0.0; }
  }

  /** The third coordinate is positive in the whole rectangle. */
  lemma DenominatorPositive(den: Row, w: nat, h: nat, p: Point)
    requires 0.0 <= p.x <= w as real && 0.0 <= p.y <= h as real
    requires forall i :: 0 <= i < 4 ==> Dot(den, Corners(w, h)[i]) > 0.0
    ensures Dot(den, p) > 0.0
  {
    CornersDecide(den, w, h, p, Least(den, Corners(w, h)));
  }

  /** A side of the box: if every corner image is on its inner side, so is every image. */
  lemma SideHolds(num: Row, den: Row, w: nat, h: nat, p: Point, k: real)
    requires 0.0 <= p.x <= w as real && 0.0 <= p.y <= h as real
    requires forall i :: 0 <= i < 4 ==> Dot(den, Corners(w, h)[i]) > 0.0
    requires forall i :: 0 <= i < 4 ==> Dot(num, Corners(w, h)[i]) / Dot(den, Corners(w, h)[i]) >= k
    requires Dot(den, p) > 0.0
    ensures Dot(num, p) / Dot(den, p) >= k
  {
    var cs := Corners(w, h);
    forall i | 0 <= i < 4 ensures Dot(Minus(num, k, den), cs[i]) >= 0.0 {
      Quotient(Dot(num, cs[i]), Dot(den, cs[i]), k);
      MinusDot(num, k, den, cs[i]);
    }
    CornersDecide(Minus(num, k, den), w, h, p, 0.0);
    MinusDot(num, k, den, p);
    Quotient(Dot(num, p), Dot(den, p), k);
  }

  function Negated(r: Row): Row {
    Row(-r.a, -r.b, -r.c)
  }

  lemma NegatedQuotient(num: Row, p: Point, d: real)
    requires d > 0.0
    ensures Dot(Negated(num), p) / d == -(Dot(num, p) / d)
  {
    var n := Dot(num, p);
    assert Dot(Negated(num), p) == -n;
    assert (-n) / d == -(n / d) by { assert (-(n / d)) * d == -n by { assert (n / d) * d == n; } }
  }

  lemma OtherSideHolds(num: Row, den: Row, w: nat, h: nat, p: Point, k: real)
    requires 0.0 <= p.x <= w as real && 0.0 <= p.y <= h as real
    requires forall i :: 0 <= i < 4 ==> Dot(den, Corners(w, h)[i]) > 0.0
    requires forall i :: 0 <= i < 4 ==> Dot(num, Corners(w, h)[i]) / Dot(den, Corners(w, h)[i]) <= k
    requires Dot(den, p) > 0.0
    ensures Dot(num, p) / Dot(den, p) <= k
  {
    var cs := Corners(w, h);
    forall i | 0 <= i < 4 ensures Dot(Negated(num), cs[i]) / Dot(den, cs[i]) >= -k {
      NegatedQuotient(num, cs[i], Dot(den, cs[i]));
    }
    SideHolds(Negated(num), den, w, h, p, -k);
    NegatedQuotient(num, p, Dot(den, p));
  }

  function Least(r: Row, cs: seq<Point>): (m: real)
    requires |cs| == 4
    ensures forall i :: 0 <= i < 4 ==> m <= Dot(r, cs[i])
    ensures exists i :: 0 <= i < 4 && m == Dot(r, cs[i])
  {
    var a := if Dot(r, cs[0]) <= Dot(r, cs[1]) then Dot(r, cs[0]) else Dot(r, cs[1]);
    var b := if Dot(r, cs[2]) <= Dot(r, cs[3]) then Dot(r, cs[2]) else Dot(r, cs[3]);
    if a <= b then a else b
  }

  /** The projective image, where the third coordinate is not zero. */
  function TrueImage(t: Transform, p: Point): Point
    requires Dot(t.r2, p) != 0.0
  {
    Point(Dot(t.r0, p) / Dot(t.r2, p), Dot(t.r1, p) / Dot(t.r2, p))
  }

  predicate InRectangle(p: Point, w: nat, h: nat) {
    0.0 <= p.x <= w as real && 0.0 <= p.y <= h as real
  }

  /** The point is in front of the camera and its image is in the box. */
  predicate Shown(b: Box, t: Transform, p: Point) {
    Dot(t.r2, p) > 0.0 && Holds(b, TrueImage(t, p))
  }

  predicate CornersShown(b: Box, t: Transform, w: nat, h: nat) {
    forall i :: 0 <= i < 4 ==> Shown(b, t, Corners(w, h)[i])
  }

  /** A box that holds the images of the corners holds that of every point. */
  lemma {:induction false} CornersShowAll(b: Box, t: Transform, w: nat, h: nat, p: Point)
    requires CornersShown(b, t, w, h) && InRectangle(p, w, h)
    ensures Shown(b, t, p)
  {
    var cs := Corners(w, h);
    assert forall i :: 0 <= i < 4 ==> Shown(b, t, cs[i]);
    DenominatorPositive(t.r2, w, h, p);
    SideHolds(t.r0, t.r2, w, h, p, b.x1 as real);
    OtherSideHolds(t.r0, t.r2, w, h, p, b.x2 as real);
    SideHolds(t.r1, t.r2, w, h, p, b.y1 as real);
    OtherSideHolds(t.r1, t.r2, w, h, p, b.y2 as real);
  }

  /** The box holds the image of every point of the mode, which the code can compute. */
  lemma ModeBoxHoldsMode(m: Mode, r: Rotation, t: Transform, p: Point)
    requires Proper(t, ModeWidth(m, r), ModeHeight(m, r)) && InRectangle(p, ModeWidth(m, r), ModeHeight(m, r))
    ensures Shown(ModeBox(m, r, t), t, p) && TransformPoint(t, p) == Some(TrueImage(t, p))
  {
    var w, h := ModeWidth(m, r), ModeHeight(m, r);
    ProperCornersShown(t, w, h);
    CornersShowAll(ModeBox(m, r, t), t, w, h, p);
    InRange(t, w, h, ModeBox(m, r, t));
  }

  lemma ProperCornersShown(t: Transform, w: nat, h: nat)
    requires Proper(t, w, h)
    ensures CornersShown(BoundsOf(t, Corners(w, h), 4), t, w, h)
  {
    var cs := Corners(w, h);
    var b := BoundsOf(t, cs, 4);
    BoundsAreLeast(t, cs, 4, b);
    forall i | 0 <= i < 4 ensures Shown(b, t, cs[i]) {
      assert Holds(b, Image(t, cs[i])) && TransformPoint(t, cs[i]).Some?;
    }
  }

  /** The box of images in range is in range. */
  lemma InRange(t: Transform, w: nat, h: nat, b: Box)
    requires Proper(t, w, h) && b == BoundsOf(t, Corners(w, h), 4)
    ensures -32767 <= b.x1 && -32767 <= b.y1 && b.x2 <= 32767 && b.y2 <= 32767
  {
    var range := Box(-32767, -32767, 32767, 32767);
    var cs := Corners(w, h);
    forall i | 0 <= i < 4 ensures Holds(range, Image(t, cs[i])) {
      assert TransformPoint(t, cs[i]).Some?;
    }
    BoundsAreLeast(t, cs, 4, range);
  }

  /** The box holds the image of the whole mode exactly when it holds those of the corners, all in front
      of the camera; for modes no larger than the range of transforms exactly when every corner image is
      in that range, a corner out of it being replaced by the untransformed one. */
  lemma {:induction false} BoxHoldsModeIff(m: Mode, r: Rotation, t: Transform)
    ensures (forall p: Point :: InRectangle(p, ModeWidth(m, r), ModeHeight(m, r)) ==> Shown(ModeBox(m, r, t), t, p))
      <==> CornersShown(ModeBox(m, r, t), t, ModeWidth(m, r), ModeHeight(m, r))
    ensures ModeWidth(m, r) <= 32767 && ModeHeight(m, r) <= 32767 ==>
      (CornersShown(ModeBox(m, r, t), t, ModeWidth(m, r), ModeHeight(m, r)) <==> Proper(t, ModeWidth(m, r), ModeHeight(m, r)))
  {
    var w, h := ModeWidth(m, r), ModeHeight(m, r);
    var b := ModeBox(m, r, t);
    if CornersShown(b, t, w, h) {
      forall p: Point | InRectangle(p, w, h) ensures Shown(b, t, p) { CornersShowAll(b, t, w, h, p); }
    } else {
      assert forall i :: 0 <= i < 4 ==> InRectangle(Corners(w, h)[i], w, h);
    }
    if w <= 32767 && h <= 32767 {
      if CornersShown(b, t, w, h) { ShownCornersProper(t, w, h); }
      if Proper(t, w, h) { ProperCornersShown(t, w, h); }
    }
  }

  lemma ShownCornersProper(t: Transform, w: nat, h: nat)
    requires w <= 32767 && h <= 32767 && CornersShown(BoundsOf(t, Corners(w, h), 4), t, w, h)
    ensures Proper(t, w, h)
  {
    var cs := Corners(w, h);
    var b := BoundsOf(t, cs, 4);
    var range := Box(-32767, -32767, 32767, 32767);
    assert forall i :: 0 <= i < 4 ==> Holds(range, Image(t, cs[i]));
    BoundsAreLeast(t, cs, 4, range);
    forall i | 0 <= i < 4 ensures Dot(t.r2, cs[i]) > 0.0 && TransformPoint(t, cs[i]).Some? {
      assert Shown(b, t, cs[i]) && Holds(range, TrueImage(t, cs[i]));
    }
  }

  predicate IsIdentity(t: Transform) {
    t.r0 == Row(1.0, 0.0, 0.0) && t.r1 == Row(0.0, 1.0, 0.0) && t.r2 == Row(0.0, 0.0, 1.0)
  }

  /** Without a transform the box is the rotated mode itself. */
  lemma IdentityBox(m: Mode, r: Rotation, t: Transform)
    requires IsIdentity(t)
    ensures ModeBox(m, r, t) == Box(0, 0, ModeWidth(m, r), ModeHeight(m, r))
  {
    var w, h := ModeWidth(m, r), ModeHeight(m, r);
    var cs := Corners(w, h);
    forall i | 0 <= i < 4 ensures Image(t, cs[i]) == cs[i] {
      IdentityImage(t, cs[i]);
    }
    assert Cell(cs[0]) == Box(0, 0, 0, 0) && Cell(cs[1]) == Box(w, 0, w, 0);
    assert Cell(cs[2]) == Box(w, h, w, h) && Cell(cs[3]) == Box(0, h, 0, h);
    assert BoundsOf(t, cs, 1) == Box(0, 0, 0, 0);
    assert BoundsOf(t, cs, 2) == Box(0, 0, w, 0);
    assert BoundsOf(t, cs, 3) == Box(0, 0, w, h);
  }

  lemma IdentityImage(t: Transform, p: Point)
    requires IsIdentity(t)
    ensures Image(t, p) == p
  {
    assert Dot(t.r2, p) == 1.0 && Dot(t.r0, p) == p.x && Dot(t.r1, p) == p.y;
  }
}
