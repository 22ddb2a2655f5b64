/** A path judged by its points lies in the box as a whole: every point of every line and
    curve, and of every rectangle drawn under a matrix that keeps the axes. */
module Curves {
  import opened Wrappers
  import opened Geometry
  import opened Paths
  import opened PathsProof

  function Mix(x: real, y: real, t: real): real {
    x + t * (y - x)
  }

  function Lerp(p: Point, q: Point, t: real): Point {
    Point(Mix(p.x, q.x, t), Mix(p.y, q.y, t))
  }

  /** The cubic curve of section 8.5.2.2, by repeated interpolation. */
  function Bezier(p0: Point, p1: Point, p2: Point, p3: Point, t: real): Point {
    var a, b, c := Lerp(p0, p1, t), Lerp(p1, p2, t), Lerp(p2, p3, t);
    Lerp(Lerp(a, b, t), Lerp(b, c, t), t)
  }

  lemma ProductIsPositive(x: real, y: real)
    requires 0.0 <= x && 0.0 <= y
    ensures 0.0 <= x * y
  {
  }

  lemma Portion(t: real, d: real) returns (k: real)
    requires 0.0 <= t <= 1.0
    ensures k == t * d
    ensures if 0.0 <= d then 0.0 <= k <= d else d <= k <= 0.0
  {
    var e := if 0.0 <= d then d else -d;
    ProductIsPositive(t, e);
    ProductIsPositive(1.0 - t, e);
    assert (1.0 - t) * e == e - t * e;
    k := t * d;
    assert k == if 0.0 <= d then t * e else -(t * e);
  }

  lemma BetweenIn(x: real, y: real, t: real, lo: real, hi: real)
    requires 0.0 <= t <= 1.0 && lo <= x <= hi && lo <= y <= hi
    ensures lo <= Mix(x, y, t) <= hi
  {
    var k := Portion(t, y - x);
    assert lo <= x + k <= hi;
  }

  lemma LerpIn(p: Point, q: Point, t: real, b: Box)
    requires 0.0 <= t <= 1.0 && In(p, b) && In(q, b)
    ensures In(Lerp(p, q, t), b)
  {
    BetweenIn(p.x, q.x, t, b.x0, b.x1);
    BetweenIn(p.y, q.y, t, b.y0, b.y1);
  }

  lemma BezierIn(p0: Point, p1: Point, p2: Point, p3: Point, t: real, b: Box)
    requires 0.0 <= t <= 1.0 && In(p0, b) && In(p1, b) && In(p2, b) && In(p3, b)
    ensures In(Bezier(p0, p1, p2, p3, t), b)
  {
    var u, v, w := Lerp(p0, p1, t), Lerp(p1, p2, t), Lerp(p2, p3, t);
    LerpIn(p0, p1, t, b);
    LerpIn(p1, p2, t, b);
    LerpIn(p2, p3, t, b);
    LerpIn(u, v, t, b);
    LerpIn(v, w, t, b);
    LerpIn(Lerp(u, v, t), Lerp(v, w, t), t, b);
  }

  lemma MixAffine(a: real, c: real, e: real, px: real, py: real, qx: real, qy: real, t: real)
    ensures Affine(a, c, e, Mix(px, qx, t), Mix(py, qy, t)) == Mix(Affine(a, c, e, px, py), Affine(a, c, e, qx, qy), t)
  {
  }

  lemma ApplyLerp(m: Matrix, p: Point, q: Point, t: real)
    ensures Apply(m, Lerp(p, q, t)) == Lerp(Apply(m, p), Apply(m, q), t)
  {
    MixAffine(m.a, m.c, m.e, p.x, p.y, q.x, q.y, t);
    MixAffine(m.b, m.d, m.f, p.x, p.y, q.x, q.y, t);
  }

  /** A matrix maps a curve to the curve of its mapped points: judging in device space is
      judging the curve the stream draws. */
  lemma ApplyBezier(m: Matrix, p0: Point, p1: Point, p2: Point, p3: Point, t: real)
    ensures Apply(m, Bezier(p0, p1, p2, p3, t))
         == Bezier(Apply(m, p0), Apply(m, p1), Apply(m, p2), Apply(m, p3), t)
  {
    var u, v, w := Lerp(p0, p1, t), Lerp(p1, p2, t), Lerp(p2, p3, t);
    ApplyLerp(m, p0, p1, t);
    ApplyLerp(m, p1, p2, t);
    ApplyLerp(m, p2, p3, t);
    ApplyLerp(m, u, v, t);
    ApplyLerp(m, v, w, t);
    ApplyLerp(m, Lerp(u, v, t), Lerp(v, w, t), t);
  }

  // ---------------------------------------------------------- points of a path

  /** The current point and the start of the subpath, in device space. */
  datatype Tip = Tip(current: Option<Point>, start: Option<Point>)

  function TipAfter(pl: Placed, t: Tip): Tip {
    var m := pl.ctm;
    match pl.segment
    case MoveTo(p) => Tip(Some(Apply(m, p)), Some(Apply(m, p)))
    case LineTo(p) => t.(current := Some(Apply(m, p)))
    case CurveTo(_, _, p) => t.(current := Some(Apply(m, p)))
    case CurveV(_, p) => t.(current := Some(Apply(m, p)))
    case CurveY(_, p) => t.(current := Some(Apply(m, p)))
    case ClosePath => t.(current := t.start)
    case Rectangle(o, _, _) => Tip(Some(Apply(m, o)), Some(Apply(m, o)))
  }

  function TipOf(path: seq<Placed>): Tip {
    if path == [] then Tip(None, None) else TipAfter(path[|path| - 1], TipOf(path[..|path| - 1]))
  }

  /** The point at parameter t of what one operator draws from the tip; a rectangle's four
      sides are numbered. */
  function Traced(pl: Placed, tip: Tip, side: nat, t: real): Option<Point> {
    var m := pl.ctm;
    match pl.segment
    case MoveTo(p) => None
    case LineTo(p) => if tip.current.Some? then Some(Lerp(tip.current.value, Apply(m, p), t)) else None
    case CurveTo(c1, c2, p) =>
      if tip.current.Some? then Some(Bezier(tip.current.value, Apply(m, c1), Apply(m, c2), Apply(m, p), t)) else None
    case CurveV(c2, p) =>
      if tip.current.Some? then Some(Bezier(tip.current.value, tip.current.value, Apply(m, c2), Apply(m, p), t))
      else None
    case CurveY(c1, p) =>
      if tip.current.Some? then Some(Bezier(tip.current.value, Apply(m, c1), Apply(m, p), Apply(m, p), t)) else None
    case ClosePath =>
      if tip.current.Some? && tip.start.Some? then Some(Lerp(tip.current.value, tip.start.value, t)) else None
    case Rectangle(o, w, h) =>
      var a, b := Apply(m, o), Apply(m, Point(o.x + w, o.y));
      var c, d := Apply(m, Point(o.x + w, o.y + h)), Apply(m, Point(o.x, o.y + h));
      if side == 0 then Some(Lerp(a, b, t)) else if side == 1 then Some(Lerp(b, c, t))
      else if side == 2 then Some(Lerp(c, d, t)) else Some(Lerp(d, a, t))
  }

  /** q is a point of the k-th operator's line or curve. */
  ghost predicate OnPath(path: seq<Placed>, k: nat, side: nat, t: real, q: Point) {
    k < |path| && 0.0 <= t <= 1.0 && Traced(path[k], TipOf(path[..k]), side, t) == Some(q)
  }

  /** Horizontal stays horizontal or becomes vertical, and likewise for vertical. */
  predicate KeepsAxes(m: Matrix) {
    (m.a == 0.0 || m.c == 0.0) && (m.b == 0.0 || m.d == 0.0)
  }

  predicate RectanglesKeepAxes(path: seq<Placed>) {
    forall i :: 0 <= i < |path| && path[i].segment.Rectangle? ==> KeepsAxes(path[i].ctm)
  }

  ghost predicate TipIn(t: Tip, b: Box) {
    (t.current.Some? ==> In(t.current.value, b)) && (t.start.Some? ==> In(t.start.value, b))
  }

  lemma {:induction false} PrefixPoints(path: seq<Placed>, k: nat, b: Box)
    requires k <= |path| && AllIn(PlacedPoints(path), b)
    ensures AllIn(PlacedPoints(path[..k]), b)
    decreases |path|
  {
    if k == |path| {
      assert path[..k] == path;
    } else {
      assert path[..|path| - 1][..k] == path[..k];
      var last := path[|path| - 1];
      AllInParts(PlacedPoints(path[..|path| - 1]), ApplyAll(last.ctm, PointsOf(last.segment)), b);
      PrefixPoints(path[..|path| - 1], k, b);
    }
  }

  /** The mapped points of one operator are in the box. */
  predicate SegmentIn(pl: Placed, b: Box) {
    AllIn(ApplyAll(pl.ctm, PointsOf(pl.segment)), b)
  }

  lemma AllInParts(ps: seq<Point>, qs: seq<Point>, b: Box)
    requires AllIn(ps + qs, b)
    ensures AllIn(ps, b) && AllIn(qs, b)
  {
    assert forall i :: 0 <= i < |ps| ==> ps[i] == (ps + qs)[i];
    assert forall i :: 0 <= i < |qs| ==> qs[i] == (ps + qs)[|ps| + i];
  }

  lemma LastPoints(path: seq<Placed>, b: Box)
    requires path != [] && AllIn(PlacedPoints(path), b)
    ensures SegmentIn(path[|path| - 1], b)
  {
  }

  /** Any operator leaves the tip in the box. */
  lemma TipStaysIn(pl: Placed, t: Tip, b: Box)
    requires SegmentIn(pl, b) && TipIn(t, b)
    ensures TipIn(TipAfter(pl, t), b)
  {
    var ps := PointsOf(pl.segment);
    var qs := ApplyAll(pl.ctm, ps);
    if ps != [] {
      assert In(qs[0], b) && In(qs[|ps| - 1], b);
    }
  }

  lemma {:induction false} TipsIn(path: seq<Placed>, b: Box)
    requires AllIn(PlacedPoints(path), b)
    ensures TipIn(TipOf(path), b)
    decreases |path|
  {
    if path != [] {
      PrefixPoints(path, |path| - 1, b);
      TipsIn(path[..|path| - 1], b);
      LastPoints(path, b);
      TipStaysIn(path[|path| - 1], TipOf(path[..|path| - 1]), b);
    }
  }

  /** One coordinate of a corner, when it depends on one coordinate only. */
  lemma CornerCoordinate(a: real, c: real, e: real, x: real, y: real, x': real, y': real)
    requires a == 0.0 || c == 0.0
    ensures Affine(a, c, e, x', y) == if a == 0.0 then Affine(a, c, e, x, y) else Affine(a, c, e, x', y')
    ensures Affine(a, c, e, x, y') == if a == 0.0 then Affine(a, c, e, x', y') else Affine(a, c, e, x, y)
  {
    if a == 0.0 {
      assert a * x == 0.0 && a * x' == 0.0;
    } else {
      assert c * y == 0.0 && c * y' == 0.0;
    }
  }

  /** Two opposite corners bound the other two when the axes are kept. */
  lemma CornersIn(m: Matrix, o: Point, far: Point, b: Box)
    requires KeepsAxes(m) && In(Apply(m, o), b) && In(Apply(m, far), b)
    ensures In(Apply(m, Point(far.x, o.y)), b) && In(Apply(m, Point(o.x, far.y)), b)
  {
    hide Affine;
    CornerCoordinate(m.a, m.c, m.e, o.x, o.y, far.x, far.y);
    CornerCoordinate(m.b, m.d, m.f, o.x, o.y, far.x, far.y);
  }

  /** ... and for no other matrix: a rotated or skewed rectangle can stick out. */
  lemma CornersNeedAxes(m: Matrix) returns (o: Point, w: real, h: real, b: Box)
    requires !KeepsAxes(m)
    ensures In(Apply(m, o), b) && In(Apply(m, Point(o.x + w, o.y + h)), b)
    ensures !In(Apply(m, Point(o.x + w, o.y)), b)
  {
    o, w := Point(0.0, 0.0), 1.0;
    if m.a != 0.0 && m.c != 0.0 {
      h := -2.0 * m.a / m.c;
      assert m.c * h == -2.0 * m.a;
    } else {
      h := -2.0 * m.b / m.d;
      assert m.d * h == -2.0 * m.b;
    }
    var far := Apply(m, Point(w, h));
    b := Box(Min(m.e, far.x), Min(m.f, far.y), Max(m.e, far.x), Max(m.f, far.y));
    assert Apply(m, o) == Point(m.e, m.f);
    assert Apply(m, Point(w, 0.0)) == Point(m.a + m.e, m.b + m.f);
  }

  lemma TracedIn(pl: Placed, tip: Tip, side: nat, t: real, b: Box)
    requires TipIn(tip, b) && 0.0 <= t <= 1.0
    requires SegmentIn(pl, b)
    requires pl.segment.Rectangle? ==> KeepsAxes(pl.ctm)
    ensures Traced(pl, tip, side, t).Some? ==> In(Traced(pl, tip, side, t).value, b)
  {
    var m, ps := pl.ctm, PointsOf(pl.segment);
    assert forall i :: 0 <= i < |ps| ==> In(Apply(m, ps[i]), b) by {
      assert forall i :: 0 <= i < |ps| ==> ApplyAll(m, ps)[i] == Apply(m, ps[i]);
    }
    if pl.segment.Rectangle? {
      var o, w, h := pl.segment.corner, pl.segment.w, pl.segment.h;
      assert In(Apply(m, ps[0]), b) && In(Apply(m, ps[1]), b);
      CornersIn(m, o, Point(o.x + w, o.y + h), b);
      var p, q := Apply(m, o), Apply(m, Point(o.x + w, o.y));
      var r, s := Apply(m, Point(o.x + w, o.y + h)), Apply(m, Point(o.x, o.y + h));
      LerpIn(p, q, t, b);
      LerpIn(q, r, t, b);
      LerpIn(r, s, t, b);
      LerpIn(s, p, t, b);
    } else if tip.current.Some? {
      var c := tip.current.value;
      match pl.segment {
        case MoveTo(_) =>
        case LineTo(p) => LerpIn(c, Apply(m, ps[0]), t, b);
        case CurveTo(_, _, _) => BezierIn(c, Apply(m, ps[0]), Apply(m, ps[1]), Apply(m, ps[2]), t, b);
        case CurveV(_, _) => BezierIn(c, c, Apply(m, ps[0]), Apply(m, ps[1]), t, b);
        case CurveY(_, _) => BezierIn(c, Apply(m, ps[0]), Apply(m, ps[1]), Apply(m, ps[1]), t, b);
        case ClosePath => if tip.start.Some? { LerpIn(c, tip.start.value, t, b); }
      }
    }
  }

  /** A path that may be erased lies, with every point of every line and curve of it, near one
      box: no farther out than one unit or a quarter of its height. */
  lemma ErasedPathLiesInside(path: seq<Placed>, boxes: seq<Box>) returns (box: Box)
    requires Inside(PlacedPoints(path), boxes) && RectanglesKeepAxes(path)
    ensures box in boxes
    ensures forall k: nat, side: nat, t, q :: OnPath(path, k, side, t, q) ==> Near(q, box)
  {
    hide Near, Padded;
    box :| box in boxes && AllIn(PlacedPoints(path), Padded(box));
    forall k: nat, side: nat, t, q | OnPath(path, k, side, t, q) ensures Near(q, box) {
      PrefixPoints(path, k + 1, Padded(box));
      assert path[..k + 1][..k] == path[..k];
      PrefixPoints(path, k, Padded(box));
      TipsIn(path[..k], Padded(box));
      LastPoints(path[..k + 1], Padded(box));
      TracedIn(path[k], TipOf(path[..k]), side, t, Padded(box));
      PaddedIsNear(q, box);
    }
  }
}
