/** When a path is erased, read off the stream itself (app/pdftools/paths.py:39-120): by the
    operands of its construction operators, the numbers of the matrices they stand under and
    those of the boxes. */
module EraseReading {
  import opened Wrappers
  import opened Geometry
  import opened Paths
  import opened PathsProof
  import opened PageErase

  /** A point among the operands of a construction operator; of a rectangle, a listed corner
      or the one opposite. */
  predicate Operand(s: Segment, q: Point) {
    match s
    case MoveTo(p) => q == p
    case LineTo(p) => q == p
    case CurveTo(c1, c2, p) => q == c1 || q == c2 || q == p
    case CurveV(c2, p) => q == c2 || q == p
    case CurveY(c1, p) => q == c1 || q == p
    case ClosePath => false
    case Rectangle(o, w, h) => q == o || (q.x - o.x == w && q.y - o.y == h)
  }

  /** [x y 1] times the matrix. */
  function OnDevice(m: Matrix, q: Point): Point {
    Point(m.a * q.x + m.c * q.y + m.e, m.b * q.x + m.d * q.y + m.f)
  }

  lemma ApplyIsOnDevice(m: Matrix, q: Point)
    ensures Apply(m, q) == OnDevice(m, q)
  {
  }

  lemma OperandsAre(s: Segment, q: Point)
    ensures q in PointsOf(s) <==> Operand(s, q)
  {
    if s.Rectangle? && Operand(s, q) && q != s.corner {
      assert q == Point(s.corner.x + s.w, s.corner.y + s.h);
      assert q == PointsOf(s)[1];
    }
  }

  /** All operands of one operator, mapped, are near the box. */
  ghost predicate OperatorNear(pl: Placed, b: Box) {
    forall q :: Operand(pl.segment, q) ==> Near(OnDevice(pl.ctm, q), b)
  }

  predicate AllNear(ps: seq<Point>, b: Box) {
    forall p :: p in ps ==> Near(p, b)
  }

  lemma OperatorNearExactly(pl: Placed, b: Box)
    ensures AllNear(ApplyAll(pl.ctm, PointsOf(pl.segment)), b) <==> OperatorNear(pl, b)
  {
    hide Near, OnDevice, Apply, Operand, PointsOf;
    var ps := PointsOf(pl.segment);
    var qs := ApplyAll(pl.ctm, ps);
    forall q ensures q in ps <==> Operand(pl.segment, q) {
      OperandsAre(pl.segment, q);
    }
    forall q ensures Apply(pl.ctm, q) == OnDevice(pl.ctm, q) {
      ApplyIsOnDevice(pl.ctm, q);
    }
    forall q | q in ps ensures Apply(pl.ctm, q) in qs {
      var i :| 0 <= i < |ps| && ps[i] == q;
      assert qs[i] == Apply(pl.ctm, q);
    }
  }

  ghost predicate PathNear(path: seq<Placed>, b: Box) {
    forall i :: 0 <= i < |path| ==> OperatorNear(path[i], b)
  }

  lemma PathNearLast(path: seq<Placed>, b: Box)
    requires path != []
    ensures PathNear(path, b) <==> PathNear(path[..|path| - 1], b) && OperatorNear(path[|path| - 1], b)
  {
    hide OperatorNear;
  }

  lemma {:induction false} PathNearExactly(path: seq<Placed>, b: Box)
    ensures AllNear(PlacedPoints(path), b) <==> PathNear(path, b)
    decreases |path|
  {
    hide Near, OperatorNear, AllNear, PathNear;
    if path == [] {
      NothingNear(b);
    } else {
      var k := |path| - 1;
      PathNearExactly(path[..k], b);
      PathNearLast(path, b);
      OperatorNearExactly(path[k], b);
      NearTogether(PlacedPoints(path[..k]), ApplyAll(path[k].ctm, PointsOf(path[k].segment)), b);
    }
  }

  lemma NothingNear(b: Box)
    ensures AllNear([], b) && PathNear([], b)
  {
  }

  lemma NearTogether(a: seq<Point>, b: seq<Point>, box: Box)
    ensures AllNear(a + b, box) <==> AllNear(a, box) && AllNear(b, box)
  {
    hide Near;
  }

  /** Some construction operator has an operand: a path of h alone is no path. */
  predicate HasOperands(path: seq<Placed>) {
    exists i :: 0 <= i < |path| && !path[i].segment.ClosePath?
  }

  lemma HasOperandsLast(path: seq<Placed>)
    requires path != []
    ensures HasOperands(path) <==> HasOperands(path[..|path| - 1]) || !path[|path| - 1].segment.ClosePath?
  {
    var k := |path| - 1;
    if HasOperands(path[..k]) {
      var i :| 0 <= i < k && !path[..k][i].segment.ClosePath?;
      assert !path[i].segment.ClosePath?;
    }
    if HasOperands(path) {
      var i :| 0 <= i < |path| && !path[i].segment.ClosePath?;
      assert i < k ==> path[..k][i] == path[i];
    }
  }

  lemma {:induction false} PointsExactly(path: seq<Placed>)
    ensures PlacedPoints(path) != [] <==> HasOperands(path)
    decreases |path|
  {
    if path != [] {
      var k := |path| - 1;
      PointsExactly(path[..k]);
      HasOperandsLast(path);
      hide HasOperands;
      assert PlacedPoints(path) == PlacedPoints(path[..k]) + ApplyAll(path[k].ctm, PointsOf(path[k].segment));
    }
  }

  /** A painting may disappear exactly when it is no clip, something was constructed, and one
      box has every operand, mapped by the matrix it was met under, no farther out than one
      unit or a quarter of the box's height. */
  lemma ErasedExactly(kind: nat, path: seq<Placed>, clipping: bool, g: Graphics, boxes: seq<Box>)
    ensures Erased(Painted(kind, path, clipping, g), boxes) <==>
            !clipping && HasOperands(path) && exists b :: b in boxes && PathNear(path, b)
  {
    hide Near, OperatorNear, HasOperands, Inside, PathNear;
    var ps := PlacedPoints(path);
    InsideExactly(ps, boxes);
    PointsExactly(path);
    forall b ensures AllNear(ps, b) <==> PathNear(path, b) {
      PathNearExactly(path, b);
    }
    if b :| b in boxes && forall p :: p in ps ==> Near(p, b) {
      assert AllNear(ps, b);
    }
  }

  // ------------------------------------------------------- through a page's forms

  /** Where a form within a form draws a point: first by its own matrix, then by the one around
      it, then by the page's, and measured from the corner of the media box. */
  function Seen(q: Point, inner: Matrix, outer: Matrix, page: Matrix, left: real, bottom: real): Point {
    var p := OnDevice(page, OnDevice(outer, OnDevice(inner, q)));
    Point(p.x - left, p.y - bottom)
  }

  function Combined(inner: Matrix, outer: Matrix, page: Matrix, left: real, bottom: real): Matrix {
    Mul(inner, Mul(outer, Mul(page, PageFrame(left, bottom).ctm)))
  }

  lemma SeenIsCombined(q: Point, inner: Matrix, outer: Matrix, page: Matrix, left: real, bottom: real)
    ensures OnDevice(Combined(inner, outer, page, left, bottom), q) == Seen(q, inner, outer, page, left, bottom)
  {
    var f := PageFrame(left, bottom).ctm;
    var p1 := Apply(inner, q);
    var p2 := Apply(outer, p1);
    MulActsInOrder(inner, Mul(outer, Mul(page, f)), q);
    MulActsInOrder(outer, Mul(page, f), p1);
    MulActsInOrder(page, f, p2);
    hide Mul, Affine;
    ApplyIsOnDevice(Combined(inner, outer, page, left, bottom), q);
    ApplyIsOnDevice(inner, q);
    ApplyIsOnDevice(outer, p1);
    ApplyIsOnDevice(page, p2);
    FromCorner(Apply(page, p2), left, bottom);
  }

  lemma FromCorner(p: Point, left: real, bottom: real)
    ensures Apply(PageFrame(left, bottom).ctm, p) == Point(p.x - left, p.y - bottom)
  {
  }

  predicate Constructs(builds: seq<Segment>) {
    exists i :: 0 <= i < |builds| && !builds[i].ClosePath?
  }

  ghost predicate SeenNear(builds: seq<Segment>, inner: Matrix, outer: Matrix, page: Matrix, left: real, bottom: real,
                           b: Box)
  {
    forall i, q :: 0 <= i < |builds| && Operand(builds[i], q) ==> Near(Seen(q, inner, outer, page, left, bottom), b)
  }

  /** Something was constructed, and one box has every operand near where it is seen. */
  ghost predicate SeenInside(builds: seq<Segment>, inner: Matrix, outer: Matrix, page: Matrix, left: real,
                             bottom: real, boxes: seq<Box>)
  {
    Constructs(builds) && exists b :: b in boxes && SeenNear(builds, inner, outer, page, left, bottom, b)
  }

  lemma SeenNearExactly(builds: seq<Segment>, inner: Matrix, outer: Matrix, page: Matrix, left: real, bottom: real,
                        boxes: seq<Box>)
    ensures Inside(DevicePoints(builds, Combined(inner, outer, page, left, bottom)), boxes) <==>
            SeenInside(builds, inner, outer, page, left, bottom, boxes)
  {
    hide Combined, Near, Inside, Seen, OnDevice, Operand;
    var ctm := Combined(inner, outer, page, left, bottom);
    var path := Place(builds, ctm);
    PlacedPointsAre(builds, ctm);
    var g := Graphics(ctm, [], []);
    ErasedExactly(0, path, false, g, boxes);
    forall q ensures OnDevice(ctm, q) == Seen(q, inner, outer, page, left, bottom) {
      SeenIsCombined(q, inner, outer, page, left, bottom);
    }
    forall b ensures PathNear(path, b) <==> SeenNear(builds, inner, outer, page, left, bottom, b) {
      if PathNear(path, b) {
        forall i, q | 0 <= i < |builds| && Operand(builds[i], q)
          ensures Near(Seen(q, inner, outer, page, left, bottom), b) {
          assert OperatorNear(path[i], b);
        }
      }
    }
    assert HasOperands(path) <==> Constructs(builds) by {
      assert forall i :: 0 <= i < |builds| ==> path[i].segment == builds[i];
    }
  }

  /** One path and its painting operator, walked. */
  lemma PathWalks(builds: seq<Segment>, kind: nat, f: Frame, boxes: seq<Box>, res: Resources, forms: Forms,
                  seen: set<nat>)
    ensures var gone := Inside(DevicePoints(builds, f.ctm), boxes);
            Walk(AsOps(builds) + [Paint(kind)], Start(f), boxes, res, forms, seen)
            == Walked(if gone then [] else AsOps(builds) + [Paint(kind)], if gone then 1 else 0, forms, seen)
  {
    var c := GatheredAll(builds, Start(f));
    WalkBuilds(builds, [Paint(kind)], Start(f), boxes, res, forms, seen);
    assert [] + builds == builds;
    assert c == Cursor(f, builds, DevicePoints(builds, f.ctm));
    WalkOpStep(Paint(kind), [], c, boxes, res, forms, seen, Walked([], 0, forms, seen),
               Walk([], After(Paint(kind), c), boxes, res, forms, seen));
    assert [Paint(kind)] + [] == [Paint(kind)];
    WalkDone(After(Paint(kind), c), boxes, res, forms, seen);
    assert AsOps(builds) + [Paint(kind)] + [] == AsOps(builds) + [Paint(kind)];
  }

  /** A form that only draws another one, walked. */
  lemma DrawerWalks(name: string, f: Frame, boxes: seq<Box>, res: Resources, forms: Forms, seen: set<nat>, id: nat)
    requires res.Some? && name in res.value && res.value[name] == id && id in forms
    ensures var e := EraseForm(Some(id), f.ctm, boxes, res, forms, seen);
            Walk([Do(name)], Start(f), boxes, res, forms, seen) == Walked([Do(name)], e.dropped, e.forms, e.seen)
  {
    var c := Start(f);
    var e := Visit(Do(name), c, boxes, res, forms, seen);
    hide EraseForm;
    WalkOpStep(Do(name), [], c, boxes, res, forms, seen, e, Walk([], After(Do(name), c), boxes, res, e.forms, e.seen));
    assert [Do(name)] + [] == [Do(name)];
    WalkDone(After(Do(name), c), boxes, res, e.forms, e.seen);
  }

  lemma MoveWalks(m: Matrix, ops: seq<Op>, f: Frame, boxes: seq<Box>, res: Resources, forms: Forms, seen: set<nat>)
    ensures var w := Walk(ops, Start(f.(ctm := Mul(m, f.ctm))), boxes, res, forms, seen);
            Walk([Concat(m)] + ops, Start(f), boxes, res, forms, seen) == w.(kept := [Concat(m)] + w.kept)
  {
    hide Mul;
    var c := Start(f);
    var w := Walk(ops, After(Concat(m), c), boxes, res, forms, seen);
    WalkOpStep(Concat(m), ops, c, boxes, res, forms, seen, Walked([], 0, forms, seen), w);
    assert AsOps([]) + [Concat(m)] + w.kept == [Concat(m)] + w.kept;
  }

  /** The same for a page that draws a form which draws another one, by the names each finds in
      its own resources or, without any, in those around it: the inner form's only path is
      erased exactly when all of it is seen inside one padded box. Nothing else of the page or of its forms changes. */
  lemma NestedExactly(m: Matrix, name: string, within: string, builds: seq<Segment>, kind: nat,
                      page: map<string, nat>, forms: Forms, outer: nat, inner: nat, boxes: seq<Box>, left: real,
                      bottom: real)
    requires boxes != [] && outer in forms && inner in forms && outer != inner && name in page && page[name] == outer
    requires forms[outer].ops == [Do(within)] && forms[inner].ops == AsOps(builds) + [Paint(kind)]
    requires forms[outer].resources.Some? ==>
               within in forms[outer].resources.value && forms[outer].resources.value[within] == inner
    requires forms[outer].resources.None? ==> within in page && page[within] == inner
    ensures var contents := Some([Concat(m), Do(name)]);
            var gone := SeenInside(builds, forms[inner].matrix, forms[outer].matrix, m, left, bottom, boxes);
            ErasedPage(contents, boxes, left, bottom, Some(page), forms)
            == Outcome(contents, if gone then forms[inner := forms[inner].(ops := [])] else forms,
                       if gone then 1 else 0)
  {
    hide Mul, Inside, Combined, SeenInside, Walk;
    var f := PageFrame(left, bottom);
    var f1 := f.(ctm := Mul(m, f.ctm));
    var f2 := StartOf(forms[outer], f1.ctm).frame;
    var f3 := StartOf(forms[inner], f2.ctm).frame;
    var res := if forms[outer].resources.Some? then forms[outer].resources else Some(page);
    SeenNearExactly(builds, forms[inner].matrix, forms[outer].matrix, m, left, bottom, boxes);
    CombinedIs(forms[inner].matrix, forms[outer].matrix, m, left, bottom);
    PathWalks(builds, kind, f3, boxes, Inherited(forms[inner], res), forms, {outer} + {inner});
    DrawerWalks(within, f2, boxes, res, forms, {outer}, inner);
    DrawerWalks(name, f1, boxes, Some(page), forms, {}, outer);
    MoveWalks(m, [Do(name)], f, boxes, Some(page), forms, {});
    assert [Concat(m)] + [Do(name)] == [Concat(m), Do(name)];
    assert {} + {outer} == {outer};
  }

  lemma CombinedIs(inner: Matrix, outer: Matrix, page: Matrix, left: real, bottom: real)
    ensures Combined(inner, outer, page, left, bottom)
         == Mul(inner, Mul(outer, Mul(page, PageFrame(left, bottom).ctm)))
  {
  }
}
