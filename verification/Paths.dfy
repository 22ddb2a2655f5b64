/** Erasing painted paths inside placeholder boxes (app/pdftools/paths.py): one pass over a
    stream's operators, tracking the current matrix, and into the forms it draws. */
module Paths {
  import opened Wrappers
  import opened Geometry

  /** Path construction operators m, l, c, v, y, h and re (section 8.5.2 of ISO 32000-1). */
  datatype Segment =
    | MoveTo(p: Point) | LineTo(p: Point)
    | CurveTo(c1: Point, c2: Point, p: Point) | CurveV(c2: Point, p: Point) | CurveY(c1: Point, p: Point)
    | ClosePath | Rectangle(corner: Point, w: real, h: real)

  datatype Op =
    | Build(segment: Segment)
    | Paint(kind: nat)          // S s f F f* B B* b b*
    | EndPath | Clip            // n, W and W*
    | Save | Restore | Concat(m: Matrix)
    | Do(name: string)
    | Other(id: nat)

  datatype Box = Box(x0: real, y0: real, x1: real, y1: real)

  /** Which forms the names of a resource dictionary stand for. An empty or missing
      dictionary is None, one without forms Some(map[]). */
  type Resources = Option<map<string, nat>>

  datatype Form = Form(matrix: Matrix, ops: seq<Op>, resources: Resources)

  type Forms = map<nat, Form>

  // ------------------------------------------------------------- geometry

  /** The operands of a construction operator taken in pairs; two corners of a rectangle. */
  function PointsOf(s: Segment): seq<Point> {
    match s
    case MoveTo(p) => [p]
    case LineTo(p) => [p]
    case CurveTo(c1, c2, p) => [c1, c2, p]
    case CurveV(c2, p) => [c2, p]
    case CurveY(c1, p) => [c1, p]
    case ClosePath => []
    case Rectangle(o, w, h) => [o, Point(o.x + w, o.y + h)]
  }

  function ApplyAll(m: Matrix, ps: seq<Point>): (qs: seq<Point>)
    ensures |qs| == |ps| && forall i :: 0 <= i < |ps| ==> qs[i] == Apply(m, ps[i])
  {
    if ps == [] then [] else [Apply(m, ps[0])] + ApplyAll(m, ps[1..])
  }

  function Max(x: real, y: real): real {
    if x < y then y else x
  }

  function Min(x: real, y: real): real {
    if y < x then y else x
  }

  /** The box grown by a quarter of its height, and by no less than one unit. */
  function Padded(b: Box): Box {
    var pad := Max(1.0, (b.y1 - b.y0) * 0.25);
    Box(b.x0 - pad, b.y0 - pad, b.x1 + pad, b.y1 + pad)
  }

  predicate In(p: Point, b: Box) {
    b.x0 <= p.x <= b.x1 && b.y0 <= p.y <= b.y1
  }

  predicate AllIn(ps: seq<Point>, b: Box) {
    forall i :: 0 <= i < |ps| ==> In(ps[i], b)
  }

  predicate Inside(ps: seq<Point>, boxes: seq<Box>) {
    ps != [] && exists b :: b in boxes && AllIn(ps, Padded(b))
  }

  /** No farther out than one unit, or than a quarter of the box's height. */
  predicate WithinPad(out: real, b: Box) {
    out <= 1.0 || 4.0 * out <= b.y1 - b.y0
  }

  predicate Near(p: Point, b: Box) {
    && WithinPad(b.x0 - p.x, b) && WithinPad(p.x - b.x1, b)
    && WithinPad(b.y0 - p.y, b) && WithinPad(p.y - b.y1, b)
  }

  lemma PaddedIsNear(p: Point, b: Box)
    ensures In(p, Padded(b)) <==> Near(p, b)
  {
  }

  /** There are points, and one box has all of them near. */
  lemma InsideExactly(ps: seq<Point>, boxes: seq<Box>)
    ensures Inside(ps, boxes) <==> ps != [] && exists b :: b in boxes && forall p :: p in ps ==> Near(p, b)
  {
    hide Near, Padded, In;
    forall b ensures AllIn(ps, Padded(b)) <==> forall p :: p in ps ==> Near(p, b) {
      forall p ensures In(p, Padded(b)) <==> Near(p, b) {
        PaddedIsNear(p, b);
      }
    }
  }

  /** The bounds of the points against each box in turn. */
  method InsideByBounds(ps: seq<Point>, boxes: seq<Box>) returns (inside: bool)
    ensures inside == Inside(ps, boxes)
  {
    if ps == [] {
      return false;
    }
    var lo, hi := ps[0], ps[0];
    for i := 0 to |ps|
      invariant forall j :: 0 <= j < i ==> lo.x <= ps[j].x <= hi.x && lo.y <= ps[j].y <= hi.y
      invariant exists j :: 0 <= j < |ps| && ps[j].x == lo.x
      invariant exists j :: 0 <= j < |ps| && ps[j].y == lo.y
      invariant exists j :: 0 <= j < |ps| && ps[j].x == hi.x
      invariant exists j :: 0 <= j < |ps| && ps[j].y == hi.y
    {
      lo := Point(Min(lo.x, ps[i].x), Min(lo.y, ps[i].y));
      hi := Point(Max(hi.x, ps[i].x), Max(hi.y, ps[i].y));
    }
    for k := 0 to |boxes|
      invariant forall j :: 0 <= j < k ==> !AllIn(ps, Padded(boxes[j]))
    {
      var b := Padded(boxes[k]);
      if lo.x >= b.x0 && hi.x <= b.x1 && lo.y >= b.y0 && hi.y <= b.y1 {
        assert AllIn(ps, b);
        return true;
      }
    }
    return false;
  }

  // ----------------------------------------------------- the declarative view

  /** A maximal run of construction operators with the operator that ends it. */
  datatype Item = Item(builds: seq<Segment>, closer: Option<Op>)

  function AsOps(builds: seq<Segment>): (ops: seq<Op>)
    ensures |ops| == |builds| && forall i :: 0 <= i < |ops| ==> ops[i] == Build(builds[i])
  {
    seq(|builds|, i requires 0 <= i < |builds| => Build(builds[i]))
  }

  function Parse(ops: seq<Op>, path: seq<Segment>): seq<Item> {
    if ops == [] then (if path == [] then [] else [Item(path, None)])
    else if ops[0].Build? then Parse(ops[1..], path + [ops[0].segment])
    else [Item(path, Some(ops[0]))] + Parse(ops[1..], [])
  }

  function PrintItem(i: Item): seq<Op> {
    AsOps(i.builds) + (if i.closer.Some? then [i.closer.value] else [])
  }

  function Print(items: seq<Item>): seq<Op> {
    if items == [] then [] else PrintItem(items[0]) + Print(items[1..])
  }

  /** The matrix and the saved ones, as q, Q and cm outside a path move them. */
  datatype Frame = Frame(ctm: Matrix, saved: seq<Matrix>)

  function Moved(op: Op, f: Frame): Frame {
    match op
    case Save => f.(saved := f.saved + [f.ctm])
    case Restore => if f.saved == [] then f else Frame(f.saved[|f.saved| - 1], f.saved[..|f.saved| - 1])
    case Concat(m) => f.(ctm := Mul(m, f.ctm))
    case _ => f
  }

  function FrameAfter(i: Item, f: Frame): Frame {
    if i.builds == [] && i.closer.Some? then Moved(i.closer.value, f) else f
  }

  function DevicePoints(builds: seq<Segment>, ctm: Matrix): seq<Point> {
    if builds == [] then []
    else DevicePoints(builds[..|builds| - 1], ctm) + ApplyAll(ctm, PointsOf(builds[|builds| - 1]))
  }

  /** A painted path all of whose points lie in one padded box. */
  predicate Doomed(i: Item, ctm: Matrix, boxes: seq<Box>) {
    i.builds != [] && i.closer.Some? && i.closer.value.Paint? && Inside(DevicePoints(i.builds, ctm), boxes)
  }

  function Surviving(items: seq<Item>, f: Frame, boxes: seq<Box>): seq<Item> {
    if items == [] then []
    else (if Doomed(items[0], f.ctm, boxes) then [] else [items[0]])
         + Surviving(items[1..], FrameAfter(items[0], f), boxes)
  }

  /** What is left of one stream. */
  function Filtered(ops: seq<Op>, f: Frame, boxes: seq<Box>): seq<Op> {
    Print(Surviving(Parse(ops, []), f, boxes))
  }

  lemma MoveBuild(path: seq<Segment>, ops: seq<Op>)
    requires ops != [] && ops[0].Build?
    ensures AsOps(path + [ops[0].segment]) + ops[1..] == AsOps(path) + ops
  {
  }

  lemma PrintFirst(i: Item, rest: seq<Item>)
    ensures Print([i] + rest) == PrintItem(i) + Print(rest)
  {
  }

  lemma {:induction false} PrintParse(ops: seq<Op>, path: seq<Segment>)
    ensures Print(Parse(ops, path)) == AsOps(path) + ops
    decreases |ops|
  {
    if ops == [] {
      if path != [] { PrintFirst(Item(path, None), []); }
    } else if ops[0].Build? {
      PrintParse(ops[1..], path + [ops[0].segment]);
      MoveBuild(path, ops);
    } else {
      PrintParse(ops[1..], []);
      PrintFirst(Item(path, Some(ops[0])), Parse(ops[1..], []));
      assert AsOps(path) + [ops[0]] + ops[1..] == AsOps(path) + ops;
      assert AsOps([]) + ops[1..] == ops[1..];
    }
  }

  // ------------------------------------------------------- the one-pass walk

  /** Where the walk stands inside a stream. */
  datatype Cursor = Cursor(frame: Frame, path: seq<Segment>, points: seq<Point>)

  datatype Walked = Walked(kept: seq<Op>, dropped: nat, forms: Forms, seen: set<nat>)

  function FormNamed(name: string, res: Resources, forms: Forms): Option<nat> {
    if res.Some? && name in res.value && res.value[name] in forms then Some(res.value[name]) else None
  }

  function StartOf(form: Form, ctm: Matrix): Cursor {
    Cursor(Frame(Mul(form.matrix, ctm), []), [], [])
  }

  function Inherited(form: Form, res: Resources): Resources {
    if form.resources.Some? then form.resources else res
  }

  /** The cursor once an operator has ended the path, or moved the frame outside one. */
  function After(op: Op, c: Cursor): Cursor {
    Cursor(if c.path != [] then c.frame else Moved(op, c.frame), [], [])
  }

  predicate SameShape(a: Forms, b: Forms) {
    && a.Keys == b.Keys
    && forall id :: id in a ==> a[id].matrix == b[id].matrix && a[id].resources == b[id].resources
  }

  /** Everything a walk leaves alone: the set of forms, their matrices and resources, and the
      operators of every form it does not newly visit. */
  ghost predicate Grows(forms: Forms, seen: set<nat>, forms': Forms, seen': set<nat>) {
    && seen <= seen' && SameShape(forms, forms')
    && forall id :: id in forms && (id in seen || id !in seen') ==> forms'[id] == forms[id]
  }

  function Walk(ops: seq<Op>, c: Cursor, boxes: seq<Box>, res: Resources, forms: Forms, seen: set<nat>): (w: Walked)
    ensures seen <= w.seen && w.forms.Keys == forms.Keys
    decreases forms.Keys - seen, |ops|
  {
    if ops == [] then Walked(AsOps(c.path), 0, forms, seen)
    else if ops[0].Build? then
      var s := ops[0].segment;
      Walk(ops[1..], c.(path := c.path + [s], points := c.points + ApplyAll(c.frame.ctm, PointsOf(s))),
           boxes, res, forms, seen)
    else
      var e := if c.path == [] && ops[0].Do?
               then EraseForm(FormNamed(ops[0].name, res, forms), c.frame.ctm, boxes, res, forms, seen)
               else Walked([], 0, forms, seen);
      var w := Walk(ops[1..], After(ops[0], c), boxes, res, e.forms, e.seen);
      if c.path != [] && ops[0].Paint? && Inside(c.points, boxes) then w.(dropped := w.dropped + 1)
      else w.(kept := AsOps(c.path) + [ops[0]] + w.kept, dropped := e.dropped + w.dropped)
  }

  function EraseForm(id: Option<nat>, ctm: Matrix, boxes: seq<Box>, res: Resources, forms: Forms,
                     seen: set<nat>): (w: Walked)
    ensures seen <= w.seen && w.forms.Keys == forms.Keys
    decreases forms.Keys - seen, 0
  {
    if id.None? || id.value in seen || id.value !in forms then Walked([], 0, forms, seen)
    else
      var form := forms[id.value];
      var w := Walk(form.ops, StartOf(form, ctm), boxes, Inherited(form, res), forms, seen + {id.value});
      if w.dropped == 0 then w else w.(forms := w.forms[id.value := form.(ops := w.kept)])
  }

  /** The form an operator makes the walk go into, if any. */
  function Visit(op: Op, c: Cursor, boxes: seq<Box>, res: Resources, forms: Forms, seen: set<nat>): Walked {
    if c.path == [] && op.Do? then EraseForm(FormNamed(op.name, res, forms), c.frame.ctm, boxes, res, forms, seen)
    else Walked([], 0, forms, seen)
  }

  /** The cursor once a construction operator has been gathered. */
  function Gathered(s: Segment, c: Cursor): Cursor {
    c.(path := c.path + [s], points := c.points + ApplyAll(c.frame.ctm, PointsOf(s)))
  }

  lemma {:induction false} WalkGrows(ops: seq<Op>, c: Cursor, boxes: seq<Box>, res: Resources, forms: Forms,
                          seen: set<nat>)
    ensures var w := Walk(ops, c, boxes, res, forms, seen); Grows(forms, seen, w.forms, w.seen)
    decreases forms.Keys - seen, |ops|
  {
    if ops == [] {
    } else if ops[0].Build? {
      WalkGrows(ops[1..], Gathered(ops[0].segment, c), boxes, res, forms, seen);
    } else {
      var e := Visit(ops[0], c, boxes, res, forms, seen);
      if c.path == [] && ops[0].Do? {
        EraseGrows(FormNamed(ops[0].name, res, forms), c.frame.ctm, boxes, res, forms, seen);
      }
      WalkGrows(ops[1..], After(ops[0], c), boxes, res, e.forms, e.seen);
    }
  }

  lemma {:induction false} EraseGrows(id: Option<nat>, ctm: Matrix, boxes: seq<Box>, res: Resources, forms: Forms,
                          seen: set<nat>)
    ensures var w := EraseForm(id, ctm, boxes, res, forms, seen); Grows(forms, seen, w.forms, w.seen)
    decreases forms.Keys - seen, 0
  {
    if id.Some? && id.value !in seen && id.value in forms {
      var form := forms[id.value];
      WalkGrows(form.ops, StartOf(form, ctm), boxes, Inherited(form, res), forms, seen + {id.value});
    }
  }

  // ---------------------------------------------- one pass = parse and filter

  /** The gathered points are those of the gathered path. */
  predicate Consistent(c: Cursor) {
    c.points == DevicePoints(c.path, c.frame.ctm)
  }

  lemma BuildConsistent(c: Cursor, s: Segment)
    requires Consistent(c)
    ensures Consistent(Gathered(s, c))
  {
  }

  lemma SurvivingSplit(i: Item, rest: seq<Item>, f: Frame, boxes: seq<Box>)
    ensures Surviving([i] + rest, f, boxes)
         == (if Doomed(i, f.ctm, boxes) then [] else [i]) + Surviving(rest, FrameAfter(i, f), boxes)
  {
  }

  lemma KeptItem(i: Item, rest: seq<Item>, f: Frame, boxes: seq<Box>)
    ensures Print(Surviving([i] + rest, f, boxes))
         == (if Doomed(i, f.ctm, boxes) then [] else PrintItem(i)) + Print(Surviving(rest, FrameAfter(i, f), boxes))
  {
    SurvivingSplit(i, rest, f, boxes);
    hide Surviving, Doomed, PrintItem, FrameAfter;
    var later := Surviving(rest, FrameAfter(i, f), boxes);
    PrintFirst(i, later);
    assert [] + later == later;
  }

  /** The filter of a stream, one item at a time. */
  lemma FilterStep(ops: seq<Op>, path: seq<Segment>, f: Frame, boxes: seq<Box>)
    requires ops != [] && !ops[0].Build?
    ensures var item := Item(path, Some(ops[0]));
            Print(Surviving(Parse(ops, path), f, boxes))
            == (if Doomed(item, f.ctm, boxes) then [] else AsOps(path) + [ops[0]])
               + Print(Surviving(Parse(ops[1..], []), FrameAfter(item, f), boxes))
  {
    KeptItem(Item(path, Some(ops[0])), Parse(ops[1..], []), f, boxes);
  }

  lemma FilterEnd(path: seq<Segment>, f: Frame, boxes: seq<Box>)
    ensures Print(Surviving(Parse([], path), f, boxes)) == AsOps(path)
  {
    if path != [] {
      KeptItem(Item(path, None), [], f, boxes);
      assert [Item(path, None)] + [] == [Item(path, None)];
    }
  }

  /** What the walk keeps of a stream is the declarative filter of it, whatever the forms
      it goes into on the way. */
  lemma {:induction false} WalkKeepsSurvivors(ops: seq<Op>, c: Cursor, boxes: seq<Box>, res: Resources, forms: Forms,
                          seen: set<nat>)
    requires Consistent(c)
    ensures Walk(ops, c, boxes, res, forms, seen).kept == Print(Surviving(Parse(ops, c.path), c.frame, boxes))
    decreases |ops|
  {
    if ops == [] {
      FilterEnd(c.path, c.frame, boxes);
    } else if ops[0].Build? {
      BuildConsistent(c, ops[0].segment);
      WalkKeepsSurvivors(ops[1..], Gathered(ops[0].segment, c), boxes, res, forms, seen);
    } else {
      FilterStep(ops, c.path, c.frame, boxes);
      var e := Visit(ops[0], c, boxes, res, forms, seen);
      WalkKeepsSurvivors(ops[1..], After(ops[0], c), boxes, res, e.forms, e.seen);
    }
  }

  lemma {:induction false} NothingDropped(ops: seq<Op>, c: Cursor, boxes: seq<Box>, res: Resources, forms: Forms,
                          seen: set<nat>)
    requires Walk(ops, c, boxes, res, forms, seen).dropped == 0
    ensures Walk(ops, c, boxes, res, forms, seen).kept == AsOps(c.path) + ops
    ensures Walk(ops, c, boxes, res, forms, seen).forms == forms
    decreases forms.Keys - seen, |ops|
  {
    if ops == [] {
      assert AsOps(c.path) + ops == AsOps(c.path);
    } else if ops[0].Build? {
      NothingDropped(ops[1..], Gathered(ops[0].segment, c), boxes, res, forms, seen);
      MoveBuild(c.path, ops);
    } else {
      var e := Visit(ops[0], c, boxes, res, forms, seen);
      if c.path == [] && ops[0].Do? {
        NothingErased(FormNamed(ops[0].name, res, forms), c.frame.ctm, boxes, res, forms, seen);
      }
      NothingDropped(ops[1..], After(ops[0], c), boxes, res, e.forms, e.seen);
      MoveOp(c.path, ops);
    }
  }

  lemma MoveOp(path: seq<Segment>, ops: seq<Op>)
    requires ops != []
    ensures AsOps(path) + [ops[0]] + (AsOps([]) + ops[1..]) == AsOps(path) + ops
  {
  }

  lemma {:induction false} NothingErased(id: Option<nat>, ctm: Matrix, boxes: seq<Box>, res: Resources, forms: Forms,
                          seen: set<nat>)
    requires EraseForm(id, ctm, boxes, res, forms, seen).dropped == 0
    ensures EraseForm(id, ctm, boxes, res, forms, seen).forms == forms
    decreases forms.Keys - seen, 0
  {
    if id.Some? && id.value !in seen && id.value in forms {
      var form := forms[id.value];
      NothingDropped(form.ops, StartOf(form, ctm), boxes, Inherited(form, res), forms, seen + {id.value});
    }
  }

  /** Every form the walk newly visits is left with the filter of its stream, under the
      matrix it was first drawn with. */
  ghost predicate FormFiltered(before: Form, after: Form, boxes: seq<Box>) {
    exists ctm :: after == before.(ops := Filtered(before.ops, StartOf(before, ctm).frame, boxes))
  }

  ghost predicate VisitedFiltered(forms: Forms, seen: set<nat>, w: Walked, boxes: seq<Box>) {
    forall id :: id in w.forms && id in w.seen && id !in seen ==>
        id in forms && FormFiltered(forms[id], w.forms[id], boxes)
  }

  lemma {:induction false} WalkFiltersForms(ops: seq<Op>, c: Cursor, boxes: seq<Box>, res: Resources, forms: Forms,
                          seen: set<nat>)
    ensures VisitedFiltered(forms, seen, Walk(ops, c, boxes, res, forms, seen), boxes)
    decreases forms.Keys - seen, |ops|
  {
    if ops == [] {
    } else if ops[0].Build? {
      WalkFiltersForms(ops[1..], Gathered(ops[0].segment, c), boxes, res, forms, seen);
    } else {
      var e := Visit(ops[0], c, boxes, res, forms, seen);
      if c.path == [] && ops[0].Do? {
        EraseFiltersForms(FormNamed(ops[0].name, res, forms), c.frame.ctm, boxes, res, forms, seen);
        EraseGrows(FormNamed(ops[0].name, res, forms), c.frame.ctm, boxes, res, forms, seen);
      }
      WalkGrows(ops[1..], After(ops[0], c), boxes, res, e.forms, e.seen);
      WalkFiltersForms(ops[1..], After(ops[0], c), boxes, res, e.forms, e.seen);
    }
  }

  lemma {:induction false} EraseFiltersForms(id: Option<nat>, ctm: Matrix, boxes: seq<Box>, res: Resources,
                          forms: Forms, seen: set<nat>)
    ensures VisitedFiltered(forms, seen, EraseForm(id, ctm, boxes, res, forms, seen), boxes)
    decreases forms.Keys - seen, 0
  {
    if id.Some? && id.value !in seen && id.value in forms {
      var form := forms[id.value];
      var start := StartOf(form, ctm);
      WalkGrows(form.ops, start, boxes, Inherited(form, res), forms, seen + {id.value});
      WalkFiltersForms(form.ops, start, boxes, Inherited(form, res), forms, seen + {id.value});
      VisitedOne(id.value, ctm, boxes, res, forms, seen);
    }
  }

  /** A form visited now is left with the filter of its stream under the matrix in force. */
  lemma VisitedOne(id: nat, ctm: Matrix, boxes: seq<Box>, res: Resources, forms: Forms, seen: set<nat>)
    requires id in forms && id !in seen
    ensures EraseForm(Some(id), ctm, boxes, res, forms, seen).forms[id]
         == forms[id].(ops := Filtered(forms[id].ops, StartOf(forms[id], ctm).frame, boxes))
  {
    var form := forms[id];
    var start, inner := StartOf(form, ctm), seen + {id};
    var w := Walk(form.ops, start, boxes, Inherited(form, res), forms, inner);
    WalkKeepsSurvivors(form.ops, start, boxes, Inherited(form, res), forms, inner);
    if w.dropped == 0 {
      NothingDropped(form.ops, start, boxes, Inherited(form, res), forms, inner);
      assert AsOps([]) + form.ops == form.ops;
    }
    assert form.(ops := w.kept) == form.(ops := Filtered(form.ops, start.frame, boxes));
  }

  // ------------------------------------------------------------ idempotence

  /** `forms2` holds what the first walk left in the forms it newly visited. */
  ghost predicate Holds(forms2: Forms, w: Walked, seen: set<nat>) {
    && forms2.Keys == w.forms.Keys
    && forall id :: id in w.forms && id in w.seen && id !in seen ==> forms2[id] == w.forms[id]
  }

  lemma SplitBuilds(builds: seq<Segment>, rest: seq<Op>)
    requires builds != []
    ensures AsOps(builds) + rest == [Build(builds[0])] + (AsOps(builds[1..]) + rest)
  {
  }

  lemma WalkBuildStep(s: Segment, ops: seq<Op>, c: Cursor, boxes: seq<Box>, res: Resources, forms: Forms,
                      seen: set<nat>)
    ensures Walk([Build(s)] + ops, c, boxes, res, forms, seen) == Walk(ops, Gathered(s, c), boxes, res, forms, seen)
  {
    assert ([Build(s)] + ops)[1..] == ops;
  }

  /** A cursor that has gathered `builds` on top of what `c` has. */
  function GatheredAll(builds: seq<Segment>, c: Cursor): Cursor {
    Cursor(c.frame, c.path + builds, DevicePoints(c.path + builds, c.frame.ctm))
  }

  lemma GatheredNext(builds: seq<Segment>, c: Cursor)
    requires builds != [] && Consistent(c)
    ensures GatheredAll(builds, c) == GatheredAll(builds[1..], Gathered(builds[0], c))
    ensures Consistent(Gathered(builds[0], c))
  {
    assert c.path + builds == c.path + [builds[0]] + builds[1..];
    BuildConsistent(c, builds[0]);
  }

  lemma GatheredNone(c: Cursor)
    requires Consistent(c)
    ensures GatheredAll([], c) == c
  {
    assert c.path + [] == c.path;
  }

  /** Walking kept construction operators only gathers them. */
  lemma {:induction false} WalkBuilds(builds: seq<Segment>, rest: seq<Op>, c: Cursor, boxes: seq<Box>, res: Resources,
                                      forms: Forms, seen: set<nat>)
    requires Consistent(c)
    ensures Walk(AsOps(builds) + rest, c, boxes, res, forms, seen)
         == Walk(rest, GatheredAll(builds, c), boxes, res, forms, seen)
    decreases |builds|
  {
    if builds == [] {
      assert AsOps(builds) + rest == rest;
      GatheredNone(c);
    } else {
      SplitBuilds(builds, rest);
      WalkBuildStep(builds[0], AsOps(builds[1..]) + rest, c, boxes, res, forms, seen);
      GatheredNext(builds, c);
      WalkBuilds(builds[1..], rest, Gathered(builds[0], c), boxes, res, forms, seen);
    }
  }

  /** A second walk over what `w` kept keeps all of it, drops nothing and changes no form. */
  ghost predicate Settled(w: Walked, f: Frame, boxes: seq<Box>, res: Resources, seen: set<nat>, forms2: Forms) {
    Walk(w.kept, Cursor(f, [], []), boxes, res, forms2, seen) == Walked(w.kept, 0, forms2, w.seen)
  }

  /** Walking what a walk kept, with the forms as it left them, drops nothing. The second
      walk starts before the path that the first one had gathered at `c`. */
  lemma {:induction false} WalkAgain(ops: seq<Op>, c: Cursor, boxes: seq<Box>, res: Resources, forms: Forms,
                          seen: set<nat>, forms2: Forms)
    requires Consistent(c)
    requires Holds(forms2, Walk(ops, c, boxes, res, forms, seen), seen)
    ensures Settled(Walk(ops, c, boxes, res, forms, seen), c.frame, boxes, res, seen, forms2)
    decreases forms.Keys - seen, |ops|
  {
    if ops == [] {
      EndAgain(c, boxes, res, forms2, seen);
    } else if ops[0].Build? {
      BuildConsistent(c, ops[0].segment);
      WalkAgain(ops[1..], Gathered(ops[0].segment, c), boxes, res, forms, seen, forms2);
    } else {
      var e := Visit(ops[0], c, boxes, res, forms, seen);
      var c' := After(ops[0], c);
      var w1 := Walk(ops[1..], c', boxes, res, e.forms, e.seen);
      WalkGrows(ops[1..], c', boxes, res, e.forms, e.seen);
      if c.path == [] && ops[0].Do? {
        EraseGrows(FormNamed(ops[0].name, res, forms), c.frame.ctm, boxes, res, forms, seen);
        EraseAgain(FormNamed(ops[0].name, res, forms), c.frame.ctm, boxes, res, forms, seen, forms2);
      }
      WalkAgain(ops[1..], c', boxes, res, e.forms, e.seen, forms2);
      OpAgain(ops, c, boxes, res, forms, seen, e, w1, forms2);
    }
  }

  lemma EndAgain(c: Cursor, boxes: seq<Box>, res: Resources, forms2: Forms, seen: set<nat>)
    ensures Walk(AsOps(c.path), Cursor(c.frame, [], []), boxes, res, forms2, seen)
            == Walked(AsOps(c.path), 0, forms2, seen)
  {
    WalkBuilds(c.path, [], Cursor(c.frame, [], []), boxes, res, forms2, seen);
    assert AsOps(c.path) + [] == AsOps(c.path) && [] + c.path == c.path;
  }

  predicate Drops(op: Op, c: Cursor, boxes: seq<Box>) {
    c.path != [] && op.Paint? && Inside(c.points, boxes)
  }

  /** One operator that is not a construction one, in terms of the walk after it. */
  lemma WalkOpStep(op: Op, ops: seq<Op>, c: Cursor, boxes: seq<Box>, res: Resources, forms: Forms, seen: set<nat>,
                   e: Walked, w: Walked)
    requires !op.Build? && e == Visit(op, c, boxes, res, forms, seen)
    requires w == Walk(ops, After(op, c), boxes, res, e.forms, e.seen)
    ensures Walk([op] + ops, c, boxes, res, forms, seen)
         == if Drops(op, c, boxes) then w.(dropped := w.dropped + 1)
            else w.(kept := AsOps(c.path) + [op] + w.kept, dropped := e.dropped + w.dropped)
  {
    assert ([op] + ops)[1..] == ops;
  }

  lemma OpAgain(ops: seq<Op>, c: Cursor, boxes: seq<Box>, res: Resources, forms: Forms, seen: set<nat>,
                e: Walked, w1: Walked, forms2: Forms)
    requires Consistent(c) && ops != [] && !ops[0].Build?
    requires e == Visit(ops[0], c, boxes, res, forms, seen)
    requires w1 == Walk(ops[1..], After(ops[0], c), boxes, res, e.forms, e.seen)
    requires var again := Visit(ops[0], c, boxes, res, forms2, seen);
             again.dropped == 0 && again.forms == forms2 && again.seen == e.seen
    requires Settled(w1, After(ops[0], c).frame, boxes, res, e.seen, forms2)
    ensures Settled(Walk(ops, c, boxes, res, forms, seen), c.frame, boxes, res, seen, forms2)
  {
    assert [ops[0]] + ops[1..] == ops;
    WalkOpStep(ops[0], ops[1..], c, boxes, res, forms, seen, e, w1);
    if !Drops(ops[0], c, boxes) {
      KeptAgain(ops[0], w1, c, boxes, res, seen, forms2, Visit(ops[0], c, boxes, res, forms2, seen));
    }
  }

  /** An operator that was kept with its path, walked a second time. */
  lemma KeptAgain(op: Op, w1: Walked, c: Cursor, boxes: seq<Box>, res: Resources, seen: set<nat>, forms2: Forms,
                  e: Walked)
    requires Consistent(c) && !op.Build? && !Drops(op, c, boxes)
    requires e == Visit(op, c, boxes, res, forms2, seen) && e.dropped == 0 && e.forms == forms2
    requires Settled(w1, After(op, c).frame, boxes, res, e.seen, forms2)
    ensures var kept := AsOps(c.path) + [op] + w1.kept;
            Walk(kept, Cursor(c.frame, [], []), boxes, res, forms2, seen) == Walked(kept, 0, forms2, w1.seen)
  {
    var again := WalkFromPath(c, AsOps(c.path) + [op] + w1.kept, [op] + w1.kept, boxes, res, seen, forms2);
    WalkOpStep(op, w1.kept, c, boxes, res, forms2, seen, e, Walked(w1.kept, 0, forms2, w1.seen));
  }

  /** Starting over before the path at `c` is the same as going on from `c`. */
  lemma WalkFromPath(c: Cursor, ops: seq<Op>, rest: seq<Op>, boxes: seq<Box>, res: Resources, seen: set<nat>,
                     forms2: Forms)
    returns (w: Walked)
    requires Consistent(c) && ops == AsOps(c.path) + rest
    ensures w == Walk(ops, Cursor(c.frame, [], []), boxes, res, forms2, seen)
    ensures w == Walk(rest, c, boxes, res, forms2, seen)
  {
    w := Walk(ops, Cursor(c.frame, [], []), boxes, res, forms2, seen);
    WalkBuilds(c.path, rest, Cursor(c.frame, [], []), boxes, res, forms2, seen);
    assert [] + c.path == c.path;
    assert GatheredAll(c.path, Cursor(c.frame, [], [])) == c;
  }

  lemma {:induction false} EraseAgain(id: Option<nat>, ctm: Matrix, boxes: seq<Box>, res: Resources, forms: Forms,
                          seen: set<nat>, forms2: Forms)
    requires Holds(forms2, EraseForm(id, ctm, boxes, res, forms, seen), seen)
    ensures var e, again := EraseForm(id, ctm, boxes, res, forms, seen), EraseForm(id, ctm, boxes, res, forms2, seen);
            again.dropped == 0 && again.forms == forms2 && again.seen == e.seen
    decreases forms.Keys - seen, 0
  {
    if id.Some? && id.value !in seen && id.value in forms {
      var form := forms[id.value];
      var start, inner := StartOf(form, ctm), seen + {id.value};
      var w := Walk(form.ops, start, boxes, Inherited(form, res), forms, inner);
      WalkGrows(form.ops, start, boxes, Inherited(form, res), forms, inner);
      if w.dropped == 0 {
        NothingDropped(form.ops, start, boxes, Inherited(form, res), forms, inner);
        assert AsOps([]) + form.ops == form.ops;
      }
      assert forms2[id.value] == form.(ops := w.kept);
      WalkAgain(form.ops, start, boxes, Inherited(form, res), forms, inner, forms2);
    }
  }
}
