/** What erasing does to the painting of a page: the paths it drops are the ones painted
    wholly inside a padded box, every other effect of the stream stays as it was. */
module PathsProof {
  import opened Wrappers
  import opened Geometry
  import opened Paths

  // ------------------------------------- painting, sections 8.4 and 8.5 of ISO 32000-1

  /** A construction operator under the matrix in force when it was met. */
  datatype Placed = Placed(segment: Segment, ctm: Matrix)

  /** The graphics state. Other operators are kept as a history, so no effect of theirs on
      later painting is assumed away. */
  datatype Graphics = Graphics(ctm: Matrix, clip: seq<seq<Placed>>, history: seq<nat>)

  datatype Painter = Painter(g: Graphics, stack: seq<Graphics>, path: seq<Placed>, clipping: bool)

  datatype Event =
    | Painted(kind: nat, path: seq<Placed>, clipping: bool, g: Graphics)
    | FormDrawn(name: string, g: Graphics)
    | Done(id: nat, g: Graphics)

  function Ended(p: Painter): Painter {
    p.(g := if p.clipping then p.g.(clip := p.g.clip + [p.path]) else p.g, path := [], clipping := false)
  }

  function Step(op: Op, p: Painter): Painter {
    match op
    case Build(s) => p.(path := p.path + [Placed(s, p.g.ctm)])
    case Paint(_) => Ended(p)
    case EndPath => Ended(p)
    case Clip => p.(clipping := true)
    case Save => p.(stack := p.stack + [p.g])
    case Restore =>
      if p.stack == [] then p else p.(g := p.stack[|p.stack| - 1], stack := p.stack[..|p.stack| - 1])
    case Concat(m) => p.(g := p.g.(ctm := Mul(m, p.g.ctm)))
    case Do(_) => p
    case Other(id) => p.(g := p.g.(history := p.g.history + [id]))
  }

  function StepEvents(op: Op, p: Painter): seq<Event> {
    match op
    case Paint(kind) => [Painted(kind, p.path, p.clipping, p.g)]
    case Do(name) => [FormDrawn(name, p.g)]
    case Other(id) => [Done(id, p.g)]
    case _ => []
  }

  function Run(ops: seq<Op>, p: Painter): Painter {
    if ops == [] then p else Run(ops[1..], Step(ops[0], p))
  }

  function Events(ops: seq<Op>, p: Painter): seq<Event> {
    if ops == [] then [] else StepEvents(ops[0], p) + Events(ops[1..], Step(ops[0], p))
  }

  lemma {:induction false} RunConcat(a: seq<Op>, b: seq<Op>, p: Painter)
    ensures Run(a + b, p) == Run(b, Run(a, p))
    ensures Events(a + b, p) == Events(a, p) + Events(b, Run(a, p))
    decreases |a|
  {
    if a == [] {
      assert a + b == b;
    } else {
      assert (a + b)[0] == a[0] && (a + b)[1..] == a[1..] + b;
      RunConcat(a[1..], b, Step(a[0], p));
    }
  }

  // ------------------------------------------------------ well-formed streams

  datatype Mode = Outside | Building | Clipping

  /** Where the grammar of section 8.5.2 lets an operator stand: a path is built, then
      perhaps made a clip, then painted or ended at once. */
  function Next(op: Op, mode: Mode): Option<Mode> {
    match mode
    case Outside => if op.Build? then Some(Building) else if op.Clip? then None else Some(Outside)
    case Building =>
      if op.Build? then Some(Building) else if op.Clip? then Some(Clipping)
      else if op.Paint? || op.EndPath? then Some(Outside) else None
    case Clipping =>
      if op.Clip? then Some(Clipping) else if op.Paint? || op.EndPath? then Some(Outside) else None
  }

  predicate WellFormed(ops: seq<Op>, mode: Mode) {
    ops == [] || (Next(ops[0], mode).Some? && WellFormed(ops[1..], Next(ops[0], mode).value))
  }

  // ------------------------------------------------------- what may disappear

  function PlacedPoints(path: seq<Placed>): seq<Point> {
    if path == [] then []
    else PlacedPoints(path[..|path| - 1]) + ApplyAll(path[|path| - 1].ctm, PointsOf(path[|path| - 1].segment))
  }

  /** Painted, not used as a clip, and with all its points in one padded box. */
  predicate Erased(e: Event, boxes: seq<Box>) {
    e.Painted? && !e.clipping && Inside(PlacedPoints(e.path), boxes)
  }

  function Left(events: seq<Event>, boxes: seq<Box>): seq<Event> {
    if events == [] then []
    else (if Erased(events[0], boxes) then [] else [events[0]]) + Left(events[1..], boxes)
  }

  lemma {:induction false} LeftConcat(a: seq<Event>, b: seq<Event>, boxes: seq<Box>)
    ensures Left(a + b, boxes) == Left(a, boxes) + Left(b, boxes)
    decreases |a|
  {
    if a == [] {
      assert a + b == b;
    } else {
      assert (a + b)[0] == a[0] && (a + b)[1..] == a[1..] + b;
      LeftConcat(a[1..], b, boxes);
    }
  }

  // ----------------------------------------------------------------- one item

  function Place(builds: seq<Segment>, ctm: Matrix): (path: seq<Placed>)
    ensures |path| == |builds| && forall i :: 0 <= i < |path| ==> path[i] == Placed(builds[i], ctm)
  {
    seq(|builds|, i requires 0 <= i < |builds| => Placed(builds[i], ctm))
  }

  lemma {:induction false} PlacedPointsAre(builds: seq<Segment>, ctm: Matrix)
    ensures PlacedPoints(Place(builds, ctm)) == DevicePoints(builds, ctm)
    decreases |builds|
  {
    if builds != [] {
      var k := |builds| - 1;
      assert Place(builds, ctm)[..k] == Place(builds[..k], ctm);
      PlacedPointsAre(builds[..k], ctm);
    }
  }

  lemma {:induction false} RunBuilds(builds: seq<Segment>, p: Painter)
    ensures Run(AsOps(builds), p) == p.(path := p.path + Place(builds, p.g.ctm))
    ensures Events(AsOps(builds), p) == []
    decreases |builds|
  {
    if builds == [] {
      assert p.path + Place(builds, p.g.ctm) == p.path;
    } else {
      var p1 := p.(path := p.path + [Placed(builds[0], p.g.ctm)]);
      assert AsOps(builds)[0] == Build(builds[0]) && AsOps(builds)[1..] == AsOps(builds[1..]);
      RunBuilds(builds[1..], p1);
      assert p1.path + Place(builds[1..], p.g.ctm) == p.path + Place(builds, p.g.ctm);
    }
  }

  /** The walk's frame is the painter's matrix and those below it on the stack. */
  ghost predicate Framed(f: Frame, p: Painter) {
    && f.ctm == p.g.ctm && |f.saved| == |p.stack|
    && forall i :: 0 <= i < |f.saved| ==> f.saved[i] == p.stack[i].ctm
  }

  lemma OneOp(op: Op, p: Painter)
    ensures Run([op], p) == Step(op, p) && Events([op], p) == StepEvents(op, p)
  {
  }

  /** Outside a path the painter has none; a clip's path only waits to be ended. */
  ghost predicate Ready(p: Painter, mode: Mode) {
    match mode
    case Outside => p.path == [] && !p.clipping
    case Building => false
    case Clipping => p.clipping
  }

  /** The mode an item leaves behind. */
  function ModeAfter(i: Item, mode: Mode): Mode
  {
    if i.closer.None? then Building
    else if i.closer.value.Clip? then Clipping else Outside
  }

  /** An item that may stand where it does. */
  predicate Allowed(i: Item, mode: Mode) {
    && (mode.Clipping? ==> i.builds == [])
    && (i.closer.Some? ==>
          var op := i.closer.value;
          if i.builds != [] || mode.Clipping? then op.Paint? || op.EndPath? || op.Clip? else !op.Clip?)
  }

  lemma NoPointsInside(path: seq<Placed>, boxes: seq<Box>)
    requires path == []
    ensures !Inside(PlacedPoints(path), boxes)
  {
  }

  /** An item is dropped exactly when the painting it causes is one that may disappear, and
      then the painter is left as if it had not been there. */
  lemma ItemMeaning(i: Item, f: Frame, p: Painter, boxes: seq<Box>, mode: Mode)
    requires i.closer.Some? && !i.closer.value.Build?
    requires Ready(p, mode) && Framed(f, p) && Allowed(i, mode)
    ensures Framed(FrameAfter(i, f), Run(PrintItem(i), p))
    ensures Ready(Run(PrintItem(i), p), ModeAfter(i, mode))
    ensures Doomed(i, f.ctm, boxes) ==> Run(PrintItem(i), p) == p && Left(Events(PrintItem(i), p), boxes) == []
    ensures !Doomed(i, f.ctm, boxes) ==> Left(Events(PrintItem(i), p), boxes) == Events(PrintItem(i), p)
  {
    hide Inside, DevicePoints, Run, Events;
    var op := i.closer.value;
    var p1 := p.(path := p.path + Place(i.builds, p.g.ctm));
    RunBuilds(i.builds, p);
    OneOp(op, p1);
    RunConcat(AsOps(i.builds), [op], p);
    assert Events(PrintItem(i), p) == StepEvents(op, p1);
    if op.Paint? {
      if mode.Outside? {
        assert p1.path == Place(i.builds, f.ctm);
        PlacedPointsAre(i.builds, f.ctm);
        if i.builds == [] { NoPointsInside(p1.path, boxes); }
      }
      OneLeft(StepEvents(op, p1)[0], boxes);
    } else if StepEvents(op, p1) != [] {
      OneLeft(StepEvents(op, p1)[0], boxes);
    }
  }

  lemma OneLeft(e: Event, boxes: seq<Box>)
    ensures Left([e], boxes) == if Erased(e, boxes) then [] else [e]
  {
  }

  // --------------------------------------------------------------- one stream

  /** The items of a well-formed stream, the first one's construction already under way. */
  predicate ItemsAllowed(items: seq<Item>, mode: Mode) {
    items == [] ||
    (&& Allowed(items[0], mode) && (items[0].closer.None? ==> |items| == 1)
     && (items[0].closer.Some? ==> !items[0].closer.value.Build?)
     && ItemsAllowed(items[1..], ModeAfter(items[0], mode)))
  }

  lemma {:induction false} ParseAllowed(ops: seq<Op>, path: seq<Segment>, mode: Mode)
    requires !mode.Building? && (mode.Clipping? ==> path == [])
    requires WellFormed(ops, if path == [] then mode else Building)
    ensures ItemsAllowed(Parse(ops, path), mode)
    decreases |ops|
  {
    if ops == [] {
    } else if ops[0].Build? {
      ParseAllowed(ops[1..], path + [ops[0].segment], mode);
    } else {
      var item, rest := Item(path, Some(ops[0])), Parse(ops[1..], []);
      assert ([item] + rest)[1..] == rest;
      ParseAllowed(ops[1..], [], ModeAfter(item, mode));
    }
  }

  lemma {:induction false} ItemsMeaning(items: seq<Item>, f: Frame, p: Painter, boxes: seq<Box>, mode: Mode)
    requires ItemsAllowed(items, mode) && Ready(p, mode) && Framed(f, p)
    ensures Run(Print(Surviving(items, f, boxes)), p) == Run(Print(items), p)
    ensures Events(Print(Surviving(items, f, boxes)), p) == Left(Events(Print(items), p), boxes)
    decreases |items|
  {
    if items == [] {
    } else if items[0].closer.None? {
      assert items == [items[0]] && items[1..] == [];
      SurvivingSplit(items[0], [], f, boxes);
      assert [items[0]] + [] == items;
      RunBuilds(items[0].builds, p);
      assert PrintItem(items[0]) == AsOps(items[0].builds);
      assert PrintItem(items[0]) + Print([]) == PrintItem(items[0]);
    } else {
      var head, rest := items[0], items[1..];
      assert [head] + rest == items;
      var p1, f1 := Run(PrintItem(head), p), FrameAfter(head, f);
      ItemMeaning(head, f, p, boxes, mode);
      ItemsMeaning(rest, f1, p1, boxes, ModeAfter(head, mode));
      KeptItem(head, rest, f, boxes);
      SurvivingSplit(head, rest, f, boxes);
      RunConcat(PrintItem(head), Print(rest), p);
      LeftConcat(Events(PrintItem(head), p), Events(Print(rest), p1), boxes);
      var later := Print(Surviving(rest, f1, boxes));
      if Doomed(head, f.ctm, boxes) {
        assert [] + later == later && Left(Events(PrintItem(head), p), boxes) == [];
      } else {
        RunConcat(PrintItem(head), later, p);
      }
    }
  }

  /** The filter of a well-formed stream leaves the painter where the stream leaves it, and
      paints what the stream paints except exactly the paths that may disappear: every
      other painting, form and operator has the same order, matrix, clip and state. */
  lemma FilterPreservesPainting(ops: seq<Op>, f: Frame, p: Painter, boxes: seq<Box>)
    requires WellFormed(ops, Outside)
    requires p.path == [] && !p.clipping && Framed(f, p)
    ensures Run(Filtered(ops, f, boxes), p) == Run(ops, p)
    ensures Events(Filtered(ops, f, boxes), p) == Left(Events(ops, p), boxes)
  {
    ParseAllowed(ops, [], Outside);
    PrintParse(ops, []);
    assert AsOps([]) + ops == ops;
    ItemsMeaning(Parse(ops, []), f, p, boxes, Outside);
  }

  // ------------------------------------------------------------ arbitrary streams

  /** What an item does to any painter, wherever it stands: its segments are put under the
      painter's matrix, after those that no painting operator has ended yet. */
  lemma AfterItem(i: Item, p: Painter)
    ensures var q, path := Run(PrintItem(i), p), p.path + Place(i.builds, p.g.ctm);
            && q == (if i.closer.Some? then Step(i.closer.value, p.(path := path)) else p.(path := path))
            && Events(PrintItem(i), p) == if i.closer.Some? then StepEvents(i.closer.value, p.(path := path)) else []
  {
    var p1 := p.(path := p.path + Place(i.builds, p.g.ctm));
    RunBuilds(i.builds, p);
    if i.closer.Some? {
      OneOp(i.closer.value, p1);
      RunConcat(AsOps(i.builds), [i.closer.value], p);
    } else {
      assert PrintItem(i) == AsOps(i.builds);
    }
  }

  /** How the walk comes to judge a path where it is not painted, or only a part of it: an
      operator that does not end a path cuts it, and q, Q and cm that do so move the painter's
      matrix alone. */
  lemma OutOfStepExactly(i: Item, f: Frame, p: Painter)
    requires Framed(f, p)
    ensures Run(PrintItem(i), p).path == [] <==>
            (i.closer.Some? && (i.closer.value.Paint? || i.closer.value.EndPath?)) || (p.path == [] && PrintsNoPath(i))
    ensures Framed(FrameAfter(i, f), Run(PrintItem(i), p)) <==>
            i.builds == [] || i.closer.None?
            || !(i.closer.value.Save? || (i.closer.value.Restore? && p.stack != [])
                 || (i.closer.value.Concat? && Mul(i.closer.value.m, f.ctm) != f.ctm))
  {
    AfterItem(i, p);
    hide Run, Events, Mul;
  }

  predicate PrintsNoPath(i: Item) {
    i.builds == [] && (i.closer.Some? ==> !i.closer.value.Build?)
  }

  /** An item is judged as it is painted: dropped exactly when the whole path its closer paints
      may disappear, and then nothing of that path stands before it. */
  predicate JudgedItem(i: Item, f: Frame, p: Painter, boxes: seq<Box>) {
    i.closer.Some? && i.closer.value.Paint? ==>
      && (Doomed(i, f.ctm, boxes) <==> !p.clipping && Inside(PlacedPoints(p.path + Place(i.builds, p.g.ctm)), boxes))
      && (Doomed(i, f.ctm, boxes) ==> p.path == [])
  }

  predicate Judged(items: seq<Item>, f: Frame, p: Painter, boxes: seq<Box>)
    decreases |items|
  {
    items == [] ||
    (JudgedItem(items[0], f, p, boxes)
     && Judged(items[1..], FrameAfter(items[0], f), Run(PrintItem(items[0]), p), boxes))
  }

  /** Only a path that was cut, is used as a clip or is built under another matrix can be
      misjudged. */
  lemma InStepIsJudged(i: Item, f: Frame, p: Painter, boxes: seq<Box>)
    requires p.path == [] && !p.clipping && p.g.ctm == f.ctm
    ensures JudgedItem(i, f, p, boxes)
  {
    PlacedPointsAre(i.builds, f.ctm);
    assert [] + Place(i.builds, f.ctm) == Place(i.builds, f.ctm);
    NoPointsInside([], boxes);
  }

  /** The filter has been right so far. */
  ghost predicate Right(items: seq<Item>, f: Frame, p: Painter, boxes: seq<Box>) {
    && Run(Print(Surviving(items, f, boxes)), p) == Run(Print(items), p)
    && Events(Print(Surviving(items, f, boxes)), p) == Left(Events(Print(items), p), boxes)
  }

  lemma RightItemExactly(i: Item, f: Frame, p: Painter, boxes: seq<Box>)
    ensures Right([i], f, p, boxes) <==> JudgedItem(i, f, p, boxes)
    ensures JudgedItem(i, f, p, boxes) ==>
              if Doomed(i, f.ctm, boxes) then Run(PrintItem(i), p) == p && Left(Events(PrintItem(i), p), boxes) == []
              else Left(Events(PrintItem(i), p), boxes) == Events(PrintItem(i), p)
  {
    hide Inside, DevicePoints;
    AfterItem(i, p);
    SurvivingSplit(i, [], f, boxes);
    PrintFirst(i, []);
    assert [i] + [] == [i] && PrintItem(i) + [] == PrintItem(i);
    assert Print([i]) == PrintItem(i);
    if Events(PrintItem(i), p) != [] {
      OneLeft(Events(PrintItem(i), p)[0], boxes);
    }
  }

  /** Past an item that was judged right, the rest decides. */
  lemma RightSplit(head: Item, rest: seq<Item>, f: Frame, p: Painter, boxes: seq<Box>)
    requires JudgedItem(head, f, p, boxes)
    ensures Right([head] + rest, f, p, boxes) <==> Right(rest, FrameAfter(head, f), Run(PrintItem(head), p), boxes)
  {
    RightItemExactly(head, f, p, boxes);
    hide Inside, Doomed, JudgedItem, Left, Run, Events, FrameAfter, PrintItem, Print, Surviving;
    var f1, p1 := FrameAfter(head, f), Run(PrintItem(head), p);
    var later := Print(Surviving(rest, f1, boxes));
    var shown, more := Events(PrintItem(head), p), Events(Print(rest), p1);
    KeptItem(head, rest, f, boxes);
    PrintFirst(head, rest);
    RunConcat(PrintItem(head), Print(rest), p);
    LeftConcat(shown, more, boxes);
    if Doomed(head, f.ctm, boxes) {
      assert [] + later == later && [] + Left(more, boxes) == Left(more, boxes);
    } else {
      RunConcat(PrintItem(head), later, p);
      SameTail(shown, Events(later, p1), Left(more, boxes));
    }
  }

  lemma SameTail(a: seq<Event>, b: seq<Event>, c: seq<Event>)
    ensures a + b == a + c <==> b == c
  {
    if a + b == a + c {
      assert b == (a + b)[|a|..] && c == (a + c)[|a|..];
    }
  }

  lemma RightNone(f: Frame, p: Painter, boxes: seq<Box>)
    ensures Right([], f, p, boxes)
  {
  }

  /** The filter is right after every item. */
  ghost predicate AlwaysRight(items: seq<Item>, f: Frame, p: Painter, boxes: seq<Box>) {
    forall k :: 0 <= k <= |items| ==> Right(items[..k], f, p, boxes)
  }

  lemma AlwaysSplit(items: seq<Item>, f: Frame, p: Painter, boxes: seq<Box>)
    requires items != [] && JudgedItem(items[0], f, p, boxes)
    ensures AlwaysRight(items, f, p, boxes) <==>
            AlwaysRight(items[1..], FrameAfter(items[0], f), Run(PrintItem(items[0]), p), boxes)
  {
    hide Right, JudgedItem, FrameAfter, Run, PrintItem;
    var rest, f1, p1 := items[1..], FrameAfter(items[0], f), Run(PrintItem(items[0]), p);
    forall k | 0 <= k <= |rest|
      ensures Right(items[..k + 1], f, p, boxes) <==> Right(rest[..k], f1, p1, boxes) {
      assert items[..k + 1] == [items[0]] + rest[..k];
      RightSplit(items[0], rest[..k], f, p, boxes);
    }
    if AlwaysRight(rest, f1, p1, boxes) {
      forall k | 0 <= k <= |items| ensures Right(items[..k], f, p, boxes) {
        if k == 0 {
          RightNone(f, p, boxes);
        } else {
          assert Right(rest[..k - 1], f1, p1, boxes);
        }
      }
    }
    if AlwaysRight(items, f, p, boxes) {
      forall k | 0 <= k <= |rest| ensures Right(rest[..k], f1, p1, boxes) {
        assert Right(items[..k + 1], f, p, boxes);
      }
    }
  }

  /** For an arbitrary stream: the filter is right after every item exactly when every item is
      judged as it is painted. */
  lemma {:induction false} RightExactly(items: seq<Item>, f: Frame, p: Painter, boxes: seq<Box>)
    ensures AlwaysRight(items, f, p, boxes) <==> Judged(items, f, p, boxes)
    decreases |items|
  {
    hide Right, JudgedItem, FrameAfter, Run, PrintItem;
    if items == [] {
      RightNone(f, p, boxes);
    } else {
      if AlwaysRight(items, f, p, boxes) {
        assert Right(items[..1], f, p, boxes) && items[..1] == [items[0]];
      }
      hide AlwaysRight;
      RightItemExactly(items[0], f, p, boxes);
      if JudgedItem(items[0], f, p, boxes) {
        AlwaysSplit(items, f, p, boxes);
        RightExactly(items[1..], FrameAfter(items[0], f), Run(PrintItem(items[0]), p), boxes);
      }
    }
  }

  /** So a stream whose items are judged as they are painted is filtered right, well-formed or
      not. */
  lemma JudgedPreservesPainting(ops: seq<Op>, f: Frame, p: Painter, boxes: seq<Box>)
    requires Judged(Parse(ops, []), f, p, boxes)
    ensures Run(Filtered(ops, f, boxes), p) == Run(ops, p)
    ensures Events(Filtered(ops, f, boxes), p) == Left(Events(ops, p), boxes)
  {
    var items := Parse(ops, []);
    RightExactly(items, f, p, boxes);
    assert items[..|items|] == items && Right(items[..|items|], f, p, boxes);
    PrintParse(ops, []);
    assert AsOps([]) + ops == ops;
  }
}
