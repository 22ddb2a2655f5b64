/** Erasing from a whole page (app/pdftools/paths.py:60-120): the walk as the program runs
    it, over forms it rewrites in place, and what it means for the painting of the page and
    of every form the page draws. */
module PageErase {
  import opened Wrappers
  import opened Geometry
  import opened Paths
  import opened PathsProof

  // ------------------------------------------------------ the program's own form

  /** What erasing turns a page into. */
  datatype Outcome = Outcome(contents: Option<seq<Op>>, forms: Forms, dropped: nat)

  /** pdfminer puts the origin at the lower-left corner of the media box. */
  function PageFrame(left: real, bottom: real): Frame {
    Frame(Matrix(1.0, 0.0, 0.0, 1.0, -left, -bottom), [])
  }

  function Start(f: Frame): Cursor {
    Cursor(f, [], [])
  }

  function ErasedPage(contents: Option<seq<Op>>, boxes: seq<Box>, left: real, bottom: real, res: Resources,
                      forms: Forms): Outcome
  {
    if contents.None? || boxes == [] then Outcome(contents, forms, 0)
    else
      var w := Walk(contents.value, Start(PageFrame(left, bottom)), boxes, res, forms, {});
      Outcome(if w.dropped > 0 then Some(w.kept) else contents, w.forms, w.dropped)
  }

  function Prefixed(kept: seq<Op>, dropped: nat, w: Walked): Walked {
    w.(kept := kept + w.kept, dropped := dropped + w.dropped)
  }

  lemma PrefixTwice(a: seq<Op>, b: seq<Op>, m: nat, n: nat, w: Walked)
    ensures Prefixed(a, m, Prefixed(b, n, w)) == Prefixed(a + b, m + n, w)
  {
  }

  /** One turn of the loop over the operators. */
  lemma WalkTurn(ops: seq<Op>, k: nat, c: Cursor, boxes: seq<Box>, res: Resources, forms: Forms, seen: set<nat>,
                 e: Walked)
    requires k < |ops|
    requires !ops[k].Build? ==> e == Visit(ops[k], c, boxes, res, forms, seen)
    ensures Walk(ops[k..], c, boxes, res, forms, seen)
         == if ops[k].Build? then Walk(ops[k + 1..], Gathered(ops[k].segment, c), boxes, res, forms, seen)
            else Prefixed(if Drops(ops[k], c, boxes) then [] else AsOps(c.path) + [ops[k]],
                          if Drops(ops[k], c, boxes) then 1 else e.dropped,
                          Walk(ops[k + 1..], After(ops[k], c), boxes, res, e.forms, e.seen))
  {
    hide Walk, Inside, Moved, ApplyAll, PointsOf, EraseForm;
    assert ops[k..] == [ops[k]] + ops[k + 1..];
    if ops[k].Build? {
      WalkBuildStep(ops[k].segment, ops[k + 1..], c, boxes, res, forms, seen);
    } else {
      var w := Walk(ops[k + 1..], After(ops[k], c), boxes, res, e.forms, e.seen);
      WalkOpStep(ops[k], ops[k + 1..], c, boxes, res, forms, seen, e, w);
      assert [] + w.kept == w.kept;
    }
  }

  /** A page, the forms of its document and the set of forms one `erase` has been through. */
  class Page {
    var contents: Option<seq<Op>>
    var forms: Forms
    var seen: set<nat>
    const resources: Resources
    const left: real
    const bottom: real

    constructor (contents: Option<seq<Op>>, forms: Forms, resources: Resources, left: real, bottom: real)
      ensures this.contents == contents && this.forms == forms && seen == {}
      ensures this.resources == resources && this.left == left && this.bottom == bottom
    {
      this.contents, this.forms, this.seen := contents, forms, {};
      this.resources, this.left, this.bottom := resources, left, bottom;
    }

    method WalkStream(ops: seq<Op>, start: Matrix, boxes: seq<Box>, res: Resources) returns (kept: seq<Op>,
                      dropped: nat)
      modifies `forms, `seen
      ensures Walked(kept, dropped, forms, seen)
           == Walk(ops, Start(Frame(start, [])), boxes, res, old(forms), old(seen))
      decreases forms.Keys - seen, 1
    {
      hide Walk, EraseForm, Inside, Moved, ApplyAll, PointsOf, Grows;
      ghost var whole := Walk(ops, Start(Frame(start, [])), boxes, res, forms, seen);
      var ctm, saved := start, [];
      var path, points := [], [];
      kept, dropped := [], 0;
      assert ops[0..] == ops && [] + whole.kept == whole.kept;
      for k := 0 to |ops|
        invariant old(seen) <= seen && forms.Keys == old(forms).Keys
        invariant whole
                  == Prefixed(kept, dropped,
                              Walk(ops[k..], Cursor(Frame(ctm, saved), path, points), boxes, res, forms, seen))
      {
        var op := ops[k];
        ghost var c, e := Cursor(Frame(ctm, saved), path, points), Walked([], 0, forms, seen);
        if op.Build? {
          WalkTurn(ops, k, c, boxes, res, forms, seen, e);
          path := path + [op.segment];
          points := points + ApplyAll(ctm, PointsOf(op.segment));
          continue;
        }
        if path != [] {
          WalkTurn(ops, k, c, boxes, res, forms, seen, e);
          var inside := InsideByBounds(points, boxes);
          ghost var rest := Walk(ops[k + 1..], After(op, c), boxes, res, forms, seen);
          if op.Paint? && inside {
            PrefixTwice(kept, [], dropped, 1, rest);
            assert kept + [] == kept;
            dropped := dropped + 1;
          } else {
            PrefixTwice(kept, AsOps(path) + [op], dropped, 0, rest);
            assert kept + AsOps(path) + [op] == kept + (AsOps(path) + [op]);
            kept := kept + AsOps(path) + [op];
          }
          path, points := [], [];
          continue;
        }
        e := Visit(op, c, boxes, res, forms, seen);
        WalkTurn(ops, k, c, boxes, res, forms, seen, e);
        PrefixTwice(kept, AsOps([]) + [op], dropped, e.dropped,
                    Walk(ops[k + 1..], After(op, c), boxes, res, e.forms, e.seen));
        assert AsOps([]) + [op] == [op];
        MovedIs(op, c.frame);
        if op.Save? {
          saved := saved + [ctm];
        } else if op.Restore? && saved != [] {
          ctm, saved := saved[|saved| - 1], saved[..|saved| - 1];
        } else if op.Concat? {
          ctm := Mul(op.m, ctm);
        } else if op.Do? {
          var n := EraseOne(FormNamed(op.name, res, forms), ctm, boxes, res);
          dropped := dropped + n;
        }
        points := [];
        kept := kept + [op];
      }
      assert ops[|ops|..] == [];
      WalkDone(Cursor(Frame(ctm, saved), path, points), boxes, res, forms, seen);
      kept := kept + AsOps(path);
    }

    method EraseOne(id: Option<nat>, ctm: Matrix, boxes: seq<Box>, res: Resources) returns (dropped: nat)
      modifies `forms, `seen
      ensures var w := EraseForm(id, ctm, boxes, res, old(forms), old(seen));
              dropped == w.dropped && forms == w.forms && seen == w.seen
      decreases forms.Keys - seen, 0
    {
      if id.None? || id.value in seen || id.value !in forms {
        return 0;
      }
      var form := forms[id.value];
      seen := seen + {id.value};
      var kept, n := WalkStream(form.ops, Mul(form.matrix, ctm), boxes, Inherited(form, res));
      dropped := n;
      if dropped > 0 {
        forms := forms[id.value := form.(ops := kept)];
      }
    }

    method Erase(boxes: seq<Box>) returns (dropped: nat)
      modifies this
      ensures Outcome(contents, forms, dropped)
           == ErasedPage(old(contents), boxes, left, bottom, resources, old(forms))
    {
      if contents.None? || boxes == [] {
        return 0;
      }
      seen := {};
      var kept, n := WalkStream(contents.value, Matrix(1.0, 0.0, 0.0, 1.0, -left, -bottom), boxes, resources);
      dropped := n;
      if dropped > 0 {
        contents := Some(kept);
      }
    }
  }

  lemma MovedIs(op: Op, f: Frame)
    ensures op.Save? ==> Moved(op, f) == Frame(f.ctm, f.saved + [f.ctm])
    ensures op.Restore? && f.saved != [] ==> Moved(op, f) == Frame(f.saved[|f.saved| - 1], f.saved[..|f.saved| - 1])
    ensures op.Restore? && f.saved == [] ==> Moved(op, f) == f
    ensures op.Concat? ==> Moved(op, f) == Frame(Mul(op.m, f.ctm), f.saved)
    ensures !op.Save? && !op.Restore? && !op.Concat? ==> Moved(op, f) == f
  {
  }

  lemma WalkDone(c: Cursor, boxes: seq<Box>, res: Resources, forms: Forms, seen: set<nat>)
    ensures Walk([], c, boxes, res, forms, seen) == Walked(AsOps(c.path), 0, forms, seen)
  {
  }

  // -------------------------------------------------------------- idempotence

  /** Erasing a second time drops nothing and changes nothing. */
  lemma EraseIsIdempotent(contents: Option<seq<Op>>, boxes: seq<Box>, left: real, bottom: real, res: Resources,
                          forms: Forms)
    ensures var once := ErasedPage(contents, boxes, left, bottom, res, forms);
            ErasedPage(once.contents, boxes, left, bottom, res, once.forms) == Outcome(once.contents, once.forms, 0)
  {
    if contents.Some? && boxes != [] {
      var c := Start(PageFrame(left, bottom));
      var w := Walk(contents.value, c, boxes, res, forms, {});
      if w.dropped == 0 {
        NothingDropped(contents.value, c, boxes, res, forms, {});
      } else {
        WalkAgain(contents.value, c, boxes, res, forms, {}, w.forms);
      }
    }
  }

  // ------------------------------------------------- painting a page and its forms

  datatype Shown = Shown(events: seq<Event>, seen: set<nat>)

  /** A form starts under its own matrix, with the graphics state it is drawn in, and its
      q and Q are its own (section 8.10.1). */
  function FormPainter(form: Form, g: Graphics): Painter {
    Painter(g.(ctm := Mul(form.matrix, g.ctm)), [], [], false)
  }

  /** The events of a stream, with those of every form after the event that first draws it. */
  function Expand(events: seq<Event>, res: Resources, forms: Forms, seen: set<nat>): (r: Shown)
    ensures seen <= r.seen
    decreases forms.Keys - seen, |events|
  {
    if events == [] then Shown([], seen)
    else
      var id := if events[0].FormDrawn? then FormNamed(events[0].name, res, forms) else None;
      if id.None? || id.value in seen then
        var r := Expand(events[1..], res, forms, seen);
        r.(events := [events[0]] + r.events)
      else
        var form := forms[id.value];
        var inner := Expand(Events(form.ops, FormPainter(form, events[0].g)), Inherited(form, res), forms,
                            seen + {id.value});
        var r := Expand(events[1..], res, forms, inner.seen);
        r.(events := [events[0]] + inner.events + r.events)
  }

  /** The forms erased by walking a stream that has these events. */
  function VisitAll(events: seq<Event>, boxes: seq<Box>, res: Resources, forms: Forms, seen: set<nat>): (w: Walked)
    ensures seen <= w.seen && w.forms.Keys == forms.Keys
    decreases |events|
  {
    if events == [] then Walked([], 0, forms, seen)
    else
      var e := if events[0].FormDrawn?
          then EraseForm(FormNamed(events[0].name, res, forms), events[0].g.ctm, boxes, res, forms, seen)
               else Walked([], 0, forms, seen);
      VisitAll(events[1..], boxes, res, e.forms, e.seen)
  }

  lemma VisitFirst(e: seq<Event>, rest: seq<Event>, boxes: seq<Box>, res: Resources, forms: Forms, seen: set<nat>)
    requires |e| <= 1 && (e != [] ==> !e[0].FormDrawn?)
    ensures VisitAll(e + rest, boxes, res, forms, seen) == VisitAll(rest, boxes, res, forms, seen)
  {
    if e == [] {
      assert e + rest == rest;
    } else {
      assert (e + rest)[1..] == rest;
    }
  }

  lemma VisitForm(e: Event, rest: seq<Event>, boxes: seq<Box>, res: Resources, forms: Forms, seen: set<nat>, w: Walked)
    requires e.FormDrawn? && w == EraseForm(FormNamed(e.name, res, forms), e.g.ctm, boxes, res, forms, seen)
    ensures VisitAll([e] + rest, boxes, res, forms, seen) == VisitAll(rest, boxes, res, w.forms, w.seen)
  {
    assert ([e] + rest)[1..] == rest;
  }

  lemma {:induction false} VisitAllGrows(events: seq<Event>, boxes: seq<Box>, res: Resources, forms: Forms,
                          seen: set<nat>)
    ensures var w := VisitAll(events, boxes, res, forms, seen); Grows(forms, seen, w.forms, w.seen)
    decreases |events|
  {
    if events != [] {
      var e := if events[0].FormDrawn?
          then EraseForm(FormNamed(events[0].name, res, forms), events[0].g.ctm, boxes, res, forms, seen)
               else Walked([], 0, forms, seen);
      if events[0].FormDrawn? {
        EraseGrows(FormNamed(events[0].name, res, forms), events[0].g.ctm, boxes, res, forms, seen);
      }
      VisitAllGrows(events[1..], boxes, res, e.forms, e.seen);
    }
  }

  /** The walk stands where the painter does, and gathers a path exactly when one is built. */
  ghost predicate Level(c: Cursor, p: Painter, mode: Mode) {
    Framed(c.frame, p) && (c.path != [] <==> mode.Building?)
  }

  lemma LevelStep(op: Op, c: Cursor, p: Painter, mode: Mode)
    requires Level(c, p, mode) && Next(op, mode).Some?
    ensures Level(if op.Build? then Gathered(op.segment, c) else After(op, c), Step(op, p), Next(op, mode).value)
  {
  }

  /** The walk goes into forms in the order, and under the matrices, that painting the
      stream draws them. */
  lemma {:induction false} WalkVisits(ops: seq<Op>, c: Cursor, p: Painter, mode: Mode, boxes: seq<Box>, res: Resources,
                                      forms: Forms, seen: set<nat>)
    requires WellFormed(ops, mode) && Level(c, p, mode)
    ensures var w, v := Walk(ops, c, boxes, res, forms, seen), VisitAll(Events(ops, p), boxes, res, forms, seen);
            w.forms == v.forms && w.seen == v.seen
    decreases |ops|
  {
    if ops != [] {
      LevelStep(ops[0], c, p, mode);
      var e := if ops[0].Build? then Walked([], 0, forms, seen) else Visit(ops[0], c, boxes, res, forms, seen);
      var rest := Events(ops[1..], Step(ops[0], p));
      if ops[0].Build? {
        WalkVisits(ops[1..], Gathered(ops[0].segment, c), Step(ops[0], p), Next(ops[0], mode).value, boxes, res, forms,
                   seen);
        VisitFirst([], rest, boxes, res, forms, seen);
      } else {
        WalkVisits(ops[1..], After(ops[0], c), Step(ops[0], p), Next(ops[0], mode).value, boxes, res, e.forms, e.seen);
        if ops[0].Do? {
          VisitForm(FormDrawn(ops[0].name, p.g), rest, boxes, res, forms, seen, e);
        } else {
          VisitFirst(StepEvents(ops[0], p), rest, boxes, res, forms, seen);
        }
      }
    }
  }

  ghost predicate AllWellFormed(forms: Forms) {
    forall id :: id in forms ==> WellFormed(forms[id].ops, Outside)
  }

  /** `now` still holds the original of every form not yet seen. */
  ghost predicate Unvisited(original: Forms, now: Forms, seen: set<nat>) {
    SameShape(original, now) && forall id :: id in now && id !in seen ==> original[id] == now[id]
  }

  /** What `after` shows is what `before` shows without the paths that may disappear. */
  ghost predicate ShowsLess(events: seq<Event>, boxes: seq<Box>, res: Resources, before: Forms, after: Forms,
                          seen: set<nat>,
                            seen': set<nat>)
  {
    && Expand(Left(events, boxes), res, after, seen)
        == Shown(Left(Expand(events, res, before, seen).events, boxes), seen')
    && Expand(events, res, before, seen).seen == seen'
  }

  lemma LeftFirst(head: Event, rest: seq<Event>, boxes: seq<Box>)
    ensures Left([head] + rest, boxes) == (if Erased(head, boxes) then [] else [head]) + Left(rest, boxes)
  {
  }

  predicate EntersNoForm(e: Event, res: Resources, forms: Forms, seen: set<nat>) {
    e.FormDrawn? ==> FormNamed(e.name, res, forms).None? || FormNamed(e.name, res, forms).value in seen
  }

  lemma ExpandShallow(head: Event, rest: seq<Event>, res: Resources, forms: Forms, seen: set<nat>)
    requires EntersNoForm(head, res, forms, seen)
    ensures Expand([head] + rest, res, forms, seen)
         == Shown([head] + Expand(rest, res, forms, seen).events, Expand(rest, res, forms, seen).seen)
  {
  }

  lemma ExpandDeep(head: Event, rest: seq<Event>, res: Resources, forms: Forms, seen: set<nat>, id: nat,
                   inner: Shown, later: Shown)
    requires head.FormDrawn? && FormNamed(head.name, res, forms) == Some(id) && id !in seen
    requires inner
             == Expand(Events(forms[id].ops, FormPainter(forms[id], head.g)), Inherited(forms[id], res), forms,
                       seen + {id})
    requires later == Expand(rest, res, forms, inner.seen)
    ensures Expand([head] + rest, res, forms, seen) == Shown([head] + inner.events + later.events, later.seen)
  {
    assert ([head] + rest)[1..] == rest;
  }

  lemma Shallow(head: Event, rest: seq<Event>, boxes: seq<Box>, res: Resources, before: Forms, after: Forms,
                seen: set<nat>, seen': set<nat>)
    requires EntersNoForm(head, res, before, seen) && SameShape(before, after)
    requires ShowsLess(rest, boxes, res, before, after, seen, seen')
    ensures ShowsLess([head] + rest, boxes, res, before, after, seen, seen')
  {
    hide Expand, Left, Erased;
    ExpandShallow(head, rest, res, before, seen);
    LeftFirst(head, rest, boxes);
    var shown := Expand(rest, res, before, seen).events;
    LeftFirst(head, shown, boxes);
    if Erased(head, boxes) {
      assert [] + Left(rest, boxes) == Left(rest, boxes) && [] + Left(shown, boxes) == Left(shown, boxes);
    } else {
      ExpandShallow(head, Left(rest, boxes), res, after, seen);
    }
  }

  lemma Deep(id: nat, head: Event, rest: seq<Event>, inner: seq<Event>, boxes: seq<Box>, res: Resources, before: Forms,
             after: Forms, seen: set<nat>, seen1: set<nat>, seen2: set<nat>)
    requires head.FormDrawn? && FormNamed(head.name, res, before) == Some(id) && id !in seen && SameShape(before, after)
    requires inner == Events(before[id].ops, FormPainter(before[id], head.g))
    requires Left(inner, boxes) == Events(after[id].ops, FormPainter(after[id], head.g))
    requires ShowsLess(inner, boxes, Inherited(before[id], res), before, after, seen + {id}, seen1)
    requires ShowsLess(rest, boxes, res, before, after, seen1, seen2)
    ensures ShowsLess([head] + rest, boxes, res, before, after, seen, seen2)
  {
    hide Expand, Left, Events;
    var shown := Expand(inner, Inherited(before[id], res), before, seen + {id});
    var later := Expand(rest, res, before, seen1);
    ExpandDeep(head, rest, res, before, seen, id, shown, later);
    ExpandDeep(head, Left(rest, boxes), res, after, seen, id, Shown(Left(shown.events, boxes), seen1),
               Shown(Left(later.events, boxes), seen2));
    LeftFirst(head, rest, boxes);
    LeftFirst(head, shown.events + later.events, boxes);
    LeftConcat(shown.events, later.events, boxes);
    assert [head] + shown.events + later.events == [head] + (shown.events + later.events);
  }

  /** What visiting one form does to its own painting, and to the forms it draws. */
  lemma FormErased(id: nat, g: Graphics, boxes: seq<Box>, res: Resources, forms: Forms, seen: set<nat>,
                   inner: seq<Event>)
    requires id in forms && id !in seen && WellFormed(forms[id].ops, Outside)
    requires inner == Events(forms[id].ops, FormPainter(forms[id], g))
    ensures var w, v := EraseForm(Some(id), g.ctm, boxes, res, forms, seen),
                        VisitAll(inner, boxes, Inherited(forms[id], res), forms, seen + {id});
            && w.forms[id] == forms[id].(ops := w.forms[id].ops)
            && Events(w.forms[id].ops, FormPainter(forms[id], g)) == Left(inner, boxes)
            && v.seen == w.seen && v.forms == w.forms[id := v.forms[id]]
  {
    hide Walk, Events, Left, Filtered, VisitAll, Grows;
    var form := forms[id];
    var c, p := StartOf(form, g.ctm), FormPainter(form, g);
    WalkVisits(form.ops, c, p, Outside, boxes, Inherited(form, res), forms, seen + {id});
    VisitedOne(id, g.ctm, boxes, res, forms, seen);
    FilterPreservesPainting(form.ops, c.frame, p, boxes);
  }

  /** The bookkeeping of one form: w is the visit of form `id`, `inner` what it does below
      that form, `later` what the rest of the stream does after it. */
  lemma StillHolds(id: nat, original: Forms, forms: Forms, seen: set<nat>, w: Walked, inner: Walked, later: Walked,
                   after: Forms)
    requires id in forms && id !in seen && id in w.seen && Unvisited(original, forms, seen) && SameShape(forms, after)
    requires Grows(forms, seen, w.forms, w.seen) && Grows(w.forms, w.seen, later.forms, later.seen)
    requires inner.seen == w.seen && id in inner.forms && inner.forms == w.forms[id := inner.forms[id]]
    requires Holds(after, later, seen)
    ensures Unvisited(original, forms, seen + {id}) && Unvisited(original, w.forms, w.seen)
    ensures SameShape(original, after) && SameShape(w.forms, after) && original[id] == forms[id]
    ensures Holds(after, inner, seen + {id}) && Holds(after, later, w.seen)
    ensures after[id] == w.forms[id]
  {
  }

  lemma {:induction false} ExpandErased(events: seq<Event>, boxes: seq<Box>, res: Resources, original: Forms,
                          forms: Forms,
                                        seen: set<nat>, after: Forms)
    requires AllWellFormed(original) && Unvisited(original, forms, seen)
    requires SameShape(forms, after) && Holds(after, VisitAll(events, boxes, res, forms, seen), seen)
    ensures ShowsLess(events, boxes, res, original, after, seen, VisitAll(events, boxes, res, forms, seen).seen)
    decreases forms.Keys - seen, |events|
  {
    hide Expand, Left, Events, EraseForm, WellFormed, ShowsLess, Erased, Holds, Grows;
    if events == [] {
      NothingShown(boxes, res, original, after, seen);
    } else {
      var head, rest := events[0], events[1..];
      assert events == [head] + rest;
      if !head.FormDrawn? {
        VisitFirst([head], rest, boxes, res, forms, seen);
        ExpandErased(rest, boxes, res, original, forms, seen, after);
        Shallow(head, rest, boxes, res, original, after, seen, VisitAll(rest, boxes, res, forms, seen).seen);
      } else {
        var id := FormNamed(head.name, res, forms);
        var w := EraseForm(id, head.g.ctm, boxes, res, forms, seen);
        VisitForm(head, rest, boxes, res, forms, seen, w);
        if id.None? || id.value in seen {
          SkippedForm(id, head.g.ctm, boxes, res, forms, seen);
          ExpandErased(rest, boxes, res, original, forms, seen, after);
          Shallow(head, rest, boxes, res, original, after, seen, VisitAll(rest, boxes, res, forms, seen).seen);
        } else {
          var form, res' := original[id.value], Inherited(original[id.value], res);
          var inner := Events(form.ops, FormPainter(form, head.g));
          EraseGrows(id, head.g.ctm, boxes, res, forms, seen);
          VisitAllGrows(rest, boxes, res, w.forms, w.seen);
          FormErased(id.value, head.g, boxes, res, forms, seen, inner);
          StillHolds(id.value, original, forms, seen, w, VisitAll(inner, boxes, res', forms, seen + {id.value}),
                     VisitAll(rest, boxes, res, w.forms, w.seen), after);
          ExpandErased(inner, boxes, res', original, forms, seen + {id.value}, after);
          ExpandErased(rest, boxes, res, original, w.forms, w.seen, after);
          Deep(id.value, head, rest, inner, boxes, res, original, after, seen, w.seen,
               VisitAll(rest, boxes, res, w.forms, w.seen).seen);
        }
      }
    }
  }

  lemma NothingShown(boxes: seq<Box>, res: Resources, before: Forms, after: Forms, seen: set<nat>)
    ensures ShowsLess([], boxes, res, before, after, seen, seen)
  {
  }

  lemma SkippedForm(id: Option<nat>, ctm: Matrix, boxes: seq<Box>, res: Resources, forms: Forms, seen: set<nat>)
    requires id.None? || id.value in seen
    ensures EraseForm(id, ctm, boxes, res, forms, seen) == Walked([], 0, forms, seen)
  {
  }

  lemma {:induction false} LeftWithoutBoxes(events: seq<Event>)
    ensures Left(events, []) == events
  {
    if events != [] {
      LeftWithoutBoxes(events[1..]);
    }
  }

  /** Painting an erased page, and every form it draws for the first time, shows what the
      original showed in the same order, under the same matrices and in the same state,
      without exactly those unclipped paths painted wholly inside one padded box. */
  lemma ErasePreservesPage(contents: seq<Op>, boxes: seq<Box>, left: real, bottom: real, res: Resources,
                          forms: Forms, p: Painter)
    requires WellFormed(contents, Outside) && AllWellFormed(forms)
    requires p.path == [] && !p.clipping && Framed(PageFrame(left, bottom), p)
    ensures var page := ErasedPage(Some(contents), boxes, left, bottom, res, forms);
            && page.contents.Some?
            && Expand(Events(page.contents.value, p), res, page.forms, {}).events
               == Left(Expand(Events(contents, p), res, forms, {}).events, boxes)
  {
    hide Expand, Left, Events, EraseForm, Walk, WellFormed, Parse, Print, Surviving, VisitAll;
    if boxes == [] {
      LeftWithoutBoxes(Expand(Events(contents, p), res, forms, {}).events);
      return;
    }
    var c := Start(PageFrame(left, bottom));
    var w := Walk(contents, c, boxes, res, forms, {});
    WalkKeepsSurvivors(contents, c, boxes, res, forms, {});
    FilterPreservesPainting(contents, c.frame, p, boxes);
    if w.dropped == 0 {
      NothingDropped(contents, c, boxes, res, forms, {});
      assert AsOps([]) + contents == contents;
    }
    WalkVisits(contents, c, p, Outside, boxes, res, forms, {});
    WalkGrows(contents, c, boxes, res, forms, {});
    ExpandErased(Events(contents, p), boxes, res, forms, forms, {}, w.forms);
  }

  // ------------------------------------------------------ where the premises matter

  function Translation(x: real): Matrix {
    Matrix(1.0, 0.0, 0.0, 1.0, x, 0.0)
  }

  const ORIGIN_BOX := [Box(0.0, 0.0, 0.0, 0.0)]
  const DOT := [Build(LineTo(Point(0.0, 0.0))), Paint(0)]

  function FreshPainter(ctm: Matrix): Painter {
    Painter(Graphics(ctm, [], []), [], [], false)
  }

  lemma DotInside(ctm: Matrix)
    requires ctm == IDENTITY
    ensures Inside(DevicePoints([LineTo(Point(0.0, 0.0))], ctm), ORIGIN_BOX)
  {
    var s := LineTo(Point(0.0, 0.0));
    assert [s][..0] == [] && DevicePoints([], ctm) == [];
    assert [Point(0.0, 0.0)][1..] == [];
    assert ApplyAll(ctm, PointsOf(s)) == [Point(0.0, 0.0)];
    assert DevicePoints([s], ctm) == [Point(0.0, 0.0)];
    assert AllIn([Point(0.0, 0.0)], Padded(ORIGIN_BOX[0]));
  }

  /** A matrix between construction and painting, which the grammar forbids, is passed over:
      the path after it is judged where it is not painted. So are q, Q and Do there; and any
      operator there, these or others, cuts the path in two, of which only the later part is
      judged and dropped. */
  lemma MatrixInsidePathIsMissed(p: Painter) returns (ops: seq<Op>, boxes: seq<Box>)
    requires p == FreshPainter(IDENTITY)
    ensures !WellFormed(ops, Outside)
    ensures Events(Filtered(ops, Frame(IDENTITY, []), boxes), p) == []
    ensures |Events(ops, p)| == 1 && Left(Events(ops, p), boxes) == Events(ops, p)
  {
    var s, far := LineTo(Point(0.0, 0.0)), Translation(100.0);
    hide Left, WellFormed, Filtered, Inside;
    ops, boxes := [Build(s), Concat(far)] + DOT, ORIGIN_BOX;
    var f := Frame(IDENTITY, []);
    DotInside(IDENTITY);
    FilterDot(ops, s, far, f, boxes);
    var e := FarDot(ops, s, far, p);
    OneLeft(e, boxes);
  }

  lemma FarDot(ops: seq<Op>, s: Segment, far: Matrix, p: Painter) returns (e: Event)
    requires ops == [Build(s), Concat(far)] + DOT && s == LineTo(Point(0.0, 0.0)) && far == Translation(100.0)
    requires p == FreshPainter(IDENTITY)
    ensures Events(ops, p) == [e] && !Erased(e, ORIGIN_BOX) && !WellFormed(ops, Outside)
  {
    hide Mul, WellFormed, Inside, PlacedPoints, Translation;
    var p1 := Step(Build(s), p);
    var p2 := Step(Concat(far), p1);
    var p3 := Step(Build(s), p2);
    e := Painted(0, p3.path, false, p3.g);
    assert ops[1..] == [Concat(far)] + DOT && ops[1..][1..] == DOT && DOT[1..] == [Paint(0)] && [Paint(0)][1..] == [];
    assert Events([Paint(0)], p3) == [e] + Events([], Step(Paint(0), p3));
    assert Events(DOT, p2) == [] + Events([Paint(0)], p3);
    assert Events(ops[1..], p1) == [] + Events(DOT, p2);
    var path := [Placed(s, IDENTITY), Placed(s, Mul(far, IDENTITY))];
    assert p3.path == path;
    FarPoints(path, s, far);
    Misplaced(ops, s, far);
  }

  lemma Misplaced(ops: seq<Op>, s: Segment, far: Matrix)
    requires ops == [Build(s), Concat(far)] + DOT
    ensures !WellFormed(ops, Outside)
  {
  }

  lemma FarPoints(path: seq<Placed>, s: Segment, far: Matrix)
    requires s == LineTo(Point(0.0, 0.0)) && far == Translation(100.0)
    requires path == [Placed(s, IDENTITY), Placed(s, Mul(far, IDENTITY))]
    ensures !Inside(PlacedPoints(path), ORIGIN_BOX)
  {
    var ps := PlacedPoints(path);
    assert path[..1] == [path[0]] && [path[0]][..0] == [];
    assert PlacedPoints([]) == [] && |PlacedPoints([path[0]])| == 1;
    assert ApplyAll(path[1].ctm, PointsOf(s))[0].x == 100.0;
    assert ps[1].x == 100.0;
    forall b | b in ORIGIN_BOX ensures !AllIn(ps, Padded(b)) {
      assert b == ORIGIN_BOX[0];
    }
  }

  lemma FilterDot(ops: seq<Op>, s: Segment, far: Matrix, f: Frame, boxes: seq<Box>)
    requires ops == [Build(s), Concat(far)] + DOT && s == LineTo(Point(0.0, 0.0)) && f == Frame(IDENTITY, [])
    requires Inside(DevicePoints([s], IDENTITY), boxes)
    ensures Filtered(ops, f, boxes) == [Build(s), Concat(far)]
    ensures Events(Filtered(ops, f, boxes), FreshPainter(IDENTITY)) == []
  {
    hide Surviving, Mul, Inside, Events;
    assert ops[1..] == [Concat(far)] + DOT && ops[1..][1..] == DOT && DOT[1..] == [Paint(0)] && [Paint(0)][1..] == [];
    assert [] + [s] == [s];
    assert Parse(ops, []) == Parse(ops[1..], [s]);
    assert Parse(DOT, []) == Parse([Paint(0)], [s]);
    FilterStep(ops[1..], [s], f, boxes);
    FilterStep([Paint(0)], [s], f, boxes);
    FilterEnd([], f, boxes);
    assert AsOps([s]) + [Concat(far)] == [Build(s), Concat(far)];
    assert Filtered(ops, f, boxes) == [Build(s), Concat(far)] + ([] + []);
    BuildThenMove(s, far, FreshPainter(IDENTITY));
  }

  lemma BuildThenMove(s: Segment, far: Matrix, p: Painter)
    ensures Events([Build(s), Concat(far)], p) == []
  {
    var kept := [Build(s), Concat(far)];
    assert kept[1..] == [Concat(far)] && [Concat(far)][1..] == [];
    assert Events([Concat(far)], Step(Build(s), p)) == [] + Events([], Step(Concat(far), Step(Build(s), p)));
  }

  /** A form drawn a second time is passed over, whatever the matrix. */
  lemma SecondIsPassedOver(name: string, m: Matrix, c: Cursor, boxes: seq<Box>, res: Resources, forms: Forms)
    requires c.path == [] && FormNamed(name, res, forms).Some?
    ensures var w := Walk([Do(name), Concat(m), Do(name)], c, boxes, res, forms, {});
            var id := FormNamed(name, res, forms).value;
            w.forms[id] == forms[id].(ops := Filtered(forms[id].ops, StartOf(forms[id], c.frame.ctm).frame, boxes))
  {
    var id := FormNamed(name, res, forms);
    var e := EraseForm(id, c.frame.ctm, boxes, res, forms, {});
    var c1 := After(Do(name), c);
    var c2 := After(Concat(m), c1);
    VisitedOne(id.value, c.frame.ctm, boxes, res, forms, {});
    EraseGrows(id, c.frame.ctm, boxes, res, forms, {});
    SkippedForm(id, c2.frame.ctm, boxes, res, e.forms, e.seen);
    hide EraseForm, Filtered, Grows;
    WalkDone(After(Do(name), c2), boxes, res, e.forms, e.seen);
    WalkOpStep(Do(name), [], c2, boxes, res, e.forms, e.seen, Walked([], 0, e.forms, e.seen),
               Walk([], After(Do(name), c2), boxes, res, e.forms, e.seen));
    assert [Do(name)] + [] == [Do(name)];
    WalkOpStep(Concat(m), [Do(name)], c1, boxes, res, e.forms, e.seen, Walked([], 0, e.forms, e.seen),
               Walk([Do(name)], c2, boxes, res, e.forms, e.seen));
    assert [Concat(m)] + [Do(name)] == [Concat(m), Do(name)];
    WalkOpStep(Do(name), [Concat(m), Do(name)], c, boxes, res, forms, {}, e,
               Walk([Concat(m), Do(name)], c1, boxes, res, e.forms, e.seen));
    assert [Do(name)] + [Concat(m), Do(name)] == [Do(name), Concat(m), Do(name)];
  }
}
