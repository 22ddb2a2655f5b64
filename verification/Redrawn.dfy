/** Forms that are drawn more than once (app/pdftools/paths.py:91-102): a form has one stream,
    filtered where the walk meets it first, and every placement of it paints what is left. */
module Redrawn {
  import opened Wrappers
  import opened Geometry
  import opened Paths
  import opened PathsProof
  import opened PageErase

  // ------------------------------------------------------------- full painting

  /** The events of a stream, with those of a form after every event that draws it. A form
      being drawn is not drawn inside itself. */
  function Drawn(events: seq<Event>, res: Resources, forms: Forms, above: set<nat>): seq<Event>
    decreases forms.Keys - above, |events|
  {
    if events == [] then []
    else
      var id := if events[0].FormDrawn? then FormNamed(events[0].name, res, forms) else None;
      var inner := if id.None? || id.value in above then []
                   else Drawn(Events(forms[id.value].ops, FormPainter(forms[id.value], events[0].g)),
                              Inherited(forms[id.value], res), forms, above + {id.value});
      [events[0]] + inner + Drawn(events[1..], res, forms, above)
  }

  datatype Placement = Placement(form: nat, ctm: Matrix)

  /** Every placement of a form in that painting, in order. */
  function Placements(events: seq<Event>, res: Resources, forms: Forms, above: set<nat>): seq<Placement>
    decreases forms.Keys - above, |events|
  {
    if events == [] then []
    else
      var id := if events[0].FormDrawn? then FormNamed(events[0].name, res, forms) else None;
      var inner := if id.None? || id.value in above then []
                   else [Placement(id.value, events[0].g.ctm)]
                        + Placements(Events(forms[id.value].ops, FormPainter(forms[id.value], events[0].g)),
                                     Inherited(forms[id.value], res), forms, above + {id.value});
      inner + Placements(events[1..], res, forms, above)
  }

  /** The matrix each form is first drawn under, a form met before being passed over. */
  function Firsts(events: seq<Event>, res: Resources, forms: Forms, first: map<nat, Matrix>): (r: map<nat, Matrix>)
    ensures first.Keys <= r.Keys && forall id :: id in first ==> r[id] == first[id]
    decreases forms.Keys - first.Keys, |events|
  {
    if events == [] then first
    else
      var id := if events[0].FormDrawn? then FormNamed(events[0].name, res, forms) else None;
      if id.None? || id.value in first then Firsts(events[1..], res, forms, first)
      else
        var form := forms[id.value];
        assert first[id.value := events[0].g.ctm].Keys == first.Keys + {id.value};
        var inner := Firsts(Events(form.ops, FormPainter(form, events[0].g)), Inherited(form, res), forms,
                            first[id.value := events[0].g.ctm]);
        Firsts(events[1..], res, forms, inner)
  }

  // ------------------------------------------------------------ dropped items

  /** Which items of a stream are dropped. */
  function Dooms(items: seq<Item>, f: Frame, boxes: seq<Box>): (d: seq<bool>)
    ensures |d| == |items|
  {
    if items == [] then []
    else [Doomed(items[0], f.ctm, boxes)] + Dooms(items[1..], FrameAfter(items[0], f), boxes)
  }

  function Without(items: seq<Item>, d: seq<bool>): seq<Item>
    requires |d| == |items|
  {
    if items == [] then [] else (if d[0] then [] else [items[0]]) + Without(items[1..], d[1..])
  }

  lemma {:induction false} SurvivingIsWithout(items: seq<Item>, f: Frame, boxes: seq<Box>)
    ensures Surviving(items, f, boxes) == Without(items, Dooms(items, f, boxes))
  {
    if items != [] {
      SurvivingIsWithout(items[1..], FrameAfter(items[0], f), boxes);
    }
  }

  function NoDoom(n: nat): (d: seq<bool>)
    ensures |d| == n && forall i :: 0 <= i < n ==> !d[i]
  {
    seq(n, i => false)
  }

  lemma {:induction false} WithoutNone(items: seq<Item>, d: seq<bool>)
    requires |d| == |items| && forall i :: 0 <= i < |d| ==> !d[i]
    ensures Without(items, d) == items
  {
    if items != [] {
      WithoutNone(items[1..], d[1..]);
    }
  }

  /** Only a path that is painted is ever dropped. */
  predicate Plain(items: seq<Item>, d: seq<bool>) {
    |d| == |items| && forall i :: 0 <= i < |d| && d[i] ==>
      items[i].builds != [] && items[i].closer.Some? && items[i].closer.value.Paint?
  }

  lemma {:induction false} DoomsArePlain(items: seq<Item>, f: Frame, boxes: seq<Box>)
    ensures Plain(items, Dooms(items, f, boxes))
  {
    if items != [] {
      DoomsArePlain(items[1..], FrameAfter(items[0], f), boxes);
    }
  }

  // ---------------------------------------------------------- events that stay

  function Kept(events: seq<Event>, keep: seq<bool>): seq<Event>
    requires |keep| == |events|
  {
    if events == [] then [] else (if keep[0] then [events[0]] else []) + Kept(events[1..], keep[1..])
  }

  /** Which events are not ones that may disappear. */
  function Unerased(events: seq<Event>, boxes: seq<Box>): (keep: seq<bool>)
    ensures |keep| == |events|
  {
    if events == [] then [] else [!Erased(events[0], boxes)] + Unerased(events[1..], boxes)
  }

  /** Exactly the events that stay are kept. */
  predicate Right(events: seq<Event>, keep: seq<bool>, boxes: seq<Box>) {
    keep == Unerased(events, boxes)
  }

  predicate OnlyPaintings(events: seq<Event>, keep: seq<bool>) {
    |keep| == |events| && forall i :: 0 <= i < |events| && !keep[i] ==> events[i].Painted?
  }

  predicate Shows(i: Item) {
    i.closer.Some? && (i.closer.value.Paint? || i.closer.value.Do? || i.closer.value.Other?)
  }

  /** The events of the items, marked by whether their item stays. */
  function Marks(items: seq<Item>, d: seq<bool>): seq<bool>
    requires |d| == |items|
  {
    if items == [] then [] else (if Shows(items[0]) then [!d[0]] else []) + Marks(items[1..], d[1..])
  }

  lemma KeptHead(events: seq<Event>, keep: seq<bool>)
    requires events != [] && |keep| == |events|
    ensures Kept(events, keep) == Kept(events[..1], keep[..1]) + Kept(events[1..], keep[1..])
  {
    assert Kept(events[..1], keep[..1]) == if keep[0] then [events[0]] else [];
  }

  lemma {:induction false} KeptConcat(a: seq<Event>, b: seq<Event>, m: seq<bool>, n: seq<bool>)
    requires |m| == |a| && |n| == |b|
    ensures Kept(a + b, m + n) == Kept(a, m) + Kept(b, n)
    decreases |a|
  {
    if a == [] {
      assert a + b == b && m + n == n;
    } else {
      assert (a + b)[..1] == a[..1] && (m + n)[..1] == m[..1];
      assert (a + b)[1..] == a[1..] + b && (m + n)[1..] == m[1..] + n;
      KeptHead(a + b, m + n);
      KeptHead(a, m);
      KeptConcat(a[1..], b, m[1..], n);
      hide Kept;
    }
  }

  /** A path that is painted leaves the painter as it was. */
  lemma PaintingLeavesNothing(i: Item, p: Painter)
    requires i.closer.Some? && i.closer.value.Paint? && Ready(p, Outside)
    ensures Run(PrintItem(i), p) == p
  {
    var p1 := p.(path := p.path + Place(i.builds, p.g.ctm));
    RunBuilds(i.builds, p);
    OneOp(i.closer.value, p1);
    RunConcat(AsOps(i.builds), [i.closer.value], p);
  }

  lemma ItemShows(i: Item, p: Painter)
    requires i.closer.Some? && !i.closer.value.Build?
    ensures var e := Events(PrintItem(i), p);
            |e| == (if Shows(i) then 1 else 0) && (Shows(i) ==> (e[0].Painted? <==> i.closer.value.Paint?))
  {
    var p1 := p.(path := p.path + Place(i.builds, p.g.ctm));
    RunBuilds(i.builds, p);
    OneOp(i.closer.value, p1);
    RunConcat(AsOps(i.builds), [i.closer.value], p);
  }

  /** What dropping the items `d` does to a stream painted under any frame: the events marked
      go, and they are the right ones exactly when `d` are the items that frame dooms. */
  ghost predicate Marked(items: seq<Item>, d: seq<bool>, f: Frame, p: Painter, boxes: seq<Box>)
    requires |d| == |items|
  {
    var events := Events(Print(items), p);
    && OnlyPaintings(events, Marks(items, d))
    && Events(Print(Without(items, d)), p) == Kept(events, Marks(items, d))
    && (d == Dooms(items, f, boxes) <==> Right(events, Marks(items, d), boxes))
  }

  lemma {:induction false} DroppingMarks(items: seq<Item>, d: seq<bool>, f: Frame, p: Painter, boxes: seq<Box>,
                                         mode: Mode)
    requires ItemsAllowed(items, mode) && Ready(p, mode) && Framed(f, p) && Plain(items, d)
    ensures Marked(items, d, f, p, boxes)
    decreases |items|
  {
    hide Doomed, Erased, Run, Allowed, Framed, PrintItem, FrameAfter;
    if items == [] {
    } else if items[0].closer.None? {
      assert items == [items[0]] && items[1..] == [];
      LastMarks(items[0], d, f, p, boxes);
    } else {
      var head, rest := items[0], items[1..];
      assert [head] + rest == items && [d[0]] + d[1..] == d;
      ItemMeaning(head, f, p, boxes, mode);
      var f1, p1 := FrameAfter(head, f), Run(PrintItem(head), p);
      DroppingMarks(rest, d[1..], f1, p1, boxes, ModeAfter(head, mode));
      FirstMarks(head, rest, d, f, p, boxes, mode);
    }
  }

  lemma LastMarks(i: Item, d: seq<bool>, f: Frame, p: Painter, boxes: seq<Box>)
    requires i.closer.None? && |d| == 1 && Plain([i], d)
    ensures Marked([i], d, f, p, boxes)
  {
    RunBuilds(i.builds, p);
    assert PrintItem(i) == AsOps(i.builds) && Print([i]) == PrintItem(i) + Print([]) == PrintItem(i);
    assert Without([i], d) == [i] + Without([], d[1..]) == [i];
    assert Dooms([i], f, boxes) == [false] == d;
  }

  lemma FirstMarks(head: Item, rest: seq<Item>, d: seq<bool>, f: Frame, p: Painter, boxes: seq<Box>, mode: Mode)
    requires |d| == 1 + |rest| && Plain([head] + rest, d) && Ready(p, mode) && Framed(f, p) && Allowed(head, mode)
    requires head.closer.Some? && !head.closer.value.Build?
    requires Marked(rest, d[1..], FrameAfter(head, f), Run(PrintItem(head), p), boxes)
    ensures Marked([head] + rest, d, f, p, boxes)
  {
    hide Events, Run, Framed, Doomed, Print, Dooms, Unerased, Without, Marks, Kept, Erased, Left;
    var items, p1 := [head] + rest, Run(PrintItem(head), p);
    var e, es := Events(PrintItem(head), p), Events(Print(rest), p1);
    var m, ms := (if Shows(head) then [!d[0]] else []), Marks(rest, d[1..]);
    assert items[0] == head;
    ItemShows(head, p);
    ItemMeaning(head, f, p, boxes, mode);
    PrintFirst(head, rest);
    RunConcat(PrintItem(head), Print(rest), p);
    MarksFirst(head, rest, d, f, boxes);
    WithoutFirst(head, rest, d, p, mode);
    HeadFlag(head, d[0], f, e, boxes);
    MarkedTogether(e, es, m, ms, boxes);
  }

  /** What is painted without the dropped items, the first of them apart. */
  lemma WithoutFirst(head: Item, rest: seq<Item>, d: seq<bool>, p: Painter, mode: Mode)
    requires |d| == 1 + |rest| && Plain([head] + rest, d) && Ready(p, mode) && Allowed(head, mode)
    requires head.closer.Some? && !head.closer.value.Build?
    ensures var m := if Shows(head) then [!d[0]] else [];
            |Events(PrintItem(head), p)| == |m| && Events(Print(Without([head] + rest, d)), p)
            == Kept(Events(PrintItem(head), p), m) + Events(Print(Without(rest, d[1..])), Run(PrintItem(head), p))
  {
    hide Events, Run, Print, Without, Kept, PrintItem;
    var later, e := Without(rest, d[1..]), Events(PrintItem(head), p);
    assert ([head] + rest)[0] == head;
    ItemShows(head, p);
    WithoutStep(head, rest, d);
    KeptOne(e, if Shows(head) then [!d[0]] else []);
    if d[0] {
      PaintingLeavesNothing(head, p);
      assert [] + later == later && [] + Events(Print(later), p) == Events(Print(later), p);
    } else {
      PrintFirst(head, later);
      RunConcat(PrintItem(head), Print(later), p);
    }
  }

  lemma WithoutStep(head: Item, rest: seq<Item>, d: seq<bool>)
    requires |d| == 1 + |rest|
    ensures Without([head] + rest, d) == (if d[0] then [] else [head]) + Without(rest, d[1..])
  {
    assert ([head] + rest)[1..] == rest;
  }

  /** Marks of two runs of events, put together. */
  lemma MarkedTogether(e: seq<Event>, es: seq<Event>, m: seq<bool>, ms: seq<bool>, boxes: seq<Box>)
    requires |e| == |m| && |es| == |ms| && OnlyPaintings(es, ms) && OnlyPaintings(e, m)
    ensures OnlyPaintings(e + es, m + ms) && Kept(e + es, m + ms) == Kept(e, m) + Kept(es, ms)
    ensures Right(e + es, m + ms, boxes) <==> m == Unerased(e, boxes) && Right(es, ms, boxes)
  {
    PaintingsTogether(e, es, m, ms);
    hide Kept, Unerased, OnlyPaintings;
    UnerasedConcat(e, es, boxes);
    KeptConcat(e, es, m, ms);
    SplitEqual(m, ms, Unerased(e, boxes), Unerased(es, boxes));
  }

  lemma PaintingsTogether(e: seq<Event>, es: seq<Event>, m: seq<bool>, ms: seq<bool>)
    requires OnlyPaintings(e, m) && OnlyPaintings(es, ms)
    ensures OnlyPaintings(e + es, m + ms)
  {
  }

  lemma MarksFirst(head: Item, rest: seq<Item>, d: seq<bool>, f: Frame, boxes: seq<Box>)
    requires |d| == 1 + |rest|
    ensures Marks([head] + rest, d) == (if Shows(head) then [!d[0]] else []) + Marks(rest, d[1..])
    ensures d == Dooms([head] + rest, f, boxes)
            <==> d[0] == Doomed(head, f.ctm, boxes) && d[1..] == Dooms(rest, FrameAfter(head, f), boxes)
  {
    hide Doomed, FrameAfter;
    assert ([head] + rest)[1..] == rest && d == [d[0]] + d[1..];
    assert Dooms([head] + rest, f, boxes)[1..] == Dooms(rest, FrameAfter(head, f), boxes);
  }

  lemma {:induction false} UnerasedConcat(a: seq<Event>, b: seq<Event>, boxes: seq<Box>)
    ensures Unerased(a + b, boxes) == Unerased(a, boxes) + Unerased(b, boxes)
    decreases |a|
  {
    if a == [] {
      assert a + b == b;
    } else {
      assert (a + b)[1..] == a[1..] + b;
      UnerasedConcat(a[1..], b, boxes);
    }
  }

  lemma KeptOne(e: seq<Event>, m: seq<bool>)
    requires |e| == |m| <= 1
    ensures Kept(e, m) == if m == [true] then e else []
  {
  }

  lemma HeadFlag(head: Item, dropped: bool, f: Frame, e: seq<Event>, boxes: seq<Box>)
    requires |e| == if Shows(head) then 1 else 0
    requires Left(e, boxes) == if Doomed(head, f.ctm, boxes) then [] else e
    requires dropped ==> Shows(head)
    ensures (if Shows(head) then [!dropped] else []) == Unerased(e, boxes) <==> dropped == Doomed(head, f.ctm, boxes)
  {
    assert Doomed(head, f.ctm, boxes) ==> Shows(head);
    hide Doomed, Shows, Erased, Left;
    if Shows(head) {
      assert e == [e[0]];
      OneLeft(e[0], boxes);
      UnerasedOne(e[0], boxes);
    }
  }

  lemma UnerasedOne(e: Event, boxes: seq<Box>)
    ensures Unerased([e], boxes) == [!Erased(e, boxes)]
  {
  }

  lemma SplitEqual(a: seq<bool>, b: seq<bool>, c: seq<bool>, d: seq<bool>)
    requires |a| == |c|
    ensures a + b == c + d <==> a == c && b == d
  {
    if a + b == c + d {
      assert a == (a + b)[..|a|] && c == (c + d)[..|a|];
      assert b == (a + b)[|a|..] && d == (c + d)[|a|..];
    }
  }

  // ------------------------------------------------------------ what forms hold

  /** The items a form loses: those doomed where it is first drawn, none if it never is. */
  function Lost(id: nat, forms: Forms, first: map<nat, Matrix>, boxes: seq<Box>): (d: seq<bool>)
    requires id in forms
    ensures |d| == |Parse(forms[id].ops, [])|
  {
    var items := Parse(forms[id].ops, []);
    if id in first then Dooms(items, StartOf(forms[id], first[id]).frame, boxes) else NoDoom(|items|)
  }

  /** Whether a placement dooms exactly the items the form loses. */
  predicate AsFirst(pl: Placement, forms: Forms, first: map<nat, Matrix>, boxes: seq<Box>) {
    pl.form in forms ==>
      Dooms(Parse(forms[pl.form].ops, []), StartOf(forms[pl.form], pl.ctm).frame, boxes)
          == Lost(pl.form, forms, first, boxes)
  }

  ghost predicate AllAsFirst(pls: seq<Placement>, forms: Forms, first: map<nat, Matrix>, boxes: seq<Box>) {
    forall pl :: pl in pls ==> AsFirst(pl, forms, first, boxes)
  }

  /** `after` holds every form as the walk leaves it. */
  ghost predicate Stripped(before: Forms, after: Forms, first: map<nat, Matrix>, boxes: seq<Box>) {
    SameShape(before, after) && forall id :: id in before ==>
      after[id].ops == Print(Without(Parse(before[id].ops, []), Lost(id, before, first, boxes)))
  }

  /** Walking into the forms that a stream draws leaves each filtered under the matrix it is
      first drawn under. */
  ghost predicate FilteredAt(original: Forms, w: Walked, first: map<nat, Matrix>, known: set<nat>, boxes: seq<Box>) {
    && w.seen == first.Keys
    && forall id :: id in first && id in original && id !in known ==>
         id in w.forms && w.forms[id].ops == Filtered(original[id].ops, StartOf(original[id], first[id]).frame, boxes)
  }

  lemma FirstsShallow(head: Event, rest: seq<Event>, res: Resources, forms: Forms, first: map<nat, Matrix>)
    requires EntersNoForm(head, res, forms, first.Keys)
    ensures Firsts([head] + rest, res, forms, first) == Firsts(rest, res, forms, first)
  {
    assert ([head] + rest)[1..] == rest;
  }

  lemma FirstsDeep(head: Event, rest: seq<Event>, res: Resources, forms: Forms, first: map<nat, Matrix>, id: nat,
                   inner: map<nat, Matrix>)
    requires head.FormDrawn? && FormNamed(head.name, res, forms) == Some(id) && id !in first
    requires inner == Firsts(Events(forms[id].ops, FormPainter(forms[id], head.g)), Inherited(forms[id], res), forms,
                             first[id := head.g.ctm])
    ensures Firsts([head] + rest, res, forms, first) == Firsts(rest, res, forms, inner)
  {
    hide Events, FormPainter;
    assert ([head] + rest)[1..] == rest;
  }

  lemma {:induction false} FirstsAreVisited(events: seq<Event>, boxes: seq<Box>, res: Resources, original: Forms,
                                            forms: Forms, first: map<nat, Matrix>)
    requires AllWellFormed(original) && Unvisited(original, forms, first.Keys)
    ensures FilteredAt(original, VisitAll(events, boxes, res, forms, first.Keys), Firsts(events, res, original, first),
                       first.Keys, boxes)
    ensures VisitAll(events, boxes, res, forms, first.Keys).seen == Firsts(events, res, original, first).Keys
    decreases forms.Keys - first.Keys, |events|
  {
    hide Events, EraseForm, WellFormed, Filtered, Grows;
    if events != [] {
      hide VisitAll, FormPainter, Inherited, FilteredAt, Firsts;
      var head, rest := events[0], events[1..];
      assert events == [head] + rest;
      var seen := first.Keys;
      if !head.FormDrawn? {
        VisitFirst([head], rest, boxes, res, forms, seen);
        FirstsShallow(head, rest, res, original, first);
        FirstsAreVisited(rest, boxes, res, original, forms, first);
      } else {
        var id := FormNamed(head.name, res, forms);
        var w := EraseForm(id, head.g.ctm, boxes, res, forms, seen);
        VisitForm(head, rest, boxes, res, forms, seen, w);
        if id.None? || id.value in seen {
          SkippedForm(id, head.g.ctm, boxes, res, forms, seen);
          FirstsShallow(head, rest, res, original, first);
          FirstsAreVisited(rest, boxes, res, original, forms, first);
        } else {
          var form, first1 := original[id.value], first[id.value := head.g.ctm];
          var inner := Events(form.ops, FormPainter(form, head.g));
          assert first1.Keys == seen + {id.value};
          EraseGrows(id, head.g.ctm, boxes, res, forms, seen);
          FormErased(id.value, head.g, boxes, res, forms, seen, inner);
          VisitedOne(id.value, head.g.ctm, boxes, res, forms, seen);
          FirstsAreVisited(inner, boxes, Inherited(form, res), original, forms, first1);
          var first2 := Firsts(inner, Inherited(form, res), original, first1);
          FirstsDeep(head, rest, res, original, first, id.value, first2);
          NextUnvisited(original, forms, seen, w);
          VisitAllGrows(rest, boxes, res, w.forms, w.seen);
          FirstsAreVisited(rest, boxes, res, original, w.forms, first2);
          LaterKeeps(original, forms, seen, id.value, first1, first2, Firsts(rest, res, original, first2), w,
                     VisitAll(inner, boxes, Inherited(form, res), forms, seen + {id.value}),
                     VisitAll(rest, boxes, res, w.forms, w.seen), boxes);
        }
      }
    }
  }

  lemma NextUnvisited(original: Forms, forms: Forms, seen: set<nat>, w: Walked)
    requires Unvisited(original, forms, seen) && Grows(forms, seen, w.forms, w.seen)
    ensures Unvisited(original, w.forms, w.seen)
  {
  }

  lemma LaterKeeps(original: Forms, forms: Forms, seen: set<nat>, id: nat, first1: map<nat, Matrix>,
                   first2: map<nat, Matrix>, first3: map<nat, Matrix>, w: Walked, inner: Walked, later: Walked,
                   boxes: seq<Box>)
    requires id in original && first1.Keys == seen + {id} && first1.Keys <= first2.Keys && first2.Keys <= first3.Keys
    requires id !in seen
    requires forall k :: k in first1 ==> first2[k] == first1[k]
    requires forall k :: k in first2 ==> first3[k] == first2[k]
    requires inner.seen == w.seen && id in inner.forms && inner.forms == w.forms[id := inner.forms[id]]
    requires w.forms.Keys == original.Keys && Grows(w.forms, w.seen, later.forms, later.seen)
    requires w.forms[id].ops == Filtered(original[id].ops, StartOf(original[id], first1[id]).frame, boxes)
    requires FilteredAt(original, inner, first2, first1.Keys, boxes)
    requires FilteredAt(original, later, first3, first2.Keys, boxes)
    ensures FilteredAt(original, later, first3, seen, boxes)
  {
    hide Filtered;
  }

  // ------------------------------------------------------------- the comparison

  /** `wanted` is what should be painted and `got` what is: never more of what may stay, and
      the same when `right` holds; if no event is missing or too many, it holds. */
  ghost predicate Weighed(wanted: seq<Event>, got: seq<Event>, boxes: seq<Box>, right: bool) {
    && |Left(got, boxes)| <= |wanted| && |Left(got, boxes)| <= |got|
    && (|Left(got, boxes)| == |wanted| == |got| ==> right)
    && (right ==> wanted == got)
  }

  lemma WeighedTogether(a: seq<Event>, b: seq<Event>, p: bool, c: seq<Event>, d: seq<Event>, q: bool, boxes: seq<Box>)
    requires Weighed(a, b, boxes, p) && Weighed(c, d, boxes, q)
    ensures Weighed(a + c, b + d, boxes, p && q)
  {
    LeftConcat(b, d, boxes);
  }

  lemma HeadWeighed(e: Event, keep: bool, boxes: seq<Box>)
    ensures Weighed(Left([e], boxes), if keep then [e] else [], boxes, keep == !Erased(e, boxes))
  {
    OneLeft(e, boxes);
  }

  /** Against what it should show, what a thinned stream shows with the forms as the walk
      leaves them. */
  lemma {:induction false} Compare(events: seq<Event>, keep: seq<bool>, res: Resources, before: Forms, after: Forms,
                                   first: map<nat, Matrix>, boxes: seq<Box>, above: set<nat>)
    requires AllWellFormed(before) && SameShape(before, after) && Stripped(before, after, first, boxes)
    requires OnlyPaintings(events, keep)
    ensures Weighed(Left(Drawn(events, res, before, above), boxes), Drawn(Kept(events, keep), res, after, above), boxes,
                    Right(events, keep, boxes)
                    && AllAsFirst(Placements(events, res, before, above), before, first, boxes))
    decreases before.Keys - above, |events|
  {
    hide Events, Left, Erased, WellFormed, Stripped, Weighed, AsFirst, AllAsFirst, Kept, Drawn, Placements;
    if events == [] {
      NothingWeighed(keep, res, before, after, first, boxes, above);
    } else {
      var head, rest := events[0], events[1..];
      Compare(rest, keep[1..], res, before, after, first, boxes, above);
      var id := if head.FormDrawn? then FormNamed(head.name, res, before) else None;
      if id.None? || id.value in above {
        ShallowWeighed(events, keep, res, before, after, first, boxes, above);
      } else {
        var form := before[id.value];
        var inner := Events(form.ops, FormPainter(form, head.g));
        var marks := PlacementMarks(id.value, head.g, before, after, first, boxes);
        Compare(inner, marks, Inherited(form, res), before, after, first, boxes, above + {id.value});
        DeepBefore(events, res, before, first, boxes, above, id.value, inner);
        DeepAfter(events, keep, res, before, after, boxes, above, id.value, Kept(inner, marks));
        FormWeighed(head, Drawn(inner, Inherited(form, res), before, above + {id.value}),
                    Drawn(Kept(inner, marks), Inherited(form, res), after, above + {id.value}),
                    Right(inner, marks, boxes)
                    && AllAsFirst(Placements(inner, Inherited(form, res), before, above + {id.value}),
                                  before, first, boxes),
                    Drawn(rest, res, before, above), Drawn(Kept(rest, keep[1..]), res, after, above),
                    Right(rest, keep[1..], boxes)
                        && AllAsFirst(Placements(rest, res, before, above), before, first, boxes),
                    boxes, Drawn(events, res, before, above), Drawn(Kept(events, keep), res, after, above),
                    Right(events, keep, boxes)
                        && AllAsFirst(Placements(events, res, before, above), before, first, boxes));
      }
    }
  }

  lemma NothingWeighed(keep: seq<bool>, res: Resources, before: Forms, after: Forms, first: map<nat, Matrix>,
                       boxes: seq<Box>, above: set<nat>)
    requires keep == []
    ensures Weighed(Left(Drawn([], res, before, above), boxes), Drawn(Kept([], keep), res, after, above), boxes,
                    Right([], keep, boxes) && AllAsFirst(Placements([], res, before, above), before, first, boxes))
  {
  }

  /** One placement of a form, painted before and after. */
  lemma PlacementMarks(id: nat, g: Graphics, before: Forms, after: Forms, first: map<nat, Matrix>, boxes: seq<Box>)
    returns (marks: seq<bool>)
    requires id in before && AllWellFormed(before) && Stripped(before, after, first, boxes)
    ensures var inner := Events(before[id].ops, FormPainter(before[id], g));
            && OnlyPaintings(inner, marks)
            && Events(after[id].ops, FormPainter(after[id], g)) == Kept(inner, marks)
            && (AsFirst(Placement(id, g.ctm), before, first, boxes) <==> Right(inner, marks, boxes))
  {
    hide Events, Kept, Unerased, Marks, Dooms, Print, Parse, Without;
    var form, items := before[id], Parse(before[id].ops, []);
    var lost, frame, p := Lost(id, before, first, boxes), StartOf(before[id], g.ctm).frame, FormPainter(before[id], g);
    ParseAllowed(form.ops, [], Outside);
    PrintParse(form.ops, []);
    assert AsOps([]) + form.ops == form.ops;
    if id in first { DoomsArePlain(items, StartOf(form, first[id]).frame, boxes); }
    DroppingMarks(items, lost, frame, p, boxes, Outside);
    marks := Marks(items, lost);
  }

  lemma DrawnFirst(head: Event, rest: seq<Event>, res: Resources, forms: Forms, above: set<nat>)
    requires EntersNoForm(head, res, forms, above)
    ensures Drawn([head] + rest, res, forms, above) == [head] + Drawn(rest, res, forms, above)
    ensures Placements([head] + rest, res, forms, above) == Placements(rest, res, forms, above)
  {
    assert ([head] + rest)[1..] == rest;
  }

  lemma DrawnForm(head: Event, rest: seq<Event>, res: Resources, forms: Forms, above: set<nat>, id: nat,
                  inner: seq<Event>)
    requires head.FormDrawn? && FormNamed(head.name, res, forms) == Some(id) && id !in above
    requires inner == Events(forms[id].ops, FormPainter(forms[id], head.g))
    ensures Drawn([head] + rest, res, forms, above)
         == [head] + Drawn(inner, Inherited(forms[id], res), forms, above + {id}) + Drawn(rest, res, forms, above)
    ensures Placements([head] + rest, res, forms, above)
         == [Placement(id, head.g.ctm)] + Placements(inner, Inherited(forms[id], res), forms, above + {id})
            + Placements(rest, res, forms, above)
  {
    hide Events;
    assert ([head] + rest)[1..] == rest;
  }

  lemma ShallowWeighed(events: seq<Event>, keep: seq<bool>, res: Resources, before: Forms, after: Forms,
                       first: map<nat, Matrix>, boxes: seq<Box>, above: set<nat>)
    requires events != [] && |keep| == |events| && EntersNoForm(events[0], res, before, above)
             && SameShape(before, after)
    requires Weighed(Left(Drawn(events[1..], res, before, above), boxes),
                     Drawn(Kept(events[1..], keep[1..]), res, after, above), boxes,
                     Right(events[1..], keep[1..], boxes)
                     && AllAsFirst(Placements(events[1..], res, before, above), before, first, boxes))
    ensures Weighed(Left(Drawn(events, res, before, above), boxes), Drawn(Kept(events, keep), res, after, above), boxes,
                    Right(events, keep, boxes)
                    && AllAsFirst(Placements(events, res, before, above), before, first, boxes))
  {
    hide Weighed, Left, Erased, Drawn, Placements, AllAsFirst;
    var head, rest := events[0], events[1..];
    assert events == [head] + rest && keep == [keep[0]] + keep[1..];
    DrawnFirst(head, rest, res, before, above);
    LeftConcat([head], Drawn(rest, res, before, above), boxes);
    HeadWeighed(head, keep[0], boxes);
    WeighedTogether(Left([head], boxes), if keep[0] then [head] else [], keep[0] == !Erased(head, boxes),
                    Left(Drawn(rest, res, before, above), boxes), Drawn(Kept(rest, keep[1..]), res, after, above),
                    Right(rest, keep[1..], boxes)
                    && AllAsFirst(Placements(rest, res, before, above), before, first, boxes), boxes);
    var later := Kept(rest, keep[1..]);
    if keep[0] {
      DrawnFirst(head, later, res, after, above);
    } else {
      assert [] + later == later && [] + Drawn(later, res, after, above) == Drawn(later, res, after, above);
    }
  }

  /** What an event that draws a form adds to the painting before and to the placements. */
  lemma DeepBefore(events: seq<Event>, res: Resources, forms: Forms, first: map<nat, Matrix>, boxes: seq<Box>,
                   above: set<nat>, id: nat, inner: seq<Event>)
    requires events != [] && events[0].FormDrawn?
    requires FormNamed(events[0].name, res, forms) == Some(id) && id in forms && id !in above
    requires inner == Events(forms[id].ops, FormPainter(forms[id], events[0].g))
    ensures Joined(Drawn(events, res, forms, above), events[0],
                   Drawn(inner, Inherited(forms[id], res), forms, above + {id}), Drawn(events[1..], res, forms, above))
    ensures AllAsFirst(Placements(events, res, forms, above), forms, first, boxes)
            <==> && AsFirst(Placement(id, events[0].g.ctm), forms, first, boxes)
                 && AllAsFirst(Placements(inner, Inherited(forms[id], res), forms, above + {id}), forms, first, boxes)
                 && AllAsFirst(Placements(events[1..], res, forms, above), forms, first, boxes)
  {
    hide Drawn, Placements, AsFirst, Events, AllAsFirst, FormPainter, Inherited, FormNamed;
    var head, rest := events[0], events[1..];
    assert events == [head] + rest;
    DrawnForm(head, rest, res, forms, above, id, inner);
    AllOfThem(Placement(id, head.g.ctm), Placements(inner, Inherited(forms[id], res), forms, above + {id}),
              Placements(rest, res, forms, above), forms, first, boxes);
  }

  /** And to the painting after. */
  lemma DeepAfter(events: seq<Event>, keep: seq<bool>, res: Resources, before: Forms, after: Forms, boxes: seq<Box>,
                  above: set<nat>, id: nat, now: seq<Event>)
    requires events != [] && |keep| == |events| && keep[0] && events[0].FormDrawn? && SameShape(before, after)
    requires FormNamed(events[0].name, res, before) == Some(id) && id in before && id !in above
    requires now == Events(after[id].ops, FormPainter(after[id], events[0].g))
    ensures Joined(Drawn(Kept(events, keep), res, after, above), events[0],
                   Drawn(now, Inherited(before[id], res), after, above + {id}),
                   Drawn(Kept(events[1..], keep[1..]), res, after, above))
    ensures Right(events, keep, boxes) <==> Right(events[1..], keep[1..], boxes)
    ensures !Erased(events[0], boxes)
  {
    hide Drawn, Events, Kept, Right, FormPainter, Inherited, FormNamed, Erased;
    assert events == [events[0]] + events[1..];
    KeptFirst(events[0], events[1..], keep, boxes);
    DrawnAfter(events[0], Kept(events[1..], keep[1..]), res, before, after, above, id, now);
  }

  lemma DrawnAfter(head: Event, rest: seq<Event>, res: Resources, before: Forms, after: Forms, above: set<nat>, id: nat,
                   inner: seq<Event>)
    requires head.FormDrawn? && FormNamed(head.name, res, before) == Some(id) && id !in above
             && SameShape(before, after)
    requires inner == Events(after[id].ops, FormPainter(after[id], head.g))
    ensures Drawn([head] + rest, res, after, above)
         == [head] + Drawn(inner, Inherited(before[id], res), after, above + {id}) + Drawn(rest, res, after, above)
  {
    hide Events, FormPainter, Drawn;
    DrawnForm(head, rest, res, after, above, id, inner);
  }

  /** What an event that draws a form makes of the paintings of the form and of the rest. */
  predicate Joined(whole: seq<Event>, head: Event, inner: seq<Event>, rest: seq<Event>) {
    whole == [head] + inner + rest
  }

  lemma FormWeighed(head: Event, x: seq<Event>, y: seq<Event>, p: bool, u: seq<Event>, v: seq<Event>, q: bool,
                    boxes: seq<Box>, wanted: seq<Event>, got: seq<Event>, right: bool)
    requires !Erased(head, boxes) && Weighed(Left(x, boxes), y, boxes, p) && Weighed(Left(u, boxes), v, boxes, q)
    requires Joined(wanted, head, x, u) && Joined(got, head, y, v) && (right <==> p && q)
    ensures Weighed(Left(wanted, boxes), got, boxes, right)
  {
    HeadWeighed(head, true, boxes);
    hide Weighed, Left, Erased;
    WeighedTogether(Left([head], boxes), [head], true, Left(x, boxes), y, p, boxes);
    WeighedTogether(Left([head], boxes) + Left(x, boxes), [head] + y, p, Left(u, boxes), v, q, boxes);
    LeftConcat([head], x, boxes);
    LeftConcat([head] + x, u, boxes);
  }

  lemma AllOfThem(pl: Placement, a: seq<Placement>, b: seq<Placement>, forms: Forms, first: map<nat, Matrix>,
                  boxes: seq<Box>)
    ensures AllAsFirst([pl] + a + b, forms, first, boxes)
            <==> && AsFirst(pl, forms, first, boxes)
                 && AllAsFirst(a, forms, first, boxes) && AllAsFirst(b, forms, first, boxes)
  {
    hide AsFirst;
    assert pl in [pl] + a + b && forall k :: k in a || k in b ==> k in [pl] + a + b;
  }

  lemma KeptFirst(head: Event, rest: seq<Event>, keep: seq<bool>, boxes: seq<Box>)
    requires |keep| == 1 + |rest| && keep[0] && head.FormDrawn?
    ensures Kept([head] + rest, keep) == [head] + Kept(rest, keep[1..])
    ensures Right([head] + rest, keep, boxes) <==> Right(rest, keep[1..], boxes)
    ensures !Erased(head, boxes)
  {
    assert ([head] + rest)[1..] == rest && keep == [true] + keep[1..];
    assert Unerased([head] + rest, boxes) == [true] + Unerased(rest, boxes);
    SplitEqual([true], keep[1..], [true], Unerased(rest, boxes));
  }

  // ------------------------------------------------------------- whole pages

  lemma {:induction false} LeftTwice(events: seq<Event>, boxes: seq<Box>)
    ensures Left(Left(events, boxes), boxes) == Left(events, boxes)
  {
    if events != [] {
      LeftTwice(events[1..], boxes);
      if !Erased(events[0], boxes) {
        LeftFirst(events[0], Left(events[1..], boxes), boxes);
      } else {
        assert [] + Left(events[1..], boxes) == Left(events[1..], boxes);
      }
    }
  }

  lemma StrippedBy(forms: Forms, w: Walked, first: map<nat, Matrix>, boxes: seq<Box>)
    requires Grows(forms, {}, w.forms, w.seen) && FilteredAt(forms, w, first, {}, boxes)
    ensures Stripped(forms, w.forms, first, boxes)
  {
    hide Parse, Print, Surviving, Dooms;
    forall id | id in forms
      ensures w.forms[id].ops == Print(Without(Parse(forms[id].ops, []), Lost(id, forms, first, boxes)))
    {
      var items := Parse(forms[id].ops, []);
      if id in first {
        SurvivingIsWithout(items, StartOf(forms[id], first[id]).frame, boxes);
      } else {
        WithoutNone(items, NoDoom(|items|));
        PrintParse(forms[id].ops, []);
        assert AsOps([]) + forms[id].ops == forms[id].ops;
      }
    }
  }

  /** The page's own stream is filtered where it is painted. */
  lemma PageMarks(contents: seq<Op>, f: Frame, p: Painter, boxes: seq<Box>) returns (marks: seq<bool>)
    requires WellFormed(contents, Outside) && p.path == [] && !p.clipping && Framed(f, p)
    ensures var events := Events(contents, p);
            && OnlyPaintings(events, marks) && Right(events, marks, boxes)
            && Events(Filtered(contents, f, boxes), p) == Kept(events, marks)
  {
    hide Events, Kept, Unerased, Dooms, Print, Parse, Without, Surviving;
    var items := Parse(contents, []);
    ParseAllowed(contents, [], Outside);
    PrintParse(contents, []);
    assert AsOps([]) + contents == contents;
    SurvivingIsWithout(items, f, boxes);
    DoomsArePlain(items, f, boxes);
    DroppingMarks(items, Dooms(items, f, boxes), f, p, boxes, Outside);
    marks := Marks(items, Dooms(items, f, boxes));
  }

  lemma ErasedContents(contents: seq<Op>, boxes: seq<Box>, left: real, bottom: real, res: Resources, forms: Forms)
    requires boxes != []
    ensures var page := ErasedPage(Some(contents), boxes, left, bottom, res, forms);
            && page.contents == Some(Filtered(contents, PageFrame(left, bottom), boxes))
            && page.forms == Walk(contents, Start(PageFrame(left, bottom)), boxes, res, forms, {}).forms
  {
    var c := Start(PageFrame(left, bottom));
    WalkKeepsSurvivors(contents, c, boxes, res, forms, {});
    hide Walk, Surviving, Parse, Print;
    if Walk(contents, c, boxes, res, forms, {}).dropped == 0 {
      NothingDropped(contents, c, boxes, res, forms, {});
      assert AsOps([]) + contents == contents;
    }
  }

  lemma {:induction false} DoomsWithoutBoxes(items: seq<Item>, f: Frame)
    ensures Dooms(items, f, []) == NoDoom(|items|)
  {
    if items != [] {
      DoomsWithoutBoxes(items[1..], FrameAfter(items[0], f));
    }
  }

  lemma WithoutBoxes(contents: seq<Op>, left: real, bottom: real, res: Resources, forms: Forms)
    ensures ErasedPage(Some(contents), [], left, bottom, res, forms) == Outcome(Some(contents), forms, 0)
  {
  }

  lemma AllWithoutBoxes(pls: seq<Placement>, forms: Forms, first: map<nat, Matrix>)
    ensures AllAsFirst(pls, forms, first, [])
  {
    hide Dooms, Parse;
    forall pl | pl in pls && pl.form in forms
      ensures AsFirst(pl, forms, first, [])
    {
      var form, items := forms[pl.form], Parse(forms[pl.form].ops, []);
      DoomsWithoutBoxes(items, StartOf(form, pl.ctm).frame);
      if pl.form in first {
        DoomsWithoutBoxes(items, StartOf(form, first[pl.form]).frame);
      }
    }
  }

  /** The erased page paints, form by form and placement by placement, what the page painted
      without the paths that may disappear, exactly when every placement of a form dooms the
      items that its first one does. */
  lemma PaintsLeftExactly(contents: seq<Op>, boxes: seq<Box>, left: real, bottom: real, res: Resources, forms: Forms,
                          p: Painter)
    requires WellFormed(contents, Outside) && AllWellFormed(forms)
    requires p.path == [] && !p.clipping && Framed(PageFrame(left, bottom), p)
    ensures var page, events := ErasedPage(Some(contents), boxes, left, bottom, res, forms), Events(contents, p);
            Drawn(Events(page.contents.value, p), res, page.forms, {}) == Left(Drawn(events, res, forms, {}), boxes)
            <==> AllAsFirst(Placements(events, res, forms, {}), forms, Firsts(events, res, forms, map[]), boxes)
  {
    hide Events, Left, Drawn, Placements, Walk, VisitAll, WellFormed, Firsts, AllAsFirst, FilteredAt, Stripped, Grows,
         Filtered, ErasedPage, Unerased, Kept;
    var c, events := Start(PageFrame(left, bottom)), Events(contents, p);
    if boxes == [] {
      WithoutBoxes(contents, left, bottom, res, forms);
      LeftWithoutBoxes(Drawn(events, res, forms, {}));
      AllWithoutBoxes(Placements(events, res, forms, {}), forms, Firsts(events, res, forms, map[]));
      return;
    }
    var w, first := Walk(contents, c, boxes, res, forms, {}), Firsts(events, res, forms, map[]);
    ErasedContents(contents, boxes, left, bottom, res, forms);
    WalkVisits(contents, c, p, Outside, boxes, res, forms, {});
    WalkGrows(contents, c, boxes, res, forms, {});
    var none: map<nat, Matrix> := map[];
    assert none.Keys == {};
    FirstsAreVisited(events, boxes, res, forms, forms, none);
    SameVisits(forms, w, VisitAll(events, boxes, res, forms, {}), first, boxes);
    StrippedBy(forms, w, first, boxes);
    var marks := PageMarks(contents, c.frame, p, boxes);
    Compare(events, marks, res, forms, w.forms, first, boxes, {});
    LeftTwice(Drawn(events, res, forms, {}), boxes);
  }

  lemma SameVisits(forms: Forms, w: Walked, v: Walked, first: map<nat, Matrix>, boxes: seq<Box>)
    requires w.forms == v.forms && w.seen == v.seen && FilteredAt(forms, v, first, {}, boxes)
    requires Grows(forms, {}, w.forms, w.seen)
    ensures FilteredAt(forms, w, first, {}, boxes) && SameShape(forms, w.forms)
  {
    hide Filtered;
  }

  // ------------------------------------------------------ forms drawn only once

  predicate Once(pls: seq<Placement>) {
    forall i, j :: 0 <= i < j < |pls| ==> pls[i].form != pls[j].form
  }

  /** No form of `pls` is among `known`, and each is first drawn where `pls` says. */
  ghost predicate Recorded(pls: seq<Placement>, before: map<nat, Matrix>, after: map<nat, Matrix>) {
    && (forall pl :: pl in pls ==> pl.form in after && after[pl.form] == pl.ctm)
    && (forall id :: id in after && id !in before ==> exists pl :: pl in pls && pl.form == id)
  }

  lemma {:induction false} OnceIsFirst(events: seq<Event>, res: Resources, forms: Forms, above: set<nat>,
                                       first: map<nat, Matrix>)
    requires Once(Placements(events, res, forms, above)) && above <= first.Keys
    requires forall pl :: pl in Placements(events, res, forms, above) ==> pl.form !in first
    ensures Recorded(Placements(events, res, forms, above), first, Firsts(events, res, forms, first))
    decreases forms.Keys - above, |events|
  {
    hide Events, FormPainter, Inherited;
    if events != [] {
      var head, rest := events[0], events[1..];
      var id := if head.FormDrawn? then FormNamed(head.name, res, forms) else None;
      if id.None? || id.value in above {
        assert Placements(events, res, forms, above) == Placements(rest, res, forms, above);
        OnceIsFirst(rest, res, forms, above, first);
      } else {
        var form, first1 := forms[id.value], first[id.value := head.g.ctm];
        var inner := Events(form.ops, FormPainter(form, head.g));
        var pl, a, b := Placement(id.value, head.g.ctm),
                        Placements(inner, Inherited(form, res), forms, above + {id.value}),
                        Placements(rest, res, forms, above);
        assert Placements(events, res, forms, above) == [pl] + a + b;
        OnceApart(pl, a, b, first);
        OnceIsFirst(inner, Inherited(form, res), forms, above + {id.value}, first1);
        var first2 := Firsts(inner, Inherited(form, res), forms, first1);
        OnceIsFirst(rest, res, forms, above, first2);
        RecordedTogether(pl, a, b, first, first2, Firsts(rest, res, forms, first2));
      }
    }
  }

  lemma OnceApart(pl: Placement, a: seq<Placement>, b: seq<Placement>, first: map<nat, Matrix>)
    requires Once([pl] + a + b) && forall x :: x in [pl] + a + b ==> x.form !in first
    ensures Once(a) && Once(b) && pl.form !in first
    ensures forall x :: x in a ==> x.form !in first && x.form != pl.form
    ensures forall x :: x in b ==> x.form !in first && x.form != pl.form
    ensures forall x, y :: x in a && y in b ==> x.form != y.form
  {
    var all := [pl] + a + b;
    assert all[0] == pl;
    assert forall i :: 0 <= i < |a| ==> a[i] == all[1 + i];
    assert forall j :: 0 <= j < |b| ==> b[j] == all[1 + |a| + j];
  }

  lemma RecordedTogether(pl: Placement, a: seq<Placement>, b: seq<Placement>, first: map<nat, Matrix>,
                         first2: map<nat, Matrix>, first3: map<nat, Matrix>)
    requires Recorded(a, first[pl.form := pl.ctm], first2) && Recorded(b, first2, first3)
    requires pl.form in first2 && first2[pl.form] == pl.ctm
    requires first2.Keys <= first3.Keys && forall id :: id in first2 ==> first3[id] == first2[id]
    ensures Recorded([pl] + a + b, first, first3)
  {
  }

  /** What a caller can check: when no form is reached twice, the erased page paints exactly
      what the page painted without the paths that may disappear. */
  lemma OncePaintsLeft(contents: seq<Op>, boxes: seq<Box>, left: real, bottom: real, res: Resources, forms: Forms,
                       p: Painter)
    requires WellFormed(contents, Outside) && AllWellFormed(forms)
    requires p.path == [] && !p.clipping && Framed(PageFrame(left, bottom), p)
    requires Once(Placements(Events(contents, p), res, forms, {}))
    ensures var page := ErasedPage(Some(contents), boxes, left, bottom, res, forms);
            Drawn(Events(page.contents.value, p), res, page.forms, {})
            == Left(Drawn(Events(contents, p), res, forms, {}), boxes)
  {
    hide Events, Left, Drawn, Placements, Firsts, ErasedPage, Dooms, Parse, WellFormed;
    var events := Events(contents, p);
    PaintsLeftExactly(contents, boxes, left, bottom, res, forms, p);
    OnceIsFirst(events, res, forms, {}, map[]);
  }

  // --------------------------------------------------- a form that loses too much

  lemma {:induction false} FilterNoPath(ops: seq<Op>, f: Frame, boxes: seq<Box>)
    requires forall i :: 0 <= i < |ops| ==> !ops[i].Build?
    ensures Filtered(ops, f, boxes) == ops
    decreases |ops|
  {
    if ops == [] {
      FilterEnd([], f, boxes);
    } else {
      FilterStep(ops, [], f, boxes);
      FilterNoPath(ops[1..], FrameAfter(Item([], Some(ops[0])), f), boxes);
      assert AsOps([]) + [ops[0]] + ops[1..] == ops;
    }
  }

  /** At the origin the dot is dropped. */
  lemma DotFiltered(f: Frame)
    requires f.ctm == IDENTITY
    ensures Filtered(DOT, f, ORIGIN_BOX) == []
  {
    var s := LineTo(Point(0.0, 0.0));
    assert DOT[1..] == [Paint(0)] && [Paint(0)][1..] == [] && [] + [s] == [s];
    assert Parse(DOT, []) == Parse([Paint(0)], [s]);
    DotInside(IDENTITY);
    hide Inside;
    FilterStep([Paint(0)], [s], f, ORIGIN_BOX);
    FilterEnd([], f, ORIGIN_BOX);
    assert [] + AsOps([]) == [];
  }

  /** A hundred units on it is painted, and stays. */
  lemma DotElsewhere(p: Painter) returns (e: Event)
    requires p == Painter(Graphics(Mul(IDENTITY, Mul(Translation(100.0), IDENTITY)), [], []), [], [], false)
    ensures Events(DOT, p) == [e] && e.Painted? && !Erased(e, ORIGIN_BOX)
  {
    var s := LineTo(Point(0.0, 0.0));
    var p1 := Step(Build(s), p);
    e := Painted(0, p1.path, false, p1.g);
    assert DOT[1..] == [Paint(0)] && [Paint(0)][1..] == [];
    assert Events([Paint(0)], p1) == [e] + Events([], Step(Paint(0), p1));
    assert p1.path == [Placed(s, p.g.ctm)] && p1.path[..0] == [];
    assert PlacedPoints(p1.path) == PlacedPoints([]) + ApplyAll(p.g.ctm, PointsOf(s));
    assert PlacedPoints(p1.path)[0].x == 100.0;
    assert !AllIn(PlacedPoints(p1.path), Padded(ORIGIN_BOX[0]));
  }

  lemma TwiceEvents(contents: seq<Op>, p: Painter) returns (g: Graphics)
    requires contents == [Do("F"), Concat(Translation(100.0)), Do("F")] && p == FreshPainter(IDENTITY)
    ensures g == Graphics(Mul(Translation(100.0), IDENTITY), [], [])
    ensures Events(contents, p) == [FormDrawn("F", p.g), FormDrawn("F", g)]
  {
    hide Mul, Translation;
    g := Graphics(Mul(Translation(100.0), IDENTITY), [], []);
    assert contents[1..] == [Concat(Translation(100.0)), Do("F")] && contents[1..][1..] == [Do("F")]
           && [Do("F")][1..] == [];
    assert Events([Do("F")], p.(g := g)) == [FormDrawn("F", g)] + Events([], p.(g := g));
    assert Events(contents[1..], p) == [] + Events([Do("F")], p.(g := g));
  }

  /** A page that draws one dot twice, first inside a box and then far from it: the form loses
      the dot, and with it the second one, which no box covers. */
  lemma SecondPlacementIsLost() returns (contents: seq<Op>, res: Resources, forms: Forms, e: Event)
    ensures WellFormed(contents, Outside) && AllWellFormed(forms)
    ensures var page := ErasedPage(Some(contents), ORIGIN_BOX, 0.0, 0.0, res, forms);
            && e.Painted? && !Erased(e, ORIGIN_BOX)
            && e in Drawn(Events(contents, FreshPainter(IDENTITY)), res, forms, {})
            && e !in Drawn(Events(page.contents.value, FreshPainter(IDENTITY)), res, page.forms, {})
  {
    var p := FreshPainter(IDENTITY);
    contents := [Do("F"), Concat(Translation(100.0)), Do("F")];
    res, forms := Some(map["F" := 0]), map[0 := Form(IDENTITY, DOT, None)];
    DotIsWellFormed(contents, forms);
    TwiceErased(contents, res, forms);
    hide ErasedPage, WellFormed, AllWellFormed, Erased, Mul, Translation, Drawn, Events;
    var g := TwiceEvents(contents, p);
    e := DotElsewhere(FormPainter(forms[0], g));
    var page := ErasedPage(Some(contents), ORIGIN_BOX, 0.0, 0.0, res, forms);
    DotDrawnTwice(FormDrawn("F", p.g), FormDrawn("F", g), res, forms, e);
    NothingDrawnTwice(FormDrawn("F", p.g), FormDrawn("F", g), res, page.forms, e);
  }

  lemma IdentityTwice()
    ensures Mul(IDENTITY, IDENTITY) == IDENTITY
  {
  }

  lemma TwiceErased(contents: seq<Op>, res: Resources, forms: Forms)
    requires contents == [Do("F"), Concat(Translation(100.0)), Do("F")]
    requires res == Some(map["F" := 0]) && forms == map[0 := Form(IDENTITY, DOT, None)]
    ensures var page := ErasedPage(Some(contents), ORIGIN_BOX, 0.0, 0.0, res, forms);
            page.contents == Some(contents) && 0 in page.forms && page.forms[0].ops == []
  {
    hide ErasedPage, Walk, Filtered, Translation, Mul;
    IdentityTwice();
    var f := PageFrame(0.0, 0.0);
    ErasedContents(contents, ORIGIN_BOX, 0.0, 0.0, res, forms);
    FilterNoPath(contents, f, ORIGIN_BOX);
    SecondIsPassedOver("F", Translation(100.0), Start(f), ORIGIN_BOX, res, forms);
    assert f.ctm == IDENTITY && StartOf(forms[0], IDENTITY).frame.ctm == IDENTITY;
    DotFiltered(StartOf(forms[0], IDENTITY).frame);
  }

  lemma DotIsWellFormed(contents: seq<Op>, forms: Forms)
    requires contents == [Do("F"), Concat(Translation(100.0)), Do("F")] && forms == map[0 := Form(IDENTITY, DOT, None)]
    ensures WellFormed(contents, Outside) && AllWellFormed(forms)
  {
    assert DOT[1..] == [Paint(0)] && [Paint(0)][1..] == [];
    assert contents[1..] == [Concat(Translation(100.0)), Do("F")] && contents[1..][1..] == [Do("F")]
           && [Do("F")][1..] == [];
  }

  lemma DotDrawnTwice(fd0: Event, fd1: Event, res: Resources, forms: Forms, e: Event)
    requires fd0.FormDrawn? && fd1.FormDrawn? && fd0.name == fd1.name && FormNamed(fd1.name, res, forms) == Some(0)
    requires Events(forms[0].ops, FormPainter(forms[0], fd1.g)) == [e] && e.Painted?
    ensures e in Drawn([fd0, fd1], res, forms, {})
  {
    hide Events, FormPainter;
    var inner := Events(forms[0].ops, FormPainter(forms[0], fd0.g));
    assert [fd0, fd1] == [fd0] + [fd1] && [fd1] == [fd1] + [];
    DrawnForm(fd1, [], res, forms, {}, 0, [e]);
    DrawnFirst(e, [], Inherited(forms[0], res), forms, {0});
    assert [e] + [] == [e];
    DrawnForm(fd0, [fd1], res, forms, {}, 0, inner);
  }

  lemma NothingDrawnTwice(fd0: Event, fd1: Event, res: Resources, forms: Forms, e: Event)
    requires fd0.FormDrawn? && fd1.FormDrawn? && fd0.name == fd1.name && FormNamed(fd1.name, res, forms) == Some(0)
    requires forms[0].ops == [] && e.Painted?
    ensures e !in Drawn([fd0, fd1], res, forms, {})
  {
    assert [fd0, fd1] == [fd0] + [fd1] && [fd1] == [fd1] + [];
    DrawnForm(fd1, [], res, forms, {}, 0, []);
    DrawnForm(fd0, [fd1], res, forms, {}, 0, []);
  }
}
