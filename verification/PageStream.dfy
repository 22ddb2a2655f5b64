/** One content stream with all its operators (app/pdftools/page.py:13-31): glyphs are stripped
    from it, then outlines erased. Text and path operators paint in the order they stand. */
module PageStream {
  import opened Wrappers
  import opened Geometry
  import T = TextSemantics
  import S = Strip
  import SP = StripProof
  import P = Paths
  import PP = PathsProof
  import G = Glyphs

  /** q and Q belong to both halves; any other operator to the one it speaks of. */
  datatype Op = Save | Restore | Text(t: T.Op) | Graphic(g: P.Op)

  predicate Proper(op: Op) {
    && (op.Text? ==> !op.t.Save? && !op.t.Restore? && !op.t.Other?)
    && (op.Graphic? ==> !op.g.Save? && !op.g.Restore?)
  }

  predicate AllProper(ops: seq<Op>) {
    forall i :: 0 <= i < |ops| ==> Proper(ops[i])
  }

  datatype State = State(m: T.Machine, p: PP.Painter)

  /** A glyph is painted under the matrix, clip and graphics state of the moment. */
  datatype Event = Glyph(glyph: T.Event, under: PP.Graphics) | Shape(shape: PP.Event)

  /** What each half makes of an operator: to the text half one that is not its own is passed
      on, to the path half it is one that ends whatever path stands before it. */
  function AsText(op: Op): T.Op {
    match op
    case Save => T.Save
    case Restore => T.Restore
    case Text(t) => t
    case Graphic(_) => T.Other(0)
  }

  function AsPath(op: Op): P.Op {
    match op
    case Save => P.Save
    case Restore => P.Restore
    case Text(_) => P.Other(0)
    case Graphic(g) => g
  }

  function TextView(ops: seq<Op>): seq<T.Op> {
    if ops == [] then [] else [AsText(ops[0])] + TextView(ops[1..])
  }

  function PathView(ops: seq<Op>): seq<P.Op> {
    if ops == [] then [] else [AsPath(ops[0])] + PathView(ops[1..])
  }

  // ------------------------------------------------------------------ painting

  function Step(op: Op, env: T.Env, s: State): State {
    State(if op.Graphic? then s.m else T.Step(AsText(op), env, s.m),
          if op.Text? then s.p else PP.Step(AsPath(op), s.p))
  }

  function Glyphed(es: seq<T.Event>, g: PP.Graphics): seq<Event> {
    if es == [] then [] else [Glyph(es[0], g)] + Glyphed(es[1..], g)
  }

  function Shaped(es: seq<PP.Event>): seq<Event> {
    if es == [] then [] else [Shape(es[0])] + Shaped(es[1..])
  }

  function StepEvents(op: Op, env: T.Env, s: State): seq<Event> {
    match op
    case Text(t) => Glyphed(T.StepEvents(t, env, s.m), s.p.g)
    case Graphic(g) => Shaped(PP.StepEvents(g, s.p))
    case _ => []
  }

  function Run(ops: seq<Op>, env: T.Env, s: State): State {
    if ops == [] then s else Run(ops[1..], env, Step(ops[0], env, s))
  }

  function Events(ops: seq<Op>, env: T.Env, s: State): seq<Event> {
    if ops == [] then [] else StepEvents(ops[0], env, s) + Events(ops[1..], env, Step(ops[0], env, s))
  }

  lemma {:induction false} RunConcat(a: seq<Op>, b: seq<Op>, env: T.Env, s: State)
    ensures Run(a + b, env, s) == Run(b, env, Run(a, env, s))
    ensures Events(a + b, env, s) == Events(a, env, s) + Events(b, env, Run(a, env, s))
    decreases |a|
  {
    hide Step, StepEvents;
    if a == [] {
      assert a + b == b;
    } else {
      assert (a + b)[0] == a[0] && (a + b)[1..] == a[1..] + b;
      RunConcat(a[1..], b, env, Step(a[0], env, s));
    }
  }

  lemma OneOp(op: Op, env: T.Env, s: State)
    ensures Run([op], env, s) == Step(op, env, s)
    ensures Events([op], env, s) == StepEvents(op, env, s)
  {
    hide Step, StepEvents;
    assert StepEvents(op, env, s) + [] == StepEvents(op, env, s);
  }

  // ------------------------------------------------------- what may disappear

  /** A glyph by its number among those of the stream, a shape by where it lies. */
  predicate Gone(e: Event, n: nat, removable: set<nat>, boxes: seq<P.Box>) {
    match e
    case Glyph(glyph, _) => glyph.Drawn? && n in removable
    case Shape(shape) => PP.Erased(shape, boxes)
  }

  function After(e: Event, n: nat): nat {
    if e.Glyph? && e.glyph.Drawn? then n + 1 else n
  }

  function Counted(events: seq<Event>, n: nat): nat {
    if events == [] then n else Counted(events[1..], After(events[0], n))
  }

  function Left(events: seq<Event>, n: nat, removable: set<nat>, boxes: seq<P.Box>): seq<Event> {
    if events == [] then []
    else (if Gone(events[0], n, removable, boxes) then [] else [events[0]])
         + Left(events[1..], After(events[0], n), removable, boxes)
  }

  lemma {:induction false} LeftConcat(a: seq<Event>, b: seq<Event>, n: nat, removable: set<nat>, boxes: seq<P.Box>)
    ensures Left(a + b, n, removable, boxes)
         == Left(a, n, removable, boxes) + Left(b, Counted(a, n), removable, boxes)
    decreases |a|
  {
    hide Gone, After;
    if a == [] {
      assert a + b == b;
    } else {
      assert (a + b)[0] == a[0] && (a + b)[1..] == a[1..] + b;
      LeftConcat(a[1..], b, After(a[0], n), removable, boxes);
    }
  }

  lemma {:induction false} NothingRemoved(events: seq<Event>, n: nat)
    ensures Left(events, n, {}, []) == events
    decreases |events|
  {
    if events != [] {
      assert events[0].Shape? ==> !PP.Erased(events[0].shape, []);
      NothingRemoved(events[1..], After(events[0], n));
    }
  }

  /** First the glyphs, then the shapes: together both. */
  lemma {:induction false} LeftTwice(events: seq<Event>, n: nat, k: nat, removable: set<nat>, boxes: seq<P.Box>)
    ensures Left(Left(events, n, removable, []), k, {}, boxes) == Left(events, n, removable, boxes)
    decreases |events|
  {
    if events != [] {
      var e, rest := events[0], events[1..];
      var later := Left(rest, After(e, n), removable, []);
      assert e.Shape? ==> !PP.Erased(e.shape, []);
      if Gone(e, n, removable, []) {
        assert [] + later == later;
        LeftTwice(rest, After(e, n), k, removable, boxes);
      } else {
        assert ([e] + later)[0] == e && ([e] + later)[1..] == later;
        LeftTwice(rest, After(e, n), After(e, k), removable, boxes);
      }
    }
  }

  /** The glyphs a stream paints, in order. */
  function GlyphsIn(events: seq<Event>): seq<T.Event> {
    if events == [] then []
    else (if events[0].Glyph? then [events[0].glyph] else []) + GlyphsIn(events[1..])
  }

  lemma {:induction false} GlyphsConcat(a: seq<Event>, b: seq<Event>)
    ensures GlyphsIn(a + b) == GlyphsIn(a) + GlyphsIn(b)
    decreases |a|
  {
    if a == [] {
      assert a + b == b;
    } else {
      assert (a + b)[0] == a[0] && (a + b)[1..] == a[1..] + b;
      GlyphsConcat(a[1..], b);
    }
  }

  lemma {:induction false} OfGlyphs(es: seq<T.Event>, g: PP.Graphics, n: nat, removable: set<nat>,
                                    boxes: seq<P.Box>)
    ensures GlyphsIn(Glyphed(es, g)) == es
    ensures Counted(Glyphed(es, g), n) == n + SP.Count(es)
    ensures Left(Glyphed(es, g), n, removable, boxes) == Glyphed(SP.Keep(es, n, removable), g)
    decreases |es|
  {
    if es != [] {
      var rest := Glyphed(es[1..], g);
      assert ([Glyph(es[0], g)] + rest)[0] == Glyph(es[0], g) && ([Glyph(es[0], g)] + rest)[1..] == rest;
      OfGlyphs(es[1..], g, After(Glyph(es[0], g), n), removable, boxes);
    }
  }

  lemma {:induction false} OfShapes(es: seq<PP.Event>, n: nat, removable: set<nat>, boxes: seq<P.Box>)
    ensures GlyphsIn(Shaped(es)) == []
    ensures Counted(Shaped(es), n) == n
    ensures Left(Shaped(es), n, removable, boxes) == Shaped(PP.Left(es, boxes))
    decreases |es|
  {
    hide PP.Erased;
    if es != [] {
      var rest, later := Shaped(es[1..]), PP.Left(es[1..], boxes);
      assert ([Shape(es[0])] + rest)[0] == Shape(es[0]) && ([Shape(es[0])] + rest)[1..] == rest;
      OfShapes(es[1..], n, removable, boxes);
      assert ([es[0]] + later)[0] == es[0] && ([es[0]] + later)[1..] == later && [] + later == later;
    }
  }

  // ------------------------------------------------------------- stripping glyphs

  function Texts(ts: seq<T.Op>): seq<Op> {
    if ts == [] then [] else [Text(ts[0])] + Texts(ts[1..])
  }

  /** What replaces one operator. */
  ghost function Replaced(op: Op, pen: S.Pen, n: nat, job: S.Job): seq<Op>
    requires S.One(AsText(op), pen, n, job).Kept?
  {
    if op.Text? then Texts(S.One(op.t, pen, n, job).ops) else [op]
  }

  /** Rewriting, with every operator that is not replaced left as it is. */
  ghost function Rewritten(ops: seq<Op>, pen: S.Pen, saved: seq<S.Pen>, n: nat, job: S.Job): seq<Op>
    requires S.RewriteAll(TextView(ops), pen, saved, n, job).Kept?
  {
    if ops == [] then []
    else
      var t := AsText(ops[0]);
      assert TextView(ops)[1..] == TextView(ops[1..]);
      var pen' := S.PenAt(t, pen, saved, job.fonts);
      Replaced(ops[0], pen', n, job)
      + Rewritten(ops[1..], pen', S.Popped(t, pen, saved).1, S.One(t, pen', n, job).counted, job)
  }

  lemma {:induction false} TextsConcat(a: seq<Op>, b: seq<Op>)
    ensures TextView(a + b) == TextView(a) + TextView(b)
    decreases |a|
  {
    if a == [] {
      assert a + b == b;
    } else {
      assert (a + b)[0] == a[0] && (a + b)[1..] == a[1..] + b;
      TextsConcat(a[1..], b);
    }
  }

  lemma {:induction false} ViewOfTexts(ts: seq<T.Op>)
    ensures TextView(Texts(ts)) == ts
    decreases |ts|
  {
    if ts != [] {
      ViewOfTexts(ts[1..]);
      assert Texts(ts)[1..] == Texts(ts[1..]);
    }
  }

  /** It is the program's rewrite: the operators it produces are the same. */
  lemma {:induction false} RewrittenIsRewrite(ops: seq<Op>, pen: S.Pen, saved: seq<S.Pen>, n: nat, job: S.Job)
    requires AllProper(ops) && S.RewriteAll(TextView(ops), pen, saved, n, job).Kept?
    ensures TextView(Rewritten(ops, pen, saved, n, job)) == S.RewriteAll(TextView(ops), pen, saved, n, job).ops
    decreases |ops|
  {
    hide S.Rewrite, S.PenAt, S.Popped;
    if ops != [] {
      var t := AsText(ops[0]);
      assert TextView(ops)[1..] == TextView(ops[1..]);
      var pen' := S.PenAt(t, pen, saved, job.fonts);
      var one := S.One(t, pen', n, job);
      var head := if ops[0].Text? then Texts(one.ops) else [ops[0]];
      var rest := Rewritten(ops[1..], pen', S.Popped(t, pen, saved).1, one.counted, job);
      RewrittenIsRewrite(ops[1..], pen', S.Popped(t, pen, saved).1, one.counted, job);
      ViewOfTexts(one.ops);
      TextsConcat(head, rest);
      if !ops[0].Text? {
        assert one.ops == [t] && TextView([ops[0]]) == [t];
      }
    }
  }

  lemma {:induction false} RunTexts(ts: seq<T.Op>, env: T.Env, s: State)
    ensures Run(Texts(ts), env, s) == State(T.Run(ts, env, s.m), s.p)
    ensures Events(Texts(ts), env, s) == Glyphed(T.Events(ts, env, s.m), s.p.g)
    decreases |ts|
  {
    hide T.Step, T.StepEvents;
    if ts != [] {
      var m := T.Step(ts[0], env, s.m);
      assert Texts(ts)[0] == Text(ts[0]) && Texts(ts)[1..] == Texts(ts[1..]);
      RunTexts(ts[1..], env, State(m, s.p));
      GlyphedConcat(T.StepEvents(ts[0], env, s.m), T.Events(ts[1..], env, m), s.p.g);
    }
  }

  lemma {:induction false} GlyphedConcat(a: seq<T.Event>, b: seq<T.Event>, g: PP.Graphics)
    ensures Glyphed(a + b, g) == Glyphed(a, g) + Glyphed(b, g)
    decreases |a|
  {
    if a == [] {
      assert a + b == b;
    } else {
      assert (a + b)[0] == a[0] && (a + b)[1..] == a[1..] + b;
      GlyphedConcat(a[1..], b, g);
    }
  }

  ghost predicate Exact(round: real -> real) {
    forall x :: round(x) == x
  }

  /** One text operator, exactly. */
  lemma HeadExact(t: T.Op, pen: S.Pen, n: nat, job: S.Job, env: T.Env, m: T.Machine)
    requires Exact(job.round)
    requires T.Shows(t) ==> S.Measures(pen) && SP.Agree(pen, T.Ready(t, m).g, env)
    requires T.Shows(t) && S.Touches(n, S.CountCodes(T.ElementsOf(t), pen), job.removable) ==> pen.th != 0.0
    requires SP.AdvancesOf(T.StepEvents(t, env, m), n, job.adv, env)
    ensures T.Run(SP.Head(t, pen, n, job), env, m) == T.Step(t, env, m)
    ensures T.Events(SP.Head(t, pen, n, job), env, m) == SP.Keep(T.StepEvents(t, env, m), n, job.removable)
  {
    var head := SP.Head(t, pen, n, job);
    assert SP.RoundsWithin(job.round, 0.0);
    SP.HeadSim(t, pen, n, job, env, m, m, 0.0, 0.0);
    SP.ZeroStepSlacks(t, env, m, n, job.removable);
    hide T.Step, T.StepEvents, SP.StepSlacks, SP.SlackAfterStep, SP.AdvancesOf, SP.Head, T.Run, T.Events, SP.Agree,
         S.Touches, S.CountCodes;
    SP.ZeroNear(T.Events(head, env, m), SP.Keep(T.StepEvents(t, env, m), n, job.removable),
                SP.StepSlacks(t, env, m, n, 0.0, job.removable, 0.0));
  }

  lemma GraphicStays(g: P.Op, n: nat, env: T.Env, s: State, removable: set<nat>)
    ensures Counted(StepEvents(Graphic(g), env, s), n) == n
    ensures Left(StepEvents(Graphic(g), env, s), n, removable, []) == StepEvents(Graphic(g), env, s)
  {
    hide PP.StepEvents;
    var shown := PP.StepEvents(g, s.p);
    OfShapes(shown, n, {}, []);
    NothingRemoved(Shaped(shown), n);
    OfShapes(shown, n, removable, []);
  }

  lemma TextReplaced(t: T.Op, pen: S.Pen, n: nat, job: S.Job, env: T.Env, s: State)
    requires S.One(t, pen, n, job).Kept? && Exact(job.round)
    requires T.Shows(t) ==> SP.Agree(pen, T.Ready(t, s.m).g, env)
    requires SP.AdvancesOf(T.StepEvents(t, env, s.m), n, job.adv, env)
    ensures S.One(t, pen, n, job).counted == n + SP.Count(T.StepEvents(t, env, s.m))
    ensures Run(Texts(S.One(t, pen, n, job).ops), env, s) == State(T.Step(t, env, s.m), s.p)
    ensures Events(Texts(S.One(t, pen, n, job).ops), env, s)
         == Glyphed(SP.Keep(T.StepEvents(t, env, s.m), n, job.removable), s.p.g)
  {
    if T.Shows(t) {
      SP.CountElementEvents(T.ElementsOf(t), pen, T.Ready(t, s.m).g, env, T.Ready(t, s.m).at);
    }
    HeadExact(t, pen, n, job, env, s.m);
    assert S.One(t, pen, n, job).ops == SP.Head(t, pen, n, job);
    hide T.Step, SP.AdvancesOf, SP.Head, T.Run, T.Events, SP.Agree, S.Rewrite, S.Touches, S.CountCodes;
    RunTexts(S.One(t, pen, n, job).ops, env, s);
  }

  /** One operator, rewritten: the same state, and its glyphs without the removed ones. */
  lemma ReplacedExact(op: Op, pen: S.Pen, n: nat, job: S.Job, env: T.Env, s: State)
    requires Proper(op) && S.One(AsText(op), pen, n, job).Kept? && Exact(job.round)
    requires op.Text? && T.Shows(op.t) ==> SP.Agree(pen, T.Ready(op.t, s.m).g, env)
    requires SP.AdvancesOf(GlyphsIn(StepEvents(op, env, s)), n, job.adv, env)
    ensures S.One(AsText(op), pen, n, job).counted == Counted(StepEvents(op, env, s), n)
    ensures Run(Replaced(op, pen, n, job), env, s) == Step(op, env, s)
    ensures Events(Replaced(op, pen, n, job), env, s) == Left(StepEvents(op, env, s), n, job.removable, [])
  {
    hide T.Step, T.StepEvents, PP.Step, PP.StepEvents, SP.AdvancesOf, SP.Agree, S.Rewrite, S.Touches, S.CountCodes;
    OneOp(op, env, s);
    match op {
      case Text(t) =>
        OfGlyphs(T.StepEvents(t, env, s.m), s.p.g, n, job.removable, []);
        TextReplaced(t, pen, n, job, env, s);
      case Graphic(g) =>
        GraphicStays(g, n, env, s, job.removable);
      case _ =>
    }
  }

  lemma TracksOne(op: Op, pen: S.Pen, saved: seq<S.Pen>, env: T.Env, s: State)
    requires Proper(op) && SP.Tracks(pen, saved, s.m, env)
    ensures SP.Tracks(S.PenAt(AsText(op), pen, saved, env.fonts), S.Popped(AsText(op), pen, saved).1,
                      Step(op, env, s).m, env)
    ensures op.Text? && T.Shows(op.t) ==>
              SP.Agree(S.PenAt(op.t, pen, saved, env.fonts), T.Ready(op.t, s.m).g, env)
  {
    if !op.Graphic? {
      SP.TrackStep(AsText(op), pen, saved, env, s.m);
    }
    hide T.Step, SP.Tracks, SP.Agree;
  }

  /** A stream of text and graphics whose text is rewritten ends in the state the original ends
      in, and paints all of it but the removed glyphs, in the same order: every other glyph
      where it was, every shape under the same matrix and clip. */
  lemma {:induction false} RewrittenPaints(ops: seq<Op>, pen: S.Pen, saved: seq<S.Pen>, n: nat, job: S.Job,
                                           env: T.Env, s: State)
    requires AllProper(ops) && S.RewriteAll(TextView(ops), pen, saved, n, job).Kept?
    requires job.fonts == env.fonts && Exact(job.round) && SP.Tracks(pen, saved, s.m, env)
    requires SP.AdvancesOf(GlyphsIn(Events(ops, env, s)), n, job.adv, env)
    ensures Run(Rewritten(ops, pen, saved, n, job), env, s) == Run(ops, env, s)
    ensures Events(Rewritten(ops, pen, saved, n, job), env, s)
         == Left(Events(ops, env, s), n, job.removable, [])
    decreases |ops|
  {
    hide Exact, Step, StepEvents, Left, Counted, S.One, S.PenAt, S.Popped, SP.Tracks, SP.AdvancesOf, GlyphsIn;
    if ops == [] {
      NothingLeft(n, job.removable);
    } else {
      var op, t := ops[0], AsText(ops[0]);
      assert TextView(ops)[1..] == TextView(ops[1..]);
      var pen', saved' := S.PenAt(t, pen, saved, job.fonts), S.Popped(t, pen, saved).1;
      var shown, s1 := StepEvents(op, env, s), Step(op, env, s);
      var later := Events(ops[1..], env, s1);
      GlyphsConcat(shown, later);
      SP.AdvancesConcat(GlyphsIn(shown), GlyphsIn(later), n, job.adv, env);
      CountedGlyphs(shown, n);
      TracksOne(op, pen, saved, env, s);
      ReplacedExact(op, pen', n, job, env, s);
      var n', head := S.One(t, pen', n, job).counted, Replaced(op, pen', n, job);
      RewrittenPaints(ops[1..], pen', saved', n', job, env, s1);
      RunConcat(head, Rewritten(ops[1..], pen', saved', n', job), env, s);
      LeftConcat(shown, later, n, job.removable, []);
    }
  }

  lemma NothingLeft(n: nat, removable: set<nat>)
    ensures Left([], n, removable, []) == []
  {
  }

  lemma {:induction false} CountedGlyphs(events: seq<Event>, n: nat)
    ensures Counted(events, n) == n + SP.Count(GlyphsIn(events))
    decreases |events|
  {
    if events != [] {
      CountedGlyphs(events[1..], After(events[0], n));
      SP.CountConcat(if events[0].Glyph? then [events[0].glyph] else [], GlyphsIn(events[1..]));
    }
  }

  // ------------------------------------------------------------ erasing outlines

  function Builds(path: seq<P.Segment>): seq<Op> {
    if path == [] then [] else [Graphic(P.Build(path[0]))] + Builds(path[1..])
  }

  function ItemOf(path: seq<P.Segment>, op: Op): P.Item {
    P.Item(path, Some(AsPath(op)))
  }

  /** Erasing, with every operator of a path that is not dropped left as it is. */
  function Filtered(ops: seq<Op>, path: seq<P.Segment>, f: P.Frame, boxes: seq<P.Box>): seq<Op> {
    if ops == [] then Builds(path)
    else if AsPath(ops[0]).Build? then Filtered(ops[1..], path + [AsPath(ops[0]).segment], f, boxes)
    else
      (if P.Doomed(ItemOf(path, ops[0]), f.ctm, boxes) then [] else Builds(path) + [ops[0]])
      + Filtered(ops[1..], [], P.FrameAfter(ItemOf(path, ops[0]), f), boxes)
  }

  lemma {:induction false} PathsConcat(a: seq<Op>, b: seq<Op>)
    ensures PathView(a + b) == PathView(a) + PathView(b)
    decreases |a|
  {
    if a == [] {
      assert a + b == b;
    } else {
      assert (a + b)[0] == a[0] && (a + b)[1..] == a[1..] + b;
      PathsConcat(a[1..], b);
    }
  }

  lemma {:induction false} ViewOfBuilds(path: seq<P.Segment>)
    ensures PathView(Builds(path)) == P.AsOps(path)
    decreases |path|
  {
    if path != [] {
      assert Builds(path)[0] == Graphic(P.Build(path[0])) && Builds(path)[1..] == Builds(path[1..]);
      ViewOfBuilds(path[1..]);
      assert P.AsOps(path) == [P.Build(path[0])] + P.AsOps(path[1..]);
    }
  }

  /** It is what the program keeps of the stream: the operators are the same. */
  lemma {:induction false} FilteredIsFilter(ops: seq<Op>, path: seq<P.Segment>, f: P.Frame, boxes: seq<P.Box>)
    ensures PathView(Filtered(ops, path, f, boxes)) == P.Print(P.Surviving(P.Parse(PathView(ops), path), f, boxes))
    decreases |ops|
  {
    hide P.Doomed, P.FrameAfter, P.Surviving, P.Print;
    if ops == [] {
      P.FilterEnd(path, f, boxes);
      ViewOfBuilds(path);
    } else {
      assert PathView(ops)[0] == AsPath(ops[0]) && PathView(ops)[1..] == PathView(ops[1..]);
      if AsPath(ops[0]).Build? {
        FilteredIsFilter(ops[1..], path + [AsPath(ops[0]).segment], f, boxes);
      } else {
        var item := ItemOf(path, ops[0]);
        var head := if P.Doomed(item, f.ctm, boxes) then [] else Builds(path) + [ops[0]];
        var rest := Filtered(ops[1..], [], P.FrameAfter(item, f), boxes);
        P.FilterStep(PathView(ops), path, f, boxes);
        FilteredIsFilter(ops[1..], [], P.FrameAfter(item, f), boxes);
        ViewOfBuilds(path);
        PathsConcat(Builds(path), [ops[0]]);
        PathsConcat(head, rest);
        assert PathView([ops[0]]) == [AsPath(ops[0])];
      }
    }
  }

  /** Where an operator may stand: a path is not interrupted by text. */
  function Next(op: Op, mode: PP.Mode): Option<PP.Mode> {
    if op.Text? then (if mode.Outside? then Some(mode) else None) else PP.Next(AsPath(op), mode)
  }

  predicate WellFormed(ops: seq<Op>, mode: PP.Mode) {
    ops == [] || (Next(ops[0], mode).Some? && WellFormed(ops[1..], Next(ops[0], mode).value))
  }

  lemma BuildRuns(segment: P.Segment, env: T.Env, s: State)
    ensures Step(Graphic(P.Build(segment)), env, s)
         == State(s.m, s.p.(path := s.p.path + [PP.Placed(segment, s.p.g.ctm)]))
    ensures StepEvents(Graphic(P.Build(segment)), env, s) == []
  {
    hide T.Step, T.StepEvents;
  }

  lemma {:induction false} RunBuilds(path: seq<P.Segment>, env: T.Env, s: State)
    ensures Run(Builds(path), env, s)
         == State(s.m, s.p.(path := s.p.path + PP.Place(path, s.p.g.ctm)))
    ensures Events(Builds(path), env, s) == []
    decreases |path|
  {
    hide Step, StepEvents;
    var placed := PP.Place(path, s.p.g.ctm);
    if path == [] {
      assert s.p.path + placed == s.p.path;
    } else {
      var first := PP.Placed(path[0], s.p.g.ctm);
      assert Builds(path)[0] == Graphic(P.Build(path[0])) && Builds(path)[1..] == Builds(path[1..]);
      BuildRuns(path[0], env, s);
      RunBuilds(path[1..], env, State(s.m, s.p.(path := s.p.path + [first])));
      PlacedFirst(path, s.p.g.ctm, s.p.path);
    }
  }

  lemma PlacedFirst(path: seq<P.Segment>, ctm: Matrix, before: seq<PP.Placed>)
    requires path != []
    ensures before + [PP.Placed(path[0], ctm)] + PP.Place(path[1..], ctm) == before + PP.Place(path, ctm)
  {
    assert PP.Place(path, ctm) == [PP.Placed(path[0], ctm)] + PP.Place(path[1..], ctm);
  }

  /** A path with its closer, seen by the painter. */
  lemma ItemRuns(path: seq<P.Segment>, op: Op, env: T.Env, s: State)
    requires !op.Text?
    ensures var item := ItemOf(path, op);
            && Run(Builds(path) + [op], env, s) == State(Step(op, env, s).m, PP.Run(P.PrintItem(item), s.p))
            && Events(Builds(path) + [op], env, s) == Shaped(PP.Events(P.PrintItem(item), s.p))
  {
    hide T.Step, PP.Step, PP.StepEvents;
    var s1 := State(s.m, s.p.(path := s.p.path + PP.Place(path, s.p.g.ctm)));
    PP.AfterItem(ItemOf(path, op), s.p);
    RunBuilds(path, env, s);
    OneOp(op, env, s1);
    RunConcat(Builds(path), [op], env, s);
    hide PP.Run, PP.Events;
    if !op.Graphic? {
      NoShapes(AsPath(op), s1.p);
    }
  }

  lemma NoShapes(op: P.Op, p: PP.Painter)
    requires op.Save? || op.Restore?
    ensures PP.StepEvents(op, p) == []
  {
  }

  lemma {:induction false} MoveBuild(path: seq<P.Segment>, segment: P.Segment)
    ensures Builds(path + [segment]) == Builds(path) + [Graphic(P.Build(segment))]
    decreases |path|
  {
    if path == [] {
      assert path + [segment] == [segment] && Builds([segment]) == [Graphic(P.Build(segment))] + Builds([]);
    } else {
      assert (path + [segment])[0] == path[0] && (path + [segment])[1..] == path[1..] + [segment];
      MoveBuild(path[1..], segment);
    }
  }

  /** Text outside a path is kept and moves nothing of the painter. */
  lemma TextKept(t: T.Op, f: P.Frame, boxes: seq<P.Box>, n: nat, env: T.Env, s: State)
    ensures !P.Doomed(ItemOf([], Text(t)), f.ctm, boxes) && P.FrameAfter(ItemOf([], Text(t)), f) == f
    ensures Run([Text(t)], env, s).p == s.p
    ensures Left(Events([Text(t)], env, s), n, {}, boxes) == Events([Text(t)], env, s)
  {
    hide T.Step, T.StepEvents;
    OneOp(Text(t), env, s);
    OfGlyphs(T.StepEvents(t, env, s.m), s.p.g, n, {}, boxes);
    SP.KeepNothingRemoved(T.StepEvents(t, env, s.m), n);
  }

  /** A path with its closer is dropped exactly when all it paints may disappear. */
  lemma ItemKept(path: seq<P.Segment>, op: Op, f: P.Frame, boxes: seq<P.Box>, mode: PP.Mode, n: nat, env: T.Env,
                 s: State)
    requires !op.Text? && !AsPath(op).Build? && PP.Allowed(ItemOf(path, op), mode)
    requires PP.Ready(s.p, mode) && PP.Framed(f, s.p)
    ensures var item, head := ItemOf(path, op), Builds(path) + [op];
            && PP.Framed(P.FrameAfter(item, f), Run(head, env, s).p)
            && PP.Ready(Run(head, env, s).p, PP.ModeAfter(item, mode))
            && (P.Doomed(item, f.ctm, boxes) ==>
                  Run(head, env, s) == s && Left(Events(head, env, s), n, {}, boxes) == [])
            && (!P.Doomed(item, f.ctm, boxes) ==> Left(Events(head, env, s), n, {}, boxes) == Events(head, env, s))
  {
    hide T.Step, PP.Step, PP.StepEvents, P.Inside, P.DevicePoints;
    var item := ItemOf(path, op);
    PP.ItemMeaning(item, f, s.p, boxes, mode);
    ItemRuns(path, op, env, s);
    OfShapes(PP.Events(P.PrintItem(item), s.p), n, {}, boxes);
  }

  /** What a well-formed stream says of an operator that ends the path before it. */
  lemma ClosesWell(ops: seq<Op>, path: seq<P.Segment>, mode: PP.Mode) returns (next: PP.Mode)
    requires ops != [] && !AsPath(ops[0]).Build? && !mode.Building? && (mode.Clipping? ==> path == [])
    requires WellFormed(ops, if path == [] then mode else PP.Building)
    ensures ops[0].Text? ==> path == [] && next == mode
    ensures !ops[0].Text? ==> PP.Allowed(ItemOf(path, ops[0]), mode) && next == PP.ModeAfter(ItemOf(path, ops[0]), mode)
    ensures !next.Building? && WellFormed(ops[1..], next)
  {
    next := if ops[0].Text? then mode else PP.ModeAfter(ItemOf(path, ops[0]), mode);
  }

  lemma {:induction false} FilteredPaints(ops: seq<Op>, path: seq<P.Segment>, f: P.Frame, boxes: seq<P.Box>,
                                          mode: PP.Mode, n: nat, env: T.Env, s: State)
    requires !mode.Building? && (mode.Clipping? ==> path == [])
    requires WellFormed(ops, if path == [] then mode else PP.Building)
    requires PP.Ready(s.p, mode) && PP.Framed(f, s.p)
    ensures Run(Filtered(ops, path, f, boxes), env, s) == Run(Builds(path) + ops, env, s)
    ensures Events(Filtered(ops, path, f, boxes), env, s)
         == Left(Events(Builds(path) + ops, env, s), n, {}, boxes)
    decreases |ops|
  {
    hide Run, Events, Left, Counted, P.Doomed, P.FrameAfter, PP.Framed, PP.Ready, PP.Allowed;
    if ops == [] {
      assert Builds(path) + ops == Builds(path);
      RunBuilds(path, env, s);
      NoneLeft(n, boxes);
    } else if AsPath(ops[0]).Build? {
      var segment := AsPath(ops[0]).segment;
      MoveBuild(path, segment);
      assert Builds(path) + ops == Builds(path + [segment]) + ops[1..];
      FilteredPaints(ops[1..], path + [segment], f, boxes, mode, n, env, s);
    } else {
      var op, item, head := ops[0], ItemOf(path, ops[0]), Builds(path) + [ops[0]];
      var next := ClosesWell(ops, path, mode);
      hide WellFormed;
      var f1, s1 := P.FrameAfter(item, f), Run(head, env, s);
      var shown := Events(head, env, s);
      if op.Text? {
        assert path == [] && head == [op];
        TextKept(op.t, f, boxes, n, env, s);
      } else {
        ItemKept(path, op, f, boxes, mode, n, env, s);
      }
      assert Builds(path) + ops == head + ops[1..];
      assert Builds([]) + ops[1..] == ops[1..];
      FilteredPaints(ops[1..], [], f1, boxes, next, Counted(shown, n), env, s1);
      FilteredJoins(ops, path, f, boxes, n, env, s, head, f1, s1);
    }
  }

  lemma NoneLeft(n: nat, boxes: seq<P.Box>)
    ensures Left([], n, {}, boxes) == []
  {
  }

  lemma FilteredJoins(ops: seq<Op>, path: seq<P.Segment>, f: P.Frame, boxes: seq<P.Box>, n: nat, env: T.Env, s: State,
                      head: seq<Op>, f1: P.Frame, s1: State)
    requires ops != [] && !AsPath(ops[0]).Build? && head == Builds(path) + [ops[0]]
    requires f1 == P.FrameAfter(ItemOf(path, ops[0]), f) && s1 == Run(head, env, s)
    requires var shown := Events(head, env, s);
             if P.Doomed(ItemOf(path, ops[0]), f.ctm, boxes) then s1 == s && Left(shown, n, {}, boxes) == []
             else Left(shown, n, {}, boxes) == shown
    requires var rest := Filtered(ops[1..], [], f1, boxes);
             && Run(rest, env, s1) == Run(ops[1..], env, s1)
             && Events(rest, env, s1) == Left(Events(ops[1..], env, s1), Counted(Events(head, env, s), n), {}, boxes)
    ensures Run(Filtered(ops, path, f, boxes), env, s) == Run(head + ops[1..], env, s)
    ensures Events(Filtered(ops, path, f, boxes), env, s) == Left(Events(head + ops[1..], env, s), n, {}, boxes)
  {
    hide Run, Events, Left, Counted, P.Doomed, P.FrameAfter;
    var rest, shown := Filtered(ops[1..], [], f1, boxes), Events(head, env, s);
    RunConcat(head, ops[1..], env, s);
    RunConcat(head, rest, env, s);
    LeftConcat(shown, Events(ops[1..], env, s1), n, {}, boxes);
    assert [] + rest == rest && [] + Events(rest, env, s1) == Events(rest, env, s1);
  }

  // -------------------------------------------------------------- both together

  lemma {:induction false} TextsWell(ts: seq<T.Op>, rest: seq<Op>)
    ensures WellFormed(Texts(ts) + rest, PP.Outside) == WellFormed(rest, PP.Outside)
    decreases |ts|
  {
    if ts == [] {
      assert Texts(ts) + rest == rest;
    } else {
      assert (Texts(ts) + rest)[0] == Text(ts[0]) && (Texts(ts) + rest)[1..] == Texts(ts[1..]) + rest;
      TextsWell(ts[1..], rest);
    }
  }

  /** Rewriting text breaks no path. */
  lemma {:induction false} RewrittenWell(ops: seq<Op>, pen: S.Pen, saved: seq<S.Pen>, n: nat, job: S.Job,
                                         mode: PP.Mode)
    requires S.RewriteAll(TextView(ops), pen, saved, n, job).Kept? && WellFormed(ops, mode)
    ensures WellFormed(Rewritten(ops, pen, saved, n, job), mode)
    decreases |ops|
  {
    hide S.One, S.PenAt, S.Popped;
    if ops != [] {
      var op, t := ops[0], AsText(ops[0]);
      assert TextView(ops)[1..] == TextView(ops[1..]);
      var pen' := S.PenAt(t, pen, saved, job.fonts);
      var one := S.One(t, pen', n, job);
      var rest := Rewritten(ops[1..], pen', S.Popped(t, pen, saved).1, one.counted, job);
      RewrittenWell(ops[1..], pen', S.Popped(t, pen, saved).1, one.counted, job, Next(op, mode).value);
      if op.Text? {
        TextsWell(one.ops, rest);
      } else {
        assert ([op] + rest)[0] == op && ([op] + rest)[1..] == rest;
      }
    }
  }

  /** What `strip` leaves of the stream: a refusal leaves it as it is. */
  ghost function Stripped(ops: seq<Op>, job: S.Job): seq<Op> {
    if job.removable != {} && S.Stripped(TextView(ops), job).Kept?
    then Rewritten(ops, S.FRESH_PEN, [], 0, job) else ops
  }

  /** One stream, stripped and then erased. A division by zero ends the removal before that. */
  ghost function Removed(ops: seq<Op>, job: S.Job, f: P.Frame, boxes: seq<P.Box>): seq<Op>
    requires !S.Stripped(TextView(ops), job).DividedByZero?
  {
    Filtered(Stripped(ops, job), [], f, boxes)
  }

  /** The glyphs that go: those to remove, or none when the stream cannot be matched. */
  ghost function GlyphsGone(ops: seq<Op>, job: S.Job): set<nat> {
    if S.Stripped(TextView(ops), job).Kept? then job.removable else {}
  }

  /** These are the two passes of the program, each over what it sees of the stream. */
  lemma RemovedIsTwoPasses(ops: seq<Op>, job: S.Job, f: P.Frame, boxes: seq<P.Box>)
    requires AllProper(ops) && !S.Stripped(TextView(ops), job).DividedByZero?
    ensures var program := S.Stripped(TextView(ops), job);
            TextView(Stripped(ops, job)) == if program.Kept? then program.ops else TextView(ops)
    ensures PathView(Removed(ops, job, f, boxes)) == P.Filtered(PathView(Stripped(ops, job)), f, boxes)
  {
    hide S.RewriteAll;
    if job.removable != {} && S.Stripped(TextView(ops), job).Kept? {
      RewrittenIsRewrite(ops, S.FRESH_PEN, [], 0, job);
    }
    FilteredIsFilter(Stripped(ops, job), [], f, boxes);
  }

  lemma StrippedPaints(ops: seq<Op>, job: S.Job, env: T.Env, s: State)
    requires AllProper(ops) && WellFormed(ops, PP.Outside)
    requires job.fonts == env.fonts && Exact(job.round) && SP.DefaultSpacing(s.m) && s.m.stack == []
    requires SP.AdvancesOf(GlyphsIn(Events(ops, env, s)), 0, job.adv, env)
    ensures WellFormed(Stripped(ops, job), PP.Outside)
    ensures Run(Stripped(ops, job), env, s) == Run(ops, env, s)
    ensures Events(Stripped(ops, job), env, s) == Left(Events(ops, env, s), 0, GlyphsGone(ops, job), [])
  {
    hide Exact, WellFormed, Run, Events, Left, SP.AdvancesOf, S.RewriteAll;
    if job.removable != {} && S.Stripped(TextView(ops), job).Kept? {
      SP.StartTracks(s.m, env);
      RewrittenPaints(ops, S.FRESH_PEN, [], 0, job, env, s);
      RewrittenWell(ops, S.FRESH_PEN, [], 0, job, PP.Outside);
    } else {
      NothingRemoved(Events(ops, env, s), 0);
    }
  }

  /** Stripping and erasing one stream that mixes text and graphics: it ends in the state the
      original ends in, and of everything the original paints it paints all but the glyphs to
      remove and the paths wholly inside a padded box, in the same order. */
  lemma RemovedPaints(ops: seq<Op>, job: S.Job, f: P.Frame, boxes: seq<P.Box>, env: T.Env, s: State)
    requires AllProper(ops) && WellFormed(ops, PP.Outside)
    requires !S.Stripped(TextView(ops), job).DividedByZero?
    requires job.fonts == env.fonts && Exact(job.round) && SP.DefaultSpacing(s.m) && s.m.stack == []
    requires s.p.path == [] && !s.p.clipping && PP.Framed(f, s.p)
    requires SP.AdvancesOf(GlyphsIn(Events(ops, env, s)), 0, job.adv, env)
    ensures Run(Removed(ops, job, f, boxes), env, s) == Run(ops, env, s)
    ensures Events(Removed(ops, job, f, boxes), env, s)
         == Left(Events(ops, env, s), 0, GlyphsGone(ops, job), boxes)
  {
    var stripped := Stripped(ops, job);
    StrippedPaints(ops, job, env, s);
    FilteredPaints(stripped, [], f, boxes, PP.Outside, 0, env, s);
    assert Builds([]) + stripped == stripped;
    LeftTwice(Events(ops, env, s), 0, 0, GlyphsGone(ops, job), boxes);
  }

  // ------------------------------------------------------------------ by the hits

  /** The glyphs some hit on the stream covers go, and the paths inside a padded box. */
  predicate Hit(e: Event, n: nat, hits: seq<G.Hit>, paths: seq<G.Path>, path: G.Path, boxes: seq<P.Box>) {
    match e
    case Glyph(glyph, _) => glyph.Drawn? && G.Condemned(hits, paths, path, n)
    case Shape(shape) => PP.Erased(shape, boxes)
  }

  function NotHit(events: seq<Event>, n: nat, hits: seq<G.Hit>, paths: seq<G.Path>, path: G.Path,
                  boxes: seq<P.Box>): seq<Event>
  {
    if events == [] then []
    else (if Hit(events[0], n, hits, paths, path, boxes) then [] else [events[0]])
         + NotHit(events[1..], After(events[0], n), hits, paths, path, boxes)
  }

  ghost predicate Wanted(removable: set<nat>, hits: seq<G.Hit>, paths: seq<G.Path>, path: G.Path) {
    forall g: nat :: g in removable <==> G.Condemned(hits, paths, path, g)
  }

  lemma {:induction false} LeftIsNotHit(events: seq<Event>, n: nat, removable: set<nat>, hits: seq<G.Hit>,
                                        paths: seq<G.Path>, path: G.Path, boxes: seq<P.Box>)
    requires Wanted(removable, hits, paths, path)
    ensures Left(events, n, removable, boxes) == NotHit(events, n, hits, paths, path, boxes)
    decreases |events|
  {
    hide PP.Erased, G.Condemned;
    if events != [] {
      assert n in removable <==> G.Condemned(hits, paths, path, n);
      LeftIsNotHit(events[1..], After(events[0], n), removable, hits, paths, path, boxes);
    }
  }

  /** The whole of `remove` on a stream that can be matched. The hits are grouped by path, the
      stream is stripped of its group and then erased: what it painted it still paints, but
      for the glyphs a hit covers and the outlines in the boxes. */
  lemma RemovePaintsNotHit(ops: seq<Op>, hits: seq<G.Hit>, paths: seq<G.Path>, path: G.Path,
                           byPath: map<G.Path, set<nat>>, job: S.Job, f: P.Frame, boxes: seq<P.Box>, env: T.Env,
                           s: State)
    requires AllProper(ops) && WellFormed(ops, PP.Outside)
    requires forall p, g: nat :: G.Marks(byPath, p, g) <==> G.Condemned(hits, paths, p, g)
    requires job.removable == (if path in byPath then byPath[path] else {})
    requires S.Stripped(TextView(ops), job).Kept?
    requires job.fonts == env.fonts && Exact(job.round) && SP.DefaultSpacing(s.m) && s.m.stack == []
    requires s.p.path == [] && !s.p.clipping && PP.Framed(f, s.p)
    requires SP.AdvancesOf(GlyphsIn(Events(ops, env, s)), 0, job.adv, env)
    ensures Run(Removed(ops, job, f, boxes), env, s) == Run(ops, env, s)
    ensures Events(Removed(ops, job, f, boxes), env, s) == NotHit(Events(ops, env, s), 0, hits, paths, path, boxes)
  {
    hide Run, Events, SP.AdvancesOf, Exact, WellFormed, Removed;
    RemovedPaints(ops, job, f, boxes, env, s);
    forall g: nat ensures g in job.removable <==> G.Condemned(hits, paths, path, g) {
      assert G.Marks(byPath, path, g) <==> G.Condemned(hits, paths, path, g);
    }
    LeftIsNotHit(Events(ops, env, s), 0, job.removable, hits, paths, path, boxes);
  }
}
