/** The rewritten stream draws what the original draws, minus the removed glyphs, each
    glyph where it was: exactly so in exact arithmetic, and within a bound that grows with
    every removed run on the line when the TJ numbers are rounded. */
module StripProof {
  import opened Wrappers
  import opened Geometry
  import opened TextSemantics
  import opened Strip

  // ------------------------------------------------------- what is promised

  /** The painting of a stream without the removed glyphs; glyph `n` is drawn first. */
  function Keep(events: seq<Event>, n: nat, removable: set<nat>): seq<Event> {
    if events == [] then []
    else if events[0].Marked? then [events[0]] + Keep(events[1..], n, removable)
    else if n in removable then Keep(events[1..], n + 1, removable)
    else [events[0]] + Keep(events[1..], n + 1, removable)
  }

  function Count(events: seq<Event>): nat {
    if events == [] then 0 else (if events[0].Drawn? then 1 else 0) + Count(events[1..])
  }

  /** The advances read for the stream are those of the glyphs it draws. */
  predicate AdvancesOf(events: seq<Event>, n: nat, adv: seq<real>, env: Env) {
    events == [] ||
    (if events[0].Marked? then AdvancesOf(events[1..], n, adv, env)
     else n < |adv| && adv[n] == Width(events[0].code, events[0].g, env)
          && AdvancesOf(events[1..], n + 1, adv, env))
  }

  /** Moved along the writing line by at most `slack`. */
  predicate Displaced(p: Place, q: Place, slack: real) {
    p.line == q.line && Abs(p.x - q.x) <= slack
  }

  ghost predicate NearEvent(e: Event, f: Event, slack: real) {
    match f
    case Marked(_, _) => e == f
    case Drawn(code, g, at) => e.Drawn? && e.code == code && e.g == g && Displaced(e.at, at, slack)
  }

  ghost predicate Near(es: seq<Event>, fs: seq<Event>, slacks: seq<real>) {
    |es| == |fs| == |slacks|
    && (es == [] || (NearEvent(es[0], fs[0], slacks[0]) && Near(es[1..], fs[1..], slacks[1..])))
  }

  /** Same machine up to a pen displaced by at most `slack`. */
  ghost predicate SameButPen(m: Machine, n: Machine, slack: real) {
    m.(at := n.at) == n && Displaced(m.at, n.at, slack)
  }

  /** The most one rounded TJ number can move the pen when rounding errs by at most eps. */
  function Unit(g: Graphics, eps: real): real {
    eps / 1000.0 * Abs(g.size * g.th)
  }

  /** The bound on the displacement of each kept code of a string: one unit for every
      removed run that ended before it. `open` tells that a run is under way. */
  function CodeSlacks(count: nat, n: nat, open: bool, slack: real, removable: set<nat>, unit: real): seq<real> {
    if count == 0 then []
    else if n in removable then CodeSlacks(count - 1, n + 1, true, slack, removable, unit)
    else
      var s := if open then slack + unit else slack;
      [s] + CodeSlacks(count - 1, n + 1, false, s, removable, unit)
  }

  function SlackAfterCodes(count: nat, n: nat, open: bool, slack: real, removable: set<nat>, unit: real): real {
    if count == 0 then (if open then slack + unit else slack)
    else if n in removable then SlackAfterCodes(count - 1, n + 1, true, slack, removable, unit)
    else SlackAfterCodes(count - 1, n + 1, false, if open then slack + unit else slack, removable, unit)
  }

  function ElementSlacks(es: seq<Element>, n: nat, slack: real, removable: set<nat>, g: Graphics, env: Env,
                         eps: real): seq<real> {
    if es == [] then []
    else if es[0].Num? then ElementSlacks(es[1..], n, slack, removable, g, env, eps)
    else
      var k := |CodesOf(es[0].bytes, g, env)|;
      CodeSlacks(k, n, false, slack, removable, Unit(g, eps))
      + ElementSlacks(es[1..], n + k, SlackAfterCodes(k, n, false, slack, removable, Unit(g, eps)),
                      removable, g, env, eps)
  }

  function SlackAfterElements(es: seq<Element>, n: nat, slack: real, removable: set<nat>, g: Graphics, env: Env,
                          eps: real): real {
    if es == [] then slack
    else if es[0].Num? then SlackAfterElements(es[1..], n, slack, removable, g, env, eps)
    else
      var k := |CodesOf(es[0].bytes, g, env)|;
      SlackAfterElements(es[1..], n + k, SlackAfterCodes(k, n, false, slack, removable, Unit(g, eps)),
                         removable, g, env, eps)
  }

  /** Operators that put the pen at the start of a line, where no displacement is left. */
  predicate StartsLine(op: Op) {
    op.BT? || op.Td? || op.TD? || op.Tm? || op.NextLine? || op.NextLineShow? || op.SpacedShow?
  }

  function StepSlacks(op: Op, env: Env, m: Machine, n: nat, slack: real, removable: set<nat>, eps: real): seq<real> {
    if op.Other? then [0.0]
    else if Shows(op) then
      ElementSlacks(ElementsOf(op), n, if StartsLine(op) then 0.0 else slack, removable, Ready(op, m).g, env, eps)
    else []
  }

  function SlackAfterStep(op: Op, env: Env, m: Machine, n: nat, slack: real, removable: set<nat>, eps: real): real {
    var s := if StartsLine(op) then 0.0 else slack;
    if Shows(op) then SlackAfterElements(ElementsOf(op), n, s, removable, Ready(op, m).g, env, eps) else s
  }

  /** One bound for every event the stripped stream has left. */
  function Slacks(ops: seq<Op>, env: Env, m: Machine, n: nat, slack: real, removable: set<nat>, eps: real): seq<real> {
    if ops == [] then []
    else
      StepSlacks(ops[0], env, m, n, slack, removable, eps)
      + Slacks(ops[1..], env, Step(ops[0], env, m), n + Count(StepEvents(ops[0], env, m)),
               SlackAfterStep(ops[0], env, m, n, slack, removable, eps), removable, eps)
  }

  function SlackAfter(ops: seq<Op>, env: Env, m: Machine, n: nat, slack: real, removable: set<nat>, eps: real): real {
    if ops == [] then slack
    else SlackAfter(ops[1..], env, Step(ops[0], env, m), n + Count(StepEvents(ops[0], env, m)),
                    SlackAfterStep(ops[0], env, m, n, slack, removable, eps), removable, eps)
  }

  // --------------------------------------------------------- event algebra

  lemma {:induction false} KeepConcat(a: seq<Event>, b: seq<Event>, n: nat, removable: set<nat>)
    ensures Keep(a + b, n, removable) == Keep(a, n, removable) + Keep(b, n + Count(a), removable)
    decreases |a|
  {
    if a == [] {
      assert a + b == b;
    } else {
      assert (a + b)[0] == a[0] && (a + b)[1..] == a[1..] + b;
      KeepConcat(a[1..], b, if a[0].Marked? then n else n + 1, removable);
    }
  }

  lemma {:induction false} AdvancesConcat(a: seq<Event>, b: seq<Event>, n: nat, adv: seq<real>, env: Env)
    ensures AdvancesOf(a + b, n, adv, env)
       <==> AdvancesOf(a, n, adv, env) && AdvancesOf(b, n + Count(a), adv, env)
    decreases |a|
  {
    if a == [] {
      assert a + b == b;
    } else {
      assert (a + b)[0] == a[0] && (a + b)[1..] == a[1..] + b;
      AdvancesConcat(a[1..], b, if a[0].Marked? then n else n + 1, adv, env);
    }
  }

  lemma {:induction false} CountConcat(a: seq<Event>, b: seq<Event>)
    ensures Count(a + b) == Count(a) + Count(b)
    decreases |a|
  {
    if a == [] {
      assert a + b == b;
    } else {
      assert (a + b)[0] == a[0] && (a + b)[1..] == a[1..] + b;
      CountConcat(a[1..], b);
    }
  }

  lemma {:induction false} CountCodeEvents(codes: seq<Glyph>, g: Graphics, env: Env, tm: Place)
    ensures Count(CodeEvents(codes, g, env, tm)) == |codes| == |CodeEvents(codes, g, env, tm)|
    decreases |codes|
  {
    if codes != [] {
      CountCodeEvents(codes[1..], g, env, Forward(Advance(codes[0], g, env), tm));
    }
  }

  lemma {:induction false} NearConcat(a: seq<Event>, b: seq<Event>, c: seq<Event>, d: seq<Event>, s: seq<real>,
                          t: seq<real>)
    requires Near(a, c, s) && Near(b, d, t)
    ensures Near(a + b, c + d, s + t)
    decreases |a|
  {
    if a == [] {
      assert a + b == b && c + d == d && s + t == t;
    } else {
      assert (a + b)[1..] == a[1..] + b && (c + d)[1..] == c[1..] + d && (s + t)[1..] == s[1..] + t;
      NearConcat(a[1..], b, c[1..], d, s[1..], t);
    }
  }

  // ------------------------------------------------------------ displacement

  /** What a displacement means for the text matrix. */
  lemma DisplacedMatrix(p: Place, q: Place, slack: real) returns (d: real)
    requires Displaced(p, q, slack)
    ensures Abs(d) <= slack && TextMatrix(p) == Shift(d, TextMatrix(q))
  {
    d := p.x - q.x;
    ShiftShift(d, q.x, q.line);
  }

  lemma UnitNonNegative(g: Graphics, eps: real)
    requires 0.0 <= eps
    ensures 0.0 <= Unit(g, eps)
  {
  }

  // --------------------------------------------------------- one TJ number

  ghost predicate RoundsWithin(round: real -> real, eps: real) {
    0.0 <= eps && forall x :: Abs(round(x) - x) <= eps
  }

  /** The tracked pen and the machine agree, but that the pen may take a scale of 0 for 1. */
  ghost predicate Agree(pen: Pen, g: Graphics, env: Env) {
    && pen.tc == g.tc && pen.tw == g.tw && (pen.th == g.th || (pen.th == 1.0 && g.th == 0.0))
    && (pen.width.Some? ==> pen.size.Some?)
    && (pen.size.Some? ==> g.font.Some? && g.size == pen.size.value
                           && pen.width == BytesPerGlyph(env.fonts, g.font.value))
  }

  /** A gap's number moves the pen by the gap, give or take one unit. */
  lemma GapKern(gap: real, pen: Pen, job: Job, g: Graphics, env: Env, eps: real) returns (err: real)
    requires Measures(pen) && Agree(pen, g, env) && RoundsWithin(job.round, eps)
    ensures Kern(GapNumber(gap, pen, job).n, g) == gap * g.th + err
    ensures Abs(err) <= Unit(g, eps)
  {
    var x := -1000.0 * gap / g.size;
    var delta := job.round(x) - x;
    var k := g.size * g.th;
    err := -delta / 1000.0 * k;
    assert x * g.size == -1000.0 * gap;
    assert Kern(job.round(x), g) == -(x + delta) / 1000.0 * g.size * g.th;
    KernSplit(x, delta, g.size, g.th, gap);
    AbsMul(-delta / 1000.0, k);
    assert Abs(-delta / 1000.0) == Abs(delta) / 1000.0;
    MulLe(Abs(delta) / 1000.0, eps / 1000.0, Abs(k));
  }

  lemma KernSplit(x: real, delta: real, size: real, th: real, gap: real)
    requires x * size == -1000.0 * gap
    ensures -(x + delta) / 1000.0 * size * th == gap * th + -delta / 1000.0 * (size * th)
  {
  }

  /** A hole is as wide as the advance of the glyph that was there. */
  lemma HoleIsAdvance(code: Glyph, pen: Pen, g: Graphics, env: Env)
    requires Measures(pen) && Agree(pen, g, env) && pen.th != 0.0 && |code| == pen.width.value
    ensures Hole(code, Width(code, g, env), pen) * g.th == Advance(code, g, env)
  {
    var adv, spacing := Width(code, g, env), g.tc + WordSpace(code, g.tw);
    assert Hole(code, adv, pen) == adv / pen.th + spacing;
    if g.th == 0.0 {
      NothingMoves(env.width(g.font.value, code) * g.size, g.th);
      NothingMoves(Hole(code, adv, pen), g.th);
      NothingMoves(spacing, g.th);
    } else {
      ScaledHole(adv, spacing, g.th);
    }
  }

  lemma NothingMoves(x: real, th: real)
    requires th == 0.0
    ensures x * th == 0.0
  {
  }

  lemma ScaledHole(adv: real, spacing: real, th: real)
    requires th != 0.0
    ensures (adv / th + spacing) * th == adv + spacing * th
  {
    assert adv / th * th == adv;
  }

  // ------------------------------------------------------------- one string

  /** What stays fixed while one string is cut. */
  datatype Setting = Setting(pen: Pen, job: Job, g: Graphics, env: Env, eps: real) {
    ghost predicate Fits() {
      Measures(pen) && Agree(pen, g, env) && pen.th != 0.0 && RoundsWithin(job.round, eps)
    }
  }

  /** What has been gathered but not written (`seg`, or else `gap`) brings the pen, now at
      `out`, to within `slack` of the original pen `tm`. */
  ghost predicate Gathered(c: Setting, seg: seq<Byte>, gap: real, open: bool, tm: Place, out: Place, slack: real)
    requires Measures(c.pen)
  {
    && |seg| % c.pen.width.value == 0
    && (seg == [] || gap == 0.0) && (gap != 0.0 ==> open)
    && Displaced(Forward(gap * c.g.th, PenAfterCodes(Decode(seg, c.pen.width.value), c.g, c.env, out)), tm, slack)
  }

  /** The cut elements `es` show what was gathered and then `tail`, the kept ones of `codes`. */
  ghost predicate CutWell(c: Setting, codes: seq<Glyph>, n: nat, es: seq<Element>, seg: seq<Byte>, open: bool,
                          tm: Place, out: Place, slack: real, tail: seq<Event>)
    requires Measures(c.pen)
  {
    && ElementEvents(es, c.g, c.env, out)
       == CodeEvents(Decode(seg, c.pen.width.value), c.g, c.env, out) + tail
    && Near(tail, Keep(CodeEvents(codes, c.g, c.env, tm), n, c.job.removable),
            CodeSlacks(|codes|, n, open, slack, c.job.removable, Unit(c.g, c.eps)))
    && Displaced(PenAfterElements(es, c.g, c.env, out), PenAfterCodes(codes, c.g, c.env, tm),
                 SlackAfterCodes(|codes|, n, open, slack, c.job.removable, Unit(c.g, c.eps)))
  }

  lemma FirstAdvance(c: Setting, codes: seq<Glyph>, n: nat, tm: Place)
    requires codes != [] && AdvancesOf(CodeEvents(codes, c.g, c.env, tm), n, c.job.adv, c.env)
    ensures n < |c.job.adv| && c.job.adv[n] == Width(codes[0], c.g, c.env)
    ensures AdvancesOf(CodeEvents(codes[1..], c.g, c.env, Forward(Advance(codes[0], c.g, c.env), tm)), n + 1,
                       c.job.adv, c.env)
  {
    hide Width, Advance;
    var rest := CodeEvents(codes[1..], c.g, c.env, Forward(Advance(codes[0], c.g, c.env), tm));
    assert CodeEvents(codes, c.g, c.env, tm)[1..] == rest;
  }

  lemma {:induction false} CutCodesSim(c: Setting, codes: seq<Glyph>, n: nat, seg: seq<Byte>, gap: real, open: bool,
                                       tm: Place, out: Place, slack: real) returns (tail: seq<Event>)
    requires c.Fits()
    requires forall code :: code in codes ==> |code| == c.pen.width.value
    requires AdvancesOf(CodeEvents(codes, c.g, c.env, tm), n, c.job.adv, c.env)
    requires Gathered(c, seg, gap, open, tm, out, slack)
    ensures CutWell(c, codes, n, CutCodes(codes, n, seg, gap, c.pen, c.job), seg, open, tm, out, slack, tail)
    decreases |codes|
  {
    hide CutWell, CutCodes, Gathered, Advance, Hole, Unit, Displaced, Width, PenAfterCodes, Decode, AdvancesOf,
         CodeEvents;
    if codes != [] { FirstAdvance(c, codes, n, tm); }
    if codes == [] {
      tail := EmptyCase(c, codes, n, seg, gap, open, tm, out, slack);
    } else if n in c.job.removable {
      var a := Advance(codes[0], c.g, c.env);
      var gap', out1 := RemovedGathers(c, codes[0], n, seg, gap, open, tm, out, slack);
      tail := CutCodesSim(c, codes[1..], n + 1, [], gap', true, Forward(a, tm), out1, slack);
      RemovedCase(c, codes, n, seg, gap, open, tm, out, slack, out1, tail);
    } else {
      var out1, s := KeptStep(c, codes[0], n, seg, gap, open, tm, out, slack);
      var a := Advance(codes[0], c.g, c.env);
      var more := CutCodesSim(c, codes[1..], n + 1, seg + codes[0], 0.0, false, Forward(a, tm), out1, s);
      tail := KeptCase(c, codes, n, seg, gap, open, tm, out, slack, out1, s, more);
    }
  }

  lemma EmptyCase(c: Setting, codes: seq<Glyph>, n: nat, seg: seq<Byte>, gap: real, open: bool,
                  tm: Place, out: Place, slack: real) returns (tail: seq<Event>)
    requires c.Fits() && codes == []
    requires Gathered(c, seg, gap, open, tm, out, slack)
    ensures CutWell(c, codes, n, CutCodes(codes, n, seg, gap, c.pen, c.job), seg, open, tm, out, slack, tail)
  {
    tail := [];
    FlushSim(seg, gap, open, c.pen, c.job, c.g, c.env, tm, out, slack, c.eps);
  }

  function SegmentOut(seg: seq<Byte>): seq<Element> {
    if seg != [] then [Str(seg)] else []
  }

  function GapOut(gap: real, pen: Pen, job: Job): seq<Element>
    requires Measures(pen)
  {
    if gap != 0.0 then [GapNumber(gap, pen, job)] else []
  }

  lemma RemovedStep(c: Setting, hole: real, a: real, seg: seq<Byte>, gap: real, open: bool,
                    tm: Place, out: Place, slack: real) returns (out1: Place)
    requires c.Fits() && hole * c.g.th == a
    requires Gathered(c, seg, gap, open, tm, out, slack)
    ensures out1 == PenAfterCodes(Decode(seg, c.pen.width.value), c.g, c.env, out)
    ensures Gathered(c, [], gap + hole, true, Forward(a, tm), out1, slack)
  {
    out1 := PenAfterCodes(Decode(seg, c.pen.width.value), c.g, c.env, out);
    GatherMore(gap, hole, c.g.th, a, out1, tm, slack);
    NothingShown(c, out1);
  }

  lemma RemovedGathers(c: Setting, code: Glyph, n: nat, seg: seq<Byte>, gap: real, open: bool,
                       tm: Place, out: Place, slack: real) returns (gap': real, out1: Place)
    requires c.Fits() && |code| == c.pen.width.value
    requires n < |c.job.adv| && c.job.adv[n] == Width(code, c.g, c.env)
    requires Gathered(c, seg, gap, open, tm, out, slack)
    ensures gap' == gap + Hole(code, c.job.adv[n], c.pen)
    ensures out1 == PenAfterCodes(Decode(seg, c.pen.width.value), c.g, c.env, out)
    ensures Gathered(c, [], gap', true, Forward(Advance(code, c.g, c.env), tm), out1, slack)
  {
    HoleIsAdvance(code, c.pen, c.g, c.env);
    var hole := Hole(code, c.job.adv[n], c.pen);
    gap' := gap + hole;
    out1 := RemovedStep(c, hole, Advance(code, c.g, c.env), seg, gap, open, tm, out, slack);
  }

  lemma NothingShown(c: Setting, p: Place)
    requires Measures(c.pen)
    ensures PenAfterCodes(Decode([], c.pen.width.value), c.g, c.env, p) == p && 0 % c.pen.width.value == 0
    ensures CodeEvents(Decode([], c.pen.width.value), c.g, c.env, p) == []
  {
  }

  lemma GatherMore(gap: real, hole: real, th: real, a: real, p: Place, tm: Place, slack: real)
    requires hole * th == a && Displaced(Forward(gap * th, p), tm, slack)
    ensures Displaced(Forward((gap + hole) * th, p), Forward(a, tm), slack)
  {
  }

  lemma RemovedUnfolds(c: Setting, codes: seq<Glyph>, n: nat, open: bool, tm: Place, slack: real)
    requires codes != [] && n in c.job.removable
    ensures var tm', unit := Forward(Advance(codes[0], c.g, c.env), tm), Unit(c.g, c.eps);
            && PenAfterCodes(codes, c.g, c.env, tm) == PenAfterCodes(codes[1..], c.g, c.env, tm')
            && Keep(CodeEvents(codes, c.g, c.env, tm), n, c.job.removable)
               == Keep(CodeEvents(codes[1..], c.g, c.env, tm'), n + 1, c.job.removable)
            && CodeSlacks(|codes|, n, open, slack, c.job.removable, unit)
               == CodeSlacks(|codes[1..]|, n + 1, true, slack, c.job.removable, unit)
            && SlackAfterCodes(|codes|, n, open, slack, c.job.removable, unit)
               == SlackAfterCodes(|codes[1..]|, n + 1, true, slack, c.job.removable, unit)
  {
    hide Unit, Advance;
    var later := CodeEvents(codes[1..], c.g, c.env, Forward(Advance(codes[0], c.g, c.env), tm));
    assert CodeEvents(codes, c.g, c.env, tm)[1..] == later;
  }

  lemma KeptUnfolds(c: Setting, codes: seq<Glyph>, n: nat, open: bool, tm: Place, slack: real, s: real)
    requires codes != [] && n !in c.job.removable && s == if open then slack + Unit(c.g, c.eps) else slack
    ensures var tm', unit := Forward(Advance(codes[0], c.g, c.env), tm), Unit(c.g, c.eps);
            && PenAfterCodes(codes, c.g, c.env, tm) == PenAfterCodes(codes[1..], c.g, c.env, tm')
            && Keep(CodeEvents(codes, c.g, c.env, tm), n, c.job.removable)
               == [Drawn(codes[0], c.g, tm)] + Keep(CodeEvents(codes[1..], c.g, c.env, tm'), n + 1, c.job.removable)
            && CodeSlacks(|codes|, n, open, slack, c.job.removable, unit)
               == [s] + CodeSlacks(|codes[1..]|, n + 1, false, s, c.job.removable, unit)
            && SlackAfterCodes(|codes|, n, open, slack, c.job.removable, unit)
               == SlackAfterCodes(|codes[1..]|, n + 1, false, s, c.job.removable, unit)
  {
    hide Unit, Advance;
    var later := CodeEvents(codes[1..], c.g, c.env, Forward(Advance(codes[0], c.g, c.env), tm));
    assert CodeEvents(codes, c.g, c.env, tm)[1..] == later;
  }

  lemma RemovedCase(c: Setting, codes: seq<Glyph>, n: nat, seg: seq<Byte>, gap: real, open: bool,
                    tm: Place, out: Place, slack: real, out1: Place, tail: seq<Event>)
    requires c.Fits() && codes != [] && n in c.job.removable && n < |c.job.adv|
    requires out1 == PenAfterCodes(Decode(seg, c.pen.width.value), c.g, c.env, out)
    requires CutWell(c, codes[1..], n + 1,
                     CutCodes(codes[1..], n + 1, [], gap + Hole(codes[0], c.job.adv[n], c.pen), c.pen, c.job),
                     [], true, Forward(Advance(codes[0], c.g, c.env), tm), out1, slack, tail)
    ensures CutWell(c, codes, n, CutCodes(codes, n, seg, gap, c.pen, c.job), seg, open, tm, out, slack, tail)
  {
    hide Unit, Advance, Hole, Displaced, Decode, Keep, CodeSlacks, SlackAfterCodes, CodeEvents, PenAfterCodes,
         ElementEvents, PenAfterElements, CutCodes, Near;
    var rest := CutCodes(codes[1..], n + 1, [], gap + Hole(codes[0], c.job.adv[n], c.pen), c.pen, c.job);
    NothingShown(c, out1);
    SegmentRuns(seg, SegmentOut(seg), c.pen, c.g, c.env, out);
    RemovedShows(SegmentOut(seg), rest, Decode(seg, c.pen.width.value), c.g, c.env, out, tail);
    RemovedIsWritten(codes, n, seg, gap, c.pen, c.job);
    RemovedUnfolds(c, codes, n, open, tm, slack);
  }

  lemma KeptStep(c: Setting, code: Glyph, n: nat, seg: seq<Byte>, gap: real, open: bool,
                 tm: Place, out: Place, slack: real) returns (out1: Place, s: real)
    requires c.Fits() && |code| == c.pen.width.value
    requires Gathered(c, seg, gap, open, tm, out, slack)
    ensures s == if open then slack + Unit(c.g, c.eps) else slack
    ensures out1 == PenAfterElements(GapOut(gap, c.pen, c.job), c.g, c.env, out)
    ensures ElementEvents(GapOut(gap, c.pen, c.job), c.g, c.env, out) == []
    ensures CodeEvents(Decode(seg, c.pen.width.value), c.g, c.env, out1)
         == CodeEvents(Decode(seg, c.pen.width.value), c.g, c.env, out)
    ensures Displaced(PenAfterCodes(Decode(seg, c.pen.width.value), c.g, c.env, out1), tm, s)
    ensures Gathered(c, seg + code, 0.0, false, Forward(Advance(code, c.g, c.env), tm), out1, s)
  {
    var w, a := c.pen.width.value, Advance(code, c.g, c.env);
    out1, s := GapRuns(gap, GapOut(gap, c.pen, c.job), open, c.pen, c.job, c.g, c.env, seg, tm, out, slack, c.eps);
    if gap != 0.0 { assert Decode(seg, w) == []; }
    var seen1 := PenAfterCodes(Decode(seg, w), c.g, c.env, out1);
    DecodeAppend(seg, code, w);
    CodesConcat(Decode(seg, w), [code], c.g, c.env, out1);
    OneCode(code, c.g, c.env, seen1);
    assert 0.0 * c.g.th == 0.0;
  }

  /** A pending gap, shown as nothing, before elements that show the codes `seen`, one more and
      then `more`. */
  lemma KeptShows(pending: seq<Element>, rest: seq<Element>, seen: seq<Glyph>, code: Glyph, g: Graphics, env: Env,
                  out: Place, more: seq<Event>)
    requires ElementEvents(pending, g, env, out) == []
    requires var out1 := PenAfterElements(pending, g, env, out);
             ElementEvents(rest, g, env, out1) == CodeEvents(seen + [code], g, env, out1) + more
    ensures var out1 := PenAfterElements(pending, g, env, out);
            && ElementEvents(pending + rest, g, env, out)
               == CodeEvents(seen, g, env, out1) + ([Drawn(code, g, PenAfterCodes(seen, g, env, out1))] + more)
            && PenAfterElements(pending + rest, g, env, out) == PenAfterElements(rest, g, env, out1)
  {
    hide Advance, Kern;
    var out1 := PenAfterElements(pending, g, env, out);
    CodesConcat(seen, [code], g, env, out1);
    OneCode(code, g, env, PenAfterCodes(seen, g, env, out1));
    ElementsConcat(pending, rest, g, env, out);
    hide ElementEvents, CodeEvents, PenAfterCodes, PenAfterElements;
    assert [] + ElementEvents(rest, g, env, out1) == ElementEvents(rest, g, env, out1);
    Append(CodeEvents(seen, g, env, out1), [Drawn(code, g, PenAfterCodes(seen, g, env, out1))], more);
  }

  lemma KeptIsWritten(codes: seq<Glyph>, n: nat, seg: seq<Byte>, gap: real, pen: Pen, job: Job)
    requires Measures(pen) && codes != [] && n !in job.removable
    ensures CutCodes(codes, n, seg, gap, pen, job)
         == GapOut(gap, pen, job) + CutCodes(codes[1..], n + 1, seg + codes[0], 0.0, pen, job)
  {
  }

  lemma RemovedIsWritten(codes: seq<Glyph>, n: nat, seg: seq<Byte>, gap: real, pen: Pen, job: Job)
    requires Measures(pen) && pen.th != 0.0 && codes != [] && n in job.removable && n < |job.adv|
    ensures CutCodes(codes, n, seg, gap, pen, job)
         == SegmentOut(seg) + CutCodes(codes[1..], n + 1, [], gap + Hole(codes[0], job.adv[n], pen), pen, job)
  {
  }

  /** A finished segment, which shows the codes `seen`, before the other elements. */
  lemma RemovedShows(head: seq<Element>, rest: seq<Element>, seen: seq<Glyph>, g: Graphics, env: Env, out: Place,
                     tail: seq<Event>)
    requires ElementEvents(head, g, env, out) == CodeEvents(seen, g, env, out)
    requires ElementEvents(rest, g, env, PenAfterElements(head, g, env, out)) == [] + tail
    ensures ElementEvents(head + rest, g, env, out) == CodeEvents(seen, g, env, out) + tail
    ensures PenAfterElements(head + rest, g, env, out)
         == PenAfterElements(rest, g, env, PenAfterElements(head, g, env, out))
  {
    hide Advance, Kern;
    ElementsConcat(head, rest, g, env, out);
  }

  lemma KeptCase(c: Setting, codes: seq<Glyph>, n: nat, seg: seq<Byte>, gap: real, open: bool,
                 tm: Place, out: Place, slack: real, out1: Place, s: real, more: seq<Event>)
    returns (tail: seq<Event>)
    requires c.Fits() && codes != [] && n !in c.job.removable
    requires |codes[0]| == c.pen.width.value && |seg| % c.pen.width.value == 0
    requires s == if open then slack + Unit(c.g, c.eps) else slack
    requires out1 == PenAfterElements(GapOut(gap, c.pen, c.job), c.g, c.env, out)
    requires ElementEvents(GapOut(gap, c.pen, c.job), c.g, c.env, out) == []
    requires CodeEvents(Decode(seg, c.pen.width.value), c.g, c.env, out1)
          == CodeEvents(Decode(seg, c.pen.width.value), c.g, c.env, out)
    requires Displaced(PenAfterCodes(Decode(seg, c.pen.width.value), c.g, c.env, out1), tm, s)
    requires CutWell(c, codes[1..], n + 1, CutCodes(codes[1..], n + 1, seg + codes[0], 0.0, c.pen, c.job),
                     seg + codes[0], false, Forward(Advance(codes[0], c.g, c.env), tm), out1, s, more)
    ensures CutWell(c, codes, n, CutCodes(codes, n, seg, gap, c.pen, c.job), seg, open, tm, out, slack, tail)
  {
    hide Unit, Advance, Displaced, Decode, Keep, CodeSlacks, SlackAfterCodes, CodeEvents, PenAfterCodes, ElementEvents,
         PenAfterElements, CutCodes;
    var seen1 := PenAfterCodes(Decode(seg, c.pen.width.value), c.g, c.env, out1);
    tail := [Drawn(codes[0], c.g, seen1)] + more;
    var rest := CutCodes(codes[1..], n + 1, seg + codes[0], 0.0, c.pen, c.job);
    DecodeAppend(seg, codes[0], c.pen.width.value);
    KeptShows(GapOut(gap, c.pen, c.job), rest, Decode(seg, c.pen.width.value), codes[0], c.g, c.env, out, more);
    KeptIsWritten(codes, n, seg, gap, c.pen, c.job);
    KeptUnfolds(c, codes, n, open, tm, slack, s);
    OneNear(codes[0], c.g, seen1, tm, s);
    hide Near;
    var later := Keep(CodeEvents(codes[1..], c.g, c.env, Forward(Advance(codes[0], c.g, c.env), tm)), n + 1,
                      c.job.removable);
    var slacks := CodeSlacks(|codes[1..]|, n + 1, false, s, c.job.removable, Unit(c.g, c.eps));
    NearConcat([Drawn(codes[0], c.g, seen1)], more, [Drawn(codes[0], c.g, tm)], later, [s], slacks);
  }

  lemma OneNear(code: Glyph, g: Graphics, p: Place, q: Place, s: real)
    requires Displaced(p, q, s)
    ensures Near([Drawn(code, g, p)], [Drawn(code, g, q)], [s])
  {
  }

  lemma OneCode(code: Glyph, g: Graphics, env: Env, tm: Place)
    ensures PenAfterCodes([code], g, env, tm) == Forward(Advance(code, g, env), tm)
    ensures CodeEvents([code], g, env, tm) == [Drawn(code, g, tm)]
  {
  }

  lemma SegmentRuns(seg: seq<Byte>, segOut: seq<Element>, pen: Pen, g: Graphics, env: Env, out: Place)
    requires Measures(pen) && Agree(pen, g, env)
    requires segOut == if seg != [] then [Str(seg)] else []
    ensures PenAfterElements(segOut, g, env, out) == PenAfterCodes(Decode(seg, pen.width.value), g, env, out)
    ensures ElementEvents(segOut, g, env, out) == CodeEvents(Decode(seg, pen.width.value), g, env, out)
  {
    if seg == [] {
      assert Decode(seg, pen.width.value) == [];
    } else {
      assert segOut[1..] == [];
      assert CodesOf(seg, g, env) == Decode(seg, pen.width.value);
    }
  }

  /** Writing a pending gap before a kept code. */
  lemma GapRuns(gap: real, gapOut: seq<Element>, open: bool, pen: Pen, job: Job, g: Graphics, env: Env,
                seg: seq<Byte>, tm: Place, out: Place, slack: real, eps: real)
    returns (out1: Place, s: real)
    requires Measures(pen) && Agree(pen, g, env) && RoundsWithin(job.round, eps)
    requires (seg == [] || gap == 0.0) && (gap != 0.0 ==> open)
    requires gapOut == if gap != 0.0 then [GapNumber(gap, pen, job)] else []
    requires Displaced(Forward(gap * g.th, PenAfterCodes(Decode(seg, pen.width.value), g, env, out)), tm, slack)
    ensures s == if open then slack + Unit(g, eps) else slack
    ensures out1 == PenAfterElements(gapOut, g, env, out) && ElementEvents(gapOut, g, env, out) == []
    ensures gap == 0.0 ==> out1 == out
    ensures Displaced(PenAfterCodes(Decode(seg, pen.width.value), g, env, out1), tm, s)
  {
    out1 := PenAfterElements(gapOut, g, env, out);
    s := if open then slack + Unit(g, eps) else slack;
    UnitNonNegative(g, eps);
    var seen := PenAfterCodes(Decode(seg, pen.width.value), g, env, out);
    if gap != 0.0 {
      assert Decode(seg, pen.width.value) == [] && seen == out;
      var err := GapKern(gap, pen, job, g, env, eps);
      assert gapOut[1..] == [];
    } else {
      assert gap * g.th == 0.0;
    }
  }

  lemma FlushSim(seg: seq<Byte>, gap: real, open: bool, pen: Pen, job: Job, g: Graphics, env: Env,
                 tm: Place, out: Place, slack: real, eps: real)
    requires Measures(pen) && Agree(pen, g, env) && RoundsWithin(job.round, eps)
    requires (seg == [] || gap == 0.0) && (gap != 0.0 ==> open)
    requires Displaced(Forward(gap * g.th, PenAfterCodes(Decode(seg, pen.width.value), g, env, out)), tm, slack)
    ensures ElementEvents(Flush(seg, gap, pen, job), g, env, out)
            == CodeEvents(Decode(seg, pen.width.value), g, env, out)
    ensures Displaced(PenAfterElements(Flush(seg, gap, pen, job), g, env, out), tm,
                      if open then slack + Unit(g, eps) else slack)
  {
    var segOut := if seg != [] then [Str(seg)] else [];
    var gapOut := if gap != 0.0 then [GapNumber(gap, pen, job)] else [];
    SegmentRuns(seg, segOut, pen, g, env, out);
    var out1, s := GapRuns(gap, gapOut, open, pen, job, g, env, seg, tm, out, slack, eps);
    ElementsConcat(segOut, gapOut, g, env, out);
    if gap != 0.0 {
      assert segOut == [] && segOut + gapOut == gapOut;
    } else {
      assert segOut + gapOut == segOut;
    }
  }

  // ----------------------------------------------------------- one operator

  /** The cut elements `out`put show the kept glyphs of `es`, each within its slack. */
  ghost predicate ElementsWell(c: Setting, cut: seq<Element>, es: seq<Element>, n: nat, tm: Place, out: Place,
                          slack: real) {
    && Near(ElementEvents(cut, c.g, c.env, out),
            Keep(ElementEvents(es, c.g, c.env, tm), n, c.job.removable),
            ElementSlacks(es, n, slack, c.job.removable, c.g, c.env, c.eps))
    && Displaced(PenAfterElements(cut, c.g, c.env, out), PenAfterElements(es, c.g, c.env, tm),
                 SlackAfterElements(es, n, slack, c.job.removable, c.g, c.env, c.eps))
  }

  lemma {:induction false} CutElementsSim(c: Setting, es: seq<Element>, n: nat, tm: Place, out: Place, slack: real)
    requires c.Fits()
    requires AdvancesOf(ElementEvents(es, c.g, c.env, tm), n, c.job.adv, c.env)
    requires Displaced(out, tm, slack)
    ensures ElementsWell(c, CutElements(es, n, c.pen, c.job), es, n, tm, out, slack)
    decreases |es|
  {
    hide ElementsWell, AdvancesOf, Kern, Unit, CutCodes, Codes, CodesOf, Decode, SlackAfterCodes, PenAfterCodes,
         PenAfterElements, HeadWell, ElementEvents;
    if es == [] {
      NoElements(c, es, CutElements(es, n, c.pen, c.job), n, tm, out, slack);
    } else if es[0].Num? {
      var k := Kern(es[0].n, c.g);
      AdvancesOfNumber(c, es, n, tm);
      CutElementsSim(c, es[1..], n, Forward(k, tm), Forward(k, out), slack);
      NumberCase(c, es, CutElements(es[1..], n, c.pen, c.job), n, tm, out, slack);
    } else {
      var codes, head, tm', out', s := CutFirst(c, es, n, tm, out, slack);
      CutElementsSim(c, es[1..], n + |codes|, tm', out', s);
      StringCase(c, es, codes, head, CutElements(es[1..], n + |codes|, c.pen, c.job), n, tm, tm', out, out', slack, s);
    }
  }

  /** `head` shows the kept ones of `codes`. */
  ghost predicate HeadWell(c: Setting, codes: seq<Glyph>, head: seq<Element>, n: nat, tm: Place, out: Place,
                          slack: real) {
    Near(ElementEvents(head, c.g, c.env, out), Keep(CodeEvents(codes, c.g, c.env, tm), n, c.job.removable),
         CodeSlacks(|codes|, n, false, slack, c.job.removable, Unit(c.g, c.eps)))
  }

  /** The first string of an array: what is shown of it, and where it leaves both pens. */
  lemma CutFirst(c: Setting, es: seq<Element>, n: nat, tm: Place, out: Place, slack: real)
    returns (codes: seq<Glyph>, head: seq<Element>, tm': Place, out': Place, s: real)
    requires c.Fits() && es != [] && es[0].Str?
    requires AdvancesOf(ElementEvents(es, c.g, c.env, tm), n, c.job.adv, c.env)
    requires Displaced(out, tm, slack)
    ensures codes == Codes(es[0].bytes, c.pen) && codes == CodesOf(es[0].bytes, c.g, c.env)
    ensures head == CutCodes(codes, n, [], 0.0, c.pen, c.job)
    ensures tm' == PenAfterCodes(codes, c.g, c.env, tm) && out' == PenAfterElements(head, c.g, c.env, out)
    ensures s == SlackAfterCodes(|codes|, n, false, slack, c.job.removable, Unit(c.g, c.eps))
    ensures Displaced(out', tm', s)
    ensures AdvancesOf(ElementEvents(es[1..], c.g, c.env, tm'), n + |codes|, c.job.adv, c.env)
    ensures HeadWell(c, codes, head, n, tm, out, slack)
  {
    codes := Codes(es[0].bytes, c.pen);
    assert codes == CodesOf(es[0].bytes, c.g, c.env);
    assert forall code :: code in codes ==> |code| == c.pen.width.value;
    hide Unit, Advance, CutCodes, CodeSlacks, SlackAfterCodes, Keep, Near, Displaced, PenAfterElements, PenAfterCodes,
         ElementEvents, CodeEvents, Codes, CodesOf, Decode, AdvancesOf;
    AdvancesOfString(c, es, codes, n, tm);
    CutWhole(c, codes, n, tm, out, slack);
    head := CutCodes(codes, n, [], 0.0, c.pen, c.job);
    tm' := PenAfterCodes(codes, c.g, c.env, tm);
    out' := PenAfterElements(head, c.g, c.env, out);
    s := SlackAfterCodes(|codes|, n, false, slack, c.job.removable, Unit(c.g, c.eps));
  }

  lemma NoElements(c: Setting, es: seq<Element>, cut: seq<Element>, n: nat, tm: Place, out: Place, slack: real)
    requires es == [] && cut == [] && Displaced(out, tm, slack)
    ensures ElementsWell(c, cut, es, n, tm, out, slack)
  {
  }

  lemma NumberCase(c: Setting, es: seq<Element>, rest: seq<Element>, n: nat, tm: Place, out: Place, slack: real)
    requires es != [] && es[0].Num?
    requires ElementsWell(c, rest, es[1..], n, Forward(Kern(es[0].n, c.g), tm), Forward(Kern(es[0].n, c.g), out), slack)
    ensures ElementsWell(c, [es[0]] + rest, es, n, tm, out, slack)
  {
    ElementsConcat([es[0]], rest, c.g, c.env, out);
    NumberRuns(es[0].n, c.g, c.env, out);
  }

  lemma StringCase(c: Setting, es: seq<Element>, codes: seq<Glyph>, head: seq<Element>, rest: seq<Element>, n: nat,
                   tm: Place, tm': Place, out: Place, out': Place, slack: real, s: real)
    requires es != [] && es[0].Str? && codes == CodesOf(es[0].bytes, c.g, c.env)
    requires tm' == PenAfterCodes(codes, c.g, c.env, tm) && out' == PenAfterElements(head, c.g, c.env, out)
    requires s == SlackAfterCodes(|codes|, n, false, slack, c.job.removable, Unit(c.g, c.eps))
    requires HeadWell(c, codes, head, n, tm, out, slack)
    requires ElementsWell(c, rest, es[1..], n + |codes|, tm', out', s)
    ensures ElementsWell(c, head + rest, es, n, tm, out, slack)
  {
    ElementsConcat(head, rest, c.g, c.env, out);
    StringEvents(c, es, codes, ElementEvents(head, c.g, c.env, out), ElementEvents(rest, c.g, c.env, out'), n, tm, tm',
                 slack, s);
  }

  lemma StringEvents(c: Setting, es: seq<Element>, codes: seq<Glyph>, drawn: seq<Event>, more: seq<Event>, n: nat,
                     tm: Place, tm': Place, slack: real, s: real)
    requires es != [] && es[0].Str? && codes == CodesOf(es[0].bytes, c.g, c.env)
    requires tm' == PenAfterCodes(codes, c.g, c.env, tm)
    requires s == SlackAfterCodes(|codes|, n, false, slack, c.job.removable, Unit(c.g, c.eps))
    requires Near(drawn, Keep(CodeEvents(codes, c.g, c.env, tm), n, c.job.removable),
                  CodeSlacks(|codes|, n, false, slack, c.job.removable, Unit(c.g, c.eps)))
    requires Near(more, Keep(ElementEvents(es[1..], c.g, c.env, tm'), n + |codes|, c.job.removable),
                  ElementSlacks(es[1..], n + |codes|, s, c.job.removable, c.g, c.env, c.eps))
    ensures Near(drawn + more, Keep(ElementEvents(es, c.g, c.env, tm), n, c.job.removable),
                 ElementSlacks(es, n, slack, c.job.removable, c.g, c.env, c.eps))
  {
    var events, later := KeepString(c, es, codes, n, tm);
    NearConcat(drawn, more, Keep(events, n, c.job.removable), Keep(later, n + |codes|, c.job.removable),
               CodeSlacks(|codes|, n, false, slack, c.job.removable, Unit(c.g, c.eps)),
               ElementSlacks(es[1..], n + |codes|, s, c.job.removable, c.g, c.env, c.eps));
  }

  lemma NumberRuns(x: real, g: Graphics, env: Env, out: Place)
    ensures PenAfterElements([Num(x)], g, env, out) == Forward(Kern(x, g), out)
    ensures ElementEvents([Num(x)], g, env, out) == []
  {
  }

  /** A string cut from its start. */
  lemma CutWhole(c: Setting, codes: seq<Glyph>, n: nat, tm: Place, out: Place, slack: real)
    requires c.Fits() && forall code :: code in codes ==> |code| == c.pen.width.value
    requires AdvancesOf(CodeEvents(codes, c.g, c.env, tm), n, c.job.adv, c.env)
    requires Displaced(out, tm, slack)
    ensures Near(ElementEvents(CutCodes(codes, n, [], 0.0, c.pen, c.job), c.g, c.env, out),
                 Keep(CodeEvents(codes, c.g, c.env, tm), n, c.job.removable),
                 CodeSlacks(|codes|, n, false, slack, c.job.removable, Unit(c.g, c.eps)))
    ensures Displaced(PenAfterElements(CutCodes(codes, n, [], 0.0, c.pen, c.job), c.g, c.env, out),
                      PenAfterCodes(codes, c.g, c.env, tm),
                      SlackAfterCodes(|codes|, n, false, slack, c.job.removable, Unit(c.g, c.eps)))
  {
    StartGathered(c, tm, out, slack);
    var tail := CutCodesSim(c, codes, n, [], 0.0, false, tm, out, slack);
    NothingShown(c, out);
    assert [] + tail == tail;
  }

  lemma StartGathered(c: Setting, tm: Place, out: Place, slack: real)
    requires Measures(c.pen) && Displaced(out, tm, slack)
    ensures Gathered(c, [], 0.0, false, tm, out, slack)
  {
  }

  lemma AdvancesOfNumber(c: Setting, es: seq<Element>, n: nat, tm: Place)
    requires es != [] && es[0].Num?
    requires AdvancesOf(ElementEvents(es, c.g, c.env, tm), n, c.job.adv, c.env)
    ensures AdvancesOf(ElementEvents(es[1..], c.g, c.env, Forward(Kern(es[0].n, c.g), tm)), n, c.job.adv, c.env)
  {
  }

  lemma AdvancesOfString(c: Setting, es: seq<Element>, codes: seq<Glyph>, n: nat, tm: Place)
    requires es != [] && es[0].Str? && codes == CodesOf(es[0].bytes, c.g, c.env)
    requires AdvancesOf(ElementEvents(es, c.g, c.env, tm), n, c.job.adv, c.env)
    ensures AdvancesOf(CodeEvents(codes, c.g, c.env, tm), n, c.job.adv, c.env)
    ensures AdvancesOf(ElementEvents(es[1..], c.g, c.env, PenAfterCodes(codes, c.g, c.env, tm)), n + |codes|,
                       c.job.adv, c.env)
  {
    CountCodeEvents(codes, c.g, c.env, tm);
    AdvancesConcat(CodeEvents(codes, c.g, c.env, tm),
                   ElementEvents(es[1..], c.g, c.env, PenAfterCodes(codes, c.g, c.env, tm)), n, c.job.adv, c.env);
  }

  lemma KeepString(c: Setting, es: seq<Element>, codes: seq<Glyph>, n: nat, tm: Place)
    returns (events: seq<Event>, later: seq<Event>)
    requires es != [] && es[0].Str? && codes == CodesOf(es[0].bytes, c.g, c.env)
    ensures events == CodeEvents(codes, c.g, c.env, tm)
    ensures later == ElementEvents(es[1..], c.g, c.env, PenAfterCodes(codes, c.g, c.env, tm))
    ensures ElementEvents(es, c.g, c.env, tm) == events + later
    ensures Keep(events + later, n, c.job.removable)
         == Keep(events, n, c.job.removable) + Keep(later, n + |codes|, c.job.removable)
  {
    events := CodeEvents(codes, c.g, c.env, tm);
    later := ElementEvents(es[1..], c.g, c.env, PenAfterCodes(codes, c.g, c.env, tm));
    CountCodeEvents(codes, c.g, c.env, tm);
    KeepConcat(events, later, n, c.job.removable);
  }

  /** Codes none of which is removed, drawn from a displaced pen. */
  lemma {:induction false} WholeCodesSim(codes: seq<Glyph>, n: nat, removable: set<nat>, g: Graphics, env: Env,
                                         tm: Place, out: Place, slack: real, unit: real)
    requires Displaced(out, tm, slack)
    requires !Touches(n, |codes|, removable)
    ensures Near(CodeEvents(codes, g, env, out), Keep(CodeEvents(codes, g, env, tm), n, removable),
                 CodeSlacks(|codes|, n, false, slack, removable, unit))
    ensures Displaced(PenAfterCodes(codes, g, env, out), PenAfterCodes(codes, g, env, tm),
                      SlackAfterCodes(|codes|, n, false, slack, removable, unit))
    decreases |codes|
  {
    if codes != [] {
      var a := Advance(codes[0], g, env);
      WholeCodesSim(codes[1..], n + 1, removable, g, env, Forward(a, tm), Forward(a, out), slack, unit);
    }
  }

  lemma {:induction false} WholeElementsSim(c: Setting, es: seq<Element>, n: nat, tm: Place, out: Place, slack: real)
    requires Measures(c.pen) && Agree(c.pen, c.g, c.env)
    requires Displaced(out, tm, slack)
    requires !Touches(n, CountCodes(es, c.pen), c.job.removable)
    ensures ElementsWell(c, es, es, n, tm, out, slack)
    decreases |es|
  {
    if es == [] {
    } else if es[0].Num? {
      var k := Kern(es[0].n, c.g);
      WholeElementsSim(c, es[1..], n, Forward(k, tm), Forward(k, out), slack);
      NumberCase(c, es, es[1..], n, tm, out, slack);
      assert [es[0]] + es[1..] == es;
    } else {
      var codes := Codes(es[0].bytes, c.pen);
      assert CodesOf(es[0].bytes, c.g, c.env) == codes;
      WholeCodesSim(codes, n, c.job.removable, c.g, c.env, tm, out, slack, Unit(c.g, c.eps));
      StringRuns(es[0].bytes, codes, c.g, c.env, out);
      assert [Str(es[0].bytes)] == [es[0]];
      var s := SlackAfterCodes(|codes|, n, false, slack, c.job.removable, Unit(c.g, c.eps));
      var tm', out' := PenAfterCodes(codes, c.g, c.env, tm), PenAfterCodes(codes, c.g, c.env, out);
      WholeElementsSim(c, es[1..], n + |codes|, tm', out', s);
      StringCase(c, es, codes, [es[0]], es[1..], n, tm, tm', out, out', slack, s);
      assert [es[0]] + es[1..] == es;
    }
  }

  lemma StringRuns(bytes: seq<Byte>, codes: seq<Glyph>, g: Graphics, env: Env, out: Place)
    requires codes == CodesOf(bytes, g, env)
    ensures PenAfterElements([Str(bytes)], g, env, out) == PenAfterCodes(codes, g, env, out)
    ensures ElementEvents([Str(bytes)], g, env, out) == CodeEvents(codes, g, env, out)
  {
  }

  lemma {:induction false} CountElementEvents(es: seq<Element>, pen: Pen, g: Graphics, env: Env, tm: Place)
    requires Measures(pen) && Agree(pen, g, env)
    ensures Count(ElementEvents(es, g, env, tm)) == CountCodes(es, pen)
    decreases |es|
  {
    if es != [] {
      match es[0] {
        case Num(x) => CountElementEvents(es[1..], pen, g, env, Forward(Kern(x, g), tm));
        case Str(bytes) =>
          var codes := Codes(bytes, pen);
          assert CodesOf(bytes, g, env) == codes;
          var tm' := PenAfterCodes(codes, g, env, tm);
          CountCodeEvents(codes, g, env, tm);
          CountConcat(CodeEvents(codes, g, env, tm), ElementEvents(es[1..], g, env, tm'));
          CountElementEvents(es[1..], pen, g, env, tm');
      }
    }
  }

  /** The machine shows what the tracked pen thinks it shows. */
  ghost predicate Tracks(pen: Pen, saved: seq<Pen>, m: Machine, env: Env) {
    && Agree(pen, m.g, env)
    && |saved| == |m.stack|
    && forall i :: 0 <= i < |saved| ==> Agree(saved[i], m.stack[i], env)
  }

  lemma TrackStep(op: Op, pen: Pen, saved: seq<Pen>, env: Env, m: Machine)
    requires Tracks(pen, saved, m, env)
    ensures Tracks(PenAt(op, pen, saved, env.fonts), Popped(op, pen, saved).1, Step(op, env, m), env)
    ensures Shows(op) ==> Agree(PenAt(op, pen, saved, env.fonts), Ready(op, m).g, env)
  {
  }

  lemma OneOp(op: Op, env: Env, m: Machine)
    ensures Run([op], env, m) == Step(op, env, m) && Events([op], env, m) == StepEvents(op, env, m)
  {
    assert [op][1..] == [];
    assert Run([], env, Step(op, env, m)) == Step(op, env, m) && Events([], env, Step(op, env, m)) == [];
  }

  lemma LineOpsReady(op: Op, env: Env, m: Machine)
    requires Shows(op)
    ensures Run(LineOps(op), env, m) == Ready(op, m) && Events(LineOps(op), env, m) == []
  {
    match op {
      case NextLineShow(_) =>
        OneOp(NextLine, env, m);
      case SpacedShow(aw, ac, _) =>
        var m1 := Step(Tw(aw), env, m);
        assert LineOps(op) == [Tw(aw)] + ([Tc(ac)] + [NextLine]);
        OneOp(Tw(aw), env, m);
        OneOp(Tc(ac), env, m1);
        OneOp(NextLine, env, Step(Tc(ac), env, m1));
        RunConcat([Tc(ac)], [NextLine], env, m1);
        RunConcat([Tw(aw)], [Tc(ac)] + [NextLine], env, m);
      case _ =>
    }
  }

  lemma ReadySim(op: Op, m: Machine, m': Machine, slack: real)
    requires Shows(op) && SameButPen(m', m, slack)
    ensures SameButPen(Ready(op, m'), Ready(op, m), if StartsLine(op) then 0.0 else slack)
  {
  }

  /** The operators `ops` stand for `op`: same machine afterwards, up to the pen's slack, and
      the kept glyphs of `op` within their slacks. */
  ghost predicate StandsFor(ops: seq<Op>, op: Op, env: Env, m: Machine, m': Machine, n: nat, slack: real,
                            removable: set<nat>, eps: real) {
    && SameButPen(Run(ops, env, m'), Step(op, env, m), SlackAfterStep(op, env, m, n, slack, removable, eps))
    && Near(Events(ops, env, m'), Keep(StepEvents(op, env, m), n, removable),
            StepSlacks(op, env, m, n, slack, removable, eps))
  }

  /** What shows the elements `cut` from the ready state stands for `op` when `cut` is well cut. */
  lemma ShowStands(c: Setting, cut: seq<Element>, ops: seq<Op>, op: Op, n: nat, m: Machine, m': Machine, slack: real)
    requires Shows(op) && c.g == Ready(op, m).g && SameButPen(m', m, slack)
    requires Run(ops, c.env, m') == Ready(op, m').(at := PenAfterElements(cut, c.g, c.env, Ready(op, m').at))
    requires Events(ops, c.env, m') == ElementEvents(cut, c.g, c.env, Ready(op, m').at)
    requires ElementsWell(c, cut, ElementsOf(op), n, Ready(op, m).at, Ready(op, m').at,
                          if StartsLine(op) then 0.0 else slack)
    ensures StandsFor(ops, op, c.env, m, m', n, slack, c.job.removable, c.eps)
  {
  }

  lemma ShowCut(c: Setting, op: Op, n: nat, m: Machine, m': Machine, slack: real)
    requires Shows(op) && c.g == Ready(op, m).g && c.Fits() && SameButPen(m', m, slack)
    requires AdvancesOf(StepEvents(op, c.env, m), n, c.job.adv, c.env)
    ensures StandsFor(LineOps(op) + [ShowArray(CutElements(ElementsOf(op), n, c.pen, c.job))],
                      op, c.env, m, m', n, slack, c.job.removable, c.eps)
  {
    hide CutElements, ElementsWell, AdvancesOf, StandsFor, LineOps;
    var r' := Ready(op, m');
    var cut := CutElements(ElementsOf(op), n, c.pen, c.job);
    ReadySim(op, m, m', slack);
    LineOpsReady(op, c.env, m');
    OneOp(ShowArray(cut), c.env, r');
    RunConcat(LineOps(op), [ShowArray(cut)], c.env, m');
    CutElementsSim(c, ElementsOf(op), n, Ready(op, m).at, r'.at, if StartsLine(op) then 0.0 else slack);
    assert Events(LineOps(op), c.env, m') + Events([ShowArray(cut)], c.env, r') == Events([ShowArray(cut)], c.env, r');
    ShowStands(c, cut, LineOps(op) + [ShowArray(cut)], op, n, m, m', slack);
  }

  lemma ShowWhole(c: Setting, op: Op, n: nat, m: Machine, m': Machine, slack: real)
    requires Shows(op) && c.g == Ready(op, m).g && Measures(c.pen) && Agree(c.pen, c.g, c.env)
    requires SameButPen(m', m, slack)
    requires !Touches(n, CountCodes(ElementsOf(op), c.pen), c.job.removable)
    ensures StandsFor([op], op, c.env, m, m', n, slack, c.job.removable, c.eps)
  {
    ReadySim(op, m, m', slack);
    OneOp(op, c.env, m');
    WholeElementsSim(c, ElementsOf(op), n, Ready(op, m).at, Ready(op, m').at, if StartsLine(op) then 0.0 else slack);
    ShowStands(c, ElementsOf(op), [op], op, n, m, m', slack);
  }

  lemma ShowSim(op: Op, n: nat, pen: Pen, job: Job, env: Env, m: Machine, m': Machine, slack: real, eps: real)
    requires Shows(op) && Measures(pen) && Agree(pen, Ready(op, m).g, env) && RoundsWithin(job.round, eps)
    requires Touches(n, CountCodes(ElementsOf(op), pen), job.removable) ==> pen.th != 0.0
    requires AdvancesOf(StepEvents(op, env, m), n, job.adv, env)
    requires SameButPen(m', m, slack)
    ensures StandsFor(Rewrite(op, n, pen, job), op, env, m, m', n, slack, job.removable, eps)
    ensures Count(StepEvents(op, env, m)) == CountCodes(ElementsOf(op), pen)
  {
    var c := Setting(pen, job, Ready(op, m).g, env, eps);
    CountElementEvents(ElementsOf(op), pen, c.g, env, Ready(op, m).at);
    if Touches(n, CountCodes(ElementsOf(op), pen), job.removable) {
      ShowCut(c, op, n, m, m', slack);
    } else {
      ShowWhole(c, op, n, m, m', slack);
    }
  }

  lemma PlainSim(op: Op, n: nat, env: Env, m: Machine, m': Machine, slack: real, removable: set<nat>, eps: real)
    requires !Shows(op) && SameButPen(m', m, slack)
    ensures StandsFor([op], op, env, m, m', n, slack, removable, eps)
    ensures Count(StepEvents(op, env, m)) == 0
  {
    OneOp(op, env, m');
    if op.Other? {
      assert Keep([Marked(op.id, m.g)], n, removable) == [Marked(op.id, m.g)] + Keep([], n, removable);
    }
  }

  // ---------------------------------------------------------- whole streams

  /** `kept` does what `ops` does, minus the removed glyphs, within the slacks. */
  ghost predicate StreamWell(kept: seq<Op>, ops: seq<Op>, env: Env, m: Machine, m': Machine, n: nat, slack: real,
                             removable: set<nat>, eps: real) {
    && SameButPen(Run(kept, env, m'), Run(ops, env, m), SlackAfter(ops, env, m, n, slack, removable, eps))
    && Near(Events(kept, env, m'), Keep(Events(ops, env, m), n, removable),
            Slacks(ops, env, m, n, slack, removable, eps))
  }

  lemma JoinStream(kept: seq<Op>, head: seq<Op>, rest: seq<Op>, ops: seq<Op>, env: Env, m: Machine, m': Machine,
                   n: nat, n': nat, slack: real, s: real, removable: set<nat>, eps: real)
    requires ops != [] && kept == head + rest
    requires n' == n + Count(StepEvents(ops[0], env, m))
             && s == SlackAfterStep(ops[0], env, m, n, slack, removable, eps)
    requires StandsFor(head, ops[0], env, m, m', n, slack, removable, eps)
    requires StreamWell(rest, ops[1..], env, Step(ops[0], env, m), Run(head, env, m'), n', s, removable, eps)
    ensures StreamWell(kept, ops, env, m, m', n, slack, removable, eps)
  {
    RunConcat(head, rest, env, m');
    JoinRun(Run(kept, env, m'), ops, env, m, n, n', slack, s, removable, eps);
    JoinEvents(Events(kept, env, m'), Events(head, env, m'), Events(rest, env, Run(head, env, m')), ops, env, m,
               n, n', slack, s, removable, eps);
  }

  lemma JoinRun(end: Machine, ops: seq<Op>, env: Env, m: Machine, n: nat, n': nat, slack: real, s: real,
                removable: set<nat>, eps: real)
    requires ops != []
    requires n' == n + Count(StepEvents(ops[0], env, m))
             && s == SlackAfterStep(ops[0], env, m, n, slack, removable, eps)
    requires SameButPen(end, Run(ops[1..], env, Step(ops[0], env, m)),
                        SlackAfter(ops[1..], env, Step(ops[0], env, m), n', s, removable, eps))
    ensures SameButPen(end, Run(ops, env, m), SlackAfter(ops, env, m, n, slack, removable, eps))
  {
  }

  lemma JoinEvents(all: seq<Event>, drawn: seq<Event>, more: seq<Event>, ops: seq<Op>, env: Env, m: Machine,
                   n: nat, n': nat, slack: real, s: real, removable: set<nat>, eps: real)
    requires ops != [] && all == drawn + more
    requires n' == n + Count(StepEvents(ops[0], env, m))
             && s == SlackAfterStep(ops[0], env, m, n, slack, removable, eps)
    requires Near(drawn, Keep(StepEvents(ops[0], env, m), n, removable),
                  StepSlacks(ops[0], env, m, n, slack, removable, eps))
    requires Near(more, Keep(Events(ops[1..], env, Step(ops[0], env, m)), n', removable),
                  Slacks(ops[1..], env, Step(ops[0], env, m), n', s, removable, eps))
    ensures Near(all, Keep(Events(ops, env, m), n, removable), Slacks(ops, env, m, n, slack, removable, eps))
  {
    var kept, keptLater := KeepFirst(ops, env, m, n, n', removable);
    var now, later := SlacksFirst(ops, env, m, n, n', slack, s, removable, eps);
    NearConcat(drawn, more, kept, keptLater, now, later);
  }

  lemma KeepFirst(ops: seq<Op>, env: Env, m: Machine, n: nat, n': nat, removable: set<nat>)
    returns (kept: seq<Event>, later: seq<Event>)
    requires ops != [] && n' == n + Count(StepEvents(ops[0], env, m))
    ensures kept == Keep(StepEvents(ops[0], env, m), n, removable)
    ensures later == Keep(Events(ops[1..], env, Step(ops[0], env, m)), n', removable)
    ensures Keep(Events(ops, env, m), n, removable) == kept + later
  {
    hide Step, StepEvents, Keep, Count;
    kept := Keep(StepEvents(ops[0], env, m), n, removable);
    later := Keep(Events(ops[1..], env, Step(ops[0], env, m)), n', removable);
    KeepConcat(StepEvents(ops[0], env, m), Events(ops[1..], env, Step(ops[0], env, m)), n, removable);
  }

  lemma SlacksFirst(ops: seq<Op>, env: Env, m: Machine, n: nat, n': nat, slack: real, s: real, removable: set<nat>,
                    eps: real)
    returns (now: seq<real>, later: seq<real>)
    requires ops != [] && n' == n + Count(StepEvents(ops[0], env, m))
    requires s == SlackAfterStep(ops[0], env, m, n, slack, removable, eps)
    ensures now == StepSlacks(ops[0], env, m, n, slack, removable, eps)
    ensures later == Slacks(ops[1..], env, Step(ops[0], env, m), n', s, removable, eps)
    ensures Slacks(ops, env, m, n, slack, removable, eps) == now + later
  {
    hide StepEvents, Step, StepSlacks, SlackAfterStep, Count;
    now := StepSlacks(ops[0], env, m, n, slack, removable, eps);
    later := Slacks(ops[1..], env, Step(ops[0], env, m), n', s, removable, eps);
  }

  /** What stands for the first operator of a stream, shown with the tracked pen. */
  ghost function Head(op: Op, pen: Pen, n: nat, job: Job): seq<Op>
    requires Shows(op) ==> Measures(pen)
  {
    if Shows(op) then Rewrite(op, n, pen, job) else [op]
  }

  lemma HeadSim(op: Op, pen: Pen, n: nat, job: Job, env: Env, m: Machine, m': Machine, slack: real, eps: real)
    requires RoundsWithin(job.round, eps) && SameButPen(m', m, slack)
    requires Shows(op) ==> Measures(pen) && Agree(pen, Ready(op, m).g, env)
    requires Shows(op) && Touches(n, CountCodes(ElementsOf(op), pen), job.removable) ==> pen.th != 0.0
    requires AdvancesOf(StepEvents(op, env, m), n, job.adv, env)
    ensures StandsFor(Head(op, pen, n, job), op, env, m, m', n, slack, job.removable, eps)
    ensures SameButPen(Run(Head(op, pen, n, job), env, m'), Step(op, env, m),
                       SlackAfterStep(op, env, m, n, slack, job.removable, eps))
  {
    if Shows(op) {
      ShowSim(op, n, pen, job, env, m, m', slack, eps);
    } else {
      PlainSim(op, n, env, m, m', slack, job.removable, eps);
    }
  }

  lemma HeadUnfold(ops: seq<Op>, pen: Pen, saved: seq<Pen>, n: nat, job: Job, env: Env, m: Machine)
    returns (pen': Pen, saved': seq<Pen>, n': nat)
    requires ops != [] && RewriteAll(ops, pen, saved, n, job).Kept?
    requires job.fonts == env.fonts && Tracks(pen, saved, m, env)
    ensures n' == n + Count(StepEvents(ops[0], env, m))
    ensures Shows(ops[0]) ==> Measures(pen') && Agree(pen', Ready(ops[0], m).g, env)
    ensures Shows(ops[0]) && Touches(n, CountCodes(ElementsOf(ops[0]), pen'), job.removable) ==> pen'.th != 0.0
    ensures Tracks(pen', saved', Step(ops[0], env, m), env)
    ensures RewriteAll(ops[1..], pen', saved', n', job).Kept?
    ensures RewriteAll(ops, pen, saved, n, job)
         == Prepend(Head(ops[0], pen', n, job), RewriteAll(ops[1..], pen', saved', n', job))
  {
    TrackStep(ops[0], pen, saved, env, m);
    pen', saved' := PenAt(ops[0], pen, saved, job.fonts), Popped(ops[0], pen, saved).1;
    n' := One(ops[0], pen', n, job).counted;
    if Shows(ops[0]) {
      CountElementEvents(ElementsOf(ops[0]), pen', Ready(ops[0], m).g, env, Ready(ops[0], m).at);
    }
  }

  /** The glyph count of the rewrite is that of the stream. */
  lemma {:induction false} RewriteAllCounts(ops: seq<Op>, pen: Pen, saved: seq<Pen>, n: nat, job: Job, env: Env,
                          m: Machine)
    requires RewriteAll(ops, pen, saved, n, job).Kept?
    requires job.fonts == env.fonts && Tracks(pen, saved, m, env)
    ensures RewriteAll(ops, pen, saved, n, job).counted == n + Count(Events(ops, env, m))
    decreases |ops|
  {
    if ops != [] {
      var pen', saved', n' := HeadUnfold(ops, pen, saved, n, job, env, m);
      RewriteAllCounts(ops[1..], pen', saved', n', job, env, Step(ops[0], env, m));
      CountConcat(StepEvents(ops[0], env, m), Events(ops[1..], env, Step(ops[0], env, m)));
    }
  }

  lemma {:induction false} RewriteAllSim(ops: seq<Op>, pen: Pen, saved: seq<Pen>, n: nat, job: Job, env: Env,
                                         m: Machine, m': Machine, slack: real, eps: real)
    requires RewriteAll(ops, pen, saved, n, job).Kept?
    requires job.fonts == env.fonts && RoundsWithin(job.round, eps)
    requires Tracks(pen, saved, m, env) && SameButPen(m', m, slack)
    requires AdvancesOf(Events(ops, env, m), n, job.adv, env)
    ensures StreamWell(RewriteAll(ops, pen, saved, n, job).ops, ops, env, m, m', n, slack, job.removable, eps)
    decreases |ops|
  {
    hide RoundsWithin, StreamWell, StandsFor, SameButPen, Tracks, AdvancesOf, Events, StepEvents, Step, SlackAfterStep,
        One, PenAt;
    if ops == [] {
      NothingLeft(ops, RewriteAll(ops, pen, saved, n, job).ops, env, m, m', n, slack, job.removable, eps);
    } else {
      var m1 := FirstAdvances(ops, n, job, env, m);
      var pen', saved', n' := HeadUnfold(ops, pen, saved, n, job, env, m);
      var s := SlackAfterStep(ops[0], env, m, n, slack, job.removable, eps);
      var head, m1' := HeadRuns(ops[0], pen', n, job, env, m, m1, m', slack, s, eps);
      RewriteAllSim(ops[1..], pen', saved', n', job, env, m1, m1', s, eps);
      JoinStream(RewriteAll(ops, pen, saved, n, job).ops, head, RewriteAll(ops[1..], pen', saved', n', job).ops, ops,
                 env, m, m', n, n', slack, s, job.removable, eps);
    }
  }

  lemma HeadRuns(op: Op, pen: Pen, n: nat, job: Job, env: Env, m: Machine, m1: Machine, m': Machine,
                 slack: real, s: real, eps: real) returns (head: seq<Op>, m1': Machine)
    requires RoundsWithin(job.round, eps) && SameButPen(m', m, slack)
    requires Shows(op) ==> Measures(pen) && Agree(pen, Ready(op, m).g, env)
    requires Shows(op) && Touches(n, CountCodes(ElementsOf(op), pen), job.removable) ==> pen.th != 0.0
    requires AdvancesOf(StepEvents(op, env, m), n, job.adv, env)
    requires m1 == Step(op, env, m) && s == SlackAfterStep(op, env, m, n, slack, job.removable, eps)
    ensures head == Head(op, pen, n, job) && m1' == Run(head, env, m')
    ensures StandsFor(head, op, env, m, m', n, slack, job.removable, eps)
    ensures SameButPen(m1', m1, s)
  {
    HeadSim(op, pen, n, job, env, m, m', slack, eps);
    head := Head(op, pen, n, job);
    m1' := Run(head, env, m');
  }

  lemma FirstAdvances(ops: seq<Op>, n: nat, job: Job, env: Env, m: Machine) returns (m1: Machine)
    requires ops != [] && AdvancesOf(Events(ops, env, m), n, job.adv, env)
    ensures m1 == Step(ops[0], env, m)
    ensures AdvancesOf(StepEvents(ops[0], env, m), n, job.adv, env)
    ensures AdvancesOf(Events(ops[1..], env, m1), n + Count(StepEvents(ops[0], env, m)), job.adv, env)
  {
    hide AdvancesOf, Step, StepEvents, Count;
    m1 := Step(ops[0], env, m);
    AdvancesConcat(StepEvents(ops[0], env, m), Events(ops[1..], env, m1), n, job.adv, env);
  }

  lemma NothingLeft(ops: seq<Op>, kept: seq<Op>, env: Env, m: Machine, m': Machine, n: nat, slack: real,
                    removable: set<nat>, eps: real)
    requires ops == [] && kept == [] && SameButPen(m', m, slack)
    ensures StreamWell(kept, ops, env, m, m', n, slack, removable, eps)
  {
  }

  /** A stream starts with default spacing; a Form must be drawn under the defaults too. A scale
      of 0 does as well, under which nothing moves until a stream sets another. */
  ghost predicate DefaultSpacing(m: Machine) {
    m.g.tc == 0.0 && m.g.tw == 0.0 && (m.g.th == 1.0 || m.g.th == 0.0)
  }

  lemma StartTracks(m: Machine, env: Env)
    requires DefaultSpacing(m) && m.stack == []
    ensures Tracks(FRESH_PEN, [], m, env) && SameButPen(m, m, 0.0)
  {
  }

  /** The glyphs of a showing operator can be measured: a font whose codes have one or two
      bytes, a size that is not zero, and, to remove one of them, a scale that is not. */
  ghost predicate Measurable(g: Graphics, env: Env, n: nat, count: nat, removable: set<nat>) {
    && g.font.Some? && g.size != 0.0 && (Touches(n, count, removable) ==> g.th != 0.0)
    && (BytesPerGlyph(env.fonts, g.font.value) == Some(1) || BytesPerGlyph(env.fonts, g.font.value) == Some(2))
  }

  /** ... at every showing operator of a stream, glyph n being the next one drawn. */
  ghost predicate AllMeasurable(ops: seq<Op>, env: Env, m: Machine, n: nat, removable: set<nat>) {
    ops == [] ||
    var count := Count(StepEvents(ops[0], env, m));
    && (Shows(ops[0]) ==> Measurable(Ready(ops[0], m).g, env, n, count, removable))
    && AllMeasurable(ops[1..], env, Step(ops[0], env, m), n + count, removable)
  }

  /** Every font and scale in force is one the pen has seen set. */
  ghost predicate AllSeen(pen: Pen, saved: seq<Pen>, m: Machine) {
    && |saved| == |m.stack| && Seen(pen, m.g)
    && forall i :: 0 <= i < |saved| ==> Seen(saved[i], m.stack[i])
  }

  predicate Seen(pen: Pen, g: Graphics) {
    (pen.size.Some? <==> g.font.Some?) && pen.th == g.th
  }

  lemma SeenStep(op: Op, pen: Pen, saved: seq<Pen>, env: Env, m: Machine)
    requires Tracks(pen, saved, m, env) && AllSeen(pen, saved, m)
    ensures AllSeen(PenAt(op, pen, saved, env.fonts), Popped(op, pen, saved).1, Step(op, env, m))
    ensures Shows(op) ==> Seen(PenAt(op, pen, saved, env.fonts), Ready(op, m).g)
  {
  }

  lemma OneKeptExactly(op: Op, pen: Pen, n: nat, job: Job, env: Env, m: Machine)
    requires job.fonts == env.fonts
    requires Shows(op) ==> Agree(pen, Ready(op, m).g, env) && Seen(pen, Ready(op, m).g)
    ensures One(op, pen, n, job).Kept?
            <==> Shows(op) ==> Measurable(Ready(op, m).g, env, n, Count(StepEvents(op, env, m)), job.removable)
    ensures One(op, pen, n, job).Kept? ==> One(op, pen, n, job).counted == n + Count(StepEvents(op, env, m))
  {
    hide Touches, Rewrite;
    if Shows(op) && Measures(pen) {
      CountElementEvents(ElementsOf(op), pen, Ready(op, m).g, env, Ready(op, m).at);
    }
  }

  lemma {:induction false} RewriteKeptExactly(ops: seq<Op>, pen: Pen, saved: seq<Pen>, n: nat, job: Job, env: Env,
                                              m: Machine)
    requires job.fonts == env.fonts && Tracks(pen, saved, m, env) && AllSeen(pen, saved, m)
    ensures RewriteAll(ops, pen, saved, n, job).Kept? <==> AllMeasurable(ops, env, m, n, job.removable)
    decreases |ops|
  {
    hide Tracks, AllSeen, Measurable, One, PenAt, Popped, Step, StepEvents, Count, Ready, Agree;
    if ops != [] {
      var pen', saved' := PenAt(ops[0], pen, saved, job.fonts), Popped(ops[0], pen, saved).1;
      TrackStep(ops[0], pen, saved, env, m);
      SeenStep(ops[0], pen, saved, env, m);
      OneKeptExactly(ops[0], pen', n, job, env, m);
      RewriteKeptExactly(ops[1..], pen', saved', n + Count(StepEvents(ops[0], env, m)), job, env, Step(ops[0], env, m));
    }
  }

  /** When a stream with something to remove is stripped at all: exactly when each of its
      glyphs can be measured with a font that it sets itself, and it draws as many as were
      read. */
  lemma StripKeptExactly(ops: seq<Op>, job: Job, env: Env, m: Machine)
    requires job.fonts == env.fonts && DefaultSpacing(m) && m.g.th == 1.0 && m.stack == [] && m.g.font.None?
    requires job.removable != {}
    ensures Stripped(ops, job).Kept?
            <==> AllMeasurable(ops, env, m, 0, job.removable) && Count(Events(ops, env, m)) == |job.adv|
  {
    hide AllMeasurable, RewriteAll;
    StartTracks(m, env);
    RewriteKeptExactly(ops, FRESH_PEN, [], 0, job, env, m);
    if RewriteAll(ops, FRESH_PEN, [], 0, job).Kept? {
      RewriteAllCounts(ops, FRESH_PEN, [], 0, job, env, m);
    }
  }

  /** Rounded: every kept glyph is displaced by at most one unit per removed run before it on
      its line, and so is the pen at the end. */
  lemma StripDisplacesWithinSlack(ops: seq<Op>, job: Job, env: Env, m: Machine, eps: real)
    requires Stripped(ops, job).Kept? && job.removable != {}
    requires job.fonts == env.fonts && RoundsWithin(job.round, eps)
    requires DefaultSpacing(m) && m.stack == []
    requires AdvancesOf(Events(ops, env, m), 0, job.adv, env)
    ensures StreamWell(Stripped(ops, job).ops, ops, env, m, m, 0, 0.0, job.removable, eps)
  {
    StartTracks(m, env);
    RewriteAllSim(ops, FRESH_PEN, [], 0, job, env, m, m, 0.0, eps);
  }

  // ------------------------------------------------------- exact arithmetic

  ghost predicate AllZero(s: seq<real>) {
    forall i :: 0 <= i < |s| ==> s[i] == 0.0
  }

  lemma {:induction false} ZeroCodeSlacks(count: nat, n: nat, open: bool, removable: set<nat>)
    ensures AllZero(CodeSlacks(count, n, open, 0.0, removable, 0.0))
    ensures SlackAfterCodes(count, n, open, 0.0, removable, 0.0) == 0.0
    decreases count
  {
    if count > 0 {
      ZeroCodeSlacks(count - 1, n + 1, n in removable, removable);
    }
  }

  lemma {:induction false} ZeroElementSlacks(es: seq<Element>, n: nat, removable: set<nat>, g: Graphics, env: Env)
    ensures AllZero(ElementSlacks(es, n, 0.0, removable, g, env, 0.0))
    ensures SlackAfterElements(es, n, 0.0, removable, g, env, 0.0) == 0.0
    decreases |es|
  {
    assert Unit(g, 0.0) == 0.0;
    if es == [] {
    } else if es[0].Num? {
      ZeroElementSlacks(es[1..], n, removable, g, env);
    } else {
      var k := |CodesOf(es[0].bytes, g, env)|;
      ZeroCodeSlacks(k, n, false, removable);
      ZeroElementSlacks(es[1..], n + k, removable, g, env);
    }
  }

  lemma ZeroStepSlacks(op: Op, env: Env, m: Machine, n: nat, removable: set<nat>)
    ensures AllZero(StepSlacks(op, env, m, n, 0.0, removable, 0.0))
    ensures SlackAfterStep(op, env, m, n, 0.0, removable, 0.0) == 0.0
  {
    if Shows(op) {
      ZeroElementSlacks(ElementsOf(op), n, removable, Ready(op, m).g, env);
    }
  }

  lemma ZeroTogether(a: seq<real>, b: seq<real>)
    requires AllZero(a) && AllZero(b)
    ensures AllZero(a + b)
  {
  }

  lemma {:induction false} ZeroSlacks(ops: seq<Op>, env: Env, m: Machine, n: nat, removable: set<nat>)
    ensures AllZero(Slacks(ops, env, m, n, 0.0, removable, 0.0))
    ensures SlackAfter(ops, env, m, n, 0.0, removable, 0.0) == 0.0
    decreases |ops|
  {
    if ops != [] {
      hide Step, StepEvents, StepSlacks, SlackAfterStep, Count, AllZero;
      var m', n' := Step(ops[0], env, m), n + Count(StepEvents(ops[0], env, m));
      ZeroStepSlacks(ops[0], env, m, n, removable);
      ZeroSlacks(ops[1..], env, m', n', removable);
      ZeroTogether(StepSlacks(ops[0], env, m, n, 0.0, removable, 0.0),
                   Slacks(ops[1..], env, m', n', 0.0, removable, 0.0));
    }
  }

  lemma {:induction false} ZeroNear(es: seq<Event>, fs: seq<Event>, slacks: seq<real>)
    requires Near(es, fs, slacks) && AllZero(slacks)
    ensures es == fs
    decreases |es|
  {
    if es != [] {
      ZeroNear(es[1..], fs[1..], slacks[1..]);
      assert slacks[0] == 0.0;
      assert es == [es[0]] + es[1..] && fs == [fs[0]] + fs[1..];
    }
  }

  lemma {:induction false} KeepNothingRemoved(events: seq<Event>, n: nat)
    ensures Keep(events, n, {}) == events
    decreases |events|
  {
    if events != [] {
      KeepNothingRemoved(events[1..], if events[0].Marked? then n else n + 1);
    }
  }

  /** Exact: a stream that is stripped leaves the machine where the original leaves it, and
      paints exactly what the original paints without the removed glyphs. */
  lemma StripPreservesMeaning(ops: seq<Op>, job: Job, env: Env, m: Machine)
    requires Stripped(ops, job).Kept?
    requires job.fonts == env.fonts && forall x :: job.round(x) == x
    requires DefaultSpacing(m) && m.stack == []
    requires AdvancesOf(Events(ops, env, m), 0, job.adv, env)
    ensures Run(Stripped(ops, job).ops, env, m) == Run(ops, env, m)
    ensures Events(Stripped(ops, job).ops, env, m) == Keep(Events(ops, env, m), 0, job.removable)
  {
    if job.removable == {} {
      KeepNothingRemoved(Events(ops, env, m), 0);
    } else {
      assert RoundsWithin(job.round, 0.0);
      StripDisplacesWithinSlack(ops, job, env, m, 0.0);
      ZeroSlacks(ops, env, m, 0, job.removable);
      var kept := Stripped(ops, job).ops;
      ZeroNear(Events(kept, env, m), Keep(Events(ops, env, m), 0, job.removable),
               Slacks(ops, env, m, 0, 0.0, job.removable, 0.0));
    }
  }

  /** Rewriting a prefix is a prefix of rewriting the whole. */
  lemma {:induction false} RewritePrefix(ops: seq<Op>, k: nat, pen: Pen, saved: seq<Pen>, n: nat, job: Job)
    requires k <= |ops| && RewriteAll(ops, pen, saved, n, job).Kept?
    ensures RewriteAll(ops[..k], pen, saved, n, job).Kept?
    ensures RewriteAll(ops[..k], pen, saved, n, job).ops <= RewriteAll(ops, pen, saved, n, job).ops
    decreases |ops|
  {
    if k > 0 {
      hide One, PenAt, Popped;
      assert ops[..k][0] == ops[0] && ops[..k][1..] == ops[1..][..k - 1];
      var pen', saved' := PenAt(ops[0], pen, saved, job.fonts), Popped(ops[0], pen, saved).1;
      RewritePrefix(ops[1..], k - 1, pen', saved', One(ops[0], pen', n, job).counted, job);
    }
  }

  /** After every operator of the original, the rewritten stream has been in the same state:
      same pen, same line, same graphics state and stack. */
  lemma StripPreservesEveryState(ops: seq<Op>, k: nat, job: Job, env: Env, m: Machine) returns (j: nat)
    requires k <= |ops| && Stripped(ops, job).Kept? && job.removable != {}
    requires job.fonts == env.fonts && forall x :: job.round(x) == x
    requires DefaultSpacing(m) && m.stack == []
    requires AdvancesOf(Events(ops, env, m), 0, job.adv, env)
    ensures j <= |Stripped(ops, job).ops|
    ensures Run(Stripped(ops, job).ops[..j], env, m) == Run(ops[..k], env, m)
    ensures Events(Stripped(ops, job).ops[..j], env, m) == Keep(Events(ops[..k], env, m), 0, job.removable)
  {
    RewritePrefix(ops, k, FRESH_PEN, [], 0, job);
    var kept := RewriteAll(ops[..k], FRESH_PEN, [], 0, job).ops;
    j := |kept|;
    assert Stripped(ops, job).ops[..j] == kept;
    RunConcat(ops[..k], ops[k..], env, m);
    assert ops[..k] + ops[k..] == ops;
    AdvancesConcat(Events(ops[..k], env, m), Events(ops[k..], env, Run(ops[..k], env, m)), 0, job.adv, env);
    StartTracks(m, env);
    assert RoundsWithin(job.round, 0.0);
    RewriteAllSim(ops[..k], FRESH_PEN, [], 0, job, env, m, m, 0.0, 0.0);
    ZeroSlacks(ops[..k], env, m, 0, job.removable);
    ZeroNear(Events(kept, env, m), Keep(Events(ops[..k], env, m), 0, job.removable),
             Slacks(ops[..k], env, m, 0, 0.0, job.removable, 0.0));
  }

  // ------------------------------------------------ three decimals, as written

  /** Python's round(x, 3): nearest thousandth, halves to even. */
  function RoundToThousandth(x: real): real {
    var y := x * 1000.0;
    var lo := y.Floor;
    var rest := y - lo as real;
    (if rest < 0.5 || (rest == 0.5 && lo % 2 == 0) then lo else lo + 1) as real / 1000.0
  }

  lemma RoundingError()
    ensures RoundsWithin(RoundToThousandth, 0.0005)
  {
  }

  /** As the program writes the numbers: half a millionth of |Tfs Th| for each removed run. */
  lemma StripAsWritten(ops: seq<Op>, job: Job, env: Env, m: Machine)
    requires Stripped(ops, job).Kept? && job.removable != {}
    requires job.fonts == env.fonts && job.round == RoundToThousandth
    requires DefaultSpacing(m) && m.stack == []
    requires AdvancesOf(Events(ops, env, m), 0, job.adv, env)
    ensures StreamWell(Stripped(ops, job).ops, ops, env, m, m, 0, 0.0, job.removable, 0.0005)
    ensures forall g :: Unit(g, 0.0005) == 0.0000005 * Abs(g.size * g.th)
  {
    RoundingError();
    StripDisplacesWithinSlack(ops, job, env, m, 0.0005);
  }

  // ------------------------------------- why the start must be the default one

  /** A stream of two glyphs of one simple font, all of them `width` wide, the first removed. */
  function TwoGlyphs(first: Byte): seq<Op> {
    [Tf("F", 1.0), Show([first, 65])]
  }

  function OneWidth(width: real): Env {
    Env(map["F" := SimpleFont], (name: string, code: Glyph) => width)
  }

  function FirstRemoved(width: real, m: Machine): Job {
    Job(map["F" := SimpleFont], {0}, [width * m.g.th, width * m.g.th], x => x)
  }

  lemma TwoGlyphEvents(first: Byte, second: Byte, g: Graphics, env: Env, tm: Place)
    requires g.font == Some("F") && env.fonts == map["F" := SimpleFont]
    ensures ElementEvents([Str([first, second])], g, env, tm)
         == [Drawn([first], g, tm), Drawn([second], g, Forward(Advance([first], g, env), tm))]
  {
    var bytes, codes := [first, second], [[first], [second]];
    assert bytes[1..] == [second] && bytes[..1] == [first];
    assert Decode([second], 1) == [[second]] by { assert [second][..1] == [second] && [second][1..] == []; }
    assert Decode(bytes, 1) == codes;
    StringRuns(bytes, codes, g, env, tm);
    assert codes[1..] == [[second]];
    OneCode([second], g, env, Forward(Advance([first], g, env), tm));
  }

  /** Such a stream is always stripped, to a gap as wide as the glyph alone. */
  lemma TwoGlyphsCut(first: Byte, width: real, m: Machine, pen: Pen)
    requires pen == Pen(Some(1), Some(1.0), 0.0, 0.0, 1.0)
    ensures var job, es := FirstRemoved(width, m), [Str([first, 65])];
            && CountCodes(es, pen) == 2
            && CutElements(es, 0, pen, job) == Flush([], width * m.g.th, pen, job) + [Str([65])]
  {
    var job, gap := FirstRemoved(width, m), width * m.g.th;
    assert Decode([65], 1) == [[65]] by { assert [65][..1] == [65] && [65][1..] == []; }
    assert Decode([first, 65], 1) == [[first], [65]] by {
      assert [first, 65][..1] == [first] && [first, 65][1..] == [65];
    }
    var codes := [[first], [65]];
    assert codes[1..] == [[65]] && [[65]][1..] == [];
    assert Hole([first], job.adv[0], pen) == gap + 0.0 + 0.0 by { assert job.adv[0] / 1.0 == gap; }
    assert CutCodes([], 2, [65], 0.0, pen, job) == [Str([65])];
    var written := if gap != 0.0 then [GapNumber(gap, pen, job)] else [];
    assert [] + [65] == [65] && Flush([], gap, pen, job) == [] + written == written;
    assert CutCodes([[65]], 1, [], gap, pen, job) == written + CutCodes([[65]][1..], 2, [65], 0.0, pen, job);
    assert CutCodes(codes, 0, [], 0.0, pen, job) == Flush([], gap, pen, job) + [Str([65])];
    assert [Str([first, 65])][1..] == [];
  }

  lemma TwoGlyphsStripped(first: Byte, width: real, m: Machine)
    ensures var job := FirstRemoved(width, m);
            Stripped(TwoGlyphs(first), job)
            == Kept([Tf("F", 1.0),
                     ShowArray(Flush([], width * m.g.th, Pen(Some(1), Some(1.0), 0.0, 0.0, 1.0), job) + [Str([65])])],
                         2)
  {
    var job, pen, op := FirstRemoved(width, m), Pen(Some(1), Some(1.0), 0.0, 0.0, 1.0), Show([first, 65]);
    TwoGlyphsCut(first, width, m, pen);
    hide CutElements, CountCodes, Flush;
    assert 0 in job.removable && Touches(0, 2, job.removable);
    var rest := [op];
    assert TwoGlyphs(first)[1..] == rest && rest[1..] == [];
    var shown := ShowArray(CutElements([Str([first, 65])], 0, pen, job));
    assert RewriteAll([], pen, [], 2, job) == Kept([], 2);
    assert RewriteAll(rest, pen, [], 0, job) == Kept([shown], 2);
    assert RewriteAll(TwoGlyphs(first), FRESH_PEN, [], 0, job) == Kept([Tf("F", 1.0)] + [shown], 2);
  }

  lemma TwoGlyphsMeaning(first: Byte, width: real, m: Machine, g: Graphics)
    requires g == m.g.(font := Some("F"), size := 1.0)
    ensures var drawn := Drawn([65], g, Forward(Advance([first], g, OneWidth(width)), m.at));
            && Events(TwoGlyphs(first), OneWidth(width), m) == [Drawn([first], g, m.at), drawn]
            && Keep(Events(TwoGlyphs(first), OneWidth(width), m), 0, {0}) == [drawn]
            && AdvancesOf(Events(TwoGlyphs(first), OneWidth(width), m), 0, FirstRemoved(width, m).adv, OneWidth(width))
  {
    var env, job, show := OneWidth(width), FirstRemoved(width, m), Show([first, 65]);
    hide Advance, Keep, AdvancesOf;
    TwoGlyphEvents(first, 65, g, env, m.at);
    OneOp(show, env, m.(g := g));
    OneOp(Tf("F", 1.0), env, m);
    RunConcat([Tf("F", 1.0)], [show], env, m);
    assert TwoGlyphs(first) == [Tf("F", 1.0)] + [show];
    PairMeaning(Drawn([first], g, m.at), Drawn([65], g, Forward(Advance([first], g, env), m.at)), width * m.g.th, env);
    assert Width([first], g, env) == width * m.g.th && Width([65], g, env) == width * m.g.th by {
      assert width * 1.0 == width;
    }
  }

  /** Two glyphs of one width, the first of them to be removed. */
  lemma PairMeaning(e0: Event, e1: Event, advance: real, env: Env)
    requires e0.Drawn? && e1.Drawn?
    ensures Keep([e0, e1], 0, {0}) == [e1]
    ensures Width(e0.code, e0.g, env) == advance && Width(e1.code, e1.g, env) == advance ==>
              AdvancesOf([e0, e1], 0, [advance, advance], env)
  {
    hide Width;
    assert [e0, e1][1..] == [e1] && [e1][1..] == [];
    assert Keep([e1], 1, {0}) == [e1] + Keep([], 2, {0});
    assert AdvancesOf([], 2, [advance, advance], env);
    assert AdvancesOf([e1], 1, [advance, advance], env) <==> Width(e1.code, e1.g, env) == advance;
  }

  lemma NumberThenGlyph(n: real, g: Graphics, env: Env, tm: Place)
    requires g.font == Some("F") && env.fonts == map["F" := SimpleFont]
    ensures ElementEvents([Num(n), Str([65])], g, env, tm) == [Drawn([65], g, Forward(Kern(n, g), tm))]
  {
    var out := Forward(Kern(n, g), tm);
    NumberRuns(n, g, env, tm);
    assert [Num(n), Str([65])] == [Num(n)] + [Str([65])];
    ElementsConcat([Num(n)], [Str([65])], g, env, tm);
    assert Decode([65], 1) == [[65]] by { assert [65][..1] == [65] && [65][1..] == []; }
    StringRuns([65], [[65]], g, env, out);
    OneCode([65], g, env, out);
  }

  /** The gap moves the pen by width Th Th, the glyph by (width + Tc + Tw) Th. */
  lemma TwoGlyphsStrippedMeaning(first: Byte, width: real, gap: real, m: Machine, g: Graphics)
    requires g == m.g.(font := Some("F"), size := 1.0) && gap == width * m.g.th && gap != 0.0
    ensures Stripped(TwoGlyphs(first), FirstRemoved(width, m)).Kept?
    ensures Events(Stripped(TwoGlyphs(first), FirstRemoved(width, m)).ops, OneWidth(width), m)
         == [Drawn([65], g, Forward(gap * g.th, m.at))]
  {
    StrippedToNumber(first, width, gap, m);
    GapKernExact(gap, g);
    NumberThenGlyph(-1000.0 * gap, g, OneWidth(width), m.at);
    var show := ShowArray([Num(-1000.0 * gap), Str([65])]);
    FontThenShow(show, OneWidth(width), m, g);
    assert Stripped(TwoGlyphs(first), FirstRemoved(width, m)).ops == [Tf("F", 1.0), show];
    assert Forward(Kern(-1000.0 * gap, g), m.at) == Forward(gap * g.th, m.at);
  }

  lemma FontThenShow(show: Op, env: Env, m: Machine, g: Graphics)
    requires g == m.g.(font := Some("F"), size := 1.0) && show.ShowArray?
    ensures Events([Tf("F", 1.0), show], env, m) == ElementEvents(show.elements, g, env, m.at)
  {
    OneOp(show, env, m.(g := g));
    OneOp(Tf("F", 1.0), env, m);
    RunConcat([Tf("F", 1.0)], [show], env, m);
    assert [Tf("F", 1.0), show] == [Tf("F", 1.0)] + [show];
  }

  lemma StrippedToNumber(first: Byte, width: real, gap: real, m: Machine)
    requires gap == width * m.g.th && gap != 0.0
    ensures Stripped(TwoGlyphs(first), FirstRemoved(width, m))
         == Kept([Tf("F", 1.0), ShowArray([Num(-1000.0 * gap), Str([65])])], 2)
  {
    var job, pen := FirstRemoved(width, m), Pen(Some(1), Some(1.0), 0.0, 0.0, 1.0);
    TwoGlyphsStripped(first, width, m);
    assert GapNumber(gap, pen, job) == Num(-1000.0 * gap);
    assert Flush([], gap, pen, job) + [Str([65])] == [Num(-1000.0 * gap), Str([65])];
  }

  lemma GapKernExact(gap: real, g: Graphics)
    requires g.size == 1.0
    ensures Kern(-1000.0 * gap, g) == gap * g.th
  {
  }

  lemma OtherSpacingMoves(m: Machine) returns (first: Byte, width: real, drawn: Event, wanted: Event)
    requires m.stack == [] && m.g.th != 0.0 && (m.at.line.a != 0.0 || m.at.line.b != 0.0)
    requires !DefaultSpacing(m)
    ensures AdvancesOf(Events(TwoGlyphs(first), OneWidth(width), m), 0, FirstRemoved(width, m).adv, OneWidth(width))
    ensures Stripped(TwoGlyphs(first), FirstRemoved(width, m)).Kept?
    ensures Events(Stripped(TwoGlyphs(first), FirstRemoved(width, m)).ops, OneWidth(width), m) == [drawn]
    ensures Keep(Events(TwoGlyphs(first), OneWidth(width), m), 0, {0}) == [wanted]
    ensures drawn.Drawn? && wanted.Drawn? && TextMatrix(drawn.at) != TextMatrix(wanted.at)
  {
    hide AdvancesOf, Events, Stripped, Keep, TwoGlyphs, OneWidth, FirstRemoved, Advance, WordSpace, Shift;
    first, width := TellingGlyph(m.g.tc, m.g.tw, m.g.th);
    var g := m.g.(font := Some("F"), size := 1.0);
    var gap, a := width * g.th, Advance([first], g, OneWidth(width));
    TwoGlyphsMeaning(first, width, m, g);
    TwoGlyphsStrippedMeaning(first, width, gap, m, g);
    drawn := Drawn([65], g, Forward(gap * g.th, m.at));
    wanted := Drawn([65], g, Forward(a, m.at));
    GlyphAdvance(first, width, g, gap, a);
    DifferentGaps(width, g.th, g.tc + WordSpace([first], g.tw), gap, a);
    DifferentShifts(m.at.x + gap * g.th, m.at.x + a, m.at.line);
  }

  /** A text object of its own, under a scale that is not 0. */
  function Opening(m: Machine): seq<Op> {
    if m.g.th == 0.0 then [BT, Tz(100.0)] else [BT]
  }

  lemma OpeningRuns(m: Machine, env: Env)
    ensures Events(Opening(m), env, m) == []
    ensures Run(Opening(m), env, m)
            == m.(at := Place(IDENTITY, 0.0), g := m.g.(th := if m.g.th == 0.0 then 1.0 else m.g.th))
  {
    assert [BT, Tz(100.0)][1..] == [Tz(100.0)] && [Tz(100.0)][1..] == [] && [BT][1..] == [];
    OneOp(BT, env, m);
    OneOp(Tz(100.0), env, Step(BT, env, m));
  }

  /** Operators that show nothing and leave the pen fresh stand before a rewritten stream as
      they stood before the stream. */
  lemma OpeningStripped(m: Machine, ops: seq<Op>, job: Job)
    requires job.removable != {} && Stripped(ops, job).Kept?
    ensures Stripped(Opening(m) + ops, job).Kept?
    ensures Stripped(Opening(m) + ops, job).ops == Opening(m) + Stripped(ops, job).ops
  {
    var r := RewriteAll(ops, FRESH_PEN, [], 0, job);
    assert ([BT] + ops)[1..] == ops;
    if m.g.th == 0.0 {
      var rest := [Tz(100.0)] + ops;
      assert rest[1..] == ops && ([BT, Tz(100.0)] + ops)[1..] == rest;
      assert RewriteAll(rest, FRESH_PEN, [], 0, job) == Prepend([Tz(100.0)], r);
      assert [BT] + ([Tz(100.0)] + r.ops) == [BT, Tz(100.0)] + r.ops;
    }
  }

  /** From every other start, with other spacing or a scale that is neither 1 nor 0, there is a
      stream that strip rewrites although the one glyph it keeps is then drawn elsewhere: the
      premise on the start is needed. */
  lemma DefaultSpacingIsNeeded(m: Machine)
    returns (ops: seq<Op>, job: Job, env: Env, drawn: Event, wanted: Event)
    requires m.stack == [] && !DefaultSpacing(m)
    ensures job.fonts == env.fonts && AdvancesOf(Events(ops, env, m), 0, job.adv, env) && Stripped(ops, job).Kept?
    ensures Events(Stripped(ops, job).ops, env, m) == [drawn]
    ensures Keep(Events(ops, env, m), 0, job.removable) == [wanted]
    ensures drawn.Drawn? && wanted.Drawn? && TextMatrix(drawn.at) != TextMatrix(wanted.at)
  {
    hide AdvancesOf, Events, Stripped, Keep, TwoGlyphs, Shift, Run;
    var th := if m.g.th == 0.0 then 1.0 else m.g.th;
    var m1 := m.(at := Place(IDENTITY, 0.0), g := m.g.(th := th));
    var first, width;
    first, width, drawn, wanted := OtherSpacingMoves(m1);
    env, job := OneWidth(width), FirstRemoved(width, m1);
    OpeningRuns(m, env);
    ops := Opening(m) + TwoGlyphs(first);
    RunConcat(Opening(m), TwoGlyphs(first), env, m);
    OpeningStripped(m, TwoGlyphs(first), job);
    RunConcat(Opening(m), Stripped(TwoGlyphs(first), job).ops, env, m);
    assert [] + Events(TwoGlyphs(first), env, m1) == Events(TwoGlyphs(first), env, m1);
    assert [] + Events(Stripped(TwoGlyphs(first), job).ops, env, m1)
           == Events(Stripped(TwoGlyphs(first), job).ops, env, m1);
  }

  lemma GlyphAdvance(first: Byte, width: real, g: Graphics, gap: real, a: real)
    requires g.font.Some? && g.size == 1.0 && gap == width * g.th && a == Advance([first], g, OneWidth(width))
    ensures a == gap + (g.tc + WordSpace([first], g.tw)) * g.th
  {
  }

  lemma TellingGlyph(tc: real, tw: real, th: real) returns (first: Byte, width: real)
    requires th != 0.0 && !(tc == 0.0 && tw == 0.0 && th == 1.0)
    ensures width * th != 0.0 && width * th != width + (tc + WordSpace([first], tw))
  {
    first := if tc == 0.0 && th == 1.0 then 32 else 66;
    width := if first == 66 && th == 1.0 + tc then 2.0 else 1.0;
    assert [first] == [32] <==> first == 32 by { assert [first][0] == first && [32][0] == 32; }
    if width == 1.0 {
      assert width * th == th;
    } else {
      assert width * th == th + th;
    }
  }

  lemma DifferentGaps(width: real, th: real, spacing: real, gap: real, a: real)
    requires th != 0.0 && width * th != width + spacing
    requires gap == width * th && a == gap + spacing * th
    ensures gap * th != a
  {
  }

  lemma DifferentShifts(s: real, t: real, m: Matrix)
    requires s != t && (m.a != 0.0 || m.b != 0.0)
    ensures Shift(s, m) != Shift(t, m)
  {
  }
}
