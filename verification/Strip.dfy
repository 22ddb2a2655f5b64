/** Deleting placeholder glyphs from a content stream (app/pdftools/strip.py). The
    functions say what the rewrite is; the class and the methods below them run it the way
    the program does, with a pen state updated in place and loops over bytes and operators. */
module Strip {
  import opened Wrappers
  import opened TextSemantics

  /** What one call works with: `adv[i]` is the advance read for the i-th glyph the stream
      shows, `round` how a TJ number is written down (three decimals in the program,
      the identity for exact arithmetic). */
  datatype Job = Job(fonts: map<string, Font>, removable: set<nat>, adv: seq<real>, round: real -> real) {
    /** The indexes name glyphs of the stream. */
    ghost predicate Valid() {
      forall i :: i in removable ==> i < |adv|
    }
  }

  /** The text state the rewriter tracks. */
  datatype Pen = Pen(width: Option<nat>, size: Option<real>, tc: real, tw: real, th: real)

  const FRESH_PEN := Pen(None, None, 0.0, 0.0, 1.0)

  datatype Outcome =
    | Kept(ops: seq<Op>, counted: nat)
    | Refused            // the stream cannot be matched and stays as it is
    | DividedByZero      // Tz 0 with a glyph to remove

  function Track(op: Op, pen: Pen, fonts: map<string, Font>): Pen {
    match op
    case Tf(name, size) => pen.(width := BytesPerGlyph(fonts, name), size := Some(size))
    case Tc(x) => pen.(tc := x)
    case Tw(x) => pen.(tw := x)
    case Tz(p) => pen.(th := p / 100.0)
    case SpacedShow(aw, ac, _) => pen.(tw := aw, tc := ac)
    case _ => pen
  }

  /** The pen can measure: a font with known code width, and a size that is not zero. */
  predicate Measures(pen: Pen) {
    && pen.width.Some? && (pen.width.value == 1 || pen.width.value == 2)
    && pen.size.Some? && pen.size.value != 0.0
  }

  function GapNumber(gap: real, pen: Pen, job: Job): Element
    requires Measures(pen)
  {
    Num(job.round(-1000.0 * gap / pen.size.value))
  }

  function Hole(code: Glyph, adv: real, pen: Pen): real
    requires Measures(pen) && pen.th != 0.0
  {
    adv / pen.th + pen.tc + (if pen.width.value == 1 then WordSpace(code, pen.tw) else 0.0)
  }

  /** What is still to be written once no code is left. */
  function Flush(seg: seq<Byte>, gap: real, pen: Pen, job: Job): seq<Element>
    requires Measures(pen)
  {
    (if seg != [] then [Str(seg)] else []) + (if gap != 0.0 then [GapNumber(gap, pen, job)] else [])
  }

  /** The TJ elements for `codes`, the first of which is glyph `index`, when the codes `seg`
      and the space `gap` have been gathered but not yet written. */
  function CutCodes(codes: seq<Glyph>, index: nat, seg: seq<Byte>, gap: real, pen: Pen, job: Job): seq<Element>
    requires Measures(pen)
  {
    if codes == [] then Flush(seg, gap, pen, job)
    else if index in job.removable && index < |job.adv| && pen.th != 0.0 then
      (if seg != [] then [Str(seg)] else [])
      + CutCodes(codes[1..], index + 1, [], gap + Hole(codes[0], job.adv[index], pen), pen, job)
    else
      (if gap != 0.0 then [GapNumber(gap, pen, job)] else [])
      + CutCodes(codes[1..], index + 1, seg + codes[0], 0.0, pen, job)
  }

  function Codes(bytes: seq<Byte>, pen: Pen): seq<Glyph>
    requires Measures(pen)
  {
    Decode(bytes, pen.width.value)
  }

  function CutElements(es: seq<Element>, index: nat, pen: Pen, job: Job): seq<Element>
    requires Measures(pen)
  {
    if es == [] then []
    else match es[0]
      case Num(_) => [es[0]] + CutElements(es[1..], index, pen, job)
      case Str(bytes) =>
        CutCodes(Codes(bytes, pen), index, [], 0.0, pen, job)
        + CutElements(es[1..], index + |Codes(bytes, pen)|, pen, job)
  }

  function CountCodes(es: seq<Element>, pen: Pen): nat
    requires Measures(pen)
  {
    if es == [] then 0
    else (if es[0].Str? then |Codes(es[0].bytes, pen)| else 0) + CountCodes(es[1..], pen)
  }

  ghost predicate Touches(index: nat, count: nat, removable: set<nat>) {
    exists i :: index <= i < index + count && i in removable
  }

  /** What ' and " do before they show their string. */
  function LineOps(op: Op): seq<Op> {
    match op
    case NextLineShow(_) => [NextLine]
    case SpacedShow(aw, ac, _) => [Tw(aw), Tc(ac), NextLine]
    case _ => []
  }

  ghost function Rewrite(op: Op, index: nat, pen: Pen, job: Job): seq<Op>
    requires Shows(op) && Measures(pen)
  {
    if Touches(index, CountCodes(ElementsOf(op), pen), job.removable)
    then LineOps(op) + [ShowArray(CutElements(ElementsOf(op), index, pen, job))]
    else [op]
  }

  /** The pen and the saved pens once q or Q and then `op` have been tracked. */
  function Popped(op: Op, pen: Pen, saved: seq<Pen>): (r: (Pen, seq<Pen>)) {
    match op
    case Save => (pen, saved + [pen])
    case Restore => if saved == [] then (pen, saved) else (saved[|saved| - 1], saved[..|saved| - 1])
    case _ => (pen, saved)
  }

  function PenAt(op: Op, pen: Pen, saved: seq<Pen>, fonts: map<string, Font>): Pen {
    Track(op, Popped(op, pen, saved).0, fonts)
  }

  ghost function Prepend(ops: seq<Op>, rest: Outcome): Outcome {
    if rest.Kept? then rest.(ops := ops + rest.ops) else rest
  }

  /** The operators that replace `op`, the pen being up to date and glyph `index` next. */
  ghost function One(op: Op, pen: Pen, index: nat, job: Job): Outcome {
    if !Shows(op) then Kept([op], index)
    else if !Measures(pen) then Refused
    else
      var count := CountCodes(ElementsOf(op), pen);
      if Touches(index, count, job.removable) && pen.th == 0.0 then DividedByZero
      else Kept(Rewrite(op, index, pen, job), index + count)
  }

  /** The rewritten operators of a whole stream, glyph `index` being the next one shown. */
  ghost function RewriteAll(ops: seq<Op>, pen: Pen, saved: seq<Pen>, index: nat, job: Job): Outcome {
    if ops == [] then Kept([], index)
    else
      var pen' := PenAt(ops[0], pen, saved, job.fonts);
      var one := One(ops[0], pen', index, job);
      if !one.Kept? then one
      else Prepend(one.ops, RewriteAll(ops[1..], pen', Popped(ops[0], pen, saved).1, one.counted, job))
  }

  /** The whole of `strip`: nothing to remove is a success that changes nothing, and a glyph
      count that does not match what was read is a refusal. */
  ghost function Stripped(ops: seq<Op>, job: Job): Outcome {
    if job.removable == {} then Kept(ops, 0)
    else
      var r := RewriteAll(ops, FRESH_PEN, [], 0, job);
      if r.Kept? && r.counted != |job.adv| then Refused else r
  }

  // ------------------------------------------------------ the program's own form

  class PenState {
    var width: Option<nat>
    var size: Option<real>
    var tc: real
    var tw: real
    var th: real

    function View(): Pen
      reads this
    {
      Pen(width, size, tc, tw, th)
    }

    constructor ()
      ensures View() == FRESH_PEN
    {
      width, size, tc, tw, th := None, None, 0.0, 0.0, 1.0;
    }

    /** Take over the values of a saved pen. */
    method Load(pen: Pen)
      modifies this
      ensures View() == pen
    {
      width, size, tc, tw, th := pen.width, pen.size, pen.tc, pen.tw, pen.th;
    }

    method Apply(op: Op, fonts: map<string, Font>)
      modifies this
      ensures View() == Track(op, old(View()), fonts)
    {
      match op {
        case Tf(name, s) => width, size := BytesPerGlyph(fonts, name), Some(s);
        case Tc(x) => tc := x;
        case Tw(x) => tw := x;
        case Tz(p) => th := p / 100.0;
        case SpacedShow(aw, ac, _) => tw, tc := aw, ac;
        case _ =>
      }
    }

  }

  lemma TouchesNone(start: nat, removable: set<nat>)
    ensures !Touches(start, 0, removable)
  {
  }

  lemma TouchesAt(start: nat, j: nat, count: nat, removable: set<nat>)
    requires j < count && start + j in removable
    ensures Touches(start, count, removable)
  {
  }

  lemma TouchesMore(start: nat, count: nat, removable: set<nat>)
    ensures Touches(start, count + 1, removable) == (Touches(start, count, removable) || start + count in removable)
  {
  }

  lemma TouchesSum(start: nat, a: nat, b: nat, removable: set<nat>)
    ensures Touches(start, a + b, removable) == (Touches(start, a, removable) || Touches(start + a, b, removable))
  {
  }

  /** One glyph of a string: what is written now, and what is left to cut. */
  lemma CutRemoved(codes: seq<Glyph>, j: nat, index: nat, seg: seq<Byte>, gap: real, pen: Pen, job: Job)
    requires Measures(pen) && j < |codes| && index in job.removable && index < |job.adv| && pen.th != 0.0
    ensures CutCodes(codes[j..], index, seg, gap, pen, job)
         == (if seg != [] then [Str(seg)] else [])
            + CutCodes(codes[j + 1..], index + 1, [], gap + Hole(codes[j], job.adv[index], pen), pen, job)
  {
  }

  lemma CutKept(codes: seq<Glyph>, j: nat, index: nat, seg: seq<Byte>, gap: real, pen: Pen, job: Job)
    requires Measures(pen) && j < |codes| && index !in job.removable
    ensures CutCodes(codes[j..], index, seg, gap, pen, job)
         == (if gap != 0.0 then [GapNumber(gap, pen, job)] else [])
            + CutCodes(codes[j + 1..], index + 1, seg + codes[j], 0.0, pen, job)
  {
  }

  lemma CutDone(index: nat, seg: seq<Byte>, gap: real, pen: Pen, job: Job)
    requires Measures(pen)
    ensures CutCodes([], index, seg, gap, pen, job) == Flush(seg, gap, pen, job)
  {
  }

  lemma Append<T>(a: seq<T>, b: seq<T>, c: seq<T>)
    ensures (a + b) + c == a + (b + c)
  {
  }

  /** Cuts one string glyph by glyph, gathering kept bytes in `seg` and removed width in `gap`. */
  method Cut(raw: seq<Byte>, st: PenState, start: nat, job: Job)
    returns (out: seq<Element>, index: nat, changed: bool, crashed: bool)
    requires Measures(st.View()) && job.Valid()
    ensures crashed == (st.th == 0.0 && Touches(start, |Codes(raw, st.View())|, job.removable))
    ensures !crashed ==>
              && out == CutCodes(Codes(raw, st.View()), start, [], 0.0, st.View(), job)
              && index == start + |Codes(raw, st.View())|
              && changed == Touches(start, |Codes(raw, st.View())|, job.removable)
  {
    hide CutCodes, Touches, Hole, GapNumber, Flush;
    ghost var pen := st.View();
    ghost var codes := Codes(raw, pen);
    ghost var whole := CutCodes(codes, start, [], 0.0, pen, job);
    var w := st.width.value;
    var seg: seq<Byte>, gap := [], 0.0;
    out, index, changed, crashed := [], start, false, false;
    TouchesNone(start, job.removable);
    assert codes[0..] == codes && out + CutCodes(codes, index, seg, gap, pen, job) == whole;
    for j := 0 to |raw| / w
      invariant index == start + j
      invariant changed == Touches(start, j, job.removable)
      invariant changed ==> st.th != 0.0
      invariant out + CutCodes(codes[j..], index, seg, gap, pen, job) == whole
    {
      var glyph := raw[j * w..(j + 1) * w];
      assert glyph == codes[j];
      TouchesMore(start, j, job.removable);
      if index in job.removable {
        changed := true;
        if st.th == 0.0 {
          TouchesAt(start, j, |codes|, job.removable);
          crashed := true;
          return;
        }
        CutRemoved(codes, j, index, seg, gap, pen, job);
        ghost var gap' := gap + Hole(glyph, job.adv[index], pen);
        Append(out, if seg != [] then [Str(seg)] else [], CutCodes(codes[j + 1..], index + 1, [], gap', pen, job));
        if seg != [] {
          out, seg := out + [Str(seg)], [];
        }
        gap := gap + Hole(glyph, job.adv[index], st.View());
      } else {
        CutKept(codes, j, index, seg, gap, pen, job);
        Append(out, if gap != 0.0 then [GapNumber(gap, pen, job)] else [],
               CutCodes(codes[j + 1..], index + 1, seg + glyph, 0.0, pen, job));
        if gap != 0.0 {
          out, gap := out + [GapNumber(gap, st.View(), job)], 0.0;
        }
        seg := seg + glyph;
      }
      index := index + 1;
    }
    assert codes[|codes|..] == [];
    CutDone(index, seg, gap, pen, job);
    out := out + Flush(seg, gap, st.View(), job);
  }

  lemma ElementsStep(es: seq<Element>, k: nat, index: nat, pen: Pen, job: Job)
    requires Measures(pen) && k < |es|
    ensures es[k].Num? ==>
              && CutElements(es[k..], index, pen, job) == [es[k]] + CutElements(es[k + 1..], index, pen, job)
              && CountCodes(es[k..], pen) == CountCodes(es[k + 1..], pen)
    ensures es[k].Str? ==>
              && CutElements(es[k..], index, pen, job)
                 == CutCodes(Codes(es[k].bytes, pen), index, [], 0.0, pen, job)
                    + CutElements(es[k + 1..], index + |Codes(es[k].bytes, pen)|, pen, job)
              && CountCodes(es[k..], pen) == |Codes(es[k].bytes, pen)| + CountCodes(es[k + 1..], pen)
  {
    assert es[k..][0] == es[k] && es[k..][1..] == es[k + 1..];
  }

  lemma ElementsDone(index: nat, pen: Pen, job: Job)
    requires Measures(pen)
    ensures CutElements([], index, pen, job) == [] && CountCodes([], pen) == 0
  {
  }

  /** The operators that replace one showing operator. */
  method RewriteOne(op: Op, st: PenState, start: nat, job: Job) returns (ops: seq<Op>, index: nat, crashed: bool)
    requires Shows(op) && Measures(st.View()) && job.Valid()
    ensures crashed == (st.th == 0.0 && Touches(start, CountCodes(ElementsOf(op), st.View()), job.removable))
    ensures !crashed ==>
            ops == Rewrite(op, start, st.View(), job) && index == start + CountCodes(ElementsOf(op), st.View())
  {
    hide CutCodes, CutElements, CountCodes, Touches, Codes;
    ghost var pen := st.View();
    var elements := if op.ShowArray? then op.elements else [Str(op.bytes)];
    var out: seq<Element>, changed := [], false;
    index, crashed, ops := start, false, [];
    TouchesNone(start, job.removable);
    assert elements[0..] == elements
           && out + CutElements(elements, start, pen, job) == CutElements(elements, start, pen, job);
    for k := 0 to |elements|
      invariant index >= start
      invariant index + CountCodes(elements[k..], pen) == start + CountCodes(elements, pen)
      invariant changed == Touches(start, index - start, job.removable)
      invariant changed ==> st.th != 0.0
      invariant out + CutElements(elements[k..], index, pen, job) == CutElements(elements, start, pen, job)
    {
      ElementsStep(elements, k, index, pen, job);
      if elements[k].Num? {
        Append(out, [elements[k]], CutElements(elements[k + 1..], index, pen, job));
        out := out + [elements[k]];
        continue;
      }
      ghost var n := |Codes(elements[k].bytes, pen)|;
      var cut, next, removed, dead := Cut(elements[k].bytes, st, index, job);
      TouchesSum(start, index - start, n, job.removable);
      TouchesSum(start, index - start + n, CountCodes(elements[k + 1..], pen), job.removable);
      if dead {
        crashed := true;
        return;
      }
      Append(out, cut, CutElements(elements[k + 1..], next, pen, job));
      out, index, changed := out + cut, next, changed || removed;
    }
    assert elements[|elements|..] == [];
    ElementsDone(index, pen, job);
    if !changed {
      ops := [op];
      return;
    }
    var line: seq<Op> := [];
    if op.SpacedShow? {
      line := [Tw(op.tw), Tc(op.tc)];
    }
    if op.NextLineShow? || op.SpacedShow? {
      line := line + [NextLine];
    }
    assert line == LineOps(op) && out + [] == out;
    ops := line + [ShowArray(out)];
  }

  /** Rewrites a stream operator by operator, tracking the pen and the saved pens. */
  method RewriteStream(ops: seq<Op>, job: Job) returns (r: Outcome)
    requires job.Valid()
    ensures r == RewriteAll(ops, FRESH_PEN, [], 0, job)
  {
    hide Rewrite, Touches, CountCodes, RewriteAll, Track, ElementsOf;
    var st := new PenState();
    var saved: seq<Pen> := [];
    var counted, kept := 0, [];
    ghost var whole := RewriteAll(ops, FRESH_PEN, [], 0, job);
    assert ops[0..] == ops && whole == Prepend([], whole);
    for k := 0 to |ops|
      invariant fresh(st)
      invariant whole == Prepend(kept, RewriteAll(ops[k..], st.View(), saved, counted, job))
    {
      var op := ops[k];
      RewriteAllStep(ops, k, st.View(), saved, counted, job);
      if op.Save? {
        saved := saved + [st.View()];
      } else if op.Restore? && saved != [] {
        st.Load(saved[|saved| - 1]);
        saved := saved[..|saved| - 1];
      }
      st.Apply(op, job.fonts);
      if !Shows(op) {
        PrependTwice(kept, [op], RewriteAll(ops[k + 1..], st.View(), saved, counted, job));
        kept := kept + [op];
        continue;
      }
      if !Measures(st.View()) {
        return Refused;
      }
      var replacement, next, crashed := RewriteOne(op, st, counted, job);
      if crashed {
        return DividedByZero;
      }
      PrependTwice(kept, replacement, RewriteAll(ops[k + 1..], st.View(), saved, next, job));
      kept, counted := kept + replacement, next;
    }
    assert ops[|ops|..] == [];
    RewriteAllEnd(st.View(), saved, counted, kept, job);
    return Kept(kept, counted);
  }

  lemma RewriteAllEnd(pen: Pen, saved: seq<Pen>, index: nat, kept: seq<Op>, job: Job)
    ensures Prepend(kept, RewriteAll([], pen, saved, index, job)) == Kept(kept, index)
  {
    assert kept + [] == kept;
  }

  lemma RewriteAllStep(ops: seq<Op>, k: nat, pen: Pen, saved: seq<Pen>, index: nat, job: Job)
    requires k < |ops|
    ensures var pen', saved' := PenAt(ops[k], pen, saved, job.fonts), Popped(ops[k], pen, saved).1;
            var one := One(ops[k], pen', index, job);
            RewriteAll(ops[k..], pen, saved, index, job)
            == if !one.Kept? then one else Prepend(one.ops, RewriteAll(ops[k + 1..], pen', saved', one.counted, job))
  {
    assert ops[k..][0] == ops[k] && ops[k..][1..] == ops[k + 1..];
  }

  /** A stream whose operators are replaced only when the whole of it could be rewritten. */
  class Content {
    var operations: seq<Op>

    constructor (ops: seq<Op>)
      ensures operations == ops
    {
      operations := ops;
    }

    method Strip(job: Job) returns (r: Outcome)
      requires job.Valid()
      modifies this
      ensures r == Stripped(old(operations), job)
      ensures operations == if r.Kept? then r.ops else old(operations)
    {
      if job.removable == {} {
        return Kept(operations, 0);
      }
      r := RewriteStream(operations, job);
      if r.Kept? && r.counted != |job.adv| {
        return Refused;
      }
      if r.Kept? {
        operations := r.ops;
      }
    }
  }

  lemma PrependTwice(a: seq<Op>, b: seq<Op>, r: Outcome)
    ensures Prepend(a, Prepend(b, r)) == Prepend(a + b, r)
  {
  }
}
