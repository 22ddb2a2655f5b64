/** What stripping makes of a stream (app/pdftools/strip.py:26-167), in bytes and numbers. */
module StripOutcomes {
  import opened Wrappers
  import opened Geometry
  import opened TextSemantics
  import opened Strip
  import opened StripProof

  // ------------------------------------------------------------ bytes per code

  /** A simple font has one byte a code, an Identity-encoded composite one two; of any other
      composite font, and of a name that stands for none, it cannot be told. */
  predicate BytesACode(fonts: map<string, Font>, name: string, w: nat) {
    name in fonts && ((fonts[name] == SimpleFont && w == 1) || (fonts[name] in {IdentityH, IdentityV} && w == 2))
  }

  predicate Unmeasurable(fonts: map<string, Font>, name: string) {
    name in fonts ==> fonts[name] == OtherComposite
  }

  lemma BytesReads(fonts: map<string, Font>, name: string)
    ensures Unmeasurable(fonts, name) ==> BytesPerGlyph(fonts, name) == None
    ensures forall w: nat :: BytesACode(fonts, name, w) ==> BytesPerGlyph(fonts, name) == Some(w)
    ensures forall w: nat :: BytesPerGlyph(fonts, name) == Some(w) ==> BytesACode(fonts, name, w)
  {
  }

  /** A glyph is drawn with as many bytes as the font in force has a code. */
  predicate DrawnRight(e: Event, env: Env) {
    e.Drawn? ==> e.g.font.Some? && BytesACode(env.fonts, e.g.font.value, |e.code|)
  }

  predicate AllDrawnRight(events: seq<Event>, env: Env) {
    forall i :: 0 <= i < |events| ==> DrawnRight(events[i], env)
  }

  lemma {:induction false} CodesRight(codes: seq<Glyph>, g: Graphics, env: Env, at: Place)
    requires forall i :: 0 <= i < |codes| ==> g.font.Some? && BytesACode(env.fonts, g.font.value, |codes[i]|)
    ensures AllDrawnRight(CodeEvents(codes, g, env, at), env)
    decreases |codes|
  {
    hide BytesACode, Advance;
    if codes != [] {
      CodesRight(codes[1..], g, env, Forward(Advance(codes[0], g, env), at));
    }
  }

  lemma StringRight(bytes: seq<Byte>, g: Graphics, env: Env, at: Place)
    ensures AllDrawnRight(CodeEvents(CodesOf(bytes, g, env), g, env, at), env)
  {
    var codes := CodesOf(bytes, g, env);
    if g.font.Some? {
      BytesReads(env.fonts, g.font.value);
      CodeLengths(bytes, g, env);
    }
    hide BytesACode, CodesOf, CodeEvents, AllDrawnRight;
    CodesRight(codes, g, env, at);
  }

  lemma CodeLengths(bytes: seq<Byte>, g: Graphics, env: Env)
    requires g.font.Some?
    ensures forall i, w :: 0 <= i < |CodesOf(bytes, g, env)| && BytesPerGlyph(env.fonts, g.font.value) == Some(w) ==>
              |CodesOf(bytes, g, env)[i]| == w
    ensures BytesPerGlyph(env.fonts, g.font.value) == None ==> CodesOf(bytes, g, env) == []
  {
    var width := BytesPerGlyph(env.fonts, g.font.value);
    hide BytesPerGlyph;
    if width.Some? {
      var codes := Decode(bytes, width.value);
      hide Decode;
      assert width.value == 1 ==> forall i :: 0 <= i < |codes| ==> codes[i] == bytes[i..i + 1];
      assert width.value == 2 ==> forall i :: 0 <= i < |codes| ==> codes[i] == bytes[2 * i..2 * i + 2];
    }
  }

  lemma RightTogether(a: seq<Event>, b: seq<Event>, env: Env)
    requires AllDrawnRight(a, env) && AllDrawnRight(b, env)
    ensures AllDrawnRight(a + b, env)
  {
    hide DrawnRight;
  }

  lemma {:induction false} ElementsRight(es: seq<Element>, g: Graphics, env: Env, at: Place)
    ensures AllDrawnRight(ElementEvents(es, g, env, at), env)
    decreases |es|
  {
    hide AllDrawnRight, CodesOf, CodeEvents, Kern;
    if es == [] {
      NothingDrawn(env);
    } else {
      match es[0] {
        case Num(n) => ElementsRight(es[1..], g, env, Forward(Kern(n, g), at));
        case Str(bytes) =>
          var codes := CodesOf(bytes, g, env);
          var at' := PenAfterCodes(codes, g, env, at);
          StringRight(bytes, g, env, at);
          ElementsRight(es[1..], g, env, at');
          RightTogether(CodeEvents(codes, g, env, at), ElementEvents(es[1..], g, env, at'), env);
      }
    }
  }

  lemma NothingDrawn(env: Env)
    ensures AllDrawnRight([], env)
  {
  }

  lemma OneMark(e: Event, env: Env)
    requires e.Marked?
    ensures AllDrawnRight([e], env)
  {
  }

  /** So it is in every stream: one byte a glyph under a simple font, two under Identity-H and
      Identity-V, and under any other composite font no glyph at all. */
  lemma {:induction false} StreamDrawsRight(ops: seq<Op>, env: Env, m: Machine)
    ensures AllDrawnRight(Events(ops, env, m), env)
    decreases |ops|
  {
    hide AllDrawnRight, Step, ElementEvents;
    if ops == [] {
      NothingDrawn(env);
    } else {
      var op := ops[0];
      if op.Other? {
        OneMark(Marked(op.id, m.g), env);
      } else if Shows(op) {
        var r := Ready(op, m);
        ElementsRight(ElementsOf(op), r.g, env, r.at);
      } else {
        NothingDrawn(env);
      }
      StreamDrawsRight(ops[1..], env, Step(op, env, m));
      RightTogether(StepEvents(op, env, m), Events(ops[1..], env, Step(op, env, m)), env);
    }
  }

  // ------------------------------------------------------- what is counted and refused

  lemma CountString(bytes: seq<Byte>, pen: Pen)
    requires Measures(pen)
    ensures CountCodes([Str(bytes)], pen) == |bytes| / pen.width.value
  {
    assert [Str(bytes)][1..] == [];
    var codes := Decode(bytes, pen.width.value);
    hide Decode;
    assert Codes(bytes, pen) == codes;
    assert CountCodes([Str(bytes)], pen) == |codes| + CountCodes([], pen);
  }

  /** A font is set and one string shown: each byte, or each two bytes, of it is a glyph. The
      stream is stripped exactly when as many glyphs were read, and not at all under a font
      whose codes cannot be told or with size 0. */
  lemma OneStringCounts(name: string, size: real, bytes: seq<Byte>, job: Job)
    requires job.removable != {}
    ensures var r := Stripped([Tf(name, size), Show(bytes)], job);
            && (Unmeasurable(job.fonts, name) || size == 0.0 ==> r == Refused)
            && (BytesACode(job.fonts, name, 1) && size != 0.0 ==>
                  (r.Kept? <==> |job.adv| == |bytes|) && (r.Kept? ==> r.counted == |bytes|)
                  && (!r.Kept? ==> r == Refused))
            && (BytesACode(job.fonts, name, 2) && size != 0.0 ==>
                  (r.Kept? <==> |job.adv| == |bytes| / 2) && (r.Kept? ==> r.counted == |bytes| / 2)
                  && (!r.Kept? ==> r == Refused))
  {
    var ops := [Tf(name, size), Show(bytes)];
    var pen := Pen(BytesPerGlyph(job.fonts, name), Some(size), 0.0, 0.0, 1.0);
    BytesReads(job.fonts, name);
    hide BytesACode, Unmeasurable, BytesPerGlyph;
    if Measures(pen) {
      CountString(bytes, pen);
    }
    hide CountCodes, Rewrite, Touches;
    assert ops[1..] == [Show(bytes)] && ops[1..][1..] == [];
    assert PenAt(ops[0], FRESH_PEN, [], job.fonts) == pen && PenAt(Show(bytes), pen, [], job.fonts) == pen;
    var one := One(Show(bytes), pen, 0, job);
    assert RewriteAll([Show(bytes)], pen, [], 0, job)
           == if one.Kept? then Prepend(one.ops, Kept([], one.counted)) else one;
    assert One(ops[0], pen, 0, job) == Kept([ops[0]], 0);
  }

  // ------------------------------------------------------------ what is written

  lemma DecodeThree(a: Glyph, b: Glyph, c: Glyph, w: nat)
    requires (w == 1 || w == 2) && |a| == |b| == |c| == w
    ensures Decode(a + b + c, w) == [a, b, c]
  {
    DecodeAppend([], a, w);
    assert [] + a == a;
    DecodeAppend(a, b, w);
    DecodeAppend(a + b, c, w);
    hide Decode;
    assert Decode([], w) == [] by { NoCodes(w); }
    assert [] + [a] + [b] + [c] == [a, b, c];
  }

  lemma NoCodes(w: nat)
    requires w == 1 || w == 2
    ensures Decode([], w) == []
  {
  }

  /** The space of a removed glyph: its advance by the scale, the character spacing, and the word
      spacing when it is the single byte 32. */
  function SpaceOf(code: Glyph, adv: real, tc: real, tw: real, th: real): real
    requires th != 0.0
  {
    adv / th + tc + (if |code| == 1 && code[0] == 32 then tw else 0.0)
  }

  /** The TJ array for three codes without the middle one. */
  function WithoutMiddle(a: Glyph, c: Glyph, space: real, size: real, round: real -> real): seq<Element>
    requires size != 0.0
  {
    if space == 0.0 then [Str(a), Str(c)] else [Str(a), Num(round(-1000.0 * space / size)), Str(c)]
  }

  lemma SpaceIsHole(code: Glyph, adv: real, pen: Pen)
    requires Measures(pen) && pen.th != 0.0 && |code| == pen.width.value
    ensures Hole(code, adv, pen) == SpaceOf(code, adv, pen.tc, pen.tw, pen.th)
  {
  }

  lemma CodesCut(a: Glyph, b: Glyph, c: Glyph, gap: real, pen: Pen, job: Job)
    requires Measures(pen) && pen.th != 0.0 && job.removable == {1} && |job.adv| == 3 && a != [] && c != []
    requires gap == Hole(b, job.adv[1], pen)
    ensures CutCodes([a, b, c], 0, [], 0.0, pen, job)
         == [Str(a)] + (if gap != 0.0 then [GapNumber(gap, pen, job)] else []) + [Str(c)]
  {
    hide CutCodes, Hole, GapNumber;
    var codes := [a, b, c];
    assert codes[0..] == codes && codes[3..] == [];
    assert [] + a == a && [] + c == c;
    var number := if gap != 0.0 then [GapNumber(gap, pen, job)] else [];
    CutKept(codes, 0, 0, [], 0.0, pen, job);
    CutRemoved(codes, 1, 1, a, 0.0, pen, job);
    CutKept(codes, 2, 2, [], gap, pen, job);
    CutDone(3, c, 0.0, pen, job);
    assert 0.0 + Hole(b, job.adv[1], pen) == gap;
    assert CutCodes(codes[2..], 2, [], gap, pen, job) == number + [Str(c)];
    assert CutCodes(codes[1..], 1, a, 0.0, pen, job) == [Str(a)] + (number + [Str(c)]);
    assert CutCodes(codes, 0, [], 0.0, pen, job) == [] + ([Str(a)] + (number + [Str(c)]));
  }

  lemma MiddleIs(a: Glyph, c: Glyph, gap: real, pen: Pen, job: Job)
    requires Measures(pen)
    ensures [Str(a)] + (if gap != 0.0 then [GapNumber(gap, pen, job)] else []) + [Str(c)]
         == WithoutMiddle(a, c, gap, pen.size.value, job.round)
  {
  }

  lemma ThreeCut(a: Glyph, b: Glyph, c: Glyph, pen: Pen, job: Job)
    requires Measures(pen) && pen.th != 0.0 && |a| == |b| == |c| == pen.width.value
    requires job.removable == {1} && |job.adv| == 3
    ensures CutElements([Str(a + b + c)], 0, pen, job)
         == WithoutMiddle(a, c, SpaceOf(b, job.adv[1], pen.tc, pen.tw, pen.th), pen.size.value, job.round)
    ensures CountCodes([Str(a + b + c)], pen) == 3
  {
    DecodeThree(a, b, c, pen.width.value);
    SpaceIsHole(b, job.adv[1], pen);
    hide Decode, Hole, SpaceOf, CutCodes, WithoutMiddle, GapNumber;
    var gap := Hole(b, job.adv[1], pen);
    CodesCut(a, b, c, gap, pen, job);
    MiddleIs(a, c, gap, pen, job);
    assert [Str(a + b + c)][1..] == [];
    var cut := CutCodes([a, b, c], 0, [], 0.0, pen, job);
    assert cut + [] == cut;
  }

  /** An operator that shows three codes, and what comes of it with spacing tc and tw: ' and "
      have moved to the next line and " has set the spacing first. */
  predicate ShowsThree(op: Op, bytes: seq<Byte>, tc: real, tw: real, before: seq<Op>) {
    || (op == Show(bytes) && before == [])
    || (op == ShowArray([Str(bytes)]) && before == [])
    || (op == NextLineShow(bytes) && before == [NextLine])
    || (op == SpacedShow(tw, tc, bytes) && before == [Tw(tw), Tc(tc), NextLine])
  }

  /** With the font, spacing and scale set in the stream, and the middle one of three glyphs to
      remove: what is written for each of the four showing operators. */
  lemma MiddleRemoved(name: string, size: real, tc: real, tw: real, percent: real, a: Glyph, b: Glyph, c: Glyph,
                      op: Op, before: seq<Op>, job: Job)
    requires BytesACode(job.fonts, name, |a|) && |a| == |b| == |c| && size != 0.0 && percent != 0.0
    requires ShowsThree(op, a + b + c, tc, tw, before) && job.removable == {1} && |job.adv| == 3
    ensures var fixed := [Tf(name, size), Tc(tc), Tw(tw), Tz(percent)];
            var space := SpaceOf(b, job.adv[1], tc, tw, percent / 100.0);
            Stripped(fixed + [op], job)
            == Kept(fixed + before + [ShowArray(WithoutMiddle(a, c, space, size, job.round))], 3)
  {
    var th := percent / 100.0;
    var pen := Pen(Some(|a|), Some(size), tc, tw, th);
    BytesReads(job.fonts, name);
    ThreeCut(a, b, c, pen, job);
    hide BytesACode, CutElements, CountCodes, SpaceOf, WithoutMiddle;
    var shown := ShowArray(CutElements(ElementsOf(op), 0, pen, job));
    TouchesAt(0, 1, 3, job.removable);
    assert Rewrite(op, 0, pen, job) == before + [shown];
    assert One(op, pen, 0, job) == Kept(before + [shown], 3);
    hide Touches, Rewrite;
    var fixed := [Tf(name, size), Tc(tc), Tw(tw), Tz(percent)];
    FourSet(name, size, tc, tw, percent, job.fonts);
    PlainBefore(fixed, op, FRESH_PEN, before + [shown], 3, job);
    assert fixed + (before + [shown]) == fixed + before + [shown];
  }

  predicate Plain(op: Op) {
    !Shows(op) && !op.Save? && !op.Restore?
  }

  function Tracked(ops: seq<Op>, pen: Pen, fonts: map<string, Font>): Pen {
    if ops == [] then pen else Tracked(ops[1..], Track(ops[0], pen, fonts), fonts)
  }

  lemma RewriteFirst(op: Op, rest: seq<Op>, pen: Pen, job: Job)
    requires Plain(op)
    ensures RewriteAll([op] + rest, pen, [], 0, job)
         == Prepend([op], RewriteAll(rest, Track(op, pen, job.fonts), [], 0, job))
  {
    hide Track;
    assert ([op] + rest)[0] == op && ([op] + rest)[1..] == rest;
  }

  lemma RewriteLast(op: Op, pen: Pen, written: seq<Op>, count: nat, job: Job)
    requires !op.Save? && !op.Restore? && Track(op, pen, job.fonts) == pen
    requires One(op, pen, 0, job) == Kept(written, count)
    ensures RewriteAll([op], pen, [], 0, job) == Kept(written, count)
  {
    hide Track, One;
    assert [op][1..] == [] && written + [] == written;
  }

  /** Operators that show nothing and save nothing are passed on before one that shows. */
  lemma {:induction false} PlainBefore(plain: seq<Op>, op: Op, pen: Pen, written: seq<Op>, count: nat, job: Job)
    requires forall i :: 0 <= i < |plain| ==> Plain(plain[i])
    requires !op.Save? && !op.Restore?
    requires var at := Tracked(plain, pen, job.fonts);
             Track(op, at, job.fonts) == at && One(op, at, 0, job) == Kept(written, count)
    ensures RewriteAll(plain + [op], pen, [], 0, job) == Kept(plain + written, count)
    decreases |plain|
  {
    hide Track, One, RewriteAll, Plain;
    if plain == [] {
      RewriteLast(op, pen, written, count, job);
      assert plain + [op] == [op] && plain + written == written;
    } else {
      var next := Track(plain[0], pen, job.fonts);
      RewriteFirst(plain[0], plain[1..] + [op], pen, job);
      PlainBefore(plain[1..], op, next, written, count, job);
      assert [plain[0]] + (plain[1..] + [op]) == plain + [op];
      assert [plain[0]] + (plain[1..] + written) == plain + written;
    }
  }

  lemma TrackedFirst(op: Op, rest: seq<Op>, pen: Pen, fonts: map<string, Font>)
    ensures Tracked([op] + rest, pen, fonts) == Tracked(rest, Track(op, pen, fonts), fonts)
  {
    hide Track;
    assert ([op] + rest)[0] == op && ([op] + rest)[1..] == rest;
  }

  lemma FourSet(name: string, size: real, tc: real, tw: real, percent: real, fonts: map<string, Font>)
    ensures Tracked([Tf(name, size), Tc(tc), Tw(tw), Tz(percent)], FRESH_PEN, fonts)
         == Pen(BytesPerGlyph(fonts, name), Some(size), tc, tw, percent / 100.0)
  {
    hide BytesPerGlyph, Tracked;
    var p1 := FRESH_PEN.(width := BytesPerGlyph(fonts, name), size := Some(size));
    var p3 := p1.(tc := tc, tw := tw);
    TrackedFirst(Tf(name, size), [Tc(tc), Tw(tw), Tz(percent)], FRESH_PEN, fonts);
    TrackedFirst(Tc(tc), [Tw(tw), Tz(percent)], p1, fonts);
    TrackedFirst(Tw(tw), [Tz(percent)], p1.(tc := tc), fonts);
    TrackedFirst(Tz(percent), [], p3, fonts);
    TrackedNone(p3.(th := percent / 100.0), fonts);
    assert [Tz(percent)] + [] == [Tz(percent)];
    assert [Tw(tw)] + [Tz(percent)] == [Tw(tw), Tz(percent)];
    assert [Tc(tc)] + [Tw(tw), Tz(percent)] == [Tc(tc), Tw(tw), Tz(percent)];
    assert [Tf(name, size)] + [Tc(tc), Tw(tw), Tz(percent)] == [Tf(name, size), Tc(tc), Tw(tw), Tz(percent)];
  }

  lemma TrackedNone(pen: Pen, fonts: map<string, Font>)
    ensures Tracked([], pen, fonts) == pen
  {
  }

  // ------------------------------------------------------------- where the pen is

  /** A move to another line puts what is written at a point where the line before had the point
      x and y on; the pen starts anew. */
  lemma LineMoves(m: Machine, x: real, y: real, p: Point)
    ensures var next := OnNextLine(m, x, y);
            && next.at.x == 0.0 && next.g == m.g && next.stack == m.stack
            && Apply(next.at.line, p) == Apply(m.at.line, Point(p.x + x, p.y + y))
  {
    MulActsInOrder(Matrix(1.0, 0.0, 0.0, 1.0, x, y), m.at.line, p);
    Moved(x, y, p);
    hide Mul, Affine;
  }

  lemma Moved(x: real, y: real, p: Point)
    ensures Apply(Matrix(1.0, 0.0, 0.0, 1.0, x, y), p) == Point(p.x + x, p.y + y)
  {
  }

  /** The text state operators set the graphics state (section 9.3.1), each its own part of it, and
      leave the pen where it is. */
  lemma StateReads(op: Op, env: Env, m: Machine)
    requires op.Tf? || op.Tc? || op.Tw? || op.Tz? || op.TL? || op.Ts? || op.Tr?
    ensures Step(op, env, m)
         == Machine(Graphics(if op.Tf? then Some(op.name) else m.g.font, if op.Tf? then op.size else m.g.size,
                             if op.Tc? then op.tc else m.g.tc, if op.Tw? then op.tw else m.g.tw,
                             if op.Tz? then op.percent / 100.0 else m.g.th,
                             if op.TL? then op.leading else m.g.leading, if op.Ts? then op.rise else m.g.rise,
                             if op.Tr? then op.mode else m.g.mode, m.g.history),
                    m.stack, m.at)
  {
    hide OnNextLine, PenAfterElements;
  }

  /** Td moves to another line, T* by the leading; TD moves likewise and sets the leading besides;
      Tm and BT put the line where they say (section 9.4.2). */
  lemma MovesRead(env: Env, m: Machine, x: real, y: real, t: Matrix)
    ensures Step(Td(x, y), env, m) == OnNextLine(m, x, y)
    ensures Step(TD(x, y), env, m) == Step(Td(x, y), env, Step(TL(-y), env, m))
    ensures Step(NextLine, env, m) == Step(Td(0.0, -m.g.leading), env, m)
    ensures Step(Tm(t), env, m) == Machine(m.g, m.stack, Place(t, 0.0))
    ensures Step(BT, env, m) == Step(Tm(Matrix(1.0, 0.0, 0.0, 1.0, 0.0, 0.0)), env, m)
    ensures Step(ET, env, m) == m
  {
    hide OnNextLine, PenAfterElements;
  }
}
