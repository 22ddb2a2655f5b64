/** What a text content stream means: the operators of sections 8.4.4, 9.3 and 9.4 of
    ISO 32000-1, run over a text matrix and a stack of graphics states. Writing is
    horizontal. Operators that neither move the pen nor touch the text state are
    `Other`; the graphics state keeps their history, so no later effect of theirs is
    assumed away. */
module TextSemantics {
  import opened Wrappers
  import opened Geometry

  newtype Byte = x: int | 0 <= x < 256

  /** One character code as it stands in a shown string. */
  type Glyph = seq<Byte>

  /** The fonts told apart by app/pdftools/strip.py:26-34. */
  datatype Font = SimpleFont | IdentityH | IdentityV | OtherComposite

  /** `width` is the horizontal displacement w0 of a code, in text space units. */
  datatype Env = Env(fonts: map<string, Font>, width: (string, Glyph) -> real)

  datatype Element = Str(bytes: seq<Byte>) | Num(n: real)

  datatype Op =
    | Save | Restore
    | Tf(name: string, size: real) | Tc(tc: real) | Tw(tw: real) | Tz(percent: real)
    | TL(leading: real) | Ts(rise: real) | Tr(mode: int)
    | BT | ET | Td(x: real, y: real) | TD(x: real, y: real) | Tm(m: Matrix) | NextLine
    | Show(bytes: seq<Byte>) | ShowArray(elements: seq<Element>)
    | NextLineShow(bytes: seq<Byte>) | SpacedShow(tw: real, tc: real, bytes: seq<Byte>)
    | Other(id: nat)

  /** The part of the graphics state `q` saves. */
  datatype Graphics = Graphics(font: Option<string>, size: real, tc: real, tw: real, th: real,
                               leading: real, rise: real, mode: int, history: seq<nat>)

  /** Where the pen is: the text line matrix, and how far along the line it has moved. */
  datatype Place = Place(line: Matrix, x: real)

  datatype Machine = Machine(g: Graphics, stack: seq<Graphics>, at: Place)

  datatype Event =
    | Drawn(code: Glyph, g: Graphics, at: Place)
    | Marked(id: nat, g: Graphics)

  predicate Shows(op: Op) {
    op.Show? || op.ShowArray? || op.NextLineShow? || op.SpacedShow?
  }

  /** Bytes per character code, when they can be told. */
  function BytesPerGlyph(fonts: map<string, Font>, name: string): (w: Option<nat>)
    ensures w.Some? ==> w.value == 1 || w.value == 2
  {
    if name !in fonts then None
    else match fonts[name]
      case SimpleFont => Some(1)
      case IdentityH => Some(2)
      case IdentityV => Some(2)
      case OtherComposite => None
  }

  /** The codes in a string; a last incomplete code shows nothing. */
  function Decode(bytes: seq<Byte>, w: nat): (codes: seq<Glyph>)
    requires w == 1 || w == 2
    ensures w == 1 ==> |codes| == |bytes| && forall i :: 0 <= i < |codes| ==> codes[i] == bytes[i..i + 1]
    ensures w == 2 ==> |codes| == |bytes| / 2 && forall i :: 0 <= i < |codes| ==> codes[i] == bytes[2 * i..2 * i + 2]
  {
    if |bytes| < w then [] else [bytes[..w]] + Decode(bytes[w..], w)
  }

  function CodesOf(bytes: seq<Byte>, g: Graphics, env: Env): seq<Glyph> {
    if g.font.None? then []
    else match BytesPerGlyph(env.fonts, g.font.value)
      case Some(w) => Decode(bytes, w)
      case None => []
  }

  /** Word spacing applies to the single-byte code 32 only (section 9.3.3). */
  function WordSpace(code: Glyph, tw: real): real {
    if code == [32] then tw else 0.0
  }

  function Width(code: Glyph, g: Graphics, env: Env): real {
    if g.font.None? then 0.0 else env.width(g.font.value, code) * g.size * g.th
  }

  /** t_x = (w0 Tfs + Tc + Tw) Th, section 9.4.4. */
  function Advance(code: Glyph, g: Graphics, env: Env): real {
    Width(code, g, env) + (g.tc + WordSpace(code, g.tw)) * g.th
  }

  function Forward(t: real, at: Place): Place {
    at.(x := at.x + t)
  }

  /** The text matrix Tm of section 9.4.2. */
  function TextMatrix(at: Place): Matrix {
    Shift(at.x, at.line)
  }

  /** Moving along the line is the update Tm := [1 0 0 1 t 0] x Tm of section 9.4.4. */
  lemma ForwardUpdatesTextMatrix(t: real, at: Place)
    ensures TextMatrix(Forward(t, at)) == Mul(Matrix(1.0, 0.0, 0.0, 1.0, t, 0.0), TextMatrix(at))
  {
    ShiftShift(t, at.x, at.line);
    ShiftIsMul(t, TextMatrix(at));
  }

  function PenAfterCodes(codes: seq<Glyph>, g: Graphics, env: Env, at: Place): Place {
    if codes == [] then at
    else PenAfterCodes(codes[1..], g, env, Forward(Advance(codes[0], g, env), at))
  }

  function CodeEvents(codes: seq<Glyph>, g: Graphics, env: Env, at: Place): seq<Event> {
    if codes == [] then []
    else [Drawn(codes[0], g, at)]
         + CodeEvents(codes[1..], g, env, Forward(Advance(codes[0], g, env), at))
  }

  /** t_x = -(n / 1000) Tfs Th for a number inside a TJ array. */
  function Kern(n: real, g: Graphics): real {
    -n / 1000.0 * g.size * g.th
  }

  function PenAfterElements(es: seq<Element>, g: Graphics, env: Env, at: Place): Place {
    if es == [] then at
    else
      var at' := match es[0]
                 case Num(n) => Forward(Kern(n, g), at)
                 case Str(bytes) => PenAfterCodes(CodesOf(bytes, g, env), g, env, at);
      PenAfterElements(es[1..], g, env, at')
  }

  function ElementEvents(es: seq<Element>, g: Graphics, env: Env, at: Place): seq<Event> {
    if es == [] then []
    else match es[0]
      case Num(n) => ElementEvents(es[1..], g, env, Forward(Kern(n, g), at))
      case Str(bytes) =>
        var codes := CodesOf(bytes, g, env);
        CodeEvents(codes, g, env, at)
        + ElementEvents(es[1..], g, env, PenAfterCodes(codes, g, env, at))
  }

  /** T*: down one leading, back to the start of the line (section 9.4.2). */
  function OnNextLine(m: Machine, x: real, y: real): Machine {
    m.(at := Place(Mul(Matrix(1.0, 0.0, 0.0, 1.0, x, y), m.at.line), 0.0))
  }

  /** The state in which a showing operator starts to show. */
  function Ready(op: Op, m: Machine): Machine
    requires Shows(op)
  {
    match op
    case NextLineShow(_) => OnNextLine(m, 0.0, -m.g.leading)
    case SpacedShow(aw, ac, _) => OnNextLine(m.(g := m.g.(tw := aw, tc := ac)), 0.0, -m.g.leading)
    case _ => m
  }

  function ElementsOf(op: Op): seq<Element>
    requires Shows(op)
  {
    if op.ShowArray? then op.elements else [Str(op.bytes)]
  }

  function Step(op: Op, env: Env, m: Machine): Machine {
    match op
    case Save => m.(stack := m.stack + [m.g])
    case Restore =>
      if m.stack == [] then m
      else m.(g := m.stack[|m.stack| - 1], stack := m.stack[..|m.stack| - 1])
    case Tf(name, size) => m.(g := m.g.(font := Some(name), size := size))
    case Tc(x) => m.(g := m.g.(tc := x))
    case Tw(x) => m.(g := m.g.(tw := x))
    case Tz(p) => m.(g := m.g.(th := p / 100.0))
    case TL(x) => m.(g := m.g.(leading := x))
    case Ts(x) => m.(g := m.g.(rise := x))
    case Tr(k) => m.(g := m.g.(mode := k))
    case BT => m.(at := Place(IDENTITY, 0.0))
    case ET => m
    case Td(x, y) => OnNextLine(m, x, y)
    case TD(x, y) => OnNextLine(m.(g := m.g.(leading := -y)), x, y)
    case Tm(t) => m.(at := Place(t, 0.0))
    case NextLine => OnNextLine(m, 0.0, -m.g.leading)
    case Other(id) => m.(g := m.g.(history := m.g.history + [id]))
    case _ =>
      var r := Ready(op, m);
      r.(at := PenAfterElements(ElementsOf(op), r.g, env, r.at))
  }

  function StepEvents(op: Op, env: Env, m: Machine): seq<Event> {
    if op.Other? then [Marked(op.id, m.g)]
    else if Shows(op) then
      var r := Ready(op, m);
      ElementEvents(ElementsOf(op), r.g, env, r.at)
    else []
  }

  /** Where a stream leaves the machine, and everything it paints on the way. */
  function Run(ops: seq<Op>, env: Env, m: Machine): Machine {
    if ops == [] then m else Run(ops[1..], env, Step(ops[0], env, m))
  }

  function Events(ops: seq<Op>, env: Env, m: Machine): seq<Event> {
    if ops == [] then []
    else StepEvents(ops[0], env, m) + Events(ops[1..], env, Step(ops[0], env, m))
  }

  // ------------------------------------------------------------ composition

  lemma {:induction false} RunConcat(a: seq<Op>, b: seq<Op>, env: Env, m: Machine)
    ensures Run(a + b, env, m) == Run(b, env, Run(a, env, m))
    ensures Events(a + b, env, m) == Events(a, env, m) + Events(b, env, Run(a, env, m))
    decreases |a|
  {
    hide Step, StepEvents;
    if a == [] {
      assert a + b == b;
    } else {
      assert (a + b)[0] == a[0] && (a + b)[1..] == a[1..] + b;
      RunConcat(a[1..], b, env, Step(a[0], env, m));
    }
  }

  lemma {:induction false} CodesConcat(a: seq<Glyph>, b: seq<Glyph>, g: Graphics, env: Env, at: Place)
    ensures PenAfterCodes(a + b, g, env, at) == PenAfterCodes(b, g, env, PenAfterCodes(a, g, env, at))
    ensures CodeEvents(a + b, g, env, at)
         == CodeEvents(a, g, env, at) + CodeEvents(b, g, env, PenAfterCodes(a, g, env, at))
    decreases |a|
  {
    if a == [] {
      assert a + b == b;
    } else {
      assert (a + b)[0] == a[0] && (a + b)[1..] == a[1..] + b;
      CodesConcat(a[1..], b, g, env, Forward(Advance(a[0], g, env), at));
    }
  }

  lemma {:induction false} ElementsConcat(a: seq<Element>, b: seq<Element>, g: Graphics, env: Env, at: Place)
    ensures PenAfterElements(a + b, g, env, at)
         == PenAfterElements(b, g, env, PenAfterElements(a, g, env, at))
    ensures ElementEvents(a + b, g, env, at)
         == ElementEvents(a, g, env, at) + ElementEvents(b, g, env, PenAfterElements(a, g, env, at))
    decreases |a|
  {
    if a == [] {
      assert a + b == b;
    } else {
      assert (a + b)[0] == a[0] && (a + b)[1..] == a[1..] + b;
      match a[0] {
        case Num(n) => ElementsConcat(a[1..], b, g, env, Forward(Kern(n, g), at));
        case Str(bytes) =>
          ElementsConcat(a[1..], b, g, env, PenAfterCodes(CodesOf(bytes, g, env), g, env, at));
      }
    }
  }

  /** Gluing a code onto whole codes and decoding gives the codes back. */
  lemma DecodeAppend(bytes: seq<Byte>, code: Glyph, w: nat)
    requires w == 1 || w == 2
    requires |code| == w && |bytes| % w == 0
    ensures Decode(bytes + code, w) == Decode(bytes, w) + [code]
    ensures |bytes + code| % w == 0
  {
    var a, b := Decode(bytes + code, w), Decode(bytes, w) + [code];
    hide Decode;
    assert |a| == |b|;
    forall i | 0 <= i < |a| ensures a[i] == b[i] {
      if w == 1 {
        assert a[i] == (bytes + code)[i..i + 1];
      } else {
        assert a[i] == (bytes + code)[2 * i..2 * i + 2];
      }
    }
  }
}
