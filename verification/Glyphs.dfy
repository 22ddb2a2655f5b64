/** Finding placeholder tokens in the glyphs of a page (app/pdftools/glyphs.py:77-107). A
    glyph is the text it draws, which may be several characters or none. */
module Glyphs {
  import opened Wrappers

  /** The glyphs `first` to `last` of one stream. */
  datatype Hit = Hit(stream: nat, first: nat, last: nat)

  // -------------------------------------------------- the streams of a page

  /** What a page or figure holds: glyphs, figures drawn from a Form XObject, other marks. */
  datatype Item = Glyph(text: string) | Figure(name: string, items: seq<Item>) | Mark

  /** The path of form names that leads to a stream. */
  type Path = seq<string>

  datatype Stream = Stream(path: Path, glyphs: seq<string>)

  /** The glyphs drawn by the container itself, in order. */
  function Direct(items: seq<Item>): seq<string> {
    if items == [] then []
    else
      var last := items[|items| - 1];
      Direct(items[..|items| - 1]) + (if last.Glyph? then [last.text] else [])
  }

  /** A container's own stream, then those of its figures in order. */
  function StreamsOf(items: seq<Item>, path: Path): seq<Stream>
    decreases items, 1
  {
    [Stream(path, Direct(items))] + Nested(items, path)
  }

  function Nested(items: seq<Item>, path: Path): seq<Stream>
    decreases items, 0
  {
    if items == [] then []
    else
      var last := items[|items| - 1];
      Nested(items[..|items| - 1], path) + (if last.Figure? then StreamsOf(last.items, path + [last.name]) else [])
  }

  /** The walk as it runs: the container's stream is added first and filled while the streams
      of its figures are added behind it. */
  method WalkContainer(items: seq<Item>, path: Path, found: seq<Stream>) returns (out: seq<Stream>)
    ensures out == found + StreamsOf(items, path)
    decreases items
  {
    var here := |found|;
    out := found + [Stream(path, [])];
    ghost var own: seq<string>, nested: seq<Stream> := [], [];
    for i := 0 to |items|
      invariant own == Direct(items[..i]) && nested == Nested(items[..i], path)
      invariant out == found + [Stream(path, own)] + nested
    {
      assert items[..i + 1][..i] == items[..i] && items[..i + 1][i] == items[i];
      var item := items[i];
      if item.Glyph? {
        out := out[here := Stream(path, out[here].glyphs + [item.text])];
        own := own + [item.text];
      } else if item.Figure? {
        ghost var inner := StreamsOf(item.items, path + [item.name]);
        assert found + [Stream(path, own)] + nested + inner == found + [Stream(path, own)] + (nested + inner);
        out := WalkContainer(item.items, path + [item.name], out);
        nested := nested + inner;
      }
    }
    assert items[..|items|] == items;
    assert found + [Stream(path, own)] + nested == found + ([Stream(path, own)] + nested);
  }

  /** The streams that draw something; the index of a hit counts only these. */
  function Drawing(streams: seq<Stream>): seq<Stream> {
    if streams == [] then []
    else
      var k := |streams| - 1;
      Drawing(streams[..k]) + (if streams[k].glyphs != [] then [streams[k]] else [])
  }

  function Inked(streams: seq<Stream>): nat {
    if streams == [] then 0 else (if streams[0].glyphs == [] then 0 else 1) + Inked(streams[1..])
  }

  lemma {:induction false} InkedLast(streams: seq<Stream>)
    requires streams != []
    ensures Inked(streams) == Inked(streams[..|streams| - 1]) + if streams[|streams| - 1].glyphs == [] then 0 else 1
    decreases |streams|
  {
    if |streams| > 1 {
      InkedLast(streams[1..]);
      assert streams[..|streams| - 1][1..] == streams[1..][..|streams| - 2];
    }
  }

  /** A stream that draws something is numbered by how many such come before it. */
  lemma {:induction false} DrawingInOrder(streams: seq<Stream>, k: nat)
    requires k < |streams|
    ensures |Drawing(streams)| == Inked(streams)
    ensures streams[k].glyphs != [] ==>
              Inked(streams[..k]) < |Drawing(streams)| && Drawing(streams)[Inked(streams[..k])] == streams[k]
    decreases |streams|
  {
    var m := |streams| - 1;
    InkedLast(streams);
    if k < m {
      DrawingInOrder(streams[..m], k);
      assert streams[..m][..k] == streams[..k];
    } else if m > 0 {
      DrawingInOrder(streams[..m], 0);
    }
  }

  method PageStreams(items: seq<Item>) returns (out: seq<Stream>)
    ensures out == Drawing(StreamsOf(items, []))
  {
    var found := WalkContainer(items, [], []);
    assert found == StreamsOf(items, []);
    out := [];
    for k := 0 to |found|
      invariant out == Drawing(found[..k])
    {
      assert found[..k + 1][..k] == found[..k];
      if found[k].glyphs != [] {
        out := out + [found[k]];
      }
    }
    assert found[..|found|] == found;
  }

  function GlyphsIn(items: seq<Item>): multiset<string>
    decreases items
  {
    if items == [] then multiset{}
    else
      var last := items[|items| - 1];
      GlyphsIn(items[..|items| - 1])
      + (if last.Glyph? then multiset{last.text} else if last.Figure? then GlyphsIn(last.items) else multiset{})
  }

  function GlyphsOf(streams: seq<Stream>): multiset<string> {
    if streams == [] then multiset{} else GlyphsOf(streams[..|streams| - 1]) + multiset(streams[|streams| - 1].glyphs)
  }

  lemma {:induction false} GlyphsConcat(a: seq<Stream>, b: seq<Stream>)
    ensures GlyphsOf(a + b) == GlyphsOf(a) + GlyphsOf(b)
    decreases |b|
  {
    if b == [] {
      assert a + b == a;
    } else {
      var k := |b| - 1;
      assert (a + b)[..|a + b| - 1] == a + b[..k] && (a + b)[|a + b| - 1] == b[k];
      GlyphsConcat(a, b[..k]);
    }
  }

  lemma {:induction false} DrawingKeepsGlyphs(streams: seq<Stream>)
    ensures GlyphsOf(Drawing(streams)) == GlyphsOf(streams)
    decreases |streams|
  {
    if streams == [] {
    } else {
      var k := |streams| - 1;
      DrawingKeepsGlyphs(streams[..k]);
      OneStream(streams[k]);
      if streams[k].glyphs == [] {
        assert Drawing(streams) == Drawing(streams[..k]) && multiset(streams[k].glyphs) == multiset{};
      } else {
        assert Drawing(streams) == Drawing(streams[..k]) + [streams[k]];
        GlyphsConcat(Drawing(streams[..k]), [streams[k]]);
      }
    }
  }

  lemma OneStream(s: Stream)
    ensures GlyphsOf([s]) == multiset(s.glyphs)
  {
    assert [s][..0] == [];
  }

  /** Splitting a page into streams loses no glyph and invents none. */
  lemma {:induction false} StreamsKeepGlyphs(items: seq<Item>, path: Path)
    ensures GlyphsOf(StreamsOf(items, path)) == GlyphsIn(items)
    ensures GlyphsOf(Drawing(StreamsOf(items, path))) == GlyphsIn(items)
    decreases items, 1
  {
    DrawingKeepsGlyphs(StreamsOf(items, path));
    var own := [Stream(path, Direct(items))];
    GlyphsConcat(own, Nested(items, path));
    assert own[..0] == [] && GlyphsOf(own) == multiset(Direct(items));
    NestedKeepGlyphs(items, path);
  }

  lemma {:induction false} NestedKeepGlyphs(items: seq<Item>, path: Path)
    ensures multiset(Direct(items)) + GlyphsOf(Nested(items, path)) == GlyphsIn(items)
    decreases items, 0
  {
    if items != [] {
      var rest, last := items[..|items| - 1], items[|items| - 1];
      NestedKeepGlyphs(rest, path);
      if last.Figure? {
        StreamsKeepGlyphs(last.items, path + [last.name]);
        GlyphsConcat(Nested(rest, path), StreamsOf(last.items, path + [last.name]));
      } else {
        assert Nested(items, path) == Nested(rest, path);
      }
    }
  }

  function Drawn(items: seq<Item>): nat {
    if items == [] then 0 else (if items[0].Glyph? then 1 else 0) + Drawn(items[1..])
  }

  lemma {:induction false} DrawnLast(items: seq<Item>)
    requires items != []
    ensures Drawn(items) == Drawn(items[..|items| - 1]) + (if items[|items| - 1].Glyph? then 1 else 0)
    decreases |items|
  {
    if |items| > 1 {
      DrawnLast(items[1..]);
      assert items[..|items| - 1][1..] == items[1..][..|items| - 2];
    }
  }

  /** A container's own stream lists its glyphs where they stand, figures between them or not. */
  lemma {:induction false} DirectInOrder(items: seq<Item>)
    ensures |Direct(items)| == Drawn(items)
    ensures forall i :: 0 <= i < |items| && items[i].Glyph? ==>
              Drawn(items[..i]) < |Direct(items)| && Direct(items)[Drawn(items[..i])] == items[i].text
    decreases |items|
  {
    if items != [] {
      var k := |items| - 1;
      DirectInOrder(items[..k]);
      DrawnLast(items);
      forall i | 0 <= i < |items| && items[i].Glyph?
        ensures Drawn(items[..i]) < |Direct(items)| && Direct(items)[Drawn(items[..i])] == items[i].text {
        if i < k {
          assert items[..k][..i] == items[..i] && items[..k][i] == items[i];
        }
      }
    }
  }

  /** The streams of a figure come after those of the figures before it and before those of the
      figures behind it, under the path that leads to it. */
  lemma {:induction false} NestedInOrder(items: seq<Item>, path: Path, i: nat)
    requires i < |items|
    ensures Nested(items, path)
         == Nested(items[..i], path)
            + (if items[i].Figure?
               then [Stream(path + [items[i].name], Direct(items[i].items))]
                    + Nested(items[i].items, path + [items[i].name]) else [])
            + Nested(items[i + 1..], path)
    decreases |items|
  {
    var k := |items| - 1;
    if i < k {
      NestedInOrder(items[..k], path, i);
      assert items[..k][..i] == items[..i] && items[..k][i + 1..] == items[i + 1..][..k - i - 1];
      assert items[i + 1..][k - i - 1] == items[k];
    } else {
      assert items[i + 1..] == [] && Nested([], path) == [];
    }
  }

  // ---------------------------------------------------------------- the text

  /** The text without its white space. */
  function Squeeze(s: string, white: char -> bool): (r: string)
    ensures forall i :: 0 <= i < |r| ==> r[i] in s && !white(r[i])
  {
    if s == "" then ""
    else (if white(s[0]) then "" else [s[0]]) + Squeeze(s[1..], white)
  }

  function Pieces(glyphs: seq<string>, ignoreSpaces: bool, white: char -> bool): (pieces: seq<string>)
    ensures |pieces| == |glyphs|
    ensures forall n :: 0 <= n < |glyphs| ==> pieces[n] == if ignoreSpaces then Squeeze(glyphs[n], white) else glyphs[n]
  {
    seq(|glyphs|, n requires 0 <= n < |glyphs| => if ignoreSpaces then Squeeze(glyphs[n], white) else glyphs[n])
  }

  function Text(pieces: seq<string>): string {
    if pieces == [] then "" else Text(pieces[..|pieces| - 1]) + pieces[|pieces| - 1]
  }

  function Repeat(n: nat, times: nat): (r: seq<nat>)
    ensures |r| == times && forall i :: 0 <= i < times ==> r[i] == n
  {
    seq(times, i => n)
  }

  /** The glyph that drew each character of the text. */
  function Owner(pieces: seq<string>): (owner: seq<nat>)
    ensures |owner| == |Text(pieces)|
    ensures forall i :: 0 <= i < |owner| ==> owner[i] < |pieces|
  {
    if pieces == [] then []
    else Owner(pieces[..|pieces| - 1]) + Repeat(|pieces| - 1, |pieces[|pieces| - 1]|)
  }

  /** How many characters the first n glyphs draw. */
  function Offset(pieces: seq<string>, n: nat): nat
    requires n <= |pieces|
  {
    |Text(pieces[..n])|
  }

  lemma OffsetNext(pieces: seq<string>, n: nat)
    requires n < |pieces|
    ensures Offset(pieces, n + 1) == Offset(pieces, n) + |pieces[n]|
  {
    assert pieces[..n + 1][..n] == pieces[..n];
  }

  lemma {:induction false} OffsetMonotone(pieces: seq<string>, m: nat, n: nat)
    requires m <= n <= |pieces|
    ensures Offset(pieces, m) <= Offset(pieces, n)
    decreases n - m
  {
    if m < n {
      OffsetNext(pieces, n - 1);
      OffsetMonotone(pieces, m, n - 1);
    }
  }

  /** A character stands among those its owner draws. */
  lemma {:induction false} OwnerDraws(pieces: seq<string>, i: nat)
    requires i < |Text(pieces)|
    ensures Offset(pieces, Owner(pieces)[i]) <= i < Offset(pieces, Owner(pieces)[i] + 1)
    decreases |pieces|
  {
    var k := |pieces| - 1;
    assert pieces[..k + 1] == pieces;
    if i < |Text(pieces[..k])| {
      OwnerDraws(pieces[..k], i);
      var n := Owner(pieces[..k])[i];
      assert pieces[..k][..n] == pieces[..n] && pieces[..k][..n + 1] == pieces[..n + 1];
    }
  }

  function Lengths(pieces: seq<string>): nat {
    if pieces == [] then 0 else |pieces[0]| + Lengths(pieces[1..])
  }

  lemma {:induction false} LengthsLast(pieces: seq<string>)
    requires pieces != []
    ensures Lengths(pieces) == Lengths(pieces[..|pieces| - 1]) + |pieces[|pieces| - 1]|
    decreases |pieces|
  {
    if |pieces| > 1 {
      LengthsLast(pieces[1..]);
      assert pieces[..|pieces| - 1][1..] == pieces[1..][..|pieces| - 2];
    }
  }

  lemma {:induction false} TextLength(pieces: seq<string>)
    ensures |Text(pieces)| == Lengths(pieces)
    decreases |pieces|
  {
    if pieces != [] {
      TextLength(pieces[..|pieces| - 1]);
      LengthsLast(pieces);
    }
  }

  /** The text is what the glyphs draw, one after another: its j-th character from the start of
      glyph n is the j-th that glyph n draws, and n is its owner. */
  lemma {:induction false} TextSpells(pieces: seq<string>, n: nat, j: nat)
    requires n < |pieces| && j < |pieces[n]|
    ensures var i := Lengths(pieces[..n]) + j;
            i < |Text(pieces)| && Text(pieces)[i] == pieces[n][j] && Owner(pieces)[i] == n
    decreases |pieces|
  {
    var k := |pieces| - 1;
    if n < k {
      assert pieces[..k][..n] == pieces[..n] && pieces[..k][n] == pieces[n];
      TextSpells(pieces[..k], n, j);
    } else {
      TextLength(pieces[..k]);
    }
  }

  lemma OffsetIsLengths(pieces: seq<string>, n: nat)
    requires n <= |pieces|
    ensures Offset(pieces, n) == Lengths(pieces[..n])
  {
    TextLength(pieces[..n]);
  }

  /** Character by character: the owner drew it, at its place among what the owner draws. */
  lemma OwnerDrewIt(pieces: seq<string>, i: nat)
    requires i < |Text(pieces)|
    ensures var n := Owner(pieces)[i];
            var d := Lengths(pieces[..n]);
            d <= i < d + |pieces[n]| && Text(pieces)[i] == pieces[n][i - d]
  {
    var n := Owner(pieces)[i];
    hide Text, Owner;
    OwnerDraws(pieces, i);
    OffsetIsLengths(pieces, n);
    OffsetNext(pieces, n);
    TextSpells(pieces, n, i - Lengths(pieces[..n]));
  }

  // ------------------------------------------------------------- occurrences

  predicate Occurs(text: string, token: string, i: nat) {
    i + |token| <= |text| && text[i..i + |token|] == token
  }

  /** Python's text.find(token, from): the first occurrence from there on. */
  function FindFrom(text: string, token: string, from: nat): (r: Option<nat>)
    ensures r.Some? ==> from <= r.value && Occurs(text, token, r.value)
    ensures r.Some? ==> forall i :: from <= i < r.value ==> !Occurs(text, token, i)
    ensures r.None? ==> forall i :: from <= i ==> !Occurs(text, token, i)
    decreases |text| - from
  {
    if from > |text| then None
    else if Occurs(text, token, from) then Some(from)
    else FindFrom(text, token, from + 1)
  }

  /** The occurrences the search loop goes through. */
  function Starts(text: string, token: string, from: nat): seq<nat>
    requires token != ""
    decreases |text| - from
  {
    var start := FindFrom(text, token, from);
    if start.None? then [] else [start.value] + Starts(text, token, start.value + |token|)
  }

  /** Occurrences in order, none overlapping the next. */
  ghost predicate Disjoint(text: string, token: string, hits: seq<nat>) {
    && (forall k :: 0 <= k < |hits| ==> Occurs(text, token, hits[k]))
    && (forall j, k :: 0 <= j < k < |hits| ==> hits[j] + |token| <= hits[k])
  }

  /** An occurrence at i is one of the hits or begins inside one. */
  ghost predicate Taken(token: string, hits: seq<nat>, i: nat) {
    exists k :: 0 <= k < |hits| && hits[k] <= i < hits[k] + |token|
  }

  /** Leftmost-greedy: no occurrence from `from` on is passed over, unless it begins inside
      one that was taken. */
  ghost predicate Greedy(text: string, token: string, from: nat, hits: seq<nat>) {
    && Disjoint(text, token, hits)
    && (forall k :: 0 <= k < |hits| ==> from <= hits[k])
    && (forall i :: from <= i && Occurs(text, token, i) ==> Taken(token, hits, i))
  }

  lemma TakenBy(token: string, hits: seq<nat>, i: nat) returns (k: nat)
    requires Taken(token, hits, i)
    ensures k < |hits| && hits[k] <= i < hits[k] + |token|
  {
    k :| 0 <= k < |hits| && hits[k] <= i < hits[k] + |token|;
  }

  lemma TakenAt(token: string, hits: seq<nat>, i: nat, k: nat)
    requires k < |hits| && hits[k] <= i < hits[k] + |token|
    ensures Taken(token, hits, i)
  {
  }

  lemma TakenLater(token: string, first: nat, rest: seq<nat>, i: nat)
    requires Taken(token, rest, i)
    ensures Taken(token, [first] + rest, i)
  {
    var k :| 0 <= k < |rest| && rest[k] <= i < rest[k] + |token|;
    assert ([first] + rest)[k + 1] == rest[k];
  }

  lemma DisjointMore(text: string, token: string, first: nat, rest: seq<nat>)
    requires Occurs(text, token, first) && Disjoint(text, token, rest)
    requires forall k :: 0 <= k < |rest| ==> first + |token| <= rest[k]
    ensures Disjoint(text, token, [first] + rest)
  {
  }

  lemma GreedyNone(text: string, token: string, from: nat)
    requires FindFrom(text, token, from).None?
    ensures Greedy(text, token, from, [])
  {
  }

  /** The first occurrence followed by a greedy choice after it. */
  lemma GreedyMore(text: string, token: string, from: nat, rest: seq<nat>)
    requires token != "" && FindFrom(text, token, from).Some?
    requires Greedy(text, token, FindFrom(text, token, from).value + |token|, rest)
    ensures Greedy(text, token, from, [FindFrom(text, token, from).value] + rest)
  {
    hide Occurs, Taken;
    var start := FindFrom(text, token, from).value;
    var hits := [start] + rest;
    DisjointMore(text, token, start, rest);
    forall i | from <= i && Occurs(text, token, i) ensures Taken(token, hits, i) {
      if i < start + |token| {
        TakenAt(token, hits, i, 0);
      } else {
        TakenLater(token, start, rest, i);
      }
    }
  }

  lemma {:induction false} StartsAreGreedy(text: string, token: string, from: nat)
    requires token != ""
    ensures Greedy(text, token, from, Starts(text, token, from))
    decreases |text| - from
  {
    hide Greedy, Occurs;
    var start := FindFrom(text, token, from);
    if start.None? {
      GreedyNone(text, token, from);
    } else {
      StartsAreGreedy(text, token, start.value + |token|);
      GreedyMore(text, token, from, Starts(text, token, start.value + |token|));
    }
  }

  /** Greedy hits are as many as disjoint occurrences can be, each no later than the other
      choice's. */
  lemma {:induction false} GreedyIsMost(text: string, token: string, from: nat, hits: seq<nat>, other: seq<nat>, j: nat)
    requires token != "" && Greedy(text, token, from, hits)
    requires Disjoint(text, token, other) && (forall k :: 0 <= k < |other| ==> from <= other[k])
    requires j < |other|
    ensures j < |hits| && hits[j] <= other[j]
    decreases j
  {
    hide Occurs, Taken;
    assert Occurs(text, token, other[j]);
    var k := TakenBy(token, hits, other[j]);
    if j > 0 {
      GreedyIsMost(text, token, from, hits, other, j - 1);
      assert other[j - 1] + |token| <= other[j];
      assert forall m :: 0 <= m < j - 1 ==> hits[m] + |token| <= hits[j - 1];
    }
    assert j <= k;
    assert forall m :: j < m < |hits| ==> hits[j] + |token| <= hits[m];
  }

  /** There is only one leftmost-greedy choice. */
  lemma GreedyIsUnique(text: string, token: string, from: nat, a: seq<nat>, b: seq<nat>)
    requires token != "" && Greedy(text, token, from, a) && Greedy(text, token, from, b)
    ensures a == b
  {
    hide Greedy;
    NoMore(text, token, from, a, b);
    NoMore(text, token, from, b, a);
  }

  lemma NoMore(text: string, token: string, from: nat, a: seq<nat>, b: seq<nat>)
    requires token != "" && Greedy(text, token, from, a) && Greedy(text, token, from, b)
    ensures |b| <= |a| && forall j :: 0 <= j < |b| ==> a[j] <= b[j]
  {
    forall j | 0 <= j < |b| ensures j < |a| && a[j] <= b[j] {
      GreedyIsMost(text, token, from, a, b, j);
    }
    if b != [] {
      GreedyIsMost(text, token, from, a, b, |b| - 1);
    }
  }

  // ------------------------------------------------------------ glyph ranges

  /** The glyphs first to last draw the whole of text[i..j]. */
  predicate Covers(pieces: seq<string>, first: nat, last: nat, i: nat, j: nat) {
    first <= last < |pieces| && Offset(pieces, first) <= i && j <= Offset(pieces, last + 1)
  }

  /** The owners of the first and last character are the smallest range that draws them. */
  lemma SmallestRange(pieces: seq<string>, i: nat, j: nat)
    requires i < j <= |Text(pieces)|
    ensures Covers(pieces, Owner(pieces)[i], Owner(pieces)[j - 1], i, j)
    ensures forall a: nat, b: nat :: Covers(pieces, a, b, i, j) ==> a <= Owner(pieces)[i] && Owner(pieces)[j - 1] <= b
  {
    hide Text, Offset, Owner;
    var first, last := Owner(pieces)[i], Owner(pieces)[j - 1];
    OwnerDraws(pieces, i);
    OwnerDraws(pieces, j - 1);
    Reaches(pieces, first, last + 1);
    forall a: nat, b: nat | Covers(pieces, a, b, i, j) ensures a <= first && last <= b {
      Reaches(pieces, a, first + 1);
      Reaches(pieces, last, b + 1);
    }
  }

  /** Offsets tell glyphs apart. */
  lemma Reaches(pieces: seq<string>, a: nat, b: nat)
    requires a <= |pieces| && b <= |pieces| && Offset(pieces, a) < Offset(pieces, b)
    ensures a < b
  {
    if b <= a {
      OffsetMonotone(pieces, b, a);
      assert false;
    }
  }

  // ------------------------------------------------------------------- find

  function HitAt(pieces: seq<string>, token: string, stream: nat, start: nat): Hit
    requires token != "" && Occurs(Text(pieces), token, start)
  {
    Hit(stream, Owner(pieces)[start], Owner(pieces)[start + |token| - 1])
  }

  /** The hits of a stream from one position of its text on. */
  function HitsFrom(pieces: seq<string>, token: string, stream: nat, from: nat): seq<Hit>
    requires token != ""
    decreases |Text(pieces)| - from
  {
    var start := FindFrom(Text(pieces), token, from);
    if start.None? then []
    else [HitAt(pieces, token, stream, start.value)] + HitsFrom(pieces, token, stream, start.value + |token|)
  }

  function Hits(streams: seq<seq<string>>, token: string, ignoreSpaces: bool, white: char -> bool): seq<Hit>
    requires token != ""
  {
    if streams == [] then []
    else
      var k := |streams| - 1;
      Hits(streams[..k], token, ignoreSpaces, white) + HitsFrom(Pieces(streams[k], ignoreSpaces, white), token, k, 0)
  }

  /** The hits of a stream are its leftmost-greedy occurrences, each with the smallest range
      of glyphs that draws it. */
  lemma {:induction false} HitsAreStarts(pieces: seq<string>, token: string, stream: nat, from: nat)
    requires token != ""
    ensures |HitsFrom(pieces, token, stream, from)| == |Starts(Text(pieces), token, from)|
    ensures forall k :: 0 <= k < |Starts(Text(pieces), token, from)| ==>
              && Occurs(Text(pieces), token, Starts(Text(pieces), token, from)[k])
              && HitsFrom(pieces, token, stream, from)[k]
                 == HitAt(pieces, token, stream, Starts(Text(pieces), token, from)[k])
    decreases |Text(pieces)| - from
  {
    hide Text, Occurs, HitAt;
    var start := FindFrom(Text(pieces), token, from);
    if start.Some? {
      HitsAreStarts(pieces, token, stream, start.value + |token|);
    }
  }

  /** The range h is the smallest that draws text[i..j]. */
  ghost predicate Tight(pieces: seq<string>, i: nat, j: nat, h: Hit) {
    && Covers(pieces, h.first, h.last, i, j)
    && forall a: nat, b: nat :: Covers(pieces, a, b, i, j) ==> a <= h.first && h.last <= b
  }

  lemma HitIsTight(pieces: seq<string>, token: string, stream: nat, i: nat)
    requires token != "" && Occurs(Text(pieces), token, i)
    ensures Tight(pieces, i, i + |token|, HitAt(pieces, token, stream, i))
  {
    hide Text, Owner, Covers;
    HitIs(pieces, token, stream, i);
    SmallestRange(pieces, i, i + |token|);
  }

  /** A stream's hits are exactly its leftmost-greedy occurrences, in order, each with the
      smallest range of glyphs that draws it. */
  lemma HitsAreExact(pieces: seq<string>, token: string, stream: nat, hits: seq<Hit>) returns (starts: seq<nat>)
    requires token != "" && hits == HitsFrom(pieces, token, stream, 0)
    ensures Greedy(Text(pieces), token, 0, starts) && |hits| == |starts|
    ensures forall k :: 0 <= k < |hits| ==>
            hits[k].stream == stream && Tight(pieces, starts[k], starts[k] + |token|, hits[k])
  {
    hide Greedy, Starts, Text, Owner, HitsFrom, Tight, Occurs;
    starts := Starts(Text(pieces), token, 0);
    HitsAreStarts(pieces, token, stream, 0);
    StartsAreGreedy(Text(pieces), token, 0);
    forall k | 0 <= k < |hits|
      ensures hits[k].stream == stream && Tight(pieces, starts[k], starts[k] + |token|, hits[k])
    {
      HitIsTight(pieces, token, stream, starts[k]);
    }
  }

  // ------------------------------------------------------- read off the glyphs

  /** The token, read from character j of glyph n on, from glyph to glyph. */
  predicate Reads(pieces: seq<string>, n: nat, j: nat, token: string)
    decreases |token|, |pieces| - n
  {
    if token == "" then true
    else if n >= |pieces| then false
    else if j < |pieces[n]| then pieces[n][j] == token[0] && Reads(pieces, n, j + 1, token[1..])
    else Reads(pieces, n + 1, 0, token)
  }

  lemma LengthsNext(pieces: seq<string>, n: nat)
    requires n < |pieces|
    ensures Lengths(pieces[..n + 1]) == Lengths(pieces[..n]) + |pieces[n]|
  {
    LengthsLast(pieces[..n + 1]);
    assert pieces[..n + 1][..n] == pieces[..n];
  }

  lemma {:induction false} LengthsMonotone(pieces: seq<string>, n: nat)
    requires n <= |pieces|
    ensures Lengths(pieces[..n]) <= |Text(pieces)|
    decreases |pieces| - n
  {
    TextLength(pieces);
    if n == |pieces| {
      assert pieces[..n] == pieces;
    } else {
      LengthsNext(pieces, n);
      LengthsMonotone(pieces, n + 1);
    }
  }

  lemma OccursFirst(text: string, token: string, i: nat)
    requires token != ""
    ensures Occurs(text, token, i) <==> i < |text| && text[i] == token[0] && Occurs(text, token[1..], i + 1)
  {
    if i + |token| <= |text| {
      assert text[i..i + |token|] == [text[i]] + text[i + 1..i + |token|];
      assert token == [token[0]] + token[1..];
    }
  }

  /** What the text holds at a place is what the glyphs say when they are read from there. */
  lemma {:induction false} ReadsIsOccurs(pieces: seq<string>, n: nat, j: nat, token: string)
    requires if n < |pieces| then j <= |pieces[n]| else n == |pieces| && j == 0
    ensures Reads(pieces, n, j, token) <==> Occurs(Text(pieces), token, Lengths(pieces[..n]) + j)
    decreases |token|, |pieces| - n
  {
    hide Text, Owner, Lengths;
    var i := Lengths(pieces[..n]) + j;
    LengthsMonotone(pieces, n);
    if n < |pieces| {
      LengthsNext(pieces, n);
      LengthsMonotone(pieces, n + 1);
    } else {
      assert pieces[..n] == pieces;
      TextLength(pieces);
    }
    if token != "" && n < |pieces| {
      if j < |pieces[n]| {
        TextSpells(pieces, n, j);
        OccursFirst(Text(pieces), token, i);
        ReadsIsOccurs(pieces, n, j + 1, token[1..]);
      } else {
        ReadsIsOccurs(pieces, n + 1, 0, token);
      }
    }
  }

  /** The glyphs first to last, and no fewer of them, spell the token from inside the first. */
  ghost predicate Spelled(pieces: seq<string>, token: string, first: nat, last: nat) {
    && first <= last < |pieces|
    && exists j :: 0 <= j < |pieces[first]|
                   && Reads(pieces[..last + 1], first, j, token) && !Reads(pieces[..last], first, j, token)
  }

  lemma {:induction false} TextPrefix(pieces: seq<string>, m: nat)
    requires m <= |pieces|
    ensures Text(pieces[..m]) <= Text(pieces)
    decreases |pieces|
  {
    if m == |pieces| {
      assert pieces[..m] == pieces;
    } else {
      var k := |pieces| - 1;
      TextPrefix(pieces[..k], m);
      assert pieces[..k][..m] == pieces[..m];
    }
  }

  lemma OccursInPrefix(prefix: string, text: string, token: string, i: nat)
    requires prefix <= text && Occurs(text, token, i)
    ensures Occurs(prefix, token, i) <==> i + |token| <= |prefix|
  {
    if i + |token| <= |prefix| {
      assert prefix[i..i + |token|] == text[i..i + |token|];
    }
  }

  /** The first m glyphs say the token from there exactly when its last owner is among them. */
  lemma ReadsWithin(pieces: seq<string>, token: string, i: nat, first: nat, last: nat, m: nat)
    requires token != "" && Occurs(Text(pieces), token, i)
    requires i + |token| <= |Owner(pieces)| && first == Owner(pieces)[i] && last == Owner(pieces)[i + |token| - 1]
    requires m == last || m == last + 1
    ensures first <= last < |pieces|
    ensures var j := i - Lengths(pieces[..first]);
            0 <= j < |pieces[first]| && (Reads(pieces[..m], first, j, token) <==> m == last + 1)
  {
    hide Text, Owner, Lengths, Reads;
    OwnerDrewIt(pieces, i);
    OwnerDrewIt(pieces, i + |token| - 1);
    SmallestRange(pieces, i, i + |token|);
    var j := i - Lengths(pieces[..first]);
    LengthsNext(pieces, last);
    TextPrefix(pieces, m);
    TextLength(pieces[..m]);
    OccursInPrefix(Text(pieces[..m]), Text(pieces), token, i);
    if first < m {
      assert pieces[..m][..first] == pieces[..first] && pieces[..m][first] == pieces[first];
      ReadsIsOccurs(pieces[..m], first, j, token);
    } else {
      NothingRead(pieces[..m], first, j, token);
    }
  }

  lemma NothingRead(pieces: seq<string>, n: nat, j: nat, token: string)
    requires token != "" && n >= |pieces|
    ensures !Reads(pieces, n, j, token)
  {
  }

  lemma HitSpells(pieces: seq<string>, token: string, stream: nat, i: nat)
    requires token != "" && Occurs(Text(pieces), token, i)
    ensures var h := HitAt(pieces, token, stream, i); Spelled(pieces, token, h.first, h.last)
  {
    hide Text, Owner, Lengths, Reads, Occurs;
    HitIs(pieces, token, stream, i);
    var first, last := Owner(pieces)[i], Owner(pieces)[i + |token| - 1];
    ReadsWithin(pieces, token, i, first, last, last);
    ReadsWithin(pieces, token, i, first, last, last + 1);
  }

  /** Some glyph of the stream starts the token inside what it draws. */
  ghost predicate Said(pieces: seq<string>, token: string) {
    exists n, j :: 0 <= n < |pieces| && 0 <= j < |pieces[n]| && Reads(pieces, n, j, token)
  }

  /** The text holds the token exactly when the glyphs, read one after another, say it. */
  lemma SaidIsFound(pieces: seq<string>, token: string)
    requires token != ""
    ensures Starts(Text(pieces), token, 0) != [] <==> Said(pieces, token)
  {
    hide Text, Owner, Lengths, Reads, Occurs, Starts;
    var starts := Starts(Text(pieces), token, 0);
    StartsAreGreedy(Text(pieces), token, 0);
    if starts != [] {
      var i := starts[0];
      HitIs(pieces, token, 0, i);
      OwnerDrewIt(pieces, i);
      var n := Owner(pieces)[i];
      ReadsIsOccurs(pieces, n, i - Lengths(pieces[..n]), token);
    }
    if Said(pieces, token) {
      var n, j :| 0 <= n < |pieces| && 0 <= j < |pieces[n]| && Reads(pieces, n, j, token);
      ReadsIsOccurs(pieces, n, j, token);
      var k := TakenBy(token, starts, Lengths(pieces[..n]) + j);
    }
  }

  /** A stream has a hit exactly when its glyphs, read one after another, say the token
      somewhere; and each hit's glyphs spell it. */
  lemma FoundExactly(pieces: seq<string>, token: string, stream: nat)
    requires token != ""
    ensures HitsFrom(pieces, token, stream, 0) != [] <==> Said(pieces, token)
    ensures forall k :: 0 <= k < |HitsFrom(pieces, token, stream, 0)| ==>
              var h := HitsFrom(pieces, token, stream, 0)[k];
              h.stream == stream && Spelled(pieces, token, h.first, h.last)
  {
    hide Text, Owner, Occurs, Spelled, Starts, HitsFrom, Said;
    var hits, starts := HitsFrom(pieces, token, stream, 0), Starts(Text(pieces), token, 0);
    HitsAreStarts(pieces, token, stream, 0);
    SaidIsFound(pieces, token);
    forall k | 0 <= k < |hits| ensures hits[k].stream == stream && Spelled(pieces, token, hits[k].first, hits[k].last) {
      HitIs(pieces, token, stream, starts[k]);
      HitSpells(pieces, token, stream, starts[k]);
    }
  }

  function OfStream(hits: seq<Hit>, k: nat): seq<Hit> {
    if hits == [] then []
    else OfStream(hits[..|hits| - 1], k) + (if hits[|hits| - 1].stream == k then [hits[|hits| - 1]] else [])
  }

  lemma {:induction false} OfStreamConcat(a: seq<Hit>, b: seq<Hit>, k: nat)
    ensures OfStream(a + b, k) == OfStream(a, k) + OfStream(b, k)
    decreases |b|
  {
    if b == [] {
      assert a + b == a;
    } else {
      var m := |b| - 1;
      assert (a + b)[..|a + b| - 1] == a + b[..m] && (a + b)[|a + b| - 1] == b[m];
      OfStreamConcat(a, b[..m], k);
    }
  }

  lemma {:induction false} OneStreamOnly(hits: seq<Hit>, stream: nat, k: nat)
    requires forall i :: 0 <= i < |hits| ==> hits[i].stream == stream
    ensures OfStream(hits, k) == if k == stream then hits else []
    decreases |hits|
  {
    if hits != [] {
      OneStreamOnly(hits[..|hits| - 1], stream, k);
    }
  }

  /** By stream, on the first n streams only. */
  predicate Ordered(hits: seq<Hit>, n: nat) {
    && (forall i :: 0 <= i < |hits| ==> hits[i].stream < n)
    && forall i, j :: 0 <= i < j < |hits| ==> hits[i].stream <= hits[j].stream
  }

  lemma OrderedMore(a: seq<Hit>, b: seq<Hit>, n: nat)
    requires Ordered(a, n) && forall i :: 0 <= i < |b| ==> b[i].stream == n
    ensures Ordered(a + b, n + 1)
  {
  }

  /** The hits come stream by stream, those of each stream being its own. */
  lemma {:induction false} HitsByStream(streams: seq<seq<string>>, token: string, ignoreSpaces: bool,
                                        white: char -> bool, k: nat)
    requires token != ""
    ensures Ordered(Hits(streams, token, ignoreSpaces, white), |streams|)
    ensures OfStream(Hits(streams, token, ignoreSpaces, white), k)
         == if k < |streams| then HitsFrom(Pieces(streams[k], ignoreSpaces, white), token, k, 0) else []
    decreases |streams|
  {
    hide HitsFrom, Pieces, Ordered, OfStream, Spelled, Said;
    if streams == [] {
      NoHits(k);
    } else {
      var m := |streams| - 1;
      var rest := Hits(streams[..m], token, ignoreSpaces, white);
      var more := HitsFrom(Pieces(streams[m], ignoreSpaces, white), token, m, 0);
      HitsByStream(streams[..m], token, ignoreSpaces, white, k);
      FoundExactly(Pieces(streams[m], ignoreSpaces, white), token, m);
      OfStreamConcat(rest, more, k);
      OneStreamOnly(more, m, k);
      OrderedMore(rest, more, m);
      assert k < m ==> streams[..m][k] == streams[k];
    }
  }

  lemma NoHits(k: nat)
    ensures Ordered([], 0) && OfStream([], k) == []
  {
  }

  /** A stream of the page has a hit exactly when its glyphs, without their white space if that
      is ignored, say the token somewhere; and every hit's glyphs spell it. */
  lemma FindsWhatIsSaid(streams: seq<seq<string>>, token: string, ignoreSpaces: bool, white: char -> bool)
    requires token != ""
    ensures forall k: nat :: k < |streams| ==>
              (OfStream(Hits(streams, token, ignoreSpaces, white), k) != []
               <==> Said(Pieces(streams[k], ignoreSpaces, white), token))
    ensures forall k: nat, i :: k < |streams| && 0 <= i < |OfStream(Hits(streams, token, ignoreSpaces, white), k)| ==>
              var h := OfStream(Hits(streams, token, ignoreSpaces, white), k)[i];
              Spelled(Pieces(streams[k], ignoreSpaces, white), token, h.first, h.last)
  {
    hide Hits, HitsFrom, Said, Spelled, OfStream, Pieces;
    forall k: nat | k < |streams|
      ensures OfStream(Hits(streams, token, ignoreSpaces, white), k)
              == HitsFrom(Pieces(streams[k], ignoreSpaces, white), token, k, 0) {
      HitsByStream(streams, token, ignoreSpaces, white, k);
    }
    forall k: nat | k < |streams|
      ensures HitsFrom(Pieces(streams[k], ignoreSpaces, white), token, k, 0) != []
              <==> Said(Pieces(streams[k], ignoreSpaces, white), token)
      ensures forall i :: 0 <= i < |HitsFrom(Pieces(streams[k], ignoreSpaces, white), token, k, 0)| ==>
              var h := HitsFrom(Pieces(streams[k], ignoreSpaces, white), token, k, 0)[i];
              Spelled(Pieces(streams[k], ignoreSpaces, white), token, h.first, h.last) {
      FoundExactly(Pieces(streams[k], ignoreSpaces, white), token, k);
    }
  }

  /** Searches a stream's text from hit to hit. */
  method FindIn(text: string, owner: seq<nat>, token: string, stream: nat,
                ghost pieces: seq<string>) returns (hits: seq<Hit>)
    requires token != "" && text == Text(pieces) && owner == Owner(pieces)
    ensures hits == HitsFrom(pieces, token, stream, 0)
  {
    hide Occurs, HitAt, Text, Owner, FindFrom, HitsFrom;
    ghost var from: nat := 0;
    hits := [];
    var start := FindFrom(text, token, 0);
    while start.Some?
      invariant start == FindFrom(text, token, from)
      invariant HitsFrom(pieces, token, stream, 0) == hits + HitsFrom(pieces, token, stream, from)
      decreases |text| - from
    {
      HitsStep(pieces, token, stream, from);
      HitIs(pieces, token, stream, start.value);
      var first, last := owner[start.value], owner[start.value + |token| - 1];
      ghost var rest := HitsFrom(pieces, token, stream, start.value + |token|);
      assert hits + ([Hit(stream, first, last)] + rest) == hits + [Hit(stream, first, last)] + rest;
      hits := hits + [Hit(stream, first, last)];
      from := start.value + |token|;
      start := FindFrom(text, token, start.value + |token|);
    }
    HitsStep(pieces, token, stream, from);
    assert hits + [] == hits;
  }

  lemma HitsStep(pieces: seq<string>, token: string, stream: nat, from: nat)
    requires token != ""
    ensures var start := FindFrom(Text(pieces), token, from);
            HitsFrom(pieces, token, stream, from)
            == if start.None? then []
               else [HitAt(pieces, token, stream, start.value)] + HitsFrom(pieces, token, stream, start.value + |token|)
  {
  }

  /** Builds each stream's text with its owners and searches it. */
  method Find(streams: seq<seq<string>>, token: string, ignoreSpaces: bool,
              white: char -> bool) returns (hits: seq<Hit>)
    requires token != ""
    ensures hits == Hits(streams, token, ignoreSpaces, white)
  {
    hide Occurs, HitAt, HitsFrom, Text, Owner;
    hits := [];
    for index := 0 to |streams|
      invariant hits == Hits(streams[..index], token, ignoreSpaces, white)
    {
      var text, owner := TextAndOwner(streams[index], ignoreSpaces, white);
      var here := FindIn(text, owner, token, index, Pieces(streams[index], ignoreSpaces, white));
      assert streams[..index + 1][..index] == streams[..index];
      hits := hits + here;
    }
    assert streams[..|streams|] == streams;
  }

  lemma HitIs(pieces: seq<string>, token: string, stream: nat, i: nat)
    requires token != "" && Occurs(Text(pieces), token, i)
    ensures i + |token| <= |Owner(pieces)|
    ensures HitAt(pieces, token, stream, i) == Hit(stream, Owner(pieces)[i], Owner(pieces)[i + |token| - 1])
  {
  }

  method TextAndOwner(glyphs: seq<string>, ignoreSpaces: bool, white: char -> bool) returns (text: string,
                      owner: seq<nat>)
    ensures text == Text(Pieces(glyphs, ignoreSpaces, white))
    ensures owner == Owner(Pieces(glyphs, ignoreSpaces, white))
  {
    ghost var pieces := Pieces(glyphs, ignoreSpaces, white);
    text, owner := "", [];
    for n := 0 to |glyphs|
      invariant text == Text(pieces[..n]) && owner == Owner(pieces[..n])
    {
      var piece := glyphs[n];
      if ignoreSpaces {
        piece := Squeeze(piece, white);
      }
      assert pieces[..n + 1][..n] == pieces[..n] && pieces[..n + 1][n] == piece;
      text := text + piece;
      owner := owner + Repeat(n, |piece|);
    }
    assert pieces[..|glyphs|] == pieces;
  }

  // ------------------------------------------------------------ white space

  lemma {:induction false} SqueezeConcat(a: string, b: string, white: char -> bool)
    ensures Squeeze(a + b, white) == Squeeze(a, white) + Squeeze(b, white)
    decreases |a|
  {
    if a == "" {
      assert a + b == b;
    } else {
      assert (a + b)[0] == a[0] && (a + b)[1..] == a[1..] + b;
      SqueezeConcat(a[1..], b, white);
    }
  }

  /** What has no white space stays as it is, and what is nothing else goes. */
  lemma {:induction false} SqueezeKeeps(s: string, white: char -> bool)
    ensures (forall i :: 0 <= i < |s| ==> !white(s[i])) ==> Squeeze(s, white) == s
    ensures (forall i :: 0 <= i < |s| ==> white(s[i])) ==> Squeeze(s, white) == ""
    decreases |s|
  {
    if s != "" {
      SqueezeKeeps(s[1..], white);
      assert s == [s[0]] + s[1..];
    }
  }

  /** So of a text in which white space alternates with the rest, the rest is what is left. */
  lemma SqueezeSplits(before: string, word: string, after: string, white: char -> bool)
    requires forall i :: 0 <= i < |before| ==> white(before[i])
    requires forall i :: 0 <= i < |word| ==> !white(word[i])
    ensures Squeeze(before + word + after, white) == word + Squeeze(after, white)
  {
    SqueezeKeeps(before, white);
    SqueezeKeeps(word, white);
    SqueezeConcat(before + word, after, white);
    SqueezeConcat(before, word, white);
    assert "" + word == word;
  }

  /** Ignoring spaces glyph by glyph is ignoring them in the whole text: a letter-spaced
      placeholder is found as if it were written together. */
  lemma {:induction false} SqueezedText(glyphs: seq<string>, white: char -> bool)
    ensures Text(Pieces(glyphs, true, white)) == Squeeze(Text(Pieces(glyphs, false, white)), white)
    decreases |glyphs|
  {
    if glyphs != [] {
      var k := |glyphs| - 1;
      SqueezedText(glyphs[..k], white);
      SqueezeConcat(Text(Pieces(glyphs[..k], false, white)), glyphs[k], white);
      assert Pieces(glyphs, true, white)[..k] == Pieces(glyphs[..k], true, white);
      assert Pieces(glyphs, false, white)[..k] == Pieces(glyphs[..k], false, white);
    }
  }

  // -------------------------------------------------- which glyphs a page loses

  predicate Covered(h: Hit, paths: seq<Path>, path: Path, g: nat) {
    h.stream < |paths| && paths[h.stream] == path && h.first <= g <= h.last
  }

  /** Some hit on a stream of that path covers the glyph. */
  predicate Condemned(hits: seq<Hit>, paths: seq<Path>, path: Path, g: nat) {
    exists k :: 0 <= k < |hits| && Covered(hits[k], paths, path, g)
  }

  predicate Marks(byPath: map<Path, set<nat>>, path: Path, g: nat) {
    path in byPath && g in byPath[path]
  }

  function Range(first: nat, last: nat): (r: set<nat>)
    ensures forall g: nat :: g in r <==> first <= g <= last
    decreases last
  {
    if last < first then {} else if last == 0 then {0} else Range(first, last - 1) + {last}
  }

  /** The glyphs to strip, stream by stream (app/pdftools/page.py:18-23): exactly those some
      hit covers, each stream's once. */
  method GroupByPath(hits: seq<Hit>, paths: seq<Path>) returns (byPath: map<Path, set<nat>>)
    requires forall k :: 0 <= k < |hits| ==> hits[k].stream < |paths| && hits[k].first <= hits[k].last
    ensures forall path, g: nat :: Marks(byPath, path, g) <==> Condemned(hits, paths, path, g)
    ensures forall path :: path in byPath ==> byPath[path] != {}
  {
    hide Condemned;
    byPath := map[];
    NoneCondemned(hits, paths);
    for k := 0 to |hits|
      invariant forall path, g: nat :: Marks(byPath, path, g) <==> Condemned(hits[..k], paths, path, g)
      invariant forall path :: path in byPath ==> byPath[path] != {}
    {
      var h := hits[k];
      var path := paths[h.stream];
      var more := Range(h.first, h.last);
      assert h.first in more;
      ghost var before := byPath;
      byPath := byPath[path := (if path in byPath then byPath[path] else {}) + more];
      forall p, g: nat ensures Marks(byPath, p, g) <==> Condemned(hits[..k + 1], paths, p, g) {
        OneMoreHit(hits, paths, k, p, g);
        assert Marks(byPath, p, g) <==> Marks(before, p, g) || (p == path && g in more);
      }
    }
    assert hits[..|hits|] == hits;
  }

  /** A glyph is marked exactly when its number lies from the first to the last of a hit whose
      stream has that path. */
  lemma MarkedExactly(hits: seq<Hit>, paths: seq<Path>, byPath: map<Path, set<nat>>, path: Path, g: nat)
    requires forall k :: 0 <= k < |hits| ==> hits[k].stream < |paths|
    requires forall path, g: nat :: Marks(byPath, path, g) <==> Condemned(hits, paths, path, g)
    ensures path in byPath && g in byPath[path] <==>
            exists h :: h in hits && paths[h.stream] == path && h.first <= g && g <= h.last
  {
    assert Marks(byPath, path, g) <==> Condemned(hits, paths, path, g);
    if h :| h in hits && paths[h.stream] == path && h.first <= g && g <= h.last {
      var k :| 0 <= k < |hits| && hits[k] == h;
      assert Covered(hits[k], paths, path, g);
    }
  }

  lemma NoneCondemned(hits: seq<Hit>, paths: seq<Path>)
    ensures forall path, g: nat :: !Condemned(hits[..0], paths, path, g)
  {
  }

  lemma OneMoreHit(hits: seq<Hit>, paths: seq<Path>, k: nat, path: Path, g: nat)
    requires k < |hits|
    ensures Condemned(hits[..k + 1], paths, path, g)
         == (Condemned(hits[..k], paths, path, g) || Covered(hits[k], paths, path, g))
  {
    var more, fewer := hits[..k + 1], hits[..k];
    assert more[k] == hits[k] && forall j :: 0 <= j < k ==> more[j] == fewer[j];
    if Condemned(fewer, paths, path, g) {
      var j :| 0 <= j < |fewer| && Covered(fewer[j], paths, path, g);
      assert Covered(more[j], paths, path, g);
    }
  }
}
