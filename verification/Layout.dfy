/**
 * Text layout for terminals: the visible width of a text with escape sequences and UTF-8 in it, its
 * lines, and padding to a width.
 */
module Layout {
  type Byte = x: int | 0 <= x < 256
  type Text = seq<Byte>

  const ESC: Byte := 27
  const BRACKET: Byte := 91
  const SGR_END: Byte := 109
  const LF: Byte := 10
  const SPACE: Byte := 32

  datatype Align = Left | Center | Right

  // ---------------------------------------------------------------------------------------------
  // Width
  // ---------------------------------------------------------------------------------------------

  /** A byte of the form 10xxxxxx. */
  predicate IsContinuation(c: Byte) { 128 <= c < 192 }

  predicate StartsEscape(s: Text) { |s| > 1 && s[0] == ESC && s[1] == BRACKET }

  /** What follows an escape sequence, whose beginning has been read: it ends with an 'm', or with the text. */
  function AfterEscape(s: Text): Text {
    if s == [] then [] else if s[0] == SGR_END then s[1..] else AfterEscape(s[1..])
  }

  lemma {:induction false} AfterEscapeShorter(s: Text)
    ensures |AfterEscape(s)| <= |s|
    decreases |s|
  {
    if s != [] && s[0] != SGR_END { AfterEscapeShorter(s[1..]); }
  }

  function Columns(c: Byte): nat { if IsContinuation(c) then 0 else 1 }

  function Width(s: Text): nat
    decreases |s|
  {
    if s == [] then 0
    else if StartsEscape(s) then
      AfterEscapeShorter(s[2..]);
      Width(AfterEscape(s[2..]))
    else Columns(s[0]) + Width(s[1..])
  }

  method VisibleWidth(s: Text) returns (w: nat)
    ensures w == Width(s)
  {
    w := 0;
    var i := 0;
    while i < |s|
      invariant 0 <= i
      invariant i <= |s| ==> Width(s) == w + Width(s[i..])
      invariant i > |s| ==> Width(s) == w
      decreases |s| - i
    {
      var c := s[i];
      ghost var rest := s[i..];
      if c == ESC && i + 1 < |s| && s[i + 1] == BRACKET {
        assert rest[2..] == s[i + 2..];
        i := i + 2;
        while i < |s| && s[i] != SGR_END
          invariant 2 <= i <= |s|
          invariant AfterEscape(rest[2..]) == AfterEscape(s[i..])
        {
          i := i + 1;
        }
      } else {
        assert rest[1..] == s[i + 1..];
        if !IsContinuation(c) {
          w := w + 1;
        }
      }
      i := i + 1;
    }
  }

  /** Every escape sequence ends within the text, and no escape character stands at its end. */
  predicate Closed(s: Text)
    decreases |s|
  {
    if s == [] then true
    else if StartsEscape(s) then
      AfterEscapeShorter(s[2..]);
      SGR_END in s[2..] && Closed(AfterEscape(s[2..]))
    else (|s| > 1 || s[0] != ESC) && Closed(s[1..])
  }

  lemma {:induction false} AfterEscapeConcat(a: Text, b: Text)
    ensures SGR_END in a ==> AfterEscape(a + b) == AfterEscape(a) + b
    ensures SGR_END !in a ==> AfterEscape(a) == [] && AfterEscape(a + b) == AfterEscape(b)
    decreases |a|
  {
    if a == [] {
      assert a + b == b;
    } else {
      assert (a + b)[1..] == a[1..] + b;
      assert a == [a[0]] + a[1..];
      AfterEscapeConcat(a[1..], b);
    }
  }

  /** The width of a closed text adds to that of whatever follows. */
  lemma {:induction false} WidthAdds(a: Text, b: Text)
    requires Closed(a)
    ensures Width(a + b) == Width(a) + Width(b)
    ensures Closed(a + b) <==> Closed(b)
    decreases |a|
  {
    if a == [] {
      assert a + b == b;
    } else if StartsEscape(a) {
      assert (a + b)[2..] == a[2..] + b;
      AfterEscapeConcat(a[2..], b);
      AfterEscapeShorter(a[2..]);
      WidthAdds(AfterEscape(a[2..]), b);
    } else {
      assert (a + b)[1..] == a[1..] + b;
      WidthAdds(a[1..], b);
    }
  }

  /** A text that is not closed takes something away from what follows: an escape character, or a letter. */
  lemma {:induction false} OpenDoesNotAdd(a: Text)
    requires !Closed(a)
    ensures Width(a + [88]) != Width(a) + Width([88]) || Width(a + [BRACKET]) != Width(a) + Width([BRACKET])
    decreases |a|
  {
    var x, y: Text := [88], [BRACKET];
    if StartsEscape(a) {
      assert (a + x)[2..] == a[2..] + x && (a + y)[2..] == a[2..] + y;
      AfterEscapeConcat(a[2..], x);
      AfterEscapeConcat(a[2..], y);
      AfterEscapeShorter(a[2..]);
      if SGR_END in a[2..] {
        OpenDoesNotAdd(AfterEscape(a[2..]));
      } else {
        assert AfterEscape(x) == [];
      }
    } else if |a| > 1 || a[0] != ESC {
      assert (a + x)[1..] == a[1..] + x && (a + y)[1..] == a[1..] + y;
      OpenDoesNotAdd(a[1..]);
    } else {
      assert a == [ESC];
      assert (a + y)[2..] == [];
    }
  }

  /** Width is additive after a text exactly when the text is closed. */
  lemma AddsExactly(a: Text)
    ensures (forall b: Text :: Width(a + b) == Width(a) + Width(b)) <==> Closed(a)
  {
    if Closed(a) {
      forall b: Text { WidthAdds(a, b); }
    } else {
      OpenDoesNotAdd(a);
    }
  }

  // ---------------------------------------------------------------------------------------------
  // What the width counts
  // ---------------------------------------------------------------------------------------------

  /** A styled text: code points, and escape sequences among them. */
  datatype Piece = CodePoint(cp: nat) | Sgr(params: Text)

  predicate PieceOk(p: Piece) {
    match p
    case CodePoint(cp) => cp < 0x11_0000 && cp != ESC
    case Sgr(params) => SGR_END !in params
  }

  function Continuation(n: nat): Byte { 128 + n % 64 }

  /** UTF-8, for all its lengths. */
  function Utf8(cp: nat): Text
    requires cp < 0x11_0000
  {
    if cp < 0x80 then [cp]
    else if cp < 0x800 then [192 + cp / 64, Continuation(cp)]
    else if cp < 0x1_0000 then [224 + cp / 4096, Continuation(cp / 64), Continuation(cp)]
    else [240 + cp / 262144, Continuation(cp / 4096), Continuation(cp / 64), Continuation(cp)]
  }

  function Encode(p: Piece): Text
    requires PieceOk(p)
  {
    match p
    case CodePoint(cp) => Utf8(cp)
    case Sgr(params) => [ESC, BRACKET] + params + [SGR_END]
  }

  function EncodeAll(ps: seq<Piece>): Text
    requires forall i :: 0 <= i < |ps| ==> PieceOk(ps[i])
  {
    if ps == [] then [] else Encode(ps[0]) + EncodeAll(ps[1..])
  }

  function CodePoints(ps: seq<Piece>): nat {
    if ps == [] then 0 else (if ps[0].CodePoint? then 1 else 0) + CodePoints(ps[1..])
  }

  lemma {:induction false} ContinuationsWidth(s: Text)
    requires forall i :: 0 <= i < |s| ==> IsContinuation(s[i])
    ensures Width(s) == 0 && Closed(s)
    decreases |s|
  {
    if s != [] { ContinuationsWidth(s[1..]); }
  }

  lemma PieceWidth(p: Piece)
    requires PieceOk(p)
    ensures Closed(Encode(p)) && Width(Encode(p)) == if p.CodePoint? then 1 else 0
  {
    var e := Encode(p);
    match p
    case CodePoint(cp) => ContinuationsWidth(e[1..]);
    case Sgr(params) =>
      assert e[2..] == params + [SGR_END];
      AfterEscapeConcat(params, [SGR_END]);
      assert AfterEscape([SGR_END]) == [];
  }

  /** The visible width of a styled text is the number of its code points; its escape sequences take none. */
  lemma {:induction false} WidthIsCodePoints(ps: seq<Piece>)
    requires forall i :: 0 <= i < |ps| ==> PieceOk(ps[i])
    ensures Width(EncodeAll(ps)) == CodePoints(ps) && Closed(EncodeAll(ps))
    decreases |ps|
  {
    if ps != [] {
      PieceWidth(ps[0]);
      WidthIsCodePoints(ps[1..]);
      WidthAdds(Encode(ps[0]), EncodeAll(ps[1..]));
    }
  }

  // ---------------------------------------------------------------------------------------------
  // Lines
  // ---------------------------------------------------------------------------------------------

  /** The text cut at its line breaks: at least one line. */
  function Lines(s: Text): seq<Text>
    decreases |s|
  {
    if s == [] then [[]]
    else if s[0] == LF then [[]] + Lines(s[1..])
    else
      var rest := Lines(s[1..]);
      if rest == [] then [] else [[s[0]] + rest[0]] + rest[1..]
  }

  function Join(ls: seq<Text>): Text {
    if ls == [] then [] else if |ls| == 1 then ls[0] else ls[0] + [LF] + Join(ls[1..])
  }

  lemma JoinBreak(rest: seq<Text>)
    requires rest != []
    ensures Join([[]] + rest) == [LF] + Join(rest)
  {
    assert ([[]] + rest)[1..] == rest;
  }

  lemma JoinFront(c: Byte, rest: seq<Text>)
    requires rest != []
    ensures Join([[c] + rest[0]] + rest[1..]) == [c] + Join(rest)
  {
    assert ([[c] + rest[0]] + rest[1..])[1..] == rest[1..];
  }

  lemma {:induction false} LinesJoin(s: Text)
    ensures Lines(s) != [] && Join(Lines(s)) == s
    ensures forall i :: 0 <= i < |Lines(s)| ==> LF !in Lines(s)[i]
    decreases |s|
  {
    if s != [] {
      LinesJoin(s[1..]);
      var rest := Lines(s[1..]);
      assert s == [s[0]] + s[1..];
      if s[0] == LF {
        JoinBreak(rest);
      } else {
        JoinFront(s[0], rest);
      }
    }
  }

  /** A line in front of a text becomes its first line. */
  lemma {:induction false} LinesFront(l: Text, s: Text)
    requires LF !in l
    ensures Lines(s) != [] && Lines(l + s) == [l + Lines(s)[0]] + Lines(s)[1..]
    decreases |l|
  {
    LinesJoin(s);
    if l == [] {
      assert l + s == s && l + Lines(s)[0] == Lines(s)[0];
    } else {
      LinesFront(l[1..], s);
      assert (l + s)[1..] == l[1..] + s;
      assert [l[0]] + (l[1..] + Lines(s)[0]) == l + Lines(s)[0];
    }
  }

  /** Cutting undoes joining, for lines that are lines. */
  lemma {:induction false} JoinLines(ls: seq<Text>)
    requires ls != [] && forall i :: 0 <= i < |ls| ==> LF !in ls[i]
    ensures Lines(Join(ls)) == ls
    decreases |ls|
  {
    if |ls| == 1 {
      LinesFront(ls[0], []);
      assert ls[0] + [] == ls[0] && ls == [ls[0]];
    } else {
      JoinLines(ls[1..]);
      var tail := [LF] + Join(ls[1..]);
      assert tail[1..] == Join(ls[1..]);
      LinesFront(ls[0], tail);
      assert ls[0] + tail == Join(ls);
      assert ls[0] + [] == ls[0] && ls == [ls[0]] + ls[1..];
    }
  }

  /** With the line that runs from `start` cut off at the line break at `i`. */
  lemma CutAt(s: Text, start: nat, i: nat)
    requires start <= i < |s| && s[i] == LF && LF !in s[start..i]
    ensures Lines(s[start..]) == [s[start..i]] + Lines(s[i + 1..])
  {
    var line, tail := s[start..i], s[i..];
    assert tail[1..] == s[i + 1..];
    LinesFront(line, tail);
    assert s[start..] == line + tail && line + [] == line;
  }

  lemma WholeLine(s: Text)
    requires LF !in s
    ensures Lines(s) == [s]
  {
    LinesFront(s, []);
    assert s + [] == s;
  }

  method SplitLines(s: Text) returns (out: seq<Text>)
    ensures out == Lines(s)
  {
    out := [];
    var start := 0;
    var i := 0;
    while i < |s|
      invariant 0 <= start <= i <= |s|
      invariant LF !in s[start..i]
      invariant Lines(s) == out + Lines(s[start..])
    {
      if s[i] == LF {
        CutAt(s, start, i);
        out := out + [s[start..i]];
        start := i + 1;
      } else {
        assert s[start..i + 1] == s[start..i] + [s[i]];
      }
      i := i + 1;
    }
    assert s[start..i] == s[start..];
    WholeLine(s[start..]);
    out := out + [s[start..]];
  }

  // ---------------------------------------------------------------------------------------------
  // Flat texts and padding
  // ---------------------------------------------------------------------------------------------

  /** A closed text on one line. */
  predicate Flat(s: Text) { Closed(s) && LF !in s }

  lemma FlatConcat(a: Text, b: Text)
    requires Flat(a) && Flat(b)
    ensures Flat(a + b) && Width(a + b) == Width(a) + Width(b)
  {
    WidthAdds(a, b);
  }

  function Repeat(s: Text, n: nat): Text {
    if n == 0 then [] else s + Repeat(s, n - 1)
  }

  lemma {:induction false} RepeatFlat(s: Text, n: nat)
    requires Flat(s) && Width(s) == 1
    ensures Flat(Repeat(s, n)) && Width(Repeat(s, n)) == n
    decreases n
  {
    if n > 0 {
      RepeatFlat(s, n - 1);
      FlatConcat(s, Repeat(s, n - 1));
    }
  }

  function Spaces(n: nat): Text { Repeat([SPACE], n) }

  lemma SpacesFlat(n: nat)
    ensures Flat(Spaces(n)) && Width(Spaces(n)) == n
  {
    assert [SPACE][1..] == [];
    RepeatFlat([SPACE], n);
  }

  function Pad(t: Text, width: nat, a: Align): Text {
    if Width(t) >= width then t
    else
      var missing := width - Width(t);
      match a
      case Left => t + Spaces(missing)
      case Right => Spaces(missing) + t
      case Center => Spaces(missing / 2) + t + Spaces(missing - missing / 2)
  }

  /** Padding is exact, and leaves alone what is too wide. */
  lemma PadExact(t: Text, width: nat, a: Align)
    requires Flat(t)
    ensures Flat(Pad(t, width, a))
    ensures Width(Pad(t, width, a)) == if Width(t) >= width then Width(t) else width
  {
    if Width(t) < width {
      var missing := width - Width(t);
      SpacesFlat(missing);
      match a
      case Left => FlatConcat(t, Spaces(missing));
      case Right => FlatConcat(Spaces(missing), t);
      case Center =>
        SpacesFlat(missing / 2);
        SpacesFlat(missing - missing / 2);
        FlatConcat(Spaces(missing / 2), t);
        FlatConcat(Spaces(missing / 2) + t, Spaces(missing - missing / 2));
    }
  }

  /** Where the text stands: at the left, at the right, or between margins that differ by at most one. */
  lemma PadPlaces(t: Text, width: nat, a: Align) returns (left: nat, right: nat)
    ensures Pad(t, width, a) == Spaces(left) + t + Spaces(right)
    ensures left + right == if Width(t) >= width then 0 else width - Width(t)
    ensures (a == Left ==> left == 0) && (a == Right ==> right == 0) && (a == Center ==> left <= right <= left + 1)
  {
    var missing := if Width(t) >= width then 0 else width - Width(t);
    left := match a case Left => 0 case Right => missing case Center => missing / 2;
    right := missing - left;
    assert Spaces(0) == [] && [] + t == t && t + [] == t;
    assert Spaces(left) + t + [] == Spaces(left) + t;
  }

  method PadText(t: Text, width: nat, a: Align) returns (out: Text)
    ensures out == Pad(t, width, a)
  {
    var vw := VisibleWidth(t);
    if vw >= width {
      return t;
    }
    var missing := width - vw;
    match a
    case Left => out := t + Spaces(missing);
    case Right => out := Spaces(missing) + t;
    case Center =>
      var left := missing / 2;
      out := Spaces(left) + t + Spaces(missing - left);
  }

  // ---------------------------------------------------------------------------------------------
  // Pieces and pages
  // ---------------------------------------------------------------------------------------------

  function Flatten(pieces: seq<Text>): Text {
    if pieces == [] then [] else Flatten(pieces[..|pieces| - 1]) + pieces[|pieces| - 1]
  }

  /** Lines, each with its line break. */
  function Page(ls: seq<Text>): Text {
    if ls == [] then [] else Page(ls[..|ls| - 1]) + ls[|ls| - 1] + [LF]
  }

  lemma PageAdd(ls: seq<Text>, l: Text)
    ensures Page(ls + [l]) == Page(ls) + l + [LF]
  {
    assert (ls + [l])[..|ls|] == ls;
  }

  lemma FlattenAdd(pieces: seq<Text>, k: nat)
    requires k < |pieces|
    ensures Flatten(pieces[..k + 1]) == Flatten(pieces[..k]) + pieces[k]
  {
    assert pieces[..k + 1][..k] == pieces[..k];
  }

  lemma {:induction false} JoinAdd(ls: seq<Text>, l: Text)
    requires ls != []
    ensures Join(ls + [l]) == Join(ls) + [LF] + l
    decreases |ls|
  {
    assert (ls + [l])[1..] == ls[1..] + [l];
    if |ls| > 1 { JoinAdd(ls[1..], l); }
  }

  /** A page is its lines joined, and a last line break. */
  lemma {:induction false} PageIsJoin(ls: seq<Text>)
    requires ls != []
    ensures Page(ls) == Join(ls) + [LF]
    decreases |ls|
  {
    var n := |ls| - 1;
    if n > 0 {
      PageIsJoin(ls[..n]);
      JoinAdd(ls[..n], ls[n]);
      assert ls == ls[..n] + [ls[n]];
    } else {
      assert ls[..n] == [];
    }
  }

  /** What is printed, with the last line break or without it, cuts into the lines that were put together. */
  lemma PageLines(ls: seq<Text>)
    requires ls != [] && forall i :: 0 <= i < |ls| ==> LF !in ls[i]
    ensures Lines(Join(ls)) == ls && Lines(Page(ls)) == ls + [[]]
  {
    JoinLines(ls);
    PageIsJoin(ls);
    JoinLines(ls + [[]]);
    JoinAdd(ls, []);
    assert Join(ls) + [LF] + [] == Join(ls) + [LF];
  }
}
