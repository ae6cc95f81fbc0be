/**
 * What a reader sees in a box and in a table: said of the lines of the output, by the texts that
 * stand in them, and not by how the lines are put together.
 */
module LayoutContent {
  import opened Layout
  import opened TableLayout

  /** `s` as it is, or in the style and ended. */
  predicate InStyle(style: Text, s: Text, shown: Text) {
    if style == [] then shown == s else shown == style + s + RESET
  }

  // ---------------------------------------------------------------------------------------------
  // The box
  // ---------------------------------------------------------------------------------------------

  /** A bar, exactly the padding, the text, and nothing but spaces up to the closing bar. */
  ghost predicate ShowsLine(b: Box, line: Text, text: Text) {
    exists bar: Text, fill: nat ::
      && InStyle(b.borderStyle, b.glyphs.vertical, bar) && fill >= b.padding
      && line == bar + Spaces(b.padding) + text + Spaces(fill) + bar
  }

  /** The title between two spaces, in the middle of the border up to one column; or the border alone. */
  ghost predicate ShowsTitle(b: Box, line: Text) {
    exists border: Text, left: nat, right: nat ::
      && InStyle(b.borderStyle, border, line) && left <= right <= left + 1
      && border == b.glyphs.topLeft + Repeat(b.glyphs.horizontal, left)
                   + (if b.title == [] then [] else [SPACE] + b.title + [SPACE])
                   + Repeat(b.glyphs.horizontal, right) + b.glyphs.topRight
  }

  ghost predicate ShowsBottom(b: Box, line: Text) {
    exists border: Text, n: nat ::
      InStyle(b.borderStyle, border, line) && border == b.glyphs.bottomLeft + Repeat(b.glyphs.horizontal, n) + b.glyphs.bottomRight
  }

  /** The output is a frame around exactly the lines of the body, in order. */
  ghost predicate ShowsBox(b: Box, out: Text) {
    var body, lines := Lines(b.body), Lines(out);
    && |lines| == |body| + 2 + (if b.terminate then 1 else 0)
    && ShowsTitle(b, lines[0])
    && (forall i :: 0 <= i < |body| ==> ShowsLine(b, lines[i + 1], body[i]))
    && ShowsBottom(b, lines[|body| + 1])
    && (b.terminate ==> lines[|body| + 2] == [])
  }

  lemma Grouped(a: Text, b: Text, c: Text)
    ensures a + (b + c) == a + b + c
  {
  }

  lemma {:induction false} RepeatAdds(s: Text, m: nat, n: nat)
    ensures Repeat(s, m) + Repeat(s, n) == Repeat(s, m + n)
    decreases m
  {
    if m > 0 {
      RepeatAdds(s, m - 1, n);
      Grouped(s, Repeat(s, m - 1), Repeat(s, n));
    } else {
      var rest := Repeat(s, n);
      assert [] + rest == rest;
    }
  }

  lemma PlainBorder(g: Glyphs, left: nat, right: nat)
    ensures g.topLeft + Repeat(g.horizontal, left) + [] + Repeat(g.horizontal, right) + g.topRight ==
            g.topLeft + Repeat(g.horizontal, left + right) + g.topRight
  {
    RepeatAdds(g.horizontal, left, right);
    LastSpaces(g.topLeft, Repeat(g.horizontal, left), Repeat(g.horizontal, right), g.topRight);
    assert g.topLeft + Repeat(g.horizontal, left) + [] == g.topLeft + Repeat(g.horizontal, left);
  }

  lemma TitleBorder(topLeft: Text, l: Text, title: Text, r: Text, topRight: Text)
    ensures topLeft + l + ([SPACE] + title + [SPACE]) + r + topRight == Titled(topLeft, l, title, r, topRight)
  {
  }

  lemma UntitledShown(b: Box)
    requires b.title == []
    ensures ShowsTitle(b, WrapBorder(b, BoxTop(b)))
  {
    var left := Span(b) / 2;
    PlainBorder(b.glyphs, left, Span(b) - left);
    NoTitlePlaced(b, WrapBorder(b, BoxTop(b)), BoxTop(b), left, Span(b) - left);
  }

  lemma NoTitlePlaced(b: Box, line: Text, border: Text, left: nat, right: nat)
    requires b.title == [] && InStyle(b.borderStyle, border, line) && left <= right <= left + 1
    requires border == b.glyphs.topLeft + Repeat(b.glyphs.horizontal, left) + [] + Repeat(b.glyphs.horizontal, right) + b.glyphs.topRight
    ensures ShowsTitle(b, line)
  {
  }

  lemma TitlePlaced(b: Box, line: Text, border: Text, left: nat, right: nat)
    requires b.title != [] && InStyle(b.borderStyle, border, line) && left <= right <= left + 1
    requires border == b.glyphs.topLeft + Repeat(b.glyphs.horizontal, left) + ([SPACE] + b.title + [SPACE])
                       + Repeat(b.glyphs.horizontal, right) + b.glyphs.topRight
    ensures ShowsTitle(b, line)
  {
  }

  lemma TitledShown(b: Box)
    requires b.title != []
    ensures ShowsTitle(b, WrapBorder(b, BoxTop(b)))
  {
    var g, bars := b.glyphs, Span(b) - (Width(b.title) + 2);
    TitleBorder(g.topLeft, Repeat(g.horizontal, bars / 2), b.title, Repeat(g.horizontal, bars - bars / 2), g.topRight);
    TitlePlaced(b, WrapBorder(b, BoxTop(b)), BoxTop(b), bars / 2, bars - bars / 2);
  }

  lemma TitleShown(b: Box)
    ensures ShowsTitle(b, WrapBorder(b, BoxTop(b)))
  {
    if b.title == [] { UntitledShown(b); } else { TitledShown(b); }
  }

  lemma LineShown(b: Box, text: Text)
    requires Width(text) + 2 * b.padding <= Span(b)
    ensures ShowsLine(b, BoxLine(b, text), text)
  {
    var bar, fill := WrapBorder(b, b.glyphs.vertical), Span(b) - 2 * b.padding - Width(text);
    RepeatAdds([SPACE], fill, b.padding);
    LastSpaces(bar + Spaces(b.padding) + text, Spaces(fill), Spaces(b.padding), bar);
    assert InStyle(b.borderStyle, b.glyphs.vertical, bar);
    assert BoxLine(b, text) == bar + Spaces(b.padding) + text + Spaces(fill + b.padding) + bar;
  }

  lemma LastSpaces(a: Text, b: Text, c: Text, d: Text)
    ensures a + b + c + d == a + (b + c) + d
  {
  }

  lemma BottomShown(b: Box)
    ensures ShowsBottom(b, WrapBorder(b, BoxBottom(b)))
  {
    assert InStyle(b.borderStyle, BoxBottom(b), WrapBorder(b, BoxBottom(b)));
  }

  /** Every line of the body is in the box, once, in its place, and nothing else is but the frame and the title. */
  lemma BoxShown(b: Box)
    requires BoxPrintable(b)
    ensures ShowsBox(b, BoxRendered(b))
  {
    BoxIsRectangular(b);
    TitleShown(b);
    BottomShown(b);
    var body := Lines(b.body);
    forall i | 0 <= i < |body| ensures ShowsLine(b, Lines(BoxRendered(b))[i + 1], body[i]) {
      BoxLineFits(b, i);
      LineShown(b, body[i]);
      assert BoxLines(b)[i + 1] == BoxBody(b)[i];
    }
  }

  // ---------------------------------------------------------------------------------------------
  // The cells of a table
  // ---------------------------------------------------------------------------------------------

  /** Between a bar and a space and a space and a bar, at column `c` of the table, there is `shown`. */
  ghost predicate Between(g: Glyphs, ws: seq<nat>, line: Text, c: nat, shown: Text) {
    && c < |ws|
    && exists before: Text, after: Text ::
         && line == before + g.vertical + [SPACE] + shown + [SPACE] + after
         && Width(before) == Taken(ws, c) && g.vertical <= after
  }

  predicate Aligned(a: Align, left: nat, right: nat) {
    match a
    case Left => left == 0
    case Right => right == 0
    case Center => left <= right <= left + 1
  }

  /** The text fills its column with spaces, and stands as the column, or else the table, is aligned. */
  ghost predicate ShowsCell(opts: Options, ws: seq<nat>, line: Text, c: nat, text: Text) {
    exists left: nat, right: nat ::
      && c < |ws| && left + Width(text) + right == ws[c]
      && (if c < |opts.columnAligns| then Aligned(opts.columnAligns[c], left, right) else Aligned(opts.defaultAlign, left, right))
      && Between(opts.glyphs, ws, line, c, Spaces(left) + text + Spaces(right))
  }

  /** A header stands at the left of its column, in the header style if there is one. */
  ghost predicate ShowsHeader(opts: Options, ws: seq<nat>, line: Text, c: nat, text: Text) {
    exists fill: nat, shown: Text ::
      && c < |ws| && Width(text) + fill == ws[c]
      && InStyle(opts.headerStyle, text + Spaces(fill), shown)
      && Between(opts.glyphs, ws, line, c, shown)
  }

  predicate AllBegin(bar: Text, pieces: seq<Text>) {
    forall c :: 0 <= c < |pieces| ==> bar <= pieces[c]
  }

  lemma {:induction false} BarsFollow(bar: Text, pieces: seq<Text>, c: nat, k: nat) returns (after: Text)
    requires AllBegin(bar, pieces) && c < k <= |pieces|
    ensures Flatten(pieces[..k]) == Flatten(pieces[..c]) + pieces[c] + after
    ensures bar <= after + bar
    decreases k
  {
    FlattenAdd(pieces, k - 1);
    if c == k - 1 {
      after := [];
    } else {
      var rest := BarsFollow(bar, pieces, c, k - 1);
      after := rest + pieces[k - 1];
      assert bar <= pieces[k - 1];
      BarStays(bar, rest, pieces[k - 1]);
    }
  }

  /** What begins with the bar when a bar follows also does when a piece follows that begins with one. */
  lemma BarStays(bar: Text, rest: Text, piece: Text)
    requires bar <= rest + bar && bar <= piece
    ensures bar <= rest + piece + bar
  {
    assert forall i :: 0 <= i < |bar| ==> (rest + bar)[i] == bar[i];
    forall i | 0 <= i < |bar| ensures (rest + piece + bar)[i] == bar[i] {
      if i >= |rest| {
        assert (rest + bar)[i] == bar[i - |rest|];
        assert (rest + piece + bar)[i] == piece[i - |rest|];
      }
    }
  }

  lemma PieceBetween(g: Glyphs, ws: seq<nat>, pieces: seq<Text>, c: nat, shown: Text)
    requires |pieces| == |ws| && c < |ws| && AllBegin(g.vertical, pieces) && pieces[c] == CellPiece(g, shown)
    requires PiecesFit(pieces, ws)
    ensures Between(g, ws, PiecesLine(g, pieces), c, shown)
  {
    var rest := BarsFollow(g.vertical, pieces, c, |pieces|);
    assert pieces[..|pieces|] == pieces;
    FlattenFits(pieces, ws, c);
    var before, after := Flatten(pieces[..c]), rest + g.vertical;
    PiecesOf(before, g.vertical, shown, rest);
    assert PiecesLine(g, pieces) == before + g.vertical + [SPACE] + shown + [SPACE] + after;
  }

  lemma PiecesOf(before: Text, bar: Text, shown: Text, rest: Text)
    ensures before + (bar + [SPACE] + shown + [SPACE]) + rest + bar == before + bar + [SPACE] + shown + [SPACE] + (rest + bar)
  {
  }

  lemma HeaderBetween(opts: Options, t: Content, ws: seq<nat>, c: nat)
    requires Printable(opts, t) && ws == Widths(opts, t) && c < |t.headers|
    ensures ShowsHeader(opts, ws, PiecesLine(opts.glyphs, HeaderPieces(opts, t, ws)), c, t.headers[c])
  {
    var pieces := HeaderPieces(opts, t, ws);
    HeaderPiecesFit(opts, t);
    HeaderFits(opts, t, c);
    var left, fill := PadPlaces(t.headers[c], ws[c], Left);
    assert Spaces(0) + t.headers[c] == t.headers[c];
    var padded := Pad(t.headers[c], ws[c], Left);
    var shown := if opts.headerStyle != [] then Colorize(opts.headerStyle, padded) else padded;
    HeadersBegin(opts, t, ws);
    PieceBetween(opts.glyphs, ws, pieces, c, shown);
    assert InStyle(opts.headerStyle, t.headers[c] + Spaces(fill), shown);
  }

  lemma HeadersBegin(opts: Options, t: Content, ws: seq<nat>)
    ensures AllBegin(opts.glyphs.vertical, HeaderPieces(opts, t, ws))
  {
  }

  lemma CellsBegin(opts: Options, t: Content, ws: seq<nat>, r: nat, l: nat)
    ensures AllBegin(opts.glyphs.vertical, BodyPieces(opts, t, ws, r, l))
  {
  }

  /** Every header stands in the line below the top border, in its column, whatever its style. */
  lemma HeaderShown(opts: Options, t: Content, c: nat)
    requires Printable(opts, t) && c < |t.headers|
    ensures |Lines(Rendered(opts, t))| > 1
    ensures ShowsHeader(opts, Widths(opts, t), Lines(Rendered(opts, t))[1], c, t.headers[c])
  {
    var ws := Widths(opts, t);
    TableIsRectangular(opts, t);
    HeaderBetween(opts, t, ws, c);
    HeaderIsSecond(opts, t, ws);
  }

  lemma HeaderIsSecond(opts: Options, t: Content, ws: seq<nat>)
    requires ws == Widths(opts, t) && t.headers != []
    ensures |TableLines(opts, t)| > 1 && TableLines(opts, t)[1] == PiecesLine(opts.glyphs, HeaderPieces(opts, t, ws))
  {
    TableParts(opts, t, ws);
    assert Head(opts, t, ws)[1] == PiecesLine(opts.glyphs, HeaderPieces(opts, t, ws));
  }

  lemma CellBetween(opts: Options, t: Content, ws: seq<nat>, c: nat, r: nat, l: nat)
    requires Printable(opts, t) && ws == Widths(opts, t) && c < |ws|
    ensures ShowsCell(opts, ws, BodyLine(opts, t, ws, r, l), c, LineAt(t, c, r, l))
  {
    var text, pieces := LineAt(t, c, r, l), BodyPieces(opts, t, ws, r, l);
    BodyPiecesFit(opts, t, r, l);
    LineFits(opts, t, c, r, l);
    var left, right := PadPlaces(text, ws[c], CellAlignFor(opts, c));
    CellsBegin(opts, t, ws, r, l);
    PieceBetween(opts.glyphs, ws, pieces, c, Spaces(left) + text + Spaces(right));
    CellPlaced(opts, ws, BodyLine(opts, t, ws, r, l), c, text, left, right);
  }

  lemma CellPlaced(opts: Options, ws: seq<nat>, line: Text, c: nat, text: Text, left: nat, right: nat)
    requires c < |ws| && left + Width(text) + right == ws[c] && Aligned(CellAlignFor(opts, c), left, right)
    requires Between(opts.glyphs, ws, line, c, Spaces(left) + text + Spaces(right))
    ensures ShowsCell(opts, ws, line, c, text)
  {
  }

  /**
   * Every line of every cell that is printed stands in its line of the output, in its column, filled
   * up with spaces at the sides that the alignment of the column says; below its last line a cell is blank.
   */
  lemma CellAligned(opts: Options, t: Content, c: nat, r: nat, l: nat)
    requires Printable(opts, t) && c < ColCount(t) && r < RowCount(t) && l < RowHeight(t, r)
    ensures LineOf(opts, t, r, l) < |Lines(Rendered(opts, t))|
    ensures ShowsCell(opts, Widths(opts, t), Lines(Rendered(opts, t))[LineOf(opts, t, r, l)], c,
                      if l < |CellAt(t, c, r)| then CellAt(t, c, r)[l] else [])
  {
    var ws := Widths(opts, t);
    TableIsRectangular(opts, t);
    RowShown(opts, t, r, l);
    CellBetween(opts, t, ws, c, r, l);
  }

  // ---------------------------------------------------------------------------------------------
  // The borders of a table
  // ---------------------------------------------------------------------------------------------

  function Around(before: Text, middle: Text, after: Text): Text { before + middle + after }

  /** At column `at` of the line there is the run, after `left` if it is the first and before `end`, which ends the line after the last. */
  ghost predicate HasRun(line: Text, run: Text, at: nat, first: bool, left: Text, last: bool, end: Text) {
    exists before: Text, after: Text ::
      && line == Around(before, run, after) && Width(before) == at
      && (first ==> before == left) && (if last then after == end else end <= after)
  }

  /** Over column `c` a run of the horizontal glyph, two wider than the column, between the glyphs for ends and junctions. */
  ghost predicate ShowsRun(g: Glyphs, ws: seq<nat>, line: Text, c: nat, left: Text, junction: Text, right: Text) {
    && c < |ws|
    && HasRun(line, Repeat(g.horizontal, ws[c] + 2), Taken(ws, c) + 1, c == 0, left, c + 1 == |ws|,
              if c + 1 == |ws| then right else junction)
  }

  ghost predicate ShowsBorder(g: Glyphs, ws: seq<nat>, line: Text, left: Text, junction: Text, right: Text) {
    forall c :: 0 <= c < |ws| ==> ShowsRun(g, ws, line, c, left, junction, right)
  }

  lemma RunOf(left: Text, front: Text, bars: Text, end: Text, rest: Text, right: Text)
    ensures left + (front + (bars + end) + rest) + right == Around(left + front, bars, end + rest + right)
  {
  }

  lemma RunShown(g: Glyphs, ws: seq<nat>, c: nat, left: Text, junction: Text, right: Text)
    requires Glyph(g.horizontal) && Glyph(left) && Glyph(junction) && c < |ws|
    ensures ShowsRun(g, ws, BorderLine(g, ws, left, junction, right), c, left, junction, right)
  {
    var pieces := BorderPieces(g, ws, junction);
    var rest := FlattenSplit(pieces, c, |pieces|);
    assert pieces[..|pieces|] == pieces;
    var bars, end, front := Repeat(g.horizontal, ws[c] + 2), if c + 1 < |ws| then junction else [], Flatten(pieces[..c]);
    RunBegins(g, ws, c, left, junction);
    RunOf(left, front, bars, end, rest, right);
    if c + 1 == |ws| { LastRun(pieces, c, rest); }
    RunPlaced(BorderLine(g, ws, left, junction, right), bars, Taken(ws, c) + 1, c == 0, left, c + 1 == |ws|,
              if c + 1 == |ws| then right else junction, left + front, end + rest + right);
  }

  lemma RunBegins(g: Glyphs, ws: seq<nat>, c: nat, left: Text, junction: Text)
    requires Glyph(g.horizontal) && Glyph(left) && Glyph(junction) && c < |ws|
    ensures Width(left + Flatten(BorderPieces(g, ws, junction)[..c])) == Taken(ws, c) + 1
  {
    BorderFits(g, ws, junction, c);
    FlatConcat(left, Flatten(BorderPieces(g, ws, junction)[..c]));
  }

  lemma RunPlaced(line: Text, run: Text, at: nat, first: bool, left: Text, last: bool, end: Text, before: Text, after: Text)
    requires line == Around(before, run, after) && Width(before) == at
    requires (first ==> before == left) && (if last then after == end else end <= after)
    ensures HasRun(line, run, at, first, left, last, end)
  {
  }

  lemma LastRun(pieces: seq<Text>, c: nat, rest: Text)
    requires c + 1 == |pieces| && Flatten(pieces) == Flatten(pieces[..c]) + pieces[c] + rest
    ensures rest == []
  {
    FlattenAdd(pieces, c);
    assert pieces[..c + 1] == pieces;
    assert |Flatten(pieces)| == |Flatten(pieces[..c]) + pieces[c]| + |rest|;
  }

  lemma BorderShown(g: Glyphs, ws: seq<nat>, left: Text, junction: Text, right: Text)
    requires Glyph(g.horizontal) && Glyph(left) && Glyph(junction)
    ensures ShowsBorder(g, ws, BorderLine(g, ws, left, junction, right), left, junction, right)
  {
    forall c | 0 <= c < |ws| ensures ShowsRun(g, ws, BorderLine(g, ws, left, junction, right), c, left, junction, right) {
      RunShown(g, ws, c, left, junction, right);
    }
  }

  /** Where the border stands that follows row `r`. */
  function BorderAfter(opts: Options, t: Content, r: nat): nat { LineOf(opts, t, r, RowHeight(t, r)) }

  /** A border at the top, at the bottom, under the headers if rows follow, and between any two rows. */
  ghost predicate FramedBy(opts: Options, t: Content, lines: seq<Text>) {
    var g, ws := opts.glyphs, Widths(opts, t);
    && |lines| >= 2
    && ShowsBorder(g, ws, lines[0], g.topLeft, g.teeTop, g.topRight)
    && ShowsBorder(g, ws, lines[|lines| - 1], g.bottomLeft, g.teeBottom, g.bottomRight)
    && (t.headers != [] && RowCount(t) > 0 ==> |lines| > 2 && ShowsBorder(g, ws, lines[2], g.teeLeft, g.cross, g.teeRight))
    && (forall r :: 0 <= r < RowCount(t) - 1 ==>
          && BorderAfter(opts, t, r) < |lines|
          && ShowsBorder(g, ws, lines[BorderAfter(opts, t, r)], g.teeLeft, g.cross, g.teeRight))
  }

  lemma {:induction false} StackedBetween(t: Content, blocks: seq<seq<Text>>, between: Text, r: nat, k: nat)
    requires r < k <= |blocks| && r + 1 < |blocks| && Heights(t, blocks)
    ensures RowOffset(t, r) + |blocks[r]| < |Stacked(blocks, between, k)|
    ensures Stacked(blocks, between, k)[RowOffset(t, r) + |blocks[r]|] == between
    decreases k
  {
    var inner := Stacked(blocks, between, k - 1);
    StackedLength(t, blocks, between, k - 1);
    if r < k - 1 {
      StackedBetween(t, blocks, between, r, k - 1);
      assert Stacked(blocks, between, k)[RowOffset(t, r) + |blocks[r]|] == inner[RowOffset(t, r) + |blocks[r]|];
    }
  }

  lemma BetweenPlaced(t: Content, head: seq<Text>, blocks: seq<seq<Text>>, between: Text, bottom: Text, r: nat,
                      lines: seq<Text>, at: nat)
    requires r + 1 < |blocks| && Heights(t, blocks)
    requires at == |head| + RowOffset(t, r) + |blocks[r]| && lines == head + Stacked(blocks, between, |blocks|) + [bottom]
    ensures at < |lines| && lines[at] == between
  {
    StackedBetween(t, blocks, between, r, |blocks|);
    LineInBody(head, Stacked(blocks, between, |blocks|), bottom, RowOffset(t, r) + |blocks[r]|);
  }

  lemma MiddlePlaced(opts: Options, t: Content, r: nat)
    requires r + 1 < RowCount(t)
    ensures BorderAfter(opts, t, r) < |TableLines(opts, t)|
    ensures TableLines(opts, t)[BorderAfter(opts, t, r)] == MiddleLine(opts, Widths(opts, t))
  {
    var ws := Widths(opts, t);
    TableParts(opts, t, ws);
    BlockHeights(opts, t, ws);
    BlockHeight(opts, t, ws, r);
    BorderAfterIs(opts, t, ws, r);
    BetweenPlaced(t, Head(opts, t, ws), Blocks(opts, t, ws), MiddleLine(opts, ws), BottomLine(opts, ws), r,
                  TableLines(opts, t), BorderAfter(opts, t, r));
  }

  lemma BorderAfterIs(opts: Options, t: Content, ws: seq<nat>, r: nat)
    requires ws == Widths(opts, t)
    ensures BorderAfter(opts, t, r) == |Head(opts, t, ws)| + RowOffset(t, r) + RowHeight(t, r)
  {
  }

  lemma BlockHeight(opts: Options, t: Content, ws: seq<nat>, r: nat)
    requires r < RowCount(t)
    ensures |Blocks(opts, t, ws)[r]| == RowHeight(t, r)
  {
  }

  lemma LineInBody(head: seq<Text>, body: seq<Text>, bottom: Text, at: nat)
    requires at < |body|
    ensures (head + body + [bottom])[|head| + at] == body[at]
  {
  }

  lemma EndsPlaced(opts: Options, t: Content)
    ensures var lines, ws := TableLines(opts, t), Widths(opts, t);
      && |lines| >= 2 && lines[0] == TopLine(opts, ws) && lines[|lines| - 1] == BottomLine(opts, ws)
      && (t.headers != [] && RowCount(t) > 0 ==> |lines| > 2 && lines[2] == MiddleLine(opts, ws))
  {
    var ws := Widths(opts, t);
    TableParts(opts, t, ws);
    var head := Head(opts, t, ws);
    assert head[0] == TopLine(opts, ws);
    if t.headers != [] && RowCount(t) > 0 { assert head[2] == MiddleLine(opts, ws); }
  }

  /** The lines of the output are framed, and besides the borders there are as many as the headers and the rows need. */
  lemma TableFramed(opts: Options, t: Content)
    requires Printable(opts, t) && !(t.headers == [] && t.columns == [])
    ensures var lines := Lines(Rendered(opts, t));
            var n := |lines| - (if opts.terminate then 1 else 0);
            n > 0 && FramedBy(opts, t, lines[..n])
  {
    var lines, g, ws := TableLines(opts, t), opts.glyphs, Widths(opts, t);
    TableIsRectangular(opts, t);
    assert Lines(Rendered(opts, t))[..|lines|] == lines;
    EndsPlaced(opts, t);
    BorderShown(g, ws, g.topLeft, g.teeTop, g.topRight);
    BorderShown(g, ws, g.bottomLeft, g.teeBottom, g.bottomRight);
    BorderShown(g, ws, g.teeLeft, g.cross, g.teeRight);
    forall r | 0 <= r < RowCount(t) - 1
      ensures BorderAfter(opts, t, r) < |lines| && lines[BorderAfter(opts, t, r)] == MiddleLine(opts, ws)
    {
      MiddlePlaced(opts, t, r);
    }
  }

  // ---------------------------------------------------------------------------------------------
  // No wider than need be
  // ---------------------------------------------------------------------------------------------

  lemma {:induction false} WidestIsThere(texts: seq<Text>, least: nat)
    ensures MaxWidth(texts, least) == least || exists i :: 0 <= i < |texts| && Width(texts[i]) == MaxWidth(texts, least)
    decreases |texts|
  {
    if texts != [] {
      var n := |texts| - 1;
      WidestIsThere(texts[..n], least);
      if MaxWidth(texts, least) == Width(texts[n]) {
      } else if MaxWidth(texts[..n], least) != least {
        var i :| 0 <= i < n && Width(texts[..n][i]) == MaxWidth(texts[..n], least);
        assert Width(texts[i]) == MaxWidth(texts, least);
      }
    }
  }

  lemma {:induction false} CellLineIs(cells: seq<Text>, i: nat) returns (r: nat, l: nat)
    requires i < |CellLines(cells)|
    ensures r < |cells| && l < |Lines(cells[r])| && Lines(cells[r])[l] == CellLines(cells)[i]
    decreases |cells|
  {
    var n := |cells| - 1;
    if i < |CellLines(cells[..n])| {
      r, l := CellLineIs(cells[..n], i);
    } else {
      r, l := n, i - |CellLines(cells[..n])|;
    }
  }

  lemma {:induction false} HighestIsThere(t: Content, r: nat, k: nat) returns (c: nat)
    requires 0 < k
    ensures c < k && |CellAt(t, c, r)| == HeightUpTo(t, r, k)
    decreases k
  {
    c := k - 1;
    if k > 1 {
      var d := HighestIsThere(t, r, k - 1);
      if |CellAt(t, c, r)| < |CellAt(t, d, r)| { c := d; }
      HeightPositive(t, r, k - 1);
    }
    LinesJoin(if k - 1 < |t.columns| && r < |t.columns[k - 1]| then t.columns[k - 1][r] else []);
  }

  /** A row is as high as its highest cell. */
  lemma RowIsTight(t: Content, r: nat) returns (c: nat)
    requires ColCount(t) > 0
    ensures c < ColCount(t) && RowHeight(t, r) == |CellAt(t, c, r)|
    ensures forall d :: 0 <= d < ColCount(t) ==> |CellAt(t, d, r)| <= RowHeight(t, r)
  {
    c := HighestIsThere(t, r, ColCount(t));
    forall d | 0 <= d < ColCount(t) ensures |CellAt(t, d, r)| <= RowHeight(t, r) { HeightCovers(t, r, ColCount(t), d); }
  }

  /** Something of the column is as wide as `w`. */
  ghost predicate Fills(t: Content, c: nat, w: nat) {
    || (c < |t.headers| && Width(t.headers[c]) == w)
    || (exists r: nat, l: nat :: c < |t.columns| && r < |t.columns[c]| && l < |CellAt(t, c, r)| && Width(CellAt(t, c, r)[l]) == w)
  }

  /** A column is as wide as the least width asked for, or as its widest header or line. */
  lemma ColumnIsTight(opts: Options, t: Content, c: nat)
    requires c < ColCount(t)
    ensures var w := Widths(opts, t)[c];
      && w >= opts.minWidth && (w == opts.minWidth || Fills(t, c, w))
      && (c < |t.headers| ==> Width(t.headers[c]) <= w)
      && (forall r: nat, l: nat :: c < |t.columns| && r < |t.columns[c]| && l < |CellAt(t, c, r)| ==> Width(CellAt(t, c, r)[l]) <= w)
  {
    var texts, w := ColumnTexts(t, c), Widths(opts, t)[c];
    WidestIsThere(texts, opts.minWidth);
    AtLeastMin(texts, opts.minWidth);
    if w != opts.minWidth {
      var i :| 0 <= i < |texts| && Width(texts[i]) == w;
      TextFills(t, c, i);
    }
    if c < |t.headers| { HeaderFits(opts, t, c); }
    forall r: nat, l: nat | c < |t.columns| && r < |t.columns[c]| && l < |CellAt(t, c, r)|
      ensures Width(CellAt(t, c, r)[l]) <= w
    {
      LineFits(opts, t, c, r, l);
    }
  }

  lemma {:induction false} AtLeastMin(texts: seq<Text>, least: nat)
    ensures MaxWidth(texts, least) >= least
    decreases |texts|
  {
    if texts != [] { AtLeastMin(texts[..|texts| - 1], least); }
  }

  lemma TextFills(t: Content, c: nat, i: nat)
    requires i < |ColumnTexts(t, c)|
    ensures Fills(t, c, Width(ColumnTexts(t, c)[i]))
  {
    var header := if c < |t.headers| then 1 else 0;
    if i >= header {
      var r, l := CellLineIs(t.columns[c], i - header);
      assert CellAt(t, c, r)[l] == ColumnTexts(t, c)[i];
    }
  }

  /** A box is as wide as its widest line and the padding need, or its title. */
  lemma BoxIsTight(b: Box)
    ensures || (exists i :: 0 <= i < |Lines(b.body)| && Span(b) == Width(Lines(b.body)[i]) + 2 * b.padding)
            || (b.title != [] && Span(b) == Width(b.title) + 4)
  {
    var body := Lines(b.body);
    WidestIsThere(body, 0);
    LinesJoin(b.body);
    if Inner(b) == 0 { MaxWidthBounds(body, 0, 0); }
  }
}
