/**
 * Tables and boxes: what render_table and Box produce, and why every line of it is equally wide.
 */
module TableLayout {
  import opened Layout

  datatype Glyphs = Glyphs(
    horizontal: Text, vertical: Text,
    topLeft: Text, topRight: Text, bottomLeft: Text, bottomRight: Text,
    teeTop: Text, teeBottom: Text, teeLeft: Text, teeRight: Text, cross: Text
  )

  /** A glyph of one column. */
  predicate Glyph(t: Text) { Flat(t) && Width(t) == 1 }

  predicate GlyphsOk(g: Glyphs) {
    && Glyph(g.horizontal) && Glyph(g.vertical)
    && Glyph(g.topLeft) && Glyph(g.topRight) && Glyph(g.bottomLeft) && Glyph(g.bottomRight)
    && Glyph(g.teeTop) && Glyph(g.teeBottom) && Glyph(g.teeLeft) && Glyph(g.teeRight) && Glyph(g.cross)
  }

  /** The sequence that ends a style. */
  const RESET: Text := [ESC, BRACKET, 48, SGR_END]

  function Colorize(code: Text, text: Text): Text { code + text + RESET }

  /** A prefix that takes no column. */
  predicate Style(code: Text) { Flat(code) && Width(code) == 0 }

  lemma ResetIsStyle()
    ensures Style(RESET)
  {
    var r := RESET;
    var tail := r[2..];
    assert tail == [48, SGR_END] && tail[1..] == [SGR_END] && tail[1..][1..] == [];
    assert tail[1] == SGR_END;
    assert AfterEscape(tail) == [];
    assert StartsEscape(r) && Closed(r);
    assert r[0] != LF && r[1] != LF && r[2] != LF && r[3] != LF;
  }

  lemma ColorizeWidth(code: Text, text: Text)
    requires Style(code) && Flat(text)
    ensures Flat(Colorize(code, text)) && Width(Colorize(code, text)) == Width(text)
  {
    ResetIsStyle();
    FlatConcat(code, text);
    FlatConcat(code + text, RESET);
  }

  // ---------------------------------------------------------------------------------------------
  // The table
  // ---------------------------------------------------------------------------------------------

  datatype Options = Options(
    glyphs: Glyphs,
    headerStyle: Text,
    minWidth: nat,
    terminate: bool,
    defaultAlign: Align,
    columnAligns: seq<Align>
  )

  function CellAlignFor(opts: Options, c: nat): Align {
    if c < |opts.columnAligns| then opts.columnAligns[c] else opts.defaultAlign
  }

  /** Headers, and cells column by column. */
  datatype Content = Content(headers: seq<Text>, columns: seq<seq<Text>>)

  function ColCount(t: Content): nat { if t.headers == [] then |t.columns| else |t.headers| }

  function RowCount(t: Content): nat { if t.columns == [] then 0 else |t.columns[0]| }

  function Max(a: nat, b: nat): nat { if a < b then b else a }

  function MaxWidth(texts: seq<Text>, least: nat): nat {
    if texts == [] then least else Max(MaxWidth(texts[..|texts| - 1], least), Width(texts[|texts| - 1]))
  }

  /** The lines of all the cells of a column. */
  function CellLines(cells: seq<Text>): seq<Text> {
    if cells == [] then [] else CellLines(cells[..|cells| - 1]) + Lines(cells[|cells| - 1])
  }

  function ColumnTexts(t: Content, c: nat): seq<Text> {
    (if c < |t.headers| then [t.headers[c]] else []) + (if c < |t.columns| then CellLines(t.columns[c]) else [])
  }

  function ColumnWidth(opts: Options, t: Content, c: nat): nat { MaxWidth(ColumnTexts(t, c), opts.minWidth) }

  function Widths(opts: Options, t: Content): seq<nat> {
    seq(ColCount(t), c requires 0 <= c < ColCount(t) => ColumnWidth(opts, t, c))
  }

  function CellAt(t: Content, c: nat, r: nat): seq<Text> {
    if c < |t.columns| && r < |t.columns[c]| then Lines(t.columns[c][r]) else [[]]
  }

  function HeightUpTo(t: Content, r: nat, k: nat): nat {
    if k == 0 then 1
    else if k - 1 < |t.columns| && r < |t.columns[k - 1]| then
      Max(HeightUpTo(t, r, k - 1), |Lines(t.columns[k - 1][r])|)
    else HeightUpTo(t, r, k - 1)
  }

  function RowHeight(t: Content, r: nat): nat { HeightUpTo(t, r, ColCount(t)) }

  function LineAt(t: Content, c: nat, r: nat, l: nat): Text {
    if l < |CellAt(t, c, r)| then CellAt(t, c, r)[l] else []
  }

  function BorderPieces(g: Glyphs, ws: seq<nat>, junction: Text): seq<Text> {
    seq(|ws|, c requires 0 <= c < |ws| =>
      Repeat(g.horizontal, ws[c] + 2) + (if c + 1 < |ws| then junction else []))
  }

  function BorderLine(g: Glyphs, ws: seq<nat>, left: Text, junction: Text, right: Text): Text {
    left + Flatten(BorderPieces(g, ws, junction)) + right
  }

  function CellPiece(g: Glyphs, text: Text): Text { g.vertical + [SPACE] + text + [SPACE] }

  function HeaderPiece(opts: Options, text: Text, w: nat): Text {
    CellPiece(opts.glyphs,
      if opts.headerStyle != [] then Colorize(opts.headerStyle, Pad(text, w, Left)) else Pad(text, w, Left))
  }

  function HeaderPieces(opts: Options, t: Content, ws: seq<nat>): seq<Text> {
    seq(|ws|, c requires 0 <= c < |ws| => HeaderPiece(opts, if c < |t.headers| then t.headers[c] else [], ws[c]))
  }

  function BodyPieces(opts: Options, t: Content, ws: seq<nat>, r: nat, l: nat): seq<Text> {
    seq(|ws|, c requires 0 <= c < |ws| =>
      CellPiece(opts.glyphs, Pad(LineAt(t, c, r, l), ws[c], CellAlignFor(opts, c))))
  }

  function BodyLine(opts: Options, t: Content, ws: seq<nat>, r: nat, l: nat): Text {
    PiecesLine(opts.glyphs, BodyPieces(opts, t, ws, r, l))
  }

  function PiecesLine(g: Glyphs, pieces: seq<Text>): Text { Flatten(pieces) + g.vertical }

  function TopLine(opts: Options, ws: seq<nat>): Text {
    BorderLine(opts.glyphs, ws, opts.glyphs.topLeft, opts.glyphs.teeTop, opts.glyphs.topRight)
  }

  function MiddleLine(opts: Options, ws: seq<nat>): Text {
    BorderLine(opts.glyphs, ws, opts.glyphs.teeLeft, opts.glyphs.cross, opts.glyphs.teeRight)
  }

  function BottomLine(opts: Options, ws: seq<nat>): Text {
    BorderLine(opts.glyphs, ws, opts.glyphs.bottomLeft, opts.glyphs.teeBottom, opts.glyphs.bottomRight)
  }

  function RowLines(opts: Options, t: Content, ws: seq<nat>, r: nat): seq<Text> {
    seq(RowHeight(t, r), l requires 0 <= l < RowHeight(t, r) => BodyLine(opts, t, ws, r, l))
  }

  /** The first `k` blocks of lines, each followed by `between` unless it is the last of all. */
  function Stacked(blocks: seq<seq<Text>>, between: Text, k: nat): seq<Text>
    requires k <= |blocks|
  {
    if k == 0 then []
    else Stacked(blocks, between, k - 1) + blocks[k - 1] + (if k < |blocks| then [between] else [])
  }

  function Blocks(opts: Options, t: Content, ws: seq<nat>): seq<seq<Text>> {
    seq(RowCount(t), r requires 0 <= r < RowCount(t) => RowLines(opts, t, ws, r))
  }

  function BodyLines(opts: Options, t: Content, ws: seq<nat>): seq<Text> {
    Stacked(Blocks(opts, t, ws), MiddleLine(opts, ws), RowCount(t))
  }

  function HeadLines(opts: Options, t: Content, ws: seq<nat>): seq<Text> {
    if t.headers == [] then []
    else [PiecesLine(opts.glyphs, HeaderPieces(opts, t, ws))] + (if RowCount(t) > 0 then [MiddleLine(opts, ws)] else [])
  }

  function TableLines(opts: Options, t: Content): seq<Text> {
    var ws := Widths(opts, t);
    [TopLine(opts, ws)] + HeadLines(opts, t, ws) + BodyLines(opts, t, ws) + [BottomLine(opts, ws)]
  }

  function Rendered(opts: Options, t: Content): Text {
    if t.headers == [] && t.columns == [] then []
    else if opts.terminate then Page(TableLines(opts, t)) else Join(TableLines(opts, t))
  }

  // ---------------------------------------------------------------------------------------------
  // Every line is equally wide
  // ---------------------------------------------------------------------------------------------

  /** What the layout is for: headers on one line, and lines of cells with their escape sequences ended. */
  predicate Printable(opts: Options, t: Content) {
    && GlyphsOk(opts.glyphs) && Style(opts.headerStyle)
    && (forall c :: 0 <= c < |t.headers| ==> Flat(t.headers[c]))
    && (forall c, r :: 0 <= c < |t.columns| && 0 <= r < |t.columns[c]| ==> AllClosed(Lines(t.columns[c][r])))
  }

  predicate AllClosed(ls: seq<Text>) { forall i :: 0 <= i < |ls| ==> Closed(ls[i]) }

  /** The columns taken by the first `k` cells, each with the bar and the two spaces about it. */
  function Taken(ws: seq<nat>, k: nat): nat
    requires k <= |ws|
  {
    if k == 0 then 0 else Taken(ws, k - 1) + ws[k - 1] + 3
  }

  function TotalWidth(ws: seq<nat>): nat { Taken(ws, |ws|) + 1 }

  lemma {:induction false} MaxWidthBounds(texts: seq<Text>, least: nat, i: nat)
    requires i < |texts|
    ensures Width(texts[i]) <= MaxWidth(texts, least)
    decreases |texts|
  {
    var n := |texts| - 1;
    if i < n { MaxWidthBounds(texts[..n], least, i); }
  }

  lemma {:induction false} CellLinesHold(cells: seq<Text>, r: nat, l: nat)
    requires r < |cells| && l < |Lines(cells[r])|
    ensures Lines(cells[r])[l] in CellLines(cells)
    decreases |cells|
  {
    var n := |cells| - 1;
    if r < n { CellLinesHold(cells[..n], r, l); }
  }

  /** No line of a cell, and no header, is wider than its column. */
  lemma LineFits(opts: Options, t: Content, c: nat, r: nat, l: nat)
    ensures Width(LineAt(t, c, r, l)) <= ColumnWidth(opts, t, c)
  {
    if c < |t.columns| && r < |t.columns[c]| && l < |Lines(t.columns[c][r])| {
      CellLinesHold(t.columns[c], r, l);
      var texts := ColumnTexts(t, c);
      assert LineAt(t, c, r, l) in texts;
      var i :| 0 <= i < |texts| && texts[i] == LineAt(t, c, r, l);
      MaxWidthBounds(texts, opts.minWidth, i);
    }
  }

  lemma HeaderFits(opts: Options, t: Content, c: nat)
    requires c < |t.headers|
    ensures Width(t.headers[c]) <= ColumnWidth(opts, t, c)
  {
    assert ColumnTexts(t, c)[0] == t.headers[c];
    MaxWidthBounds(ColumnTexts(t, c), opts.minWidth, 0);
  }

  lemma LineAtFlat(opts: Options, t: Content, c: nat, r: nat, l: nat)
    requires Printable(opts, t)
    ensures Flat(LineAt(t, c, r, l))
  {
    if c < |t.columns| && r < |t.columns[c]| { LinesJoin(t.columns[c][r]); }
  }

  lemma CellPieceWidth(g: Glyphs, text: Text)
    requires Glyph(g.vertical) && Flat(text)
    ensures Flat(CellPiece(g, text)) && Width(CellPiece(g, text)) == Width(text) + 3
  {
    var space: Text := [SPACE];
    SpaceIsGlyph();
    FlatConcat(g.vertical, space);
    FlatConcat(g.vertical + space, text);
    FlatConcat(g.vertical + space + text, space);
  }

  /** Pieces that fit the columns, with the bar that ends the line. */
  predicate PiecesFit(pieces: seq<Text>, ws: seq<nat>) {
    && |pieces| == |ws|
    && forall c :: 0 <= c < |ws| ==> Flat(pieces[c]) && Width(pieces[c]) == ws[c] + 3
  }

  lemma {:induction false} FlattenFits(pieces: seq<Text>, ws: seq<nat>, k: nat)
    requires PiecesFit(pieces, ws) && k <= |ws|
    ensures Flat(Flatten(pieces[..k])) && Width(Flatten(pieces[..k])) == Taken(ws, k)
    decreases k
  {
    if k > 0 {
      FlattenFits(pieces, ws, k - 1);
      FlattenAdd(pieces, k - 1);
      FlatConcat(Flatten(pieces[..k - 1]), pieces[k - 1]);
    }
  }

  predicate LineFitsTable(line: Text, ws: seq<nat>) { Flat(line) && Width(line) == TotalWidth(ws) }

  lemma PiecesLineFits(g: Glyphs, pieces: seq<Text>, ws: seq<nat>)
    requires Glyph(g.vertical) && PiecesFit(pieces, ws)
    ensures LineFitsTable(PiecesLine(g, pieces), ws)
  {
    FlattenFits(pieces, ws, |ws|);
    assert pieces[..|ws|] == pieces;
    FlatConcat(Flatten(pieces), g.vertical);
  }

  lemma BorderPieceWidth(g: Glyphs, w: nat, junction: Text, inner: bool)
    requires Glyph(g.horizontal) && Glyph(junction)
    ensures var piece := Repeat(g.horizontal, w + 2) + (if inner then junction else []);
            Flat(piece) && Width(piece) == w + 2 + (if inner then 1 else 0)
  {
    var bar := Repeat(g.horizontal, w + 2);
    RepeatFlat(g.horizontal, w + 2);
    FlatConcat(bar, junction);
    assert bar + [] == bar;
  }

  lemma BorderPieceAt(g: Glyphs, ws: seq<nat>, junction: Text, c: nat)
    requires Glyph(g.horizontal) && Glyph(junction) && c < |ws|
    ensures var piece := BorderPieces(g, ws, junction)[c];
            Flat(piece) && Width(piece) == ws[c] + 2 + (if c + 1 < |ws| then 1 else 0)
  {
    BorderPieceWidth(g, ws[c], junction, c + 1 < |ws|);
  }

  lemma {:induction false} BorderFits(g: Glyphs, ws: seq<nat>, junction: Text, k: nat)
    requires Glyph(g.horizontal) && Glyph(junction) && k <= |ws|
    ensures var part := Flatten(BorderPieces(g, ws, junction)[..k]);
            Flat(part) && Width(part) == Taken(ws, k) - (if k > 0 && k == |ws| then 1 else 0)
    decreases k
  {
    if k > 0 {
      var pieces := BorderPieces(g, ws, junction);
      BorderFits(g, ws, junction, k - 1);
      FlattenAdd(pieces, k - 1);
      BorderPieceAt(g, ws, junction, k - 1);
      FlatConcat(Flatten(pieces[..k - 1]), pieces[k - 1]);
    }
  }

  lemma BorderLineFits(g: Glyphs, ws: seq<nat>, left: Text, junction: Text, right: Text)
    requires Glyph(g.horizontal) && Glyph(left) && Glyph(junction) && Glyph(right) && ws != []
    ensures LineFitsTable(BorderLine(g, ws, left, junction, right), ws)
  {
    var pieces := BorderPieces(g, ws, junction);
    BorderFits(g, ws, junction, |ws|);
    assert pieces[..|ws|] == pieces;
    FlatConcat(left, Flatten(pieces));
    FlatConcat(left + Flatten(pieces), right);
  }

  lemma HeaderPiecesFit(opts: Options, t: Content)
    requires Printable(opts, t)
    ensures PiecesFit(HeaderPieces(opts, t, Widths(opts, t)), Widths(opts, t))
  {
    var ws := Widths(opts, t);
    var pieces := HeaderPieces(opts, t, ws);
    forall c | 0 <= c < |ws| ensures Flat(pieces[c]) && Width(pieces[c]) == ws[c] + 3 {
      var text := if c < |t.headers| then t.headers[c] else [];
      if c < |t.headers| { HeaderFits(opts, t, c); }
      PadExact(text, ws[c], Left);
      ColorizeWidth(opts.headerStyle, Pad(text, ws[c], Left));
      CellPieceWidth(opts.glyphs, Pad(text, ws[c], Left));
      CellPieceWidth(opts.glyphs, Colorize(opts.headerStyle, Pad(text, ws[c], Left)));
    }
  }

  lemma HeaderLineFits(opts: Options, t: Content)
    requires Printable(opts, t)
    ensures LineFitsTable(PiecesLine(opts.glyphs, HeaderPieces(opts, t, Widths(opts, t))), Widths(opts, t))
  {
    HeaderPiecesFit(opts, t);
    PiecesLineFits(opts.glyphs, HeaderPieces(opts, t, Widths(opts, t)), Widths(opts, t));
  }

  lemma BodyPiecesFit(opts: Options, t: Content, r: nat, l: nat)
    requires Printable(opts, t)
    ensures PiecesFit(BodyPieces(opts, t, Widths(opts, t), r, l), Widths(opts, t))
  {
    var ws := Widths(opts, t);
    var pieces := BodyPieces(opts, t, ws, r, l);
    forall c | 0 <= c < |ws| ensures Flat(pieces[c]) && Width(pieces[c]) == ws[c] + 3 {
      var text, a := LineAt(t, c, r, l), CellAlignFor(opts, c);
      LineAtFlat(opts, t, c, r, l);
      LineFits(opts, t, c, r, l);
      PadExact(text, ws[c], a);
      CellPieceWidth(opts.glyphs, Pad(text, ws[c], a));
    }
  }

  lemma BodyLineFits(opts: Options, t: Content, r: nat, l: nat)
    requires Printable(opts, t)
    ensures LineFitsTable(BodyLine(opts, t, Widths(opts, t), r, l), Widths(opts, t))
  {
    BodyPiecesFit(opts, t, r, l);
    PiecesLineFits(opts.glyphs, BodyPieces(opts, t, Widths(opts, t), r, l), Widths(opts, t));
  }

  predicate AllFit(ls: seq<Text>, ws: seq<nat>) { forall i :: 0 <= i < |ls| ==> LineFitsTable(ls[i], ws) }

  lemma BordersFit(opts: Options, ws: seq<nat>)
    requires GlyphsOk(opts.glyphs) && ws != []
    ensures LineFitsTable(TopLine(opts, ws), ws)
    ensures LineFitsTable(MiddleLine(opts, ws), ws)
    ensures LineFitsTable(BottomLine(opts, ws), ws)
  {
    var g := opts.glyphs;
    BorderLineFits(g, ws, g.topLeft, g.teeTop, g.topRight);
    BorderLineFits(g, ws, g.teeLeft, g.cross, g.teeRight);
    BorderLineFits(g, ws, g.bottomLeft, g.teeBottom, g.bottomRight);
  }

  lemma RowLinesFit(opts: Options, t: Content, r: nat)
    requires Printable(opts, t)
    ensures AllFit(RowLines(opts, t, Widths(opts, t), r), Widths(opts, t))
  {
    var ws := Widths(opts, t);
    forall l | 0 <= l < RowHeight(t, r) ensures LineFitsTable(RowLines(opts, t, ws, r)[l], ws) {
      BodyLineFits(opts, t, r, l);
    }
  }

  lemma AllFitConcat(a: seq<Text>, b: seq<Text>, ws: seq<nat>)
    requires AllFit(a, ws) && AllFit(b, ws)
    ensures AllFit(a + b, ws)
  {
  }

  lemma {:induction false} StackedFit(blocks: seq<seq<Text>>, between: Text, ws: seq<nat>, k: nat)
    requires k <= |blocks| && LineFitsTable(between, ws)
    requires forall r :: 0 <= r < |blocks| ==> AllFit(blocks[r], ws)
    ensures AllFit(Stacked(blocks, between, k), ws)
    decreases k
  {
    if k > 0 {
      StackedFit(blocks, between, ws, k - 1);
      AllFitConcat(Stacked(blocks, between, k - 1), blocks[k - 1], ws);
      AllFitConcat(Stacked(blocks, between, k - 1) + blocks[k - 1], [between], ws);
    }
  }

  lemma TableLinesFit(opts: Options, t: Content)
    requires Printable(opts, t) && ColCount(t) > 0
    ensures AllFit(TableLines(opts, t), Widths(opts, t))
  {
    var ws := Widths(opts, t);
    BordersFit(opts, ws);
    HeaderLineFits(opts, t);
    var blocks := Blocks(opts, t, ws);
    forall r | 0 <= r < |blocks| ensures AllFit(blocks[r], ws) { RowLinesFit(opts, t, r); }
    StackedFit(blocks, MiddleLine(opts, ws), ws, |blocks|);
    assert AllFit(HeadLines(opts, t, ws), ws);
    AllFitConcat([TopLine(opts, ws)], HeadLines(opts, t, ws), ws);
    AllFitConcat([TopLine(opts, ws)] + HeadLines(opts, t, ws), BodyLines(opts, t, ws), ws);
  }

  /**
   * Rectangular layout: the output, cut at its line breaks, is the table's lines (and an empty one
   * after a last line break), and each of these has the same visible width.
   */
  lemma TableIsRectangular(opts: Options, t: Content)
    requires Printable(opts, t) && !(t.headers == [] && t.columns == [])
    ensures var lines := TableLines(opts, t);
            && Lines(Rendered(opts, t)) == lines + (if opts.terminate then [[]] else [])
            && forall i :: 0 <= i < |lines| ==> Width(lines[i]) == TotalWidth(Widths(opts, t))
  {
    TableLinesFit(opts, t);
    PageLines(TableLines(opts, t));
    assert TableLines(opts, t) + [] == TableLines(opts, t);
  }

  // ---------------------------------------------------------------------------------------------
  // Every line of every cell is shown
  // ---------------------------------------------------------------------------------------------

  lemma {:induction false} HeightCovers(t: Content, r: nat, k: nat, c: nat)
    requires c < k
    ensures |CellAt(t, c, r)| <= HeightUpTo(t, r, k)
    decreases k
  {
    if c < k - 1 {
      HeightCovers(t, r, k - 1, c);
    } else {
      HeightPositive(t, r, k - 1);
    }
  }

  lemma {:induction false} HeightPositive(t: Content, r: nat, k: nat)
    ensures HeightUpTo(t, r, k) >= 1
    decreases k
  {
    if k > 0 { HeightPositive(t, r, k - 1); }
  }

  lemma {:induction false} FlattenSplit(pieces: seq<Text>, c: nat, k: nat) returns (after: Text)
    requires c < k <= |pieces|
    ensures Flatten(pieces[..k]) == Flatten(pieces[..c]) + pieces[c] + after
    decreases k
  {
    FlattenAdd(pieces, k - 1);
    if c == k - 1 {
      after := [];
    } else {
      var rest := FlattenSplit(pieces, c, k - 1);
      after := rest + pieces[k - 1];
    }
  }

  lemma PieceShown(g: Glyphs, pieces: seq<Text>, c: nat) returns (after: Text)
    requires c < |pieces|
    ensures PiecesLine(g, pieces) == Flatten(pieces[..c]) + pieces[c] + after
  {
    var rest := FlattenSplit(pieces, c, |pieces|);
    assert pieces[..|pieces|] == pieces;
    after := rest + g.vertical;
  }

  /** Line `l` of the cell in column `c` and row `r` stands, padded, at its column of line `l` of the row's block. */
  lemma CellInBlock(opts: Options, t: Content, ws: seq<nat>, c: nat, r: nat, l: nat) returns (before: Text, after: Text)
    requires Printable(opts, t) && ws == Widths(opts, t) && c < |ws| && l < |CellAt(t, c, r)|
    ensures l < RowHeight(t, r)
    ensures BodyLine(opts, t, ws, r, l) ==
            before + CellPiece(opts.glyphs, Pad(CellAt(t, c, r)[l], ws[c], CellAlignFor(opts, c))) + after
    ensures Width(before) == Taken(ws, c)
  {
    HeightCovers(t, r, ColCount(t), c);
    var pieces := BodyPieces(opts, t, ws, r, l);
    after := PieceShown(opts.glyphs, pieces, c);
    before := Flatten(pieces[..c]);
    BodyPiecesFit(opts, t, r, l);
    FlattenFits(pieces, ws, c);
  }

  /** Where the block of row `r` begins among the body's lines: after the blocks and borders before it. */
  function RowOffset(t: Content, r: nat): nat {
    if r == 0 then 0 else RowOffset(t, r - 1) + RowHeight(t, r - 1) + 1
  }

  /** The blocks are as high as their rows. */
  ghost predicate Heights(t: Content, blocks: seq<seq<Text>>) {
    forall r :: 0 <= r < |blocks| ==> |blocks[r]| == RowHeight(t, r)
  }

  lemma {:induction false} StackedLength(t: Content, blocks: seq<seq<Text>>, between: Text, k: nat)
    requires k <= |blocks| && Heights(t, blocks)
    ensures |Stacked(blocks, between, k)| == RowOffset(t, k) - (if 0 < k == |blocks| then 1 else 0)
    decreases k
  {
    if k > 0 { StackedLength(t, blocks, between, k - 1); }
  }

  lemma {:induction false} StackedHolds(t: Content, blocks: seq<seq<Text>>, between: Text, r: nat, k: nat)
    requires r < k <= |blocks| && Heights(t, blocks)
    ensures RowOffset(t, r) + |blocks[r]| <= |Stacked(blocks, between, k)|
    ensures Stacked(blocks, between, k)[RowOffset(t, r)..RowOffset(t, r) + |blocks[r]|] == blocks[r]
    decreases k
  {
    var at, inner := RowOffset(t, r), Stacked(blocks, between, k - 1);
    if r == k - 1 {
      StackedLength(t, blocks, between, k - 1);
    } else {
      StackedHolds(t, blocks, between, r, k - 1);
      assert Stacked(blocks, between, k)[at..at + |blocks[r]|] == inner[at..at + |blocks[r]|];
    }
  }

  /** The lines of the table before its body. */
  function Head(opts: Options, t: Content, ws: seq<nat>): seq<Text> { [TopLine(opts, ws)] + HeadLines(opts, t, ws) }

  lemma BlockHeights(opts: Options, t: Content, ws: seq<nat>)
    ensures Heights(t, Blocks(opts, t, ws)) && |Blocks(opts, t, ws)| == RowCount(t)
  {
  }

  lemma SliceInside(head: seq<Text>, body: seq<Text>, bottom: Text, at: nat, block: seq<Text>)
    requires at + |block| <= |body| && body[at..at + |block|] == block
    ensures var lines := head + body + [bottom];
            |head| + at + |block| < |lines| && lines[|head| + at..|head| + at + |block|] == block
  {
    var lines := head + body + [bottom];
    assert lines[|head| + at..|head| + at + |block|] == body[at..at + |block|];
  }

  lemma BlockPlaced(t: Content, head: seq<Text>, blocks: seq<seq<Text>>, between: Text, bottom: Text, r: nat)
    requires r < |blocks| && Heights(t, blocks)
    ensures var at, lines := |head| + RowOffset(t, r), head + Stacked(blocks, between, |blocks|) + [bottom];
            at + |blocks[r]| < |lines| && lines[at..at + |blocks[r]|] == blocks[r]
  {
    StackedHolds(t, blocks, between, r, |blocks|);
    SliceInside(head, Stacked(blocks, between, |blocks|), bottom, RowOffset(t, r), blocks[r]);
  }

  lemma TableParts(opts: Options, t: Content, ws: seq<nat>)
    requires ws == Widths(opts, t)
    ensures TableLines(opts, t) == Head(opts, t, ws) + BodyLines(opts, t, ws) + [BottomLine(opts, ws)]
  {
  }

  /** Between the head and the bottom border there are the blocks of the printed rows, and no more. */
  lemma BodyEnds(opts: Options, t: Content, ws: seq<nat>)
    requires ws == Widths(opts, t)
    ensures |TableLines(opts, t)| - 1 ==
            |Head(opts, t, ws)| + RowOffset(t, RowCount(t)) - (if RowCount(t) > 0 then 1 else 0)
  {
    BlockHeights(opts, t, ws);
    StackedLength(t, Blocks(opts, t, ws), MiddleLine(opts, ws), RowCount(t));
  }

  lemma {:induction false} OffsetGrows(t: Content, r: nat, k: nat)
    requires r <= k
    ensures RowOffset(t, r) <= RowOffset(t, k)
    decreases k
  {
    if r < k { OffsetGrows(t, r, k - 1); }
  }

  /** The line of the table at which line `l` of row `r` belongs. */
  function LineOf(opts: Options, t: Content, r: nat, l: nat): nat {
    |Head(opts, t, Widths(opts, t))| + RowOffset(t, r) + l
  }

  function InPlace(opts: Options, before: Text, text: Text, after: Text): Text {
    before + CellPiece(opts.glyphs, text) + after
  }

  /** There is a column `c`, and the line has the text, padded, at that column. */
  ghost predicate HasText(opts: Options, ws: seq<nat>, line: Text, c: nat, text: Text) {
    && c < |ws|
    && exists before: Text, after: Text ::
         line == InPlace(opts, before, Pad(text, ws[c], CellAlignFor(opts, c)), after) && Width(before) == Taken(ws, c)
  }

  /**
   * Line `l` of the cell in column `c` and row `r` is shown: the line of the table at which it
   * belongs, before the bottom border, has it in its column.
   */
  ghost predicate Shown(opts: Options, t: Content, c: nat, r: nat, l: nat)
    requires l < |CellAt(t, c, r)|
  {
    var lines, at := TableLines(opts, t), LineOf(opts, t, r, l);
    at < |lines| - 1 && HasText(opts, Widths(opts, t), lines[at], c, CellAt(t, c, r)[l])
  }

  lemma BlockHasCell(opts: Options, t: Content, ws: seq<nat>, c: nat, r: nat, l: nat)
    requires Printable(opts, t) && ws == Widths(opts, t) && c < |ws| && l < |CellAt(t, c, r)|
    ensures l < RowHeight(t, r) && HasText(opts, ws, BodyLine(opts, t, ws, r, l), c, CellAt(t, c, r)[l])
  {
    var before, after := CellInBlock(opts, t, ws, c, r, l);
    assert BodyLine(opts, t, ws, r, l) ==
        InPlace(opts, before, Pad(CellAt(t, c, r)[l], ws[c], CellAlignFor(opts, c)), after);
  }

  lemma ElementOfSlice(lines: seq<Text>, at: nat, row: seq<Text>, l: nat)
    requires at + |row| <= |lines| && lines[at..at + |row|] == row && l < |row|
    ensures lines[at + l] == row[l]
  {
    assert lines[at..at + |row|][l] == row[l];
  }

  lemma BlockLinePlaced(t: Content, head: seq<Text>, blocks: seq<seq<Text>>, between: Text, bottom: Text, r: nat, l: nat)
    requires r < |blocks| && Heights(t, blocks) && l < |blocks[r]|
    ensures var at, lines := |head| + RowOffset(t, r) + l, head + Stacked(blocks, between, |blocks|) + [bottom];
            at < |lines| - 1 && lines[at] == blocks[r][l]
  {
    BlockPlaced(t, head, blocks, between, bottom, r);
    ElementOfSlice(head + Stacked(blocks, between, |blocks|) + [bottom], |head| + RowOffset(t, r), blocks[r], l);
  }

  lemma BlockLineIs(opts: Options, t: Content, ws: seq<nat>, r: nat, l: nat)
    requires r < RowCount(t) && l < RowHeight(t, r)
    ensures |Blocks(opts, t, ws)[r]| == RowHeight(t, r) && Blocks(opts, t, ws)[r][l] == BodyLine(opts, t, ws, r, l)
  {
  }

  /** Every line of the block of every row that is printed stands at its place in the table. */
  lemma RowShown(opts: Options, t: Content, r: nat, l: nat)
    requires r < RowCount(t) && l < RowHeight(t, r)
    ensures LineOf(opts, t, r, l) < |TableLines(opts, t)| - 1
    ensures TableLines(opts, t)[LineOf(opts, t, r, l)] == BodyLine(opts, t, Widths(opts, t), r, l)
  {
    var ws := Widths(opts, t);
    TableParts(opts, t, ws);
    BlockHeights(opts, t, ws);
    BlockLineIs(opts, t, ws, r, l);
    BlockLinePlaced(t, Head(opts, t, ws), Blocks(opts, t, ws), MiddleLine(opts, ws), BottomLine(opts, ws), r, l);
  }

  lemma CellIsShown(opts: Options, t: Content, c: nat, r: nat, l: nat)
    requires Printable(opts, t) && l < |CellAt(t, c, r)| && c < ColCount(t) && r < RowCount(t)
    ensures Shown(opts, t, c, r, l)
  {
    BlockHasCell(opts, t, Widths(opts, t), c, r, l);
    RowShown(opts, t, r, l);
  }

  /** A row beyond the printed ones would belong at or after the bottom border. */
  lemma BeyondTheRows(opts: Options, t: Content, r: nat, l: nat)
    requires r >= RowCount(t)
    ensures LineOf(opts, t, r, l) >= |TableLines(opts, t)| - 1
  {
    BodyEnds(opts, t, Widths(opts, t));
    OffsetGrows(t, RowCount(t), r);
  }

  /**
   * A line of a cell is shown if and only if its column is among the columns that the table takes
   * from the headers, or from the cells if there are none, and its row among the rows of the first
   * column. Cells beyond these are dropped.
   */
  lemma CellShown(opts: Options, t: Content, c: nat, r: nat, l: nat)
    requires Printable(opts, t) && l < |CellAt(t, c, r)|
    ensures Shown(opts, t, c, r, l) <==> c < ColCount(t) && r < RowCount(t)
  {
    assert |Widths(opts, t)| == ColCount(t);
    if r >= RowCount(t) {
      BeyondTheRows(opts, t, r, l);
    } else if c < ColCount(t) {
      CellIsShown(opts, t, c, r, l);
    }
  }

  /** A second column without a header, and a second row that the first column does not have. */
  lemma CellsDropped(opts: Options)
    requires GlyphsOk(opts.glyphs) && Style(opts.headerStyle)
    ensures var t := Content([[97]], [[[98]], [[99]]]);
            CellAt(t, 1, 0) == [[99]] && !Shown(opts, t, 1, 0, 0)
    ensures var t := Content([], [[[98]], [[99], [100]]]);
            CellAt(t, 1, 1) == [[100]] && !Shown(opts, t, 1, 1, 0)
  {
    ColumnDropped(opts);
    RowDropped(opts);
  }

  lemma ColumnDropped(opts: Options)
    requires GlyphsOk(opts.glyphs) && Style(opts.headerStyle)
    ensures var t := Content([[97]], [[[98]], [[99]]]);
            CellAt(t, 1, 0) == [[99]] && !Shown(opts, t, 1, 0, 0)
  {
    LetterFlat(97);
    LetterFlat(98);
    LetterFlat(99);
    CellShown(opts, Content([[97]], [[[98]], [[99]]]), 1, 0, 0);
  }

  lemma RowDropped(opts: Options)
    requires GlyphsOk(opts.glyphs) && Style(opts.headerStyle)
    ensures var t := Content([], [[[98]], [[99], [100]]]);
            CellAt(t, 1, 1) == [[100]] && !Shown(opts, t, 1, 1, 0)
  {
    LetterFlat(98);
    LetterFlat(99);
    LetterFlat(100);
    CellShown(opts, Content([], [[[98]], [[99], [100]]]), 1, 1, 0);
  }

  lemma LetterFlat(x: Byte)
    requires 97 <= x <= 100
    ensures Lines([x]) == [[x]] && Flat([x])
  {
    var s: Text := [x];
    WholeLine(s);
    assert s[1..] == [];
  }

  // ---------------------------------------------------------------------------------------------
  // The box
  // ---------------------------------------------------------------------------------------------

  datatype Box = Box(body: Text, title: Text, glyphs: Glyphs, borderStyle: Text, padding: nat, terminate: bool)

  function Inner(b: Box): nat { MaxWidth(Lines(b.body), 0) }

  function Span(b: Box): nat {
    Max(Inner(b) + 2 * b.padding, if b.title == [] then 0 else Width(b.title) + 4)
  }

  function WrapBorder(b: Box, s: Text): Text { if b.borderStyle == [] then s else Colorize(b.borderStyle, s) }

  function Titled(left: Text, leftRun: Text, title: Text, rightRun: Text, right: Text): Text {
    left + leftRun + [SPACE] + title + [SPACE] + rightRun + right
  }

  function BoxTop(b: Box): Text {
    var g := b.glyphs;
    if b.title == [] then g.topLeft + Repeat(g.horizontal, Span(b)) + g.topRight
    else
      var bars := Span(b) - (Width(b.title) + 2);
      Titled(g.topLeft, Repeat(g.horizontal, bars / 2), b.title, Repeat(g.horizontal, bars - bars / 2), g.topRight)
  }

  function BoxBottom(b: Box): Text { b.glyphs.bottomLeft + Repeat(b.glyphs.horizontal, Span(b)) + b.glyphs.bottomRight }

  function Framed(bar: Text, n: nat, line: Text, fill: nat): Text {
    bar + Spaces(n) + line + Spaces(fill) + Spaces(n) + bar
  }

  /** One line of the body; the fill is what is left of the span, and would wrap around if it were negative. */
  function BoxLine(b: Box, line: Text): Text
    requires Width(line) + 2 * b.padding <= Span(b)
  {
    Framed(WrapBorder(b, b.glyphs.vertical), b.padding, line, Span(b) - 2 * b.padding - Width(line))
  }

  /** The subtraction is never negative: no line is wider than the inner width. */
  lemma BoxLineFits(b: Box, i: nat)
    requires i < |Lines(b.body)|
    ensures Width(Lines(b.body)[i]) + 2 * b.padding <= Span(b)
  {
    MaxWidthBounds(Lines(b.body), 0, i);
  }

  function BoxBody(b: Box): seq<Text> {
    seq(|Lines(b.body)|, i requires 0 <= i < |Lines(b.body)| =>
      BoxLineFits(b, i);
      BoxLine(b, Lines(b.body)[i]))
  }

  function BoxLines(b: Box): seq<Text> {
    [WrapBorder(b, BoxTop(b))] + BoxBody(b) + [WrapBorder(b, BoxBottom(b))]
  }

  predicate BoxPrintable(b: Box) {
    GlyphsOk(b.glyphs) && Style(b.borderStyle) && Flat(b.title) && AllClosed(Lines(b.body))
  }

  lemma WrapKeeps(b: Box, s: Text)
    requires Style(b.borderStyle) && Flat(s)
    ensures Flat(WrapBorder(b, s)) && Width(WrapBorder(b, s)) == Width(s)
  {
    ColorizeWidth(b.borderStyle, s);
  }

  lemma ThreeFlat(x: Text, y: Text, z: Text)
    requires Flat(x) && Flat(y) && Flat(z)
    ensures Flat(x + y + z) && Width(x + y + z) == Width(x) + Width(y) + Width(z)
  {
    FlatConcat(x, y);
    FlatConcat(x + y, z);
  }

  lemma SevenFlat(a: Text, l: Text, gap: Text, title: Text, r: Text, z: Text)
    requires Flat(a) && Flat(l) && Flat(gap) && Flat(title) && Flat(r) && Flat(z)
    ensures var line := a + l + gap + title + gap + r + z;
            && Flat(line)
            && Width(line) == Width(a) + Width(l) + Width(gap) + Width(title) + Width(gap) + Width(r) + Width(z)
  {
    ThreeFlat(a, l, gap);
    ThreeFlat(a + l + gap, title, gap);
    ThreeFlat(a + l + gap + title + gap, r, z);
  }

  lemma SpaceIsGlyph()
    ensures Glyph([SPACE])
  {
    var space: Text := [SPACE];
    var rest := space[1..];
    assert rest == [];
    assert Width(rest) == 0 && Closed(rest);
    assert !StartsEscape(space) && space[0] != ESC && Columns(space[0]) == 1;
    assert Width(space) == Columns(space[0]) + Width(rest);
    assert Closed(space);
    assert LF !in space;
  }

  lemma TitledWidth(left: Text, leftRun: Text, title: Text, rightRun: Text, right: Text)
    requires Glyph(left) && Glyph(right) && Flat(leftRun) && Flat(title) && Flat(rightRun)
    ensures Flat(Titled(left, leftRun, title, rightRun, right))
    ensures Width(Titled(left, leftRun, title, rightRun, right)) == Width(leftRun) + Width(title) + Width(rightRun) + 4
  {
    SpaceIsGlyph();
    SevenFlat(left, leftRun, [SPACE], title, rightRun, right);
  }

  lemma UntitledWidth(g: Glyphs, left: Text, right: Text, n: nat)
    requires Glyph(g.horizontal) && Glyph(left) && Glyph(right)
    ensures var line := left + Repeat(g.horizontal, n) + right;
            Flat(line) && Width(line) == n + 2
  {
    RepeatFlat(g.horizontal, n);
    ThreeFlat(left, Repeat(g.horizontal, n), right);
  }

  predicate FitsBox(line: Text, b: Box) { Flat(line) && Width(line) == Span(b) + 2 }

  lemma BoxTitledWidth(g: Glyphs, title: Text, bars: nat)
    requires Glyph(g.horizontal) && Glyph(g.topLeft) && Glyph(g.topRight) && Flat(title)
    ensures var line := Titled(g.topLeft, Repeat(g.horizontal, bars / 2), title, Repeat(g.horizontal, bars - bars / 2), g.topRight);
            Flat(line) && Width(line) == bars + Width(title) + 4
  {
    RepeatFlat(g.horizontal, bars / 2);
    RepeatFlat(g.horizontal, bars - bars / 2);
    TitledWidth(g.topLeft, Repeat(g.horizontal, bars / 2), title, Repeat(g.horizontal, bars - bars / 2), g.topRight);
  }

  lemma WrapFits(b: Box, s: Text)
    requires Style(b.borderStyle) && FitsBox(s, b)
    ensures FitsBox(WrapBorder(b, s), b)
  {
    WrapKeeps(b, s);
  }

  lemma BoxTopSpans(b: Box)
    requires BoxPrintable(b)
    ensures FitsBox(BoxTop(b), b)
  {
    if b.title == [] {
      UntitledWidth(b.glyphs, b.glyphs.topLeft, b.glyphs.topRight, Span(b));
    } else {
      BoxTitledWidth(b.glyphs, b.title, Span(b) - (Width(b.title) + 2));
    }
  }

  lemma BoxTopFits(b: Box)
    requires BoxPrintable(b)
    ensures FitsBox(WrapBorder(b, BoxTop(b)), b)
  {
    BoxTopSpans(b);
    WrapFits(b, BoxTop(b));
  }

  lemma BoxBottomFits(b: Box)
    requires BoxPrintable(b)
    ensures FitsBox(WrapBorder(b, BoxBottom(b)), b)
  {
    UntitledWidth(b.glyphs, b.glyphs.bottomLeft, b.glyphs.bottomRight, Span(b));
    WrapFits(b, BoxBottom(b));
  }

  lemma FramedWidth(bar: Text, n: nat, line: Text, fill: nat)
    requires Glyph(bar) && Flat(line)
    ensures Flat(Framed(bar, n, line, fill)) && Width(Framed(bar, n, line, fill)) == Width(line) + fill + n + n + 2
  {
    var pad := Spaces(n);
    SpacesFlat(n);
    SpacesFlat(fill);
    ThreeFlat(bar, pad, line);
    ThreeFlat(bar + pad + line, Spaces(fill), pad);
    FlatConcat(bar + pad + line + Spaces(fill) + pad, bar);
  }

  lemma FramedSpans(bar: Text, n: nat, line: Text, span: nat)
    requires Glyph(bar) && Flat(line) && Width(line) + 2 * n <= span
    ensures var framed := Framed(bar, n, line, span - 2 * n - Width(line));
            Flat(framed) && Width(framed) == span + 2
  {
    FramedWidth(bar, n, line, span - 2 * n - Width(line));
  }

  lemma FramedFits(b: Box, bar: Text, line: Text)
    requires Glyph(bar) && Flat(line) && Width(line) + 2 * b.padding <= Span(b)
    ensures FitsBox(Framed(bar, b.padding, line, Span(b) - 2 * b.padding - Width(line)), b)
  {
    FramedSpans(bar, b.padding, line, Span(b));
  }

  lemma BoxLineWidth(b: Box, line: Text)
    requires Style(b.borderStyle) && Glyph(b.glyphs.vertical) && Flat(line) && Width(line) + 2 * b.padding <= Span(b)
    ensures FitsBox(BoxLine(b, line), b)
  {
    WrapKeeps(b, b.glyphs.vertical);
    FramedFits(b, WrapBorder(b, b.glyphs.vertical), line);
  }

  function BoxRendered(b: Box): Text {
    if b.terminate then Page(BoxLines(b)) else Join(BoxLines(b))
  }

  lemma BoxBodyFits(b: Box, i: nat)
    requires BoxPrintable(b) && i < |Lines(b.body)|
    ensures FitsBox(BoxBody(b)[i], b)
  {
    LinesJoin(b.body);
    BoxLineFits(b, i);
    BoxLineWidth(b, Lines(b.body)[i]);
  }

  lemma BoxLinesFit(b: Box)
    requires BoxPrintable(b)
    ensures forall i :: 0 <= i < |BoxLines(b)| ==> FitsBox(BoxLines(b)[i], b)
  {
    BoxTopFits(b);
    BoxBottomFits(b);
    forall i: nat | i < |BoxBody(b)| ensures FitsBox(BoxBody(b)[i], b) { BoxBodyFits(b, i); }
  }

  /** Every line of a box is equally wide as well. */
  lemma BoxIsRectangular(b: Box)
    requires BoxPrintable(b)
    ensures var lines := BoxLines(b);
            && Lines(BoxRendered(b)) == lines + (if b.terminate then [[]] else [])
            && forall i :: 0 <= i < |lines| ==> Width(lines[i]) == Span(b) + 2
  {
    var lines := BoxLines(b);
    BoxLinesFit(b);
    PageLines(lines);
    assert lines + [] == lines;
  }
}
