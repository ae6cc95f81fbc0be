/**
 * render_table and Box::render_impl, loop by loop, against what they are to produce.
 */
module Rendering {
  import opened Layout
  import opened TableLayout
  import LayoutContent

  lemma MaxWidthAdd(texts: seq<Text>, x: Text, least: nat)
    ensures MaxWidth(texts + [x], least) == Max(MaxWidth(texts, least), Width(x))
  {
    assert (texts + [x])[..|texts|] == texts;
  }

  lemma CellLinesAdd(cells: seq<Text>, r: nat)
    requires r < |cells|
    ensures CellLines(cells[..r + 1]) == CellLines(cells[..r]) + Lines(cells[r])
  {
    assert cells[..r + 1][..r] == cells[..r];
  }

  /** The widest of `w` and the lines of one cell. */
  method WidenByCell(cell: Text, w: nat, ghost texts: seq<Text>, least: nat) returns (w': nat)
    requires w == MaxWidth(texts, least)
    ensures w' == MaxWidth(texts + Lines(cell), least)
  {
    var ls := SplitLines(cell);
    w' := w;
    var l := 0;
    assert texts + ls[..0] == texts;
    while l < |ls|
      invariant 0 <= l <= |ls|
      invariant w' == MaxWidth(texts + ls[..l], least)
    {
      var vw := VisibleWidth(ls[l]);
      MaxWidthAdd(texts + ls[..l], ls[l], least);
      assert texts + ls[..l] + [ls[l]] == texts + ls[..l + 1];
      w' := Max(w', vw);
      l := l + 1;
    }
    assert ls[..|ls|] == ls;
  }

  lemma ColumnNext(texts: seq<Text>, cells: seq<Text>, r: nat)
    requires r < |cells|
    ensures texts + CellLines(cells[..r]) + Lines(cells[r]) == texts + CellLines(cells[..r + 1])
  {
    CellLinesAdd(cells, r);
  }

  method WidenByColumn(cells: seq<Text>, w: nat, ghost texts: seq<Text>, least: nat) returns (w': nat)
    requires w == MaxWidth(texts, least)
    ensures w' == MaxWidth(texts + CellLines(cells), least)
  {
    w' := w;
    ghost var seen := texts;
    var r := 0;
    assert texts + CellLines(cells[..0]) == texts;
    while r < |cells|
      invariant 0 <= r <= |cells| && seen == texts + CellLines(cells[..r])
      invariant w' == MaxWidth(seen, least)
    {
      ColumnNext(texts, cells, r);
      w' := WidenByCell(cells[r], w', seen, least);
      seen := seen + Lines(cells[r]);
      r := r + 1;
    }
    assert cells[..|cells|] == cells;
  }

  method WidthOfColumn(opts: Options, t: Content, c: nat) returns (w: nat)
    ensures w == ColumnWidth(opts, t, c)
  {
    w := opts.minWidth;
    ghost var texts: seq<Text> := [];
    if c < |t.headers| {
      var vw := VisibleWidth(t.headers[c]);
      MaxWidthAdd(texts, t.headers[c], opts.minWidth);
      texts := texts + [t.headers[c]];
      w := Max(w, vw);
    }
    if c < |t.columns| {
      w := WidenByColumn(t.columns[c], w, texts, opts.minWidth);
      texts := texts + CellLines(t.columns[c]);
    }
    assert texts == ColumnTexts(t, c);
  }

  method ColumnWidths(opts: Options, t: Content) returns (ws: seq<nat>)
    ensures ws == Widths(opts, t)
  {
    ws := [];
    var c := 0;
    while c < ColCount(t)
      invariant 0 <= c <= ColCount(t) && ws == Widths(opts, t)[..c]
    {
      var w := WidthOfColumn(opts, t, c);
      ws := ws + [w];
      c := c + 1;
    }
  }

  method HeightOfRow(t: Content, r: nat) returns (h: nat)
    ensures h == RowHeight(t, r)
  {
    h := 1;
    var c := 0;
    while c < ColCount(t)
      invariant 0 <= c <= ColCount(t) && h == HeightUpTo(t, r, c)
    {
      if c < |t.columns| && r < |t.columns[c]| {
        var ls := SplitLines(t.columns[c][r]);
        h := Max(h, |ls|);
      }
      c := c + 1;
    }
  }

  method HorizontalRun(g: Glyphs, count: nat) returns (run: Text)
    ensures run == Repeat(g.horizontal, count)
  {
    run := [];
    var i := 0;
    while i < count
      invariant 0 <= i <= count && run == Repeat(g.horizontal, i)
    {
      RepeatSnoc(g.horizontal, i);
      run := run + g.horizontal;
      i := i + 1;
    }
  }

  lemma {:induction false} RepeatSnoc(s: Text, n: nat)
    ensures Repeat(s, n + 1) == Repeat(s, n) + s
    decreases n
  {
    if n == 0 {
      assert s + Repeat(s, 0) == Repeat(s, 0) + s;
    } else {
      RepeatSnoc(s, n - 1);
    }
  }

  lemma PieceAppended(left: Text, pieces: seq<Text>, c: nat)
    requires c < |pieces|
    ensures left + Flatten(pieces[..c]) + pieces[c] == left + Flatten(pieces[..c + 1])
  {
    FlattenAdd(pieces, c);
  }

  method EmitBorderPiece(g: Glyphs, w: nat, junction: Text, inner: bool) returns (piece: Text)
    ensures piece == Repeat(g.horizontal, w + 2) + (if inner then junction else [])
  {
    piece := HorizontalRun(g, w + 2);
    if inner {
      piece := piece + junction;
    } else {
      assert piece + [] == piece;
    }
  }

  method EmitBorder(g: Glyphs, ws: seq<nat>, left: Text, junction: Text, right: Text) returns (out: Text)
    ensures out == BorderLine(g, ws, left, junction, right)
  {
    ghost var pieces := BorderPieces(g, ws, junction);
    out := left;
    assert left + Flatten(pieces[..0]) == left;
    var c := 0;
    while c < |ws|
      invariant 0 <= c <= |ws| == |pieces| && out == left + Flatten(pieces[..c])
    {
      PieceAppended(left, pieces, c);
      var piece := EmitBorderPiece(g, ws[c], junction, c + 1 < |ws|);
      assert piece == pieces[c];
      out := out + piece;
      c := c + 1;
    }
    assert pieces[..|ws|] == pieces;
    out := out + right;
  }

  method EmitHeader(opts: Options, t: Content, ws: seq<nat>) returns (out: Text)
    ensures out == PiecesLine(opts.glyphs, HeaderPieces(opts, t, ws))
  {
    ghost var pieces := HeaderPieces(opts, t, ws);
    out := [];
    var c := 0;
    while c < |ws|
      invariant 0 <= c <= |ws| && out == Flatten(pieces[..c])
    {
      FlattenAdd(pieces, c);
      var padded := PadText(if c < |t.headers| then t.headers[c] else [], ws[c], Left);
      if opts.headerStyle != [] {
        padded := Colorize(opts.headerStyle, padded);
      }
      out := out + CellPiece(opts.glyphs, padded);
      c := c + 1;
    }
    assert pieces[..c] == pieces;
    out := out + opts.glyphs.vertical;
  }

  /** The cells of one row, each cut into its lines; a missing cell is one empty line. */
  method SplitRow(t: Content, r: nat) returns (split: seq<seq<Text>>)
    ensures |split| == ColCount(t) && forall c :: 0 <= c < |split| ==> split[c] == CellAt(t, c, r)
  {
    split := [];
    var c := 0;
    while c < ColCount(t)
      invariant 0 <= c <= ColCount(t) && |split| == c
      invariant forall i :: 0 <= i < c ==> split[i] == CellAt(t, i, r)
    {
      if c < |t.columns| && r < |t.columns[c]| {
        var ls := SplitLines(t.columns[c][r]);
        split := split + [ls];
      } else {
        split := split + [[[]]];
      }
      c := c + 1;
    }
  }

  method EmitBodyLine(opts: Options, t: Content, ws: seq<nat>, split: seq<seq<Text>>, r: nat, l: nat) returns (out: Text)
    requires |split| == |ws| && forall c :: 0 <= c < |split| ==> split[c] == CellAt(t, c, r)
    ensures out == BodyLine(opts, t, ws, r, l)
  {
    ghost var pieces := BodyPieces(opts, t, ws, r, l);
    out := [];
    var c := 0;
    while c < |ws|
      invariant 0 <= c <= |ws| && out == Flatten(pieces[..c])
    {
      FlattenAdd(pieces, c);
      var line := if l < |split[c]| then split[c][l] else [];
      var padded := PadText(line, ws[c], CellAlignFor(opts, c));
      out := out + CellPiece(opts.glyphs, padded);
      c := c + 1;
    }
    assert pieces[..c] == pieces;
    out := out + opts.glyphs.vertical;
  }

  lemma PageNext(done: seq<Text>, more: seq<Text>, l: nat)
    requires l < |more|
    ensures Page(done + more[..l + 1]) == Page(done + more[..l]) + more[l] + [LF]
  {
    PageAdd(done + more[..l], more[l]);
    assert done + more[..l] + [more[l]] == done + more[..l + 1];
  }

  lemma NextOf(done: seq<Text>, more: seq<Text>, l: nat)
    requires l < |more|
    ensures done + more[..l] + [more[l]] == done + more[..l + 1]
  {
  }

  lemma NoneAndAll(done: seq<Text>, more: seq<Text>)
    ensures done + more[..0] == done && more[..|more|] == more
  {
  }

  ghost predicate IsRow(opts: Options, t: Content, ws: seq<nat>, r: nat, row: seq<Text>) {
    |row| == RowHeight(t, r) && forall l :: 0 <= l < |row| ==> row[l] == BodyLine(opts, t, ws, r, l)
  }

  /** The lines of row `r`, appended to a page. */
  method EmitRow(opts: Options, t: Content, ws: seq<nat>, r: nat, page: Text, ghost done: seq<Text>, ghost row: seq<Text>)
    returns (out: Text)
    requires |ws| == ColCount(t) && page == Page(done) && IsRow(opts, t, ws, r, row)
    ensures out == Page(done + row)
  {
    var h := HeightOfRow(t, r);
    var split := SplitRow(t, r);
    out := page;
    NoneAndAll(done, row);
    ghost var lines := done;
    var l := 0;
    while l < h
      invariant 0 <= l <= h == |row| && lines == done + row[..l]
      invariant out == Page(lines)
    {
      var line := EmitBodyLine(opts, t, ws, split, r, l);
      PageAdd(lines, line);
      NextOf(done, row, l);
      lines := lines + [line];
      out := out + line + [LF];
      l := l + 1;
    }
  }

  lemma StackedNext(done: seq<Text>, blocks: seq<seq<Text>>, between: Text, r: nat)
    requires r < |blocks|
    ensures done + Stacked(blocks, between, r) + blocks[r] + (if r + 1 < |blocks| then [between] else []) ==
            done + Stacked(blocks, between, r + 1)
  {
  }

  lemma BlockIsRow(opts: Options, t: Content, ws: seq<nat>, r: nat)
    requires r < RowCount(t)
    ensures IsRow(opts, t, ws, r, Blocks(opts, t, ws)[r])
  {
  }

  /** A row and, unless it is the last, the border after it. */
  method EmitBlock(opts: Options, t: Content, ws: seq<nat>, r: nat, page: Text, ghost done: seq<Text>, ghost row: seq<Text>)
    returns (out: Text, ghost done': seq<Text>)
    requires |ws| == ColCount(t) && page == Page(done) && r < RowCount(t) && row == Blocks(opts, t, ws)[r]
    ensures done' == done + row + (if r + 1 < RowCount(t) then [MiddleLine(opts, ws)] else [])
    ensures out == Page(done')
  {
    BlockIsRow(opts, t, ws, r);
    out := EmitRow(opts, t, ws, r, page, done, row);
    done' := done + row;
    if r + 1 < RowCount(t) {
      var border := EmitBorder(opts.glyphs, ws, opts.glyphs.teeLeft, opts.glyphs.cross, opts.glyphs.teeRight);
      PageAdd(done', border);
      done' := done' + [border];
      out := out + border + [LF];
    } else {
      assert done' + [] == done';
    }
  }

  /** The lines from the top up to and with the first `r` rows of the body. */
  ghost function UpToRow(opts: Options, t: Content, ws: seq<nat>, done: seq<Text>, r: nat): seq<Text>
    requires r <= RowCount(t)
  {
    done + Stacked(Blocks(opts, t, ws), MiddleLine(opts, ws), r)
  }

  lemma RowAdded(opts: Options, t: Content, ws: seq<nat>, done: seq<Text>, r: nat)
    requires r < RowCount(t)
    ensures UpToRow(opts, t, ws, done, r) + Blocks(opts, t, ws)[r] +
            (if r + 1 < RowCount(t) then [MiddleLine(opts, ws)] else []) == UpToRow(opts, t, ws, done, r + 1)
  {
    StackedNext(done, Blocks(opts, t, ws), MiddleLine(opts, ws), r);
  }

  method EmitNextRow(opts: Options, t: Content, ws: seq<nat>, r: nat, page: Text, ghost done: seq<Text>) returns (out: Text)
    requires |ws| == ColCount(t) && r < RowCount(t) && page == Page(UpToRow(opts, t, ws, done, r))
    ensures out == Page(UpToRow(opts, t, ws, done, r + 1))
  {
    RowAdded(opts, t, ws, done, r);
    ghost var done';
    out, done' := EmitBlock(opts, t, ws, r, page, UpToRow(opts, t, ws, done, r), Blocks(opts, t, ws)[r]);
  }

  method EmitBody(opts: Options, t: Content, ws: seq<nat>, page: Text, ghost done: seq<Text>) returns (out: Text)
    requires |ws| == ColCount(t) && page == Page(done)
    ensures out == Page(done + BodyLines(opts, t, ws))
  {
    out := page;
    assert UpToRow(opts, t, ws, done, 0) == done;
    var r := 0;
    while r < RowCount(t)
      invariant 0 <= r <= RowCount(t) && out == Page(UpToRow(opts, t, ws, done, r))
    {
      out := EmitNextRow(opts, t, ws, r, out, done);
      r := r + 1;
    }
  }

  method EmitHead(opts: Options, t: Content, ws: seq<nat>, page: Text, ghost done: seq<Text>) returns (out: Text)
    requires page == Page(done)
    ensures out == Page(done + HeadLines(opts, t, ws))
  {
    out := page;
    assert done + [] == done;
    if t.headers != [] {
      var header := EmitHeader(opts, t, ws);
      PageAdd(done, header);
      out := out + header + [LF];
      if RowCount(t) > 0 {
        var border := EmitBorder(opts.glyphs, ws, opts.glyphs.teeLeft, opts.glyphs.cross, opts.glyphs.teeRight);
        PageAdd(done + [header], border);
        assert done + [header] + [border] == done + HeadLines(opts, t, ws);
        out := out + border + [LF];
      } else {
        assert done + [header] == done + HeadLines(opts, t, ws);
      }
    }
  }

  /** render_table. */
  method RenderTable(opts: Options, t: Content) returns (out: Text)
    ensures out == Rendered(opts, t)
  {
    if t.headers == [] && t.columns == [] {
      return [];
    }
    var g := opts.glyphs;
    var ws := ColumnWidths(opts, t);
    var top := EmitBorder(g, ws, g.topLeft, g.teeTop, g.topRight);
    out := top + [LF];
    assert out == Page([top]) by { assert [] + top == top; PageAdd([], top); assert [] + [top] == [top]; }
    out := EmitHead(opts, t, ws, out, [top]);
    ghost var done := [top] + HeadLines(opts, t, ws);
    out := EmitBody(opts, t, ws, out, done);
    done := done + BodyLines(opts, t, ws);
    var bottom := EmitBorder(g, ws, g.bottomLeft, g.teeBottom, g.bottomRight);
    PageAdd(done, bottom);
    out := out + bottom + [LF];
    assert done + [bottom] == TableLines(opts, t);
    PageIsJoin(TableLines(opts, t));
    if !opts.terminate && out != [] && out[|out| - 1] == LF {
      out := out[..|out| - 1];
    }
  }

  /** Box::render_impl. */
  method RenderBox(b: Box) returns (out: Text)
    ensures out == BoxRendered(b)
    ensures BoxPrintable(b) ==> LayoutContent.ShowsBox(b, out)
  {
    var g := b.glyphs;
    var bodyLines := SplitLines(b.body);
    var inner := 0;
    var i := 0;
    while i < |bodyLines|
      invariant 0 <= i <= |bodyLines| && inner == MaxWidth(bodyLines[..i], 0)
    {
      var vw := VisibleWidth(bodyLines[i]);
      MaxWidthAdd(bodyLines[..i], bodyLines[i], 0);
      assert bodyLines[..i] + [bodyLines[i]] == bodyLines[..i + 1];
      inner := Max(inner, vw);
      i := i + 1;
    }
    assert bodyLines[..i] == bodyLines;
    var titleWidth := VisibleWidth(b.title);
    var span := Max(inner + 2 * b.padding, if b.title == [] then 0 else titleWidth + 2 + 2);
    var top := EmitBoxTop(b, titleWidth, span);
    out := WrapBorder(b, top) + [LF];
    out := EmitBoxBody(b, bodyLines, span, out, WrapBorder(b, top));
    var run := HorizontalRun(g, span);
    var bottom := WrapBorder(b, g.bottomLeft + run + g.bottomRight);
    ghost var done := [WrapBorder(b, top)] + BoxBody(b);
    PageAdd(done, bottom);
    PageIsJoin(done + [bottom]);
    assert BoxLines(b) == done + [bottom];
    assert Page(done) + bottom + [LF] == Join(done + [bottom]) + [LF];
    out := out + bottom;
    assert out + [LF] == Join(BoxLines(b)) + [LF];
    assert out == (out + [LF])[..|out|] == Join(BoxLines(b));
    if b.terminate {
      out := out + [LF];
    }
    if BoxPrintable(b) { LayoutContent.BoxShown(b); }
  }

  method EmitBoxTop(b: Box, titleWidth: nat, span: nat) returns (top: Text)
    requires titleWidth == Width(b.title) && span == Span(b)
    ensures top == BoxTop(b)
  {
    var g := b.glyphs;
    top := g.topLeft;
    if b.title == [] {
      var run := HorizontalRun(g, span);
      top := top + run;
    } else {
      var titleSpan := titleWidth + 2;
      var left := (span - titleSpan) / 2;
      var right := span - titleSpan - left;
      var leftRun := HorizontalRun(g, left);
      var rightRun := HorizontalRun(g, right);
      top := top + leftRun + [SPACE] + b.title + [SPACE] + rightRun;
    }
    top := top + g.topRight;
  }

  lemma FirstLine(first: Text, body: seq<Text>)
    ensures Page([first] + body[..0]) == first + [LF]
  {
    PageAdd([], first);
    assert [first] + body[..0] == [] + [first];
    assert [] + first == first;
  }

  method EmitBoxLine(b: Box, line: Text, span: nat) returns (out: Text)
    requires span == Span(b) && Width(line) + 2 * b.padding <= span
    ensures out == BoxLine(b, line)
  {
    var vw := VisibleWidth(line);
    var bar, pad := WrapBorder(b, b.glyphs.vertical), Spaces(b.padding);
    out := bar + pad + line + Spaces(span - 2 * b.padding - vw) + pad + bar;
  }

  method EmitBoxBody(b: Box, bodyLines: seq<Text>, span: nat, page: Text, ghost first: Text) returns (out: Text)
    requires bodyLines == Lines(b.body) && span == Span(b) && page == first + [LF]
    ensures out == Page([first] + BoxBody(b))
  {
    ghost var body := BoxBody(b);
    out := page;
    FirstLine(first, body);
    NoneAndAll([first], body);
    var i := 0;
    while i < |bodyLines|
      invariant 0 <= i <= |bodyLines| == |body| && out == Page([first] + body[..i])
    {
      BoxLineFits(b, i);
      PageNext([first], body, i);
      var line := EmitBoxLine(b, bodyLines[i], span);
      assert line == body[i];
      out := out + line + [LF];
      i := i + 1;
    }
  }
}
