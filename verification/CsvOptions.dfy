/**
 What the reader does at the end of a text that has no last line break, and what its options do:
 trimming, skipping empty lines, and skipping comment lines.
 */
module CsvOptions {
  import opened Csv

  // ---------------------------------------------------------------------------------------------
  // The last line break
  // ---------------------------------------------------------------------------------------------

  /** A line break that is taken for one. */
  predicate BreaksLines(p: Params) { p.quoteChar != LF && p.separator != LF }

  /** Something has been read since the last line break. */
  predicate Pending(s: State) { s.row != [] || s.cell != [] }

  /** In a quotation that may hold line breaks. */
  predicate HoldsBreaks(p: Params, s: State) { p.quotedLinebreaks && s.quoted }

  lemma BreakEndsRow(p: Params, s: State)
    requires BreaksLines(p) && Pending(s) && !HoldsBreaks(p, s)
    ensures Finish(p, Step(p, s, LF)).data == Finish(p, s).data
  {
  }

  /** A text that ends inside a row reads as the same text with a line break at its end. */
  lemma LastBreakIsOptional(p: Params, data: Table, text: seq<char>)
    requires BreaksLines(p)
    requires var s := Run(p, Initial(data), text); Pending(s) && !HoldsBreaks(p, s)
    ensures ParsedState(p, data, text).data == ParsedState(p, data, text + [LF]).data
  {
    RunSnoc(p, Initial(data), text, LF);
    BreakEndsRow(p, Run(p, Initial(data), text));
  }

  /** An empty last line is not a row, and a line break in an open quotation is part of the cell. */
  lemma BreakAdds(p: Params, s: State)
    requires BreaksLines(p) && !p.trim && !p.skipCommentLines
    ensures Finish(p, Step(p, s, LF)).data == Finish(p, s).data <==>
            !HoldsBreaks(p, s) && (Pending(s) || p.skipEmptyLines)
  {
    var s' := Step(p, s, LF);
    if Pending(s) && HoldsBreaks(p, s) {
      LongerCell(p, s.cell, LF);
      assert Finish(p, s).data[|s.data|] == s.row + [CellValue(p, s.cell)];
      assert Finish(p, s').data[|s.data|] == s.row + [CellValue(p, s.cell + [LF])];
      assert (s.row + [CellValue(p, s.cell)])[|s.row|] != (s.row + [CellValue(p, s.cell + [LF])])[|s.row|];
    }
  }

  lemma ShorterValue(p: Params, c: seq<char>)
    requires !p.trim
    ensures |CellValue(p, c)| <= |c|
  {
    if p.autoQuote && Enclosed(p, c) { ReplacedShortens(c[1..|c| - 1], [p.quoteChar, p.quoteChar], [p.quoteChar]); }
  }

  lemma LongerCell(p: Params, c: seq<char>, x: char)
    requires !p.trim && x != p.quoteChar
    ensures CellValue(p, c + [x]) == c + [x] && CellValue(p, c) != c + [x]
  {
    ShorterValue(p, c);
    assert |c + [x]| == |c| + 1 && (c + [x])[|c|] == x;
    assert !Enclosed(p, c + [x]);
  }

  lemma {:induction false} ReplacedShortens(s: seq<char>, search: seq<char>, replace: seq<char>)
    requires |replace| <= |search| && search != []
    ensures |Replaced(s, search, replace)| <= |s|
    decreases |s|
  {
    if |search| <= |s| {
      if s[..|search|] == search {
        ReplacedShortens(s[|search|..], search, replace);
      } else {
        ReplacedShortens(s[1..], search, replace);
      }
    }
  }

  /** Everything that can be told of a last line break, when nothing is trimmed and no line is a comment. */
  lemma LastBreakExactly(p: Params, data: Table, text: seq<char>)
    requires BreaksLines(p) && !p.trim && !p.skipCommentLines
    ensures var s := Run(p, Initial(data), text);
            ParsedState(p, data, text).data == ParsedState(p, data, text + [LF]).data <==>
            !HoldsBreaks(p, s) && (Pending(s) || p.skipEmptyLines)
  {
    RunSnoc(p, Initial(data), text, LF);
    BreakAdds(p, Run(p, Initial(data), text));
  }

  // ---------------------------------------------------------------------------------------------
  // A table written without its last line break
  // ---------------------------------------------------------------------------------------------

  /** The text of a line without its line break. */
  function Unended(p: Params, texts: seq<seq<char>>): seq<char> {
    if texts == [] then [] else texts[0] + (if |texts| > 1 then [p.separator] else []) + Unended(p, texts[1..])
  }

  lemma {:induction false} LineIsEnded(p: Params, texts: seq<seq<char>>)
    ensures Line(p, texts) == Unended(p, texts) + NewLine(p)
    decreases |texts|
  {
    if texts != [] {
      LineIsEnded(p, texts[1..]);
      Regrouped(texts[0] + (if |texts| > 1 then [p.separator] else []), Unended(p, texts[1..]), NewLine(p));
    }
  }

  /** What is written for a table, but for the line break after its last row. */
  function OpenText(p: Params, table: Table): seq<char>
    requires table != []
  {
    var n := |table| - 1;
    Page(Lines(p, table)[..n]) + Unended(p, CellTexts(p, table[n]))
  }

  lemma OpenTextIs(p: Params, table: Table)
    requires table != []
    ensures TableText(p, table) == OpenText(p, table) + NewLine(p)
  {
    var n, lines := |table| - 1, Lines(p, table);
    PageSplit(lines, n);
    assert lines[n + 1..] == [];
    assert lines[n] + Page([]) == lines[n];
    LineIsEnded(p, CellTexts(p, table[n]));
    Regrouped(Page(lines[..n]), Unended(p, CellTexts(p, table[n])), NewLine(p));
  }

  /** Read up to there, the last row is still to be stored, and nothing is open that could hold a line break. */
  lemma OpenTextReads(p: Params, table: Table)
    requires Faithful(p) && TableSurvives(p, table) && table != []
    ensures var s := Run(p, Initial([]), OpenText(p, table));
            !HoldsBreaks(p, s) && s.data + [s.row + [CellValue(p, s.cell)]] == table
  {
    var s := Run(p, Initial([]), OpenText(p, table));
    TableComesBack(p, table);
    OpenTextIs(p, table);
    RunConcat(p, Initial([]), OpenText(p, table), NewLine(p));
    if HoldsBreaks(p, s) {
      BreakIsKept(p, s);
      assert false;
    }
    RunNewLine(p, s);
  }

  lemma BreakIsKept(p: Params, s: State)
    requires Faithful(p) && HoldsBreaks(p, s)
    ensures Run(p, s, NewLine(p)).cell != []
  {
    if p.hasCR {
      RunOne(p, s, CR);
      RunSnoc(p, s, [CR], LF);
      assert [CR] + [LF] == NewLine(p);
    } else {
      RunOne(p, s, LF);
    }
  }

  /** A last row of one empty cell has left no trace. */
  lemma EmptyLastRow(p: Params, table: Table)
    requires Faithful(p) && TableSurvives(p, table) && table != [] && table[|table| - 1] == [[]]
    ensures ParsedState(p, [], OpenText(p, table)).data == table[..|table| - 1]
  {
    var n := |table| - 1;
    var texts := CellTexts(p, table[n]);
    assert texts == [[]] && texts[1..] == [];
    assert Unended(p, texts) == [];
    assert OpenText(p, table) == Page(Lines(p, table)[..n]);
    RowsRead(p, table, n);
  }

  /**
   * Without the last line break a table that survives is still read back, if and only if its last
   * row is not one empty cell.
   */
  lemma OpenRoundTrip(p: Params, table: Table)
    requires Faithful(p) && TableSurvives(p, table) && table != []
    ensures ParsedState(p, [], OpenText(p, table)).data == table <==> table[|table| - 1] != [[]]
  {
    if table[|table| - 1] == [[]] {
      EmptyLastRow(p, table);
    } else {
      OpenTextReads(p, table);
      var s := Run(p, Initial([]), OpenText(p, table));
      assert table[|table| - 1] == s.row + [CellValue(p, s.cell)];
      assert !Pending(s) ==> s.row + [CellValue(p, s.cell)] == [[]];
    }
  }

  // ---------------------------------------------------------------------------------------------
  // Skipping
  // ---------------------------------------------------------------------------------------------

  /** The rows that are not dropped. */
  function Kept(table: Table, drops: Row -> bool): Table {
    if table == [] then []
    else Kept(table[..|table| - 1], drops) + if drops(table[|table| - 1]) then [] else [table[|table| - 1]]
  }

  lemma KeptAdd(table: Table, row: Row, drops: Row -> bool)
    ensures Kept(table + [row], drops) == Kept(table, drops) + if drops(row) then [] else [row]
  {
    assert (table + [row])[..|table|] == table;
  }

  /** The same but for rows that the one reader has dropped. */
  predicate Drops(s: State, full: State, drops: Row -> bool) {
    s == full.(data := s.data) && s.data == Kept(full.data, drops)
  }

  function Commented(prefix: char): Row -> bool { row => row != [] && row[0] != [] && row[0][0] == prefix }

  /** Two sets of options that differ in the skipping of comment lines only. */
  predicate SkipsComments(p: Params, q: Params) { p.skipCommentLines && q == p.(skipCommentLines := false) }

  lemma SameCell(p: Params, q: Params, c: seq<char>)
    requires SkipsComments(p, q)
    ensures CellValue(q, c) == CellValue(p, c) && (Toggles(q, c) <==> Toggles(p, c))
  {
  }

  lemma CommentIs(p: Params, row: Row)
    requires p.skipCommentLines && row != []
    ensures IsComment(p, row) <==> Commented(p.commentPrefix)(row)
  {
  }

  lemma CommentStored(p: Params, q: Params, s: State, full: State)
    requires SkipsComments(p, q) && Drops(s, full, Commented(p.commentPrefix))
    ensures Drops(EndRow(p, s), EndRow(q, full), Commented(p.commentPrefix))
  {
    SameCell(p, q, s.cell);
    var row := s.row + [CellValue(p, s.cell)];
    CommentIs(p, row);
    KeptAdd(full.data, row, Commented(p.commentPrefix));
    assert s.data + [] == s.data;
  }

  /** A line break outside a quotation that may hold it. */
  lemma BreakStep(p: Params, s: State)
    requires BreaksLines(p)
    ensures Step(p, s, LF) ==
            if HoldsBreaks(p, s) then Append(s, LF)
            else if p.skipEmptyLines && !Pending(s) then s.(lf := s.lf + 1) else EndRow(p, s.(lf := s.lf + 1))
  {
  }

  lemma CommentBreak(p: Params, q: Params, s: State, full: State)
    requires SkipsComments(p, q) && Drops(s, full, Commented(p.commentPrefix)) && BreaksLines(p)
    ensures Drops(Step(p, s, LF), Step(q, full, LF), Commented(p.commentPrefix))
  {
    BreakStep(p, s);
    BreakStep(q, full);
    CommentStored(p, q, s.(lf := s.lf + 1), full.(lf := full.lf + 1));
  }

  lemma CommentStep(p: Params, q: Params, s: State, full: State, ch: char)
    requires SkipsComments(p, q) && Drops(s, full, Commented(p.commentPrefix))
    ensures Drops(Step(p, s, ch), Step(q, full, ch), Commented(p.commentPrefix))
  {
    if ch == LF && BreaksLines(p) {
      CommentBreak(p, q, s, full);
    } else {
      SameCell(p, q, s.cell);
    }
  }

  lemma {:induction false} CommentRun(p: Params, q: Params, s: State, full: State, text: seq<char>)
    requires SkipsComments(p, q) && Drops(s, full, Commented(p.commentPrefix))
    ensures Drops(Run(p, s, text), Run(q, full, text), Commented(p.commentPrefix))
    decreases |text|
  {
    if text != [] {
      CommentStep(p, q, s, full, text[0]);
      CommentRun(p, q, Step(p, s, text[0]), Step(q, full, text[0]), text[1..]);
    }
  }

  /** Skipping comment lines is reading them, and dropping the rows whose first cell begins with the prefix. */
  lemma CommentsAreDropped(p: Params, text: seq<char>)
    requires p.skipCommentLines
    ensures ParsedState(p, [], text).data ==
            Kept(ParsedState(p.(skipCommentLines := false), [], text).data, Commented(p.commentPrefix))
  {
    var q := p.(skipCommentLines := false);
    CommentRun(p, q, Initial([]), Initial([]), text);
    CommentStored(p, q, Run(p, Initial([]), text), Run(q, Initial([]), text));
  }

  // ---------------------------------------------------------------------------------------------
  // Texts without quotes
  // ---------------------------------------------------------------------------------------------

  /** No quotation has begun. */
  predicate Unquoted(p: Params, s: State) { p.quoteChar !in s.cell && !s.quoted }

  lemma UnquotedStep(p: Params, s: State, ch: char)
    requires Unquoted(p, s) && ch != p.quoteChar
    ensures Unquoted(p, Step(p, s, ch))
  {
  }

  function OneEmpty(): Row -> bool { row => row == [[]] }

  lemma PlainValue(p: Params, c: seq<char>)
    requires p.quoteChar !in c && !p.trim
    ensures CellValue(p, c) == c
  {
  }

  lemma EmptyStored(p: Params, q: Params, s: State, full: State)
    requires SkipsEmpty(p, q) && Drops(s, full, OneEmpty()) && Unquoted(p, s) && Pending(s)
    ensures Drops(EndRow(p, s), EndRow(q, full), OneEmpty())
  {
    var row := s.row + [CellValue(p, s.cell)];
    PlainValue(p, s.cell);
    KeptAdd(full.data, row, OneEmpty());
    assert row[|s.row|] == s.cell;
  }

  lemma EmptySkipped(q: Params, full: State, data: Table)
    requires !q.trim && full.row == [] && full.cell == [] && data == Kept(full.data, OneEmpty())
    ensures EndRow(q, full).data == full.data + [[[]]] && Kept(EndRow(q, full).data, OneEmpty()) == data
  {
    KeptAdd(full.data, [[]], OneEmpty());
    assert full.row + [CellValue(q, full.cell)] == [[]];
  }

  /** Two sets of options that differ in the skipping of empty lines only, and do not trim. */
  predicate SkipsEmpty(p: Params, q: Params) { p.skipEmptyLines && !p.trim && q == p.(skipEmptyLines := false) }

  lemma EmptyBreak(p: Params, q: Params, s: State, full: State)
    requires SkipsEmpty(p, q) && BreaksLines(p) && Drops(s, full, OneEmpty()) && Unquoted(p, s)
    ensures Drops(Step(p, s, LF), Step(q, full, LF), OneEmpty())
  {
    BreakStep(p, s);
    BreakStep(q, full);
    if Pending(s) {
      EmptyStored(p, q, s.(lf := s.lf + 1), full.(lf := full.lf + 1));
    } else {
      EmptySkipped(q, full.(lf := full.lf + 1), s.data);
    }
  }

  lemma EmptyOther(p: Params, q: Params, s: State, full: State, ch: char)
    requires SkipsEmpty(p, q) && ch != p.quoteChar && (ch != LF || !BreaksLines(p))
    requires Drops(s, full, OneEmpty()) && Unquoted(p, s)
    ensures Drops(Step(p, s, ch), Step(q, full, ch), OneEmpty())
  {
    PlainValue(p, s.cell);
    PlainValue(q, s.cell);
  }

  lemma EmptyStep(p: Params, q: Params, s: State, full: State, ch: char)
    requires SkipsEmpty(p, q) && ch != p.quoteChar && Drops(s, full, OneEmpty()) && Unquoted(p, s)
    ensures Drops(Step(p, s, ch), Step(q, full, ch), OneEmpty())
  {
    if ch == LF && BreaksLines(p) { EmptyBreak(p, q, s, full); } else { EmptyOther(p, q, s, full, ch); }
  }

  lemma {:induction false} EmptyRun(p: Params, q: Params, s: State, full: State, text: seq<char>)
    requires SkipsEmpty(p, q) && p.quoteChar !in text
    requires Drops(s, full, OneEmpty()) && Unquoted(p, s)
    ensures Drops(Run(p, s, text), Run(q, full, text), OneEmpty()) && Unquoted(p, Run(p, s, text))
    decreases |text|
  {
    if text != [] {
      EmptyStep(p, q, s, full, text[0]);
      UnquotedStep(p, s, text[0]);
      EmptyRun(p, q, Step(p, s, text[0]), Step(q, full, text[0]), text[1..]);
    }
  }

  /** Skipping empty lines is, in a text without quotes, reading them and dropping the rows of one empty cell. */
  lemma EmptyLinesAreDropped(p: Params, text: seq<char>)
    requires p.skipEmptyLines && !p.trim && p.quoteChar !in text
    ensures ParsedState(p, [], text).data == Kept(ParsedState(p.(skipEmptyLines := false), [], text).data, OneEmpty())
  {
    var q := p.(skipEmptyLines := false);
    EmptyRun(p, q, Initial([]), Initial([]), text);
    var s, full := Run(p, Initial([]), text), Run(q, Initial([]), text);
    if Pending(s) { EmptyStored(p, q, s, full); }
  }

  // ---------------------------------------------------------------------------------------------
  // Trimming
  // ---------------------------------------------------------------------------------------------

  predicate Blank(s: seq<char>) { forall i :: 0 <= i < |s| ==> IsSpace(s[i]) }

  /** Without blanks at its ends. */
  predicate Tight(s: seq<char>) { s == [] || (!IsSpace(s[0]) && !IsSpace(s[|s| - 1])) }

  lemma {:induction false} TrimLeftIs(s: seq<char>) returns (before: seq<char>)
    ensures s == before + TrimLeft(s) && Blank(before)
    ensures TrimLeft(s) != [] ==> !IsSpace(TrimLeft(s)[0])
    decreases |s|
  {
    before := [];
    if s != [] && IsSpace(s[0]) {
      var rest := TrimLeftIs(s[1..]);
      before := [s[0]] + rest;
    }
  }

  lemma {:induction false} TrimRightIs(s: seq<char>) returns (after: seq<char>)
    ensures s == TrimRight(s) + after && Blank(after)
    ensures TrimRight(s) != [] ==> !IsSpace(TrimRight(s)[|TrimRight(s)| - 1])
    decreases |s|
  {
    after := [];
    if s != [] && IsSpace(s[|s| - 1]) {
      var rest := TrimRightIs(s[..|s| - 1]);
      after := rest + [s[|s| - 1]];
    }
  }

  /** Trimming takes away blanks at the ends, all of them, and nothing else. */
  lemma TrimIs(p: Params, s: seq<char>) returns (before: seq<char>, after: seq<char>)
    requires p.trim
    ensures s == before + Trim(p, s) + after && Blank(before) && Blank(after) && Tight(Trim(p, s))
  {
    before := TrimLeftIs(s);
    after := TrimRightIs(TrimLeft(s));
    Regrouped(before, Trim(p, s), after);
    if Trim(p, s) != [] { assert Trim(p, s)[0] == TrimLeft(s)[0]; }
  }

  function Trimmed(s: seq<char>): seq<char> { TrimRight(TrimLeft(s)) }

  function TrimmedRow(row: Row): Row { seq(|row|, j requires 0 <= j < |row| => Trimmed(row[j])) }

  function TrimmedTable(table: Table): Table { seq(|table|, i requires 0 <= i < |table| => TrimmedRow(table[i])) }

  predicate Trims(s: State, raw: State) {
    s == raw.(data := s.data, row := s.row) && s.data == TrimmedTable(raw.data) && s.row == TrimmedRow(raw.row)
  }

  lemma TrimmedValue(p: Params, c: seq<char>)
    requires p.trim && p.quoteChar !in c
    ensures CellValue(p, c) == Trimmed(c)
  {
    var before, after := TrimIs(p, c);
    var t := Trim(p, c);
    forall i | 0 <= i < |t| ensures t[i] != p.quoteChar { assert c[|before| + i] == t[i]; }
  }

  lemma TrimStored(p: Params, q: Params, s: State, raw: State)
    requires p.trim && !p.skipCommentLines && q == p.(trim := false) && Trims(s, raw) && Unquoted(p, s)
    ensures CellValue(p, s.cell) == Trimmed(s.cell) && CellValue(q, s.cell) == s.cell
    ensures Trims(s.(row := s.row + [CellValue(p, s.cell)], cell := []), raw.(row := raw.row + [CellValue(q, s.cell)], cell := []))
    ensures Trims(EndRow(p, s), EndRow(q, raw))
  {
    TrimmedValue(p, s.cell);
    PlainValue(q, s.cell);
    assert TrimmedRow(raw.row + [s.cell]) == TrimmedRow(raw.row) + [Trimmed(s.cell)];
    assert TrimmedTable(raw.data + [raw.row + [s.cell]]) == TrimmedTable(raw.data) + [TrimmedRow(raw.row + [s.cell])];
  }

  lemma TrimStep(p: Params, q: Params, s: State, raw: State, ch: char)
    requires p.trim && !p.skipCommentLines && q == p.(trim := false) && Trims(s, raw) && Unquoted(p, s) && ch != p.quoteChar
    ensures Trims(Step(p, s, ch), Step(q, raw, ch))
  {
    TrimStored(p, q, s, raw);
    TrimStored(p, q, s.(lf := s.lf + 1), raw.(lf := raw.lf + 1));
  }

  lemma {:induction false} TrimRun(p: Params, q: Params, s: State, raw: State, text: seq<char>)
    requires p.trim && !p.skipCommentLines && q == p.(trim := false) && p.quoteChar !in text
    requires Trims(s, raw) && Unquoted(p, s)
    ensures Trims(Run(p, s, text), Run(q, raw, text)) && Unquoted(p, Run(p, s, text))
    decreases |text|
  {
    if text != [] {
      TrimStep(p, q, s, raw, text[0]);
      UnquotedStep(p, s, text[0]);
      TrimRun(p, q, Step(p, s, text[0]), Step(q, raw, text[0]), text[1..]);
    }
  }

  /** Reading with trimming is, in a text without quotes, reading without it and trimming every cell. */
  lemma CellsAreTrimmed(p: Params, text: seq<char>)
    requires p.trim && !p.skipCommentLines && p.quoteChar !in text
    ensures ParsedState(p, [], text).data == TrimmedTable(ParsedState(p.(trim := false), [], text).data)
  {
    var q := p.(trim := false);
    TrimRun(p, q, Initial([]), Initial([]), text);
    TrimStored(p, q, Run(p, Initial([]), text), Run(q, Initial([]), text));
  }

  // ---------------------------------------------------------------------------------------------
  // Blanks around a quoted cell
  // ---------------------------------------------------------------------------------------------

  /** Trimming and quoting are on, and the four characters cannot be confused with each other or with a blank. */
  predicate TrimsQuotes(p: Params) {
    && p.trim && p.autoQuote && p.separator != p.quoteChar && !IsSpace(p.quoteChar)
    && p.separator != CR && p.separator != LF
  }

  /** White space that is neither a line break nor a separator. */
  predicate Spacing(p: Params, s: seq<char>) { Blank(s) && NoBreaks(s) && p.separator !in s }

  lemma {:induction false} RunSpacing(p: Params, s: State, blanks: seq<char>)
    requires TrimsQuotes(p) && Spacing(p, blanks)
    ensures Run(p, s, blanks) == s.(cell := s.cell + blanks)
    decreases |blanks|
  {
    if blanks == [] {
      assert s.cell + blanks == s.cell;
    } else {
      assert blanks[0] in blanks && IsSpace(blanks[0]);
      RunSpacing(p, Append(s, blanks[0]), blanks[1..]);
      assert s.cell + [blanks[0]] + blanks[1..] == s.cell + blanks;
    }
  }

  lemma {:induction false} BlankUpToQuote(q: char, blanks: seq<char>, rest: seq<char>)
    requires Blank(blanks) && (rest == [] || rest[0] == q)
    ensures BlankBeforeQuote(q, blanks + rest)
    decreases |blanks|
  {
    if blanks == [] {
      assert blanks + rest == rest;
    } else {
      BlankUpToQuote(q, blanks[1..], rest);
      assert (blanks + rest)[1..] == blanks[1..] + rest;
    }
  }

  /** A cell that is blanks, then a quote, then anything. */
  predicate QuotedAfter(p: Params, blanks: seq<char>, cell: seq<char>) {
    Blank(blanks) && blanks + [p.quoteChar] <= cell
  }

  lemma QuoteToggles(p: Params, blanks: seq<char>, cell: seq<char>)
    requires TrimsQuotes(p) && QuotedAfter(p, blanks, cell)
    ensures Toggles(p, cell)
  {
    var rest := cell[|blanks|..];
    assert (blanks + [p.quoteChar])[|blanks|] == cell[|blanks|];
    assert cell == blanks + rest;
    BlankUpToQuote(p.quoteChar, blanks, rest);
  }

  lemma QuotedStays(p: Params, blanks: seq<char>, cell: seq<char>, more: seq<char>)
    requires QuotedAfter(p, blanks, cell)
    ensures QuotedAfter(p, blanks, cell + more)
  {
  }

  /** One character of the cell, as it is written. */
  lemma SpacedChar(p: Params, s: State, blanks: seq<char>, ch: char)
    requires TrimsQuotes(p) && (p.quotedLinebreaks || (ch != CR && ch != LF)) && s.quoted && QuotedAfter(p, blanks, s.cell)
    ensures Run(p, s, EscapedChar(p.quoteChar, ch)) == s.(cell := s.cell + EscapedChar(p.quoteChar, ch))
  {
    var q := p.quoteChar;
    RunOne(p, s, ch);
    if ch == q {
      var s1 := Step(p, s, q);
      QuoteToggles(p, blanks, s.cell);
      QuotedStays(p, blanks, s.cell, [q]);
      QuoteToggles(p, blanks, s.cell + [q]);
      RunSnoc(p, s, [q], q);
      assert [q] + [q] == EscapedChar(q, ch);
      assert s.cell + [q] + [q] == s.cell + EscapedChar(q, ch);
    }
  }

  lemma {:induction false} SpacedEscaped(p: Params, s: State, blanks: seq<char>, c: Cell)
    requires TrimsQuotes(p) && (p.quotedLinebreaks || NoBreaks(c)) && s.quoted && QuotedAfter(p, blanks, s.cell)
    ensures Run(p, s, Escaped(p.quoteChar, c)) == s.(cell := s.cell + Escaped(p.quoteChar, c))
    decreases |c|
  {
    var q := p.quoteChar;
    if c == [] {
      assert s.cell + [] == s.cell;
    } else {
      EscapedStep(q, c);
      var head, rest := EscapedChar(q, c[0]), Escaped(q, c[1..]);
      assert c[0] in c;
      RunConcat(p, s, head, rest);
      SpacedChar(p, s, blanks, c[0]);
      QuotedStays(p, blanks, s.cell, head);
      SpacedEscaped(p, s.(cell := s.cell + head), blanks, c[1..]);
      Regrouped(s.cell, head, rest);
    }
  }

  function InQuotes(p: Params, c: Cell): seq<char> { [p.quoteChar] + Escaped(p.quoteChar, c) + [p.quoteChar] }

  /** The quote that opens, after the blanks. */
  lemma SpacedOpens(p: Params, s: State, before: seq<char>)
    requires TrimsQuotes(p) && Spacing(p, before) && s.cell == [] && !s.quoted
    ensures Run(p, s, before + [p.quoteChar]) == s.(cell := before + [p.quoteChar], quoted := true)
  {
    var q := p.quoteChar;
    RunSpacing(p, s, before);
    RunSnoc(p, s, before, q);
    BlankUpToQuote(q, before, []);
    assert before + [] == before && s.cell + before == before;
  }

  /** The quote that closes. */
  lemma SpacedCloses(p: Params, s: State, before: seq<char>)
    requires TrimsQuotes(p) && QuotedAfter(p, before, s.cell) && s.quoted
    ensures Run(p, s, [p.quoteChar]) == s.(cell := s.cell + [p.quoteChar], quoted := false)
  {
    RunOne(p, s, p.quoteChar);
    QuoteToggles(p, before, s.cell);
  }

  lemma SpacedInside(p: Params, s: State, before: seq<char>, c: Cell)
    requires TrimsQuotes(p) && Spacing(p, before) && s.cell == [] && !s.quoted && (p.quotedLinebreaks || NoBreaks(c))
    ensures Run(p, s, before + InQuotes(p, c)) == s.(cell := before + InQuotes(p, c))
  {
    var q, e := p.quoteChar, Escaped(p.quoteChar, c);
    var open := before + [q];
    var s1 := s.(cell := open, quoted := true);
    SpacedOpens(p, s, before);
    SpacedEscaped(p, s1, before, c);
    QuotedStays(p, before, open, e);
    SpacedCloses(p, s1.(cell := open + e), before);
    RunConcat(p, s, open, e);
    RunConcat(p, s, open + e, [q]);
    InQuotesIs(before, q, e);
  }

  lemma InQuotesIs(before: seq<char>, q: char, e: seq<char>)
    ensures before + [q] + e + [q] == before + ([q] + e + [q])
  {
  }

  lemma {:induction false} TrimLeftDrops(blanks: seq<char>, s: seq<char>)
    requires Blank(blanks) && s != [] && !IsSpace(s[0])
    ensures TrimLeft(blanks + s) == s
    decreases |blanks|
  {
    if blanks == [] {
      assert blanks + s == s;
    } else {
      TrimLeftDrops(blanks[1..], s);
      assert (blanks + s)[1..] == blanks[1..] + s;
    }
  }

  lemma {:induction false} TrimRightDrops(s: seq<char>, blanks: seq<char>)
    requires Blank(blanks) && s != [] && !IsSpace(s[|s| - 1])
    ensures TrimRight(s + blanks) == s
    decreases |blanks|
  {
    if blanks == [] {
      assert s + blanks == s;
    } else {
      var n := |blanks| - 1;
      TrimRightDrops(s, blanks[..n]);
      assert (s + blanks)[..|s + blanks| - 1] == s + blanks[..n];
      assert (s + blanks)[|s + blanks| - 1] == blanks[n];
    }
  }

  lemma SpacedValue(p: Params, before: seq<char>, after: seq<char>, c: Cell)
    requires TrimsQuotes(p) && Blank(before) && Blank(after)
    ensures CellValue(p, before + InQuotes(p, c) + after) == c
  {
    var mid := InQuotes(p, c);
    TrimLeftDrops(before, mid + after);
    Regrouped(before, mid, after);
    TrimRightDrops(mid, after);
    assert mid[1..|mid| - 1] == Escaped(p.quoteChar, c);
    UnescapedEscaped(p.quoteChar, c);
  }

  /**
   * With trimming on, white space before and after a quoted cell is not part of it: wherever a cell may
   * begin, what is in the quotes is read, separators and line breaks and all.
   */
  lemma SpacedQuoteReads(p: Params, s: State, before: seq<char>, after: seq<char>, c: Cell)
    requires TrimsQuotes(p) && Spacing(p, before) && Spacing(p, after) && s.cell == [] && !s.quoted
    requires p.quotedLinebreaks || NoBreaks(c)
    ensures var r := Run(p, s, before + InQuotes(p, c) + after);
            r == s.(cell := r.cell) && CellValue(p, r.cell) == c
  {
    RunConcat(p, s, before + InQuotes(p, c), after);
    SpacedInside(p, s, before, c);
    RunSpacing(p, s.(cell := before + InQuotes(p, c)), after);
    SpacedValue(p, before, after, c);
  }

  // ---------------------------------------------------------------------------------------------
  // Line breaks of both kinds
  // ---------------------------------------------------------------------------------------------

  /** A table whose rows end in CR LF or in LF alone, as `crs` says. */
  function MixedText(p: Params, table: Table, crs: seq<bool>): seq<char>
    requires |crs| == |table|
  {
    if table == [] then []
    else Line(p.(hasCR := crs[0]), CellTexts(p, table[0])) + MixedText(p, table[1..], crs[1..])
  }

  function CountTrue(bs: seq<bool>): nat { if bs == [] then 0 else (if bs[0] then 1 else 0) + CountTrue(bs[1..]) }

  /** The reader does not look at the kind of line break that is to be written. */
  lemma {:induction false} RunIgnoresCR(p: Params, s: State, text: seq<char>, cr: bool)
    ensures Run(p.(hasCR := cr), s, text) == Run(p, s, text)
    decreases |text|
  {
    if text != [] {
      StepIgnoresCR(p, s, text[0], cr);
      RunIgnoresCR(p, Step(p, s, text[0]), text[1..], cr);
    }
  }

  lemma CellIgnoresCR(p: Params, c: seq<char>, cr: bool)
    ensures CellValue(p.(hasCR := cr), c) == CellValue(p, c) && (Toggles(p.(hasCR := cr), c) <==> Toggles(p, c))
  {
  }

  lemma StepIgnoresCR(p: Params, s: State, ch: char, cr: bool)
    ensures Step(p.(hasCR := cr), s, ch) == Step(p, s, ch)
  {
    CellIgnoresCR(p, s.cell, cr);
  }

  lemma TextsIgnoreCR(p: Params, row: Row, cr: bool)
    ensures CellTexts(p.(hasCR := cr), row) == CellTexts(p, row)
  {
  }

  lemma SurvivalIgnoresCR(p: Params, row: Row, cr: bool)
    requires RowComesBack(p, row)
    ensures RowComesBack(p.(hasCR := cr), row)
  {
    forall j | 0 <= j < |row| ensures Survives(p.(hasCR := cr), row[j], j == |row| - 1) {
      assert Survives(p, row[j], j == |row| - 1);
      forall k | 0 <= k < |row[j]| ensures OpenQuote(p.(hasCR := cr), row[j][..k]) <==> OpenQuote(p, row[j][..k]) {}
    }
  }

  /** The state after a row that ended in CR LF, or in LF alone. */
  function Ended(s: State, row: Row, cr: bool): State {
    State(s.data + [row], [], [], false, s.cr + (if cr then 1 else 0), s.lf + 1)
  }

  lemma MixedLine(p: Params, s: State, row: Row, cr: bool)
    requires Faithful(p) && AtLine(s) && RowComesBack(p, row)
    ensures Run(p, s, Line(p.(hasCR := cr), CellTexts(p, row))) == Ended(s, row, cr)
  {
    var q := p.(hasCR := cr);
    SurvivalIgnoresCR(p, row, cr);
    TextsIgnoreCR(p, row, cr);
    RowReads(q, row);
    assert LineReads(q, Line(q, CellTexts(q, row)), row);
    RunIgnoresCR(p, s, Line(q, CellTexts(p, row)), cr);
  }

  lemma MixedHead(p: Params, s: State, table: Table, crs: seq<bool>)
    requires Faithful(p) && AtLine(s) && |crs| == |table| && table != [] && RowComesBack(p, table[0])
    ensures Run(p, s, MixedText(p, table, crs)) == Run(p, Ended(s, table[0], crs[0]), MixedText(p, table[1..], crs[1..]))
  {
    MixedLine(p, s, table[0], crs[0]);
    RunConcat(p, s, Line(p.(hasCR := crs[0]), CellTexts(p, table[0])), MixedText(p, table[1..], crs[1..]));
  }

  lemma SurvivesTail(p: Params, table: Table)
    requires TableSurvives(p, table) && table != []
    ensures RowComesBack(p, table[0]) && TableSurvives(p, table[1..])
  {
  }

  lemma {:induction false} MixedRun(p: Params, s: State, table: Table, crs: seq<bool>)
    requires Faithful(p) && AtLine(s) && TableSurvives(p, table) && |crs| == |table|
    ensures Run(p, s, MixedText(p, table, crs)) ==
            State(s.data + table, [], [], false, s.cr + CountTrue(crs), s.lf + |table|)
    decreases |table|
  {
    if table == [] {
      assert s.data + table == s.data;
    } else {
      SurvivesTail(p, table);
      MixedHead(p, s, table, crs);
      MixedRun(p, Ended(s, table[0], crs[0]), table[1..], crs[1..]);
      TableRegrouped(s.data, table);
    }
  }

  lemma TableRegrouped(before: Table, table: Table)
    requires table != []
    ensures before + [table[0]] + table[1..] == before + table
  {
  }

  /** Whatever its line breaks are, the table is read; and CR LF is what will be written if more than half of them are that. */
  lemma MixedBreaks(p: Params, table: Table, crs: seq<bool>)
    requires Faithful(p) && TableSurvives(p, table) && |crs| == |table|
    ensures var s := ParsedState(p, [], MixedText(p, table, crs));
            s.data == table && (MostlyCR(s) <==> 2 * CountTrue(crs) > |table|)
  {
    MixedRun(p, Initial([]), table, crs);
    assert [] + table == table;
  }
}
