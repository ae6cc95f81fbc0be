/**
 * The CSV reader and writer of the vendored parser: a character machine that toggles a quoted state,
 * and a printer that quotes the cells that need it. The main result says exactly which tables come
 * back unchanged when what was written is read again.
 */
module Csv {
  const CR: char := '\r'
  const LF: char := '\n'
  const SPACE: char := ' '
  /** The length of the buffer that the reader fills again and again. */
  const BUF_LENGTH: nat := 64 * 1024

  type Cell = seq<char>
  type Row = seq<Cell>
  type Table = seq<Row>

  datatype Params = Params(
    separator: char,
    quoteChar: char,
    trim: bool,
    hasCR: bool,
    quotedLinebreaks: bool,
    autoQuote: bool,
    skipCommentLines: bool,
    commentPrefix: char,
    skipEmptyLines: bool
  )

  // ---------------------------------------------------------------------------------------------
  // ReplaceString: the escape and its inverse
  // ---------------------------------------------------------------------------------------------

  /** Every leftmost, non-overlapping occurrence of `search` becomes `replace`. */
  function Replaced(s: seq<char>, search: seq<char>, replace: seq<char>): seq<char>
    requires search != []
    decreases |s|
  {
    if |s| < |search| then s
    else if s[..|search|] == search then replace + Replaced(s[|search|..], search, replace)
    else [s[0]] + Replaced(s[1..], search, replace)
  }

  ghost predicate FoundAt(s: seq<char>, search: seq<char>, i: int) {
    0 <= i <= |s| - |search| && s[i..i + |search|] == search
  }

  /** `std::string::find`; -1 stands for npos. */
  method Find(s: seq<char>, search: seq<char>, from: nat) returns (at: int)
    requires from <= |s|
    ensures NextIs(s, search, from, at)
  {
    at := from;
    while at + |search| <= |s|
      invariant from <= at <= |s| + 1
      invariant forall i :: from <= i < at ==> !FoundAt(s, search, i)
    {
      if s[at..at + |search|] == search { return; }
      at := at + 1;
    }
    at := -1;
  }

  lemma {:induction false} ReplacedSkip(s: seq<char>, search: seq<char>, replace: seq<char>, k: nat)
    requires search != [] && k <= |s| && NoneBefore(s, search, 0, k)
    ensures Replaced(s, search, replace) == s[..k] + Replaced(s[k..], search, replace)
    decreases |s|
  {
    if k == 0 {
      assert s[0..] == s;
    } else {
      assert !FoundAt(s, search, 0);
      if |search| <= |s| {
        assert NoneBefore(s, search, 1, k);
        NoneBeforeTail(s, search, 1, k);
        ReplacedSkip(s[1..], search, replace, k - 1);
        assert s[1..][k - 1..] == s[k..];
        assert s[..k] == [s[0]] + s[1..][..k - 1];
      } else {
        assert s == s[..k] + s[k..];
      }
    }
  }

  ghost predicate NoneBefore(s: seq<char>, search: seq<char>, from: nat, to: nat) {
    forall i :: from <= i < to ==> !FoundAt(s, search, i)
  }

  lemma NoneBeforeTail(str: seq<char>, search: seq<char>, pos: nat, at: nat)
    requires search != [] && pos <= at <= |str| && NoneBefore(str, search, pos, at)
    ensures NoneBefore(str[pos..], search, 0, at - pos)
  {
    forall i | 0 <= i < at - pos ensures !FoundAt(str[pos..], search, i) {
      assert !FoundAt(str, search, pos + i);
      assert i + |search| <= |str| - pos ==>
          str[pos..][i..i + |search|] == str[pos + i..pos + i + |search|];
    }
  }

  lemma Regrouped(a: seq<char>, b: seq<char>, c: seq<char>)
    ensures a + (b + c) == a + b + c
  {
  }

  /** From `pos`, with no occurrence before `at`: what is left is copied up to `at`. */
  lemma SkipTo(str: seq<char>, search: seq<char>, replace: seq<char>, pos: nat, at: nat)
    requires search != [] && pos <= at <= |str| && NoneBefore(str, search, pos, at)
    ensures Rewritten(str, search, replace, pos) == Rewritten(str, search, replace, at)
  {
    NoneBeforeTail(str, search, pos, at);
    ReplacedSkip(str[pos..], search, replace, at - pos);
    assert str[pos..][at - pos..] == str[at..];
    assert str[..at] == str[..pos] + str[pos..][..at - pos];
    Regrouped(str[..pos], str[pos..][..at - pos], Replaced(str[at..], search, replace));
  }

  lemma ReplacedHere(str: seq<char>, search: seq<char>, replace: seq<char>, at: nat)
    requires search != [] && FoundAt(str, search, at)
    ensures Replaced(str[at..], search, replace) == replace + Replaced(str[at + |search|..], search, replace)
  {
    assert str[at..][..|search|] == str[at..at + |search|];
    assert str[at..][|search|..] == str[at + |search|..];
  }

  ghost predicate NextIs(str: seq<char>, search: seq<char>, pos: nat, at: int) {
    && pos <= |str|
    && (at == -1 || (pos <= at && FoundAt(str, search, at)))
    && NoneBefore(str, search, pos, if at == -1 then |str| else at)
  }

  /** What the string will be once the part from `pos` on has been treated as well. */
  function Rewritten(str: seq<char>, search: seq<char>, replace: seq<char>, pos: nat): seq<char>
    requires search != [] && pos <= |str|
  {
    str[..pos] + Replaced(str[pos..], search, replace)
  }

  lemma RewriteNext(str: seq<char>, search: seq<char>, replace: seq<char>, pos: nat, at: nat)
    requires search != [] && NextIs(str, search, pos, at)
    ensures var str' := str[..at] + replace + str[at + |search|..];
            Rewritten(str', search, replace, at + |replace|) == Rewritten(str, search, replace, pos)
  {
    SkipTo(str, search, replace, pos, at);
    ReplacedHere(str, search, replace, at);
    var str' := str[..at] + replace + str[at + |search|..];
    assert str'[..at + |replace|] == str[..at] + replace;
    assert str'[at + |replace|..] == str[at + |search|..];
  }

  lemma RewriteEnds(str: seq<char>, search: seq<char>, replace: seq<char>, pos: nat)
    requires search != [] && NextIs(str, search, pos, -1)
    ensures Rewritten(str, search, replace, pos) == str
  {
    SkipTo(str, search, replace, pos, |str|);
    assert str[..|str|] == str;
  }

  /** ReplaceString: the string is edited in place, from one occurrence to the next. */
  method ReplaceString(s: seq<char>, search: seq<char>, replace: seq<char>) returns (str: seq<char>)
    requires search != []
    ensures str == Replaced(s, search, replace)
  {
    str := s;
    var pos: nat := 0;
    var at := Find(str, search, pos);
    while at != -1
      invariant NextIs(str, search, pos, at)
      invariant Replaced(s, search, replace) == Rewritten(str, search, replace, pos)
      decreases |str| - pos, at != -1
    {
      RewriteNext(str, search, replace, pos, at);
      str := str[..at] + replace + str[at + |search|..];
      pos := at + |replace|;
      at := Find(str, search, pos);
    }
    RewriteEnds(str, search, replace, pos);
  }

  function Escaped(q: char, s: seq<char>): seq<char> { Replaced(s, [q], [q, q]) }
  function Unescaped(q: char, s: seq<char>): seq<char> { Replaced(s, [q, q], [q]) }

  function EscapedChar(q: char, ch: char): seq<char> { if ch == q then [q, q] else [ch] }

  lemma EscapedStep(q: char, s: seq<char>)
    requires s != []
    ensures Escaped(q, s) == EscapedChar(q, s[0]) + Escaped(q, s[1..])
  {
    assert s[..1] == [s[0]];
  }

  /** Doubling the quotes and halving the pairs again gives back any text. */
  lemma {:induction false} UnescapedEscaped(q: char, s: seq<char>)
    ensures Unescaped(q, Escaped(q, s)) == s
    decreases |s|
  {
    if s != [] {
      EscapedStep(q, s);
      var e := Escaped(q, s);
      var rest := Escaped(q, s[1..]);
      UnescapedEscaped(q, s[1..]);
      if s[0] == q {
        assert e[..2] == [q, q] && e[2..] == rest;
      } else {
        assert e[1..] == rest;
        if |e| >= 2 { assert e[..2][0] == s[0]; } else { assert rest == []; }
      }
    }
  }

  /** Halving pairs never lengthens a text, and leaves every other character where it occurs. */
  lemma {:induction false} UnescapedKeeps(q: char, s: seq<char>, x: char)
    requires x != q
    ensures |Unescaped(q, s)| <= |s|
    ensures x in Unescaped(q, s) <==> x in s
    decreases |s|
  {
    if |s| >= 2 {
      if s[..2] == [q, q] {
        UnescapedKeeps(q, s[2..], x);
        assert s == [q, q] + s[2..];
      } else {
        UnescapedKeeps(q, s[1..], x);
        assert s == [s[0]] + s[1..];
      }
    }
  }

  // ---------------------------------------------------------------------------------------------
  // The reader
  // ---------------------------------------------------------------------------------------------

  /** `isspace` in the classic locale. */
  predicate IsSpace(ch: char) { ch == SPACE || ch == '\t' || ch == LF || ch == '\U{0B}' || ch == '\U{0C}' || ch == CR }

  function TrimLeft(s: seq<char>): seq<char> {
    if s != [] && IsSpace(s[0]) then TrimLeft(s[1..]) else s
  }

  function TrimRight(s: seq<char>): seq<char> {
    if s != [] && IsSpace(s[|s| - 1]) then TrimRight(s[..|s| - 1]) else s
  }

  function Trim(p: Params, s: seq<char>): seq<char> {
    if p.trim then TrimRight(TrimLeft(s)) else s
  }

  predicate Enclosed(p: Params, s: seq<char>) {
    |s| >= 2 && s[0] == p.quoteChar && s[|s| - 1] == p.quoteChar
  }

  function Unquote(p: Params, s: seq<char>): seq<char> {
    if p.autoQuote && Enclosed(p, s) then Unescaped(p.quoteChar, s[1..|s| - 1]) else s
  }

  function CellValue(p: Params, s: seq<char>): Cell { Unquote(p, Trim(p, s)) }

  /** Nothing but white space before the first quote character, if there is one. */
  predicate BlankBeforeQuote(q: char, s: seq<char>) {
    s == [] || s[0] == q || (IsSpace(s[0]) && BlankBeforeQuote(q, s[1..]))
  }

  /** Does a quote character read after `cell` open or close a quotation? */
  predicate Toggles(p: Params, cell: seq<char>) {
    cell == [] || cell[0] == p.quoteChar || (p.trim && BlankBeforeQuote(p.quoteChar, cell))
  }

  datatype State = State(data: Table, row: Row, cell: seq<char>, quoted: bool, cr: nat, lf: nat)

  predicate IsComment(p: Params, row: Row)
    requires row != []
  {
    p.skipCommentLines && row[0] != [] && row[0][0] == p.commentPrefix
  }

  function Append(s: State, ch: char): State { s.(cell := s.cell + [ch]) }

  /** The row being read is complete. */
  function EndRow(p: Params, s: State): State {
    var row := s.row + [CellValue(p, s.cell)];
    s.(data := if IsComment(p, row) then s.data else s.data + [row], row := [], cell := [], quoted := false)
  }

  function Step(p: Params, s: State, ch: char): State {
    if ch == p.quoteChar then
      Append(s.(quoted := if Toggles(p, s.cell) then !s.quoted else s.quoted), ch)
    else if ch == p.separator then
      if s.quoted then Append(s, ch) else s.(row := s.row + [CellValue(p, s.cell)], cell := [])
    else if ch == CR then
      if p.quotedLinebreaks && s.quoted then Append(s, ch) else s.(cr := s.cr + 1)
    else if ch == LF then
      if p.quotedLinebreaks && s.quoted then Append(s, ch)
      else if p.skipEmptyLines && s.row == [] && s.cell == [] then s.(lf := s.lf + 1)
      else EndRow(p, s.(lf := s.lf + 1))
    else
      Append(s, ch)
  }

  function Run(p: Params, s: State, text: seq<char>): State
    decreases |text|
  {
    if text == [] then s else Run(p, Step(p, s, text[0]), text[1..])
  }

  /** A last row without a line break counts, unless it is empty. */
  function Finish(p: Params, s: State): State {
    if s.row == [] && s.cell == [] then s else EndRow(p, s)
  }

  function Initial(data: Table): State { State(data, [], [], false, 0, 0) }

  function ParsedState(p: Params, data: Table, text: seq<char>): State { Finish(p, Run(p, Initial(data), text)) }

  /** More CRs than half the line breaks, rounded down. */
  predicate MostlyCR(s: State) { s.cr > s.lf / 2 }

  lemma {:induction false} RunConcat(p: Params, s: State, a: seq<char>, b: seq<char>)
    ensures Run(p, s, a + b) == Run(p, Run(p, s, a), b)
    decreases |a|
  {
    if a == [] {
      assert a + b == b;
    } else {
      assert (a + b)[1..] == a[1..] + b;
      RunConcat(p, Step(p, s, a[0]), a[1..], b);
    }
  }

  lemma RunOne(p: Params, s: State, ch: char)
    ensures Run(p, s, [ch]) == Step(p, s, ch)
  {
  }

  lemma RunSnoc(p: Params, s: State, a: seq<char>, ch: char)
    ensures Run(p, s, a + [ch]) == Step(p, Run(p, s, a), ch)
  {
    RunConcat(p, s, a, [ch]);
    RunOne(p, Run(p, s, a), ch);
  }

  // ---------------------------------------------------------------------------------------------
  // The writer
  // ---------------------------------------------------------------------------------------------

  predicate NeedsQuote(p: Params, c: Cell) { p.separator in c || SPACE in c || LF in c }

  function CellText(p: Params, c: Cell): seq<char> {
    if p.autoQuote && NeedsQuote(p, c) then [p.quoteChar] + Escaped(p.quoteChar, c) + [p.quoteChar] else c
  }

  function NewLine(p: Params): seq<char> { if p.hasCR then [CR, LF] else [LF] }

  /** One line: the texts of its cells, the separators between them, and the line break. */
  function Line(p: Params, texts: seq<seq<char>>): seq<char> {
    if texts == [] then NewLine(p)
    else texts[0] + (if |texts| > 1 then [p.separator] else []) + Line(p, texts[1..])
  }

  function Page(lines: seq<seq<char>>): seq<char> {
    if lines == [] then [] else lines[0] + Page(lines[1..])
  }

  function CellTexts(p: Params, row: Row): seq<seq<char>> {
    seq(|row|, j requires 0 <= j < |row| => CellText(p, row[j]))
  }

  function Lines(p: Params, table: Table): seq<seq<char>> {
    seq(|table|, i requires 0 <= i < |table| => Line(p, CellTexts(p, table[i])))
  }

  function TableText(p: Params, table: Table): seq<char> { Page(Lines(p, table)) }

  // ---------------------------------------------------------------------------------------------
  // Which tables come back
  // ---------------------------------------------------------------------------------------------

  /** Automatic quoting on, nothing trimmed or skipped, and four characters that cannot be confused. */
  predicate Faithful(p: Params) {
    && p.autoQuote && !p.trim && !p.skipCommentLines && !p.skipEmptyLines
    && p.separator != p.quoteChar
    && p.separator != CR && p.separator != LF && p.quoteChar != CR && p.quoteChar != LF
  }

  predicate NoBreaks(c: seq<char>) { CR !in c && LF !in c }

  function Quotes(q: char, c: seq<char>): nat {
    if c == [] then 0 else Quotes(q, c[..|c| - 1]) + if c[|c| - 1] == q then 1 else 0
  }

  /** A text that begins with a quote character and has an odd number of them. */
  predicate OpenQuote(p: Params, c: seq<char>) {
    c != [] && c[0] == p.quoteChar && Quotes(p.quoteChar, c) % 2 == 1
  }

  /** Every CR of a cell written without quotes is read inside a quotation that may hold line breaks. */
  predicate KeepsCR(p: Params, c: Cell) {
    forall k :: 0 <= k < |c| && c[k] == CR ==> p.quotedLinebreaks && OpenQuote(p, c[..k])
  }

  /** What a caller can check of a cell before writing it; `last` says that it ends its row. */
  predicate Survives(p: Params, c: Cell, last: bool) {
    if NeedsQuote(p, c) then p.quotedLinebreaks || NoBreaks(c)
    else KeepsCR(p, c) && !Enclosed(p, c) && (OpenQuote(p, c) ==> last && !p.quotedLinebreaks)
  }

  predicate RowSurvives(p: Params, row: Row) {
    forall j :: 0 <= j < |row| ==> Survives(p, row[j], j == |row| - 1)
  }

  predicate RowComesBack(p: Params, row: Row) { row != [] && RowSurvives(p, row) }

  predicate TableSurvives(p: Params, table: Table) {
    forall i :: 0 <= i < |table| ==> RowComesBack(p, table[i])
  }

  predicate Between(s: State) { s.cell == [] && !s.quoted }

  // ---------------------------------------------------------------------------------------------
  // Cells that survive
  // ---------------------------------------------------------------------------------------------

  /** One character of a quoted cell, as it is written. */
  lemma RunEscapedChar(p: Params, s: State, ch: char)
    requires Faithful(p) && (p.quotedLinebreaks || (ch != CR && ch != LF))
    requires s.quoted && s.cell != [] && s.cell[0] == p.quoteChar
    ensures Run(p, s, EscapedChar(p.quoteChar, ch)) == s.(cell := s.cell + EscapedChar(p.quoteChar, ch))
  {
    RunOne(p, s, ch);
    if ch == p.quoteChar {
      assert EscapedChar(p.quoteChar, ch) == [ch] + [ch];
      RunSnoc(p, s, [ch], ch);
      assert s.cell + [ch] + [ch] == s.cell + ([ch] + [ch]);
    }
  }

  lemma {:induction false} RunEscaped(p: Params, s: State, c: Cell)
    requires Faithful(p) && (p.quotedLinebreaks || NoBreaks(c))
    requires s.quoted && s.cell != [] && s.cell[0] == p.quoteChar
    ensures Run(p, s, Escaped(p.quoteChar, c)) == s.(cell := s.cell + Escaped(p.quoteChar, c))
    decreases |c|
  {
    var q := p.quoteChar;
    if c == [] {
      assert s.cell + [] == s.cell;
    } else {
      EscapedStep(q, c);
      var head, rest := EscapedChar(q, c[0]), Escaped(q, c[1..]);
      RunConcat(p, s, head, rest);
      RunEscapedChar(p, s, c[0]);
      RunEscaped(p, s.(cell := s.cell + head), c[1..]);
      Regrouped(s.cell, head, rest);
    }
  }

  lemma RunQuotedCell(p: Params, s: State, c: Cell)
    requires Faithful(p) && NeedsQuote(p, c) && (p.quotedLinebreaks || NoBreaks(c)) && Between(s)
    ensures Run(p, s, CellText(p, c)) == s.(cell := CellText(p, c))
  {
    var q := p.quoteChar;
    var e := Escaped(q, c);
    var s1 := s.(cell := [q], quoted := true);
    RunOne(p, s, q);
    assert s.cell + [q] == [q];
    RunConcat(p, s, [q], e);
    RunEscaped(p, s1, c);
    RunSnoc(p, s, [q] + e, q);
  }

  lemma QuotedValue(p: Params, c: Cell)
    requires Faithful(p) && NeedsQuote(p, c)
    ensures CellValue(p, CellText(p, c)) == c
  {
    var t := CellText(p, c);
    assert t[1..|t| - 1] == Escaped(p.quoteChar, c);
    UnescapedEscaped(p.quoteChar, c);
  }

  lemma OpenQuoteSnoc(p: Params, c: seq<char>, ch: char)
    ensures OpenQuote(p, c + [ch]) ==
            if ch == p.quoteChar && (c == [] || c[0] == p.quoteChar) then !OpenQuote(p, c) else OpenQuote(p, c)
  {
    var d := c + [ch];
    assert d[..|d| - 1] == c;
    assert c == [] ==> Quotes(p.quoteChar, c) == 0;
  }

  /** The prefix of length `k` of a cell written without quotes, if no CR in it is dropped. */
  lemma {:induction false} RunPrefix(p: Params, s: State, c: Cell, k: nat)
    requires Faithful(p) && !NeedsQuote(p, c) && Between(s) && k <= |c|
    requires KeepsCR(p, c[..k])
    ensures Run(p, s, c[..k]) == s.(cell := c[..k], quoted := OpenQuote(p, c[..k]))
    decreases k
  {
    if k == 0 {
      assert c[..k] == [];
    } else {
      var a, ch := c[..k - 1], c[k - 1];
      assert c[..k] == a + [ch];
      forall i | 0 <= i < k - 1 && a[i] == CR ensures p.quotedLinebreaks && OpenQuote(p, a[..i]) {
        assert c[..k][i] == CR && c[..k][..i] == a[..i];
      }
      RunPrefix(p, s, c, k - 1);
      RunSnoc(p, s, a, ch);
      OpenQuoteSnoc(p, a, ch);
      if ch == CR { assert c[..k][k - 1] == CR && c[..k][..k - 1] == a; }
      assert ch in c;
    }
  }

  lemma RunPlainCell(p: Params, s: State, c: Cell)
    requires Faithful(p) && !NeedsQuote(p, c) && KeepsCR(p, c) && Between(s)
    ensures Run(p, s, c) == s.(cell := c, quoted := OpenQuote(p, c))
  {
    assert c[..|c|] == c;
    RunPrefix(p, s, c, |c|);
  }

  /** Reading a cell has left the state `r`: one more step will store `c`. */
  predicate Stands(p: Params, s: State, r: State, c: Cell, last: bool) {
    && r == s.(cell := r.cell, quoted := r.quoted)
    && CellValue(p, r.cell) == c
    && (r.quoted ==> last && !p.quotedLinebreaks)
  }

  /** From wherever a cell may begin, the text `t` reads as `c`. */
  ghost predicate CellReads(p: Params, t: seq<char>, c: Cell, last: bool) {
    forall s: State :: Between(s) ==> Stands(p, s, Run(p, s, t), c, last)
  }

  lemma SurvivorReads(p: Params, c: Cell, last: bool)
    requires Faithful(p) && Survives(p, c, last)
    ensures CellReads(p, CellText(p, c), c, last)
  {
    forall s: State | Between(s) ensures Stands(p, s, Run(p, s, CellText(p, c)), c, last) {
      if NeedsQuote(p, c) {
        RunQuotedCell(p, s, c);
        QuotedValue(p, c);
      } else {
        RunPlainCell(p, s, c);
      }
    }
  }

  /** The CRs that end `n` written lines. */
  function LineCRs(p: Params, n: nat): nat { if p.hasCR then n else 0 }

  lemma RunNewLine(p: Params, s: State)
    requires Faithful(p) && (s.quoted ==> !p.quotedLinebreaks)
    ensures Run(p, s, NewLine(p)) ==
            State(s.data + [s.row + [CellValue(p, s.cell)]], [], [], false, s.cr + LineCRs(p, 1), s.lf + 1)
  {
    if p.hasCR {
      RunOne(p, s, CR);
      RunSnoc(p, s, [CR], LF);
      assert [CR] + [LF] == NewLine(p);
    } else {
      RunOne(p, s, LF);
    }
  }

  lemma RunSeparator(p: Params, s: State, rest: seq<char>)
    requires Faithful(p) && !s.quoted
    ensures Run(p, s, [p.separator] + rest) ==
            Run(p, s.(row := s.row + [CellValue(p, s.cell)], cell := []), rest)
  {
    RunConcat(p, s, [p.separator], rest);
    RunOne(p, s, p.separator);
  }

  /** The state after a line that gave `row`. */
  function NextLine(p: Params, s: State, row: Row): State {
    State(s.data + [row], [], [], false, s.cr + LineCRs(p, 1), s.lf + 1)
  }

  lemma RunCell(p: Params, s: State, t: seq<char>, c: Cell, rest: seq<char>)
    requires Faithful(p) && Between(s) && CellReads(p, t, c, false)
    ensures Run(p, s, t + [p.separator] + rest) == Run(p, s.(row := s.row + [c]), rest)
  {
    var r := Run(p, s, t);
    assert t + [p.separator] + rest == t + ([p.separator] + rest);
    RunConcat(p, s, t, [p.separator] + rest);
    RunSeparator(p, r, rest);
  }

  lemma RunLastCell(p: Params, s: State, t: seq<char>, c: Cell)
    requires Faithful(p) && Between(s) && CellReads(p, t, c, true)
    ensures Run(p, s, t + NewLine(p)) == NextLine(p, s, s.row + [c])
  {
    RunConcat(p, s, t, NewLine(p));
    RunNewLine(p, Run(p, s, t));
  }

  /** At the start of a line. */
  predicate AtLine(s: State) { s.row == [] && Between(s) }

  /** The first cells of a line, each with the separator that ends it. */
  function Begun(p: Params, texts: seq<seq<char>>): seq<char> {
    if texts == [] then [] else texts[0] + [p.separator] + Begun(p, texts[1..])
  }

  function After(p: Params, last: bool): seq<char> { if last then NewLine(p) else [p.separator] }

  lemma {:induction false} LineSplit(p: Params, texts: seq<seq<char>>, k: nat) returns (more: seq<char>)
    requires k < |texts|
    ensures Line(p, texts) == Begun(p, texts[..k]) + (texts[k] + After(p, k == |texts| - 1) + more)
    ensures k == |texts| - 1 ==> more == []
    decreases k
  {
    if k == 0 {
      more := if |texts| == 1 then [] else Line(p, texts[1..]);
    } else {
      more := LineSplit(p, texts[1..], k - 1);
      assert texts[..k][1..] == texts[1..][..k - 1];
    }
  }

  /** Cells that are not the last of their row. */
  ghost predicate InnerRead(p: Params, texts: seq<seq<char>>, row: Row) {
    |texts| == |row| && forall j :: 0 <= j < |row| ==> CellReads(p, texts[j], row[j], false)
  }

  lemma InnerReadTail(p: Params, texts: seq<seq<char>>, row: Row)
    requires row != [] && InnerRead(p, texts, row)
    ensures CellReads(p, texts[0], row[0], false) && InnerRead(p, texts[1..], row[1..])
  {
  }

  lemma RowRegrouped(before: Row, row: Row)
    requires row != []
    ensures before + [row[0]] + row[1..] == before + row
  {
  }

  lemma {:induction false} RunBegun(p: Params, s: State, texts: seq<seq<char>>, row: Row)
    requires Faithful(p) && Between(s) && InnerRead(p, texts, row)
    ensures Run(p, s, Begun(p, texts)) == s.(row := s.row + row)
    decreases |row|
  {
    if row == [] {
      assert s.row + row == s.row;
    } else {
      InnerReadTail(p, texts, row);
      RunCell(p, s, texts[0], row[0], Begun(p, texts[1..]));
      var s1 := s.(row := s.row + [row[0]]);
      RunBegun(p, s1, texts[1..], row[1..]);
      RowRegrouped(s.row, row);
    }
  }

  /** Up to the cell at `k` of a line, when the cells before it read. */
  lemma RunTo(p: Params, s: State, texts: seq<seq<char>>, row: Row, k: nat, rest: seq<char>)
      returns (more: seq<char>)
    requires Faithful(p) && AtLine(s) && k < |row| == |texts| && InnerRead(p, texts[..k], row[..k])
    ensures Run(p, s, Line(p, texts) + rest) ==
            Run(p, s.(row := row[..k]), texts[k] + After(p, k == |row| - 1) + more)
    ensures k == |row| - 1 ==> more == rest
  {
    var tail := LineSplit(p, texts, k);
    more := tail + rest;
    var here := texts[k] + After(p, k == |row| - 1) + more;
    assert Line(p, texts) + rest == Begun(p, texts[..k]) + here;
    RunBegun(p, s, texts[..k], row[..k]);
    RunConcat(p, s, Begun(p, texts[..k]), here);
    assert s.row + row[..k] == row[..k];
  }

  /** A line whose cells all read is read. */
  lemma RunLine(p: Params, s: State, texts: seq<seq<char>>, row: Row)
    requires Faithful(p) && AtLine(s) && row != [] && |texts| == |row|
    requires InnerRead(p, texts[..|row| - 1], row[..|row| - 1])
    requires CellReads(p, texts[|row| - 1], row[|row| - 1], true)
    ensures Run(p, s, Line(p, texts)) == NextLine(p, s, row)
  {
    var k := |row| - 1;
    var more := RunTo(p, s, texts, row, k, []);
    assert Line(p, texts) + [] == Line(p, texts);
    assert texts[k] + NewLine(p) + more == texts[k] + NewLine(p);
    RunLastCell(p, s.(row := row[..k]), texts[k], row[k]);
    assert row[..k] + [row[k]] == row;
  }

  ghost predicate LineReads(p: Params, line: seq<char>, row: Row) {
    forall s: State :: AtLine(s) ==> Run(p, s, line) == NextLine(p, s, row)
  }

  lemma InnerSurvives(p: Params, row: Row, k: nat)
    requires Faithful(p) && k <= |row| && forall j :: 0 <= j < k ==> Survives(p, row[j], false)
    ensures InnerRead(p, CellTexts(p, row)[..k], row[..k])
  {
    forall j | 0 <= j < k ensures CellReads(p, CellTexts(p, row)[..k][j], row[..k][j], false) {
      SurvivorReads(p, row[j], false);
    }
  }

  lemma RowReads(p: Params, row: Row)
    requires Faithful(p) && row != [] && RowSurvives(p, row)
    ensures LineReads(p, Line(p, CellTexts(p, row)), row)
  {
    var texts, k := CellTexts(p, row), |row| - 1;
    assert forall j :: 0 <= j < k ==> Survives(p, row[j], j == |row| - 1);
    InnerSurvives(p, row, k);
    SurvivorReads(p, row[k], true);
    forall s: State | AtLine(s) ensures Run(p, s, Line(p, texts)) == NextLine(p, s, row) {
      RunLine(p, s, texts, row);
    }
  }

  ghost predicate LinesRead(p: Params, lines: seq<seq<char>>, table: Table) {
    |lines| == |table| && forall i :: 0 <= i < |table| ==> LineReads(p, lines[i], table[i])
  }

  lemma {:induction false} RunPage(p: Params, s: State, lines: seq<seq<char>>, table: Table)
    requires Faithful(p) && AtLine(s) && LinesRead(p, lines, table)
    ensures Run(p, s, Page(lines)) ==
            State(s.data + table, [], [], false, s.cr + LineCRs(p, |table|), s.lf + |table|)
    decreases |table|
  {
    if table == [] {
      assert s.data + table == s.data;
    } else {
      assert LineReads(p, lines[0], table[0]);
      RunConcat(p, s, lines[0], Page(lines[1..]));
      RunPage(p, NextLine(p, s, table[0]), lines[1..], table[1..]);
      assert s.data + [table[0]] + table[1..] == s.data + table;
    }
  }

  // ---------------------------------------------------------------------------------------------
  // Cells that do not
  // ---------------------------------------------------------------------------------------------

  /** Cell `j` of row `i` is there and holds the character `x`. */
  predicate Holds(table: Table, i: nat, j: nat, x: char) {
    i < |table| && j < |table[i]| && x in table[i][j]
  }

  lemma StepGrows(p: Params, s: State, ch: char)
    requires Faithful(p)
    ensures s.data <= Step(p, s, ch).data
    ensures var t := Step(p, s, ch);
            if |t.data| == |s.data| then s.row <= t.row else s.row <= t.data[|s.data|]
  {
  }

  /** What has been read stays: complete rows, and the cells of the row at hand. */
  lemma {:induction false} ReadStays(p: Params, s: State, text: seq<char>)
    requires Faithful(p)
    ensures var o := Finish(p, Run(p, s, text)).data;
            && s.data <= o
            && (s.row != [] ==> |s.data| < |o| && s.row <= o[|s.data|])
    decreases |text|
  {
    if text != [] {
      var t := Step(p, s, text[0]);
      StepGrows(p, s, text[0]);
      ReadStays(p, t, text[1..]);
      var o := Finish(p, Run(p, s, text)).data;
      assert |t.data| > |s.data| ==> t.data[|s.data|] == o[|s.data|];
    }
  }

  lemma ValueKeeps(p: Params, c: seq<char>, x: char)
    requires Faithful(p) && x != p.quoteChar
    ensures x in CellValue(p, c) <==> x in c
    ensures |CellValue(p, c)| <= |c|
    ensures Enclosed(p, c) ==> |CellValue(p, c)| < |c|
  {
    if Enclosed(p, c) {
      var m := c[1..|c| - 1];
      UnescapedKeeps(p.quoteChar, m, x);
      assert c == [c[0]] + m + [c[|c| - 1]];
    }
  }

  /** A character taken into the cell at hand shows in that cell of the result. */
  lemma {:induction false} TakenShows(p: Params, s: State, text: seq<char>, x: char)
    requires Faithful(p) && x != p.quoteChar && x in s.cell
    ensures Holds(Finish(p, Run(p, s, text)).data, |s.data|, |s.row|, x)
    decreases |text|
  {
    ValueKeeps(p, s.cell, x);
    if text != [] {
      var t := Step(p, s, text[0]);
      if x in t.cell && t.row == s.row && t.data == s.data {
        TakenShows(p, t, text[1..], x);
      } else {
        ReadStays(p, t, text[1..]);
      }
    }
  }

  lemma {:induction false} StaysInCell(p: Params, s: State, t: seq<char>)
    requires Faithful(p) && p.separator !in t && LF !in t
    ensures var r := Run(p, s, t);
            r.data == s.data && r.row == s.row && |r.cell| <= |s.cell| + |t|
    decreases |t|
  {
    if t != [] {
      assert t[0] in t && forall x :: x in t[1..] ==> x in t;
      StaysInCell(p, Step(p, s, t[0]), t[1..]);
    }
  }

  /** The first CR that is not kept. */
  lemma {:induction false} FirstLostCR(p: Params, c: Cell, n: nat) returns (k: nat)
    requires n <= |c| && !KeepsCR(p, c[..n])
    ensures k < n && c[k] == CR && !(p.quotedLinebreaks && OpenQuote(p, c[..k])) && KeepsCR(p, c[..k])
    decreases n
  {
    var a := c[..n];
    var b := c[..n - 1];
    assert a[..n - 1] == b;
    if KeepsCR(p, b) {
      k := n - 1;
      assert forall j :: 0 <= j < n - 1 ==> b[j] == a[j] && b[..j] == a[..j];
      var i :| 0 <= i < n && a[i] == CR && !(p.quotedLinebreaks && OpenQuote(p, a[..i]));
    } else {
      k := FirstLostCR(p, c, n - 1);
    }
  }

  lemma LostCRShortens(p: Params, s: State, c: Cell)
    requires Faithful(p) && !NeedsQuote(p, c) && Between(s) && !KeepsCR(p, c)
    ensures |Run(p, s, c).cell| < |c|
  {
    assert c[..|c|] == c;
    var k := FirstLostCR(p, c, |c|);
    var a, b := c[..k], c[k + 1..];
    assert c == a + [CR] + b;
    RunPrefix(p, s, c, k);
    RunSnoc(p, s, a, CR);
    RunConcat(p, s, a + [CR], b);
    assert forall x :: x in b ==> x in c;
    StaysInCell(p, Run(p, s, a + [CR]), b);
  }

  /** A cell that does not survive leaves a quotation open that takes in more, or a value that is too short. */
  lemma LostValue(p: Params, s: State, c: Cell, last: bool)
    requires Faithful(p) && Between(s) && !NeedsQuote(p, c) && !Survives(p, c, last)
    ensures var r := Run(p, s, c);
            && r.data == s.data && r.row == s.row
            && ((r.quoted && (!last || p.quotedLinebreaks)) || CellValue(p, r.cell) != c)
  {
    var r := Run(p, s, c);
    StaysInCell(p, s, c);
    ValueKeeps(p, r.cell, LF);
    if KeepsCR(p, c) {
      RunPlainCell(p, s, c);
    } else {
      LostCRShortens(p, s, c);
    }
  }

  predicate RowIs(table: Table, i: nat, row: Row) { i < |table| && table[i] == row }

  lemma NewLineTaken(p: Params, s: State)
    requires Faithful(p) && s.quoted && p.quotedLinebreaks
    ensures Run(p, s, NewLine(p)) == s.(cell := s.cell + NewLine(p))
  {
    if p.hasCR {
      RunOne(p, s, CR);
      RunSnoc(p, s, [CR], LF);
      assert [CR] + [LF] == NewLine(p);
      assert s.cell + [CR] + [LF] == s.cell + NewLine(p);
    } else {
      RunOne(p, s, LF);
    }
  }

  /** An open quotation takes in the separator or the line break that should have ended the cell. */
  lemma AfterTaken(p: Params, r: State, last: bool, rest: seq<char>)
    requires Faithful(p) && r.quoted && (!last || p.quotedLinebreaks)
    ensures var x := if last then LF else p.separator;
            Holds(Finish(p, Run(p, r, After(p, last) + rest)).data, |r.data|, |r.row|, x)
  {
    RunConcat(p, r, After(p, last), rest);
    var t := Run(p, r, After(p, last));
    if last {
      NewLineTaken(p, r);
      assert LF == NewLine(p)[|NewLine(p)| - 1];
      assert LF in t.cell;
      TakenShows(p, t, rest, LF);
    } else {
      RunOne(p, r, p.separator);
      TakenShows(p, t, rest, p.separator);
    }
  }

  /** Otherwise the value is stored, and stays where it is. */
  lemma AfterStored(p: Params, r: State, last: bool, rest: seq<char>)
    requires Faithful(p) && !(r.quoted && (!last || p.quotedLinebreaks))
    ensures var o := Finish(p, Run(p, r, After(p, last) + rest)).data;
            |r.data| < |o| && r.row + [CellValue(p, r.cell)] <= o[|r.data|]
  {
    RunConcat(p, r, After(p, last), rest);
    var t := Run(p, r, After(p, last));
    if last {
      RunNewLine(p, r);
    } else {
      RunOne(p, r, p.separator);
    }
    ReadStays(p, t, rest);
  }

  predicate CellIs(table: Table, i: nat, j: nat, c: Cell) { i < |table| && j < |table[i]| && table[i][j] == c }

  lemma CellIsNot(p: Params, s: State, c: Cell, last: bool, rest: seq<char>)
    requires Faithful(p) && Between(s) && !NeedsQuote(p, c) && !Survives(p, c, last)
    ensures !CellIs(Finish(p, Run(p, s, c + After(p, last) + rest)).data, |s.data|, |s.row|, c)
  {
    var r := Run(p, s, c);
    assert c + After(p, last) + rest == c + (After(p, last) + rest);
    RunConcat(p, s, c, After(p, last) + rest);
    LostValue(p, s, c, last);
    if r.quoted && (!last || p.quotedLinebreaks) {
      AfterTaken(p, r, last, rest);
    } else {
      AfterStored(p, r, last, rest);
    }
  }

  // ---------------------------------------------------------------------------------------------
  // No line break is ever stored when quotations may not hold them
  // ---------------------------------------------------------------------------------------------

  predicate RowNoBreaks(row: Row) { forall j :: 0 <= j < |row| ==> NoBreaks(row[j]) }

  predicate TableNoBreaks(table: Table) { forall i :: 0 <= i < |table| ==> RowNoBreaks(table[i]) }

  predicate StateNoBreaks(s: State) { TableNoBreaks(s.data) && RowNoBreaks(s.row) && NoBreaks(s.cell) }

  lemma StoredNoBreaks(p: Params, s: State)
    requires Faithful(p) && StateNoBreaks(s)
    ensures RowNoBreaks(s.row + [CellValue(p, s.cell)]) && StateNoBreaks(EndRow(p, s))
  {
    ValueKeeps(p, s.cell, CR);
    ValueKeeps(p, s.cell, LF);
  }

  lemma StepNoBreaks(p: Params, s: State, ch: char)
    requires Faithful(p) && !p.quotedLinebreaks && StateNoBreaks(s)
    ensures StateNoBreaks(Step(p, s, ch))
  {
    StoredNoBreaks(p, s);
    StoredNoBreaks(p, s.(lf := s.lf + 1));
  }

  lemma {:induction false} RunNoBreaks(p: Params, s: State, text: seq<char>)
    requires Faithful(p) && !p.quotedLinebreaks && StateNoBreaks(s)
    ensures TableNoBreaks(Finish(p, Run(p, s, text)).data)
    decreases |text|
  {
    if text == [] {
      StoredNoBreaks(p, s);
    } else {
      StepNoBreaks(p, s, text[0]);
      RunNoBreaks(p, Step(p, s, text[0]), text[1..]);
    }
  }

  // ---------------------------------------------------------------------------------------------
  // The round trip
  // ---------------------------------------------------------------------------------------------

  lemma {:induction false} PageSplit(lines: seq<seq<char>>, k: nat)
    requires k < |lines|
    ensures Page(lines) == Page(lines[..k]) + (lines[k] + Page(lines[k + 1..]))
    decreases k
  {
    if k > 0 {
      PageSplit(lines[1..], k - 1);
      assert lines[..k][1..] == lines[1..][..k - 1];
      assert lines[1..][k..] == lines[k + 1..];
    }
  }

  /** The cells that do not survive are written without quotes. */
  predicate LostUnquoted(p: Params, row: Row) {
    forall j :: 0 <= j < |row| && !Survives(p, row[j], j == |row| - 1) ==> !NeedsQuote(p, row[j])
  }

  lemma {:induction false} FirstNotSurviving(p: Params, row: Row, n: nat) returns (k: nat)
    requires n <= |row| && exists j :: 0 <= j < n && !Survives(p, row[j], j == |row| - 1)
    ensures k < n && !Survives(p, row[k], k == |row| - 1)
    ensures forall j :: 0 <= j < k ==> Survives(p, row[j], false)
    decreases n
  {
    if exists j :: 0 <= j < n - 1 && !Survives(p, row[j], j == |row| - 1) {
      k := FirstNotSurviving(p, row, n - 1);
    } else {
      k := n - 1;
      assert forall j :: 0 <= j < k ==> Survives(p, row[j], j == |row| - 1);
    }
  }

  /** A row with a cell that does not survive does not come back, whatever follows. */
  lemma RowIsLost(p: Params, s: State, row: Row, rest: seq<char>)
    requires Faithful(p) && AtLine(s) && !RowSurvives(p, row) && LostUnquoted(p, row)
    ensures !RowIs(Finish(p, Run(p, s, Line(p, CellTexts(p, row)) + rest)).data, |s.data|, row)
  {
    var k := FirstNotSurviving(p, row, |row|);
    InnerSurvives(p, row, k);
    var more := RunTo(p, s, CellTexts(p, row), row, k, rest);
    CellIsNot(p, s.(row := row[..k]), row[k], k == |row| - 1, more);
  }

  /** A row without cells is written as an empty line, which reads as one empty cell. */
  lemma EmptyRowIsLost(p: Params, s: State, rest: seq<char>)
    requires Faithful(p) && AtLine(s)
    ensures !RowIs(Finish(p, Run(p, s, Line(p, CellTexts(p, [])) + rest)).data, |s.data|, [])
  {
    RunConcat(p, s, NewLine(p), rest);
    RunNewLine(p, s);
    ReadStays(p, Run(p, s, NewLine(p)), rest);
    assert s.row + [CellValue(p, s.cell)] != [];
  }

  lemma {:induction false} FirstLostRow(p: Params, table: Table, n: nat) returns (k: nat)
    requires n <= |table| && exists i :: 0 <= i < n && !RowComesBack(p, table[i])
    ensures k < n && !RowComesBack(p, table[k]) && forall i :: 0 <= i < k ==> RowComesBack(p, table[i])
    decreases n
  {
    if exists i :: 0 <= i < n - 1 && !RowComesBack(p, table[i]) {
      k := FirstLostRow(p, table, n - 1);
    } else {
      k := n - 1;
    }
  }

  lemma RowsRead(p: Params, table: Table, k: nat)
    requires Faithful(p) && k <= |table| && forall i :: 0 <= i < k ==> RowComesBack(p, table[i])
    ensures Run(p, Initial([]), Page(Lines(p, table)[..k])) == State(table[..k], [], [], false, LineCRs(p, k), k)
  {
    var lines := Lines(p, table)[..k];
    forall i | 0 <= i < k ensures LineReads(p, lines[i], table[..k][i]) { RowReads(p, table[i]); }
    RunPage(p, Initial([]), lines, table[..k]);
    assert [] + table[..k] == table[..k];
  }

  lemma TableComesBack(p: Params, table: Table)
    requires Faithful(p) && TableSurvives(p, table)
    ensures Run(p, Initial([]), TableText(p, table)) == State(table, [], [], false, LineCRs(p, |table|), |table|)
  {
    RowsRead(p, table, |table|);
    assert table[..|table|] == table && Lines(p, table)[..|table|] == Lines(p, table);
  }

  lemma TableIsLost(p: Params, table: Table)
    requires Faithful(p) && !TableSurvives(p, table)
    requires forall i :: 0 <= i < |table| ==> LostUnquoted(p, table[i])
    ensures ParsedState(p, [], TableText(p, table)).data != table
  {
    var lines := Lines(p, table);
    var k := FirstLostRow(p, table, |table|);
    var before, rest := Page(lines[..k]), Page(lines[k + 1..]);
    RowsRead(p, table, k);
    PageSplit(lines, k);
    RunConcat(p, Initial([]), before, lines[k] + rest);
    var s := State(table[..k], [], [], false, LineCRs(p, k), k);
    assert lines[k] == Line(p, CellTexts(p, table[k]));
    if table[k] == [] {
      EmptyRowIsLost(p, s, rest);
    } else {
      RowIsLost(p, s, table[k], rest);
    }
  }

  ghost predicate ComesBack(p: Params, table: Table) {
    var s := ParsedState(p, [], TableText(p, table));
    s.data == table && MostlyCR(s) == p.hasCR
  }

  /**
   * The round trip, exactly: what is written and read again is the same table, with the same kind of
   * line break, if and only if every row has a cell, every cell survives, and a document without rows
   * does not ask for CRs.
   */
  lemma RoundTrip(p: Params, table: Table)
    requires Faithful(p)
    ensures ComesBack(p, table) <==> TableSurvives(p, table) && (table == [] ==> !p.hasCR)
  {
    if TableSurvives(p, table) {
      TableComesBack(p, table);
    } else {
      NotSurvivingIsLost(p, table);
    }
  }

  lemma NotSurvivingIsLost(p: Params, table: Table)
    requires Faithful(p) && !TableSurvives(p, table)
    ensures ParsedState(p, [], TableText(p, table)).data != table
  {
    if forall i :: 0 <= i < |table| ==> LostUnquoted(p, table[i]) {
      TableIsLost(p, table);
    } else {
      var i :| 0 <= i < |table| && !LostUnquoted(p, table[i]);
      var row := table[i];
      var j :| 0 <= j < |row| && !Survives(p, row[j], j == |row| - 1) && NeedsQuote(p, row[j]);
      assert !NoBreaks(row[j]);
      assert !RowNoBreaks(row);
      RunNoBreaks(p, Initial([]), TableText(p, table));
    }
  }

  /** The condition that the writer's own rules suggest: it is enough, though not needed. */
  predicate Writable(p: Params, c: Cell) {
    && (NeedsQuote(p, c) || c == [] || c[0] != p.quoteChar)
    && (LF in c ==> p.quotedLinebreaks)
    && (CR in c ==> p.quotedLinebreaks && NeedsQuote(p, c))
  }

  lemma WritableComesBack(p: Params, table: Table)
    requires Faithful(p) && table != []
    requires forall i :: 0 <= i < |table| ==> table[i] != [] && forall j :: 0 <= j < |table[i]| ==> Writable(p, table[i][j])
    ensures ComesBack(p, table)
  {
    forall i, j | 0 <= i < |table| && 0 <= j < |table[i]| ensures Survives(p, table[i][j], j == |table[i]| - 1) {
      var c := table[i][j];
      assert Writable(p, c);
      assert forall k :: 0 <= k < |c| ==> c[k] in c;
    }
    RoundTrip(p, table);
  }

  // ---------------------------------------------------------------------------------------------
  // The document
  // ---------------------------------------------------------------------------------------------

  lemma LineFrom(p: Params, texts: seq<seq<char>>, j: nat)
    requires j < |texts|
    ensures Line(p, texts[j..]) == texts[j] + (if |texts| - j > 1 then [p.separator] else []) + Line(p, texts[j + 1..])
  {
    assert texts[j..][1..] == texts[j + 1..];
  }

  /** The part of the stream that the reader gets to see. */
  function Readable(stream: seq<char>, length: nat): seq<char> {
    if length <= |stream| then stream[..length] else stream
  }

  lemma ReadableIs(stream: seq<char>, length: nat, at: nat)
    requires at <= |stream| && (at == length || (at < length && at == |stream|))
    ensures stream[..at] == Readable(stream, length)
  {
  }

  lemma RunNext(p: Params, s: State, buffer: seq<char>, i: nat)
    requires i < |buffer|
    ensures Run(p, s, buffer[..i + 1]) == Step(p, Run(p, s, buffer[..i]), buffer[i])
  {
    assert buffer[..i + 1] == buffer[..i] + [buffer[i]];
    RunSnoc(p, s, buffer[..i], buffer[i]);
  }

  lemma RunBuffer(p: Params, s: State, stream: seq<char>, at: nat, end: nat)
    requires at <= end <= |stream|
    ensures Run(p, s, stream[..end]) == Run(p, Run(p, s, stream[..at]), stream[at..end])
  {
    assert stream[..end] == stream[..at] + stream[at..end];
    RunConcat(p, s, stream[..at], stream[at..end]);
  }

  /** One cell more of a line, with the separator if another one follows. */
  lemma LineNext(p: Params, texts: seq<seq<char>>, j: nat, text: seq<char>)
    requires j < |texts| && Line(p, texts) == text + Line(p, texts[j..])
    ensures Line(p, texts) ==
            text + texts[j] + (if |texts| - j > 1 then [p.separator] else []) + Line(p, texts[j + 1..])
  {
    LineFrom(p, texts, j);
    var gap := if |texts| - j > 1 then [p.separator] else [];
    Regrouped(text, texts[j] + gap, Line(p, texts[j + 1..]));
    Regrouped(text, texts[j], gap);
  }

  lemma PageNext(lines: seq<seq<char>>, i: nat, text: seq<char>)
    requires i < |lines| && Page(lines) == text + Page(lines[i..])
    ensures Page(lines) == text + lines[i] + Page(lines[i + 1..])
  {
    assert lines[i..][1..] == lines[i + 1..];
    Regrouped(text, lines[i], Page(lines[i + 1..]));
  }

  class Document {
    var data: Table
    var params: Params

    constructor (p: Params)
      ensures data == [] && params == p
    {
      data, params := [], p;
    }

    method UnquoteCell(s: seq<char>) returns (r: seq<char>)
      ensures r == Unquote(params, s)
    {
      r := s;
      if params.autoQuote && |s| >= 2 && s[0] == params.quoteChar && s[|s| - 1] == params.quoteChar {
        var quote := [params.quoteChar];
        assert quote + quote == [params.quoteChar, params.quoteChar];
        r := ReplaceString(s[1..|s| - 1], quote + quote, quote);
      }
    }

    /** A row is complete: its last cell is stored, and the row too unless it is a comment. */
    method StoreRow(cells: Row, cell: seq<char>)
      modifies `data
      ensures forall s: State :: s.data == old(data) && s.row == cells && s.cell == cell ==>
                EndRow(params, s) == s.(data := data, row := [], cell := [], quoted := false)
    {
      var value := UnquoteCell(Trim(params, cell));
      var row := cells + [value];
      if !(params.skipCommentLines && row[0] != [] && row[0][0] == params.commentPrefix) {
        data := data + [row];
      }
    }

    /** What the loop does with one character. */
    method ReadChar(row: Row, cell: seq<char>, quoted: bool, cr: nat, lf: nat, ch: char)
      returns (row': Row, cell': seq<char>, quoted': bool, cr': nat, lf': nat)
      modifies `data
      ensures State(data, row', cell', quoted', cr', lf') ==
              Step(params, State(old(data), row, cell, quoted, cr, lf), ch)
    {
      row', cell', quoted', cr', lf' := row, cell, quoted, cr, lf;
      if ch == params.quoteChar {
        if cell == [] || cell[0] == params.quoteChar {
          quoted' := !quoted;
        } else if params.trim {
          if BlankBeforeQuote(params.quoteChar, cell) {
            quoted' := !quoted;
          }
        }
        cell' := cell + [ch];
      } else if ch == params.separator {
        if !quoted {
          var value := UnquoteCell(Trim(params, cell));
          row', cell' := row + [value], [];
        } else {
          cell' := cell + [ch];
        }
      } else if ch == CR {
        if params.quotedLinebreaks && quoted {
          cell' := cell + [ch];
        } else {
          cr' := cr + 1;
        }
      } else if ch == LF {
        if params.quotedLinebreaks && quoted {
          cell' := cell + [ch];
        } else {
          lf' := lf + 1;
          if !(params.skipEmptyLines && row == [] && cell == []) {
            StoreRow(row, cell);
            row', cell', quoted' := [], [], false;
            assert EndRow(params, State(old(data), row, cell, quoted, cr, lf')) == State(data, [], [], false, cr, lf');
          }
        }
      } else {
        cell' := cell + [ch];
      }
    }

    /** One buffer, character after character. */
    method ReadBuffer(row: Row, cell: seq<char>, quoted: bool, cr: nat, lf: nat, buffer: seq<char>)
      returns (row': Row, cell': seq<char>, quoted': bool, cr': nat, lf': nat)
      modifies `data
      ensures State(data, row', cell', quoted', cr', lf') ==
              Run(params, State(old(data), row, cell, quoted, cr, lf), buffer)
    {
      ghost var s0 := State(data, row, cell, quoted, cr, lf);
      row', cell', quoted', cr', lf' := row, cell, quoted, cr, lf;
      var i := 0;
      while i < |buffer|
        invariant 0 <= i <= |buffer|
        invariant State(data, row', cell', quoted', cr', lf') == Run(params, s0, buffer[..i])
      {
        RunNext(params, s0, buffer, i);
        row', cell', quoted', cr', lf' := ReadChar(row', cell', quoted', cr', lf', buffer[i]);
        i := i + 1;
      }
      assert buffer[..|buffer|] == buffer;
    }

    /** A last row without a line break. */
    method FinishRow(row: Row, cell: seq<char>, ghost s: State)
      requires s.data == data && s.row == row && s.cell == cell
      modifies `data
      ensures data == Finish(params, s).data && Finish(params, s).cr == s.cr && Finish(params, s).lf == s.lf
    {
      if !(row == [] && cell == []) {
        StoreRow(row, cell);
      }
    }

    /** ParseCsv: buffer after buffer. */
    method ParseCsv(stream: seq<char>, length: nat)
      modifies this
      ensures var s := ParsedState(old(params), old(data), Readable(stream, length));
              data == s.data && params == old(params).(hasCR := MostlyCR(s))
    {
      ghost var s0 := Initial(data);
      var row: Row, cell, quoted, cr, lf := [], [], false, 0, 0;
      var at, left := 0, length;
      while left > 0
        invariant 0 <= at <= |stream| && 0 <= left == length - at && params == old(params)
        invariant State(data, row, cell, quoted, cr, lf) == Run(params, s0, stream[..at])
        decreases left
      {
        var toRead := if left < BUF_LENGTH then left else BUF_LENGTH;
        var end := if at + toRead <= |stream| then at + toRead else |stream|;
        var buffer := stream[at..end];
        if |buffer| == 0 {
          break;
        }
        RunBuffer(params, s0, stream, at, end);
        row, cell, quoted, cr, lf := ReadBuffer(row, cell, quoted, cr, lf, buffer);
        left := left - |buffer|;
        at := at + |buffer|;
      }
      ReadableIs(stream, length, at);
      FinishRow(row, cell, State(data, row, cell, quoted, cr, lf));
      params := params.(hasCR := cr > lf / 2);
    }

    /** WriteCsv, on a string stream. */
    method WriteCsv() returns (text: seq<char>)
      ensures text == TableText(params, data)
    {
      text := [];
      ghost var lines := Lines(params, data);
      assert lines[0..] == lines;
      var i := 0;
      while i < |data|
        invariant 0 <= i <= |data| == |lines|
        invariant Page(lines) == text + Page(lines[i..])
      {
        PageNext(lines, i, text);
        var line := WriteRow(data[i]);
        assert line == lines[i];
        text := text + line;
        i := i + 1;
      }
    }

    method WriteCell(c: Cell) returns (text: seq<char>)
      ensures text == CellText(params, c)
    {
      text := c;
      if params.autoQuote && (params.separator in c || SPACE in c || LF in c) {
        var quote := [params.quoteChar];
        assert quote + quote == [params.quoteChar, params.quoteChar];
        var str := ReplaceString(c, quote, quote + quote);
        text := quote + str + quote;
      }
    }

    method WriteRow(row: Row) returns (text: seq<char>)
      ensures text == Line(params, CellTexts(params, row))
    {
      ghost var texts := CellTexts(params, row);
      text := [];
      var j := 0;
      while j < |row|
        invariant 0 <= j <= |row|
        invariant Line(params, texts) == text + Line(params, texts[j..])
      {
        LineNext(params, texts, j, text);
        var cellText := WriteCell(row[j]);
        assert cellText == texts[j];
        text := text + cellText + (if |row| - j > 1 then [params.separator] else []);
        j := j + 1;
      }
      text := text + NewLine(params);
    }
  }
}
