/**
 * constexpr_to_string for unsigned integers: two digits at a time from a table, into a buffer of
 * twenty cells, read backwards at the end.
 */
module Decimal {
  const BUFFER_LENGTH: nat := 20
  const SIZE_LIMIT: nat := 0x1_0000_0000_0000_0000

  /** One line of the table of two-digit numbers. */
  function TableRow(t: nat): string
    requires t < 10
  {
    DigitChars();
    match t
    case 0 => "00010203040506070809"
    case 1 => "10111213141516171819"
    case 2 => "20212223242526272829"
    case 3 => "30313233343536373839"
    case 4 => "40414243444546474849"
    case 5 => "50515253545556575859"
    case 6 => "60616263646566676869"
    case 7 => "70717273747576777879"
    case 8 => "80818283848586878889"
    case _ => "90919293949596979899"
  }

  lemma TableRowLength(t: nat)
    requires t < 10
    ensures |TableRow(t)| == 20
  {
  }

  /** The table as the one string that its lines make up. */
  function Table(i: nat): char
    requires i < 200
  {
    TableRowLength(i / 20);
    TableRow(i / 20)[i % 20]
  }

  function DigitChar(d: nat): char
    requires d < 10
  {
    '0' + d as char
  }

  /** The tens digit before each of the ten units digits. */
  predicate Interleaves(s: string, c: char) {
    && |s| == 20
    && s[0] == c && s[1] == '0' && s[2] == c && s[3] == '1' && s[4] == c && s[5] == '2' && s[6] == c && s[7] == '3'
    && s[8] == c && s[9] == '4' && s[10] == c && s[11] == '5' && s[12] == c && s[13] == '6' && s[14] == c && s[15] == '7'
    && s[16] == c && s[17] == '8' && s[18] == c && s[19] == '9'
  }

  lemma DigitChars()
    ensures DigitChar(0) == '0' && DigitChar(1) == '1' && DigitChar(2) == '2' && DigitChar(3) == '3' && DigitChar(4) == '4'
    ensures DigitChar(5) == '5' && DigitChar(6) == '6' && DigitChar(7) == '7' && DigitChar(8) == '8' && DigitChar(9) == '9'
  {
  }

  lemma LowRows(t: nat)
    requires t < 5
    ensures Interleaves(TableRow(t), DigitChar(t))
  {
    match t
    case 0 => case 1 => case 2 => case 3 => case _ =>
  }

  lemma MiddleRows(t: nat)
    requires 5 <= t < 7
    ensures Interleaves(TableRow(t), DigitChar(t))
  {
    DigitChars();
    match t
    case 5 => case _ =>
  }

  lemma HighRows(t: nat)
    requires 7 <= t < 9
    ensures Interleaves(TableRow(t), DigitChar(t))
  {
    DigitChars();
    match t
    case 7 => case _ =>
  }

  lemma LastRow()
    ensures Interleaves(TableRow(9), DigitChar(9))
  {
  }

  lemma InterleavedAt(s: string, c: char, u: nat)
    requires Interleaves(s, c) && u < 10
    ensures s[2 * u] == c && s[2 * u + 1] == DigitChar(u)
  {
    match u
    case 0 => case 1 => case 2 => case 3 => case 4 => case 5 => case 6 => case 7 => case 8 => case _ =>
  }

  lemma TableRowDigits(t: nat, u: nat)
    requires t < 10 && u < 10
    ensures |TableRow(t)| == 20 && TableRow(t)[2 * u] == DigitChar(t) && TableRow(t)[2 * u + 1] == DigitChar(u)
  {
    if t < 5 { LowRows(t); } else if t < 7 { MiddleRows(t); } else if t < 9 { HighRows(t); } else { LastRow(); }
    InterleavedAt(TableRow(t), DigitChar(t), u);
  }

  lemma TableIndex(t: nat, u: nat, n: nat)
    requires t < 10 && u < 10 && n == 10 * t + u
    ensures n * 2 / 20 == t && n * 2 % 20 == 2 * u && (n * 2 + 1) / 20 == t && (n * 2 + 1) % 20 == 2 * u + 1
  {
  }

  /** Entry `n` of the table holds the tens and the units of `n`. */
  lemma TableDigits(n: nat)
    requires n < 100
    ensures Table(n * 2) == DigitChar(n / 10) && Table(n * 2 + 1) == DigitChar(n % 10)
  {
    TableIndex(n / 10, n % 10, n);
    TableRowDigits(n / 10, n % 10);
  }

  // ---------------------------------------------------------------------------------------------
  // Decimal notation
  // ---------------------------------------------------------------------------------------------

  /** The decimal notation of a number. */
  function Notation(n: nat): string {
    if n < 10 then [DigitChar(n)] else Notation(n / 10) + [DigitChar(n % 10)]
  }

  predicate IsDigit(c: char) { '0' <= c <= '9' }

  function DigitValue(c: char): nat
    requires IsDigit(c)
  {
    (c - '0') as nat
  }

  predicate AllDigits(s: string) { forall i :: 0 <= i < |s| ==> IsDigit(s[i]) }

  /** What a string of digits reads as. */
  function Reading(s: string): nat
    requires AllDigits(s)
  {
    if s == [] then 0 else 10 * Reading(s[..|s| - 1]) + DigitValue(s[|s| - 1])
  }

  /** The notation reads back as the number, and has a leading zero only if it is that digit alone. */
  lemma {:induction false} NotationReads(n: nat)
    ensures AllDigits(Notation(n)) && Reading(Notation(n)) == n
    ensures Notation(n) != [] && (Notation(n)[0] == '0' ==> n == 0)
    decreases n
  {
    if n >= 10 {
      NotationReads(n / 10);
      assert Notation(n)[..|Notation(n)| - 1] == Notation(n / 10);
    }
  }

  function Pow10(k: nat): nat { if k == 0 then 1 else 10 * Pow10(k - 1) }

  /** A number has no more digits than the power of ten above it. */
  lemma {:induction false} NotationLength(n: nat, k: nat)
    requires k > 0 && n < Pow10(k)
    ensures |Notation(n)| <= k
    decreases k
  {
    if n >= 10 { NotationLength(n / 10, k - 1); }
  }

  /** Conversely, without a leading zero no other string of digits reads as the number. */
  lemma {:induction false} NotationUnique(s: string)
    requires s != [] && AllDigits(s) && (s[0] == '0' ==> |s| == 1)
    ensures Notation(Reading(s)) == s
    decreases |s|
  {
    var n := |s| - 1;
    var d := DigitValue(s[n]);
    if n == 0 {
      assert s == [s[0]] && s[..0] == [];
    } else {
      NotationUnique(s[..n]);
      NotationReads(Reading(s[..n]));
      assert Reading(s[..n]) != 0;
      assert s == s[..n] + [s[n]];
      assert Reading(s) / 10 == Reading(s[..n]) && Reading(s) % 10 == d;
    }
  }

  // ---------------------------------------------------------------------------------------------
  // The loop
  // ---------------------------------------------------------------------------------------------

  function Reversed(s: seq<char>): seq<char> {
    if s == [] then [] else [s[|s| - 1]] + Reversed(s[..|s| - 1])
  }

  lemma ReversedAdd(s: seq<char>, c: char)
    ensures Reversed(s + [c]) == [c] + Reversed(s)
  {
    assert (s + [c])[..|s|] == s;
  }

  lemma NotationTwo(n: nat)
    requires n >= 100
    ensures Notation(n) == Notation(n / 100) + [DigitChar(n % 100 / 10), DigitChar(n % 100 % 10)]
  {
    assert n / 10 / 10 == n / 100 && n / 10 % 10 == n % 100 / 10 && n % 10 == n % 100 % 10;
    assert Notation(n) == Notation(n / 10) + [DigitChar(n % 10)];
    assert Notation(n / 10) == Notation(n / 10 / 10) + [DigitChar(n / 10 % 10)];
  }

  /** Two more cells of the buffer, and what the whole of it stands for. */
  lemma TwoMore(before: seq<char>, high: string, tens: char, units: char)
    ensures high + Reversed(before + [units] + [tens]) == high + [tens, units] + Reversed(before)
  {
    ReversedAdd(before, units);
    ReversedAdd(before + [units], tens);
  }

  lemma {:induction false} ReversedLength(s: seq<char>)
    ensures |Reversed(s)| == |s|
    decreases |s|
  {
    if s != [] { ReversedLength(s[..|s| - 1]); }
  }

  /** A 64-bit number has at most as many digits as the buffer has cells. */
  lemma SizeFits(value: nat)
    requires value < SIZE_LIMIT
    ensures |Notation(value)| <= BUFFER_LENGTH
  {
    assert Pow10(4) == 10_000;
    assert Pow10(8) == 100_000_000;
    assert Pow10(12) == 1_000_000_000_000;
    assert Pow10(16) == 10_000_000_000_000_000;
    assert Pow10(20) == 100_000_000_000_000_000_000;
    NotationLength(value, 20);
  }

  /** The two characters of entry `n`. */
  method LookUp(n: nat) returns (tens: char, units: char)
    requires n < 100
    ensures tens == DigitChar(n / 10) && units == DigitChar(n % 10)
  {
    TableDigits(n);
    var idx := n * 2;
    units := Table(idx + 1);
    tens := Table(idx);
  }

  method ConstexprToString(value: nat) returns (result: string)
    requires value < SIZE_LIMIT
    ensures result == Notation(value) && |result| <= BUFFER_LENGTH
  {
    SizeFits(value);
    if value == 0 {
      return "0";
    }
    var buffer := new char[BUFFER_LENGTH];
    var pos := 0;
    var temp := value;
    while temp >= 100
      invariant 0 <= pos <= BUFFER_LENGTH && temp > 0
      invariant Notation(value) == Notation(temp) + Reversed(buffer[..pos])
    {
      ReversedLength(buffer[..pos]);
      pos := WritePair(buffer, pos, temp);
      temp := temp / 100;
    }
    ReversedLength(buffer[..pos]);
    pos := WriteLast(buffer, pos, temp);
    result := ReadBackwards(buffer, pos);
  }

  /** The two lowest digits. */
  method WritePair(buffer: array<char>, pos: nat, temp: nat) returns (pos': nat)
    requires temp >= 100 && pos + |Notation(temp)| <= buffer.Length
    modifies buffer
    ensures pos' == pos + 2 <= buffer.Length
    ensures Notation(temp / 100) + Reversed(buffer[..pos']) == Notation(temp) + Reversed(old(buffer[..pos]))
  {
    NotationTwo(temp);
    ghost var before := buffer[..pos];
    var tens, units := LookUp(temp % 100);
    TwoMore(before, Notation(temp / 100), tens, units);
    buffer[pos] := units;
    buffer[pos + 1] := tens;
    pos' := pos + 2;
    assert buffer[..pos'] == before + [units] + [tens];
  }

  /** The one or two digits that remain. */
  method WriteLast(buffer: array<char>, pos: nat, temp: nat) returns (pos': nat)
    requires 0 < temp < 100 && pos + |Notation(temp)| <= buffer.Length
    modifies buffer
    ensures pos' <= buffer.Length && Reversed(buffer[..pos']) == Notation(temp) + Reversed(old(buffer[..pos]))
  {
    ghost var before := buffer[..pos];
    if temp >= 10 {
      var tens, units := LookUp(temp);
      TwoMore(before, [], tens, units);
      buffer[pos] := units;
      buffer[pos + 1] := tens;
      pos' := pos + 2;
      assert buffer[..pos'] == before + [units] + [tens];
      assert Notation(temp) == [tens] + [units];
      assert [] + Reversed(before + [units] + [tens]) == Reversed(before + [units] + [tens]);
      assert [] + [tens, units] == [tens] + [units];
    } else {
      ReversedAdd(before, DigitChar(temp));
      buffer[pos] := DigitChar(temp);
      pos' := pos + 1;
      assert buffer[..pos'] == before + [DigitChar(temp)];
    }
  }

  method ReadBackwards(buffer: array<char>, pos: nat) returns (result: string)
    requires pos <= buffer.Length
    ensures result == Reversed(buffer[..pos])
  {
    result := "";
    var i := pos;
    while i > 0
      invariant 0 <= i <= pos
      invariant Reversed(buffer[..pos]) == result + Reversed(buffer[..i])
    {
      assert buffer[..i][..i - 1] == buffer[..i - 1];
      result := result + [buffer[i - 1]];
      i := i - 1;
    }
  }
}
