/** Splitting text: strings.Split and strings.Fields in Go, str.split in Python, and numerals. */
module Words {
  import opened Options

  predicate Blank(c: char) { c == ' ' || '\t' <= c <= '\r' }

  predicate Word(w: string) { w != "" && forall c :: c in w ==> !Blank(c) }

  // ------------------------------------------------- split on one character

  /** Index of the first c, or the length. */
  function Find(s: string, c: char): (n: nat)
    ensures n <= |s|
    ensures forall i :: 0 <= i < n ==> s[i] != c
    ensures n < |s| ==> s[n] == c
  {
    if s == "" || s[0] == c then 0 else 1 + Find(s[1..], c)
  }

  function Split(s: string, c: char): (parts: seq<string>)
    ensures parts != []
    decreases |s|
  {
    var n := Find(s, c);
    if n == |s| then [s] else [s[..n]] + Split(s[n + 1..], c)
  }

  lemma FindIs(s: string, c: char, n: nat)
    requires n <= |s| && (forall i :: 0 <= i < n ==> s[i] != c) && (n < |s| ==> s[n] == c)
    ensures Find(s, c) == n
  {
  }

  lemma SplitFirst(a: string, c: char, rest: string)
    requires c !in a
    ensures Split(a + [c] + rest, c) == [a] + Split(rest, c)
  {
    var s := a + [c] + rest;
    FindIs(s, c, |a|);
    assert s[..|a|] == a && s[|a| + 1..] == rest;
  }

  lemma SplitNone(a: string, c: char)
    requires c !in a
    ensures Split(a, c) == [a]
  {
    FindIs(a, c, |a|);
  }

  /** Two texts cut at the first c have equal parts when they are equal. */
  lemma CutUnique(a: string, b: string, c: char, x: string, y: string)
    requires c !in a && c !in b && a + [c] + x == b + [c] + y
    ensures a == b && x == y
  {
    var s := a + [c] + x;
    FindIs(s, c, |a|);
    FindIs(s, c, |b|);
    assert a == s[..|a|] && b == s[..|a|];
    assert x == s[|a| + 1..] && y == s[|a| + 1..];
  }

  // ------------------------------------------------- fields

  function WordLen(s: string): (n: nat)
    ensures n <= |s|
    ensures forall i :: 0 <= i < n ==> !Blank(s[i])
    ensures n < |s| ==> Blank(s[n])
  {
    if s == "" || Blank(s[0]) then 0 else 1 + WordLen(s[1..])
  }

  function Fields(s: string): (ws: seq<string>)
    ensures forall w :: w in ws ==> Word(w)
    decreases |s|
  {
    if s == "" then []
    else if Blank(s[0]) then Fields(s[1..])
    else [s[..WordLen(s)]] + Fields(s[WordLen(s)..])
  }

  lemma {:induction false} FieldsSkip(pad: string, rest: string)
    requires forall c :: c in pad ==> Blank(c)
    ensures Fields(pad + rest) == Fields(rest)
  {
    if pad == "" {
      assert pad + rest == rest;
    } else {
      assert (pad + rest)[1..] == pad[1..] + rest;
      FieldsSkip(pad[1..], rest);
    }
  }

  lemma {:induction false} WordLenIs(s: string, n: nat)
    requires n <= |s| && (forall i :: 0 <= i < n ==> !Blank(s[i])) && (n < |s| ==> Blank(s[n]))
    ensures WordLen(s) == n
  {
    if n > 0 { WordLenIs(s[1..], n - 1); }
  }

  lemma FieldsWord(w: string, rest: string)
    requires Word(w) && (rest == "" || Blank(rest[0]))
    ensures Fields(w + rest) == [w] + Fields(rest)
  {
    WordLenIs(w + rest, |w|);
    assert (w + rest)[..|w|] == w && (w + rest)[|w|..] == rest;
    assert !Blank((w + rest)[0]) by { assert (w + rest)[0] == w[0] && w[0] in w; }
  }

  // ------------------------------------------------- strip

  function TrimLeft(s: string): (t: string)
    ensures |t| <= |s| && (t == "" || !Blank(t[0]))
  {
    if s != "" && Blank(s[0]) then TrimLeft(s[1..]) else s
  }

  function TrimRight(s: string): (t: string)
    ensures |t| <= |s| && t == s[..|t|] && (t == "" || !Blank(t[|t| - 1]))
  {
    if s != "" && Blank(s[|s| - 1]) then TrimRight(s[..|s| - 1]) else s
  }

  function Strip(s: string): (t: string)
    ensures |t| <= |s|
  {
    TrimRight(TrimLeft(s))
  }

  lemma StripNothing(s: string)
    requires s == "" || (!Blank(s[0]) && !Blank(s[|s| - 1]))
    ensures Strip(s) == s
  {
  }

  lemma StripTwice(s: string)
    ensures Strip(Strip(s)) == Strip(s)
  {
    TrimmedRightStarts(TrimLeft(s));
    StripNothing(Strip(s));
  }

  lemma TrimmedRightStarts(t: string)
    requires t == "" || !Blank(t[0])
    ensures TrimRight(t) == "" || TrimRight(t)[0] == t[0]
  {
  }

  /** White space as str.strip and strings.Fields know it among the ASCII characters. */
  predicate Space(p: string) { forall c :: c in p ==> c in {' ', '\t', '\n', '\r', '\U{000B}', '\U{000C}'} }

  lemma {:induction false} TrimLeftDrops(a: string, s: string)
    requires Space(a) && s != "" && !Blank(s[0])
    ensures TrimLeft(a + s) == s
  {
    if a == "" {
      assert a + s == s;
    } else {
      assert a[0] in a && (a + s)[1..] == a[1..] + s;
      assert forall c :: c in a[1..] ==> c in a;
      TrimLeftDrops(a[1..], s);
    }
  }

  lemma {:induction false} TrimRightDrops(s: string, b: string)
    requires Space(b) && s != "" && !Blank(s[|s| - 1])
    ensures TrimRight(s + b) == s
    decreases |b|
  {
    if b == "" {
      assert s + b == s;
    } else {
      var n := |b| - 1;
      assert b[n] in b && (s + b)[..|s + b| - 1] == s + b[..n];
      assert forall c :: c in b[..n] ==> c in b;
      TrimRightDrops(s, b[..n]);
    }
  }

  /** Stripping takes off all white space at both ends and nothing else. */
  lemma StripDrops(a: string, s: string, b: string)
    requires Space(a) && Space(b) && s != "" && !Blank(s[0]) && !Blank(s[|s| - 1])
    ensures Strip(a + s + b) == s
  {
    assert a + s + b == a + (s + b) && (s + b)[0] == s[0];
    TrimLeftDrops(a, s + b);
    TrimRightDrops(s, b);
  }

  // ------------------------------------------------- laid-out lines

  /** A word with the blanks printed before it. */
  datatype Cell = Cell(pad: string, word: string)

  /** One printed line: its cells and the blanks after the last. */
  datatype Row = Row(cells: seq<Cell>, trail: string)

  predicate Pad(p: string) { forall c :: c in p ==> c in {' ', '\t', '\r', '\U{000B}', '\U{000C}'} }

  predicate CellsFit(cells: seq<Cell>) {
    && (forall i :: 0 <= i < |cells| ==> Pad(cells[i].pad) && Word(cells[i].word))
    && forall i :: 0 < i < |cells| ==> cells[i].pad != ""
  }

  predicate Fits(r: Row) { CellsFit(r.cells) && Pad(r.trail) }

  function WordsOf(cells: seq<Cell>): seq<string> {
    if cells == [] then [] else [cells[0].word] + WordsOf(cells[1..])
  }

  function PrintCells(cells: seq<Cell>, trail: string): string {
    if cells == [] then trail else cells[0].pad + cells[0].word + PrintCells(cells[1..], trail)
  }

  lemma {:induction false} FieldsOfPrinted(cells: seq<Cell>, trail: string)
    requires CellsFit(cells) && Pad(trail)
    ensures Fields(PrintCells(cells, trail)) == WordsOf(cells)
  {
    if cells == [] {
      FieldsSkip(trail, "");
      assert trail + "" == trail;
    } else {
      var rest := PrintCells(cells[1..], trail);
      if cells[1..] != [] { assert cells[1..][0] == cells[1]; assert rest[0] in cells[1].pad; }
      else if trail != "" { assert rest[0] in trail; }
      FieldsOfPrinted(cells[1..], trail);
      FieldsWord(cells[0].word, rest);
      FieldsSkip(cells[0].pad, cells[0].word + rest);
      assert cells[0].pad + cells[0].word + rest == cells[0].pad + (cells[0].word + rest);
    }
  }

  lemma {:induction false} PrintedIsOneLine(cells: seq<Cell>, trail: string)
    requires CellsFit(cells) && Pad(trail)
    ensures '\n' !in PrintCells(cells, trail)
  {
    if cells != [] {
      PrintedIsOneLine(cells[1..], trail);
      assert Blank('\n');
    }
  }

  function PrintRows(rows: seq<Row>): string {
    if rows == [] then "" else PrintCells(rows[0].cells, rows[0].trail) + "\n" + PrintRows(rows[1..])
  }

  /** The fields of every line. */
  function FieldRows(lines: seq<string>): (fs: seq<seq<string>>)
    ensures |fs| == |lines|
  {
    if lines == [] then [] else [Fields(lines[0])] + FieldRows(lines[1..])
  }

  function RowWords(rows: seq<Row>): seq<seq<string>> {
    if rows == [] then [] else [WordsOf(rows[0].cells)] + RowWords(rows[1..])
  }

  lemma FieldRowsFirst(line: string, rest: string)
    requires '\n' !in line
    ensures FieldRows(Split(line + "\n" + rest, '\n')) == [Fields(line)] + FieldRows(Split(rest, '\n'))
  {
    SplitFirst(line, '\n', rest);
    assert line + "\n" + rest == line + ['\n'] + rest;
    var tail := Split(rest, '\n');
    assert ([line] + tail)[1..] == tail;
  }

  lemma FieldRowsNone()
    ensures FieldRows(Split("", '\n')) == [[]]
  {
    SplitNone("", '\n');
    assert [""][1..] == [];
  }

  lemma RowReads(row: Row, rest: string)
    requires Fits(row)
    ensures FieldRows(Split(PrintCells(row.cells, row.trail) + "\n" + rest, '\n'))
            == [WordsOf(row.cells)] + FieldRows(Split(rest, '\n'))
  {
    PrintedIsOneLine(row.cells, row.trail);
    FieldsOfPrinted(row.cells, row.trail);
    FieldRowsFirst(PrintCells(row.cells, row.trail), rest);
  }

  lemma WordsFirst(ws: seq<string>, more: seq<seq<string>>, end: seq<seq<string>>)
    ensures [ws] + (more + end) == [ws] + more + end
  {
  }

  /** However the columns are padded, reading the lines back gives the words. */
  lemma {:induction false} LayoutIrrelevant(rows: seq<Row>)
    requires forall r :: r in rows ==> Fits(r)
    ensures FieldRows(Split(PrintRows(rows), '\n')) == RowWords(rows) + [[]]
  {
    if rows == [] {
      FieldRowsNone();
    } else {
      assert rows[0] in rows;
      LayoutIrrelevant(rows[1..]);
      RowReads(rows[0], PrintRows(rows[1..]));
      WordsFirst(WordsOf(rows[0].cells), RowWords(rows[1..]), [[]]);
    }
  }

  // ------------------------------------------------- numerals

  function Digit(d: nat): (c: char)
    requires d < 16
    ensures !Blank(c) && c !in {':', '.', '\n', '[', ']', '-', 'K', 'M', 'G'}
  {
    if d < 10 then '0' + d as char else 'A' + (d - 10) as char
  }

  /** The value of a hex digit given by its code. */
  function HexDigit(b: int): (v: Option<nat>)
    ensures v.Some? ==> v.value < 16
  {
    if 0x30 <= b <= 0x39 then Some(b - 0x30)
    else if 0x61 <= b <= 0x66 then Some(b - 0x61 + 10)
    else if 0x41 <= b <= 0x46 then Some(b - 0x41 + 10)
    else None
  }

  function DigitValue(c: char): (v: Option<nat>)
    ensures v.Some? ==> v.value < 16
  {
    HexDigit(c as int)
  }

  type Base = b: nat | b == 10 || b == 16 witness 10

  function Shift(v: nat, base: Base, d: nat): nat { if base == 10 then 10 * v + d else 16 * v + d }

  /** The value of a run of digits; the empty run is 0. */
  function Value(s: string, base: Base): Option<nat> {
    if s == "" then Some(0)
    else
      match (Value(s[..|s| - 1], base), DigitValue(s[|s| - 1]))
      case (Some(v), Some(d)) => if d < base then Some(Shift(v, base, d)) else None
      case _ => None
  }

  function Decimal(n: nat): (s: string)
    ensures s != "" && forall c :: c in s ==> '0' <= c <= '9'
  {
    if n < 10 then [Digit(n)] else Decimal(n / 10) + [Digit(n % 10)]
  }

  lemma {:induction false} ValueOfDecimal(n: nat)
    ensures Value(Decimal(n), 10) == Some(n)
  {
    var s := Decimal(n);
    if n < 10 {
      assert s[..|s| - 1] == "";
    } else {
      ValueOfDecimal(n / 10);
      assert s[..|s| - 1] == Decimal(n / 10);
    }
  }

  lemma {:induction false} DecimalStarts(n: nat)
    ensures n > 0 ==> Decimal(n)[0] != '0'
    ensures n == 0 ==> Decimal(n) == "0"
  {
    if n >= 10 { DecimalStarts(n / 10); }
  }

  lemma DecimalInjective(m: nat, n: nat)
    requires Decimal(m) == Decimal(n)
    ensures m == n
  {
    ValueOfDecimal(m);
    ValueOfDecimal(n);
  }
}
