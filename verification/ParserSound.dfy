/** The decoder accepts nothing but JSON text: what it reads is one of the renderings of RawText, with
    the lone surrogates and broken bytes that Go reads as U+FFFD. */
module ParserSound {
  import opened Utf8
  import opened Json
  import opened Options
  import opened Parser
  import opened RawText
  import Canon
  import Words

  // ------------------------------------------------- numbers (section 6 of RFC 8259)

  /** exp: the letter, an optional sign, the digits. */
  datatype Numeral = Numeral(minus: bool, whole: Bytes, frac: Option<Bytes>, exp: Option<Exponent>)
  datatype Exponent = Exponent(letter: byte, sign: Option<byte>, digits: Bytes)

  predicate DigitsOnly(d: Bytes) { d != [] && forall i :: 0 <= i < |d| ==> 0x30 <= d[i] <= 0x39 }

  predicate NumeralFits(n: Numeral) {
    && DigitsOnly(n.whole) && (|n.whole| > 1 ==> n.whole[0] != 0x30)
    && (n.frac.Some? ==> DigitsOnly(n.frac.value))
    && (n.exp.Some? ==> ExponentFits(n.exp.value))
  }

  predicate ExponentFits(e: Exponent) {
    e.letter in {0x65, 0x45} && (e.sign.Some? ==> e.sign.value in {0x2B, 0x2D}) && DigitsOnly(e.digits)
  }

  function WholeText(n: Numeral): Bytes { (if n.minus then [0x2D] else []) + n.whole }

  function FracText(n: Numeral): Bytes { if n.frac.Some? then [0x2E] + n.frac.value else [] }

  function ExpText(n: Numeral): Bytes {
    if n.exp.None? then []
    else [n.exp.value.letter] + (if n.exp.value.sign.Some? then [n.exp.value.sign.value] else []) + n.exp.value.digits
  }

  function NumeralText(n: Numeral): Bytes { WholeText(n) + FracText(n) + ExpText(n) }

  lemma RunBefore(d: Bytes, rest: Bytes)
    requires DigitsOnly(d) && (rest == [] || !IsDigit(rest[0]))
    ensures DigitRun(d + rest) == |d|
  {
    DigitRunStops(d, rest);
    Canon.DigitRunAll(d);
  }

  lemma WholeLength(n: Numeral, rest: Bytes)
    requires NumeralFits(n) && (rest == [] || !IsDigit(rest[0]))
    ensures IntLen(WholeText(n) + rest) == Some(|WholeText(n)|)
  {
    var s, sign := WholeText(n) + rest, if n.minus then 1 else 0;
    assert s[sign..] == n.whole + rest;
    assert s[sign] == n.whole[0] && (!n.minus ==> s[0] != 0x2D);
    RunBefore(n.whole, rest);
  }

  lemma FracLength(n: Numeral, rest: Bytes)
    requires NumeralFits(n) && (rest == [] || (!IsDigit(rest[0]) && rest[0] != 0x2E))
    ensures FracLen(FracText(n) + rest) == Some(|FracText(n)|)
  {
    var s := FracText(n) + rest;
    if n.frac.Some? {
      assert s[1..] == n.frac.value + rest;
      RunBefore(n.frac.value, rest);
    } else {
      assert s == rest;
    }
  }

  lemma ExpLength(n: Numeral)
    requires NumeralFits(n)
    ensures ExpLen(ExpText(n)) == Some(|ExpText(n)|)
  {
    if n.exp.Some? {
      var e, s := n.exp.value, ExpText(n);
      var i := if e.sign.Some? then 2 else 1;
      assert s[0] == e.letter && s[i..] == e.digits + [];
      assert e.sign.Some? ==> s[1] == e.sign.value;
      assert e.sign.None? ==> s[1] == e.digits[0];
      RunBefore(e.digits, []);
    }
  }

  lemma ThreeCut(a: Bytes, b: Bytes, c: Bytes)
    ensures var s := a + b + c; s == a + (b + c) && s[|a|..] == b + c && s[|a| + |b|..] == c
  {
  }

  lemma Assembled(a: Bytes, b: Bytes, c: Bytes)
    requires IntLen(a + (b + c)) == Some(|a|) && FracLen(b + c) == Some(|b|) && ExpLen(c) == Some(|c|)
    ensures IsNumber(a + b + c)
  {
    ThreeCut(a, b, c);
    NumberLenOf(a + b + c, |a|, |b|, |c|);
  }

  /** What follows a part does not continue it. */
  lemma Heads(n: Numeral)
    requires NumeralFits(n)
    ensures var c := ExpText(n); c == [] || (!IsDigit(c[0]) && c[0] != 0x2E)
    ensures var r := FracText(n) + ExpText(n); r == [] || !IsDigit(r[0])
  {
  }

  lemma NumeralIsNumber(n: Numeral)
    requires NumeralFits(n)
    ensures IsNumber(NumeralText(n))
  {
    Heads(n);
    WholeLength(n, FracText(n) + ExpText(n));
    FracLength(n, ExpText(n));
    ExpLength(n);
    Assembled(WholeText(n), FracText(n), ExpText(n));
  }

  lemma {:induction false} RunIsDigits(s: Bytes)
    ensures forall i :: 0 <= i < DigitRun(s) ==> 0x30 <= s[i] <= 0x39
  {
    if s != [] && IsDigit(s[0]) { RunIsDigits(s[1..]); }
  }

  lemma RunTaken(s: Bytes)
    requires DigitRun(s) > 0
    ensures DigitsOnly(s[..DigitRun(s)])
  {
    RunIsDigits(s);
  }

  lemma WholeIs(t: Bytes) returns (minus: bool, whole: Bytes)
    requires IntLen(t).Some?
    ensures DigitsOnly(whole) && (|whole| > 1 ==> whole[0] != 0x30)
    ensures t[..IntLen(t).value] == (if minus then [0x2D] else []) + whole
  {
    minus := t[0] == 0x2D;
    var sign := if minus then 1 else 0;
    if t[sign] == 0x30 {
      whole := [0x30];
    } else {
      RunTaken(t[sign..]);
      whole := t[sign..][..DigitRun(t[sign..])];
    }
  }

  lemma InThree(t: Bytes, i: nat, f: nat, e: nat)
    requires i + f + e == |t|
    ensures t == t[..i] + t[i..][..f] + t[i + f..][..e]
  {
  }

  lemma NumberIsNumeral(t: Bytes) returns (n: Numeral)
    requires IsNumber(t)
    ensures NumeralFits(n) && NumeralText(n) == t
  {
    var i, f, e := NumberParts(t);
    var minus, whole := WholeIs(t);
    var frac := FracIs(t[i..]);
    var exp := ExpIs(t[i + f..]);
    n := Numeral(minus, whole, frac, exp);
    InThree(t, i, f, e);
  }

  lemma FracIs(s: Bytes) returns (frac: Option<Bytes>)
    requires FracLen(s).Some?
    ensures frac.Some? ==> DigitsOnly(frac.value)
    ensures s[..FracLen(s).value] == if frac.Some? then [0x2E] + frac.value else []
  {
    if s == [] || s[0] != 0x2E { return None; }
    RunTaken(s[1..]);
    frac := Some(s[1..][..DigitRun(s[1..])]);
  }

  lemma ExpIs(s: Bytes) returns (exp: Option<Exponent>)
    requires ExpLen(s).Some?
    ensures exp.Some? ==> ExponentFits(exp.value)
    ensures s[..ExpLen(s).value] == ExpText(Numeral(false, [], None, exp))
  {
    if s == [] || (s[0] != 0x65 && s[0] != 0x45) { return None; }
    var i := if |s| > 1 && (s[1] == 0x2B || s[1] == 0x2D) then 2 else 1;
    RunTaken(s[i..]);
    var digits := s[i..][..DigitRun(s[i..])];
    exp := Some(Exponent(s[0], if i == 2 then Some(s[1]) else None, digits));
    assert s[..i + |digits|] == s[..i] + digits;
  }

  /** A number is exactly an optional minus, digits without a leading zero, and optionally a fraction
      and an exponent with at least one digit each. */
  lemma NumberIff(t: Bytes)
    ensures IsNumber(t) <==> exists n :: NumeralFits(n) && NumeralText(n) == t
  {
    if IsNumber(t) { var n := NumberIsNumeral(t); }
    if n :| NumeralFits(n) && NumeralText(n) == t { NumeralIsNumber(n); }
  }

  // ------------------------------------------------- strings

  /** Also the pieces that stand for no character. */
  predicate ReadablePiece(p: Piece) {
    ValidPiece(p) || (p.Lone? && 0xD800 <= p.u < 0xE000) || (p.Broken? && p.b >= 0x80)
  }

  predicate ReadablePieces(ps: seq<Piece>) { forall i :: 0 <= i < |ps| ==> ReadablePiece(ps[i]) }

  lemma DigitIs(b: byte)
    requires Words.HexDigit(b).Some?
    ensures b == HexByte(Words.HexDigit(b).value, b < 0x61)
  {
  }

  lemma FromDigits(a: nat, b: nat, c: nat, d: nat)
    requires a < 16 && b < 16 && c < 16 && d < 16
    ensures var u := a * 4096 + b * 256 + c * 16 + d;
            u / 0x1000 % 16 == a && u / 0x100 % 16 == b && u / 0x10 % 16 == c && u % 16 == d
  {
    var u := a * 4096 + b * 256 + c * 16 + d;
    assert u / 0x10 == a * 256 + b * 16 + c && u / 0x100 == a * 16 + b && u / 0x1000 == a;
  }

  lemma HexIs(s: Bytes) returns (upper: seq<bool>)
    requires Hex4(s).Some?
    ensures s[..6] == UnicodeText(Hex4(s).value, upper)
  {
    upper := [s[2] < 0x61, s[3] < 0x61, s[4] < 0x61, s[5] < 0x61];
    DigitIs(s[2]);
    DigitIs(s[3]);
    DigitIs(s[4]);
    DigitIs(s[5]);
    FromDigits(Words.HexDigit(s[2]).value, Words.HexDigit(s[3]).value, Words.HexDigit(s[4]).value,
               Words.HexDigit(s[5]).value);
  }

  /** What ranging over bytes takes is one encoded character, or a single byte of none. */
  lemma DecodeIs(s: Bytes)
    requires s != []
    ensures var (c, w) := DecodeRune(s); s[..w] == EncodeRune(c) || (c == REPLACEMENT && w == 1 && s[0] >= 0x80)
  {
    var (c, w) := DecodeRune(s);
    if w == 2 {
      assert c / 64 == s[0] - 0xC0;
    } else if w == 3 {
      SixBitDigits(c);
      var x: int, y: int := s[0], s[1];
      assert c / 64 == (x - 0xE0) * 64 + (y - 0x80) && c / 4096 == x - 0xE0;
    } else if w == 4 {
      SixBitDigits(c);
      var x: int, y: int, z: int := s[0], s[1], s[2];
      assert c / 64 == (x - 0xF0) * 4096 + (y - 0x80) * 64 + (z - 0x80);
      assert c / 4096 == (x - 0xF0) * 64 + (y - 0x80) && c / 262144 == x - 0xF0;
    }
  }

  lemma SurrogatesOf(hi: nat, lo: nat)
    requires HighSurrogate(hi) && LowSurrogate(lo)
    ensures var c := 0x10000 + (hi - 0xD800) * 0x400 + (lo - 0xDC00);
            0x10000 <= c <= 0x10FFFF && HighOf(c) == hi && LowOf(c) == lo
  {
  }

  predicate IsPair(s: Bytes) {
    Hex4(s).Some? && HighSurrogate(Hex4(s).value) && Hex4(s[6..]).Some? && LowSurrogate(Hex4(s[6..]).value)
  }

  lemma PairParses(s: Bytes)
    requires IsPair(s)
    ensures ParseRune(s) == Some((0x10000 + (Hex4(s).value - 0xD800) * 0x400 + (Hex4(s[6..]).value - 0xDC00), 12))
  {
  }

  lemma PairText(s: Bytes, c: Scalar) returns (p: Piece)
    requires IsPair(s) && c >= 0x10000 && HighOf(c) == Hex4(s).value && LowOf(c) == Hex4(s[6..]).value
    ensures ReadablePiece(p) && PieceMeaning(p) == c && PrintPiece(p) == s[..12]
  {
    var upper := HexIs(s);
    var lowUpper := HexIs(s[6..]);
    p := Pair(c, upper, lowUpper);
    assert s[..12] == s[..6] + s[6..][..6];
  }

  lemma PairIs(s: Bytes) returns (p: Piece)
    requires IsPair(s)
    ensures ParseRune(s).Some? && ReadablePiece(p) && PieceMeaning(p) == ParseRune(s).value.0
    ensures PrintPiece(p) == s[..ParseRune(s).value.1]
  {
    PairParses(s);
    SurrogatesOf(Hex4(s).value, Hex4(s[6..]).value);
    p := PairText(s, ParseRune(s).value.0);
  }

  lemma UnitIs(s: Bytes) returns (p: Piece)
    requires Hex4(s).Some? && !IsPair(s)
    ensures ParseRune(s).Some? && ReadablePiece(p) && PieceMeaning(p) == ParseRune(s).value.0
    ensures PrintPiece(p) == s[..ParseRune(s).value.1]
  {
    var u := Hex4(s).value;
    var upper := HexIs(s);
    p := if HighSurrogate(u) || LowSurrogate(u) then Lone(u, upper) else Unicode(u, upper);
  }

  lemma ShortIs(s: Bytes) returns (p: Piece)
    requires |s| > 1 && s[0] == 0x5C && s[1] != 0x75 && ParseRune(s).Some?
    ensures ReadablePiece(p) && PieceMeaning(p) == ParseRune(s).value.0 && PrintPiece(p) == s[..ParseRune(s).value.1]
  {
    p := Short(ShortEscape(s[1]).value);
  }

  lemma EscapeIs(s: Bytes) returns (p: Piece)
    requires s != [] && s[0] == 0x5C && ParseRune(s).Some?
    ensures ReadablePiece(p) && PieceMeaning(p) == ParseRune(s).value.0 && PrintPiece(p) == s[..ParseRune(s).value.1]
  {
    if s[1] != 0x75 {
      p := ShortIs(s);
    } else if IsPair(s) {
      p := PairIs(s);
    } else {
      p := UnitIs(s);
    }
  }

  lemma RuneIs(s: Bytes) returns (p: Piece)
    requires s != [] && s[0] != 0x22 && ParseRune(s).Some?
    ensures ReadablePiece(p) && PieceMeaning(p) == ParseRune(s).value.0 && PrintPiece(p) == s[..ParseRune(s).value.1]
  {
    if s[0] == 0x5C {
      p := EscapeIs(s);
    } else {
      DecodeIs(s);
      var (c, w) := DecodeRune(s);
      if s[..w] == EncodeRune(c) {
        EncodeRuneHead(c);
        assert s[..w][0] == s[0];
        p := Plain(c);
      } else {
        p := Broken(s[0]);
      }
    }
  }

  lemma Cut(s: Bytes, w: nat, a: Bytes, b: Bytes, rest: Bytes)
    requires w <= |s| && s[w..] == a + b + rest
    ensures s == s[..w] + a + b + rest
  {
    assert s == s[..w] + s[w..];
  }

  lemma {:induction false} StringIs(s: Bytes) returns (ps: seq<Piece>)
    requires ParseString(s).Some?
    ensures ReadablePieces(ps) && PiecesMeaning(ps) == ParseString(s).value.0
    ensures s == PrintPieces(ps) + [0x22] + ParseString(s).value.1
    decreases |s|
  {
    if s[0] == 0x22 {
      ps := [];
    } else {
      var p := RuneIs(s);
      var w := ParseRune(s).value.1;
      var more := StringIs(s[w..]);
      ps := [p] + more;
      assert ps[1..] == more;
      Cut(s, w, PrintPieces(more), [0x22], ParseString(s).value.1);
    }
  }

  // ------------------------------------------------- values

  predicate Readable(r: Raw)
    decreases r, 1
  {
    match r
    case RNull => true
    case RBool(_) => true
    case RNum(t) => IsNumber(t)
    case RStr(ps) => ReadablePieces(ps)
    case RArr(space, es) => Spaces(space) && ReadableElems(es)
    case RObj(space, fs) => Spaces(space) && ReadableFields(fs)
  }

  predicate ReadableElems(es: seq<Elem>)
    decreases es, 0
  {
    es == [] || (Spaces(es[0].before) && Readable(es[0].value) && Spaces(es[0].after) && ReadableElems(es[1..]))
  }

  predicate ReadableFields(fs: seq<Field>)
    decreases fs, 0
  {
    fs == [] || (ReadableAround(fs[0]) && Readable(fs[0].value) && ReadableFields(fs[1..]))
  }

  predicate ReadableAround(f: Field) {
    Spaces(f.before) && ReadablePieces(f.key) && Spaces(f.beforeColon) && Spaces(f.afterColon) && Spaces(f.after)
  }

  lemma {:induction false} SpaceIs(s: Bytes) returns (ws: Bytes)
    ensures Spaces(ws) && s == ws + SkipSpace(s)
  {
    if s == [] || !IsSpace(s[0]) {
      ws := [];
    } else {
      var more := SpaceIs(s[1..]);
      ws := [s[0]] + more;
      assert s == [s[0]] + s[1..];
    }
  }

  lemma {:induction false} ElemsConsMeaning(e: Elem, es: seq<Elem>)
    ensures ElemsMeaning([e] + es) == [Meaning(e.value)] + ElemsMeaning(es)
    ensures PrintElems([e] + es) == e.before + Print(e.value)
                                    + (e.after + if es == [] then [0x5D] else [0x2C] + PrintElems(es))
    ensures ReadableElems([e] + es) <==> Spaces(e.before) && Readable(e.value) && Spaces(e.after) && ReadableElems(es)
  {
    assert ([e] + es)[1..] == es;
  }

  lemma {:induction false} FieldsConsMeaning(f: Field, fs: seq<Field>)
    ensures FieldsMeaning([f] + fs) == [(Encode(PiecesMeaning(f.key)), Meaning(f.value))] + FieldsMeaning(fs)
    ensures PrintFields([f] + fs) == PrintKey(f) + (f.afterColon + Print(f.value)
                                                   + (f.after + if fs == [] then [0x7D] else [0x2C] + PrintFields(fs)))
    ensures ReadableFields([f] + fs) <==> ReadableAround(f) && Readable(f.value) && ReadableFields(fs)
  {
    assert ([f] + fs)[1..] == fs;
  }

  // Regrouping of concatenations, kept away from the recursive definitions.

  lemma Behind(input: Bytes, ws: Bytes, s: Bytes, w: nat, text: Bytes, rest: Bytes)
    requires input == ws + s && w <= |s| && s[..w] == text && s[w..] == rest
    ensures input == ws + text + rest
  {
  }

  lemma ItemText(s: Bytes, ws: Bytes, p: Bytes, v1: Bytes, after: Bytes, b: byte, more: Bytes, rest: Bytes)
    requires s == ws + p + v1 && v1 == after + ([b] + (more + rest))
    ensures s == ws + p + (after + ([b] + more)) + rest
  {
  }

  lemma KeyText(s: Bytes, before: Bytes, quoted: Bytes, tail: Bytes, colon: Bytes, rest: Bytes)
    requires s == before + (quoted + tail) && tail == colon + ([0x3A] + rest)
    ensures s == before + quoted + colon + [0x3A] + rest
  {
  }

  lemma MemberText(s: Bytes, key: Bytes, value: Bytes, ws: Bytes, p: Bytes, v1: Bytes, after: Bytes, b: byte,
                   more: Bytes, rest: Bytes)
    requires s == key + value && value == ws + p + v1 && v1 == after + ([b] + (more + rest))
    ensures s == key + (ws + p + (after + ([b] + more))) + rest
  {
  }

  lemma FirstByte(s: Bytes)
    requires s != []
    ensures s == [s[0]] + s[1..] && s[..1] == [s[0]]
  {
  }

  lemma Enclosed(s: Bytes, open: byte, inner: Bytes, rest: Bytes)
    requires s != [] && s[0] == open && s[1..] == inner + rest
    ensures s == [open] + inner + rest && |s| - |rest| == 1 + |inner|
    ensures s[..|s| - |rest|] == [open] + inner && s[|s| - |rest|..] == rest
  {
    FirstByte(s);
  }

  lemma StringValueIs(s: Bytes) returns (r: Raw)
    requires s != [] && s[0] == 0x22 && ParseValue(s).Some?
    ensures Readable(r) && Meaning(r) == ParseValue(s).value.0 && s == Print(r) + ParseValue(s).value.1
  {
    var ps := StringIs(s[1..]);
    r := RStr(ps);
    var rest := ParseValue(s).value.1;
    Enclosed(s, 0x22, PrintPieces(ps) + [0x22], rest);
    assert [0x22] + (PrintPieces(ps) + [0x22]) == [0x22] + PrintPieces(ps) + [0x22];
  }

  predicate Opens(b: byte) { b == 0x22 || b == 0x5B || b == 0x7B }

  lemma PlainValueIs(s: Bytes) returns (r: Raw)
    requires s != [] && !IsSpace(s[0]) && !Opens(s[0]) && ParseValue(s).Some?
    ensures Readable(r) && Meaning(r) == ParseValue(s).value.0 && s == Print(r) + ParseValue(s).value.1
  {
    if s[0] == 0x6E {
      r := RNull;
    } else if s[0] == 0x74 {
      r := RBool(true);
    } else if s[0] == 0x66 {
      r := RBool(false);
    } else {
      var n := NumberLen(s).value;
      Canon.NumberTake(s);
      r := RNum(s[..n]);
      assert s == s[..n] + s[n..];
    }
  }

  lemma {:induction false} ArrayIs(s: Bytes) returns (r: Raw)
    requires s != [] && s[0] == 0x5B && ParseValue(s).Some?
    ensures Readable(r) && Meaning(r) == ParseValue(s).value.0 && s == Print(r) + ParseValue(s).value.1
    decreases |s|, 1
  {
    var body, rest := s[1..], ParseValue(s).value.1;
    var ws := SpaceIs(body);
    var inner := SkipSpace(body);
    if inner != [] && inner[0] == 0x5D {
      FirstByte(inner);
      r := RArr(ws, []);
      assert body == (ws + [0x5D]) + rest;
      Enclosed(s, 0x5B, ws + [0x5D], rest);
    } else {
      ItemsAfterSpace(body);
      var es := ItemsIs(body);
      r := RArr([], es);
      Enclosed(s, 0x5B, PrintElems(es), rest);
    }
  }

  lemma {:induction false} ObjectIs(s: Bytes) returns (r: Raw)
    requires s != [] && s[0] == 0x7B && ParseValue(s).Some?
    ensures Readable(r) && Meaning(r) == ParseValue(s).value.0 && s == Print(r) + ParseValue(s).value.1
    decreases |s|, 1
  {
    var body, rest := s[1..], ParseValue(s).value.1;
    var ws := SpaceIs(body);
    var inner := SkipSpace(body);
    if inner != [] && inner[0] == 0x7D {
      FirstByte(inner);
      r := RObj(ws, []);
      assert body == (ws + [0x7D]) + rest;
      Enclosed(s, 0x7B, ws + [0x7D], rest);
    } else {
      MembersAfterSpace(body);
      var fs := MembersAre(body);
      r := RObj([], fs);
      Enclosed(s, 0x7B, PrintFields(fs), rest);
    }
  }

  /** Whatever the decoder accepts is white space, a rendering of the value it gives, and what is left. */
  lemma {:induction false} ParsedIsRendered(input: Bytes) returns (ws: Bytes, r: Raw)
    requires ParseValue(input).Some?
    ensures Spaces(ws) && Readable(r) && Meaning(r) == ParseValue(input).value.0
    ensures input == ws + Print(r) + ParseValue(input).value.1
    decreases |input|, 3
  {
    var s, rest := SkipSpace(input), ParseValue(input).value.1;
    ws := SpaceIs(input);
    ValueAfterSpace(input);
    if s[0] == 0x22 {
      r := StringValueIs(s);
    } else if s[0] == 0x5B {
      r := ArrayIs(s);
    } else if s[0] == 0x7B {
      r := ObjectIs(s);
    } else {
      r := PlainValueIs(s);
    }
    assert ws + (Print(r) + rest) == ws + Print(r) + rest;
  }

  /** One item and what follows it: its elements or the closing bracket. */
  lemma {:induction false} ItemsIs(s: Bytes) returns (es: seq<Elem>)
    requires ParseItems(s).Some?
    ensures es != [] && ReadableElems(es) && ElemsMeaning(es) == ParseItems(s).value.0
    ensures s == PrintElems(es) + ParseItems(s).value.1
    decreases |s|, 4
  {
    var v1 := ParseValue(s).value.1;
    var ws, r := ParsedIsRendered(s);
    var after := SpaceIs(v1);
    var t := SkipSpace(v1);
    FirstByte(t);
    var more := [];
    if t[0] == 0x2C { more := ItemsIs(t[1..]); }
    es := [Elem(ws, r, after)] + more;
    ElemsConsMeaning(Elem(ws, r, after), more);
    var tail := if more == [] then [] else PrintElems(more);
    assert more == [] ==> [] + t[1..] == t[1..];
    ItemText(s, ws, Print(r), v1, after, t[0], tail, ParseItems(s).value.1);
    assert more == [] ==> [t[0]] + tail == [0x5D];
  }

  lemma {:induction false} KeyIs(s: Bytes) returns (before: Bytes, key: seq<Piece>, colon: Bytes)
    requires ParseKey(s).Some?
    ensures Spaces(before) && ReadablePieces(key) && Spaces(colon)
    ensures Encode(PiecesMeaning(key)) == ParseKey(s).value.0
    ensures s == before + PrintString(key) + colon + [0x3A] + ParseKey(s).value.1
  {
    before := SpaceIs(s);
    var t := SkipSpace(s);
    key := StringIs(t[1..]);
    var tail := ParseString(t[1..]).value.1;
    colon := SpaceIs(tail);
    FirstByte(SkipSpace(tail));
    Enclosed(t, 0x22, PrintPieces(key) + [0x22], tail);
    assert [0x22] + (PrintPieces(key) + [0x22]) == PrintString(key);
    KeyText(s, before, PrintString(key), tail, colon, ParseKey(s).value.1);
  }

  lemma {:induction false} MembersAre(s: Bytes) returns (fs: seq<Field>)
    requires ParseMembers(s).Some?
    ensures fs != [] && ReadableFields(fs) && FieldsMeaning(fs) == ParseMembers(s).value.0
    ensures s == PrintFields(fs) + ParseMembers(s).value.1
    decreases |s|, 4
  {
    var before, key, colon := KeyIs(s);
    var value := ParseKey(s).value.1;
    var v1 := ParseValue(value).value.1;
    var ws, r := ParsedIsRendered(value);
    var after := SpaceIs(v1);
    var t := SkipSpace(v1);
    FirstByte(t);
    var more := [];
    if t[0] == 0x2C { more := MembersAre(t[1..]); }
    var f := Field(before, key, colon, ws, r, after);
    fs := [f] + more;
    FieldsConsMeaning(f, more);
    var tail := if more == [] then [] else PrintFields(more);
    assert more == [] ==> [] + t[1..] == t[1..];
    MemberText(s, PrintKey(f), value, ws, Print(r), v1, after, t[0], tail, ParseMembers(s).value.1);
    assert more == [] ==> [t[0]] + tail == [0x7D];
  }

  // ------------------------------------------------- what canonicalising accepts

  /** A text is refused as no JSON only if it is none; so an accepted one begins with a rendering. */
  lemma AcceptedIsRendered(raw: Bytes) returns (ws: Bytes, r: Raw, rest: Bytes)
    requires Canon.Canonical(raw).Ok?
    ensures Spaces(ws) && Readable(r) && raw == ws + Print(r) + rest
    ensures Canon.Canonical(raw) == Canon.Ok(GoText(Meaning(r)))
  {
    ws, r := ParsedIsRendered(raw);
    rest := ParseValue(raw).value.1;
  }

  /** Of members with one key the last counts. */
  lemma {:induction false} LastMemberCounts(ms: seq<(Bytes, GoValue)>, i: nat)
    requires i < |ms| && forall j :: i < j < |ms| ==> ms[j].0 != ms[i].0
    ensures ms[i].0 in Collect(ms) && Collect(ms)[ms[i].0] == ms[i].1
  {
    var n := |ms| - 1;
    if i < n { LastMemberCounts(ms[..n], i); }
  }

  // ------------------------------------------------- the text in ASCII

  /** Every character as `\uXXXX`, or as two of them. */
  function AsciiPiece(c: Scalar): Piece { if c < 0x10000 then Unicode(c, []) else Pair(c, [], []) }

  function AsciiPieces(t: Text): seq<Piece> {
    if t == [] then [] else [AsciiPiece(t[0])] + AsciiPieces(t[1..])
  }

  lemma {:induction false} AsciiMeans(t: Text)
    ensures ValidPieces(AsciiPieces(t)) && PiecesMeaning(AsciiPieces(t)) == t
  {
    if t != [] { AsciiMeans(t[1..]); }
  }

  /** Any text escaped throughout arrives as itself, in the bytes the control plane hashes. */
  lemma AsciiTextArrives(t: Text)
    ensures Canon.Canonical(PrintString(AsciiPieces(t))) == Canon.Ok(PyCanonical(Str(t)))
  {
    AsciiMeans(t);
    var raw := RStr(AsciiPieces(t));
    assert [] + Print(raw) + [] == Print(raw);
    Canon.WireAgreement(Str(t), [], raw, []);
  }
}
