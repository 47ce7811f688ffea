/** Every way to write a JSON value down (RFC 8259): member order, white space and escape
    choices are free. Reading such a text gives the value it was written from. */
module RawText {
  import opened Utf8
  import opened Json
  import opened Options
  import opened Parser
  import Words

  /** One character inside quotes: itself, `\n`-style, `\uXXXX`, or a surrogate pair; upper says which
      hex digits are written in upper case. The decoder also reads a lone surrogate and a byte that is
      part of no UTF-8, which stand for no character. */
  datatype Piece =
    | Plain(c: Scalar)
    | Short(c: Scalar)
    | Unicode(c: Scalar, upper: seq<bool>)
    | Pair(c: Scalar, upper: seq<bool>, lowUpper: seq<bool>)
    | Lone(u: nat, upper: seq<bool>)
    | Broken(b: byte)

  datatype Raw =
    | RNull
    | RBool(b: bool)
    | RNum(text: Bytes)
    | RStr(pieces: seq<Piece>)
    | RArr(space: Bytes, elems: seq<Elem>)
    | RObj(space: Bytes, fields: seq<Field>)

  datatype Elem = Elem(before: Bytes, value: Raw, after: Bytes)
  datatype Field = Field(before: Bytes, key: seq<Piece>, beforeColon: Bytes, afterColon: Bytes, value: Raw,
                         after: Bytes)

  // ------------------------------------------------- well-formedness

  predicate Spaces(s: Bytes) { forall i :: 0 <= i < |s| ==> s[i] in {0x20, 0x09, 0x0A, 0x0D} }

  predicate IsNumber(t: Bytes) { NumberLen(t) == Some(|t|) }

  /** The letter after the backslash (section 7). */
  function ShortLetter(c: Scalar): Option<byte> {
    match c
    case 0x22 => Some(0x22)
    case 0x5C => Some(0x5C)
    case 0x2F => Some(0x2F)
    case 0x08 => Some(0x62)
    case 0x0C => Some(0x66)
    case 0x0A => Some(0x6E)
    case 0x0D => Some(0x72)
    case 0x09 => Some(0x74)
    case _ => None
  }

  predicate ValidPiece(p: Piece) {
    match p
    case Plain(c) => c >= 0x20 && c != 0x22 && c != 0x5C
    case Short(c) => ShortLetter(c).Some?
    case Unicode(c, _) => c < 0x10000
    case Pair(c, _, _) => c >= 0x10000
    case Lone(_, _) => false
    case Broken(_) => false
  }

  predicate ValidPieces(ps: seq<Piece>) { forall i :: 0 <= i < |ps| ==> ValidPiece(ps[i]) }

  predicate Valid(r: Raw)
    decreases r, 1
  {
    match r
    case RNull => true
    case RBool(_) => true
    case RNum(t) => IsNumber(t)
    case RStr(ps) => ValidPieces(ps)
    case RArr(space, es) => Spaces(space) && ValidElems(es)
    case RObj(space, fs) => Spaces(space) && ValidFields(fs)
  }

  predicate ValidElems(es: seq<Elem>)
    decreases es, 0
  {
    es == [] || (Spaces(es[0].before) && Valid(es[0].value) && Spaces(es[0].after) && ValidElems(es[1..]))
  }

  predicate ValidFields(fs: seq<Field>)
    decreases fs, 0
  {
    fs == [] || (SpacedField(fs[0]) && Valid(fs[0].value) && ValidFields(fs[1..]))
  }

  predicate SpacedField(f: Field) {
    Spaces(f.before) && ValidPieces(f.key) && Spaces(f.beforeColon) && Spaces(f.afterColon) && Spaces(f.after)
  }

  // ------------------------------------------------- text and meaning

  function HexByte(d: nat, upper: bool): byte
    requires d < 16
  {
    if d < 10 then 0x30 + d else if upper then 0x41 + (d - 10) else 0x61 + (d - 10)
  }

  /** The four hex digits of u. */
  function HexText(u: nat, upper: seq<bool>): (h: Bytes)
    ensures |h| == 4
  {
    [HexByte(u / 0x1000 % 16, 0 < |upper| && upper[0]), HexByte(u / 0x100 % 16, 1 < |upper| && upper[1]),
     HexByte(u / 0x10 % 16, 2 < |upper| && upper[2]), HexByte(u % 16, 3 < |upper| && upper[3])]
  }

  function UnicodeText(u: nat, upper: seq<bool>): Bytes { [0x5C, 0x75] + HexText(u, upper) }

  /** The surrogates of a character above U+FFFF. */
  function HighOf(c: Scalar): nat { if c < 0x10000 then 0 else 0xD800 + (c - 0x10000) / 0x400 }
  function LowOf(c: Scalar): nat { if c < 0x10000 then 0 else 0xDC00 + (c - 0x10000) % 0x400 }

  function PrintPiece(p: Piece): Bytes {
    match p
    case Plain(c) => EncodeRune(c)
    case Short(c) => [0x5C, ShortLetter(c).GetOr(0)]
    case Unicode(c, upper) => UnicodeText(c, upper)
    case Pair(c, upper, lowUpper) => UnicodeText(HighOf(c), upper) + UnicodeText(LowOf(c), lowUpper)
    case Lone(u, upper) => UnicodeText(u, upper)
    case Broken(b) => [b]
  }

  function PieceMeaning(p: Piece): Scalar {
    if p.Lone? || p.Broken? then REPLACEMENT else p.c
  }

  function PrintPieces(ps: seq<Piece>): Bytes {
    if ps == [] then [] else PrintPiece(ps[0]) + PrintPieces(ps[1..])
  }

  function PiecesMeaning(ps: seq<Piece>): Text {
    if ps == [] then [] else [PieceMeaning(ps[0])] + PiecesMeaning(ps[1..])
  }

  function PrintString(ps: seq<Piece>): Bytes { [0x22] + PrintPieces(ps) + [0x22] }

  function Print(r: Raw): Bytes
    decreases r, 1
  {
    match r
    case RNull => [0x6E, 0x75, 0x6C, 0x6C]
    case RBool(b) => if b then [0x74, 0x72, 0x75, 0x65] else [0x66, 0x61, 0x6C, 0x73, 0x65]
    case RNum(t) => t
    case RStr(ps) => PrintString(ps)
    case RArr(space, es) => [0x5B] + (if es == [] then space + [0x5D] else PrintElems(es))
    case RObj(space, fs) => [0x7B] + (if fs == [] then space + [0x7D] else PrintFields(fs))
  }

  /** The elements, their commas and the closing bracket. */
  function PrintElems(es: seq<Elem>): Bytes
    decreases es, 0, 1
  {
    if es == [] then []
    else es[0].before + Print(es[0].value) + (es[0].after + ElemsTail(es))
  }

  function ElemsTail(es: seq<Elem>): Bytes
    requires es != []
    decreases es, 0, 0
  {
    if |es| == 1 then [0x5D] else [0x2C] + PrintElems(es[1..])
  }

  function PrintKey(f: Field): Bytes { f.before + PrintString(f.key) + f.beforeColon + [0x3A] }

  function PrintFields(fs: seq<Field>): Bytes
    decreases fs, 0, 1
  {
    if fs == [] then []
    else PrintKey(fs[0]) + (fs[0].afterColon + Print(fs[0].value) + (fs[0].after + FieldsTail(fs)))
  }

  function FieldsTail(fs: seq<Field>): Bytes
    requires fs != []
    decreases fs, 0, 0
  {
    if |fs| == 1 then [0x7D] else [0x2C] + PrintFields(fs[1..])
  }

  function Meaning(r: Raw): GoValue
    decreases r, 1
  {
    match r
    case RNull => Null
    case RBool(b) => Bool(b)
    case RNum(t) => Num(t)
    case RStr(ps) => Str(Encode(PiecesMeaning(ps)))
    case RArr(_, es) => Arr(ElemsMeaning(es))
    case RObj(_, fs) => Obj(Collect(FieldsMeaning(fs)))
  }

  function ElemsMeaning(es: seq<Elem>): seq<GoValue>
    decreases es, 0
  {
    if es == [] then [] else [Meaning(es[0].value)] + ElemsMeaning(es[1..])
  }

  function FieldsMeaning(fs: seq<Field>): (ms: seq<(Bytes, GoValue)>)
    ensures |ms| == |fs|
    decreases fs, 0
  {
    if fs == [] then []
    else [(Encode(PiecesMeaning(fs[0].key)), Meaning(fs[0].value))] + FieldsMeaning(fs[1..])
  }

  // ------------------------------------------------- white space and numbers

  lemma {:induction false} SkipSpaces(ws: Bytes, rest: Bytes)
    requires Spaces(ws) && (rest == [] || !IsSpace(rest[0]))
    ensures SkipSpace(ws + rest) == rest
  {
    if ws == [] {
      assert ws + rest == rest;
    } else {
      assert (ws + rest)[1..] == ws[1..] + rest;
      SkipSpaces(ws[1..], rest);
    }
  }

  /** A byte that could extend a number. */
  predicate Continues(b: int) { IsDigit(b) || b == 0x2E || b == 0x65 || b == 0x45 }

  ghost predicate Stops(rest: Bytes) { rest == [] || !Continues(rest[0]) }

  lemma {:induction false} DigitRunStops(s: Bytes, rest: Bytes)
    requires rest == [] || !IsDigit(rest[0])
    ensures DigitRun(s + rest) == DigitRun(s)
  {
    if s == [] {
      assert s + rest == rest;
    } else {
      assert (s + rest)[1..] == s[1..] + rest;
      DigitRunStops(s[1..], rest);
    }
  }

  lemma IntStops(t: Bytes, rest: Bytes)
    requires IntLen(t).Some? && Stops(rest)
    ensures IntLen(t + rest) == IntLen(t)
  {
    var sign := if t[0] == 0x2D then 1 else 0;
    assert (t + rest)[sign..] == t[sign..] + rest;
    DigitRunStops(t[sign..], rest);
  }

  lemma NumberLenOf(s: Bytes, i: nat, f: nat, e: nat)
    requires IntLen(s) == Some(i)
    requires FracLen(s[i..]) == Some(f)
    requires i + f <= |s| && ExpLen(s[i + f..]) == Some(e)
    ensures NumberLen(s) == Some(i + f + e)
  {
  }

  lemma DropOfConcat(t: Bytes, rest: Bytes, i: nat)
    requires i <= |t|
    ensures (t + rest)[i..] == t[i..] + rest
  {
  }

  lemma NumberParts(t: Bytes) returns (i: nat, f: nat, e: nat)
    requires NumberLen(t).Some?
    ensures IntLen(t) == Some(i) && FracLen(t[i..]) == Some(f)
    ensures i + f + e == NumberLen(t).value && ExpLen(t[i + f..]) == Some(e)
  {
    i := IntLen(t).value;
    f := FracLen(t[i..]).value;
    e := ExpLen(t[i + f..]).value;
  }

  lemma NumberStops(t: Bytes, rest: Bytes)
    requires IsNumber(t) && Stops(rest)
    ensures NumberLen(t + rest) == Some(|t|)
  {
    var i, f, e := NumberParts(t);
    IntStops(t, rest);
    FracStops(t[i..], rest);
    ExpStops(t[i + f..], rest);
    DropOfConcat(t, rest, i);
    DropOfConcat(t, rest, i + f);
    NumberLenOf(t + rest, i, f, e);
  }

  lemma FracStops(u: Bytes, rest: Bytes)
    requires FracLen(u).Some? && Stops(rest)
    ensures FracLen(u + rest) == FracLen(u)
  {
    if u != [] {
      assert (u + rest)[1..] == u[1..] + rest;
      DigitRunStops(u[1..], rest);
    }
  }

  lemma ExpStops(u: Bytes, rest: Bytes)
    requires ExpLen(u).Some? && Stops(rest)
    ensures ExpLen(u + rest) == ExpLen(u)
  {
    if u != [] && (u[0] == 0x65 || u[0] == 0x45) {
      var i := if |u| > 1 && (u[1] == 0x2B || u[1] == 0x2D) then 2 else 1;
      assert DigitRun(u[i..]) != 0;
      assert (u + rest)[i..] == u[i..] + rest;
      DigitRunStops(u[i..], rest);
    }
  }

  // ------------------------------------------------- strings

  lemma HexByteReads(d: nat, upper: bool)
    requires d < 16
    ensures Words.HexDigit(HexByte(d, upper)) == Some(d)
  {
  }

  lemma FourDigits(u: nat)
    requires u < 0x10000
    ensures u / 0x1000 % 16 * 4096 + u / 0x100 % 16 * 256 + u / 0x10 % 16 * 16 + u % 16 == u
  {
    var a, b, c := u / 0x1000, u / 0x100, u / 0x10;
    assert b / 16 == a && c / 16 == b;
  }

  /** Four hex digits in either case read as their number. */
  lemma HexReads(u: nat, upper: seq<bool>, rest: Bytes)
    requires u < 0x10000
    ensures Hex4(UnicodeText(u, upper) + rest) == Some(u)
  {
    var s, h := UnicodeText(u, upper) + rest, HexText(u, upper);
    assert forall i :: 0 <= i < 4 ==> s[i + 2] == h[i];
    HexByteReads(u / 0x1000 % 16, 0 < |upper| && upper[0]);
    HexByteReads(u / 0x100 % 16, 1 < |upper| && upper[1]);
    HexByteReads(u / 0x10 % 16, 2 < |upper| && upper[2]);
    HexByteReads(u % 16, 3 < |upper| && upper[3]);
    FourDigits(u);
  }

  lemma EncodeRuneHead(c: Scalar)
    ensures EncodeRune(c)[0] == c || EncodeRune(c)[0] >= 0x80
  {
  }

  lemma PairParts(c: Scalar)
    requires c >= 0x10000
    ensures HighSurrogate(HighOf(c)) && LowSurrogate(LowOf(c))
    ensures 0x10000 + (HighOf(c) - 0xD800) * 0x400 + (LowOf(c) - 0xDC00) == c
  {
  }

  lemma ParsePair(c: Scalar, upper: seq<bool>, lowUpper: seq<bool>, rest: Bytes)
    requires c >= 0x10000
    ensures ParseRune(PrintPiece(Pair(c, upper, lowUpper)) + rest) == Some((c, 12))
  {
    var tail := UnicodeText(LowOf(c), lowUpper) + rest;
    var s := UnicodeText(HighOf(c), upper) + tail;
    assert PrintPiece(Pair(c, upper, lowUpper)) + rest == s;
    PairParts(c);
    HexReads(HighOf(c), upper, tail);
    HexReads(LowOf(c), lowUpper, rest);
    assert s[6..] == tail && s[0] == 0x5C && s[1] == 0x75;
  }

  lemma ParsePiece(p: Piece, rest: Bytes)
    requires ValidPiece(p)
    ensures ParseRune(PrintPiece(p) + rest) == Some((PieceMeaning(p), |PrintPiece(p)|))
  {
    match p
    case Plain(c) =>
      EncodeRuneHead(c);
      DecodeRuneEncoded(c, rest);
    case Short(c) =>
      assert (PrintPiece(p) + rest)[1] == ShortLetter(c).value;
    case Unicode(c, upper) =>
      HexReads(c, upper, rest);
      assert (PrintPiece(p) + rest)[1] == 0x75;
    case Pair(c, upper, lowUpper) => ParsePair(c, upper, lowUpper, rest);
  }

  lemma {:induction false} ParsePieces(ps: seq<Piece>, rest: Bytes)
    requires ValidPieces(ps)
    ensures ParseString(PrintPieces(ps) + [0x22] + rest) == Some((PiecesMeaning(ps), rest))
  {
    if ps == [] {
      Behind(0x22, [], rest);
      assert PrintPieces(ps) + [0x22] == [0x22];
    } else {
      var p, tail := PrintPiece(ps[0]), PrintPieces(ps[1..]) + [0x22] + rest;
      ParsePieces(ps[1..], rest);
      ParsePiece(ps[0], tail);
      PieceHead(ps[0]);
      StringStep(p, PieceMeaning(ps[0]), tail);
      RegroupFront(p, PrintPieces(ps[1..]), [0x22], rest);
    }
  }

  lemma PieceHead(p: Piece)
    requires ValidPiece(p)
    ensures PrintPiece(p) != [] && PrintPiece(p)[0] != 0x22
  {
  }

  lemma StringStep(p: Bytes, c: Scalar, tail: Bytes)
    requires p != [] && p[0] != 0x22 && ParseRune(p + tail) == Some((c, |p|)) && ParseString(tail).Some?
    ensures ParseString(p + tail) == Some(([c] + ParseString(tail).value.0, ParseString(tail).value.1))
  {
    assert (p + tail)[|p|..] == tail;
  }

  // ------------------------------------------------- values

  lemma PrintHead(r: Raw)
    requires Valid(r)
    ensures Print(r) != [] && !IsSpace(Print(r)[0]) && Print(r)[0] != 0x5D && Print(r)[0] != 0x7D
  {
  }

  lemma SkipTwice(s: Bytes)
    ensures SkipSpace(SkipSpace(s)) == SkipSpace(s)
  {
  }

  lemma ValueAfterSpace(s: Bytes)
    ensures ParseValue(SkipSpace(s)) == ParseValue(s)
  {
    SkipTwice(s);
  }

  lemma ItemsAfterSpace(s: Bytes)
    ensures ParseItems(SkipSpace(s)) == ParseItems(s)
  {
    ValueAfterSpace(s);
  }

  lemma KeyAfterSpace(s: Bytes)
    ensures ParseKey(SkipSpace(s)) == ParseKey(s)
  {
    SkipTwice(s);
  }

  lemma MembersAfterSpace(s: Bytes)
    ensures ParseMembers(SkipSpace(s)) == ParseMembers(s)
  {
    KeyAfterSpace(s);
  }

  lemma OpensArray(body: Bytes)
    ensures ParseValue([0x5B] + body) == ParseArray(body)
  {
    assert ([0x5B] + body)[1..] == body;
  }

  lemma OpensObject(body: Bytes)
    ensures ParseValue([0x7B] + body) == ParseObject(body)
  {
    assert ([0x7B] + body)[1..] == body;
  }

  lemma ParseEmptyArray(space: Bytes, rest: Bytes)
    requires Spaces(space)
    ensures ParseValue([0x5B] + space + [0x5D] + rest) == Some((Arr([]), rest))
  {
    SkipSpaces(space, [0x5D] + rest);
    assert ([0x5D] + rest)[1..] == rest;
    OpensArray(space + ([0x5D] + rest));
    assert [0x5B] + space + [0x5D] + rest == [0x5B] + (space + ([0x5D] + rest));
  }

  lemma ParseEmptyObject(space: Bytes, rest: Bytes)
    requires Spaces(space)
    ensures ParseValue([0x7B] + space + [0x7D] + rest) == Some((Obj(map[]), rest))
  {
    SkipSpaces(space, [0x7D] + rest);
    assert ([0x7D] + rest)[1..] == rest;
    OpensObject(space + ([0x7D] + rest));
    assert [0x7B] + space + [0x7D] + rest == [0x7B] + (space + ([0x7D] + rest));
  }

  lemma ParseFilledArray(body: Bytes, items: seq<GoValue>, rest: Bytes)
    requires SkipSpace(body) != [] && SkipSpace(body)[0] != 0x5D
    requires ParseItems(body) == Some((items, rest))
    ensures ParseValue([0x5B] + body) == Some((Arr(items), rest))
  {
    OpensArray(body);
    ItemsAfterSpace(body);
  }

  lemma ParseFilledObject(body: Bytes, ms: seq<(Bytes, GoValue)>, rest: Bytes)
    requires SkipSpace(body) != [] && SkipSpace(body)[0] != 0x7D
    requires ParseMembers(body) == Some((ms, rest))
    ensures ParseValue([0x7B] + body) == Some((Obj(Collect(ms)), rest))
  {
    OpensObject(body);
    MembersAfterSpace(body);
  }

  lemma ParseNumberText(t: Bytes, rest: Bytes)
    requires IsNumber(t) && Stops(rest)
    ensures ParseValue(t + rest) == Some((Num(t), rest))
  {
    var s := t + rest;
    NumberStops(t, rest);
    assert s[..|t|] == t && s[|t|..] == rest;
    assert s[0] == t[0] && (IsDigit(t[0]) || t[0] == 0x2D);
  }

  lemma StringFront(inner: Bytes, rest: Bytes)
    ensures [0x22] + inner + [0x22] + rest == [0x22] + (inner + [0x22] + rest)
  {
  }

  lemma ParseStringText(ps: seq<Piece>, rest: Bytes)
    requires ValidPieces(ps)
    ensures ParseValue(PrintString(ps) + rest) == Some((Str(Encode(PiecesMeaning(ps))), rest))
  {
    var inner := PrintPieces(ps);
    ParsePieces(ps, rest);
    StringFront(inner, rest);
    StringValue(inner + [0x22] + rest);
  }

  lemma StringValue(tail: Bytes)
    requires ParseString(tail).Some?
    ensures ParseValue([0x22] + tail) == Some((Str(Encode(ParseString(tail).value.0)), ParseString(tail).value.1))
  {
    assert ([0x22] + tail)[1..] == tail;
  }

  lemma ParseWordText(r: Raw, rest: Bytes)
    requires r.RNull? || r.RBool?
    ensures ParseValue(Print(r) + rest) == Some((Meaning(r), rest))
  {
    var s := Print(r) + rest;
    assert Print(r) <= s && s[|Print(r)|..] == rest;
  }

  lemma {:induction false} ParseArrayText(es: seq<Elem>, rest: Bytes)
    requires es != [] && ValidElems(es)
    ensures ParseValue([0x5B] + (PrintElems(es) + rest)) == Some((Arr(ElemsMeaning(es)), rest))
    decreases es, 1
  {
    ElemsHead(es, rest);
    ParseElems(es, rest);
    ParseFilledArray(PrintElems(es) + rest, ElemsMeaning(es), rest);
  }

  lemma {:induction false} ParseObjectText(fs: seq<Field>, rest: Bytes)
    requires fs != [] && ValidFields(fs)
    ensures ParseValue([0x7B] + (PrintFields(fs) + rest)) == Some((Obj(Collect(FieldsMeaning(fs))), rest))
    decreases fs, 1
  {
    FieldsHead(fs, rest);
    ParseFields(fs, rest);
    ParseFilledObject(PrintFields(fs) + rest, FieldsMeaning(fs), rest);
  }

  lemma {:induction false} ParseAtHead(r: Raw, rest: Bytes)
    requires Valid(r) && (r.RNum? ==> Stops(rest))
    ensures ParseValue(Print(r) + rest) == Some((Meaning(r), rest))
    decreases r, 1
  {
    match r
    case RNull => ParseWordText(r, rest);
    case RBool(_) => ParseWordText(r, rest);
    case RNum(t) => ParseNumberText(t, rest);
    case RStr(ps) => ParseStringText(ps, rest);
    case RArr(space, es) =>
      if es == [] {
        ParseEmptyArray(space, rest);
        Opened(0x5B, space, [0x5D], rest);
      } else {
        ParseArrayText(es, rest);
        Opened(0x5B, [], PrintElems(es), rest);
      }
    case RObj(space, fs) =>
      if fs == [] {
        ParseEmptyObject(space, rest);
        Opened(0x7B, space, [0x7D], rest);
      } else {
        ParseObjectText(fs, rest);
        Opened(0x7B, [], PrintFields(fs), rest);
      }
  }

  /** Reading back any rendering of a value gives that value, and leaves what follows it. */
  lemma {:induction false} ParsePrinted(ws: Bytes, r: Raw, rest: Bytes)
    requires Spaces(ws) && Valid(r) && (r.RNum? ==> Stops(rest))
    ensures ParseValue(ws + Print(r) + rest) == Some((Meaning(r), rest))
    decreases r, 2
  {
    PrintHead(r);
    var s := Print(r) + rest;
    assert ws + Print(r) + rest == ws + s;
    SkipSpaces(ws, s);
    ValueAfterSpace(ws + s);
    ParseAtHead(r, rest);
  }

  // Regrouping of concatenations, kept away from the recursive definitions.

  lemma Opened(open: byte, space: Bytes, body: Bytes, rest: Bytes)
    ensures [open] + (space + body) + rest == [open] + space + body + rest
    ensures [open] + body + rest == [open] + (body + rest)
    ensures [] + body == body
  {
  }

  lemma Regroup(key: Bytes, value: Bytes, after: Bytes, tail: Bytes, rest: Bytes)
    ensures key + value + (after + tail) + rest == key + value + (after + (tail + rest))
    ensures key + (value + (after + tail)) + rest == key + (value + (after + (tail + rest)))
  {
  }

  lemma Behind(b: byte, x: Bytes, rest: Bytes)
    ensures ([b] + x + rest)[0] == b && ([b] + x + rest)[1..] == x + rest
    ensures ([b] + rest)[0] == b && ([b] + rest)[1..] == rest
  {
  }

  lemma RegroupFront(a: Bytes, b: Bytes, c: Bytes, rest: Bytes)
    ensures a + b + c + rest == a + (b + (c + rest)) == a + (b + c + rest)
  {
  }

  lemma RegroupKey(a: Bytes, b: Bytes, c: Bytes, d: Bytes, e: Bytes, rest: Bytes)
    ensures a + b + c + d + e + rest == a + (b + (c + d + e + rest))
  {
  }

  lemma ElemsHead(es: seq<Elem>, rest: Bytes)
    requires es != [] && Spaces(es[0].before) && Valid(es[0].value)
    ensures var t := SkipSpace(PrintElems(es) + rest); t != [] && t[0] != 0x5D
  {
    var v, after := Print(es[0].value), es[0].after + ElemsTail(es);
    PrintHead(es[0].value);
    RegroupFront(es[0].before, v, after, rest);
    SkipSpaces(es[0].before, v + (after + rest));
  }

  lemma FieldsHead(fs: seq<Field>, rest: Bytes)
    requires fs != [] && Spaces(fs[0].before)
    ensures var t := SkipSpace(PrintFields(fs) + rest); t != [] && t[0] != 0x7D
  {
    var f := fs[0];
    var more := f.afterColon + Print(f.value) + (f.after + FieldsTail(fs));
    RegroupKey(f.before, PrintString(f.key), f.beforeColon, [0x3A], more, rest);
    SkipSpaces(f.before, PrintString(f.key) + (f.beforeColon + [0x3A] + more + rest));
  }

  lemma SpaceStops(ws: Bytes, t: Bytes)
    requires Spaces(ws) && t != [] && !Continues(t[0])
    ensures Stops(ws + t)
  {
    if ws != [] { assert IsSpace(ws[0]); }
  }

  lemma ItemsStep(s: Bytes, v: GoValue, rest: Bytes)
    requires ParseValue(s) == Some((v, rest)) && SkipSpace(rest) != []
    ensures var t := SkipSpace(rest);
            && (t[0] == 0x5D ==> ParseItems(s) == Some(([v], t[1..])))
            && (t[0] == 0x2C && ParseItems(t[1..]).Some? ==>
                 ParseItems(s) == Some(([v] + ParseItems(t[1..]).value.0, ParseItems(t[1..]).value.1)))
  {
  }

  lemma ElemsTailText(es: seq<Elem>, rest: Bytes)
    requires es != []
    ensures var t := ElemsTail(es) + rest;
            if |es| == 1 then t[0] == 0x5D && t[1..] == rest
            else t[0] == 0x2C && t[1..] == PrintElems(es[1..]) + rest
  {
    Behind(if |es| == 1 then 0x5D else 0x2C, PrintElems(es[1..]), rest);
  }

  lemma {:induction false} ParseElems(es: seq<Elem>, rest: Bytes)
    requires es != [] && ValidElems(es)
    ensures ParseItems(PrintElems(es) + rest) == Some((ElemsMeaning(es), rest))
    decreases es, 0
  {
    var e, t := es[0], ElemsTail(es) + rest;
    ElemsTailText(es, rest);
    Regroup(e.before, Print(e.value), e.after, ElemsTail(es), rest);
    SpaceStops(e.after, t);
    ParsePrinted(e.before, e.value, e.after + t);
    SkipSpaces(e.after, t);
    ItemsStep(PrintElems(es) + rest, Meaning(e.value), e.after + t);
    if |es| > 1 {
      ParseElems(es[1..], rest);
    } else {
      assert es[1..] == [];
      assert ElemsMeaning(es) == [Meaning(e.value)];
    }
  }

  lemma ParsePrintedKey(before: Bytes, key: seq<Piece>, beforeColon: Bytes, rest: Bytes)
    requires Spaces(before) && ValidPieces(key) && Spaces(beforeColon)
    ensures ParseKey(before + PrintString(key) + beforeColon + [0x3A] + rest)
              == Some((Encode(PiecesMeaning(key)), rest))
  {
    var after := beforeColon + ([0x3A] + rest);
    var s := PrintString(key) + after;
    assert before + PrintString(key) + beforeColon + [0x3A] + rest == before + s;
    SkipSpaces(before, s);
    assert s[1..] == PrintPieces(key) + [0x22] + after;
    ParsePieces(key, after);
    SkipSpaces(beforeColon, [0x3A] + rest);
    assert ([0x3A] + rest)[1..] == rest;
  }

  lemma MembersStep(s: Bytes, k: Bytes, value: Bytes, v: GoValue, rest: Bytes)
    requires ParseKey(s) == Some((k, value)) && ParseValue(value) == Some((v, rest)) && SkipSpace(rest) != []
    ensures var t := SkipSpace(rest);
            && (t[0] == 0x7D ==> ParseMembers(s) == Some(([(k, v)], t[1..])))
            && (t[0] == 0x2C && ParseMembers(t[1..]).Some? ==>
                 ParseMembers(s) == Some(([(k, v)] + ParseMembers(t[1..]).value.0, ParseMembers(t[1..]).value.1)))
  {
  }

  lemma FieldFront(f: Field, t: Bytes)
    requires SpacedField(f) && Valid(f.value) && t != [] && !Continues(t[0]) && !IsSpace(t[0])
    ensures var value := f.afterColon + Print(f.value) + (f.after + t);
            && ParseKey(PrintKey(f) + value) == Some((Encode(PiecesMeaning(f.key)), value))
            && ParseValue(value) == Some((Meaning(f.value), f.after + t))
            && SkipSpace(f.after + t) == t
    decreases f, 3
  {
    ParsePrintedKey(f.before, f.key, f.beforeColon, f.afterColon + Print(f.value) + (f.after + t));
    SpaceStops(f.after, t);
    ParsePrinted(f.afterColon, f.value, f.after + t);
    SkipSpaces(f.after, t);
  }

  lemma FieldsTailText(fs: seq<Field>, rest: Bytes)
    requires fs != []
    ensures var t := FieldsTail(fs) + rest;
            if |fs| == 1 then t[0] == 0x7D && t[1..] == rest
            else t[0] == 0x2C && t[1..] == PrintFields(fs[1..]) + rest
  {
    Behind(if |fs| == 1 then 0x7D else 0x2C, PrintFields(fs[1..]), rest);
  }

  /** The first member of a text, with what is parsed after it left open. */
  lemma FirstField(fs: seq<Field>, rest: Bytes)
    requires fs != [] && SpacedField(fs[0]) && Valid(fs[0].value)
    ensures var s, t := PrintFields(fs) + rest, FieldsTail(fs) + rest;
            var kv := (Encode(PiecesMeaning(fs[0].key)), Meaning(fs[0].value));
            && (t[0] == 0x7D ==> ParseMembers(s) == Some(([kv], t[1..])))
            && (t[0] == 0x2C && ParseMembers(t[1..]).Some? ==>
                 ParseMembers(s) == Some(([kv] + ParseMembers(t[1..]).value.0, ParseMembers(t[1..]).value.1)))
    decreases fs[0], 4
  {
    var f, t := fs[0], FieldsTail(fs) + rest;
    var value := f.afterColon + Print(f.value) + (f.after + t);
    FieldFront(f, t);
    MembersStep(PrintKey(f) + value, Encode(PiecesMeaning(f.key)), value, Meaning(f.value), f.after + t);
    Regroup(PrintKey(f), f.afterColon + Print(f.value), f.after, FieldsTail(fs), rest);
  }

  lemma {:induction false} ParseFields(fs: seq<Field>, rest: Bytes)
    requires fs != [] && ValidFields(fs)
    ensures ParseMembers(PrintFields(fs) + rest) == Some((FieldsMeaning(fs), rest))
    decreases fs, 0
  {
    FieldsTailText(fs, rest);
    FirstField(fs, rest);
    if |fs| > 1 {
      ParseFields(fs[1..], rest);
    } else {
      assert fs[1..] == [];
      assert FieldsMeaning(fs) == [(Encode(PiecesMeaning(fs[0].key)), Meaning(fs[0].value))];
    }
  }
}
