/** Canonical JSON (agent/internal/canon/canon.go) and its agreement with the control plane. */
module Canon {
  import opened Utf8
  import opened SortedKeys
  import opened Json
  import opened Options
  import opened Parser
  import opened RawText
  import Words

  datatype Result = Ok(text: Bytes) | SyntaxError | TrailingData

  /** Decoder.More at top level: it looks at one byte and takes a closing bracket for the end. */
  predicate More(rest: Bytes) {
    var r := SkipSpace(rest);
    r != [] && r[0] != 0x5D && r[0] != 0x7D
  }

  ghost function Canonical(raw: Bytes): Result {
    var v := ParseValue(raw);
    if v.None? then SyntaxError
    else if More(v.value.1) then TrailingData
    else Ok(GoText(v.value.0))
  }

  // ------------------------------------------------- values a decoder can produce

  predicate IsUtf8(b: Bytes) { Encode(Runes(b)) == b }

  ghost predicate Decoded(v: GoValue) {
    match v
    case Null => true
    case Bool(_) => true
    case Num(n) => IsNumber(n)
    case Str(s) => IsUtf8(s)
    case Arr(items) => forall i :: 0 <= i < |items| ==> Decoded(items[i])
    case Obj(members) => forall k :: k in members ==> IsUtf8(k) && Decoded(members[k])
  }

  lemma EncodedIsUtf8(t: Text)
    ensures IsUtf8(Encode(t))
  {
    RunesOfEncode(t);
  }

  lemma {:induction false} DigitRunTake(s: Bytes, k: nat)
    requires DigitRun(s) <= k <= |s|
    ensures DigitRun(s[..k]) == DigitRun(s)
  {
    if k > 0 && IsDigit(s[0]) {
      assert s[..k][1..] == s[1..][..k - 1];
      DigitRunTake(s[1..], k - 1);
    }
  }

  lemma IntTake(s: Bytes, k: nat)
    requires IntLen(s).Some? && IntLen(s).value <= k <= |s|
    ensures IntLen(s[..k]) == IntLen(s)
  {
    var sign := if s[0] == 0x2D then 1 else 0;
    if s[sign] != 0x30 {
      assert s[..k][sign..] == s[sign..][..k - sign];
      DigitRunTake(s[sign..], k - sign);
    }
  }

  lemma FracTake(s: Bytes, k: nat)
    requires FracLen(s).Some? && FracLen(s).value <= k <= |s|
    ensures FracLen(s[..k]) == FracLen(s)
  {
    if s != [] && s[0] == 0x2E {
      assert s[..k][1..] == s[1..][..k - 1];
      DigitRunTake(s[1..], k - 1);
    }
  }

  lemma ExpTake(s: Bytes, k: nat)
    requires ExpLen(s) == Some(k)
    ensures ExpLen(s[..k]) == Some(k)
  {
    if k > 0 {
      var i := if |s| > 1 && (s[1] == 0x2B || s[1] == 0x2D) then 2 else 1;
      assert s[..k][i..] == s[i..][..k - i];
      DigitRunTake(s[i..], k - i);
    }
  }

  lemma TakeThenDrop(s: Bytes, i: nat, n: nat)
    requires i <= n <= |s|
    ensures s[..n][i..] == s[i..][..n - i]
  {
  }

  lemma NumberTake(s: Bytes)
    requires NumberLen(s).Some?
    ensures IsNumber(s[..NumberLen(s).value])
  {
    var i, f, e := NumberParts(s);
    var n := i + f + e;
    IntTake(s, n);
    FracTake(s[i..], f + e);
    ExpTake(s[i + f..], e);
    TakeThenDrop(s, i, n);
    TakeThenDrop(s, i + f, n);
    NumberLenOf(s[..n], i, f, e);
  }

  /** The decoder only produces numbers of the grammar and valid UTF-8. */
  lemma {:induction false} ParsedIsDecoded(input: Bytes)
    requires ParseValue(input).Some?
    ensures Decoded(ParseValue(input).value.0)
    decreases |input|, 1
  {
    var s := SkipSpace(input);
    if s[0] == 0x22 {
      EncodedIsUtf8(ParseString(s[1..]).value.0);
    } else if s[0] == 0x5B {
      var rest := SkipSpace(s[1..]);
      if !(rest != [] && rest[0] == 0x5D) { ParsedItemsDecoded(rest); }
    } else if s[0] == 0x7B {
      var rest := SkipSpace(s[1..]);
      if !(rest != [] && rest[0] == 0x7D) {
        ParsedMembersDecoded(rest);
        CollectDecoded(ParseMembers(rest).value.0);
      }
    } else if s[0] != 0x6E && s[0] != 0x74 && s[0] != 0x66 {
      NumberTake(s);
    }
  }

  lemma {:induction false} ParsedItemsDecoded(s: Bytes)
    requires ParseItems(s).Some?
    ensures forall i :: 0 <= i < |ParseItems(s).value.0| ==> Decoded(ParseItems(s).value.0[i])
    decreases |s|, 2
  {
    ParsedIsDecoded(s);
    var rest := SkipSpace(ParseValue(s).value.1);
    if rest[0] == 0x2C { ParsedItemsDecoded(rest[1..]); }
  }

  ghost predicate MembersDecoded(ms: seq<(Bytes, GoValue)>) {
    forall i :: 0 <= i < |ms| ==> IsUtf8(ms[i].0) && Decoded(ms[i].1)
  }

  lemma {:induction false} ParsedMembersDecoded(s: Bytes)
    requires ParseMembers(s).Some?
    ensures MembersDecoded(ParseMembers(s).value.0)
    decreases |s|, 2
  {
    var k := ParseKey(s).value;
    EncodedIsUtf8(ParseString(SkipSpace(s)[1..]).value.0);
    ParsedIsDecoded(k.1);
    var rest := SkipSpace(ParseValue(k.1).value.1);
    if rest[0] == 0x2C { ParsedMembersDecoded(rest[1..]); }
  }

  lemma {:induction false} CollectDecoded(ms: seq<(Bytes, GoValue)>)
    requires MembersDecoded(ms)
    ensures Decoded(Obj(Collect(ms)))
  {
    if ms != [] { CollectDecoded(ms[..|ms| - 1]); }
  }

  // ------------------------------------------------- the canonical text is one of the renderings

  function CanonPiece(c: Scalar): Piece {
    if c != 0x2F && ShortLetter(c).Some? then Short(c) else if c < 0x20 then Unicode(c, []) else Plain(c)
  }

  function CanonPieces(t: Text): seq<Piece> {
    if t == [] then [] else [CanonPiece(t[0])] + CanonPieces(t[1..])
  }

  lemma CanonPieceIsOne(c: Scalar)
    ensures ValidPiece(CanonPiece(c)) && PieceMeaning(CanonPiece(c)) == c && PrintPiece(CanonPiece(c)) == GoEscape(c)
  {
    if CanonPiece(c).Unicode? {
      assert c / 0x1000 % 16 == 0 && c / 0x100 % 16 == 0 && c / 0x10 % 16 == c / 16;
    }
  }

  lemma {:induction false} CanonPiecesValid(t: Text)
    ensures ValidPieces(CanonPieces(t)) && PiecesMeaning(CanonPieces(t)) == t
  {
    if t != [] {
      CanonPieceIsOne(t[0]);
      CanonPiecesValid(t[1..]);
    }
  }

  lemma {:induction false} CanonPiecesText(t: Text)
    ensures PrintPieces(CanonPieces(t)) == GoEscapes(t)
  {
    if t != [] {
      CanonPieceIsOne(t[0]);
      CanonPiecesText(t[1..]);
    }
  }

  lemma CanonString(s: Bytes)
    requires IsUtf8(s)
    ensures ValidPieces(CanonPieces(Runes(s)))
    ensures Encode(PiecesMeaning(CanonPieces(Runes(s)))) == s
    ensures PrintString(CanonPieces(Runes(s))) == GoQuote(s)
  {
    CanonPiecesValid(Runes(s));
    CanonPiecesText(Runes(s));
  }

  ghost function CanonRaw(v: GoValue): Raw
    decreases v, 1
  {
    match v
    case Null => RNull
    case Bool(b) => RBool(b)
    case Num(n) => RNum(n)
    case Str(s) => RStr(CanonPieces(Runes(s)))
    case Arr(items) => RArr([], CanonElems(items))
    case Obj(members) => RObj([], CanonFields(v, ByteSorted(members.Keys)))
  }

  ghost function CanonElems(items: seq<GoValue>): (es: seq<Elem>)
    ensures |es| == |items|
    decreases items, 0
  {
    if items == [] then [] else [Elem([], CanonRaw(items[0]), [])] + CanonElems(items[1..])
  }

  ghost function CanonFields(v: GoValue, ks: seq<Bytes>): (fs: seq<Field>)
    requires v.Obj? && forall k :: k in ks ==> k in v.members
    ensures |fs| == |ks|
    decreases v, 0, |ks|
  {
    if ks == [] then []
    else [Field([], CanonPieces(Runes(ks[0])), [], [], CanonRaw(v.members[ks[0]]), [])] + CanonFields(v, ks[1..])
  }

  /** CanonRaw(v) is a well-formed text of v, and its bytes are what encode writes. */
  lemma {:induction false} CanonRawIs(v: GoValue)
    requires Decoded(v)
    ensures Valid(CanonRaw(v)) && Meaning(CanonRaw(v)) == v && Print(CanonRaw(v)) == GoText(v)
    decreases v, 1
  {
    match v
    case Null =>
    case Bool(_) =>
    case Num(_) =>
    case Str(s) => CanonString(s);
    case Arr(items) =>
      CanonElemsAre(items, true);
      ArrayIs(items);
    case Obj(members) =>
      var ks := ByteSorted(members.Keys);
      CanonFieldsAre(v, ks, true);
      ObjectMeaning(v, ks);
      ObjectText(v, CanonFields(v, ks), ks);
  }

  lemma Framed(open: byte, body: Bytes, close: byte)
    ensures [open] + (body + [close]) == [open] + body + [close]
    ensures [open] + ([] + [close]) == [open] + [] + [close]
    ensures [] + body == body
  {
  }

  lemma ArrayIs(items: seq<GoValue>)
    requires ValidElems(CanonElems(items)) && ElemsMeaning(CanonElems(items)) == items
    requires items != [] ==> Comma(true) + PrintElems(CanonElems(items)) == GoItems(items, true) + [0x5D]
    ensures Valid(CanonRaw(Arr(items))) && Meaning(CanonRaw(Arr(items))) == Arr(items)
    ensures Print(CanonRaw(Arr(items))) == GoText(Arr(items))
  {
    Framed(0x5B, PrintElems(CanonElems(items)), 0x5D);
    Framed(0x5B, GoItems(items, true), 0x5D);
  }

  lemma ObjectMeaning(v: GoValue, ks: seq<Bytes>)
    requires v.Obj? && ks == ByteSorted(v.members.Keys) && ValidFields(CanonFields(v, ks))
    requires forall i :: 0 <= i < |ks| ==> FieldsMeaning(CanonFields(v, ks))[i] == (ks[i], v.members[ks[i]])
    ensures Collect(FieldsMeaning(CanonFields(v, ks))) == v.members
  {
    CollectsAll(FieldsMeaning(CanonFields(v, ks)), ks, v.members);
  }

  lemma ObjectText(v: GoValue, fs: seq<Field>, ks: seq<Bytes>)
    requires v.Obj? && (forall k :: k in ks ==> k in v.members) && |fs| == |ks|
    requires ks != [] ==> Comma(true) + PrintFields(fs) == GoMembers(v, ks, true) + [0x7D]
    ensures Print(RObj([], fs)) == [0x7B] + GoMembers(v, ks, true) + [0x7D]
  {
    Framed(0x7B, PrintFields(fs), 0x7D);
    Framed(0x7B, GoMembers(v, ks, true), 0x7D);
  }

  lemma CanonElemsText(items: seq<GoValue>, first: bool)
    requires items != [] && Print(CanonRaw(items[0])) == GoText(items[0])
    requires |items| > 1 ==> Comma(false) + PrintElems(CanonElems(items[1..])) == GoItems(items[1..], false) + [0x5D]
    ensures Comma(first) + PrintElems(CanonElems(items)) == GoItems(items, first) + [0x5D]
  {
    var es := CanonElems(items);
    assert es[1..] == CanonElems(items[1..]) && es[0] == Elem([], CanonRaw(items[0]), []);
    ElemsText(Comma(first), GoText(items[0]), ElemsTail(es));
    if |items| > 1 {
      ElemsText(Comma(first) + GoText(items[0]), GoItems(items[1..], false), [0x5D]);
    }
  }

  lemma ElemsFirst(e: Elem, es: seq<Elem>)
    requires Spaces(e.before) && Valid(e.value) && Spaces(e.after) && ValidElems(es)
    ensures ValidElems([e] + es) && ElemsMeaning([e] + es) == [Meaning(e.value)] + ElemsMeaning(es)
  {
    assert ([e] + es)[1..] == es;
  }

  lemma CanonElemsMean(items: seq<GoValue>)
    requires items != [] && Valid(CanonRaw(items[0])) && Meaning(CanonRaw(items[0])) == items[0]
    requires ValidElems(CanonElems(items[1..])) && ElemsMeaning(CanonElems(items[1..])) == items[1..]
    ensures ValidElems(CanonElems(items)) && ElemsMeaning(CanonElems(items)) == items
  {
    ElemsFirst(Elem([], CanonRaw(items[0]), []), CanonElems(items[1..]));
    assert items == [items[0]] + items[1..];
  }

  lemma {:induction false} CanonElemsAre(items: seq<GoValue>, first: bool)
    requires forall i :: 0 <= i < |items| ==> Decoded(items[i])
    ensures ValidElems(CanonElems(items)) && ElemsMeaning(CanonElems(items)) == items
    ensures items != [] ==> Comma(first) + PrintElems(CanonElems(items)) == GoItems(items, first) + [0x5D]
    decreases items, 0
  {
    if items != [] {
      CanonRawIs(items[0]);
      CanonElemsAre(items[1..], false);
      CanonElemsMean(items);
      CanonElemsText(items, first);
    }
  }

  lemma ElemsText(a: Bytes, b: Bytes, c: Bytes)
    ensures a + (b + c) == a + b + c && a + ([] + b + ([] + c)) == a + b + c
  {
  }

  lemma FieldsFirst(f: Field, fs: seq<Field>)
    requires SpacedField(f) && Valid(f.value) && ValidFields(fs)
    ensures ValidFields([f] + fs)
    ensures FieldsMeaning([f] + fs) == [(Encode(PiecesMeaning(f.key)), Meaning(f.value))] + FieldsMeaning(fs)
  {
    assert ([f] + fs)[1..] == fs;
  }

  lemma CanonFieldsMean(v: GoValue, ks: seq<Bytes>)
    requires v.Obj? && ks != [] && forall k :: k in ks ==> k in v.members
    requires ValidPieces(CanonPieces(Runes(ks[0]))) && Encode(PiecesMeaning(CanonPieces(Runes(ks[0])))) == ks[0]
    requires Valid(CanonRaw(v.members[ks[0]])) && Meaning(CanonRaw(v.members[ks[0]])) == v.members[ks[0]]
    requires var rest := CanonFields(v, ks[1..]);
             ValidFields(rest) && forall i :: 0 <= i < |ks| - 1 ==>
                 FieldsMeaning(rest)[i] == (ks[i + 1], v.members[ks[i + 1]])
    ensures var fs := CanonFields(v, ks);
            ValidFields(fs) && forall i :: 0 <= i < |ks| ==> FieldsMeaning(fs)[i] == (ks[i], v.members[ks[i]])
  {
    var f := Field([], CanonPieces(Runes(ks[0])), [], [], CanonRaw(v.members[ks[0]]), []);
    var rest := CanonFields(v, ks[1..]);
    FieldsFirst(f, rest);
    PairsFirst(FieldsMeaning(rest), ks, v.members);
    assert CanonFields(v, ks) == [f] + rest;
  }

  lemma PairsFirst(rest: seq<(Bytes, GoValue)>, ks: seq<Bytes>, m: map<Bytes, GoValue>)
    requires |ks| == |rest| + 1 && forall k :: k in ks ==> k in m
    requires forall i :: 0 <= i < |rest| ==> rest[i] == (ks[i + 1], m[ks[i + 1]])
    ensures forall i :: 0 <= i < |ks| ==> ([(ks[0], m[ks[0]])] + rest)[i] == (ks[i], m[ks[i]])
  {
    forall i | 0 < i < |ks| ensures ([(ks[0], m[ks[0]])] + rest)[i] == (ks[i], m[ks[i]]) {
      assert rest[i - 1] == (ks[i], m[ks[i]]);
    }
  }

  lemma {:induction false} CanonFieldsAre(v: GoValue, ks: seq<Bytes>, first: bool)
    requires v.Obj? && Decoded(v) && forall k :: k in ks ==> k in v.members
    ensures var fs := CanonFields(v, ks);
            && ValidFields(fs)
            && (forall i :: 0 <= i < |ks| ==> FieldsMeaning(fs)[i] == (ks[i], v.members[ks[i]]))
            && (ks != [] ==> Comma(first) + PrintFields(fs) == GoMembers(v, ks, first) + [0x7D])
    decreases v, 0, |ks|
  {
    if ks != [] {
      CanonString(ks[0]);
      CanonRawIs(v.members[ks[0]]);
      CanonFieldsAre(v, ks[1..], false);
      CanonFieldsMean(v, ks);
      CanonFieldsText(v, ks, first);
    }
  }

  lemma CanonFieldsText(v: GoValue, ks: seq<Bytes>, first: bool)
    requires v.Obj? && ks != [] && forall k :: k in ks ==> k in v.members
    requires PrintString(CanonPieces(Runes(ks[0]))) == GoQuote(ks[0])
    requires Print(CanonRaw(v.members[ks[0]])) == GoText(v.members[ks[0]])
    requires |ks| > 1 ==> Comma(false) + PrintFields(CanonFields(v, ks[1..])) == GoMembers(v, ks[1..], false) + [0x7D]
    ensures Comma(first) + PrintFields(CanonFields(v, ks)) == GoMembers(v, ks, first) + [0x7D]
  {
    var fs, head := CanonFields(v, ks), Comma(first) + GoQuote(ks[0]) + [0x3A] + GoText(v.members[ks[0]]);
    assert fs[1..] == CanonFields(v, ks[1..]);
    FieldText(Comma(first), GoQuote(ks[0]), GoText(v.members[ks[0]]), FieldsTail(fs));
    assert FieldsTail(fs) == GoMembers(v, ks[1..], false) + [0x7D];
    ElemsText(head, GoMembers(v, ks[1..], false), [0x7D]);
  }

  lemma FieldText(a: Bytes, b: Bytes, c: Bytes, d: Bytes)
    ensures a + ([] + b + [] + [0x3A] + ([] + c + ([] + d))) == a + b + [0x3A] + c + d
  {
  }

  lemma {:induction false} CollectIsMap(ms: seq<(Bytes, GoValue)>, ks: seq<Bytes>, m: map<Bytes, GoValue>)
    requires |ms| == |ks| && forall i :: 0 <= i < |ms| ==> ks[i] in m && ms[i] == (ks[i], m[ks[i]])
    ensures forall k :: k in Collect(ms) <==> k in ks
    ensures forall k :: k in Collect(ms) ==> k in m && Collect(ms)[k] == m[k]
  {
    if ms != [] {
      var n := |ms| - 1;
      CollectIsMap(ms[..n], ks[..n], m);
      assert ks == ks[..n] + [ks[n]];
    }
  }

  lemma CollectsAll(ms: seq<(Bytes, GoValue)>, ks: seq<Bytes>, m: map<Bytes, GoValue>)
    requires |ms| == |ks| && forall k :: k in ks <==> k in m
    requires forall i :: 0 <= i < |ms| ==> ks[i] in m && ms[i] == (ks[i], m[ks[i]])
    ensures Collect(ms) == m
  {
    CollectIsMap(ms, ks, m);
  }

  // ------------------------------------------------- what the canonical form is for

  /** Member order, white space and escape choices in the raw text do not matter: only what
      the text means does. */
  lemma RenderingIrrelevant(before: Bytes, raw: Raw, after: Bytes)
    requires Spaces(before) && Valid(raw) && Spaces(after)
    ensures Canonical(before + Print(raw) + after) == Ok(GoText(Meaning(raw)))
  {
    if after != [] { assert IsSpace(after[0]); }
    ParsePrinted(before, raw, after);
    SkipSpaces(after, []);
    assert after + [] == after;
  }

  /** A parser undoes the canonical form, also when more text follows it. */
  lemma CanonicalParsesBack(v: GoValue, rest: Bytes)
    requires Decoded(v) && (v.Num? ==> Stops(rest))
    ensures ParseValue(GoText(v) + rest) == Some((v, rest))
  {
    CanonRawIs(v);
    ParseAtHead(CanonRaw(v), rest);
  }

  /** No canonical text is the beginning of another one: two texts that agree up to what
      follows them are equal, and so are their values. Injectivity is the case x == y == []. */
  lemma PrefixFree(a: GoValue, x: Bytes, b: GoValue, y: Bytes)
    requires Decoded(a) && Decoded(b) && (a.Num? ==> Stops(x)) && (b.Num? ==> Stops(y))
    requires GoText(a) + x == GoText(b) + y
    ensures a == b && x == y
  {
    CanonicalParsesBack(a, x);
    CanonicalParsesBack(b, y);
  }

  lemma CanonicalInjective(a: GoValue, b: GoValue)
    requires Decoded(a) && Decoded(b)
    ensures GoText(a) == GoText(b) <==> a == b
  {
    if GoText(a) == GoText(b) {
      assert GoText(a) + [] == GoText(b) + [];
      PrefixFree(a, [], b, []);
    }
  }

  /** Re-canonicalising changes nothing. */
  lemma CanonicalIdempotent(raw: Bytes)
    requires Canonical(raw).Ok?
    ensures Canonical(Canonical(raw).text) == Canonical(raw)
  {
    ParsedIsDecoded(raw);
    var v := ParseValue(raw).value.0;
    CanonicalParsesBack(v, []);
    assert GoText(v) + [] == GoText(v);
  }

  /** Data after a value, white space or none between them, is refused unless it starts with a
      closing bracket, which More does not see: `null ]` is accepted. */
  lemma TrailingBracketAccepted(raw: Raw, space: Bytes, tail: Bytes)
    requires Valid(raw) && Spaces(space) && tail != [] && !IsSpace(tail[0]) && (raw.RNum? ==> Stops(space + tail))
    ensures Canonical(Print(raw) + (space + tail)).Ok? <==> tail[0] == 0x5D || tail[0] == 0x7D
    ensures !Canonical(Print(raw) + (space + tail)).Ok? ==> Canonical(Print(raw) + (space + tail)) == TrailingData
  {
    ParsePrinted([], raw, space + tail);
    assert [] + Print(raw) == Print(raw);
    SkipSpaces(space, tail);
  }

  // ------------------------------------------------- across the wire

  lemma DigitsAreRun(n: nat)
    ensures Digits(n) != [] && forall i :: 0 <= i < |Digits(n)| ==> 0x30 <= Digits(n)[i] < 0x3A
    ensures n > 0 ==> Digits(n)[0] != 0x30
    ensures n == 0 ==> Digits(n) == [0x30]
  {
    Words.DecimalStarts(n);
    forall i | 0 <= i < |Digits(n)| ensures 0x30 <= Digits(n)[i] < 0x3A {
      assert Words.Decimal(n)[i] in Words.Decimal(n);
    }
  }

  lemma {:induction false} DigitRunAll(s: Bytes)
    requires forall i :: 0 <= i < |s| ==> IsDigit(s[i])
    ensures DigitRun(s) == |s|
  {
    if s != [] { DigitRunAll(s[1..]); }
  }

  lemma WholeNumber(t: Bytes, d: Bytes)
    requires d != [] && (forall i :: 0 <= i < |d| ==> IsDigit(d[i])) && (d[0] == 0x30 ==> |d| == 1)
    requires t == d || t == [0x2D] + d
    ensures IsNumber(t)
  {
    var sign := if t == d then 0 else 1;
    assert t[sign..] == d && t[sign] == d[0];
    DigitRunAll(d);
    assert IntLen(t) == Some(|t|);
    assert t[|t|..] == [] && t[|t| + 0..] == [];
    NumberLenOf(t, |t|, 0, 0);
  }

  lemma ReprIsNumber(n: int)
    ensures IsNumber(Encode(Repr(n)))
  {
    DigitsAreRun(if n < 0 then -n else n);
    EncodeAscii(Repr(n));
    EncodeAscii(Digits(if n < 0 then -n else n));
    WholeNumber(Encode(Repr(n)), Encode(Digits(if n < 0 then -n else n)));
  }

  lemma DigitsInjective(a: nat, b: nat)
    requires Digits(a) == Digits(b)
    ensures a == b
  {
    var x, y := Words.Decimal(a), Words.Decimal(b);
    forall i | 0 <= i < |x| ensures x[i] == y[i] {
      assert Digits(a)[i] == Digits(b)[i];
    }
    assert x == y;
    Words.DecimalInjective(a, b);
  }

  lemma ReprInjective(m: int, n: int)
    requires Repr(m) == Repr(n)
    ensures m == n
  {
    var a, b := if m < 0 then -m else m, if n < 0 then -n else n;
    DigitsAreRun(a);
    DigitsAreRun(b);
    assert Repr(m)[0] == 0x2D <==> m < 0;
    assert Repr(n)[0] == 0x2D <==> n < 0;
    assert Digits(a) == Repr(m)[if m < 0 then 1 else 0..] == Digits(b);
    DigitsInjective(a, b);
  }

  lemma {:induction false} ToGoDecoded(v: Spec)
    ensures Decoded(ToGo(v))
  {
    match v
    case Null =>
    case Bool(_) =>
    case Num(n) => ReprIsNumber(n);
    case Str(s) => EncodedIsUtf8(s);
    case Arr(items) => ToGoItemsDecoded(items);
    case Obj(members) =>
      forall b | b in ToGo(v).members ensures IsUtf8(b) && Decoded(ToGo(v).members[b]) {
        var k :| k in members && Encode(k) == b;
        EncodedIsUtf8(k);
        ToGoMember(v, k);
        ToGoDecoded(members[k]);
      }
  }

  lemma {:induction false} ToGoItemsDecoded(items: seq<Spec>)
    ensures forall i :: 0 <= i < |items| ==> Decoded(ToGoItems(items)[i])
  {
    if items != [] {
      ToGoDecoded(items[0]);
      ToGoItemsDecoded(items[1..]);
    }
  }

  lemma {:induction false} ToGoInjective(a: Spec, b: Spec)
    requires ToGo(a) == ToGo(b)
    ensures a == b
  {
    match (a, b)
    case (Num(m), Num(n)) =>
      EncodeInjective(Repr(m), Repr(n));
      ReprInjective(m, n);
    case (Str(s), Str(t)) => EncodeInjective(s, t);
    case (Arr(x), Arr(y)) => ToGoItemsInjective(x, y);
    case (Obj(x), Obj(y)) =>
      MembersSubset(a, b);
      MembersSubset(b, a);
      forall k | k in x ensures x[k] == y[k] {
        ToGoMember(a, k);
        ToGoMember(b, k);
        ToGoInjective(x[k], y[k]);
      }
      assert x == y;
    case _ =>
  }

  lemma MembersSubset(a: Spec, b: Spec)
    requires a.Obj? && b.Obj? && ToGo(a) == ToGo(b)
    ensures a.members.Keys <= b.members.Keys
  {
    forall k | k in a.members ensures k in b.members {
      ToGoMember(a, k);
      var j :| j in b.members && Encode(j) == Encode(k);
      EncodeInjective(j, k);
    }
  }

  lemma {:induction false} ToGoItemsInjective(x: seq<Spec>, y: seq<Spec>)
    requires ToGoItems(x) == ToGoItems(y)
    ensures x == y
  {
    if x != [] {
      assert |x| == |y|;
      assert ToGoItems(x)[0] == ToGo(x[0]) && ToGoItems(y)[0] == ToGo(y[0]);
      ToGoInjective(x[0], y[0]);
      assert ToGoItems(x)[1..] == ToGoItems(x[1..]) && ToGoItems(y)[1..] == ToGoItems(y[1..]);
      ToGoItemsInjective(x[1..], y[1..]);
    }
  }

  /** The hash input agrees on both ends: whatever JSON text carries a spec over the wire, the
      agent canonicalises it to exactly the bytes spec_hash digested on the control plane. */
  lemma WireAgreement(spec: Spec, before: Bytes, raw: Raw, after: Bytes)
    requires Spaces(before) && Valid(raw) && Spaces(after) && Meaning(raw) == ToGo(spec)
    ensures Canonical(before + Print(raw) + after) == Ok(PyCanonical(spec))
  {
    RenderingIrrelevant(before, raw, after);
    PrintersAgree(spec);
  }

  /** Two specs have the same canonical bytes exactly when they are the same spec. */
  lemma SpecIdentity(a: Spec, b: Spec)
    ensures PyCanonical(a) == PyCanonical(b) <==> a == b
  {
    PrintersAgree(a);
    PrintersAgree(b);
    ToGoDecoded(a);
    ToGoDecoded(b);
    CanonicalInjective(ToGo(a), ToGo(b));
    if ToGo(a) == ToGo(b) { ToGoInjective(a, b); }
  }

  /** Sending the canonical text itself (as any JSON encoder may) also arrives unchanged. */
  lemma CanonicalTextIsFixed(spec: Spec)
    ensures Canonical(PyCanonical(spec)) == Ok(PyCanonical(spec))
  {
    PrintersAgree(spec);
    ToGoDecoded(spec);
    CanonicalParsesBack(ToGo(spec), []);
    assert GoText(ToGo(spec)) + [] == PyCanonical(spec);
  }

  // ------------------------------------------------- the printer, writing into a buffer

  /** bytes.Buffer */
  class Buffer {
    var data: Bytes

    constructor ()
      ensures data == []
    {
      data := [];
    }

    method Write(b: Bytes)
      modifies this
      ensures data == old(data) + b
    {
      data := data + b;
    }
  }

  lemma EscapesFirst(r: Scalar, rest: Text)
    ensures GoEscapes([r] + rest) == GoEscape(r) + GoEscapes(rest)
  {
    assert ([r] + rest)[1..] == rest;
  }

  lemma RunesFirst(b: Bytes, r: Scalar, w: nat)
    requires b != [] && DecodeRune(b) == (r, w)
    ensures w <= |b| && Runes(b) == [r] + Runes(b[w..])
  {
  }

  lemma Dropped(s: Bytes, i: nat, w: nat)
    requires i + w <= |s|
    ensures s[i..][w..] == s[i + w..]
  {
  }

  lemma RuneStep(s: Bytes, i: nat, r: Scalar, w: nat)
    requires i < |s| && DecodeRune(s[i..]) == (r, w)
    ensures i + w <= |s| && GoEscapes(Runes(s[i..])) == GoEscape(r) + GoEscapes(Runes(s[i + w..]))
  {
    RunesFirst(s[i..], r, w);
    Dropped(s, i, w);
    EscapesFirst(r, Runes(s[i + w..]));
  }

  /** The loop of writeString. */
  method WriteEscapes(buf: Buffer, s: Bytes)
    modifies buf
    ensures buf.data == old(buf.data) + GoEscapes(Runes(s))
  {
    var i := 0;
    assert s[0..] == s;
    while i < |s|
      invariant i <= |s|
      invariant buf.data + GoEscapes(Runes(s[i..])) == old(buf.data) + GoEscapes(Runes(s))
    {
      var (r, w) := DecodeRune(s[i..]);
      RuneStep(s, i, r, w);
      ElemsText(buf.data, GoEscape(r), GoEscapes(Runes(s[i + w..])));
      buf.Write(GoEscape(r));
      i := i + w;
    }
    assert GoEscapes(Runes(s[i..])) == [];
  }

  method WriteString(buf: Buffer, s: Bytes)
    modifies buf
    ensures buf.data == old(buf.data) + GoQuote(s)
  {
    ghost var begun := buf.data;
    buf.Write([0x22]);
    WriteEscapes(buf, s);
    buf.Write([0x22]);
    ElemsText(begun, [0x22], GoEscapes(Runes(s)));
    ElemsText(begun, [0x22] + GoEscapes(Runes(s)), [0x22]);
  }

  /** sort.Strings on the collected keys. */
  method SortStrings(keys: seq<Bytes>) returns (sorted: seq<Bytes>)
    requires forall i, j :: 0 <= i < j < |keys| ==> keys[i] != keys[j]
    ensures sorted == ByteSorted(set k | k in keys)
  {
    sorted := [];
    var i := 0;
    while i < |keys|
      invariant i <= |keys|
      invariant Sorted(sorted) && forall k :: k in sorted <==> k in keys[..i]
    {
      assert keys[i] !in keys[..i];
      InsertKeepsOrder(keys[i], sorted);
      assert keys[..i + 1] == keys[..i] + [keys[i]];
      sorted := InsertBytes(keys[i], sorted);
      i := i + 1;
    }
    ghost var all := set k | k in keys;
    assert keys[..i] == keys;
    SortedUnique(sorted, ByteSorted(all), all);
  }

  function InsertBytes(k: Bytes, ks: seq<Bytes>): (r: seq<Bytes>)
    ensures r == Insert(k, ks)
  {
    if ks == [] || Less(k, ks[0]) then [k] + ks else [ks[0]] + InsertBytes(k, ks[1..])
  }

  /** The keys of a map in whatever order ranging over it gives. */
  method CollectKeys(m: map<Bytes, GoValue>) returns (keys: seq<Bytes>)
    ensures forall i, j :: 0 <= i < j < |keys| ==> keys[i] != keys[j]
    ensures (set k | k in keys) == m.Keys
  {
    keys := [];
    var left := m.Keys;
    while left != {}
      invariant left <= m.Keys
      invariant forall i, j :: 0 <= i < j < |keys| ==> keys[i] != keys[j]
      invariant forall k :: k in keys <==> k in m.Keys && k !in left
      decreases left
    {
      var k :| k in left;
      keys := keys + [k];
      left := left - {k};
    }
  }

  method EncodeValue(buf: Buffer, v: GoValue)
    modifies buf
    ensures buf.data == old(buf.data) + GoText(v)
    decreases v, 1
  {
    match v
    case Null => buf.Write([0x6E, 0x75, 0x6C, 0x6C]);
    case Bool(b) => buf.Write(if b then [0x74, 0x72, 0x75, 0x65] else [0x66, 0x61, 0x6C, 0x73, 0x65]);
    case Num(n) => buf.Write(n);
    case Str(s) => WriteString(buf, s);
    case Arr(items) => EncodeArray(buf, items);
    case Obj(_) => EncodeObject(buf, v);
  }

  method EncodeArray(buf: Buffer, items: seq<GoValue>)
    modifies buf
    ensures buf.data == old(buf.data) + ([0x5B] + GoItems(items, true) + [0x5D])
    decreases items, 1
  {
    Bracketed(buf.data, 0x5B, GoItems(items, true), 0x5D);
    buf.Write([0x5B]);
    EncodeItems(buf, items);
    buf.Write([0x5D]);
  }

  method EncodeObject(buf: Buffer, v: GoValue)
    requires v.Obj?
    modifies buf
    ensures buf.data == old(buf.data) + ([0x7B] + GoMembers(v, ByteSorted(v.members.Keys), true) + [0x7D])
    decreases v, 0, 2
  {
    var collected := CollectKeys(v.members);
    var keys := SortStrings(collected);
    Bracketed(buf.data, 0x7B, GoMembers(v, keys, true), 0x7D);
    buf.Write([0x7B]);
    EncodeMembers(buf, v, keys);
    buf.Write([0x7D]);
  }

  lemma Bracketed(sofar: Bytes, open: byte, body: Bytes, close: byte)
    ensures sofar + [open] + body + [close] == sofar + ([open] + body + [close])
  {
  }

  method EncodeItems(buf: Buffer, items: seq<GoValue>)
    modifies buf
    ensures buf.data == old(buf.data) + GoItems(items, true)
    decreases items, 0
  {
    var i := 0;
    assert items[0..] == items;
    while i < |items|
      invariant i <= |items|
      invariant buf.data + GoItems(items[i..], i == 0) == old(buf.data) + GoItems(items, true)
    {
      assert items[i..][1..] == items[i + 1..];
      ghost var sofar, rest := buf.data, GoItems(items[i + 1..], false);
      Written(sofar, Comma(i == 0), GoText(items[i]), [], [], rest);
      if i > 0 { buf.Write([0x2C]); }
      EncodeValue(buf, items[i]);
      i := i + 1;
    }
    assert items[i..] == [];
    assert buf.data + [] == buf.data;
  }

  lemma MembersFrom(v: GoValue, keys: seq<Bytes>, i: nat, first: bool)
    requires v.Obj? && i < |keys| && forall k :: k in keys ==> k in v.members
    ensures GoMembers(v, keys[i..], first)
            == Comma(first) + GoQuote(keys[i]) + [0x3A] + GoText(v.members[keys[i]])
                + GoMembers(v, keys[i + 1..], false)
  {
    assert keys[i..][1..] == keys[i + 1..];
  }

  method EncodeMembers(buf: Buffer, v: GoValue, keys: seq<Bytes>)
    requires v.Obj? && forall k :: k in keys ==> k in v.members
    modifies buf
    ensures buf.data == old(buf.data) + GoMembers(v, keys, true)
    decreases v, 0, 1
  {
    var i := 0;
    assert keys[0..] == keys;
    while i < |keys|
      invariant i <= |keys|
      invariant buf.data + GoMembers(v, keys[i..], i == 0) == old(buf.data) + GoMembers(v, keys, true)
    {
      var k := keys[i];
      MembersFrom(v, keys, i, i == 0);
      ghost var sofar, rest := buf.data, GoMembers(v, keys[i + 1..], false);
      Written(sofar, Comma(i == 0), GoQuote(k), [0x3A], GoText(v.members[k]), rest);
      EncodeMember(buf, v, k, i == 0);
      i := i + 1;
    }
    assert keys[i..] == [];
    assert buf.data + [] == buf.data;
  }

  method EncodeMember(buf: Buffer, v: GoValue, k: Bytes, first: bool)
    requires v.Obj? && k in v.members
    modifies buf
    ensures buf.data == old(buf.data) + Comma(first) + GoQuote(k) + [0x3A] + GoText(v.members[k])
    decreases v, 0, 0
  {
    assert buf.data + [] == buf.data;
    if !first { buf.Write([0x2C]); }
    WriteString(buf, k);
    buf.Write([0x3A]);
    EncodeValue(buf, v.members[k]);
  }

  lemma Written(sofar: Bytes, a: Bytes, b: Bytes, c: Bytes, d: Bytes, rest: Bytes)
    ensures sofar + (a + b + c + d + rest) == sofar + a + b + c + d + rest
    ensures sofar + [] == sofar && sofar + (a + b + rest) == sofar + a + b + rest
  {
  }

  /** canon.Canonical */
  method Canonicalize(raw: Bytes) returns (r: Result)
    ensures r == Canonical(raw)
  {
    var v := ParseValue(raw);
    if v.None? { return SyntaxError; }
    if More(v.value.1) { return TrailingData; }
    var buf := new Buffer();
    EncodeValue(buf, v.value.0);
    assert [] + GoText(v.value.0) == GoText(v.value.0);
    return Ok(buf.data);
  }
}
