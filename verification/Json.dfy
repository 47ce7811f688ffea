/** JSON values on both sides of the wire and the two canonical printers. */
module Json {
  import opened Utf8
  import opened SortedKeys
  import Words

  /** S is the string type and N the number type of one program. */
  datatype Json<S(==), N> =
    | Null
    | Bool(b: bool)
    | Num(n: N)
    | Str(s: S)
    | Arr(items: seq<Json<S, N>>)
    | Obj(members: map<S, Json<S, N>>)

  /** What Go decodes into: strings are bytes, a json.Number is its verbatim text. */
  type GoValue = Json<Bytes, Bytes>

  /** What Python hashes: strings are code points, numbers are integers. */
  type Spec = Json<Text, int>

  // ------------------------------------------------- Go: canon.go encode and writeString

  function LowerHex(d: nat): byte
    requires d < 16
  {
    if d < 10 then 0x30 + d else 0x61 + (d - 10)
  }

  /** writeString's switch on one rune. */
  function GoEscape(r: Scalar): (e: Bytes)
    ensures e != []
  {
    if r == 0x22 then [0x5C, 0x22]
    else if r == 0x5C then [0x5C, 0x5C]
    else if r == 0x0A then [0x5C, 0x6E]
    else if r == 0x0D then [0x5C, 0x72]
    else if r == 0x09 then [0x5C, 0x74]
    else if r == 0x08 then [0x5C, 0x62]
    else if r == 0x0C then [0x5C, 0x66]
    else if r < 0x20 then [0x5C, 0x75, 0x30, 0x30, LowerHex(r / 16), LowerHex(r % 16)]
    else EncodeRune(r)
  }

  function GoEscapes(rs: Text): Bytes {
    if rs == [] then [] else GoEscape(rs[0]) + GoEscapes(rs[1..])
  }

  function GoQuote(s: Bytes): Bytes { [0x22] + GoEscapes(Runes(s)) + [0x22] }

  /** The text encode writes for v. */
  ghost function GoText(v: GoValue): Bytes
    decreases v, 1
  {
    match v
    case Null => [0x6E, 0x75, 0x6C, 0x6C]
    case Bool(b) => if b then [0x74, 0x72, 0x75, 0x65] else [0x66, 0x61, 0x6C, 0x73, 0x65]
    case Num(n) => n
    case Str(s) => GoQuote(s)
    case Arr(items) => [0x5B] + GoItems(items, true) + [0x5D]
    case Obj(members) => [0x7B] + GoMembers(v, ByteSorted(members.Keys), true) + [0x7D]
  }

  function Comma(first: bool): Bytes { if first then [] else [0x2C] }

  ghost function GoItems(items: seq<GoValue>, first: bool): Bytes
    decreases items, 0
  {
    if items == [] then []
    else Comma(first) + GoText(items[0]) + GoItems(items[1..], false)
  }

  ghost function GoMembers(v: GoValue, ks: seq<Bytes>, first: bool): Bytes
    requires v.Obj? && forall k :: k in ks ==> k in v.members
    decreases v, 0, |ks|
  {
    if ks == [] then []
    else Comma(first) + GoQuote(ks[0]) + [0x3A] + GoText(v.members[ks[0]]) + GoMembers(v, ks[1..], false)
  }

  // ------------------------------------------------- Python: pki.py canonical_json

  /** One code point as json.dumps(ensure_ascii=False) escapes it. */
  function PyEscape(c: Scalar): Text {
    if c == 0x5C then [0x5C, 0x5C]
    else if c == 0x22 then [0x5C, 0x22]
    else if c == 0x08 then [0x5C, 0x62]
    else if c == 0x0C then [0x5C, 0x66]
    else if c == 0x0A then [0x5C, 0x6E]
    else if c == 0x0D then [0x5C, 0x72]
    else if c == 0x09 then [0x5C, 0x74]
    else if c < 0x20 then [0x5C, 0x75, 0x30, 0x30, 0x30 + c / 16, LowerHex(c % 16)]
    else [c]
  }

  function PyEscapes(s: Text): Text {
    if s == [] then [] else PyEscape(s[0]) + PyEscapes(s[1..])
  }

  function PyQuote(s: Text): Text { [0x22] + PyEscapes(s) + [0x22] }

  /** The code points of a numeral. */
  function Digits(n: nat): (t: Text)
    ensures |t| == |Words.Decimal(n)| && forall i :: 0 <= i < |t| ==> t[i] == Words.Decimal(n)[i] as int
  {
    var d := Words.Decimal(n);
    seq(|d|, i requires 0 <= i < |d| => d[i] as int)
  }

  /** int.__repr__ */
  function Repr(n: int): Text { if n < 0 then [0x2D] + Digits(-n) else Digits(n) }

  ghost function PyText(v: Spec): Text
    decreases v, 1
  {
    match v
    case Null => [0x6E, 0x75, 0x6C, 0x6C]
    case Bool(b) => if b then [0x74, 0x72, 0x75, 0x65] else [0x66, 0x61, 0x6C, 0x73, 0x65]
    case Num(n) => Repr(n)
    case Str(s) => PyQuote(s)
    case Arr(items) => [0x5B] + PyItems(items, true) + [0x5D]
    case Obj(members) => [0x7B] + PyMembers(v, TextSorted(members.Keys), true) + [0x7D]
  }

  function PyComma(first: bool): Text { if first then [] else [0x2C] }

  ghost function PyItems(items: seq<Spec>, first: bool): Text
    decreases items, 0
  {
    if items == [] then []
    else PyComma(first) + PyText(items[0]) + PyItems(items[1..], false)
  }

  ghost function PyMembers(v: Spec, ks: seq<Text>, first: bool): Text
    requires v.Obj? && forall k :: k in ks ==> k in v.members
    decreases v, 0, |ks|
  {
    if ks == [] then []
    else PyComma(first) + PyQuote(ks[0]) + [0x3A] + PyText(v.members[ks[0]]) + PyMembers(v, ks[1..], false)
  }

  /** canonical_json(spec).encode("utf-8"), the bytes spec_hash digests. */
  ghost function PyCanonical(v: Spec): Bytes { Encode(PyText(v)) }

  // ------------------------------------------------- the same value on the Go side

  function ToGo(v: Spec): GoValue {
    match v
    case Null => Null
    case Bool(b) => Bool(b)
    case Num(n) => Num(Encode(Repr(n)))
    case Str(s) => Str(Encode(s))
    case Arr(items) => Arr(ToGoItems(items))
    case Obj(members) =>
      RunesOfEncodedKeys(members.Keys);
      Obj(map b | b in EncodedKeys(members.Keys) :: ToGo(members[Runes(b)]))
  }

  function ToGoItems(items: seq<Spec>): (r: seq<GoValue>)
    ensures |r| == |items|
  {
    if items == [] then [] else [ToGo(items[0])] + ToGoItems(items[1..])
  }

  lemma RunesOfEncodedKeys(ks: set<Text>)
    ensures forall b :: b in EncodedKeys(ks) ==> Runes(b) in ks
  {
    forall b | b in EncodedKeys(ks) ensures Runes(b) in ks {
      var k :| k in ks && Encode(k) == b;
      RunesOfEncode(k);
    }
  }

  lemma EscapesAgree(c: Scalar)
    ensures Encode(PyEscape(c)) == GoEscape(c)
  {
    var e := PyEscape(c);
    if c < 0x80 {
      assert forall i :: 0 <= i < |e| ==> e[i] < 0x80;
      EncodeAscii(e);
    } else {
      assert e[1..] == [];
    }
  }

  lemma {:induction false} EscapedAgree(s: Text)
    ensures Encode(PyEscapes(s)) == GoEscapes(s)
  {
    if s != [] {
      EncodeConcat(PyEscape(s[0]), PyEscapes(s[1..]));
      EscapesAgree(s[0]);
      EscapedAgree(s[1..]);
    }
  }

  lemma QuotesAgree(s: Text)
    ensures Encode(PyQuote(s)) == GoQuote(Encode(s))
  {
    RunesOfEncode(s);
    EscapedAgree(s);
    EncodeConcat([0x22], PyEscapes(s));
    EncodeConcat([0x22] + PyEscapes(s), [0x22]);
    EncodeAscii([0x22]);
  }

  lemma CommasAgree(first: bool)
    ensures Encode(PyComma(first)) == Comma(first)
  {
    EncodeAscii(PyComma(first));
  }

  lemma BracketsAgree(open: Scalar, body: Text, close: Scalar)
    requires open < 0x80 && close < 0x80
    ensures Encode([open] + body + [close]) == [open] + Encode(body) + [close]
  {
    EncodeConcat([open] + body, [close]);
    EncodeConcat([open], body);
    EncodeAscii([open]);
    EncodeAscii([close]);
  }

  /** The two canonical printers emit the same bytes for every spec. */
  lemma {:induction false} PrintersAgree(v: Spec)
    ensures PyCanonical(v) == GoText(ToGo(v))
    decreases v, 1
  {
    match v
    case Null => EncodeAscii(PyText(v));
    case Bool(b) => EncodeAscii(PyText(v));
    case Num(n) =>
    case Str(s) => QuotesAgree(s);
    case Arr(items) =>
      BracketsAgree(0x5B, PyItems(items, true), 0x5D);
      ItemsAgree(items, true);
    case Obj(members) =>
      var ks := TextSorted(members.Keys);
      BracketsAgree(0x7B, PyMembers(v, ks, true), 0x7D);
      assert ToGo(v).members.Keys == EncodedKeys(members.Keys);
      EncodedSortAgrees(members.Keys);
      MembersAgree(v, ks, true);
  }

  lemma {:induction false} ItemsAgree(items: seq<Spec>, first: bool)
    ensures Encode(PyItems(items, first)) == GoItems(ToGoItems(items), first)
    decreases items, 0
  {
    if items != [] {
      CommasAgree(first);
      EncodeConcat(PyComma(first), PyText(items[0]));
      EncodeConcat(PyComma(first) + PyText(items[0]), PyItems(items[1..], false));
      PrintersAgree(items[0]);
      ItemsAgree(items[1..], false);
      assert ToGoItems(items)[1..] == ToGoItems(items[1..]);
    }
  }

  lemma EncodedMember(first: bool, k: Text, x: Text, rest: Text)
    ensures Encode(PyComma(first) + PyQuote(k) + [0x3A] + x + rest)
         == Comma(first) + GoQuote(Encode(k)) + [0x3A] + Encode(x) + Encode(rest)
  {
    var a := PyComma(first) + PyQuote(k);
    EncodeConcat(a + [0x3A] + x, rest);
    EncodeConcat(a + [0x3A], x);
    EncodeConcat(a, [0x3A]);
    EncodeConcat(PyComma(first), PyQuote(k));
    CommasAgree(first);
    QuotesAgree(k);
    EncodeAscii([0x3A]);
  }

  lemma ToGoMember(v: Spec, k: Text)
    requires v.Obj? && k in v.members
    ensures Encode(k) in ToGo(v).members && ToGo(v).members[Encode(k)] == ToGo(v.members[k])
  {
    RunesOfEncode(k);
  }

  lemma {:induction false} MembersAgree(v: Spec, ks: seq<Text>, first: bool)
    requires v.Obj? && forall k :: k in ks ==> k in v.members
    ensures forall k :: k in EncodeEach(ks) ==> k in ToGo(v).members
    ensures Encode(PyMembers(v, ks, first)) == GoMembers(ToGo(v), EncodeEach(ks), first)
    decreases v, 0, |ks|
  {
    if ks != [] {
      var k, x := ks[0], v.members[ks[0]];
      ToGoMember(v, k);
      EncodedMember(first, k, PyText(x), PyMembers(v, ks[1..], false));
      PrintersAgree(x);
      MembersAgree(v, ks[1..], false);
      assert EncodeEach(ks)[1..] == EncodeEach(ks[1..]);
      assert EncodeEach(ks) == [Encode(k)] + EncodeEach(ks[1..]);
    }
  }
}
