/** UTF-8 (RFC 3629) as both programs use it, and the order claim of its section 1:
    comparing encoded strings byte by byte orders them as comparing code points does. */
module Utf8 {
  type byte = n: int | 0 <= n < 0x100
  type Bytes = seq<byte>

  /** A Unicode scalar value: a code point that is not a surrogate. */
  type Scalar = n: int | 0 <= n < 0xD800 || 0xE000 <= n <= 0x10FFFF
  type Text = seq<Scalar>

  const REPLACEMENT: Scalar := 0xFFFD

  // ------------------------------------------------- lexicographic order

  /** Strict lexicographic order; a proper prefix comes first. */
  predicate Less(a: seq<int>, b: seq<int>) {
    if b == [] then false
    else if a == [] then true
    else a[0] < b[0] || (a[0] == b[0] && Less(a[1..], b[1..]))
  }

  lemma {:induction false} LessTotal(a: seq<int>, b: seq<int>)
    ensures a == b || Less(a, b) || Less(b, a)
    ensures !(Less(a, b) && Less(b, a)) && !Less(a, a)
  {
    if a != [] {
      LessTotal(a[1..], a[1..]);
      if b != [] {
        LessTotal(a[1..], b[1..]);
        assert a == [a[0]] + a[1..] && b == [b[0]] + b[1..];
      }
    }
  }

  lemma {:induction false} LessTransitive(a: seq<int>, b: seq<int>, c: seq<int>)
    requires Less(a, b) && Less(b, c)
    ensures Less(a, c)
  {
    if a != [] && a[0] == b[0] == c[0] {
      LessTransitive(a[1..], b[1..], c[1..]);
    }
  }

  lemma {:induction false} LessAfterCommonPrefix(p: seq<int>, a: seq<int>, b: seq<int>)
    ensures Less(p + a, p + b) <==> Less(a, b)
  {
    if p == [] {
      assert p + a == a && p + b == b;
    } else {
      assert (p + a)[1..] == p[1..] + a && (p + b)[1..] == p[1..] + b;
      LessAfterCommonPrefix(p[1..], a, b);
    }
  }

  // ------------------------------------------------- encoding

  /** One scalar value, RFC 3629 section 3. */
  function EncodeRune(c: Scalar): (b: Bytes)
    ensures 1 <= |b| <= 4
  {
    if c < 0x80 then [c]
    else if c < 0x800 then [0xC0 + c / 64, 0x80 + c % 64]
    else if c < 0x10000 then [0xE0 + c / 4096, 0x80 + c / 64 % 64, 0x80 + c % 64]
    else [0xF0 + c / 262144, 0x80 + c / 4096 % 64, 0x80 + c / 64 % 64, 0x80 + c % 64]
  }

  function Encode(s: Text): Bytes {
    if s == [] then [] else EncodeRune(s[0]) + Encode(s[1..])
  }

  lemma {:induction false} EncodeConcat(s: Text, t: Text)
    ensures Encode(s + t) == Encode(s) + Encode(t)
  {
    if s == [] {
      assert s + t == t;
    } else {
      assert (s + t)[1..] == s[1..] + t;
      EncodeConcat(s[1..], t);
    }
  }

  /** Code points below 0x80 encode as themselves. */
  lemma {:induction false} EncodeAscii(s: Text)
    requires forall i :: 0 <= i < |s| ==> s[i] < 0x80
    ensures Encode(s) == s
  {
    if s != [] {
      EncodeAscii(s[1..]);
      assert s == [s[0]] + s[1..];
    }
  }

  lemma {:induction false} LessAtFirstDifference(a: seq<int>, b: seq<int>, i: nat)
    requires i < |a| && i < |b| && a[i] < b[i]
    requires forall j :: 0 <= j < i ==> a[j] == b[j]
    ensures Less(a, b)
  {
    if i > 0 {
      LessAtFirstDifference(a[1..], b[1..], i - 1);
    }
  }

  /** The base-64 digits EncodeRune spreads over its bytes. */
  lemma SixBitDigits(c: nat)
    ensures c == c / 64 * 64 + c % 64
    ensures c / 64 == c / 4096 * 64 + c / 64 % 64
    ensures c / 4096 == c / 262144 * 64 + c / 4096 % 64
  {
    assert c / 64 / 64 == c / 4096;
    assert c / 4096 / 64 == c / 262144;
  }

  lemma FirstDifferenceInThree(c: Scalar, d: Scalar) returns (i: nat)
    requires c < d && 0x800 <= c && d < 0x10000
    ensures i < 3 && EncodeRune(c)[i] < EncodeRune(d)[i]
    ensures forall j :: 0 <= j < i ==> EncodeRune(c)[j] == EncodeRune(d)[j]
  {
    SixBitDigits(c);
    SixBitDigits(d);
    i := if c / 4096 < d / 4096 then 0 else if c / 64 < d / 64 then 1 else 2;
  }

  lemma FirstDifferenceInFour(c: Scalar, d: Scalar) returns (i: nat)
    requires c < d && 0x10000 <= c
    ensures i < 4 && EncodeRune(c)[i] < EncodeRune(d)[i]
    ensures forall j :: 0 <= j < i ==> EncodeRune(c)[j] == EncodeRune(d)[j]
  {
    SixBitDigits(c);
    SixBitDigits(d);
    i := if c / 262144 < d / 262144 then 0 else if c / 4096 < d / 4096 then 1 else if c / 64 < d / 64 then 2 else 3;
  }

  lemma EncodeRuneFirstDifference(c: Scalar, d: Scalar) returns (i: nat)
    requires c < d
    ensures i < |EncodeRune(c)| && i < |EncodeRune(d)| && EncodeRune(c)[i] < EncodeRune(d)[i]
    ensures forall j :: 0 <= j < i ==> EncodeRune(c)[j] == EncodeRune(d)[j]
  {
    if d < 0x80 || (c < 0x80 <= d) || (c < 0x800 <= d) || (c < 0x10000 <= d) {
      i := 0;
    } else if d < 0x800 {
      i := if c / 64 < d / 64 then 0 else 1;
    } else if d < 0x10000 {
      i := FirstDifferenceInThree(c, d);
    } else {
      i := FirstDifferenceInFour(c, d);
    }
  }

  lemma EncodeRuneOrder(c: Scalar, d: Scalar, x: Bytes, y: Bytes)
    requires c < d
    ensures Less(EncodeRune(c) + x, EncodeRune(d) + y)
  {
    var i := EncodeRuneFirstDifference(c, d);
    LessAtFirstDifference(EncodeRune(c) + x, EncodeRune(d) + y, i);
  }

  /** RFC 3629 section 1: "the byte-value lexicographic sorting order of UTF-8
      strings is the same as if ordered by character numbers". */
  lemma {:induction false} EncodeOrder(s: Text, t: Text)
    ensures Less(Encode(s), Encode(t)) <==> Less(s, t)
  {
    if s != [] && t != [] {
      if s[0] < t[0] {
        EncodeRuneOrder(s[0], t[0], Encode(s[1..]), Encode(t[1..]));
      } else if t[0] < s[0] {
        EncodeRuneOrder(t[0], s[0], Encode(t[1..]), Encode(s[1..]));
        LessTotal(Encode(s), Encode(t));
      } else {
        LessAfterCommonPrefix(EncodeRune(s[0]), Encode(s[1..]), Encode(t[1..]));
        EncodeOrder(s[1..], t[1..]);
      }
    }
  }

  // ------------------------------------------------- decoding, as Go's `range` does it

  predicate Continuation(b: int) { 0x80 <= b <= 0xBF }

  /** The rune at the front of b and its width; an invalid byte is U+FFFD of width 1. */
  function DecodeRune(b: Bytes): (r: (Scalar, nat))
    requires b != []
    ensures 1 <= r.1 <= |b|
  {
    var b0: int := b[0];
    if b0 < 0x80 then (b0, 1)
    else if 0xC2 <= b0 <= 0xDF && |b| >= 2 && Continuation(b[1]) then
      ((b0 - 0xC0) * 64 + (b[1] as int - 0x80), 2)
    else if 0xE0 <= b0 <= 0xEF && |b| >= 3 && Continuation(b[1]) && Continuation(b[2])
            && (b0 == 0xE0 ==> b[1] >= 0xA0) && (b0 == 0xED ==> b[1] <= 0x9F) then
      ((b0 - 0xE0) * 4096 + (b[1] as int - 0x80) * 64 + (b[2] as int - 0x80), 3)
    else if 0xF0 <= b0 <= 0xF4 && |b| >= 4 && Continuation(b[1]) && Continuation(b[2]) && Continuation(b[3])
            && (b0 == 0xF0 ==> b[1] >= 0x90) && (b0 == 0xF4 ==> b[1] <= 0x8F) then
      ((b0 - 0xF0) * 262144 + (b[1] as int - 0x80) * 4096 + (b[2] as int - 0x80) * 64 + (b[3] as int - 0x80), 4)
    else (REPLACEMENT, 1)
  }

  lemma DecodeThree(c: Scalar, rest: Bytes)
    requires 0x800 <= c < 0x10000
    ensures DecodeRune(EncodeRune(c) + rest) == (c, 3)
  {
    var b := EncodeRune(c) + rest;
    assert b[0] == 0xE0 + c / 4096 && b[1] == 0x80 + c / 64 % 64 && b[2] == 0x80 + c % 64;
    SixBitDigits(c);
  }

  lemma DecodeFour(c: Scalar, rest: Bytes)
    requires 0x10000 <= c
    ensures DecodeRune(EncodeRune(c) + rest) == (c, 4)
  {
    var b := EncodeRune(c) + rest;
    assert b[0] == 0xF0 + c / 262144;
    assert b[1] == 0x80 + c / 4096 % 64 && b[2] == 0x80 + c / 64 % 64 && b[3] == 0x80 + c % 64;
    SixBitDigits(c);
  }

  lemma DecodeRuneEncoded(c: Scalar, rest: Bytes)
    ensures DecodeRune(EncodeRune(c) + rest) == (c, |EncodeRune(c)|)
  {
    if c < 0x80 {
    } else if c < 0x800 {
      assert (EncodeRune(c) + rest)[1] == 0x80 + c % 64;
    } else if c < 0x10000 {
      DecodeThree(c, rest);
    } else {
      DecodeFour(c, rest);
    }
  }

  function Runes(b: Bytes): Text
    decreases |b|
  {
    if b == [] then [] else var (r, w) := DecodeRune(b); [r] + Runes(b[w..])
  }

  lemma {:induction false} RunesOfEncode(s: Text)
    ensures Runes(Encode(s)) == s
  {
    if s != [] {
      var rest := Encode(s[1..]);
      DecodeRuneEncoded(s[0], rest);
      assert (EncodeRune(s[0]) + rest)[|EncodeRune(s[0])|..] == rest;
      RunesOfEncode(s[1..]);
    }
  }

  lemma EncodeInjective(s: Text, t: Text)
    requires Encode(s) == Encode(t)
    ensures s == t
  {
    RunesOfEncode(s);
    RunesOfEncode(t);
  }
}
