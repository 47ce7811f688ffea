/** Reading JSON text (RFC 8259) as Go's decoder with UseNumber does: strings become UTF-8
    bytes, numbers keep their text, a repeated key keeps its last value, an invalid byte or a
    lone surrogate becomes U+FFFD. */
module Parser {
  import opened Utf8
  import opened Json
  import opened Options
  import Words

  predicate IsSpace(b: int) { b == 0x20 || b == 0x09 || b == 0x0D || b == 0x0A }
  predicate IsDigit(b: int) { 0x30 <= b <= 0x39 }

  function SkipSpace(s: Bytes): (r: Bytes)
    ensures |r| <= |s|
    ensures r == [] || !IsSpace(r[0])
  {
    if s == [] || !IsSpace(s[0]) then s else SkipSpace(s[1..])
  }

  // ------------------------------------------------- numbers (section 6)

  function DigitRun(s: Bytes): (n: nat)
    ensures n <= |s|
  {
    if s == [] || !IsDigit(s[0]) then 0 else 1 + DigitRun(s[1..])
  }

  /** Length of `-? int` at the front of s, or None. */
  function IntLen(s: Bytes): (n: Option<nat>)
    ensures n.Some? ==> 0 < n.value <= |s|
  {
    var i := if s != [] && s[0] == 0x2D then 1 else 0;
    if i == |s| || !IsDigit(s[i]) then None
    else if s[i] == 0x30 then Some(i + 1)
    else Some(i + DigitRun(s[i..]))
  }

  /** Length of an optional fraction, None when a point is not followed by a digit. */
  function FracLen(s: Bytes): (n: Option<nat>)
    ensures n.Some? ==> n.value <= |s|
  {
    if s == [] || s[0] != 0x2E then Some(0)
    else if DigitRun(s[1..]) == 0 then None else Some(1 + DigitRun(s[1..]))
  }

  function ExpLen(s: Bytes): (n: Option<nat>)
    ensures n.Some? ==> n.value <= |s|
  {
    if s == [] || (s[0] != 0x65 && s[0] != 0x45) then Some(0)
    else
      var i := if |s| > 1 && (s[1] == 0x2B || s[1] == 0x2D) then 2 else 1;
      if DigitRun(s[i..]) == 0 then None else Some(i + DigitRun(s[i..]))
  }

  function NumberLen(s: Bytes): (n: Option<nat>)
    ensures n.Some? ==> 0 < n.value <= |s|
  {
    var i := IntLen(s);
    if i.None? then None else
    var f := FracLen(s[i.value..]);
    if f.None? then None else
    var e := ExpLen(s[i.value + f.value..]);
    if e.None? then None else Some(i.value + f.value + e.value)
  }

  // ------------------------------------------------- strings (section 7)

  /** The four hex digits of `\uXXXX`, whose backslash is s[0]. */
  function Hex4(s: Bytes): (u: Option<nat>)
    ensures u.Some? ==> |s| >= 6 && u.value < 0x10000
  {
    if |s| < 6 || s[0] != 0x5C || s[1] != 0x75 then None
    else
      var a, b, c, d := Words.HexDigit(s[2]), Words.HexDigit(s[3]), Words.HexDigit(s[4]), Words.HexDigit(s[5]);
      if a.None? || b.None? || c.None? || d.None? then None
      else Some(a.value * 4096 + b.value * 256 + c.value * 16 + d.value)
  }

  function ShortEscape(b: int): Option<Scalar> {
    if b == 0x22 then Some(0x22) else if b == 0x5C then Some(0x5C) else if b == 0x2F then Some(0x2F)
    else if b == 0x62 then Some(0x08) else if b == 0x66 then Some(0x0C) else if b == 0x6E then Some(0x0A)
    else if b == 0x72 then Some(0x0D) else if b == 0x74 then Some(0x09) else None
  }

  predicate HighSurrogate(u: nat) { 0xD800 <= u < 0xDC00 }
  predicate LowSurrogate(u: nat) { 0xDC00 <= u < 0xE000 }

  /** One character of a string and its width; None when the text is not a string. */
  function ParseRune(s: Bytes): (r: Option<(Scalar, nat)>)
    requires s != []
    ensures r.Some? ==> 0 < r.value.1 <= |s|
  {
    if s[0] == 0x5C then
      if |s| > 1 && s[1] == 0x75 then
        var u := Hex4(s);
        if u.None? then None
        else if HighSurrogate(u.value) && Hex4(s[6..]).Some? && LowSurrogate(Hex4(s[6..]).value) then
          Some((0x10000 + (u.value - 0xD800) * 0x400 + (Hex4(s[6..]).value - 0xDC00), 12))
        else if HighSurrogate(u.value) || LowSurrogate(u.value) then Some((REPLACEMENT, 6))
        else Some((u.value, 6))
      else if |s| > 1 && ShortEscape(s[1]).Some? then Some((ShortEscape(s[1]).value, 2))
      else None
    else if s[0] < 0x20 then None
    else Some(DecodeRune(s))
  }

  /** The rest of a string after its opening quote. */
  function ParseString(s: Bytes): (r: Option<(Text, Bytes)>)
    ensures r.Some? ==> |r.value.1| < |s|
    decreases |s|
  {
    if s == [] then None
    else if s[0] == 0x22 then Some(([], s[1..]))
    else
      var c := ParseRune(s);
      if c.None? then None else
      var t := ParseString(s[c.value.1..]);
      if t.None? then None else Some(([c.value.0] + t.value.0, t.value.1))
  }

  // ------------------------------------------------- values

  function Word(s: Bytes, word: Bytes, v: GoValue): (r: Option<(GoValue, Bytes)>)
    requires word != []
    ensures r.Some? ==> |r.value.1| < |s|
  {
    if word <= s then Some((v, s[|word|..])) else None
  }

  /** Later members win, as when a map is filled in order. */
  function Collect(ms: seq<(Bytes, GoValue)>): map<Bytes, GoValue> {
    if ms == [] then map[] else Collect(ms[..|ms| - 1])[ms[|ms| - 1].0 := ms[|ms| - 1].1]
  }

  function ParseValue(input: Bytes): (r: Option<(GoValue, Bytes)>)
    ensures r.Some? ==> |r.value.1| < |input|
    decreases |input|, 1
  {
    var s := SkipSpace(input);
    if s == [] then None
    else if s[0] == 0x6E then Word(s, [0x6E, 0x75, 0x6C, 0x6C], Null)
    else if s[0] == 0x74 then Word(s, [0x74, 0x72, 0x75, 0x65], Bool(true))
    else if s[0] == 0x66 then Word(s, [0x66, 0x61, 0x6C, 0x73, 0x65], Bool(false))
    else if s[0] == 0x22 then
      var t := ParseString(s[1..]);
      if t.None? then None else Some((Str(Encode(t.value.0)), t.value.1))
    else if s[0] == 0x5B then ParseArray(s[1..])
    else if s[0] == 0x7B then ParseObject(s[1..])
    else
      var n := NumberLen(s);
      if n.None? then None else Some((Num(s[..n.value]), s[n.value..]))
  }

  /** What follows an opening bracket. */
  function ParseArray(s: Bytes): (r: Option<(GoValue, Bytes)>)
    ensures r.Some? ==> |r.value.1| < |s|
    decreases |s|, 3
  {
    var rest := SkipSpace(s);
    if rest != [] && rest[0] == 0x5D then Some((Arr([]), rest[1..]))
    else
      var t := ParseItems(rest);
      if t.None? then None else Some((Arr(t.value.0), t.value.1))
  }

  /** What follows an opening brace. */
  function ParseObject(s: Bytes): (r: Option<(GoValue, Bytes)>)
    ensures r.Some? ==> |r.value.1| < |s|
    decreases |s|, 3
  {
    var rest := SkipSpace(s);
    if rest != [] && rest[0] == 0x7D then Some((Obj(map[]), rest[1..]))
    else
      var t := ParseMembers(rest);
      if t.None? then None else Some((Obj(Collect(t.value.0)), t.value.1))
  }

  /** `value (, value)* ]` */
  function ParseItems(s: Bytes): (r: Option<(seq<GoValue>, Bytes)>)
    ensures r.Some? ==> |r.value.1| < |s|
    decreases |s|, 2
  {
    var v := ParseValue(s);
    if v.None? then None else
    var rest := SkipSpace(v.value.1);
    if rest == [] then None
    else if rest[0] == 0x5D then Some(([v.value.0], rest[1..]))
    else if rest[0] == 0x2C then
      var t := ParseItems(rest[1..]);
      if t.None? then None else Some(([v.value.0] + t.value.0, t.value.1))
    else None
  }

  /** `"key" :`, giving the key and what follows the colon. */
  function ParseKey(input: Bytes): (r: Option<(Bytes, Bytes)>)
    ensures r.Some? ==> |r.value.1| < |input|
  {
    var s := SkipSpace(input);
    if s == [] || s[0] != 0x22 then None else
    var k := ParseString(s[1..]);
    if k.None? then None else
    var rest := SkipSpace(k.value.1);
    if rest == [] || rest[0] != 0x3A then None else Some((Encode(k.value.0), rest[1..]))
  }

  /** `"key": value (, "key": value)* }` */
  function ParseMembers(s: Bytes): (r: Option<(seq<(Bytes, GoValue)>, Bytes)>)
    ensures r.Some? ==> |r.value.1| < |s|
    decreases |s|, 2
  {
    var k := ParseKey(s);
    if k.None? then None else
    var v := ParseValue(k.value.1);
    if v.None? then None else
    var rest := SkipSpace(v.value.1);
    if rest == [] then None
    else if rest[0] == 0x7D then Some(([(k.value.0, v.value.0)], rest[1..]))
    else if rest[0] == 0x2C then
      var t := ParseMembers(rest[1..]);
      if t.None? then None else Some(([(k.value.0, v.value.0)] + t.value.0, t.value.1))
    else None
  }
}
