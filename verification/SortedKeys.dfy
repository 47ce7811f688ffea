/** Sorted key lists: what Go's sort.Strings and Python's sort_keys both produce. */
module SortedKeys {
  import opened Utf8

  ghost predicate Sorted(ks: seq<seq<int>>) {
    forall i, j :: 0 <= i < j < |ks| ==> Less(ks[i], ks[j])
  }

  ghost predicate Lists(ks: seq<seq<int>>, s: set<seq<int>>) {
    forall k :: k in ks <==> k in s
  }

  function Insert(k: seq<int>, ks: seq<seq<int>>): seq<seq<int>> {
    if ks == [] || Less(k, ks[0]) then [k] + ks else [ks[0]] + Insert(k, ks[1..])
  }

  lemma {:induction false} InsertKeepsOrder(k: seq<int>, ks: seq<seq<int>>)
    requires Sorted(ks) && k !in ks
    ensures Sorted(Insert(k, ks)) && forall x :: x in Insert(k, ks) <==> x == k || x in ks
  {
    var r := Insert(k, ks);
    if ks == [] {
    } else if Less(k, ks[0]) {
      forall j | 0 <= j < |ks| ensures Less(k, ks[j]) {
        if j > 0 { LessTransitive(k, ks[0], ks[j]); }
      }
    } else {
      assert ks == [ks[0]] + ks[1..];
      LessTotal(k, ks[0]);
      InsertKeepsOrder(k, ks[1..]);
      forall j | 0 < j < |r| ensures Less(r[0], r[j]) {
        assert r[j] in Insert(k, ks[1..]);
        if r[j] != k {
          var i :| 0 <= i < |ks[1..]| && ks[1..][i] == r[j];
          assert Less(ks[0], ks[i + 1]);
        }
      }
      assert forall i, j :: 0 < i < j < |r| ==> r[i] == Insert(k, ks[1..])[i - 1] && r[j] == Insert(k, ks[1..])[j - 1];
    }
  }

  /** The elements of s in increasing order. */
  ghost function SortKeys(s: set<seq<int>>): (ks: seq<seq<int>>)
    ensures Sorted(ks) && Lists(ks, s)
  {
    if s == {} then []
    else
      var k :| k in s;
      var rest := SortKeys(s - {k});
      assert k !in rest;
      InsertKeepsOrder(k, rest);
      Insert(k, rest)
  }

  /** There is only one way to sort a set, however the sorting is done. */
  lemma {:induction false} SortedUnique(a: seq<seq<int>>, b: seq<seq<int>>, s: set<seq<int>>)
    requires Sorted(a) && Sorted(b) && Lists(a, s) && Lists(b, s)
    ensures a == b
  {
    EmptyLists(a, s);
    EmptyLists(b, s);
    if a != [] {
      assert a[0] in s && a[0] in b;
      assert b[0] in a;
      FirstIsLeast(a, b[0]);
      FirstIsLeast(b, a[0]);
      LessTotal(a[0], b[0]);
      assert a == [a[0]] + a[1..] && b == [b[0]] + b[1..];
      TailLists(a, s);
      TailLists(b, s);
      SortedUnique(a[1..], b[1..], s - {a[0]});
    }
  }

  lemma EmptyLists(ks: seq<seq<int>>, s: set<seq<int>>)
    requires Lists(ks, s)
    ensures ks == [] <==> s == {}
  {
    if ks != [] { assert ks[0] in s; }
  }

  lemma FirstIsLeast(a: seq<seq<int>>, k: seq<int>)
    requires Sorted(a) && k in a
    ensures a[0] == k || Less(a[0], k)
  {
    var i :| 0 <= i < |a| && a[i] == k;
  }

  lemma TailLists(a: seq<seq<int>>, s: set<seq<int>>)
    requires Sorted(a) && Lists(a, s) && a != []
    ensures Sorted(a[1..]) && Lists(a[1..], s - {a[0]})
  {
    LessTotal(a[0], a[0]);
    assert a == [a[0]] + a[1..];
    forall k ensures k in a[1..] <==> k in s - {a[0]} {
      if k in a[1..] {
        var i :| 0 <= i < |a[1..]| && a[1..][i] == k;
        assert Less(a[0], a[i + 1]);
      }
    }
  }

  // ------------------------------------------------- the two key types

  predicate IsBytes(s: seq<int>) { forall i :: 0 <= i < |s| ==> 0 <= s[i] < 0x100 }
  predicate IsText(s: seq<int>) { forall i :: 0 <= i < |s| ==> 0 <= s[i] < 0xD800 || 0xE000 <= s[i] <= 0x10FFFF }

  function ToBytes(s: seq<int>): (r: Bytes)
    requires IsBytes(s)
    ensures r == s
  {
    if s == [] then [] else var b: byte := s[0]; [b] + ToBytes(s[1..])
  }

  function ToText(s: seq<int>): (r: Text)
    requires IsText(s)
    ensures r == s
  {
    if s == [] then [] else var c: Scalar := s[0]; [c] + ToText(s[1..])
  }

  function AsBytes(ks: seq<seq<int>>): (r: seq<Bytes>)
    requires forall i :: 0 <= i < |ks| ==> IsBytes(ks[i])
    ensures r == ks
  {
    if ks == [] then [] else [ToBytes(ks[0])] + AsBytes(ks[1..])
  }

  function AsTexts(ks: seq<seq<int>>): (r: seq<Text>)
    requires forall i :: 0 <= i < |ks| ==> IsText(ks[i])
    ensures r == ks
  {
    if ks == [] then [] else [ToText(ks[0])] + AsTexts(ks[1..])
  }

  /** sort.Strings over a key set: bytewise. */
  ghost function ByteSorted(s: set<Bytes>): (ks: seq<Bytes>)
    ensures Sorted(ks) && Lists(ks, s)
  {
    var ks := SortKeys(s);
    assert forall i :: 0 <= i < |ks| ==> ks[i] in ks;
    AsBytes(ks)
  }

  /** sort_keys=True: by code point. */
  ghost function TextSorted(s: set<Text>): (ks: seq<Text>)
    ensures Sorted(ks) && Lists(ks, s)
  {
    var ks := SortKeys(s);
    assert forall i :: 0 <= i < |ks| ==> ks[i] in ks;
    AsTexts(ks)
  }

  function EncodeEach(ks: seq<Text>): (r: seq<Bytes>)
    ensures |r| == |ks| && forall i :: 0 <= i < |ks| ==> r[i] == Encode(ks[i])
  {
    if ks == [] then [] else [Encode(ks[0])] + EncodeEach(ks[1..])
  }

  function EncodedKeys(s: set<Text>): set<Bytes> { set k | k in s :: Encode(k) }

  lemma EncodedAscend(ks: seq<Text>)
    requires Sorted(ks)
    ensures Sorted(EncodeEach(ks))
  {
    var es := EncodeEach(ks);
    forall i, j | 0 <= i < j < |es| ensures Less(es[i], es[j]) {
      EncodeOrder(ks[i], ks[j]);
    }
  }

  lemma EncodedListed(s: set<Text>, ks: seq<Text>)
    requires forall k :: k in ks <==> k in s
    ensures forall e :: e in EncodeEach(ks) <==> e in EncodedKeys(s)
  {
    var es := EncodeEach(ks);
    forall e | e in es ensures e in EncodedKeys(s) {
      var i :| 0 <= i < |es| && es[i] == e;
      assert ks[i] in ks && Encode(ks[i]) == e;
    }
    forall e | e in EncodedKeys(s) ensures e in es {
      var k :| k in s && Encode(k) == e;
      var i :| 0 <= i < |ks| && ks[i] == k;
      assert es[i] == e;
    }
  }

  /** Sorting the encoded keys bytewise and sorting the keys by code point give the same order. */
  lemma EncodedSortAgrees(s: set<Text>)
    ensures ByteSorted(EncodedKeys(s)) == EncodeEach(TextSorted(s))
  {
    EncodedAscend(TextSorted(s));
    EncodedListed(s, TextSorted(s));
    SortedUnique(ByteSorted(EncodedKeys(s)), EncodeEach(TextSorted(s)), EncodedKeys(s));
  }
}
