/** Stable sorting in descending key order, the behaviour of JavaScript's
    `Array.prototype.sort` with a comparator `(a, b) => key(b) - key(a)`.
    Keys are compared lexicographically: `major` first, then `minor`, which
    also covers the two-level comparator of the queue dashboard. */
module Ordering {

  datatype Key = Key(major: int, minor: real)

  predicate KeyLe(a: Key, b: Key) {
    a.major < b.major || (a.major == b.major && a.minor <= b.minor)
  }

  /** Every element's key is at least the key of every later element. */
  predicate SortedDesc<T>(s: seq<T>, key: T -> Key) {
    forall i, j :: 0 <= i < j < |s| ==> KeyLe(key(s[j]), key(s[i]))
  }

  /** Puts `x` in front of the first element whose key does not exceed its
      own, so that `x` precedes the elements it ties with. */
  function Insert<T>(x: T, s: seq<T>, key: T -> Key): (r: seq<T>)
    requires SortedDesc(s, key)
    ensures |r| == |s| + 1
    ensures multiset(r) == multiset(s) + multiset{x}
    ensures forall i :: 0 <= i < |r| ==> r[i] == x || r[i] in s
    ensures x in r && forall i :: 0 <= i < |s| ==> s[i] in r
    ensures SortedDesc(r, key)
  {
    if |s| == 0 then [x]
    else if KeyLe(key(s[0]), key(x)) then
      PrependStep(x, s, key);
      [x] + s
    else
      var t := Insert(x, s[1..], key);
      InsertStep(x, s, t, key);
      [s[0]] + t
  }

  lemma PrependStep<T>(x: T, s: seq<T>, key: T -> Key)
    requires SortedDesc(s, key) && |s| > 0 && KeyLe(key(s[0]), key(x))
    ensures SortedDesc([x] + s, key)
    ensures forall i :: 0 <= i < |s| ==> s[i] in [x] + s
  {
    var r := [x] + s;
    forall i, j | 0 <= i < j < |r| ensures KeyLe(key(r[j]), key(r[i])) {
      assert r[j] == s[j - 1];
      if i > 0 {
        assert r[i] == s[i - 1];
      }
    }
    forall i | 0 <= i < |s| ensures s[i] in r {
      assert r[i + 1] == s[i];
    }
  }

  lemma InsertStep<T>(x: T, s: seq<T>, t: seq<T>, key: T -> Key)
    requires SortedDesc(s, key) && |s| > 0 && !KeyLe(key(s[0]), key(x))
    requires SortedDesc(t, key) && multiset(t) == multiset(s[1..]) + multiset{x}
    requires forall i :: 0 <= i < |t| ==> t[i] == x || t[i] in s[1..]
    requires x in t && forall i :: 0 <= i < |s[1..]| ==> s[1..][i] in t
    ensures SortedDesc([s[0]] + t, key)
    ensures multiset([s[0]] + t) == multiset(s) + multiset{x}
    ensures forall i :: 0 <= i < |t| + 1 ==> ([s[0]] + t)[i] == x || ([s[0]] + t)[i] in s
    ensures forall i :: 0 <= i < |s| ==> s[i] in [s[0]] + t
  {
    var r := [s[0]] + t;
    assert s == [s[0]] + s[1..];
    forall i | 0 <= i < |t| ensures KeyLe(key(t[i]), key(s[0])) {
      if t[i] != x {
        var m :| 0 <= m < |s[1..]| && s[1..][m] == t[i];
        assert t[i] == s[m + 1];
      }
    }
    forall i, j | 0 <= i < j < |r| ensures KeyLe(key(r[j]), key(r[i])) {
      assert r[j] == t[j - 1];
      if i > 0 {
        assert r[i] == t[i - 1];
      }
    }
    forall i | 0 <= i < |r| ensures r[i] == x || r[i] in s {
      if i > 0 {
        assert r[i] == t[i - 1];
      }
    }
    forall i | 0 <= i < |s| ensures s[i] in r {
      if i > 0 {
        assert s[i] == s[1..][i - 1];
      }
    }
  }

  /** Insertion sort: a permutation of `s` in non-increasing key order. */
  function SortDesc<T>(s: seq<T>, key: T -> Key): (r: seq<T>)
    ensures |r| == |s|
    ensures multiset(r) == multiset(s)
    ensures forall i :: 0 <= i < |r| ==> r[i] in s
    ensures forall i :: 0 <= i < |s| ==> s[i] in r
    ensures SortedDesc(r, key)
  {
    if |s| == 0 then []
    else
      var t := SortDesc(s[1..], key);
      var r := Insert(s[0], t, key);
      SortStep(s, t, r);
      r
  }

  /** Inserting the head into the sorted tail keeps the elements of `s`. */
  lemma SortStep<T>(s: seq<T>, t: seq<T>, r: seq<T>)
    requires |s| > 0
    requires multiset(t) == multiset(s[1..])
    requires forall i :: 0 <= i < |t| ==> t[i] in s[1..]
    requires forall i :: 0 <= i < |s[1..]| ==> s[1..][i] in t
    requires multiset(r) == multiset(t) + multiset{s[0]}
    requires forall i :: 0 <= i < |r| ==> r[i] == s[0] || r[i] in t
    requires s[0] in r && forall i :: 0 <= i < |t| ==> t[i] in r
    ensures multiset(r) == multiset(s)
    ensures forall i :: 0 <= i < |r| ==> r[i] in s
    ensures forall i :: 0 <= i < |s| ==> s[i] in r
  {
    assert s == [s[0]] + s[1..];
    forall i | 0 <= i < |r| ensures r[i] in s {
      if r[i] != s[0] {
        var m :| 0 <= m < |t| && t[m] == r[i];
        var n :| 0 <= n < |s[1..]| && s[1..][n] == t[m];
        assert s[n + 1] == r[i];
      }
    }
    forall i | 0 <= i < |s| ensures s[i] in r {
      if i > 0 {
        assert s[i] == s[1..][i - 1];
        var m :| 0 <= m < |t| && t[m] == s[i];
      }
    }
  }

  /** Index of the first element of maximal key. */
  function FirstMax<T>(s: seq<T>, key: T -> Key): (k: nat)
    requires |s| > 0
    ensures k < |s|
    ensures forall j :: 0 <= j < |s| ==> KeyLe(key(s[j]), key(s[k]))
    ensures forall j :: 0 <= j < k ==> !KeyLe(key(s[k]), key(s[j]))
  {
    if |s| == 1 then 0
    else
      var k := FirstMax(s[1..], key);
      if KeyLe(key(s[k + 1]), key(s[0])) then 0 else k + 1
  }

  /** The head of the stable sort is the first element of maximal key, which
      is what the source reads as `sorted[0]`. */
  lemma {:induction false} SortHeadIsFirstMax<T>(s: seq<T>, key: T -> Key)
    requires |s| > 0
    ensures SortDesc(s, key)[0] == s[FirstMax(s, key)]
  {
    if |s| > 1 {
      SortHeadIsFirstMax(s[1..], key);
      var rest := SortDesc(s[1..], key);
      var k := FirstMax(s[1..], key);
      assert rest[0] == s[k + 1];
    }
  }
}
