/** Lexicographic order on strings (the order JavaScript's `<` and `>` use on strings, and
    the order the model gives SQL's ORDER BY on text columns), and a stable insertion sort
    by an arbitrary total preorder (SQL's ORDER BY). */
module Ordering {
  import opened Common

  /** `a` sorts strictly before `b`: at the first differing position `a` has the smaller
      character, or `a` is a proper prefix of `b`. */
  predicate StrLt(a: string, b: string)
    decreases |a|
  {
    if a == [] then b != []
    else if b == [] then false
    else if a[0] == b[0] then StrLt(a[1..], b[1..])
    else a[0] < b[0]
  }

  predicate StrLe(a: string, b: string) {
    a == b || StrLt(a, b)
  }

  lemma {:induction false} StrLtIrreflexive(a: string)
    ensures !StrLt(a, a)
    decreases |a|
  {
    if a != [] {
      StrLtIrreflexive(a[1..]);
    }
  }

  lemma {:induction false} StrLtTransitive(a: string, b: string, c: string)
    requires StrLt(a, b) && StrLt(b, c)
    ensures StrLt(a, c)
    decreases |a|
  {
    if a != [] && b != [] && c != [] && a[0] == b[0] && b[0] == c[0] {
      StrLtTransitive(a[1..], b[1..], c[1..]);
    }
  }

  lemma {:induction false} StrLtTrichotomy(a: string, b: string)
    ensures a == b || StrLt(a, b) || StrLt(b, a)
    ensures !(StrLt(a, b) && StrLt(b, a))
    decreases |a|
  {
    if a != [] && b != [] && a[0] == b[0] {
      StrLtTrichotomy(a[1..], b[1..]);
      if a[1..] == b[1..] {
        assert a == [a[0]] + a[1..] && b == [b[0]] + b[1..];
      }
    }
  }

  /** `StrLe` is a total order. */
  lemma StrLeTotalOrder(a: string, b: string, c: string)
    ensures StrLe(a, b) || StrLe(b, a)
    ensures StrLe(a, b) && StrLe(b, a) ==> a == b
    ensures StrLe(a, b) && StrLe(b, c) ==> StrLe(a, c)
  {
    StrLtTrichotomy(a, b);
    if StrLt(a, b) && StrLt(b, c) {
      StrLtTransitive(a, b, c);
    }
  }

  ghost predicate TotalPreorder<T(!new)>(le: (T, T) -> bool) {
    && (forall a, b :: le(a, b) || le(b, a))
    && (forall a, b, c :: le(a, b) && le(b, c) ==> le(a, c))
  }

  ghost predicate SortedBy<T>(le: (T, T) -> bool, s: seq<T>) {
    forall i, j :: 0 <= i < j < |s| ==> le(s[i], s[j])
  }

  /** Orders rows by a string key, ascending. */
  function StrKeyAsc<T>(key: T -> string): (T, T) -> bool {
    (a: T, b: T) => StrLe(key(a), key(b))
  }

  /** Orders rows by a string key, descending. */
  function StrKeyDesc<T>(key: T -> string): (T, T) -> bool {
    (a: T, b: T) => StrLe(key(b), key(a))
  }

  /** Orders rows by an integer key, ascending. */
  function IntKeyAsc<T>(key: T -> int): (T, T) -> bool {
    (a: T, b: T) => key(a) <= key(b)
  }

  /** Sorting by a key order, spelled out on the keys. */
  lemma SortedByStrAsc<T(!new)>(key: T -> string, s: seq<T>)
    ensures forall i, j :: 0 <= i < j < |SortBy(StrKeyAsc(key), s)| ==> StrLe(key(SortBy(StrKeyAsc(key), s)[i]), key(SortBy(StrKeyAsc(key), s)[j]))
  {
    StrKeyAscIsTotalPreorder(key);
    SortBySorted(StrKeyAsc(key), s);
  }

  lemma SortedByStrDesc<T(!new)>(key: T -> string, s: seq<T>)
    ensures forall i, j :: 0 <= i < j < |SortBy(StrKeyDesc(key), s)| ==> StrLe(key(SortBy(StrKeyDesc(key), s)[j]), key(SortBy(StrKeyDesc(key), s)[i]))
  {
    StrKeyDescIsTotalPreorder(key);
    SortBySorted(StrKeyDesc(key), s);
  }

  lemma SortedByIntAsc<T(!new)>(key: T -> int, s: seq<T>)
    ensures forall i, j :: 0 <= i < j < |SortBy(IntKeyAsc(key), s)| ==> key(SortBy(IntKeyAsc(key), s)[i]) <= key(SortBy(IntKeyAsc(key), s)[j])
  {
    IntKeyAscIsTotalPreorder(key);
    SortBySorted(IntKeyAsc(key), s);
  }

  lemma StrKeyAscIsTotalPreorder<T(!new)>(key: T -> string)
    ensures TotalPreorder(StrKeyAsc(key))
  {
    forall a: T, b: T, c: T {
      StrLeTotalOrder(key(a), key(b), key(c));
    }
  }

  lemma StrKeyDescIsTotalPreorder<T(!new)>(key: T -> string)
    ensures TotalPreorder(StrKeyDesc(key))
  {
    forall a: T, b: T, c: T {
      StrLeTotalOrder(key(c), key(b), key(a));
    }
  }

  lemma IntKeyAscIsTotalPreorder<T(!new)>(key: T -> int)
    ensures TotalPreorder(IntKeyAsc(key))
  {
  }

  /** A sorted sequence stays sorted with an element in front that sorts at or before its head. */
  lemma ConsSorted<T(!new)>(le: (T, T) -> bool, x: T, s: seq<T>)
    requires TotalPreorder(le) && SortedBy(le, s)
    requires s != [] ==> le(x, s[0])
    ensures SortedBy(le, [x] + s)
  {
    var r := [x] + s;
    forall i, j | 0 <= i < j < |r| ensures le(r[i], r[j]) {
      if i == 0 && j > 1 {
        assert le(s[0], s[j - 1]);
      } else if i > 0 {
        assert r[i] == s[i - 1] && r[j] == s[j - 1];
      }
    }
  }

  /** Inserts `x` before the first element it sorts at or before. */
  function Insert<T(!new)>(le: (T, T) -> bool, x: T, s: seq<T>): (r: seq<T>)
    ensures multiset(r) == multiset(s) + multiset{x}
    ensures TotalPreorder(le) && SortedBy(le, s) ==> SortedBy(le, r)
  {
    if s == [] then [x]
    else if le(x, s[0]) then
      var r := [x] + s;
      MultisetPrepend(x, s);
      assert TotalPreorder(le) && SortedBy(le, s) ==> SortedBy(le, r) by {
        if TotalPreorder(le) && SortedBy(le, s) {
          ConsSorted(le, x, s);
        }
      }
      r
    else
      var t := Insert(le, x, s[1..]);
      var r := [s[0]] + t;
      MultisetPrepend(s[0], t);
      MultisetCons(s);
      assert TotalPreorder(le) && SortedBy(le, s) ==> SortedBy(le, r) by {
        if TotalPreorder(le) && SortedBy(le, s) {
          assert le(s[0], x);
          assert SortedBy(le, s[1..]) by {
            forall i, j | 0 <= i < j < |s[1..]| ensures le(s[1..][i], s[1..][j]) {
              assert s[1..][i] == s[i + 1] && s[1..][j] == s[j + 1];
            }
          }
          assert t[0] in multiset(t);
          assert t[0] == x || t[0] in s[1..];
          ConsSorted(le, s[0], t);
        }
      }
      r
  }

  /** Sequences with the same multiset have the same length and the same elements. */
  lemma SameMultiset<T>(r: seq<T>, s: seq<T>)
    requires multiset(r) == multiset(s)
    ensures |r| == |s| && forall x :: x in r <==> x in s
  {
    assert |r| == |multiset(r)| == |multiset(s)| == |s|;
    assert forall x :: x in r <==> x in multiset(r);
    assert forall x :: x in s <==> x in multiset(s);
  }

  /** Insertion sort: a permutation of `s`; `SortBySorted` shows it sorted. */
  function SortBy<T(!new)>(le: (T, T) -> bool, s: seq<T>): (r: seq<T>)
    ensures multiset(r) == multiset(s)
    ensures |r| == |s|
    ensures forall x :: x in r <==> x in s
  {
    if s == [] then []
    else
      var t := SortBy(le, s[1..]);
      var r := Insert(le, s[0], t);
      MultisetCons(s);
      SameMultiset(r, s);
      r
  }

  /** Insertion sort by a total preorder yields a sorted sequence. */
  lemma {:induction false} SortBySorted<T(!new)>(le: (T, T) -> bool, s: seq<T>)
    requires TotalPreorder(le)
    ensures SortedBy(le, SortBy(le, s))
  {
    if s != [] {
      SortBySorted(le, s[1..]);
    }
  }
}
