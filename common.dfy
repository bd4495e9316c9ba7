/** Option and Result types for the services' error paths, and the sequence helpers
    (first match and filter) that stand for repository lookups. */
module Common {

  datatype Option<T> = None | Some(value: T) {
    function GetOr(default: T): T {
      match this
      case Some(v) => v
      case None => default
    }
  }

  /** The exceptions the services can raise. NotFound and BadRequest are raised by the
      services themselves; DbError stands for an error the database or the data layer reports:
      a constraint violation when a row is saved, a date value the database refuses, or an
      update with no values to set. */
  datatype Error = NotFound | BadRequest | DbError

  datatype Result<T> = Ok(value: T) | Err(error: Error)

  /** The result of an operation that returns only a confirmation. */
  datatype Outcome = Pass | Fail(error: Error)

  /** Index of the first element satisfying `p`, as a repository `findOne` returns the
      first matching row. */
  function Find<T>(s: seq<T>, p: T -> bool): (r: Option<nat>)
    ensures r.Some? ==> r.value < |s| && p(s[r.value])
    ensures r.Some? ==> forall k :: 0 <= k < r.value ==> !p(s[k])
    ensures r.None? <==> forall k :: 0 <= k < |s| ==> !p(s[k])
  {
    if s == [] then None
    else if p(s[0]) then Some(0)
    else match Find(s[1..], p)
      case None => None
      case Some(i) => Some(i + 1)
  }

  /** The multiset of a non-empty sequence: its head and the multiset of its tail. */
  lemma MultisetCons<T>(s: seq<T>)
    requires s != []
    ensures multiset(s) == multiset(s[1..]) + multiset{s[0]}
  {
    assert s == [s[0]] + s[1..];
  }

  /** The multiset of a sequence with an element in front. */
  lemma MultisetPrepend<T>(x: T, s: seq<T>)
    ensures multiset([x] + s) == multiset(s) + multiset{x}
  {
  }

  /** The elements of `s` satisfying `p`, in order. */
  function Filter<T(!new)>(s: seq<T>, p: T -> bool): (r: seq<T>)
    ensures |r| <= |s|
    ensures forall x :: x in r <==> x in s && p(x)
    ensures multiset(r) <= multiset(s)
  {
    if s == [] then []
    else
      MultisetCons(s);
      if p(s[0]) then
        MultisetPrepend(s[0], Filter(s[1..], p));
        [s[0]] + Filter(s[1..], p)
      else Filter(s[1..], p)
  }

  /** Filtering keeps a property that holds of every ordered pair of elements. */
  lemma {:induction false} FilterKeepsPairwise<T(!new)>(s: seq<T>, p: T -> bool, rel: (T, T) -> bool)
    requires forall i, j :: 0 <= i < j < |s| ==> rel(s[i], s[j])
    ensures forall i, j :: 0 <= i < j < |Filter(s, p)| ==> rel(Filter(s, p)[i], Filter(s, p)[j])
  {
    if s != [] {
      var tail := Filter(s[1..], p);
      FilterKeepsPairwise(s[1..], p, rel);
      assert forall i, j :: 0 <= i < j < |tail| ==> rel(tail[i], tail[j]);
      if p(s[0]) {
        var r := [s[0]] + tail;
        assert Filter(s, p) == r;
        forall i, j | 0 <= i < j < |r| ensures rel(r[i], r[j]) {
          if i == 0 {
            assert r[j] in tail;
            var k :| 0 <= k < |s[1..]| && s[1..][k] == r[j];
            assert r[0] == s[0] && s[k + 1] == r[j];
            assert rel(s[0], s[k + 1]);
          } else {
            assert r[i] == tail[i - 1] && r[j] == tail[j - 1];
          }
        }
      } else {
        assert Filter(s, p) == tail;
      }
    }
  }

  /** The sum of `f` over the elements of `s`, added from the front as a running total. */
  function SumBy<T>(s: seq<T>, f: T -> int): int {
    if s == [] then 0 else SumBy(s[..|s| - 1], f) + f(s[|s| - 1])
  }

  lemma {:induction false} SumByAppend<T>(a: seq<T>, b: seq<T>, f: T -> int)
    ensures SumBy(a + b, f) == SumBy(a, f) + SumBy(b, f)
    decreases |b|
  {
    if b == [] {
      assert a + b == a;
    } else {
      assert (a + b)[..|a + b| - 1] == a + b[..|b| - 1];
      assert (a + b)[|a + b| - 1] == b[|b| - 1];
      SumByAppend(a, b[..|b| - 1], f);
    }
  }

  /** A relation that holds between all ordered pairs holds between the first two elements. */
  lemma FirstTwoRelated<T>(s: seq<T>, rel: (T, T) -> bool)
    requires forall i, j :: 0 <= i < j < |s| ==> rel(s[i], s[j])
    ensures |s| >= 2 ==> rel(s[0], s[1]) && s[0] in s && s[1] in s
  {
  }

  /** An element at two positions occurs at least twice in the multiset. */
  lemma TwiceInMultiset<T>(s: seq<T>, i: nat, j: nat)
    requires i < j < |s| && s[i] == s[j]
    ensures multiset(s)[s[i]] >= 2
  {
    assert s == s[..j] + [s[j]] + s[j + 1..];
    assert s[i] in s[..j];
  }

  /** An element occurring at least twice in the multiset sits at two positions. */
  lemma TwoPositions<T>(s: seq<T>, x: T) returns (p: nat, q: nat)
    requires multiset(s)[x] >= 2
    ensures p < q < |s| && s[p] == x && s[q] == x
  {
    assert x in s;
    p :| 0 <= p < |s| && s[p] == x && forall k :: 0 <= k < p ==> s[k] != x by {
      var k :| 0 <= k < |s| && s[k] == x;
      var f := Find(s, (y: T) => y == x);
      assert f.Some?;
    }
    assert s == s[..p] + [s[p]] + s[p + 1..];
    assert x !in s[..p];
    assert x in multiset(s[p + 1..]);
    var k :| 0 <= k < |s[p + 1..]| && s[p + 1..][k] == x;
    q := p + 1 + k;
  }

  /** Two positions of a permutation come from two positions of the original. */
  lemma PermutedPositions<T>(s: seq<T>, t: seq<T>, i: nat, j: nat) returns (p: nat, q: nat)
    requires multiset(s) == multiset(t) && i < j < |t|
    ensures p < |s| && q < |s| && p != q && s[p] == t[i] && s[q] == t[j]
  {
    if t[i] == t[j] {
      TwiceInMultiset(t, i, j);
      p, q := TwoPositions(s, t[i]);
    } else {
      assert t[i] in multiset(s) && t[j] in multiset(s);
      p :| 0 <= p < |s| && s[p] == t[i];
      q :| 0 <= q < |s| && s[q] == t[j];
    }
  }

  /** Keys that are pairwise distinct stay pairwise distinct under any permutation. */
  lemma DistinctKeysPermuted<T, K>(s: seq<T>, t: seq<T>, key: T -> K)
    requires multiset(s) == multiset(t)
    requires forall i, j :: 0 <= i < j < |s| ==> key(s[i]) != key(s[j])
    ensures forall i, j :: 0 <= i < j < |t| ==> key(t[i]) != key(t[j])
  {
    forall i, j | 0 <= i < j < |t| ensures key(t[i]) != key(t[j]) {
      var p, q := PermutedPositions(s, t, i, j);
      if p < q {
        assert key(s[p]) != key(s[q]);
      } else {
        assert key(s[q]) != key(s[p]);
      }
    }
  }
}
