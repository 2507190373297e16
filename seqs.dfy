// Order-preserving filtering of sequences, as Python list comprehensions with
// an `if` clause build them.

module Seqs {

  /** `[x for x in s if keep(x)]` */
  function Filter<T(!new)>(s: seq<T>, keep: T -> bool): (r: seq<T>)
    ensures |r| <= |s|
    ensures forall x :: x in r <==> x in s && keep(x)
  {
    if s == [] then []
    else
      var rest := Filter(s[..|s| - 1], keep);
      var x := s[|s| - 1];
      assert s == s[..|s| - 1] + [x];
      if keep(x) then rest + [x] else rest
  }

  /** Filtering keeps order: it distributes over concatenation. */
  lemma {:induction false} FilterAppend<T(!new)>(a: seq<T>, b: seq<T>, keep: T -> bool)
    ensures Filter(a + b, keep) == Filter(a, keep) + Filter(b, keep)
    decreases |b|
  {
    if b == [] {
      assert a + b == a;
    } else {
      var b', x := b[..|b| - 1], b[|b| - 1];
      var ab := a + b;
      assert ab[..|ab| - 1] == a + b' && ab[|ab| - 1] == x;
      FilterAppend(a, b', keep);
      if keep(x) {
        calc {
          Filter(ab, keep);
          Filter(a + b', keep) + [x];
          Filter(a, keep) + Filter(b', keep) + [x];
          Filter(a, keep) + (Filter(b', keep) + [x]);
        }
      }
    }
  }

  /** Elements that all pass are kept whole. */
  lemma {:induction false} FilterAll<T(!new)>(s: seq<T>, keep: T -> bool)
    requires forall i :: 0 <= i < |s| ==> keep(s[i])
    ensures Filter(s, keep) == s
    decreases |s|
  {
    if s != [] {
      var pre := s[..|s| - 1];
      assert forall i :: 0 <= i < |pre| ==> pre[i] == s[i];
      FilterAll(pre, keep);
    }
  }

  /** No element occurs twice. */
  predicate Distinct<T(==)>(s: seq<T>) {
    forall i, j :: 0 <= i < j < |s| ==> s[i] != s[j]
  }

  /** Filtering a list without repetitions gives a list without repetitions. */
  lemma {:induction false} FilterDistinct<T(!new)>(s: seq<T>, keep: T -> bool)
    requires Distinct(s)
    ensures Distinct(Filter(s, keep))
    decreases |s|
  {
    if s != [] {
      var pre, x := s[..|s| - 1], s[|s| - 1];
      assert Distinct(pre) by {
        forall i, j | 0 <= i < j < |pre| ensures pre[i] != pre[j] {
          assert pre[i] == s[i] && pre[j] == s[j];
        }
      }
      assert x !in pre by {
        forall i | 0 <= i < |pre| ensures pre[i] != x {
          assert pre[i] == s[i];
        }
      }
      FilterDistinct(pre, keep);
    }
  }

  /** Appending an absent element keeps a list free of repetitions. */
  lemma DistinctAppend<T>(s: seq<T>, x: T)
    requires Distinct(s) && x !in s
    ensures Distinct(s + [x])
  {
    var r := s + [x];
    forall i, j | 0 <= i < j < |r| ensures r[i] != r[j] {
      assert r[i] == s[i];
    }
  }

  // ---------------------------------------------------------------- slicing facts

  lemma PrefixOfInit<T>(s: seq<T>, k: nat)
    requires k < |s|
    ensures s[..|s| - 1][..k] == s[..k] && s[..k] == s[..|s| - 1][..k]
    ensures k < |s| - 1 ==> s[..|s| - 1][k] == s[k]
    ensures k == |s| - 1 ==> s[..k] == s[..|s| - 1]
  {
  }

  lemma InitOf<T>(s: seq<T>, i: nat)
    requires i < |s|
    ensures s[..i + 1][..i] == s[..i] && s[..i + 1][i] == s[i] && |s[..i + 1]| == i + 1
  {
  }

  lemma TakeDrop<T>(s: seq<T>, i: nat)
    requires i <= |s|
    ensures s[..i] + s[i..] == s
  {
  }

  lemma AppendAssoc<T>(x: seq<T>, p: seq<T>, q: seq<T>)
    ensures x + (p + q) == (x + p) + q
  {
  }

  lemma SliceAppend<T>(a: seq<T>, b: seq<T>, k: nat)
    requires k <= |a|
    ensures (a + b)[..k] == a[..k] && (a + b)[k..] == a[k..] + b
  {
  }

  lemma InitOfAppend<T>(a: seq<T>, b: seq<T>)
    requires b != []
    ensures (a + b)[..|a + b| - 1] == a + b[..|b| - 1] && (a + b)[|a + b| - 1] == b[|b| - 1]
    ensures a + [] == a
  {
  }

  // ---------------------------------------------------------------- maxima

  /** The first index of a greatest element, as `max` picks it. */
  function ArgMax(ks: seq<int>): (r: nat)
    requires ks != []
    ensures r < |ks|
    ensures forall i :: 0 <= i < |ks| ==> ks[i] <= ks[r]
    ensures forall i :: 0 <= i < r ==> ks[i] < ks[r]
  {
    if |ks| == 1 then 0
    else
      var m := ArgMax(ks[..|ks| - 1]);
      assert ks[..|ks| - 1][m] == ks[m];
      if ks[|ks| - 1] > ks[m] then |ks| - 1 else m
  }

  /** Scanning one more element: it takes over only when strictly greater. */
  lemma ArgMaxNext(ks: seq<int>, i: nat)
    requires 1 <= i < |ks|
    ensures ArgMax(ks[..i + 1]) == if ks[i] > ks[ArgMax(ks[..i])] then i else ArgMax(ks[..i])
  {
    InitOf(ks, i);
  }
}
