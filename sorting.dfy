// Python's ordering of strings (lexicographic by code point) and the sorted
// listing of a set of names.

module Sorting {
  import opened Seqs

  /** `a < b` on Python strings. */
  predicate Less(a: string, b: string)
    decreases |a|
  {
    if a == [] then b != []
    else if b == [] then false
    else a[0] < b[0] || (a[0] == b[0] && Less(a[1..], b[1..]))
  }

  lemma {:induction false} LessIrreflexive(a: string)
    ensures !Less(a, a)
    decreases |a|
  {
    if a != [] {
      LessIrreflexive(a[1..]);
    }
  }

  lemma {:induction false} LessTransitive(a: string, b: string, c: string)
    requires Less(a, b) && Less(b, c)
    ensures Less(a, c)
    decreases |a|
  {
    if a != [] && a[0] == b[0] && b[0] == c[0] {
      LessTransitive(a[1..], b[1..], c[1..]);
    }
  }

  lemma {:induction false} LessTotal(a: string, b: string)
    ensures Less(a, b) || a == b || Less(b, a)
    decreases |a|
  {
    if a != [] && b != [] && a[0] == b[0] {
      LessTotal(a[1..], b[1..]);
      if a[1..] == b[1..] {
        assert a == [a[0]] + a[1..] && b == [b[0]] + b[1..];
      }
    }
  }

  lemma LessAsymmetric(a: string, b: string)
    requires Less(a, b)
    ensures !Less(b, a)
  {
    if Less(b, a) {
      LessTransitive(a, b, a);
      LessIrreflexive(a);
    }
  }

  /** A proper prefix sorts before the longer string. */
  lemma {:induction false} PrefixLess(a: string, b: string)
    requires a < b
    ensures Less(a, b)
    decreases |a|
  {
    if a != [] {
      assert a[1..] < b[1..];
      PrefixLess(a[1..], b[1..]);
    }
  }

  /** Strictly ascending. */
  predicate Ascending(s: seq<string>) {
    forall i, j :: 0 <= i < j < |s| ==> Less(s[i], s[j])
  }

  /** A strictly ascending list repeats no name. */
  lemma AscendingDistinct(s: seq<string>)
    requires Ascending(s)
    ensures Distinct(s)
  {
    forall i, j | 0 <= i < j < |s| ensures s[i] != s[j] {
      LessIrreflexive(s[i]);
    }
  }

  /** Strictly descending. */
  predicate Descending(s: seq<string>) {
    forall i, j :: 0 <= i < j < |s| ==> Less(s[j], s[i])
  }

  predicate IsLeast(m: string, names: set<string>) {
    m in names && forall x :: x in names && x != m ==> Less(m, x)
  }

  lemma LeastExists(names: set<string>)
    requires names != {}
    ensures exists m :: IsLeast(m, names)
    decreases |names|
  {
    var x :| x in names;
    if names == {x} {
      assert IsLeast(x, names);
    } else {
      var rest := names - {x};
      LeastExists(rest);
      var m :| IsLeast(m, rest);
      LessTotal(x, m);
      if Less(x, m) {
        forall y | y in names && y != x ensures Less(x, y) {
          if y != m { LessTransitive(x, m, y); }
        }
        assert IsLeast(x, names);
      } else {
        assert IsLeast(m, names);
      }
    }
  }

  lemma LeastUnique(m1: string, m2: string, names: set<string>)
    requires IsLeast(m1, names) && IsLeast(m2, names)
    ensures m1 == m2
  {
    if m1 != m2 {
      LessAsymmetric(m1, m2);
    }
  }

  lemma LeastUniqueAll(names: set<string>)
    ensures forall m1, m2 :: IsLeast(m1, names) && IsLeast(m2, names) ==> m1 == m2
  {
    forall m1, m2 | IsLeast(m1, names) && IsLeast(m2, names) ensures m1 == m2 {
      LeastUnique(m1, m2, names);
    }
  }

  /** The names of a set in ascending order, as `sorted(names)` returns them. */
  function SortedList(names: set<string>): (r: seq<string>)
    ensures |r| == |names|
    ensures forall x :: x in names <==> x in r
    ensures Ascending(r)
    decreases |names|
  {
    if names == {} then []
    else
      LeastExists(names);
      LeastUniqueAll(names);
      var m :| IsLeast(m, names);
      var rest := SortedList(names - {m});
      assert forall i :: 0 <= i < |rest| ==> Less(m, rest[i]) by {
        forall i | 0 <= i < |rest| ensures Less(m, rest[i]) {
          assert rest[i] in rest;
        }
      }
      [m] + rest
  }

  /** Reversal of a sequence. */
  function Reverse<T>(s: seq<T>): (r: seq<T>)
    ensures |r| == |s|
    ensures forall i :: 0 <= i < |s| ==> r[i] == s[|s| - 1 - i]
  {
    if s == [] then [] else Reverse(s[1..]) + [s[0]]
  }

  lemma ReverseDescending(s: seq<string>)
    requires Ascending(s)
    ensures Descending(Reverse(s))
  {
    var r := Reverse(s);
    forall i, j | 0 <= i < j < |r| ensures Less(r[j], r[i]) {
      assert r[i] == s[|s| - 1 - i] && r[j] == s[|s| - 1 - j];
    }
  }

  lemma ReverseMembers<T>(s: seq<T>)
    ensures forall x :: x in s <==> x in Reverse(s)
  {
    var r := Reverse(s);
    forall x ensures x in s <==> x in r {
      if x in s {
        var i :| 0 <= i < |s| && s[i] == x;
        assert r[|s| - 1 - i] == x;
      }
      if x in r {
        var i :| 0 <= i < |r| && r[i] == x;
        assert s[|s| - 1 - i] == x;
      }
    }
  }

  /** `sorted(names, reverse=True)` */
  function SortedListDesc(names: set<string>): (r: seq<string>)
    ensures |r| == |names|
    ensures forall x :: x in names <==> x in r
    ensures Descending(r)
  {
    var a := SortedList(names);
    ReverseDescending(a);
    ReverseMembers(a);
    Reverse(a)
  }

  // ---------------------------------------------------------------- sorting a list

  /** Each element is at least every later one. */
  predicate NonIncreasing(s: seq<string>) {
    forall i, j :: 0 <= i < j < |s| ==> !Less(s[i], s[j])
  }

  /** "At least" is transitive. */
  lemma AtLeastTransitive(a: string, b: string, c: string)
    requires !Less(a, b) && !Less(b, c)
    ensures !Less(a, c)
  {
    if Less(a, c) {
      LessTotal(a, b);
      if a != b {
        LessTransitive(b, a, c);
      }
    }
  }

  /** `x` placed into a non-increasing list before the first element it is at least. */
  function InsertDesc(x: string, s: seq<string>): (r: seq<string>)
    requires NonIncreasing(s)
    ensures NonIncreasing(r)
    ensures multiset(r) == multiset(s) + multiset{x}
    decreases |s|
  {
    if s == [] then [x]
    else if !Less(x, s[0]) then
      forall j | 0 <= j < |s| ensures !Less(x, s[j]) {
        if j > 0 { AtLeastTransitive(x, s[0], s[j]); }
      }
      [x] + s
    else
      var t := InsertDesc(x, s[1..]);
      LessTotal(x, s[0]);
      LessAsymmetric(x, s[0]);
      assert s == [s[0]] + s[1..];
      assert forall y :: y in multiset(t) ==> y == x || y in multiset(s[1..]);
      forall j | 0 <= j < |t| ensures !Less(s[0], t[j]) {
        assert t[j] in multiset(t);
        if t[j] != x {
          var k :| 0 <= k < |s[1..]| && s[1..][k] == t[j];
          assert s[k + 1] == t[j];
        }
      }
      [s[0]] + t
  }

  /** `sorted(s, reverse=True)`: the same elements, each at least every later one. */
  function SortDesc(s: seq<string>): (r: seq<string>)
    ensures NonIncreasing(r)
    ensures multiset(r) == multiset(s)
  {
    if s == [] then []
    else
      assert s == s[..|s| - 1] + [s[|s| - 1]];
      InsertDesc(s[|s| - 1], SortDesc(s[..|s| - 1]))
  }
}
