// Small string toolkit mirroring the Python `str` methods the organizer uses.
// Characters are compared by code point; case mapping and whitespace are the
// ASCII subsets of Python's Unicode tables.

module Wrappers {
  datatype Option<T> = None | Some(value: T)
}

module Strings {
  import opened Wrappers

  /** `s.startswith(p)` */
  predicate StartsWith(s: string, p: string) {
    p <= s
  }

  /** `s.endswith(t)` */
  predicate EndsWith(s: string, t: string) {
    |t| <= |s| && s[|s| - |t|..] == t
  }

  /** `t` occurs in `s` starting at index `i`. */
  predicate OccursAt(s: string, t: string, i: int) {
    0 <= i && i + |t| <= |s| && s[i..i + |t|] == t
  }

  lemma OccursShift(s: string, t: string, j: int)
    requires |s| > 0 && j >= 0
    ensures OccursAt(s[1..], t, j) <==> OccursAt(s, t, j + 1)
  {
    if 0 <= j && j + |t| <= |s| - 1 {
      assert s[1..][j..j + |t|] == s[j + 1..j + 1 + |t|];
    }
  }

  /** `s.find(t)`: the first index at which `t` occurs, if any. */
  function Find(s: string, t: string): (r: Option<nat>)
    ensures r.Some? ==> OccursAt(s, t, r.value)
    ensures r.Some? ==> forall j :: 0 <= j < r.value ==> !OccursAt(s, t, j)
    ensures r.None? ==> forall j :: !OccursAt(s, t, j)
    decreases |s|
  {
    if |t| > |s| then None
    else if s[..|t|] == t then Some(0)
    else
      match Find(s[1..], t)
      case None =>
        assert forall j :: !OccursAt(s, t, j) by {
          forall j | j > 0 ensures !OccursAt(s, t, j) {
            OccursShift(s, t, j - 1);
          }
          assert s[0..|t|] == s[..|t|];
        }
        None
      case Some(k) =>
        OccursShift(s, t, k);
        assert forall j :: 0 <= j < k + 1 ==> !OccursAt(s, t, j) by {
          forall j | 0 < j < k + 1 ensures !OccursAt(s, t, j) {
            OccursShift(s, t, j - 1);
          }
          assert s[0..|t|] == s[..|t|];
        }
        Some(k + 1)
  }

  /** `t in s` for strings. */
  predicate Contains(s: string, t: string) {
    Find(s, t).Some?
  }

  lemma ContainsIff(s: string, t: string)
    ensures Contains(s, t) <==> exists j :: OccursAt(s, t, j)
  {
  }

  /** A string contains every piece it is concatenated from. */
  lemma ContainsMiddle(x: string, t: string, y: string)
    ensures Contains(x + t + y, t)
  {
    var s := x + t + y;
    assert s[|x|..|x| + |t|] == t;
    assert OccursAt(s, t, |x|);
  }

  lemma FindCharAt(a: string, b: string, c: char)
    requires c !in a
    ensures Find(a + [c] + b, [c]) == Some(|a|)
  {
    var s := a + [c] + b;
    assert OccursAt(s, [c], |a|) by { assert s[|a|..|a| + 1] == [c]; }
    forall j | 0 <= j < |a| ensures !OccursAt(s, [c], j) {
      assert s[j..j + 1] == [a[j]];
    }
  }

  lemma FindCharNone(a: string, c: char)
    requires c !in a
    ensures Find(a, [c]) == None
  {
    forall j | 0 <= j < |a| ensures !OccursAt(a, [c], j) {
      assert a[j..j + 1][0] == a[j];
    }
  }

  /** `s.split(sep)` for a non-empty separator: cut at each leftmost occurrence. */
  function Split(s: string, sep: string): (parts: seq<string>)
    requires sep != []
    ensures |parts| >= 1
    decreases |s|
  {
    match Find(s, sep)
    case None => [s]
    case Some(i) => [s[..i]] + Split(s[i + |sep|..], sep)
  }

  /** `sep.join(parts)` */
  function JoinWith(parts: seq<string>, sep: string): string
  {
    if parts == [] then ""
    else if |parts| == 1 then parts[0]
    else parts[0] + sep + JoinWith(parts[1..], sep)
  }

  lemma JoinCons(x: string, tail: seq<string>, sep: string)
    requires |tail| >= 1
    ensures JoinWith([x] + tail, sep) == x + sep + JoinWith(tail, sep)
  {
    assert ([x] + tail)[1..] == tail;
  }

  /** Splitting and re-joining on the same separator gives back the string. */
  lemma {:induction false} JoinSplit(s: string, sep: string)
    requires sep != []
    ensures JoinWith(Split(s, sep), sep) == s
    decreases |s|
  {
    var f := Find(s, sep);
    if f.Some? {
      var i := f.value;
      var rest := s[i + |sep|..];
      JoinSplit(rest, sep);
      var tail := Split(rest, sep);
      assert Split(s, sep) == [s[..i]] + tail;
      JoinCons(s[..i], tail, sep);
      CutAround(s, i, |sep|);
    }
  }

  lemma CutAround(s: string, i: nat, n: nat)
    requires i + n <= |s|
    ensures s == s[..i] + s[i..i + n] + s[i + n..]
  {
  }

  /** Splitting a string at a character it does not contain yields it whole. */
  lemma SplitCharNone(a: string, c: char)
    requires c !in a
    ensures Split(a, [c]) == [a]
  {
    FindCharNone(a, c);
  }

  /** Cutting at the first occurrence of a character. */
  lemma SplitCharFirst(a: string, b: string, c: char)
    requires c !in a
    ensures Split(a + [c] + b, [c]) == [a] + Split(b, [c])
  {
    var s := a + [c] + b;
    FindCharAt(a, b, c);
    assert s[..|a|] == a;
    assert s[|a| + 1..] == b;
  }

  /** Joining pieces free of a character and splitting at it recovers the pieces. */
  lemma {:induction false} SplitJoinChar(parts: seq<string>, c: char)
    requires |parts| >= 1
    requires forall i :: 0 <= i < |parts| ==> c !in parts[i]
    ensures Split(JoinWith(parts, [c]), [c]) == parts
    decreases |parts|
  {
    if |parts| == 1 {
      SplitCharNone(parts[0], c);
    } else {
      SplitJoinChar(parts[1..], c);
      assert JoinWith(parts, [c]) == parts[0] + [c] + JoinWith(parts[1..], [c]);
      SplitCharFirst(parts[0], JoinWith(parts[1..], [c]), c);
      assert parts == [parts[0]] + parts[1..];
    }
  }

  /** A character occurs in a string exactly when `find` locates it. */
  lemma FindCharIff(x: string, c: char)
    ensures Find(x, [c]).None? <==> c !in x
  {
    if c in x {
      var i :| 0 <= i < |x| && x[i] == c;
      assert OccursAt(x, [c], i) by { assert x[i..i + 1] == [c]; }
    } else {
      FindCharNone(x, c);
    }
  }

  /** The first occurrence in a prefix is the first occurrence in any extension. */
  lemma FindCharExtend(x: string, rest: string, c: char)
    requires Find(x, [c]).Some?
    ensures Find(x + rest, [c]) == Find(x, [c])
  {
    var i := Find(x, [c]).value;
    var s := x + rest;
    assert s[i..i + 1] == x[i..i + 1];
    forall j | 0 <= j < i ensures !OccursAt(s, [c], j) {
      assert s[j..j + 1] == x[j..j + 1];
      assert !OccursAt(x, [c], j);
    }
    FindFirst(s, [c], i);
  }

  /** `find` returns the first occurrence. */
  lemma FindFirst(s: string, t: string, i: nat)
    requires OccursAt(s, t, i)
    requires forall j :: 0 <= j < i ==> !OccursAt(s, t, j)
    ensures Find(s, t) == Some(i)
  {
  }

  /** Splitting at a character distributes over a concatenation joined by it. */
  lemma {:induction false} SplitAppend(x: string, b: string, c: char)
    ensures Split(x + [c] + b, [c]) == Split(x, [c]) + Split(b, [c])
    decreases |x|
  {
    var s := x + [c] + b;
    FindCharIff(x, c);
    if c !in x {
      SplitCharFirst(x, b, c);
      SplitCharNone(x, c);
    } else {
      var i := Find(x, [c]).value;
      FindCharExtend(x, [c] + b, c);
      assert s == x + ([c] + b);
      assert s[..i] == x[..i];
      assert s[i + 1..] == x[i + 1..] + [c] + b;
      SplitAppend(x[i + 1..], b, c);
    }
  }

  // ---------------------------------------------------------------- case

  function LowerChar(c: char): char {
    if 'A' <= c <= 'Z' then (c as int + 32) as char else c
  }

  function UpperChar(c: char): char {
    if 'a' <= c <= 'z' then (c as int - 32) as char else c
  }

  /** `s.lower()` */
  function Lower(s: string): (r: string)
    ensures |r| == |s|
  {
    seq(|s|, i requires 0 <= i < |s| => LowerChar(s[i]))
  }

  /** `s.upper()` */
  function Upper(s: string): (r: string)
    ensures |r| == |s|
  {
    seq(|s|, i requires 0 <= i < |s| => UpperChar(s[i]))
  }

  lemma LowerIdempotent(s: string)
    ensures Lower(Lower(s)) == Lower(s)
  {
  }

  lemma LowerSuffix(s: string, t: string)
    requires EndsWith(s, t)
    ensures EndsWith(Lower(s), Lower(t))
  {
    assert Lower(s)[|s| - |t|..] == Lower(t);
  }

  // ---------------------------------------------------------------- whitespace

  /** `c.isspace()` for the ASCII range. */
  predicate IsSpace(c: char) {
    var n := c as int;
    n == 32 || 9 <= n <= 13 || 28 <= n <= 31
  }

  /** Number of leading whitespace characters. */
  function LeadingSpaces(s: string): (k: nat)
    ensures k <= |s|
    ensures forall i :: 0 <= i < k ==> IsSpace(s[i])
    ensures k < |s| ==> !IsSpace(s[k])
  {
    if s == [] || !IsSpace(s[0]) then 0 else 1 + LeadingSpaces(s[1..])
  }

  /** Number of trailing whitespace characters. */
  function TrailingSpaces(s: string): (k: nat)
    ensures k <= |s|
    ensures forall i :: |s| - k <= i < |s| ==> IsSpace(s[i])
    ensures k < |s| ==> !IsSpace(s[|s| - 1 - k])
  {
    if s == [] || !IsSpace(s[|s| - 1]) then 0 else 1 + TrailingSpaces(s[..|s| - 1])
  }

  /** `s.lstrip()` */
  function LStrip(s: string): string {
    s[LeadingSpaces(s)..]
  }

  /** `s.rstrip()` */
  function RStrip(s: string): string {
    s[..|s| - TrailingSpaces(s)]
  }

  /** `s.strip()`: no whitespace is left at either end. */
  function Strip(s: string): (r: string)
    ensures r == [] || (!IsSpace(r[0]) && !IsSpace(r[|r| - 1]))
  {
    RStrip(s[LeadingSpaces(s)..])
  }

  /** What `strip` removes is whitespace at the two ends and nothing else. */
  lemma StripSlice(s: string)
    ensures exists i, j :: (0 <= i <= j <= |s| && Strip(s) == s[i..j]
                            && (forall k :: 0 <= k < i ==> IsSpace(s[k]))
                            && (forall k :: j <= k < |s| ==> IsSpace(s[k])))
  {
    var l := LeadingSpaces(s);
    var t := s[l..];
    var r := TrailingSpaces(t);
    assert Strip(s) == s[l..|s| - r];
    forall k | |s| - r <= k < |s| ensures IsSpace(s[k]) {
      assert s[k] == t[k - l];
    }
  }

  lemma StripNoSpace(s: string)
    requires forall i :: 0 <= i < |s| ==> !IsSpace(s[i])
    ensures Strip(s) == s
  {
    assert LeadingSpaces(s) == 0;
    assert TrailingSpaces(s) == 0;
  }

  /** Stripping leaves a string alone whose ends are not whitespace. */
  lemma StripKeeps(s: string)
    requires |s| > 0 && !IsSpace(s[0]) && !IsSpace(s[|s| - 1])
    ensures Strip(s) == s
  {
    assert LeadingSpaces(s) == 0;
    assert s[0..] == s;
    assert TrailingSpaces(s) == 0;
  }

  /** Leading whitespace is stripped away. */
  lemma {:induction false} StripPadded(pad: string, s: string)
    requires forall i :: 0 <= i < |pad| ==> IsSpace(pad[i])
    ensures Strip(pad + s) == Strip(s)
    decreases |pad|
  {
    if pad != [] {
      assert pad + s == [pad[0]] + (pad[1..] + s);
      StripSpaceHead(pad[0], pad[1..] + s);
      StripPadded(pad[1..], s);
    } else {
      assert pad + s == s;
    }
  }

  /** A leading whitespace character is stripped away. */
  lemma StripSpaceHead(c: char, x: string)
    requires IsSpace(c)
    ensures Strip([c] + x) == Strip(x)
  {
    assert ([c] + x)[1..] == x;
    assert LeadingSpaces([c] + x) == 1 + LeadingSpaces(x);
    assert ([c] + x)[1 + LeadingSpaces(x)..] == x[LeadingSpaces(x)..];
  }

  /** `s.split(maxsplit=1)`: the first whitespace-delimited word and the rest,
      with the rest's leading whitespace removed; empty pieces are dropped. */
  function SplitOnce(s: string): (parts: seq<string>)
    ensures |parts| <= 2
    ensures forall i :: 0 <= i < |parts| ==> parts[i] != []
  {
    var t := LStrip(s);
    var k := FirstSpace(t);
    if k == 0 then []
    else if k == |t| then [t]
    else
      var rest := LStrip(t[k..]);
      if rest == [] then [t[..k]] else [t[..k], rest]
  }

  /** Index of the first whitespace character, or `|s|`. */
  function FirstSpace(s: string): (k: nat)
    ensures k <= |s|
    ensures forall i :: 0 <= i < k ==> !IsSpace(s[i])
    ensures k < |s| ==> IsSpace(s[k])
  {
    if s == [] || IsSpace(s[0]) then 0 else 1 + FirstSpace(s[1..])
  }

  // ---------------------------------------------------------------- digits

  predicate IsDigit(c: char) {
    '0' <= c <= '9'
  }

  /** `s.isdigit()` for ASCII digits: non-empty and all digits. */
  predicate IsDigits(s: string) {
    |s| > 0 && forall i :: 0 <= i < |s| ==> IsDigit(s[i])
  }

  predicate AllDigits(s: string) {
    forall i :: 0 <= i < |s| ==> IsDigit(s[i])
  }

  function DigitValue(c: char): nat
    requires IsDigit(c)
  {
    c as int - '0' as int
  }

  function DigitChar(d: nat): (c: char)
    requires d < 10
    ensures IsDigit(c) && DigitValue(c) == d
  {
    ('0' as int + d) as char
  }

  /** The number a string of digits denotes (leading zeros allowed). */
  function DigitsValue(s: string): nat
    requires AllDigits(s)
  {
    if s == [] then 0 else 10 * DigitsValue(s[..|s| - 1]) + DigitValue(s[|s| - 1])
  }

  function Pow10(n: nat): (r: nat)
    ensures r >= 1
  {
    if n == 0 then 1 else 10 * Pow10(n - 1)
  }

  /** `str(n)` for a natural number. */
  function NatToString(n: nat): (r: string)
    ensures IsDigits(r)
  {
    if n < 10 then [DigitChar(n)] else NatToString(n / 10) + [DigitChar(n % 10)]
  }

  lemma {:induction false} NatToStringValue(n: nat)
    ensures DigitsValue(NatToString(n)) == n
  {
    if n >= 10 {
      NatToStringValue(n / 10);
      var s := NatToString(n);
      assert s[..|s| - 1] == NatToString(n / 10);
    }
  }

  lemma {:induction false} NatToStringLength(n: nat, w: nat)
    requires w >= 1 && n < Pow10(w)
    ensures |NatToString(n)| <= w
  {
    if n >= 10 {
      assert Pow10(1) == 10;
      assert n / 10 < Pow10(w - 1);
      NatToStringLength(n / 10, w - 1);
    }
  }

  /** `s.zfill(w)` for a digit string: left-pad with zeros to width `w`. */
  function ZFill(s: string, w: nat): (r: string)
    ensures |r| == if |s| < w then w else |s|
  {
    if |s| < w then seq(w - |s|, _ => '0') + s else s
  }

  lemma {:induction false} LeadingZeros(z: nat, s: string)
    requires AllDigits(s)
    ensures AllDigits(seq(z, _ => '0') + s)
    ensures DigitsValue(seq(z, _ => '0') + s) == DigitsValue(s)
    decreases |s|
  {
    var t := seq(z, _ => '0') + s;
    if s == [] {
      assert t == seq(z, _ => '0');
      ZerosValue(z);
    } else {
      assert t[..|t| - 1] == seq(z, _ => '0') + s[..|s| - 1];
      LeadingZeros(z, s[..|s| - 1]);
    }
  }

  lemma {:induction false} ZerosValue(z: nat)
    ensures AllDigits(seq(z, _ => '0'))
    ensures DigitsValue(seq(z, _ => '0')) == 0
  {
    if z > 0 {
      assert seq(z, _ => '0')[..z - 1] == seq(z - 1, _ => '0');
      ZerosValue(z - 1);
    }
  }

  /** A zero-padded rendering of `n` reads back as `n` and has exactly width `w`. */
  lemma PaddedRoundTrip(n: nat, w: nat)
    requires w >= 1 && n < Pow10(w)
    ensures |ZFill(NatToString(n), w)| == w
    ensures AllDigits(ZFill(NatToString(n), w))
    ensures DigitsValue(ZFill(NatToString(n), w)) == n
  {
    var s := NatToString(n);
    NatToStringLength(n, w);
    NatToStringValue(n);
    assert AllDigits(s);
    if |s| < w {
      LeadingZeros(w - |s|, s);
      assert ZFill(s, w) == seq(w - |s|, _ => '0') + s;
    } else {
      assert ZFill(s, w) == s;
    }
  }

  /** Digit character at each position of a concatenation. */
  lemma DigitsConcat(a: string, b: string)
    requires AllDigits(a) && AllDigits(b)
    ensures AllDigits(a + b)
  {
  }

  // ---------------------------------------------------------------- int()

  /** Digits with single underscores between them, as `int()` accepts. */
  predicate IsGroupedDigits(s: string) {
    && |s| > 0 && IsDigit(s[0]) && IsDigit(s[|s| - 1])
    && (forall i :: 0 <= i < |s| ==> IsDigit(s[i]) || s[i] == '_')
    && (forall i :: 0 <= i < |s| - 1 && s[i] == '_' ==> IsDigit(s[i + 1]))
  }

  function DropUnderscores(s: string): (r: string)
    requires forall i :: 0 <= i < |s| ==> IsDigit(s[i]) || s[i] == '_'
    ensures AllDigits(r)
  {
    if s == [] then [] else (if s[0] == '_' then [] else [s[0]]) + DropUnderscores(s[1..])
  }

  /** `int(s)` on base-10 text: surrounding whitespace, an optional sign,
      digits grouped by single underscores; anything else raises ValueError (None). */
  function PyInt(s: string): (r: Option<int>)
    ensures IsDigits(s) ==> r == Some(DigitsValue(s))
  {
    var t := Strip(s);
    if IsDigits(s) then
      StripNoSpace(s);
      DropNone(s);
      Some(DigitsValue(s))
    else if |t| > 0 && (t[0] == '+' || t[0] == '-') then
      var body := t[1..];
      if IsGroupedDigits(body) then
        var v: int := DigitsValue(DropUnderscores(body));
        Some(if t[0] == '-' then -v else v)
      else None
    else if IsGroupedDigits(t) then Some(DigitsValue(DropUnderscores(t)))
    else None
  }

  lemma {:induction false} DropNone(s: string)
    requires AllDigits(s)
    ensures DropUnderscores(s) == s
  {
    if s != [] {
      DropNone(s[1..]);
    }
  }
}
