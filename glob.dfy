// Shell-style name patterns as `Path.glob` matches one directory level with
// them: `*` stands for any run of characters, `?` for one character, and
// every other character for itself.

module Glob {
  import opened Strings

  /** `fnmatch`-style matching of a whole name against a pattern. */
  predicate Match(pat: string, s: string)
    decreases |pat| + |s|
  {
    if pat == [] then s == []
    else if pat[0] == '*' then Match(pat[1..], s) || (s != [] && Match(pat, s[1..]))
    else s != [] && (pat[0] == '?' || pat[0] == s[0]) && Match(pat[1..], s[1..])
  }

  /** A pattern without wildcards matches only itself. */
  predicate Literal(p: string) {
    '*' !in p && '?' !in p
  }

  lemma {:induction false} MatchLiteral(p: string, s: string)
    requires Literal(p)
    ensures Match(p, s) <==> s == p
    decreases |p|
  {
    if p != [] {
      assert Literal(p[1..]) by {
        forall i | 0 <= i < |p[1..]| ensures p[1..][i] != '*' && p[1..][i] != '?' {
          assert p[1..][i] == p[i + 1];
        }
      }
      if s != [] {
        MatchLiteral(p[1..], s[1..]);
        assert s == [s[0]] + s[1..] && p == [p[0]] + p[1..];
      }
    }
  }

  /** A leading star lets the rest of the pattern match any suffix. */
  lemma {:induction false} MatchStar(q: string, s: string)
    ensures Match(['*'] + q, s) <==> exists k :: 0 <= k <= |s| && Match(q, s[k..])
    decreases |s|
  {
    var pat := ['*'] + q;
    assert pat[1..] == q;
    if s == [] {
      assert s[0..] == s;
    } else {
      MatchStar(q, s[1..]);
      assert s[0..] == s;
      if Match(pat, s) && !Match(q, s) {
        var k :| 0 <= k <= |s[1..]| && Match(q, s[1..][k..]);
        assert s[1..][k..] == s[k + 1..];
      }
      if exists k :: 0 <= k <= |s| && Match(q, s[k..]) {
        var k :| 0 <= k <= |s| && Match(q, s[k..]);
        if k > 0 {
          assert s[1..][k - 1..] == s[k..];
        }
      }
    }
  }

  /** `*` followed by a literal matches exactly the names ending with it. */
  lemma MatchSuffix(p: string, s: string)
    requires Literal(p)
    ensures Match(['*'] + p, s) <==> EndsWith(s, p)
  {
    MatchStar(p, s);
    if EndsWith(s, p) {
      MatchLiteral(p, s[|s| - |p|..]);
    }
    if Match(['*'] + p, s) {
      var k :| 0 <= k <= |s| && Match(p, s[k..]);
      MatchLiteral(p, s[k..]);
    }
  }

  /** Two leading stars match what one does. */
  lemma StarStar(q: string, s: string)
    ensures Match(['*', '*'] + q, s) <==> Match(['*'] + q, s)
  {
    var q1 := ['*'] + q;
    assert ['*', '*'] + q == ['*'] + q1;
    MatchStar(q1, s);
    MatchStar(q, s);
    if Match(['*'] + q1, s) {
      var k :| 0 <= k <= |s| && Match(q1, s[k..]);
      MatchStar(q, s[k..]);
      var j :| 0 <= j <= |s[k..]| && Match(q, s[k..][j..]);
      assert s[k..][j..] == s[k + j..];
    }
    if Match(q1, s) {
      assert s[0..] == s;
    }
  }

  /** A pattern ending in a star matches its own text followed by anything. */
  lemma {:induction false} MatchPrefix(p: string, t: string)
    ensures Match(p + ['*'], p + t)
    decreases |p|
  {
    var pat := p + ['*'];
    if p == [] {
      MatchStar([], t);
      assert Match([], t[|t|..]);
      assert pat == ['*'] + [] && p + t == t;
    } else {
      MatchPrefix(p[1..], t);
      assert pat[1..] == p[1..] + ['*'];
      assert (p + t)[1..] == p[1..] + t;
      assert (p + t)[0] == p[0];
    }
  }

  /** A literal head of the pattern consumes the same head of the name. */
  lemma {:induction false} MatchLiteralHead(p: string, rest: string, s: string)
    requires Literal(p)
    ensures Match(p + rest, p + s) <==> Match(rest, s)
    decreases |p|
  {
    if p != [] {
      assert Literal(p[1..]) by {
        forall i | 0 <= i < |p[1..]| ensures p[1..][i] != '*' && p[1..][i] != '?' {
          assert p[1..][i] == p[i + 1];
        }
      }
      assert (p + rest)[0] == p[0] && (p + s)[0] == p[0];
      assert (p + rest)[1..] == p[1..] + rest && (p + s)[1..] == p[1..] + s;
      MatchLiteralHead(p[1..], rest, s);
    } else {
      assert p + rest == rest && p + s == s;
    }
  }

  /** The documented example: `*` before `*.txt` picks the names ending in `.txt`. */
  lemma TxtExample(s: string)
    ensures Match("*" + "*.txt", s) <==> EndsWith(s, ".txt")
  {
    assert "*" + "*.txt" == ['*', '*'] + ".txt";
    StarStar(".txt", s);
    MatchSuffix(".txt", s);
  }
}
