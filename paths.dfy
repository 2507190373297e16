// POSIX path strings as `os.path` (posixpath) manipulates them, and their
// resolution to a sequence of directory-entry names.

module PosixPath {
  import opened Wrappers
  import opened Strings
  import opened Seqs

  /** A resolved location: the entry names from the root down. */
  type Path = seq<string>

  /** A single directory-entry name. */
  predicate IsName(c: string) {
    c != "" && '/' !in c && c != "." && c != ".."
  }

  predicate IsAbs(s: string) {
    StartsWith(s, "/")
  }

  /** `os.path.join(a, b)` */
  function Join(a: string, b: string): string {
    if IsAbs(b) then b
    else if a == "" || EndsWith(a, "/") then a + b
    else a + "/" + b
  }

  /** `s.rfind(c)`: the last index holding `c`, or -1. */
  function RFind(s: string, c: char): (r: int)
    ensures -1 <= r < |s|
    ensures r >= 0 ==> s[r] == c
    ensures forall j :: r < j < |s| ==> s[j] != c
  {
    if s == [] then -1
    else if s[|s| - 1] == c then |s| - 1
    else RFind(s[..|s| - 1], c)
  }

  lemma RFindNone(s: string, c: char)
    requires c !in s
    ensures RFind(s, c) == -1
  {
  }

  /** Text without `c` appended after `a` leaves the last `c` where it was. */
  lemma {:induction false} RFindAppendNone(a: string, b: string, c: char)
    requires c !in b
    ensures RFind(a + b, c) == RFind(a, c)
    decreases |b|
  {
    if b == [] {
      assert a + b == a;
    } else {
      var b' := b[..|b| - 1];
      assert (a + b)[..|a + b| - 1] == a + b' && (a + b)[|a + b| - 1] == b[|b| - 1];
      assert c !in b' by {
        forall i | 0 <= i < |b'| ensures b'[i] != c {
          assert b'[i] == b[i];
        }
      }
      RFindAppendNone(a, b', c);
    }
  }

  /** The last `c` of `a + b` is the first character of `b` when no other `c` follows it. */
  lemma RFindAppendAt(a: string, b: string, c: char)
    requires b != [] && b[0] == c && c !in b[1..]
    ensures RFind(a + b, c) == |a|
  {
    var a1 := a + [c];
    RFindLast(a1, c);
    RFindAppendNone(a1, b[1..], c);
    assert b == [c] + b[1..];
    AppendThree(a, [c], b[1..]);
  }

  lemma RFindLast(s: string, c: char)
    requires s != [] && s[|s| - 1] == c
    ensures RFind(s, c) == |s| - 1
  {
  }

  lemma AppendThree(a: string, m: string, z: string)
    ensures a + (m + z) == (a + m) + z
  {
  }

  /** `os.path.basename(p)`: everything after the last slash. */
  function Basename(p: string): (r: string)
    ensures '/' !in r
    ensures EndsWith(p, r)
  {
    var i := RFind(p, '/') + 1;
    assert forall k :: 0 <= k < |p[i..]| ==> p[i..][k] == p[i + k];
    p[i..]
  }

  /** `s.rstrip('/')` */
  function RStripSlash(s: string): (r: string)
    ensures r <= s
    ensures r == [] || r[|r| - 1] != '/'
    ensures forall k :: |r| <= k < |s| ==> s[k] == '/'
  {
    if s != [] && s[|s| - 1] == '/' then RStripSlash(s[..|s| - 1]) else s
  }

  /** `os.path.dirname(p)`: the text up to the last slash, trailing slashes
      removed unless it is made of slashes only. */
  function Dirname(p: string): string {
    var head := p[..RFind(p, '/') + 1];
    if head != "" && RStripSlash(head) != "" then RStripSlash(head) else head
  }

  /** `os.path.splitext(p)`: the extension runs from the last dot of the final
      component, provided that component has a non-dot character before it. */
  function SplitExt(p: string): (r: (string, string))
    ensures r.0 + r.1 == p
    ensures r.1 == "" || (r.1[0] == '.' && '/' !in r.1 && '.' !in r.1[1..])
  {
    var sep := RFind(p, '/');
    var dot := RFind(p, '.');
    if dot > sep && exists k :: sep + 1 <= k < dot && p[k] != '.' then
      assert p[dot..][1..] == p[dot + 1..];
      assert forall k :: 0 <= k < |p[dot..]| ==> p[dot..][k] == p[dot + k];
      (p[..dot], p[dot..])
    else (p, "")
  }

  /** The extension part of `os.path.splitext`. */
  function Ext(p: string): string {
    SplitExt(p).1
  }

  /** A name made of a stem with a non-dot character and a dot-free suffix has that suffix as extension. */
  lemma ExtOfName(stem: string, e: string)
    requires '/' !in stem && '/' !in e && '.' !in e
    requires exists k :: 0 <= k < |stem| && stem[k] != '.'
    ensures SplitExt(stem + "." + e) == (stem, "." + e)
  {
    var p := stem + "." + e;
    RFindNone(p, '/');
    assert RFind(p, '.') == |stem| by {
      assert p[|stem|] == '.';
      forall j | |stem| < j < |p| ensures p[j] != '.' {
        assert p[j] == e[j - |stem| - 1];
      }
    }
    var k :| 0 <= k < |stem| && stem[k] != '.';
    assert p[k] != '.';
    assert p[..|stem|] == stem;
    assert p[|stem|..] == "." + e;
  }

  /** Text free of dots appended to a name without extension leaves it without one. */
  lemma ExtNoneAppend(name: string, x: string)
    requires '/' !in name + x && '.' !in x
    requires Ext(name) == ""
    ensures SplitExt(name + x) == (name + x, "")
  {
    var r := name + x;
    RFindNone(r, '/');
    RFindNone(name, '/');
    RFindAppendNone(name, x, '.');
    var dot := RFind(name, '.');
    assert !(exists k :: 0 <= k < dot && name[k] != '.');
    forall k | 0 <= k < dot ensures r[k] == '.' {
      assert r[k] == name[k];
    }
  }

  /** A stem ending in something other than a dot, followed by an extension. */
  lemma ExtAfterStem(stem: string, ext: string)
    requires '/' !in stem + ext
    requires ext != "" && ext[0] == '.' && '.' !in ext[1..]
    requires stem != "" && stem[|stem| - 1] != '.'
    ensures SplitExt(stem + ext) == (stem, ext)
  {
    var r := stem + ext;
    RFindNone(r, '/');
    RFindAppendAt(stem, ext, '.');
    assert r[|stem| - 1] != '.';
    assert r[..|stem|] == stem && r[|stem|..] == ext;
  }

  /** A name without a dot has no extension. */
  lemma ExtNoDot(s: string)
    requires '.' !in s
    ensures Ext(s) == ""
  {
    RFindNone(s, '.');
  }

  // ---------------------------------------------------------------- normpath

  /** One component of `os.path.normpath`'s loop. */
  function NormStep(abs: bool, acc: seq<string>, c: string): seq<string> {
    if c == "" || c == "." then acc
    else if c != ".." || (!abs && acc == []) || (acc != [] && acc[|acc| - 1] == "..") then acc + [c]
    else if acc != [] then acc[..|acc| - 1]
    else acc
  }

  function NormFold(abs: bool, cs: seq<string>): seq<string> {
    if cs == [] then [] else NormStep(abs, NormFold(abs, cs[..|cs| - 1]), cs[|cs| - 1])
  }

  /** Components kept by normalisation are names, or leading `..` of a relative path. */
  lemma {:induction false} NormFoldShape(abs: bool, cs: seq<string>)
    requires forall i :: 0 <= i < |cs| ==> '/' !in cs[i]
    ensures forall i :: 0 <= i < |NormFold(abs, cs)| ==>
              IsName(NormFold(abs, cs)[i]) || (!abs && NormFold(abs, cs)[i] == "..")
  {
    if cs != [] {
      NormFoldShape(abs, cs[..|cs| - 1]);
    }
  }

  function Slashes(k: nat): (r: string)
    ensures |r| == k && forall i :: 0 <= i < k ==> r[i] == '/'
  {
    seq(k, _ => '/')
  }

  /** `os.path.normpath(p)` */
  function NormPath(p: string): (r: string)
    ensures r != ""
  {
    if p == "" then "."
    else
      var k := if StartsWith(p, "//") && !StartsWith(p, "///") then 2
               else if StartsWith(p, "/") then 1 else 0;
      var r := Slashes(k) + Strings.JoinWith(NormFold(k > 0, Split(p, "/")), "/");
      if r == "" then "." else r
  }

  /** `os.path.abspath(p)` given the working directory's text. */
  function AbsPath(cwd: string, p: string): string {
    NormPath(if IsAbs(p) then p else Join(cwd, p))
  }

  /** Split pieces of a string never contain the separator. */
  lemma {:induction false} SplitNoSep(s: string, c: char)
    ensures forall i :: 0 <= i < |Split(s, [c])| ==> c !in Split(s, [c])[i]
    decreases |s|
  {
    FindCharIff(s, c);
    if c in s {
      var i := Find(s, [c]).value;
      assert s[..i + 1] == s[..i] + [c];
      FindCharIff(s[..i], c);
      forall j | 0 <= j < i ensures s[j] != c {
        assert !OccursAt(s, [c], j);
        assert s[j..j + 1] == [s[j]];
      }
      SplitNoSep(s[i + 1..], c);
    }
  }

  /** `normpath` leaves only plain names (and, in a relative path, leading `..`). */
  lemma NormPathComponents(p: string)
    ensures var abs := IsAbs(p);
            forall i :: 0 <= i < |NormFold(abs, Split(p, "/"))| ==>
              IsName(NormFold(abs, Split(p, "/"))[i]) || (!abs && NormFold(abs, Split(p, "/"))[i] == "..")
  {
    SplitNoSep(p, '/');
    NormFoldShape(IsAbs(p), Split(p, "/"));
  }

  // ---------------------------------------------------------------- resolution

  /** One component of the kernel's lookup: `..` climbs (not above the root), `.` and empty stay. */
  function ResolveStep(acc: Path, c: string): Path {
    if c == "" || c == "." then acc
    else if c == ".." then (if acc == [] then [] else acc[..|acc| - 1])
    else acc + [c]
  }

  function ResolveFold(base: Path, cs: seq<string>): Path {
    if cs == [] then base else ResolveStep(ResolveFold(base, cs[..|cs| - 1]), cs[|cs| - 1])
  }

  /** The location a path string names, relative to the working directory `cwd`. */
  function Resolve(cwd: Path, s: string): Path {
    ResolveFold(if IsAbs(s) then [] else cwd, Split(s, "/"))
  }

  /** The text of a location, as `os.getcwd()` reports it. */
  function PathString(p: Path): string {
    "/" + Strings.JoinWith(p, "/")
  }

  lemma {:induction false} ResolveFoldAppend(base: Path, cs: seq<string>, ds: seq<string>)
    ensures ResolveFold(base, cs + ds) == ResolveFold(ResolveFold(base, cs), ds)
    decreases |ds|
  {
    if ds != [] {
      assert (cs + ds)[..|cs + ds| - 1] == cs + ds[..|ds| - 1];
      assert (cs + ds)[|cs + ds| - 1] == ds[|ds| - 1];
      ResolveFoldAppend(base, cs, ds[..|ds| - 1]);
    } else {
      assert cs + ds == cs;
    }
  }

  lemma SplitSlashEnd(x: string)
    ensures Split(x + "/", "/") == Split(x, "/") + [""]
  {
    SplitAppend(x, "", '/');
    assert x + "/" == x + ['/'] + "";
    FindCharIff("", '/');
  }

  /** A trailing slash does not change the location. */
  lemma ResolveTrailingSlash(cwd: Path, x: string)
    requires x != ""
    ensures Resolve(cwd, x + "/") == Resolve(cwd, x)
  {
    SplitSlashEnd(x);
    assert IsAbs(x + "/") == IsAbs(x) by {
      assert (x + "/")[..1] == x[..1];
    }
    var base := if IsAbs(x) then [] else cwd;
    ResolveFoldAppend(base, Split(x, "/"), [""]);
    assert ResolveFold(ResolveFold(base, Split(x, "/")), [""]) == ResolveFold(base, Split(x, "/")) by {
      assert [""][..0] == [];
    }
  }

  lemma {:induction false} ResolveRStrip(cwd: Path, h: string)
    requires RStripSlash(h) != ""
    ensures Resolve(cwd, RStripSlash(h)) == Resolve(cwd, h)
    decreases |h|
  {
    if h != [] && h[|h| - 1] == '/' {
      var h' := h[..|h| - 1];
      ResolveRStrip(cwd, h');
      assert h == h' + "/";
      ResolveTrailingSlash(cwd, h');
    }
  }

  /** Joining a name descends one level. */
  lemma ResolveJoin(cwd: Path, d: string, f: string)
    requires IsName(f)
    ensures Resolve(cwd, Join(d, f)) == Resolve(cwd, d) + [f]
  {
    var j := Join(d, f);
    assert !IsAbs(f) by { assert f[0] != '/'; }
    FindCharIff(f, '/');
    SplitCharNone(f, '/');
    if d == "" {
      assert j == f;
      FindCharIff("", '/');
      SplitCharNone("", '/');
      assert ResolveFold(cwd, [""]) == cwd by { assert [""][..0] == []; }
      assert ResolveFold(cwd, [f]) == cwd + [f] by { assert [f][..0] == []; }
    } else {
      var x := if EndsWith(d, "/") then d[..|d| - 1] else d;
      assert d == x + "/" || d == x;
      assert j == x + ['/'] + f by {
        if EndsWith(d, "/") { assert d == x + "/"; }
      }
      SplitAppend(x, f, '/');
      var base := if IsAbs(d) then [] else cwd;
      assert IsAbs(j) == IsAbs(d) by {
        assert j[..1] == d[..1] || (x == "" && d == "/");
      }
      ResolveFoldAppend(base, Split(x, "/"), [f]);
      assert ResolveFold(ResolveFold(base, Split(x, "/")), [f]) == ResolveFold(base, Split(x, "/")) + [f] by {
        assert [f][..0] == [];
      }
      if EndsWith(d, "/") {
        SplitSlashEnd(x);
        ResolveFoldAppend(base, Split(x, "/"), [""]);
        assert ResolveFold(ResolveFold(base, Split(x, "/")), [""]) == ResolveFold(base, Split(x, "/")) by {
          assert [""][..0] == [];
        }
      }
    }
  }

  /** The directory of `join(o, c)` is `o` again, as a location. */
  lemma ResolveDirnameJoin(cwd: Path, o: string, c: string)
    requires IsName(c)
    ensures Resolve(cwd, Dirname(Join(o, c))) == Resolve(cwd, o)
  {
    var j := Join(o, c);
    assert !IsAbs(c) by { assert c[0] != '/'; }
    if o == "" {
      assert j == c;
      RFindNone(c, '/');
      assert Dirname(j) == "";
    } else {
      var head := if EndsWith(o, "/") then o else o + "/";
      assert j == head + c;
      assert RFind(j, '/') == |head| - 1 by {
        assert j[|head| - 1] == '/';
        forall k | |head| <= k < |j| ensures j[k] != '/' {
          assert j[k] == c[k - |head|];
        }
      }
      assert j[..|head|] == head;
      if head != o {
        ResolveTrailingSlash(cwd, o);
      }
      if RStripSlash(head) != "" {
        ResolveRStrip(cwd, head);
      }
    }
  }

  /** The final name of a joined path is the joined name. */
  lemma BasenameJoin(d: string, f: string)
    requires '/' !in f
    ensures Basename(Join(d, f)) == f
  {
    var j := Join(d, f);
    assert !IsAbs(f) by { if f != "" { assert f[0] != '/'; } }
    if d == "" {
      RFindNone(f, '/');
    } else {
      var head := if EndsWith(d, "/") then d else d + "/";
      assert j == head + f;
      assert RFind(j, '/') == |head| - 1 by {
        assert j[|head| - 1] == '/';
        forall k | |head| <= k < |j| ensures j[k] != '/' {
          assert j[k] == f[k - |head|];
        }
      }
    }
  }

  // ---------------------------------------------------------------- pathlib

  /** The components `pathlib` keeps of a path string: empty ones and `.` go. */
  predicate Kept(c: string) {
    c != "" && c != "."
  }

  function Parts(p: string): seq<string> {
    Filter(Split(p, "/"), Kept)
  }

  /** `Path(p).name`: the last kept component, or nothing. */
  function PureName(p: string): string {
    var cs := Parts(p);
    if cs == [] then "" else cs[|cs| - 1]
  }

  /** The location of `Path(p).parent`: every kept component but the last. */
  function PureParent(cwd: Path, p: string): Path {
    var cs := Parts(p);
    ResolveFold(if IsAbs(p) then [] else cwd, if cs == [] then [] else cs[..|cs| - 1])
  }

  /** Dropping the components the kernel's lookup ignores changes no location. */
  lemma {:induction false} ResolveFoldKept(base: Path, cs: seq<string>)
    ensures ResolveFold(base, Filter(cs, Kept)) == ResolveFold(base, cs)
    decreases |cs|
  {
    if cs != [] {
      var pre, c := cs[..|cs| - 1], cs[|cs| - 1];
      ResolveFoldKept(base, pre);
      var f := Filter(pre, Kept);
      if Kept(c) {
        assert Filter(cs, Kept) == f + [c];
        assert (f + [c])[..|f + [c]| - 1] == f;
      } else {
        assert Filter(cs, Kept) == f;
      }
    }
  }

  /** The split components before the last one. */
  function HeadParts(p: string): seq<string> {
    var i := RFind(p, '/');
    if i == -1 then [] else Split(p[..i], "/")
  }

  lemma NoCharAppend(a: string, b: string, c: char)
    requires c !in a && c !in b
    ensures c !in a + b
  {
  }

  /** A path with a slash is its head, the last slash, and its base name. */
  lemma BasenameCut(p: string)
    requires RFind(p, '/') >= 0
    ensures p == p[..RFind(p, '/')] + ['/'] + Basename(p)
  {
    var i := RFind(p, '/');
    assert p[i + 1..] == Basename(p);
    assert p == p[..i] + [p[i]] + p[i + 1..];
  }

  lemma SplitLastSlash(h: string, b: string)
    requires '/' !in b
    ensures Split(h + ['/'] + b, "/") == Split(h, "/") + [b]
  {
    SplitCharNone(b, '/');
    SplitAppend(h, b, '/');
  }

  /** Splitting at `/` ends with the base name, and text without a slash
      appended to the path is appended to that last component. */
  lemma SplitBasename(p: string, x: string)
    requires '/' !in x
    ensures Split(p, "/") == HeadParts(p) + [Basename(p)]
    ensures Split(p + x, "/") == HeadParts(p) + [Basename(p) + x]
  {
    var b := Basename(p);
    var i := RFind(p, '/');
    var bx := b + x;
    NoCharAppend(b, x, '/');
    if i == -1 {
      assert p == b && p + x == bx;
      SplitCharNone(b, '/');
      SplitCharNone(bx, '/');
    } else {
      var h := p[..i];
      BasenameCut(p);
      assert p + x == h + ['/'] + bx;
      SplitLastSlash(h, b);
      SplitLastSlash(h, bx);
    }
  }

  /** The location of a path ending in a plain name, and of that path with
      more of the name appended. */
  lemma ResolveBasename(cwd: Path, p: string, x: string)
    requires IsName(Basename(p)) && '/' !in x && |x| > 1
    ensures var base := if IsAbs(p) then [] else cwd;
            && Resolve(cwd, p) == ResolveFold(base, HeadParts(p)) + [Basename(p)]
            && Resolve(cwd, p + x) == ResolveFold(base, HeadParts(p)) + [Basename(p) + x]
  {
    var b := Basename(p);
    var bx := b + x;
    var hs := HeadParts(p);
    SplitBasename(p, x);
    NoCharAppend(b, x, '/');
    assert IsName(bx);
    assert p != "";
    assert IsAbs(p + x) == IsAbs(p) by {
      assert (p + x)[..1] == p[..1];
    }
    assert (hs + [b])[..|hs + [b]| - 1] == hs;
    assert (hs + [bx])[..|hs + [bx]| - 1] == hs;
  }

  /** `pathlib` keeps the base name of such a path as its last part. */
  lemma PartsBasename(p: string)
    requires IsName(Basename(p))
    ensures Parts(p) == Filter(HeadParts(p), Kept) + [Basename(p)]
  {
    SplitBasename(p, "");
    var hs := HeadParts(p);
    assert (hs + [Basename(p)])[..|hs + [Basename(p)]| - 1] == hs;
  }

  /** For a path whose last component is a plain name, `pathlib`'s name and
      parent agree with the resolved location, and text appended to the path
      names a sibling. */
  lemma PureSibling(cwd: Path, p: string, x: string)
    requires IsName(Basename(p)) && '/' !in x && |x| > 1
    ensures Resolve(cwd, p) != []
    ensures PureName(p) == Basename(p) == Resolve(cwd, p)[|Resolve(cwd, p)| - 1]
    ensures PureParent(cwd, p) == Resolve(cwd, p)[..|Resolve(cwd, p)| - 1]
    ensures Resolve(cwd, p + x) == PureParent(cwd, p) + [Basename(p) + x]
  {
    var base := if IsAbs(p) then [] else cwd;
    var hs := HeadParts(p);
    ResolveBasename(cwd, p, x);
    PartsBasename(p);
    ResolveFoldKept(base, hs);
    var ps := Parts(p);
    assert ps[..|ps| - 1] == Filter(hs, Kept);
  }

  /** The text of `s` before its first `/`. */
  function UpToSlash(s: string): (r: string)
    ensures r <= s && '/' !in r
    ensures r == s || s[|r|] == '/'
  {
    if s == [] || s[0] == '/' then [] else [s[0]] + UpToSlash(s[1..])
  }

  /** A slash-free name is read whole up to the separator that follows it. */
  lemma {:induction false} UpToSlashName(name: string, rest: string)
    requires '/' !in name && (rest == [] || rest[0] == '/')
    ensures UpToSlash(name + rest) == name
    decreases |name|
  {
    if name != [] {
      assert (name + rest)[0] == name[0];
      assert (name + rest)[1..] == name[1..] + rest;
      UpToSlashName(name[1..], rest);
    }
  }

  /** A text made only of slashes strips to nothing. */
  lemma {:induction false} RStripSlashAll(s: string)
    requires forall k :: 0 <= k < |s| ==> s[k] == '/'
    ensures RStripSlash(s) == ""
    decreases |s|
  {
    if s != [] {
      RStripSlashAll(s[..|s| - 1]);
    }
  }

  /** A home directory with its trailing slashes dropped and the rest of the
      path appended; an empty result stands for the root `/`. */
  function HomeJoin(home: string, rest: string): (r: string)
    ensures r != ""
  {
    var t := RStripSlash(home) + rest;
    if t == "" then "/" else t
  }

  /** `os.path.expanduser` on POSIX. The name between a leading `~` and the
      first `/` selects a home directory: none selects `home` (the `HOME`
      variable, or the user's own password entry when it is unset), any other
      the entry of `users` (the password database); an unknown name leaves the
      path as it is. The home loses its trailing slashes and an empty result
      is `/`. */
  function ExpandUser(home: string, users: map<string, string>, p: string): (r: string)
    ensures !StartsWith(p, "~") ==> r == p
    ensures p == "~" ==> r == (if RStripSlash(home) == "" then "/" else RStripSlash(home))
    ensures StartsWith(p, "~/") ==> r == RStripSlash(home) + p[1..]
    ensures p != "" ==> r != ""
  {
    if !StartsWith(p, "~") then p
    else
      var name := UpToSlash(p[1..]);
      var rest := p[1 + |name|..];
      if name == "" then HomeJoin(home, rest)
      else if name in users then HomeJoin(users[name], rest)
      else p
  }

  /** `~name` and `~name/...` expand to that user's home, or stay as typed
      when the password database has no such user. */
  lemma ExpandUserNamed(home: string, users: map<string, string>, name: string, rest: string)
    requires name != "" && '/' !in name && (rest == "" || rest[0] == '/')
    ensures ExpandUser(home, users, "~" + name + rest) ==
              if name in users then HomeJoin(users[name], rest) else "~" + name + rest
  {
    var p := "~" + name + rest;
    assert p[1..] == name + rest;
    UpToSlashName(name, rest);
    assert p[1 + |name|..] == rest;
  }
}
