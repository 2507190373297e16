// `FileOperations`: moving the files of one directory into another without
// reusing a name already there, timestamped backups kept beside a file or
// directory, and going back to the newest of them.

module CoreOperations {
  import opened Wrappers
  import opened Strings
  import opened Clock
  import opened PosixPath
  import opened FileSystem
  import opened Seqs
  import opened Sorting
  import opened Glob

  // ---------------------------------------------------------------- collision names

  /** `f"{base}_{timestamp}{ext}"` with `base, ext = os.path.splitext(name)`:
      the name a file takes when its own is already used at the destination. */
  function CollisionName(name: string, now: Moment): string {
    var (base, ext) := SplitExt(name);
    base + "_" + FormatCompact(now) + ext
  }

  /** The new name keeps the extension, carries the timestamp at the end of
      its stem, and is never the old name. */
  lemma CollisionNameShape(name: string, now: Moment)
    requires '/' !in name
    ensures var r := CollisionName(name, now);
            && SplitExt(r) == (SplitExt(name).0 + "_" + FormatCompact(now), SplitExt(name).1)
            && Ext(r) == Ext(name)
            && |r| == |name| + 16 && r != name
            && '/' !in r
  {
    var (base, ext) := SplitExt(name);
    var ts := FormatCompact(now);
    var stem := base + "_" + ts;
    var r := stem + ext;
    FormatCompactAvoids(now, '.');
    FormatCompactAvoids(now, '/');
    assert '/' !in base && '/' !in ext by {
      assert forall c :: c in base || c in ext ==> c in name;
    }
    assert '/' !in r;
    if ext == "" {
      assert base == name && r == stem;
      assert r == name + ("_" + ts);
      ExtNoneAppend(name, "_" + ts);
    } else {
      ExtAfterStem(stem, ext);
    }
  }

  // ---------------------------------------------------------------- move_files

  /** The parts `Path.glob` reads a pattern as: the text between slashes,
      without empty and `.` parts (Python 3.8 to 3.12). */
  function GlobParts(pat: string): seq<string> {
    Filter(Split(pat, "/"), (x: string) => x != "" && x != ".")
  }

  /** A part that holds `**` without being `**`, for which `Path.glob`
      raises `ValueError` before it yields anything. */
  predicate BadPart(x: string) {
    x != "**" && Contains(x, "**")
  }

  /** The names `move_files` walks through, `None` when `glob` raises.
      With a non-empty pattern `*<pattern>` is globbed: one part other than
      `**` selects the matching entries; `**` alone selects only
      directories, which the loop skips; patterns over several levels are
      left out. Without a pattern, the files `iterdir` lists. */
  function Candidates(fs: Fs, src: Path, names: seq<string>, pattern: Option<string>): (r: Option<seq<string>>)
    ensures pattern.None? || pattern.value == "" ==> r == Some(Filter(names, (n: string) => IsFile(fs, src + [n])))
    ensures pattern.Some? && pattern.value != "" ==>
              var parts := GlobParts("*" + pattern.value);
              (r.None? <==> exists i :: 0 <= i < |parts| && BadPart(parts[i]))
              && (r.Some? && r.value != [] ==> |parts| == 1 && parts[0] != "**")
  {
    if pattern.None? || pattern.value == "" then Some(Filter(names, (n: string) => IsFile(fs, src + [n])))
    else
      var parts := GlobParts("*" + pattern.value);
      if exists i :: 0 <= i < |parts| && BadPart(parts[i]) then None
      else if |parts| == 1 && parts[0] != "**" then Some(Filter(names, (n: string) => Match(parts[0], n)))
      else Some([])
  }

  /** A pattern without slashes is globbed as the one part `*<pattern>`. */
  lemma SlashFreeParts(p: string)
    requires '/' !in p
    ensures GlobParts("*" + p) == ["*" + p]
  {
    assert '/' !in "*" + p;
    SplitCharNone("*" + p, '/');
    assert "*" + p != "" && "*" + p != ".";
  }

  /** A slash-free pattern that starts with `*`, other than `*` itself,
      makes `glob` raise: `**` sits inside its only part. So does the
      example `*.txt` of the docstring. */
  lemma LeadingStarRaises(fs: Fs, src: Path, names: seq<string>, p: string)
    requires '/' !in p && StartsWith(p, "*") && p != "*"
    ensures Candidates(fs, src, names, Some(p)) == None
  {
    SlashFreeParts(p);
    var x := "*" + p;
    assert OccursAt(x, "**", 0) by {
      assert x[0..2] == "**";
    }
    assert BadPart(GlobParts(x)[0]);
  }

  /** The pattern `*` becomes `**`, which yields only directories: nothing
      is moved and `[]` comes back. */
  lemma BareStarMovesNothing(fs: Fs, cwd: Path, source: string, destination: string, now: Moment)
    ensures MoveFiles(fs, cwd, source, destination, Some("*"), now) == Transfer(fs, [])
  {
    SlashFreeParts("*");
    assert !BadPart("**");
  }

  /** A star in front of a text without `**` that does not start with a
      star makes no `**`. */
  lemma StarPrefixNoDouble(p: string)
    requires !StartsWith(p, "*") && !Contains(p, "**")
    ensures !Contains("*" + p, "**")
  {
    forall j ensures !OccursAt("*" + p, "**", j) {
      StarPrefixNoDoubleAt(p, j);
    }
  }

  lemma StarPrefixNoDoubleAt(p: string, j: int)
    requires !StartsWith(p, "*") && !Contains(p, "**")
    ensures !OccursAt("*" + p, "**", j)
  {
    var x := "*" + p;
    if j == 0 && 2 <= |x| {
      assert x[1] == p[0] && p[..1] == [p[0]];
    } else if j > 0 && j + 2 <= |x| {
      assert x[j..j + 2] == p[j - 1..j + 1];
      assert !OccursAt(p, "**", j - 1);
    }
  }

  /** A text without a star holds no `**`. */
  lemma StarFreeNoDouble(x: string)
    requires '*' !in x
    ensures !Contains(x, "**")
  {
    forall j ensures !OccursAt(x, "**", j) {
      if 0 <= j && j + 2 <= |x| {
        assert x[j..j + 2][0] == x[j];
      }
    }
  }

  /** A slash-free pattern that neither starts with `*` nor holds `**`
      selects exactly the listed names matching `*<pattern>`. */
  lemma PlainPatternSelects(fs: Fs, src: Path, names: seq<string>, p: string)
    requires '/' !in p && p != "" && !StartsWith(p, "*") && !Contains(p, "**")
    ensures var r := Candidates(fs, src, names, Some(p));
            r.Some? && forall n :: n in r.value <==> n in names && Match("*" + p, n)
  {
    SlashFreeParts(p);
    StarPrefixNoDouble(p);
    assert !BadPart(GlobParts("*" + p)[0]);
  }

  /** The extension pattern `.txt` selects exactly the `.txt` names, while
      the docstring's `*.txt` makes `glob` raise and moves nothing. */
  lemma TxtPatterns(fs: Fs, cwd: Path, source: string, destination: string, src: Path, names: seq<string>,
                    now: Moment)
    ensures var r := Candidates(fs, src, names, Some(".txt"));
            r.Some? && forall n :: n in r.value <==> n in names && EndsWith(n, ".txt")
    ensures Candidates(fs, src, names, Some("*.txt")) == None
    ensures MoveFiles(fs, cwd, source, destination, Some("*.txt"), now) == Transfer(fs, [])
  {
    StarFreeNoDouble(".txt");
    assert !StartsWith(".txt", "*") by { assert ".txt"[0] != "*"[0]; }
    PlainPatternSelects(fs, src, names, ".txt");
    forall n ensures Match("*" + ".txt", n) <==> EndsWith(n, ".txt") {
      MatchSuffix(".txt", n);
    }
    LeadingStarRaises(fs, src, names, "*.txt");
    forall src': Path, names': seq<string> ensures Candidates(fs, src', names', Some("*.txt")) == None {
      LeadingStarRaises(fs, src', names', "*.txt");
    }
  }

  /** Where a file named `n` goes in `dst`: under its own name, or under the
      timestamped one when something already has it. */
  function Destination(fs: Fs, dst: Path, n: string, now: Moment): Path {
    if dst + [n] in fs then dst + [CollisionName(n, now)] else dst + [n]
  }

  /** A taken name is never reused, and the chosen name keeps the extension. */
  lemma DestinationAvoidsTaken(fs: Fs, dst: Path, n: string, now: Moment)
    requires '/' !in n
    ensures var d := Destination(fs, dst, n, now);
            && d != [] && Parent(d) == dst && Ext(Last(d)) == Ext(n)
            && (dst + [n] in fs <==> d != dst + [n])
  {
    CollisionNameShape(n, now);
  }

  /** The loop's state: the tree and `moved_files`. */
  datatype Transfer = Transfer(fs: Fs, moved: seq<string>)

  /** One turn of the loop: a regular file is moved and its name recorded; a
      name that is not a file, or a move that raises, changes nothing. */
  function TransferStep(src: Path, dst: Path, now: Moment, st: Transfer, n: string): (r: Transfer)
    ensures r.moved == st.moved || r.moved == st.moved + [n]
    ensures r.moved == st.moved ==> r.fs == st.fs
    ensures r.moved != st.moved ==>
              var f := src + [n];
              var t := MoveTarget(st.fs, f, Destination(st.fs, dst, n, now));
              && IsFile(st.fs, f) && IsFile(r.fs, t) && r.fs[t] == st.fs[f]
              && forall q :: q != f && q != t ==> (q in st.fs <==> q in r.fs) && (q in st.fs ==> r.fs[q] == st.fs[q])
  {
    var f := src + [n];
    if !IsFile(st.fs, f) then st
    else
      var d := Destination(st.fs, dst, n, now);
      MoveFile(st.fs, f, d);
      match Move(st.fs, f, d)
      case None => st
      case Some(fs) => Transfer(fs, st.moved + [n])
  }

  function TransferLoop(src: Path, dst: Path, now: Moment, st: Transfer, names: seq<string>): (r: Transfer)
    ensures st.moved <= r.moved
  {
    if names == [] then st
    else TransferStep(src, dst, now, TransferLoop(src, dst, now, st, names[..|names| - 1]), names[|names| - 1])
  }

  /** `move_files(source_path, destination_path, file_pattern)`: the tree
      afterwards and the list it returns. */
  function MoveFiles(fs: Fs, cwd: Path, source: string, destination: string, pattern: Option<string>,
                     now: Moment): (r: Transfer)
    ensures !IsDirAt(fs, cwd, source) || !IsDirAt(fs, cwd, destination) ==> r == Transfer(fs, [])
  {
    if !Exists(fs, cwd, source) || !Exists(fs, cwd, destination) then Transfer(fs, [])
    else
      var src := Resolve(cwd, source);
      var dst := Resolve(cwd, destination);
      if !IsDir(fs, src) || !IsDir(fs, dst) then Transfer(fs, [])
      else match Candidates(fs, src, ListDir(fs, src).value, pattern)
        case None => Transfer(fs, [])
        case Some(files) => TransferLoop(src, dst, now, Transfer(fs, []), files)
  }

  /** Every recorded name is one of the walked names, recorded once when the
      walk has no repetitions. */
  lemma {:induction false} TransferLoopMoved(src: Path, dst: Path, now: Moment, fs: Fs, names: seq<string>)
    ensures var r := TransferLoop(src, dst, now, Transfer(fs, []), names);
            && |r.moved| <= |names|
            && (forall x :: x in r.moved ==> x in names)
            && (Distinct(names) ==> Distinct(r.moved))
    decreases |names|
  {
    if names != [] {
      var pre, n := names[..|names| - 1], names[|names| - 1];
      TransferLoopMoved(src, dst, now, fs, pre);
      var m := TransferLoop(src, dst, now, Transfer(fs, []), pre);
      assert names == pre + [n];
      if Distinct(names) {
        assert Distinct(pre) by {
          forall i, j | 0 <= i < j < |pre| ensures pre[i] != pre[j] {
            assert pre[i] == names[i] && pre[j] == names[j];
          }
        }
        assert n !in pre by {
          forall i | 0 <= i < |pre| ensures pre[i] != n {
            assert pre[i] == names[i];
          }
        }
        if TransferLoop(src, dst, now, Transfer(fs, []), names).moved != m.moved {
          DistinctAppend(m.moved, n);
        }
      }
    }
  }

  /** What `move_files` returns: names of entries of the source directory (of
      entries matching the one part globbed, when a pattern is given), each
      once, and nothing unless both paths are directories and `glob` does
      not raise. */
  lemma MoveFilesResult(fs: Fs, cwd: Path, source: string, destination: string, pattern: Option<string>,
                        now: Moment)
    ensures var r := MoveFiles(fs, cwd, source, destination, pattern, now);
            && (r.moved != [] ==> IsDirAt(fs, cwd, source) && IsDirAt(fs, cwd, destination))
            && Distinct(r.moved)
            && forall x :: x in r.moved ==>
                 && Resolve(cwd, source) + [x] in fs
                 && (pattern.Some? && pattern.value != "" ==>
                       var parts := GlobParts("*" + pattern.value);
                       && |parts| == 1 && parts[0] != "**" && !BadPart(parts[0]) && Match(parts[0], x)
                       && ('/' !in pattern.value ==> Match("*" + pattern.value, x)))
  {
    if IsDirAt(fs, cwd, source) && IsDirAt(fs, cwd, destination) {
      var src := Resolve(cwd, source);
      var names := ListDir(fs, src).value;
      var c := Candidates(fs, src, names, pattern);
      if c.Some? {
        WalkedMoved(fs, src, Resolve(cwd, destination), now, names, pattern);
        if pattern.Some? && pattern.value != "" && '/' !in pattern.value {
          SlashFreeParts(pattern.value);
        }
      }
    }
  }

  /** The names moved from the walked ones: listed, once each, and
      matching the one part globbed when a pattern is given. */
  lemma WalkedMoved(fs: Fs, src: Path, dst: Path, now: Moment, names: seq<string>, pattern: Option<string>)
    requires IsDir(fs, src) && names == ListDir(fs, src).value
    requires Candidates(fs, src, names, pattern).Some?
    ensures var r := TransferLoop(src, dst, now, Transfer(fs, []), Candidates(fs, src, names, pattern).value);
            && Distinct(r.moved)
            && forall x :: x in r.moved ==>
                 && src + [x] in fs
                 && (pattern.Some? && pattern.value != "" ==>
                       var parts := GlobParts("*" + pattern.value);
                       && |parts| == 1 && parts[0] != "**" && !BadPart(parts[0]) && Match(parts[0], x))
  {
    AscendingDistinct(names);
    var files := Candidates(fs, src, names, pattern).value;
    if pattern.Some? && pattern.value != "" {
      var parts := GlobParts("*" + pattern.value);
      if |parts| == 1 && parts[0] != "**" {
        FilterDistinct(names, (n: string) => Match(parts[0], n));
      }
    } else {
      FilterDistinct(names, (n: string) => IsFile(fs, src + [n]));
    }
    TransferLoopMoved(src, dst, now, fs, files);
  }

  /** The body of the loop. */
  method MoveOne(src: Path, dst: Path, now: Moment, st: Transfer, n: string) returns (r: Transfer)
    ensures r == TransferStep(src, dst, now, st, n)
  {
    var f := src + [n];
    if !IsFile(st.fs, f) {
      return st;
    }
    var d := dst + [n];
    if d in st.fs {
      d := dst + [CollisionName(n, now)];
    }
    var moved := Move(st.fs, f, d);
    if moved.None? {
      return st;
    }
    r := Transfer(moved.value, st.moved + [n]);
  }

  /** `move_files`, walking the listing once. */
  method MoveFilesIn(fs: Fs, cwd: Path, source: string, destination: string, pattern: Option<string>,
                     now: Moment) returns (fs': Fs, moved: seq<string>)
    ensures Transfer(fs', moved) == MoveFiles(fs, cwd, source, destination, pattern, now)
  {
    if !Exists(fs, cwd, source) || !Exists(fs, cwd, destination) {
      return fs, [];
    }
    var src := Resolve(cwd, source);
    var dst := Resolve(cwd, destination);
    if !IsDir(fs, src) || !IsDir(fs, dst) {
      return fs, [];
    }
    var globbed := Candidates(fs, src, ListDir(fs, src).value, pattern);
    if globbed.None? {
      return fs, [];
    }
    var files := globbed.value;
    var st := Transfer(fs, []);
    var i := 0;
    while i < |files|
      invariant 0 <= i <= |files|
      invariant st == TransferLoop(src, dst, now, Transfer(fs, []), files[..i])
    {
      InitOf(files, i);
      st := MoveOne(src, dst, now, st, files[i]);
      i := i + 1;
    }
    assert files[..i] == files;
    fs', moved := st.fs, st.moved;
  }

  // ---------------------------------------------------------------- backups

  /** What follows the original's name in its backup's: `.backup_<YYYYMMDD_HHMMSS>`. */
  function BackupSuffix(now: Moment): (r: string)
    ensures |r| == 23 && '/' !in r
    ensures r == ".backup_" + FormatCompact(now)
  {
    FormatCompactAvoids(now, '/');
    ".backup_" + FormatCompact(now)
  }

  /** `create_backup(path)`: `copy2` for a file and `copytree` for anything
      else, to `f"{path}.backup_{timestamp}"`; false for a missing path or
      when the copy raises. */
  function CreateBackup(fs: Fs, cwd: Path, path: string, now: Moment): (r: (Fs, bool))
    ensures !Exists(fs, cwd, path) ==> r == (fs, false)
    ensures !r.1 ==> r.0 == fs
    ensures r.1 && IsFile(fs, Resolve(cwd, path)) ==>
              var src := Resolve(cwd, path);
              var t := MoveTarget(fs, src, Resolve(cwd, path + BackupSuffix(now)));
              && IsFile(r.0, t) && r.0[t] == File(fs[src].size, now)
              && forall q :: q != t ==> (q in fs <==> q in r.0) && (q in fs ==> r.0[q] == fs[q])
    ensures r.1 && !IsFile(fs, Resolve(cwd, path)) ==>
              var src := Resolve(cwd, path);
              var b := Resolve(cwd, path + BackupSuffix(now));
              && IsDir(r.0, b)
              && b !in fs
              && forall p :: CopySource(fs, src, b, p) && fs[p].File? ==>
                   CopyDest(fs, src, b, p) in r.0 && r.0[CopyDest(fs, src, b, p)] == File(fs[p].size, now)
  {
    if !Exists(fs, cwd, path) then (fs, false)
    else
      var src := Resolve(cwd, path);
      var b := Resolve(cwd, path + BackupSuffix(now));
      var copied := if IsFile(fs, src) then CopyFile(fs, src, b, now) else CopyTree(fs, src, b, now, false);
      if copied.None? then (fs, false) else (copied.value, true)
  }

  /** In a well-formed tree the backup of a directory copies every file to
      its own place below the backup. */
  lemma CreateBackupTree(fs: Fs, cwd: Path, path: string, now: Moment, p: Path)
    requires FileSystem.Valid(fs)
    requires CreateBackup(fs, cwd, path, now).1 && !IsFile(fs, Resolve(cwd, path))
    requires CopySource(fs, Resolve(cwd, path), Resolve(cwd, path + BackupSuffix(now)), p) && fs[p].File?
    ensures var src := Resolve(cwd, path);
            var b := Resolve(cwd, path + BackupSuffix(now));
            var fs' := CreateBackup(fs, cwd, path, now).0;
            CopyTargetOf(src, b, p) in fs' && fs'[CopyTargetOf(src, b, p)] == File(fs[p].size, now)
  {
    CopyDestFresh(fs, Resolve(cwd, path), Resolve(cwd, path + BackupSuffix(now)), p);
  }

  /** The `glob` pattern of a path's backups: `f"{name}.backup_*"`. */
  function BackupPattern(path: string): string {
    PureName(path) + ".backup_*"
  }

  /** The locations of the names `ms` inside `dir`. */
  function Within(dir: Path, ms: seq<string>): (r: seq<Path>)
    ensures |r| == |ms| && forall i :: 0 <= i < |ms| ==> r[i] == dir + [ms[i]]
    ensures Distinct(ms) ==> Distinct(r)
    ensures forall b :: b in r <==> b != [] && Parent(b) == dir && Last(b) in ms
  {
    var r := seq(|ms|, i requires 0 <= i < |ms| => dir + [ms[i]]);
    assert forall i :: 0 <= i < |r| ==> Last(r[i]) == ms[i] && Parent(r[i]) == dir;
    forall b | b != [] && Parent(b) == dir && Last(b) in ms ensures b in r {
      assert b == dir + [Last(b)];
      var i :| 0 <= i < |ms| && ms[i] == Last(b);
      assert r[i] == b;
    }
    r
  }

  /** An entry directly inside a listed directory is there exactly when its name is listed. */
  lemma ListedChildren(fs: Fs, dir: Path, names: seq<string>)
    requires ListDir(fs, dir) == Some(names)
    ensures forall b :: b != [] && Parent(b) == dir ==> (b in fs <==> Last(b) in names)
  {
    forall b | b != [] && Parent(b) == dir ensures b in fs <==> Last(b) in names {
      assert b == dir + [Last(b)];
    }
  }

  /** `_get_backup_files(path)`: the entries of the parent directory whose
      names match the backup pattern, as locations. */
  function BackupFiles(fs: Fs, cwd: Path, path: string): (r: seq<Path>)
    ensures Distinct(r)
    ensures forall b :: b in r <==>
              && IsDir(fs, PureParent(cwd, path))
              && b in fs && b != [] && Parent(b) == PureParent(cwd, path) && Match(BackupPattern(path), Last(b))
  {
    var dir := PureParent(cwd, path);
    match ListDir(fs, dir)
    case None => []
    case Some(names) =>
      var ms := Filter(names, (n: string) => Match(BackupPattern(path), n));
      AscendingDistinct(names);
      FilterDistinct(names, (n: string) => Match(BackupPattern(path), n));
      ListedChildren(fs, dir, names);
      Within(dir, ms)
  }

  /** A successful backup leaves an entry at the backup's location, and the
      directory holding the original in place. */
  lemma BackupLeavesEntry(fs: Fs, cwd: Path, path: string, now: Moment)
    requires FileSystem.Valid(fs) && IsName(Basename(path))
    requires CreateBackup(fs, cwd, path, now).1
    ensures var fs' := CreateBackup(fs, cwd, path, now).0;
            var src := Resolve(cwd, path);
            && src != [] && Resolve(cwd, path + BackupSuffix(now)) in fs' && IsDir(fs', Parent(src))
  {
    var src := Resolve(cwd, path);
    var x := BackupSuffix(now);
    var b := Resolve(cwd, path + x);
    PureSibling(cwd, path, x);
    assert b == Parent(src) + [Basename(path) + x] && Parent(b) == Parent(src);
    assert IsDir(fs, Parent(src));
    if IsFile(fs, src) {
      var t := MoveTarget(fs, src, b);
      assert t == b || (t == b + [Basename(path)] && IsDir(fs, b));
      assert Parent(src) != t;
    } else {
      assert !IsCopyTarget(fs, src, b, Parent(src));
    }
  }

  /** The backup's name matches the pattern its original's backups are looked up by. */
  lemma BackupNameMatches(path: string, now: Moment)
    ensures Match(BackupPattern(path), PureName(path) + BackupSuffix(now))
  {
    var nm := PureName(path);
    MatchPrefix(nm + ".backup_", FormatCompact(now));
    assert nm + BackupSuffix(now) == (nm + ".backup_") + FormatCompact(now);
    assert BackupPattern(path) == (nm + ".backup_") + ['*'];
  }

  /** A backup taken of a path whose last component is a plain name is among
      the backups `_get_backup_files` finds for it afterwards. */
  lemma BackupListed(fs: Fs, cwd: Path, path: string, now: Moment)
    requires FileSystem.Valid(fs) && IsName(Basename(path))
    requires CreateBackup(fs, cwd, path, now).1
    ensures Resolve(cwd, path + BackupSuffix(now)) in BackupFiles(CreateBackup(fs, cwd, path, now).0, cwd, path)
  {
    var src := Resolve(cwd, path);
    var b := Resolve(cwd, path + BackupSuffix(now));
    PureSibling(cwd, path, BackupSuffix(now));
    BackupLeavesEntry(fs, cwd, path, now);
    BackupNameMatches(path, now);
    assert Last(b) == PureName(path) + BackupSuffix(now) && Parent(b) == PureParent(cwd, path);
  }

  // ---------------------------------------------------------------- revert_to_backup

  /** `os.path.getctime` of each backup, to the second. */
  function Ctimes(fs: Fs, bs: seq<Path>): (ks: seq<int>)
    requires forall b :: b in bs ==> b in fs
    ensures |ks| == |bs| && forall i :: 0 <= i < |bs| ==> ks[i] == Seconds(fs[bs[i]].ctime)
  {
    seq(|bs|, i requires 0 <= i < |bs| => Seconds(fs[bs[i]].ctime))
  }

  /** The backup the stable reverse sort by change time puts first: the first
      listed of those with the latest change time. */
  function Newest(fs: Fs, bs: seq<Path>): (r: nat)
    requires bs != [] && forall b :: b in bs ==> b in fs
    ensures r < |bs|
    ensures forall i :: 0 <= i < |bs| ==> Seconds(fs[bs[i]].ctime) <= Seconds(fs[bs[r]].ctime)
    ensures forall i :: 0 <= i < r ==> Seconds(fs[bs[i]].ctime) < Seconds(fs[bs[r]].ctime)
  {
    ArgMax(Ctimes(fs, bs))
  }

  /** `shutil.copy2(backup, target)` over an existing file. */
  function RestoreFile(fs: Fs, b: Path, t: Path, now: Moment): (r: (Fs, bool))
    requires IsFile(fs, t)
    ensures r.1 ==> IsFile(fs, b) && r.0 == fs[t := File(fs[b].size, now)]
    ensures !r.1 ==> r.0 == fs
  {
    match CopyFile(fs, b, t, now)
    case None => (fs, false)
    case Some(fs1) =>
      assert MoveTarget(fs, b, t) == t;
      assert fs1 == fs[t := File(fs[b].size, now)];
      (fs1, true)
  }

  /** `shutil.rmtree(target)` and then `shutil.copytree(backup, target)`; a
      failing copy leaves the target removed. */
  function RestoreTree(fs: Fs, b: Path, t: Path, now: Moment): (r: (Fs, bool))
    ensures r.1 ==> && IsDir(r.0, t)
                    && forall p :: CopySource(fs, b, t, p) && fs[p].File? ==>
                         CopyTargetOf(b, t, p) in r.0 && r.0[CopyTargetOf(b, t, p)] == File(fs[p].size, now)
    ensures !r.1 ==> r.0 == fs || (RmTree(fs, t).Some? && r.0 == RmTree(fs, t).value)
  {
    match RmTree(fs, t)
    case None => (fs, false)
    case Some(fs1) =>
      assert forall p :: CopySource(fs1, b, t, p) <==> CopySource(fs, b, t, p);
      match CopyTree(fs1, b, t, now, false)
      case None => (fs1, false)
      case Some(fs2) => (fs2, true)
  }

  /** `revert_to_backup(path)`: false for a missing path or one without
      backups; otherwise the newest backup is copied over a file with `copy2`,
      or replaces anything else through `rmtree` and then `copytree`. */
  function RevertToBackup(fs: Fs, cwd: Path, path: string, now: Moment): (r: (Fs, bool))
    ensures !Exists(fs, cwd, path) || BackupFiles(fs, cwd, path) == [] ==> r == (fs, false)
    ensures Exists(fs, cwd, path) && BackupFiles(fs, cwd, path) != [] ==>
              var t := Resolve(cwd, path);
              var bs := BackupFiles(fs, cwd, path);
              var b := bs[Newest(fs, bs)];
              r == if IsFile(fs, t) then RestoreFile(fs, b, t, now) else RestoreTree(fs, b, t, now)
  {
    if !Exists(fs, cwd, path) then (fs, false)
    else
      var bs := BackupFiles(fs, cwd, path);
      if bs == [] then (fs, false)
      else
        var b := bs[Newest(fs, bs)];
        var t := Resolve(cwd, path);
        if IsFile(fs, t) then RestoreFile(fs, b, t, now) else RestoreTree(fs, b, t, now)
  }

  /** A file's backup under a free name is a copy of it beside it. */
  lemma FileBackupShape(fs: Fs, cwd: Path, path: string, now: Moment)
    requires FileSystem.Valid(fs) && IsName(Basename(path)) && IsFileAt(fs, cwd, path)
    requires Resolve(cwd, path + BackupSuffix(now)) !in fs
    requires CreateBackup(fs, cwd, path, now).1
    ensures var t := Resolve(cwd, path);
            var bk := Resolve(cwd, path + BackupSuffix(now));
            && t != [] && bk != [] && bk != t && Parent(bk) == Parent(t)
            && CreateBackup(fs, cwd, path, now).0 == fs[bk := File(fs[t].size, now)]
            && IsDir(fs, Parent(t))
  {
    var t := Resolve(cwd, path);
    var x := BackupSuffix(now);
    var bk := Resolve(cwd, path + x);
    PureSibling(cwd, path, x);
    assert bk == Parent(t) + [Basename(path) + x] && Last(bk) != Last(t);
    assert MoveTarget(fs, t, bk) == bk;
  }

  /** A backup strictly newer than all the others is the one picked. */
  lemma NewestUnique(fs: Fs, bs: seq<Path>, bk: Path)
    requires bk in bs && forall b :: b in bs ==> b in fs
    requires forall b :: b in bs && b != bk ==> Seconds(fs[b].ctime) < Seconds(fs[bk].ctime)
    ensures bs[Newest(fs, bs)] == bk
  {
    var k := Newest(fs, bs);
    var j :| 0 <= j < |bs| && bs[j] == bk;
    assert Seconds(fs[bs[j]].ctime) <= Seconds(fs[bs[k]].ctime);
  }

  /** Copying a file backup over a file in a directory succeeds. */
  lemma RestoreFileSucceeds(fs: Fs, b: Path, t: Path, now: Moment)
    requires IsFile(fs, t) && IsFile(fs, b) && b != t && b != [] && t != [] && IsDir(fs, Parent(t))
    ensures RestoreFile(fs, b, t, now) == (fs[t := File(fs[b].size, now)], true)
  {
    assert MoveTarget(fs, b, t) == t;
    assert b != [] && !IsDir(fs, t);
    assert CopyFile(fs, b, t, now) == Some(fs[t := File(fs[b].size, now)]);
  }

  /** Reverting a file whose newest backup is a file copies that backup over it. */
  lemma RevertFileFromNewest(fs: Fs, cwd: Path, path: string, bk: Path, later: Moment)
    requires IsFileAt(fs, cwd, path) && IsFile(fs, bk) && bk != Resolve(cwd, path) && Resolve(cwd, path) != []
    requires IsDir(fs, Parent(Resolve(cwd, path)))
    requires bk in BackupFiles(fs, cwd, path)
    requires BackupFiles(fs, cwd, path)[Newest(fs, BackupFiles(fs, cwd, path))] == bk
    ensures RevertToBackup(fs, cwd, path, later) == (fs[Resolve(cwd, path) := File(fs[bk].size, later)], true)
  {
    var t := Resolve(cwd, path);
    var bs := BackupFiles(fs, cwd, path);
    assert Exists(fs, cwd, path) && bs != [];
    assert RevertToBackup(fs, cwd, path, later) == RestoreFile(fs, bk, t, later);
    RestoreFileSucceeds(fs, bk, t, later);
  }

  /** Backing a file up and reverting straight away brings back its size:
      the fresh backup is the newest one when every other backup is older. */
  lemma BackupThenRevert(fs: Fs, cwd: Path, path: string, now: Moment, later: Moment)
    requires FileSystem.Valid(fs) && IsName(Basename(path)) && IsFileAt(fs, cwd, path)
    requires Resolve(cwd, path + BackupSuffix(now)) !in fs
    requires CreateBackup(fs, cwd, path, now).1
    requires var fs' := CreateBackup(fs, cwd, path, now).0;
             forall b :: b in BackupFiles(fs', cwd, path) && b != Resolve(cwd, path + BackupSuffix(now)) ==>
               Seconds(fs'[b].ctime) < Seconds(now)
    ensures var fs' := CreateBackup(fs, cwd, path, now).0;
            var t := Resolve(cwd, path);
            RevertToBackup(fs', cwd, path, later) == (fs'[t := File(fs[t].size, later)], true)
  {
    var fs' := CreateBackup(fs, cwd, path, now).0;
    var t := Resolve(cwd, path);
    var bk := Resolve(cwd, path + BackupSuffix(now));
    FileBackupShape(fs, cwd, path, now);
    BackupListed(fs, cwd, path, now);
    NewestUnique(fs', BackupFiles(fs', cwd, path), bk);
    assert IsFile(fs', t) && IsFile(fs', bk) && IsDir(fs', Parent(t));
    RevertFileFromNewest(fs', cwd, path, bk, later);
  }

  /** The sort's first element, found by one scan over the change times. */
  method NewestIn(fs: Fs, bs: seq<Path>) returns (best: nat)
    requires bs != [] && forall b :: b in bs ==> b in fs
    ensures best == Newest(fs, bs)
  {
    var ks := Ctimes(fs, bs);
    best := 0;
    var i := 1;
    while i < |bs|
      invariant 1 <= i <= |bs|
      invariant best == ArgMax(ks[..i])
    {
      ArgMaxNext(ks, i);
      if ks[i] > ks[best] {
        best := i;
      }
      i := i + 1;
    }
    assert ks[..i] == ks;
  }

  /** `revert_to_backup(path)`, scanning the backups once for the newest. */
  method RevertToBackupIn(fs: Fs, cwd: Path, path: string, now: Moment) returns (fs': Fs, ok: bool)
    ensures (fs', ok) == RevertToBackup(fs, cwd, path, now)
  {
    if !Exists(fs, cwd, path) {
      return fs, false;
    }
    var bs := BackupFiles(fs, cwd, path);
    if bs == [] {
      return fs, false;
    }
    var best := NewestIn(fs, bs);
    var b := bs[best];
    var t := Resolve(cwd, path);
    if IsFile(fs, t) {
      var copied := CopyFile(fs, b, t, now);
      if copied.None? {
        return fs, false;
      }
      return copied.value, true;
    }
    var removed := RmTree(fs, t);
    if removed.None? {
      return fs, false;
    }
    var copied := CopyTree(removed.value, b, t, now, false);
    if copied.None? {
      return removed.value, false;
    }
    fs', ok := copied.value, true;
  }
}
