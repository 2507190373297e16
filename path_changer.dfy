// `File_Path_Changer.py`: the three ways of moving files out of an origin
// folder (all of them, a numbered selection, one extension), each behind the
// same origin/destination prompt. The answers typed at the prompts are
// parameters; the menu loop is not part of this model.

module PathChanger {
  import opened Wrappers
  import opened Strings
  import opened Clock
  import opened PosixPath
  import opened FileSystem
  import opened Seqs
  import opened BasicFilePath
  import PathUtils

  // ---------------------------------------------------------------- the prompt

  /** The prompt at the head of all three functions: the checks of
      `basic_file_path()`, printing the same messages, without its logger. */
  function Prologue(s: Session, now: Moment, origin: string, destination: string): (r: (Answer, Session))
    ensures r.1.logged == s.logged
    ensures r.0 == NoPaths <==> Declines(s.fs, s.cwd, origin, destination)
    ensures r.0 == NoPaths ==> r.1.fs == s.fs && r.1.cwd == s.cwd
    ensures r.0.Paths? ==>
              && r.0 == Paths(origin, destination)
              && r.1.cwd == Resolve(s.cwd, origin) && IsDir(r.1.fs, r.1.cwd)
              && IsDirAt(r.1.fs, s.cwd, destination)
  {
    if IsCancelar(origin) then (NoPaths, s.(out := s.out + [Cancelled]))
    else if !Exists(s.fs, s.cwd, origin) then (NoPaths, s.(out := s.out + [Missing(origin)]))
    else if IsCancelar(destination) then (NoPaths, s.(out := s.out + [Cancelled]))
    else if AbsPath(PathString(s.cwd), origin) == AbsPath(PathString(s.cwd), destination) then
      (NoPaths, s.(out := s.out + [SameFolder]))
    else Prepare(s, now, origin, destination)
  }

  /** The two copies of the prompt agree on everything but the log records. */
  lemma PrologueAgrees(s: Session, now: Moment, origin: string, destination: string)
    ensures var a := BasicFilePath.BasicFilePath(s, now, origin, destination);
            var b := Prologue(s, now, origin, destination);
            a.0 == b.0 && a.1.(logged := s.logged) == b.1
  {
    if !Declines(s.fs, s.cwd, origin, destination) {
      var logged := s.logged + [OriginChosen(origin)] + [DestinationChosen(destination)];
      assert BasicFilePath.BasicFilePath(s, now, origin, destination) == Prepare(s.(logged := logged), now, origin, destination);
      PrepareIgnoresLog(s, now, origin, destination, logged);
    }
  }

  /** Preparing the folders neither reads nor writes the log records. */
  lemma PrepareIgnoresLog(s: Session, now: Moment, origin: string, destination: string, logged: seq<Record>)
    requires Exists(s.fs, s.cwd, origin)
    ensures Prepare(s.(logged := logged), now, origin, destination).0 == Prepare(s, now, origin, destination).0
    ensures Prepare(s.(logged := logged), now, origin, destination).1 == Prepare(s, now, origin, destination).1.(logged := logged)
  {
  }

  // ---------------------------------------------------------------- console messages

  /** The report printed for one file handed to `shutil.move`. */
  predicate MoveReport(line: Line, file: string) {
    line == Moved(file) || line == Failed(file)
  }

  // ---------------------------------------------------------------- one move

  /** `shutil.move(src, dst)` inside `try`: the move, or the error printed. */
  function MoveStep(s: Session, src: Path, dst: Path, file: string): (r: Session)
    ensures r.cwd == s.cwd && r.logged == s.logged
    ensures r.out == s.out + [if Move(s.fs, src, dst).Some? then Moved(file) else Failed(file)]
    ensures r.fs == if Move(s.fs, src, dst).Some? then Move(s.fs, src, dst).value else s.fs
  {
    match Move(s.fs, src, dst)
    case Some(fs1) => s.(fs := fs1, out := s.out + [Moved(file)])
    case None => s.(out := s.out + [Failed(file)])
  }

  /** A regular file that the move reports moved has left its place and lies,
      unchanged, at the move's target. */
  lemma MoveStepLands(s: Session, src: Path, dst: Path, file: string)
    requires IsFile(s.fs, src)
    ensures var r := MoveStep(s, src, dst, file);
            r.out[|s.out|] == Moved(file) ==>
              && IsFile(r.fs, MoveTarget(s.fs, src, dst))
              && r.fs[MoveTarget(s.fs, src, dst)] == s.fs[src]
              && (src != dst ==> src !in r.fs)
  {
    MoveFile(s.fs, src, dst);
  }

  /** A move takes nothing away outside the moved entry. */
  lemma MoveStepKeeps(s: Session, src: Path, dst: Path, file: string)
    ensures forall q :: q in s.fs && !(src <= q) ==> q in MoveStep(s, src, dst, file).fs
  {
    MoveKeepsOutside(s.fs, src, dst);
  }

  // ---------------------------------------------------------------- move_files

  /** One turn of the loop of `move_files`, with the origin and the
      destination taken as the folders the user named: a regular file is
      moved, anything else is reported and skipped. */
  function AllStep(s: Session, o: Path, d: Path, file: string): (r: Session)
    ensures !IsFile(s.fs, o + [file]) ==> r == s.(out := s.out + [Skipped(file)])
    ensures IsFile(s.fs, o + [file]) ==> r == MoveStep(s, o + [file], d + [file], file)
  {
    if IsFile(s.fs, o + [file]) then MoveStep(s, o + [file], d + [file], file)
    else s.(out := s.out + [Skipped(file)])
  }

  function AllLoop(s: Session, o: Path, d: Path, files: seq<string>): Session {
    if files == [] then s
    else AllStep(AllLoop(s, o, d, files[..|files| - 1]), o, d, files[|files| - 1])
  }

  /** The report of one turn of `move_files`. */
  predicate AllReport(line: Line, file: string) {
    MoveReport(line, file) || line == Skipped(file)
  }

  /** Every entry of the listing gets exactly one report, in listing order,
      whatever became of the entries before it. */
  lemma {:induction false} AllLoopReports(s: Session, o: Path, d: Path, files: seq<string>)
    ensures var r := AllLoop(s, o, d, files);
            && r.cwd == s.cwd && r.logged == s.logged
            && |r.out| == |s.out| + |files| && r.out[..|s.out|] == s.out
            && forall i :: 0 <= i < |files| ==> AllReport(r.out[|s.out| + i], files[i])
    decreases |files|
  {
    if files != [] {
      var pre := files[..|files| - 1];
      AllLoopReports(s, o, d, pre);
      var r0 := AllLoop(s, o, d, pre);
      var r := AllLoop(s, o, d, files);
      assert r.out == r0.out + [r.out[|r.out| - 1]];
      forall i | 0 <= i < |files| ensures AllReport(r.out[|s.out| + i], files[i]) {
        if i < |pre| {
          assert r.out[|s.out| + i] == r0.out[|s.out| + i];
        }
      }
    }
  }

  /** A listing without regular files leaves the tree as it was. */
  lemma {:induction false} AllLoopSkips(s: Session, o: Path, d: Path, files: seq<string>)
    requires forall i :: 0 <= i < |files| ==> !IsFile(s.fs, o + [files[i]])
    ensures AllLoop(s, o, d, files).fs == s.fs
    decreases |files|
  {
    if files != [] {
      var pre := files[..|files| - 1];
      assert forall i :: 0 <= i < |pre| ==> pre[i] == files[i];
      AllLoopSkips(s, o, d, pre);
    }
  }

  /** `move_files()` with its two answers, the origin and the destination
      resolved against the directory the prompt started in. The returned flag
      says whether an exception left the call. */
  function MoveFiles(s: Session, now: Moment, origin: string, destination: string): (r: (bool, Session))
    ensures Declines(s.fs, s.cwd, origin, destination) ==> !r.0 && r.1 == Prologue(s, now, origin, destination).1
    ensures Declines(s.fs, s.cwd, origin, destination) ==> r.1.fs == s.fs && r.1.cwd == s.cwd
    ensures r.0 <==> Prologue(s, now, origin, destination).0.Raised?
    ensures Prologue(s, now, origin, destination).0.Paths? ==>
              var p := Prologue(s, now, origin, destination).1;
              |r.1.out| == |p.out| + |ListDir(p.fs, p.cwd).value| && r.1.cwd == Resolve(s.cwd, origin)
  {
    var (a, s1) := Prologue(s, now, origin, destination);
    match a
    case NoPaths => (false, s1)
    case Raised => (true, s1)
    case Paths(_, _) =>
      var names := ListDir(s1.fs, s1.cwd).value;
      AllLoopReports(s1, s1.cwd, Resolve(s.cwd, destination), names);
      (false, AllLoop(s1, s1.cwd, Resolve(s.cwd, destination), names))
  }

  /** `move_files()`: the prompt, then the loop over the listing. */
  method MoveFilesIn(s: Session, now: Moment, origin: string, destination: string) returns (raised: bool, s': Session)
    ensures (raised, s') == MoveFiles(s, now, origin, destination)
  {
    var pr := Prologue(s, now, origin, destination);
    var a := pr.0;
    s' := pr.1;
    if a.NoPaths? {
      return false, s';
    }
    if a.Raised? {
      return true, s';
    }
    var names := ListDir(s'.fs, s'.cwd).value;
    s' := AllEach(s', s'.cwd, Resolve(s.cwd, destination), names);
    raised := false;
  }

  /** The loop of `move_files`. */
  method AllEach(s: Session, o: Path, d: Path, files: seq<string>) returns (r: Session)
    ensures r == AllLoop(s, o, d, files)
  {
    r := s;
    var i := 0;
    while i < |files|
      invariant 0 <= i <= |files|
      invariant r == AllLoop(s, o, d, files[..i])
    {
      InitOf(files, i);
      var src := o + [files[i]];
      if IsFile(r.fs, src) {
        var moved := Move(r.fs, src, d + [files[i]]);
        if moved.Some? {
          r := r.(fs := moved.value, out := r.out + [Moved(files[i])]);
        } else {
          r := r.(out := r.out + [Failed(files[i])]);
        }
      } else {
        r := r.(out := r.out + [Skipped(files[i])]);
      }
      i := i + 1;
    }
    assert files[..i] == files;
  }

  // ---------------------------------------------------------------- as written

  /** One turn of the loop of `move_files` as written: after `chdir(origin)`
      the source and the target are `join(origin, file)` and
      `join(destination, file)`, resolved against the new working directory. */
  function AsWrittenStep(s: Session, origin: string, destination: string, file: string): (r: Session)
    ensures !IsFileAt(s.fs, s.cwd, Join(origin, file)) ==> r == s.(out := s.out + [Skipped(file)])
  {
    if IsFileAt(s.fs, s.cwd, Join(origin, file)) then
      MoveStep(s, Resolve(s.cwd, Join(origin, file)), Resolve(s.cwd, Join(destination, file)), file)
    else s.(out := s.out + [Skipped(file)])
  }

  function AsWrittenLoop(s: Session, origin: string, destination: string, files: seq<string>): Session {
    if files == [] then s
    else AsWrittenStep(AsWrittenLoop(s, origin, destination, files[..|files| - 1]), origin, destination, files[|files| - 1])
  }

  /** `move_files()` as written. */
  function MoveFilesAsWritten(s: Session, now: Moment, origin: string, destination: string): (r: (bool, Session))
    ensures Declines(s.fs, s.cwd, origin, destination) ==> r.1.fs == s.fs
  {
    var (a, s1) := Prologue(s, now, origin, destination);
    match a
    case NoPaths => (false, s1)
    case Raised => (true, s1)
    case Paths(_, _) => (false, AsWrittenLoop(s1, origin, destination, ListDir(s1.fs, s1.cwd).value))
  }

  /** A plain name is found inside the working directory. */
  lemma ResolveName(cwd: Path, n: string)
    requires IsName(n)
    ensures Resolve(cwd, n) == cwd + [n]
  {
    ResolveJoin(cwd, "", n);
    assert Join("", n) == n by { assert n[0] != '/'; }
    SplitCharNone("", '/');
    assert ResolveFold(cwd, [""]) == cwd by { assert [""][..0] == []; }
  }

  /** As written, inside a relative origin `o` that has no sub-folder `o` of
      its own, `join(o, name)` is never a regular file. */
  lemma AsWrittenStepSkips(s: Session, origin: string, destination: string, file: string)
    requires FileSystem.Valid(s.fs) && IsName(origin) && s.cwd + [origin] !in s.fs && IsName(file)
    ensures AsWrittenStep(s, origin, destination, file) == s.(out := s.out + [Skipped(file)])
  {
    ResolveJoin(s.cwd, origin, file);
    ResolveName(s.cwd, origin);
    var p := s.cwd + [origin] + [file];
    assert Parent(p) == s.cwd + [origin];
  }

  /** One skip report per name, in order. */
  function SkipLines(files: seq<string>): (r: seq<Line>)
    ensures |r| == |files| && forall i :: 0 <= i < |files| ==> r[i] == Skipped(files[i])
  {
    if files == [] then [] else SkipLines(files[..|files| - 1]) + [Skipped(files[|files| - 1])]
  }

  /** As written, with a relative origin `o` that has no sub-folder `o` of its
      own, the loop moves nothing and reports every entry as skipped, in
      listing order. */
  lemma {:induction false} AsWrittenSkipsAll(s: Session, origin: string, destination: string, files: seq<string>)
    requires FileSystem.Valid(s.fs) && IsName(origin) && s.cwd + [origin] !in s.fs
    requires forall i :: 0 <= i < |files| ==> IsName(files[i])
    ensures AsWrittenLoop(s, origin, destination, files) == s.(out := s.out + SkipLines(files))
    decreases |files|
  {
    if files != [] {
      var pre := files[..|files| - 1];
      var f := files[|files| - 1];
      assert forall i :: 0 <= i < |pre| ==> pre[i] == files[i];
      AsWrittenSkipsAll(s, origin, destination, pre);
      var r0 := AsWrittenLoop(s, origin, destination, pre);
      AsWrittenStepSkips(r0, origin, destination, f);
      assert s.out + SkipLines(pre) + [Skipped(f)] == s.out + SkipLines(files);
    }
  }

  /** The folder the prompt starts in is `/work`, holding `src/a.txt`; the
      user has answered `src` and `dst`, `dst` has been created, and the
      process has moved into `src`. */
  function AfterPrompt(now: Moment): Session {
    Session(map[[] := Dir(now), ["work"] := Dir(now), ["work", "src"] := Dir(now),
                ["work", "dst"] := Dir(now), ["work", "src", "a.txt"] := File(3, now)],
            ["work", "src"], [], [])
  }

  lemma AfterPromptValid(now: Moment)
    ensures FileSystem.Valid(AfterPrompt(now).fs)
  {
    var fs := AfterPrompt(now).fs;
    assert Parent(["work"]) == [];
    assert Parent(["work", "src"]) == ["work"] && Parent(["work", "dst"]) == ["work"];
    assert Parent(["work", "src", "a.txt"]) == ["work", "src"];
    forall p | p in fs && p != [] ensures Parent(p) in fs && fs[Parent(p)].Dir? {
      assert p == ["work"] || p == ["work", "src"] || p == ["work", "dst"] || p == ["work", "src", "a.txt"];
    }
  }

  /** As written, the relative origin `src` makes the loop skip `a.txt`,
      which stays where it was. */
  lemma RelativeOriginSkipsFile(now: Moment)
    ensures var s := AfterPrompt(now);
            && AsWrittenLoop(s, "src", "dst", ["a.txt"]) == s.(out := [Skipped("a.txt")])
            && ["work", "src", "a.txt"] in AsWrittenLoop(s, "src", "dst", ["a.txt"]).fs
  {
    var s := AfterPrompt(now);
    AfterPromptValid(now);
    assert "src"[0] != '/' && "src"[1] != '/' && "src"[2] != '/';
    assert "a.txt"[0] != '/' && "a.txt"[1] != '/' && "a.txt"[2] != '/' && "a.txt"[3] != '/' && "a.txt"[4] != '/';
    assert IsName("src") && IsName("a.txt");
    assert s.cwd + ["src"] == ["work", "src", "src"];
    assert ["a.txt"][..0] == [];
    AsWrittenStepSkips(s, "src", "dst", "a.txt");
  }

  /** Taking the folders the user named, the same loop moves `a.txt` into `dst`. */
  lemma NamedFoldersMoveFile(now: Moment)
    ensures var r := AllLoop(AfterPrompt(now), ["work", "src"], ["work", "dst"], ["a.txt"]);
            && r.out == [Moved("a.txt")]
            && ["work", "dst", "a.txt"] in r.fs && ["work", "src", "a.txt"] !in r.fs
  {
    var s := AfterPrompt(now);
    var src: Path := ["work", "src", "a.txt"];
    var dst: Path := ["work", "dst", "a.txt"];
    assert ["work", "src"] + ["a.txt"] == src && ["work", "dst"] + ["a.txt"] == dst;
    assert ["a.txt"][..0] == [];
    assert IsFile(s.fs, src);
    assert Parent(dst) == ["work", "dst"];
    assert dst !in s.fs;
    MoveFile(s.fs, src, dst);
    assert MoveTarget(s.fs, src, dst) == dst;
  }

  // ---------------------------------------------------------------- move_selected_files

  /** `[f for f in os.listdir() if os.path.isfile(f)]` inside the origin. */
  function RegularFiles(s: Session): (r: seq<string>)
    requires IsDir(s.fs, s.cwd)
    ensures forall f :: f in r <==> s.cwd + [f] in s.fs && IsFileAt(s.fs, s.cwd, f)
  {
    Filter(ListDir(s.fs, s.cwd).value, f => IsFileAt(s.fs, s.cwd, f))
  }

  /** `int(x.strip())`; `None` where it raises `ValueError`. */
  function Token(x: string): Option<int> {
    PyInt(Strip(x))
  }

  /** The zero-based indices of readings that all succeeded, or `None`. */
  function AllRead(vals: seq<Option<int>>): (r: Option<seq<int>>)
    ensures r.Some? <==> forall i :: 0 <= i < |vals| ==> vals[i].Some?
    ensures r.Some? ==> |r.value| == |vals| && forall i :: 0 <= i < |vals| ==> r.value[i] == vals[i].value - 1
  {
    if vals == [] then Some([])
    else
      var pre := vals[..|vals| - 1];
      assert forall i :: 0 <= i < |pre| ==> pre[i] == vals[i];
      match AllRead(pre)
      case None => None
      case Some(vs) =>
        match vals[|vals| - 1]
        case None => None
        case Some(v) => Some(vs + [v - 1])
  }

  /** `[int(x.strip()) - 1 for x in tokens]`; `None` when any token is not an
      integer (the `ValueError` rejects the whole list). */
  function Indices(tokens: seq<string>): (r: Option<seq<int>>)
    ensures r.Some? <==> forall i :: 0 <= i < |tokens| ==> Token(tokens[i]).Some?
    ensures r.Some? ==> |r.value| == |tokens| && forall i :: 0 <= i < |tokens| ==> r.value[i] == Token(tokens[i]).value - 1
  {
    AllRead(Tokens(tokens))
  }

  /** The reading of every token. */
  function Tokens(tokens: seq<string>): (r: seq<Option<int>>)
    ensures |r| == |tokens| && forall i :: 0 <= i < |tokens| ==> r[i] == Token(tokens[i])
  {
    if tokens == [] then [] else Tokens(tokens[..|tokens| - 1]) + [Token(tokens[|tokens| - 1])]
  }

  /** The selection typed as `i,j,...`. */
  function Selection(selection: string): Option<seq<int>> {
    Indices(Split(selection, ","))
  }

  /** `str(k)` for each number. */
  function Numbers(ks: seq<nat>): seq<string> {
    seq(|ks|, i requires 0 <= i < |ks| => NatToString(ks[i]))
  }

  /** Numbers written out and joined with commas read back as the zero-based
      indices: each one less than the number shown. */
  lemma SelectionRoundTrip(ks: seq<nat>)
    requires ks != []
    ensures Selection(JoinWith(Numbers(ks), ",")) == Some(seq(|ks|, i requires 0 <= i < |ks| => ks[i] - 1))
  {
    var ns := Numbers(ks);
    NumbersFacts(ks);
    SplitJoinChar(ns, ',');
    assert Split(JoinWith(ns, ","), ",") == ns;
    IndicesOfNumbers(ks);
  }

  lemma NumbersFacts(ks: seq<nat>)
    ensures forall i :: 0 <= i < |ks| ==> ',' !in Numbers(ks)[i]
  {
    forall i | 0 <= i < |ks| ensures ',' !in Numbers(ks)[i] {
      NumberToken(ks[i]);
    }
  }

  lemma IndicesOfNumbers(ks: seq<nat>)
    ensures Indices(Numbers(ks)) == Some(seq(|ks|, i requires 0 <= i < |ks| => ks[i] - 1))
  {
    var ns := Numbers(ks);
    forall i | 0 <= i < |ns| ensures Token(ns[i]) == Some(ks[i] as int) {
      NumberToken(ks[i]);
    }
    var r := Indices(ns);
    assert r.Some?;
    assert r.value == seq(|ks|, i requires 0 <= i < |ks| => ks[i] as int - 1);
  }

  /** `str(k)` holds no comma and reads back as `k`. */
  lemma NumberToken(k: nat)
    ensures ',' !in NatToString(k) && Token(NatToString(k)) == Some(k as int)
  {
    var t := NatToString(k);
    assert ',' !in t by {
      forall j | 0 <= j < |t| ensures t[j] != ',' {
        assert IsDigit(t[j]);
      }
    }
    StripNoSpace(t);
    NatToStringValue(k);
  }

  /** One selected index: a file in range is moved, any other number is
      reported, as the number the user typed. */
  function SelectStep(s: Session, o: Path, d: Path, files: seq<string>, k: int): (r: Session)
    ensures !(0 <= k < |files|) ==> r == s.(out := s.out + [InvalidIndex(k + 1)])
    ensures 0 <= k < |files| ==> r == MoveStep(s, o + [files[k]], d + [files[k]], files[k])
  {
    if 0 <= k < |files| then MoveStep(s, o + [files[k]], d + [files[k]], files[k])
    else s.(out := s.out + [InvalidIndex(k + 1)])
  }

  function SelectLoop(s: Session, o: Path, d: Path, files: seq<string>, ks: seq<int>): Session {
    if ks == [] then s
    else SelectStep(SelectLoop(s, o, d, files, ks[..|ks| - 1]), o, d, files, ks[|ks| - 1])
  }

  /** Only selected files leave the tree: whatever is gone afterwards lies at
      or below the origin's entry for an index in range. */
  lemma {:induction false} SelectLoopLeaves(s: Session, o: Path, d: Path, files: seq<string>, ks: seq<int>)
    ensures var r := SelectLoop(s, o, d, files, ks);
            forall q :: q in s.fs && q !in r.fs ==>
              exists i :: 0 <= i < |ks| && 0 <= ks[i] < |files| && o + [files[ks[i]]] <= q
    decreases |ks|
  {
    if ks != [] {
      var pre := ks[..|ks| - 1];
      SelectLoopLeaves(s, o, d, files, pre);
      var r0 := SelectLoop(s, o, d, files, pre);
      var r := SelectLoop(s, o, d, files, ks);
      var k := ks[|ks| - 1];
      if 0 <= k < |files| {
        MoveStepKeeps(r0, o + [files[k]], d + [files[k]], files[k]);
      }
      forall q | q in s.fs && q !in r.fs
        ensures exists i :: 0 <= i < |ks| && 0 <= ks[i] < |files| && o + [files[ks[i]]] <= q
      {
        if q in r0.fs {
          assert 0 <= ks[|ks| - 1] < |files| && o + [files[ks[|ks| - 1]]] <= q;
        } else {
          var i :| 0 <= i < |pre| && 0 <= pre[i] < |files| && o + [files[pre[i]]] <= q;
          assert ks[i] == pre[i];
        }
      }
    }
  }

  /** `move_selected_files()` with its three answers. */
  function MoveSelected(s: Session, now: Moment, origin: string, destination: string, selection: string)
    : (r: (bool, Session))
    ensures Declines(s.fs, s.cwd, origin, destination) ==> !r.0 && r.1.fs == s.fs && r.1.cwd == s.cwd
    ensures r.0 <==> Prologue(s, now, origin, destination).0.Raised?
    ensures var (a, p) := Prologue(s, now, origin, destination);
            a.Paths? && (IsCancelar(selection) || Selection(selection).None?) ==>
              r.1 == p.(out := p.out + [if IsCancelar(selection) then Cancelled else InvalidInput])
  {
    var (a, s1) := Prologue(s, now, origin, destination);
    match a
    case NoPaths => (false, s1)
    case Raised => (true, s1)
    case Paths(_, _) =>
      if IsCancelar(selection) then (false, s1.(out := s1.out + [Cancelled]))
      else match Selection(selection)
        case None => (false, s1.(out := s1.out + [InvalidInput]))
        case Some(ks) => (false, SelectLoop(s1, s1.cwd, Resolve(s.cwd, destination), RegularFiles(s1), ks))
  }

  /** `move_selected_files()`: the prompt, the listing, then the loop over the
      parsed indices. */
  method MoveSelectedIn(s: Session, now: Moment, origin: string, destination: string, selection: string)
    returns (raised: bool, s': Session)
    ensures (raised, s') == MoveSelected(s, now, origin, destination, selection)
  {
    var pr := Prologue(s, now, origin, destination);
    var a := pr.0;
    s' := pr.1;
    if a.NoPaths? {
      return false, s';
    }
    if a.Raised? {
      return true, s';
    }
    var files := RegularFiles(s');
    if IsCancelar(selection) {
      return false, s'.(out := s'.out + [Cancelled]);
    }
    var ks := Selection(selection);
    if ks.None? {
      return false, s'.(out := s'.out + [InvalidInput]);
    }
    s' := SelectEach(s', s'.cwd, Resolve(s.cwd, destination), files, ks.value);
    raised := false;
  }

  /** The loop of `move_selected_files`. */
  method SelectEach(s: Session, o: Path, d: Path, files: seq<string>, ks: seq<int>) returns (r: Session)
    ensures r == SelectLoop(s, o, d, files, ks)
  {
    r := s;
    var i := 0;
    while i < |ks|
      invariant 0 <= i <= |ks|
      invariant r == SelectLoop(s, o, d, files, ks[..i])
    {
      InitOf(ks, i);
      var k := ks[i];
      if 0 <= k < |files| {
        var file := files[k];
        var moved := Move(r.fs, o + [file], d + [file]);
        if moved.Some? {
          r := r.(fs := moved.value, out := r.out + [Moved(file)]);
        } else {
          r := r.(out := r.out + [Failed(file)]);
        }
      } else {
        r := r.(out := r.out + [InvalidIndex(k + 1)]);
      }
      i := i + 1;
    }
    assert ks[..i] == ks;
  }

  // ---------------------------------------------------------------- move_selected_files as written

  /** The move of `move_selected_files` and `move_by_extension` as written
      (lines 112-113 and 195-196): after `chdir(origin)` the source and the
      target are `join(origin, file)` and `join(destination, file)`, resolved
      against the new working directory. */
  function RejoinedMove(s: Session, origin: string, destination: string, file: string): Session {
    MoveStep(s, Resolve(s.cwd, Join(origin, file)), Resolve(s.cwd, Join(destination, file)), file)
  }

  /** Inside a relative origin `o` that has no sub-folder `o` of its own, the
      re-joined source is missing, so the move fails and only its error is
      printed. */
  lemma RejoinedFails(s: Session, origin: string, destination: string, file: string)
    requires FileSystem.Valid(s.fs) && IsName(origin) && s.cwd + [origin] !in s.fs && IsName(file)
    ensures RejoinedMove(s, origin, destination, file) == s.(out := s.out + [Failed(file)])
  {
    ResolveJoin(s.cwd, origin, file);
    ResolveName(s.cwd, origin);
    var p := s.cwd + [origin] + [file];
    assert Parent(p) == s.cwd + [origin];
    assert p !in s.fs;
  }

  /** One selected index of `move_selected_files` as written. */
  function SelectStepAsWritten(s: Session, origin: string, destination: string, files: seq<string>, k: int)
    : (r: Session)
    ensures !(0 <= k < |files|) ==> r == s.(out := s.out + [InvalidIndex(k + 1)])
  {
    if 0 <= k < |files| then RejoinedMove(s, origin, destination, files[k])
    else s.(out := s.out + [InvalidIndex(k + 1)])
  }

  function SelectLoopAsWritten(s: Session, origin: string, destination: string, files: seq<string>,
                               ks: seq<int>): Session {
    if ks == [] then s
    else SelectStepAsWritten(SelectLoopAsWritten(s, origin, destination, files, ks[..|ks| - 1]),
                             origin, destination, files, ks[|ks| - 1])
  }

  /** `move_selected_files()` as written: the loop re-joins the origin and
      the destination inside the origin. */
  function MoveSelectedAsWritten(s: Session, now: Moment, origin: string, destination: string, selection: string)
    : (r: (bool, Session))
    ensures Declines(s.fs, s.cwd, origin, destination) ==> !r.0 && r.1.fs == s.fs
  {
    var (a, s1) := Prologue(s, now, origin, destination);
    match a
    case NoPaths => (false, s1)
    case Raised => (true, s1)
    case Paths(_, _) =>
      if IsCancelar(selection) then (false, s1.(out := s1.out + [Cancelled]))
      else match Selection(selection)
        case None => (false, s1.(out := s1.out + [InvalidInput]))
        case Some(ks) => (false, SelectLoopAsWritten(s1, origin, destination, RegularFiles(s1), ks))
  }

  /** The report of one selected index when its re-joined source is missing:
      a failed move for an index in range, an invalid index otherwise. */
  function SelectFailure(files: seq<string>, k: int): Line {
    if 0 <= k < |files| then Failed(files[k]) else InvalidIndex(k + 1)
  }

  /** The reports of the selected indices, in order. */
  function SelectFailures(files: seq<string>, ks: seq<int>): (r: seq<Line>)
    ensures |r| == |ks| && forall i :: 0 <= i < |ks| ==> r[i] == SelectFailure(files, ks[i])
  {
    if ks == [] then [] else SelectFailures(files, ks[..|ks| - 1]) + [SelectFailure(files, ks[|ks| - 1])]
  }

  /** One selected index, as written, inside a relative origin `o` that has
      no sub-folder `o` of its own. */
  lemma SelectStepFails(s: Session, origin: string, destination: string, files: seq<string>, k: int)
    requires FileSystem.Valid(s.fs) && IsName(origin) && s.cwd + [origin] !in s.fs
    requires forall i :: 0 <= i < |files| ==> IsName(files[i])
    ensures SelectStepAsWritten(s, origin, destination, files, k) == s.(out := s.out + [SelectFailure(files, k)])
  {
    if 0 <= k < |files| {
      RejoinedFails(s, origin, destination, files[k]);
    }
  }

  /** As written, with a relative origin `o` that has no sub-folder `o` of its
      own, no selected file moves and only the reports are printed. */
  lemma {:induction false} SelectAsWrittenFails(s: Session, origin: string, destination: string,
                                                files: seq<string>, ks: seq<int>)
    requires FileSystem.Valid(s.fs) && IsName(origin) && s.cwd + [origin] !in s.fs
    requires forall i :: 0 <= i < |files| ==> IsName(files[i])
    ensures SelectLoopAsWritten(s, origin, destination, files, ks) == s.(out := s.out + SelectFailures(files, ks))
    decreases |ks|
  {
    if ks != [] {
      var pre := ks[..|ks| - 1];
      var k := ks[|ks| - 1];
      SelectAsWrittenFails(s, origin, destination, files, pre);
      var r0 := SelectLoopAsWritten(s, origin, destination, files, pre);
      SelectStepFails(r0, origin, destination, files, k);
      assert s.out + SelectFailures(files, pre) + [SelectFailure(files, k)] == s.out + SelectFailures(files, ks);
    }
  }

  /** The moment `a.txt` is handed to `shutil.move` from the folders the user
      named, it reaches `dst`. */
  lemma NamedMove(now: Moment)
    ensures var r := MoveStep(AfterPrompt(now), ["work", "src", "a.txt"], ["work", "dst", "a.txt"], "a.txt");
            && r.out == [Moved("a.txt")]
            && ["work", "dst", "a.txt"] in r.fs && ["work", "src", "a.txt"] !in r.fs
  {
    var s := AfterPrompt(now);
    var src: Path := ["work", "src", "a.txt"];
    var dst: Path := ["work", "dst", "a.txt"];
    assert IsFile(s.fs, src);
    assert Parent(dst) == ["work", "dst"];
    assert dst !in s.fs;
    MoveFile(s.fs, src, dst);
    assert MoveTarget(s.fs, src, dst) == dst;
  }

  /** The plain names of the counterexample. */
  lemma CounterexampleNames()
    ensures IsName("src") && IsName("a.txt")
  {
    assert "src"[0] != '/' && "src"[1] != '/' && "src"[2] != '/';
    assert "a.txt"[0] != '/' && "a.txt"[1] != '/' && "a.txt"[2] != '/' && "a.txt"[3] != '/' && "a.txt"[4] != '/';
  }

  lemma SplitOne()
    ensures Split("1", ",") == ["1"]
  {
    assert ',' !in "1";
    SplitCharNone("1", ',');
  }

  lemma TokenOne()
    ensures Token("1") == Some(1)
  {
    assert NatToString(1) == "1";
    NumberToken(1);
  }

  /** The counterexample meets the conditions of the general lemmas: a
      well-formed tree, the plain relative origin `src` without a `src` of its
      own, and a listing of plain names. */
  lemma RelativeOriginSetup(now: Moment)
    ensures var s := AfterPrompt(now);
            && FileSystem.Valid(s.fs) && IsName("src") && s.cwd + ["src"] !in s.fs
            && forall i :: 0 <= i < |["a.txt"]| ==> IsName(["a.txt"][i])
  {
    AfterPromptValid(now);
    CounterexampleNames();
    assert AfterPrompt(now).cwd + ["src"] == ["work", "src", "src"];
  }

  /** The answer `1` selects the first file. */
  lemma SelectionOne()
    ensures Selection("1") == Some([0])
  {
    SplitOne();
    TokenOne();
    var r := Indices(["1"]);
    assert r.Some?;
    assert |r.value| == 1 && r.value[0] == 0;
    assert r.value == [0];
  }

  /** As written, selecting `a.txt` (typed `1`) from the relative origin `src`
      prints a failed move and leaves the file where it was. */
  lemma RelativeOriginFailsSelected(now: Moment)
    ensures Selection("1") == Some([0])
    ensures var s := AfterPrompt(now);
            && SelectLoopAsWritten(s, "src", "dst", ["a.txt"], [0]) == s.(out := [Failed("a.txt")])
            && ["work", "src", "a.txt"] in SelectLoopAsWritten(s, "src", "dst", ["a.txt"], [0]).fs
  {
    var s := AfterPrompt(now);
    SelectionOne();
    RelativeOriginSetup(now);
    SelectAsWrittenFails(s, "src", "dst", ["a.txt"], [0]);
    assert SelectFailures(["a.txt"], [0]) == [Failed("a.txt")];
  }

  /** Taking the folders the user named, the same selection moves `a.txt`
      into `dst`. */
  lemma NamedFoldersMoveSelected(now: Moment)
    ensures var r := SelectLoop(AfterPrompt(now), ["work", "src"], ["work", "dst"], ["a.txt"], [0]);
            && r.out == [Moved("a.txt")]
            && ["work", "dst", "a.txt"] in r.fs && ["work", "src", "a.txt"] !in r.fs
  {
    assert [0][..0] == [];
    assert ["work", "src"] + ["a.txt"] == ["work", "src", "a.txt"];
    assert ["work", "dst"] + ["a.txt"] == ["work", "dst", "a.txt"];
    NamedMove(now);
  }

  // ---------------------------------------------------------------- move_by_extension

  /** The extension typed (already lower-cased), with a dot put in front
      when it has none. */
  function Extension(typed: string): (r: string)
    ensures StartsWith(r, ".")
    ensures StartsWith(typed, ".") ==> r == typed
    ensures !StartsWith(typed, ".") ==> r == "." + typed
  {
    if StartsWith(typed, ".") then typed else "." + typed
  }

  /** `[f for f in files if f.lower().endswith(extension)]` */
  function Matching(files: seq<string>, extension: string): (r: seq<string>)
    ensures forall f :: f in r <==> f in files && EndsWith(Lower(f), extension)
  {
    Filter(files, f => EndsWith(Lower(f), extension))
  }

  /** A file named `stem.e` is matched by the answer `e` typed in any case,
      and by `.e` as well. */
  lemma TypedExtensionMatches(stem: string, e: string, typed: string)
    requires Lower(typed) == Lower(e) || Lower(typed) == Lower("." + e)
    requires e == [] || e[0] != '.'
    ensures EndsWith(Lower(stem + "." + e), Extension(Lower(typed)))
  {
    LowerDot(e);
    TypedExtension(e, typed);
    DottedSuffix(stem, e);
  }

  /** Lower-casing keeps a leading dot. */
  lemma LowerDot(e: string)
    ensures Lower("." + e) == "." + Lower(e)
  {
    assert forall i :: 0 <= i < |e| ==> Lower("." + e)[i + 1] == Lower(e)[i];
  }

  /** Both answers `e` and `.e` name the extension `.e`. */
  lemma TypedExtension(e: string, typed: string)
    requires Lower("." + e) == "." + Lower(e)
    requires Lower(typed) == Lower(e) || Lower(typed) == Lower("." + e)
    requires e == [] || e[0] != '.'
    ensures Extension(Lower(typed)) == "." + Lower(e)
  {
    if Lower(typed) == Lower(e) && e != [] {
      assert Lower(e)[0] != '.';
    }
  }

  /** `stem.e`, lower-cased, ends with `.e` lower-cased. */
  lemma DottedSuffix(stem: string, e: string)
    requires Lower("." + e) == "." + Lower(e)
    ensures EndsWith(Lower(stem + "." + e), "." + Lower(e))
  {
    var name := stem + "." + e;
    assert name[|name| - |e| - 1..] == "." + e;
    LowerSuffix(name, "." + e);
  }

  /** Every file whose `get_file_extension` is the extension asked for is
      among the matches, so this filter takes in at least what that helper
      would pick. */
  lemma FileExtensionMatches(files: seq<string>, f: string, typed: string)
    requires f in files && PathUtils.FileExtension(f) == Extension(Lower(typed))
    ensures f in Matching(files, Extension(Lower(typed)))
  {
  }

  function MatchLoop(s: Session, o: Path, d: Path, names: seq<string>): Session {
    if names == [] then s
    else
      var f := names[|names| - 1];
      MoveStep(MatchLoop(s, o, d, names[..|names| - 1]), o + [f], d + [f], f)
  }

  /** Every matching file gets one report, in order. */
  lemma {:induction false} MatchLoopReports(s: Session, o: Path, d: Path, names: seq<string>)
    ensures var r := MatchLoop(s, o, d, names);
            && |r.out| == |s.out| + |names| && r.out[..|s.out|] == s.out
            && forall i :: 0 <= i < |names| ==> MoveReport(r.out[|s.out| + i], names[i])
    decreases |names|
  {
    if names != [] {
      var pre := names[..|names| - 1];
      MatchLoopReports(s, o, d, pre);
      var r0 := MatchLoop(s, o, d, pre);
      var r := MatchLoop(s, o, d, names);
      assert r.out == r0.out + [r.out[|r.out| - 1]];
      forall i | 0 <= i < |names| ensures MoveReport(r.out[|s.out| + i], names[i]) {
        if i < |pre| {
          assert r.out[|s.out| + i] == r0.out[|s.out| + i];
        }
      }
    }
  }

  /** Only matching files leave the tree: whatever is gone afterwards lies at
      or below the origin's entry for one of them. */
  lemma {:induction false} MatchLoopLeaves(s: Session, o: Path, d: Path, names: seq<string>)
    ensures var r := MatchLoop(s, o, d, names);
            forall q :: q in s.fs && q !in r.fs ==> exists i :: 0 <= i < |names| && o + [names[i]] <= q
    decreases |names|
  {
    if names != [] {
      var pre := names[..|names| - 1];
      var f := names[|names| - 1];
      MatchLoopLeaves(s, o, d, pre);
      var r0 := MatchLoop(s, o, d, pre);
      var r := MatchLoop(s, o, d, names);
      MoveStepKeeps(r0, o + [f], d + [f], f);
      forall q | q in s.fs && q !in r.fs ensures exists i :: 0 <= i < |names| && o + [names[i]] <= q {
        if q in r0.fs {
          assert o + [names[|names| - 1]] <= q;
        } else {
          var i :| 0 <= i < |pre| && o + [pre[i]] <= q;
          assert names[i] == pre[i];
        }
      }
    }
  }

  /** What `move_by_extension()` does once inside the origin `p.cwd`, with
      the destination folder `d`: the extension asked for, the filter, the
      confirmation and the loop. */
  function ByExtension(p: Session, d: Path, typed: string, confirm: string): (r: Session)
    requires IsDir(p.fs, p.cwd)
    ensures IsCancelar(typed) ==> r == p.(out := p.out + [Cancelled])
    ensures !IsCancelar(typed) ==>
              var m := Matching(RegularFiles(p), Extension(Lower(typed)));
              && (m == [] ==> r == p.(out := p.out + [NoMatch(Extension(Lower(typed)))]))
              && (m != [] && Lower(confirm) != "s" ==> r == p.(out := p.out + [Cancelled]))
              && (m != [] && Lower(confirm) == "s" ==> |r.out| == |p.out| + |m|)
  {
    var typedLower := Lower(typed);
    CancelarLower(typed);
    if IsCancelar(typedLower) then p.(out := p.out + [Cancelled])
    else
      var ext := Extension(typedLower);
      var m := Matching(RegularFiles(p), ext);
      if m == [] then p.(out := p.out + [NoMatch(ext)])
      else if Lower(confirm) != "s" then p.(out := p.out + [Cancelled])
      else
        MatchLoopReports(p, p.cwd, d, m);
        MatchLoop(p, p.cwd, d, m)
  }

  /** `move_by_extension()` with its four answers. */
  function MoveByExtension(s: Session, now: Moment, origin: string, destination: string, typed: string,
                           confirm: string): (r: (bool, Session))
    ensures Declines(s.fs, s.cwd, origin, destination) ==> !r.0 && r.1.fs == s.fs && r.1.cwd == s.cwd
    ensures r.0 <==> Prologue(s, now, origin, destination).0.Raised?
    ensures var (a, p) := Prologue(s, now, origin, destination);
            a.Paths? ==> r.1 == ByExtension(p, Resolve(s.cwd, destination), typed, confirm)
  {
    var (a, s1) := Prologue(s, now, origin, destination);
    match a
    case NoPaths => (false, s1)
    case Raised => (true, s1)
    case Paths(_, _) => (false, ByExtension(s1, Resolve(s.cwd, destination), typed, confirm))
  }

  /** `move_by_extension()`: the prompt, then the rest inside the origin. */
  method MoveByExtensionIn(s: Session, now: Moment, origin: string, destination: string, typed: string,
                           confirm: string) returns (raised: bool, s': Session)
    ensures (raised, s') == MoveByExtension(s, now, origin, destination, typed, confirm)
  {
    var pr := Prologue(s, now, origin, destination);
    var a := pr.0;
    s' := pr.1;
    if a.NoPaths? {
      return false, s';
    }
    if a.Raised? {
      return true, s';
    }
    s' := ByExtensionIn(s', Resolve(s.cwd, destination), typed, confirm);
    raised := false;
  }

  /** The filter, the confirmation and the loop of `move_by_extension`. */
  method ByExtensionIn(p: Session, d: Path, typed: string, confirm: string) returns (r: Session)
    requires IsDir(p.fs, p.cwd)
    ensures r == ByExtension(p, d, typed, confirm)
  {
    var files := RegularFiles(p);
    var extension := Lower(typed);
    if IsCancelar(extension) {
      CancelarLower(typed);
      return p.(out := p.out + [Cancelled]);
    }
    if !StartsWith(extension, ".") {
      extension := "." + extension;
    }
    var m := Matching(files, extension);
    if m == [] {
      return p.(out := p.out + [NoMatch(extension)]);
    }
    if Lower(confirm) != "s" {
      return p.(out := p.out + [Cancelled]);
    }
    r := MatchEach(p, p.cwd, d, m);
  }

  /** The loop of `move_by_extension`. */
  method MatchEach(s: Session, o: Path, d: Path, names: seq<string>) returns (r: Session)
    ensures r == MatchLoop(s, o, d, names)
  {
    r := s;
    var i := 0;
    while i < |names|
      invariant 0 <= i <= |names|
      invariant r == MatchLoop(s, o, d, names[..i])
    {
      InitOf(names, i);
      var file := names[i];
      var moved := Move(r.fs, o + [file], d + [file]);
      if moved.Some? {
        r := r.(fs := moved.value, out := r.out + [Moved(file)]);
      } else {
        r := r.(out := r.out + [Failed(file)]);
      }
      i := i + 1;
    }
    assert names[..i] == names;
  }

  // ---------------------------------------------------------------- move_by_extension as written

  function MatchLoopAsWritten(s: Session, origin: string, destination: string, names: seq<string>): Session {
    if names == [] then s
    else RejoinedMove(MatchLoopAsWritten(s, origin, destination, names[..|names| - 1]),
                      origin, destination, names[|names| - 1])
  }

  /** The filter, the confirmation and the loop of `move_by_extension` as
      written, inside the origin `p.cwd`. */
  function ByExtensionAsWritten(p: Session, origin: string, destination: string, typed: string, confirm: string)
    : (r: Session)
    requires IsDir(p.fs, p.cwd)
    ensures IsCancelar(typed) ==> r == p.(out := p.out + [Cancelled])
    ensures !IsCancelar(typed) ==>
              var m := Matching(RegularFiles(p), Extension(Lower(typed)));
              && (m == [] ==> r == p.(out := p.out + [NoMatch(Extension(Lower(typed)))]))
              && (m != [] && Lower(confirm) != "s" ==> r == p.(out := p.out + [Cancelled]))
  {
    var typedLower := Lower(typed);
    CancelarLower(typed);
    if IsCancelar(typedLower) then p.(out := p.out + [Cancelled])
    else
      var ext := Extension(typedLower);
      var m := Matching(RegularFiles(p), ext);
      if m == [] then p.(out := p.out + [NoMatch(ext)])
      else if Lower(confirm) != "s" then p.(out := p.out + [Cancelled])
      else MatchLoopAsWritten(p, origin, destination, m)
  }

  /** `move_by_extension()` as written. */
  function MoveByExtensionAsWritten(s: Session, now: Moment, origin: string, destination: string, typed: string,
                                    confirm: string): (r: (bool, Session))
    ensures Declines(s.fs, s.cwd, origin, destination) ==> !r.0 && r.1.fs == s.fs
  {
    var (a, s1) := Prologue(s, now, origin, destination);
    match a
    case NoPaths => (false, s1)
    case Raised => (true, s1)
    case Paths(_, _) => (false, ByExtensionAsWritten(s1, origin, destination, typed, confirm))
  }

  /** One failed-move report per name, in order. */
  function FailLines(names: seq<string>): (r: seq<Line>)
    ensures |r| == |names| && forall i :: 0 <= i < |names| ==> r[i] == Failed(names[i])
  {
    if names == [] then [] else FailLines(names[..|names| - 1]) + [Failed(names[|names| - 1])]
  }

  /** As written, with a relative origin `o` that has no sub-folder `o` of its
      own, no matching file moves and each one reports a failed move. */
  lemma {:induction false} MatchAsWrittenFails(s: Session, origin: string, destination: string, names: seq<string>)
    requires FileSystem.Valid(s.fs) && IsName(origin) && s.cwd + [origin] !in s.fs
    requires forall i :: 0 <= i < |names| ==> IsName(names[i])
    ensures MatchLoopAsWritten(s, origin, destination, names) == s.(out := s.out + FailLines(names))
    decreases |names|
  {
    if names != [] {
      var pre := names[..|names| - 1];
      var f := names[|names| - 1];
      assert forall i :: 0 <= i < |pre| ==> IsName(pre[i]) by {
        forall i | 0 <= i < |pre| ensures IsName(pre[i]) { assert pre[i] == names[i]; }
      }
      MatchAsWrittenFails(s, origin, destination, pre);
      var r0 := MatchLoopAsWritten(s, origin, destination, pre);
      RejoinedFails(r0, origin, destination, f);
      assert FailLines(names) == FailLines(pre) + [Failed(f)];
      assert s.out + FailLines(pre) + [Failed(f)] == s.out + FailLines(names);
    }
  }

  /** As written, moving the `txt` files of the relative origin `src` prints
      a failed move for `a.txt` and leaves it where it was. */
  lemma RelativeOriginFailsExtension(now: Moment)
    ensures var s := AfterPrompt(now);
            && MatchLoopAsWritten(s, "src", "dst", ["a.txt"]) == s.(out := [Failed("a.txt")])
            && ["work", "src", "a.txt"] in MatchLoopAsWritten(s, "src", "dst", ["a.txt"]).fs
  {
    var s := AfterPrompt(now);
    RelativeOriginSetup(now);
    MatchAsWrittenFails(s, "src", "dst", ["a.txt"]);
    assert FailLines(["a.txt"]) == [Failed("a.txt")];
  }

  /** Taking the folders the user named, the same loop moves `a.txt` into `dst`. */
  lemma NamedFoldersMoveExtension(now: Moment)
    ensures var r := MatchLoop(AfterPrompt(now), ["work", "src"], ["work", "dst"], ["a.txt"]);
            && r.out == [Moved("a.txt")]
            && ["work", "dst", "a.txt"] in r.fs && ["work", "src", "a.txt"] !in r.fs
  {
    assert ["a.txt"][..0] == [];
    assert ["work", "src"] + ["a.txt"] == ["work", "src", "a.txt"];
    assert ["work", "dst"] + ["a.txt"] == ["work", "dst", "a.txt"];
    NamedMove(now);
  }
}
