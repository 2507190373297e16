// The category moves of the `onlyfiles` FileManager: `move_files_by_type`
// gathers the files ending with one of a category's extensions into its
// folder, `move_other_files` gathers those no category claims.

module ManagerMoves {
  import opened Wrappers
  import opened Strings
  import opened Clock
  import opened PosixPath
  import opened FileSystem
  import opened OnlyFilesLogger
  import opened FileTypes
  import opened ManagerCore

  /** The state the move loops carry: the world, the `found_files` flag, and
      whether an exception has left the loop (what follows is then skipped). */
  datatype Run = Run(w: World, found: bool, raised: bool)

  /** `file.endswith(ext)` for some `ext` of the list (case-sensitive). */
  predicate Matches(file: string, exts: seq<string>) {
    exists i :: 0 <= i < |exts| && EndsWith(file, exts[i])
  }

  /** The index the inner loop breaks at: the first extension the name ends with. */
  function FirstMatch(file: string, exts: seq<string>): (r: Option<nat>)
    ensures r.None? <==> !Matches(file, exts)
    ensures r.Some? ==> r.value < |exts| && EndsWith(file, exts[r.value])
                        && forall j :: 0 <= j < r.value ==> !EndsWith(file, exts[j])
  {
    if exts == [] then None
    else if EndsWith(file, exts[0]) then Some(0)
    else match FirstMatch(file, exts[1..])
      case None =>
        assert forall i :: 1 <= i < |exts| ==> exts[i] == exts[1..][i - 1];
        None
      case Some(k) => Some(k + 1)
  }

  /** Whether the loop body considers `file` at all: not the destination
      folder's own name, and a regular file. */
  predicate Candidate(w: World, origin: string, dest: string, file: string) {
    file != Basename(dest) && IsFileAt(w.fs, w.cwd, Join(origin, file))
  }

  // ---------------------------------------------------------------- by type

  /** One turn of `move_files_by_type`'s loop. The destination is created
      (again) before the first move; a failure there raises out of the loop. */
  function ByTypeStep(cfg: Config, now: Moment, origin: string, dest: string, exts: seq<string>,
                      run: Run, file: string): (r: Run)
    ensures !run.raised && Candidate(run.w, origin, dest, file) && Matches(file, exts)
            && (run.found || MakeDirsAt(run.w, now, dest).Some?) ==>
              var w1 := if run.found then run.w else MakeDirsAt(run.w, now, dest).value;
              r == Run(MoveOne(cfg, now, w1, origin, dest, file).1, true, false)
    ensures run.raised || !Candidate(run.w, origin, dest, file) || !Matches(file, exts) ==> r == run
    ensures r.w.cwd == run.w.cwd && |run.w.log| <= |r.w.log|
  {
    if run.raised || !Candidate(run.w, origin, dest, file) || FirstMatch(file, exts).None? then run
    else if run.found then Run(MoveOne(cfg, now, run.w, origin, dest, file).1, true, false)
    else match MakeDirsAt(run.w, now, dest)
      case None => run.(raised := true)
      case Some(w1) => Run(MoveOne(cfg, now, w1, origin, dest, file).1, true, false)
  }

  /** The loop over the listing. */
  function ByTypeLoop(cfg: Config, now: Moment, origin: string, dest: string, exts: seq<string>,
                      run: Run, files: seq<string>): (r: Run)
    ensures r.w.cwd == run.w.cwd && |run.w.log| <= |r.w.log|
  {
    if files == [] then run
    else ByTypeStep(cfg, now, origin, dest, exts, ByTypeLoop(cfg, now, origin, dest, exts, run, files[..|files| - 1]),
                    files[|files| - 1])
  }

  /** Names that end with none of the extensions pass through the loop untouched. */
  lemma {:induction false} ByTypeLoopNoMatch(cfg: Config, now: Moment, origin: string, dest: string,
                                             exts: seq<string>, run: Run, files: seq<string>)
    requires forall i :: 0 <= i < |files| ==> !Matches(files[i], exts)
    ensures ByTypeLoop(cfg, now, origin, dest, exts, run, files) == run
    decreases |files|
  {
    if files != [] {
      ByTypeLoopNoMatch(cfg, now, origin, dest, exts, run, files[..|files| - 1]);
    }
  }

  /** Once raised, the rest of the loop does nothing. */
  lemma {:induction false} ByTypeLoopRaised(cfg: Config, now: Moment, origin: string, dest: string,
                                            exts: seq<string>, run: Run, files: seq<string>)
    requires run.raised
    ensures ByTypeLoop(cfg, now, origin, dest, exts, run, files) == run
    decreases |files|
  {
    if files != [] {
      ByTypeLoopRaised(cfg, now, origin, dest, exts, run, files[..|files| - 1]);
    }
  }

  /** After the loop has raised, the rest of the listing changes nothing. */
  lemma {:induction false} ByTypeLoopStops(cfg: Config, now: Moment, origin: string, dest: string,
                                           exts: seq<string>, run: Run, files: seq<string>, i: nat)
    requires i <= |files| && ByTypeLoop(cfg, now, origin, dest, exts, run, files[..i]).raised
    ensures ByTypeLoop(cfg, now, origin, dest, exts, run, files) == ByTypeLoop(cfg, now, origin, dest, exts, run, files[..i])
    decreases |files|
  {
    if i == |files| {
      assert files[..i] == files;
    } else {
      var pre := files[..|files| - 1];
      assert pre[..i] == files[..i];
      ByTypeLoopStops(cfg, now, origin, dest, exts, run, pre, i);
    }
  }

  /** `move_files_by_type(origin, dest, exts)`: the final world, and whether
      an exception left the call. */
  function MoveFilesByType(cfg: Config, now: Moment, w: World, origin: string, dest: string,
                           exts: seq<string>): (r: (World, bool))
    ensures r.0.cwd == w.cwd
    ensures !ValidatePaths(cfg, now, w, origin, dest).0 ==> r == (ValidatePaths(cfg, now, w, origin, dest).1, false)
    ensures ValidatePaths(cfg, now, w, origin, dest).0 ==>
              var w1 := ValidatePaths(cfg, now, w, origin, dest).1;
              var (files, w2) := ListFiles(cfg, now, w1, origin);
              r == (if files == [] then (w2, false)
                    else var run := ByTypeLoop(cfg, now, origin, dest, exts, Run(w2, false, false), files);
                         (run.w, run.raised))
  {
    var (ok, w1) := ValidatePaths(cfg, now, w, origin, dest);
    if !ok then (w1, false)
    else
      var (files, w2) := ListFiles(cfg, now, w1, origin);
      if files == [] then (w2, false)
      else
        var run := ByTypeLoop(cfg, now, origin, dest, exts, Run(w2, false, false), files);
        (run.w, run.raised)
  }

  // ---------------------------------------------------------------- others

  /** Every extension of the table, lower-cased. */
  function KnownExtensions(t: Table): (r: set<string>)
    ensures forall x :: x in r <==> exists i, k :: 0 <= i < |t| && 0 <= k < |t[i].1| && x == Lower(t[i].1[k])
  {
    if t == [] then {}
    else
      var rest := KnownExtensions(t[..|t| - 1]);
      var exts := t[|t| - 1].1;
      var last := set k | 0 <= k < |exts| :: Lower(exts[k]);
      assert forall i :: 0 <= i < |t| - 1 ==> t[..|t| - 1][i] == t[i];
      rest + last
  }

  /** One turn of `move_other_files`' loop: a regular file whose lower-cased
      extension no category lists is moved. */
  function OtherStep(cfg: Config, now: Moment, origin: string, dest: string, known: set<string>,
                     w: World, file: string): (r: World)
    ensures Candidate(w, origin, dest, file) && Lower(Ext(file)) !in known ==>
              r == MoveOne(cfg, now, w, origin, dest, file).1
    ensures !Candidate(w, origin, dest, file) || Lower(Ext(file)) in known ==> r == w
    ensures r.cwd == w.cwd
  {
    if Candidate(w, origin, dest, file) && Lower(Ext(file)) !in known then
      MoveOne(cfg, now, w, origin, dest, file).1
    else w
  }

  function OtherLoop(cfg: Config, now: Moment, origin: string, dest: string, known: set<string>,
                     w: World, files: seq<string>): (r: World)
    ensures r.cwd == w.cwd
  {
    if files == [] then w
    else OtherStep(cfg, now, origin, dest, known, OtherLoop(cfg, now, origin, dest, known, w, files[..|files| - 1]),
                   files[|files| - 1])
  }

  /** `move_other_files(origin, dest, table)` */
  function MoveOtherFiles(cfg: Config, now: Moment, w: World, origin: string, dest: string,
                          t: Table): (r: World)
    ensures r.cwd == w.cwd
    ensures !ValidatePaths(cfg, now, w, origin, dest).0 ==> r == ValidatePaths(cfg, now, w, origin, dest).1
    ensures var (ok, w1) := ValidatePaths(cfg, now, w, origin, dest);
            ok && MakeDirsAt(w1, now, dest).None? ==>
              r == Log(cfg, now, w1, Error, "Error creating \"Others\" folder in " + dest + ": " + OsErrorText)
  {
    var (ok, w1) := ValidatePaths(cfg, now, w, origin, dest);
    if !ok then w1
    else match MakeDirsAt(w1, now, dest)
      case None => Log(cfg, now, w1, Error, "Error creating \"Others\" folder in " + dest + ": " + OsErrorText)
      case Some(w2) =>
        var (files, w3) := ListFiles(cfg, now, w2, origin);
        if files == [] then w3
        else OtherLoop(cfg, now, origin, dest, KnownExtensions(t), w3, files)
  }

  // ---------------------------------------------------------------- the table at work

  /** The music category ends with none of the upper-case spellings, so
      `SONG.MP3` is skipped by the by-type pass and by the others pass alike. */
  lemma UpperCaseMusicStays()
    ensures "Music" in Keys(FileTypes.FileTypes) && !Matches("SONG.MP3", Lookup(FileTypes.FileTypes, "Music"))
    ensures Lower(Ext("SONG.MP3")) in KnownExtensions(FileTypes.FileTypes)
  {
    TableKeys();
    TableExtensionsLower();
    var exts := Lookup(FileTypes.FileTypes, "Music");
    assert exts == FileTypes.FileTypes[0].1;
    forall i | 0 <= i < |exts| ensures !EndsWith("SONG.MP3", exts[i]) {
      UpperSuffix(exts[i]);
    }
    SongExt();
    assert FileTypes.FileTypes[0].1[0] == ".mp3";
  }

  /** No lower-case extension ends `SONG.MP3`. */
  lemma UpperSuffix(e: string)
    requires IsLowerExt(e)
    ensures !EndsWith("SONG.MP3", e)
  {
    var s := "SONG.MP3";
    if |e| <= |s| {
      var k := |s| - |e|;
      var tail := s[k..];
      assert tail[0] == s[k];
      if k == 4 {
        assert tail[1] == 'M';
        assert Lower(e)[1] == LowerChar(e[1]);
        assert e[1] != 'M';
      } else {
        assert s[k] != '.';
      }
      assert tail != e;
    }
  }

  lemma SongExt()
    ensures Lower(Ext("SONG.MP3")) == ".mp3"
  {
    assert "SONG"[0] != '.';
    ExtOfName("SONG", "MP3");
    assert "SONG" + "." + "MP3" == "SONG.MP3";
    assert Lower(".MP3") == ".mp3";
  }
}
