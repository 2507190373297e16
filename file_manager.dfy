// The `onlyfiles` FileManager object: its exclusion lists, updated in place,
// and the loops of its operations, each proved to compute the function that
// specifies it.

module OnlyFilesManager {
  import opened Wrappers
  import opened Strings
  import opened Clock
  import opened PosixPath
  import opened FileSystem
  import opened OnlyFilesLogger
  import opened Sorting
  import opened Seqs
  import opened FileTypes
  import opened ManagerCore
  import opened ManagerMoves
  import opened ManagerOrganize
  import opened ManagerBackup
  import opened ManagerRevert

  class FileManager {
    /** The name of the logger the manager writes through. */
    const logger: string
    /** `self.__types` */
    const types: Table
    var excludedFiles: seq<string>
    var excludedDirs: seq<string>

    /** Neither exclusion list holds a name twice. */
    predicate Valid()
      reads this
    {
      Distinct(excludedFiles) && Distinct(excludedDirs)
    }

    /** What the operations read of the manager. */
    function Cfg(): (c: Config)
      reads this
      ensures c.excludedFiles == excludedFiles && c.excludedDirs == excludedDirs && c.logger == logger
    {
      Config(excludedFiles, excludedDirs, logger)
    }

    /** A new manager excludes only the log file. */
    constructor(logger: string)
      ensures Valid()
      ensures this.logger == logger && types == FileTypes.FileTypes
      ensures excludedFiles == [LogFileName] && excludedDirs == []
    {
      this.logger := logger;
      types := FileTypes.FileTypes;
      excludedFiles := [LogFileName];
      excludedDirs := [];
    }

    /** `add_excluded_directory(directory)`: appends an existing directory not yet listed. */
    method AddExcludedDirectory(w: World, directory: string) returns (added: bool)
      requires Valid()
      modifies this
      ensures Valid()
      ensures added <==> IsDirAt(w.fs, w.cwd, directory) && directory !in old(excludedDirs)
      ensures excludedDirs == if added then old(excludedDirs) + [directory] else old(excludedDirs)
      ensures excludedFiles == old(excludedFiles)
    {
      if IsDirAt(w.fs, w.cwd, directory) && directory !in excludedDirs {
        AddExcludedDistinct(excludedDirs, directory);
        excludedDirs := excludedDirs + [directory];
        added := true;
      } else {
        added := false;
      }
    }

    /** `add_excluded_file(name)`: appends a name not yet listed. */
    method AddExcludedFile(name: string) returns (added: bool)
      requires Valid()
      modifies this
      ensures Valid()
      ensures added <==> name !in old(excludedFiles)
      ensures excludedFiles == if added then old(excludedFiles) + [name] else old(excludedFiles)
      ensures excludedDirs == old(excludedDirs)
    {
      if name !in excludedFiles {
        AddExcludedDistinct(excludedFiles, name);
        excludedFiles := excludedFiles + [name];
        added := true;
      } else {
        added := false;
      }
    }

    /** `__is_excluded(p)`, scanning the excluded directories in order. */
    method IsExcludedPath(cwd: Path, p: string) returns (b: bool)
      ensures b == IsExcluded(Cfg(), cwd, p)
    {
      if Basename(p) in excludedFiles {
        return true;
      }
      b := UnderExcludedDir(excludedDirs, PathString(cwd), AbsPath(PathString(cwd), p));
    }

    // -------------------------------------------------------------- category moves

    /** `move_files_by_type(origin, dest, exts)`; `raised` is set when the
        creation of the destination raised out of the loop. */
    method MoveFilesByType(now: Moment, w: World, origin: string, dest: string, exts: seq<string>)
      returns (w': World, raised: bool)
      ensures (w', raised) == ManagerMoves.MoveFilesByType(Cfg(), now, w, origin, dest, exts)
    {
      var cfg := Cfg();
      var (ok, w1) := ValidatePaths(cfg, now, w, origin, dest);
      if !ok {
        return w1, false;
      }
      var (files, w2) := ListFiles(cfg, now, w1, origin);
      if files == [] {
        return w2, false;
      }
      var run := ByTypeFiles(cfg, now, origin, dest, exts, w2, files);
      return run.w, run.raised;
    }

    /** The lower-cased extensions of every category, gathered list by list. */
    method KnownExtensionsOf(t: Table) returns (known: set<string>)
      ensures known == KnownExtensions(t)
    {
      known := {};
      var i := 0;
      while i < |t|
        invariant 0 <= i <= |t|
        invariant known == KnownExtensions(t[..i])
      {
        var exts := t[i].1;
        var k := 0;
        var more: set<string> := {};
        while k < |exts|
          invariant 0 <= k <= |exts|
          invariant more == set j | 0 <= j < k :: Lower(exts[j])
        {
          more := more + {Lower(exts[k])};
          k := k + 1;
        }
        InitOf(t, i);
        known := known + more;
        i := i + 1;
      }
      assert t[..i] == t;
    }

    /** `move_other_files(origin, dest, t)` */
    method MoveOtherFiles(now: Moment, w: World, origin: string, dest: string, t: Table) returns (w': World)
      ensures w' == ManagerMoves.MoveOtherFiles(Cfg(), now, w, origin, dest, t)
    {
      var cfg := Cfg();
      var (ok, w1) := ValidatePaths(cfg, now, w, origin, dest);
      if !ok {
        return w1;
      }
      var made := MakeDirsAt(w1, now, dest);
      if made.None? {
        return Log(cfg, now, w1, Error, "Error creating \"Others\" folder in " + dest + ": " + OsErrorText);
      }
      var (files, w2) := ListFiles(cfg, now, made.value, origin);
      if files == [] {
        return w2;
      }
      var known := KnownExtensionsOf(t);
      w' := OtherFiles(cfg, now, origin, dest, known, w2, files);
    }

    // -------------------------------------------------------------- organize_by_*

    /** `organize_by_<c>(dir)` */
    method Organize(c: Criterion, now: Moment, w: World, dir: string) returns (ok: bool, w': World)
      ensures (ok, w') == ManagerOrganize.Organize(Cfg(), now, types, c, w, dir)
    {
      var cfg := Cfg();
      var fail := "Error organizing by " + CriterionName(c) + ": " + OsErrorText;
      if !IsDirAt(w.fs, w.cwd, dir) {
        return false, Log(cfg, now, w, Error, fail);
      }
      var p := OrganizeFiles(cfg, types, c, now, w, dir, ListDir(w.fs, Resolve(w.cwd, dir)).value);
      if p.failed {
        return false, Log(cfg, now, p.w, Error, fail);
      }
      return true, p.w;
    }

    // -------------------------------------------------------------- backups

    /** `revert_backup(dir)` */
    method RevertBackup(now: Moment, w: World, dir: string) returns (ok: bool, w': World)
      ensures (ok, w') == ManagerBackup.RevertBackup(Cfg(), now, w, dir)
    {
      var cfg := Cfg();
      var fail := "Error reverting backup: " + OsErrorText;
      if !IsDirAt(w.fs, w.cwd, dir) {
        return false, Log(cfg, now, w, Error, fail);
      }
      var bs := Backups(w, dir);
      if bs == [] {
        return false, w;
      }
      if !Keyed(bs) {
        return false, Log(cfg, now, w, Error, fail);
      }
      var latest := bs[Latest(bs)];
      var bp := Join(dir, latest);
      if !IsDirAt(w.fs, w.cwd, bp) {
        return false, Log(cfg, now, w, Error, fail);
      }
      var st := RestoreItems(now, w, dir, bp, latest, ListDir(w.fs, Resolve(w.cwd, bp)).value);
      if st.failed {
        return false, Log(cfg, now, st.w, Error, fail);
      }
      return true, Log(cfg, now, st.w, Info, "Reverted to backup " + latest);
    }

    // -------------------------------------------------------------- reverting moves

    /** `get_move_logs(logs)` */
    method GetMoveLogs(logs: seq<string>) returns (moves: seq<string>)
      ensures moves == MoveLogs(logs)
    {
      moves := [];
      var i := 0;
      while i < |logs|
        invariant 0 <= i <= |logs|
        invariant moves == Filter(logs[..i], IsMoveLog)
      {
        var log := logs[i];
        if Contains(log, "moved to folder") || Contains(log, "File \"") || Contains(log, "Moved") {
          moves := moves + [log];
        }
        InitOf(logs, i);
        i := i + 1;
      }
      assert logs[..i] == logs;
    }

    /** `revert_last_action()` */
    method RevertLastAction(now: Moment, w: World) returns (ok: bool, w': World)
      ensures (ok, w') == ManagerRevert.RevertLastAction(Cfg(), now, w)
    {
      var cfg := Cfg();
      var logs := ReadLines(w.log);
      if logs == [] {
        return false, Log(cfg, now, w, Warning, "No logs found for reversion.");
      }
      var moves := GetMoveLogs(logs);
      if moves == [] {
        return false, Log(cfg, now, w, Warning, "No move logs found for reversion.");
      }
      var taken := LastActionLogs(Reverse(moves));
      if taken == [] {
        return false, Log(cfg, now, w, Warning, "No valid logs found for the last action.");
      }
      var success, w1 := RevertEach(cfg, now, w, Reverse(Lines(taken)));
      if success {
        return true, Log(cfg, now, w1, Info, "Successfully reverted the last action.");
      }
      return false, Log(cfg, now, w1, Warning, "Last action partially reverted due to errors.");
    }
  }

  // ---------------------------------------------------------------- loop bodies

  /** One turn of `move_files_by_type`'s loop: the inner loop finds the first
      extension the name ends with. */
  method ByTypeOne(cfg: Config, now: Moment, origin: string, dest: string, exts: seq<string>, run: Run, file: string)
    returns (r: Run)
    requires !run.raised
    ensures r == ByTypeStep(cfg, now, origin, dest, exts, run, file)
  {
    r := run;
    if file != Basename(dest) && IsFileAt(run.w.fs, run.w.cwd, Join(origin, file)) {
      var k := 0;
      while k < |exts| && !EndsWith(file, exts[k])
        invariant 0 <= k <= |exts|
        invariant forall j :: 0 <= j < k ==> !EndsWith(file, exts[j])
      {
        k := k + 1;
      }
      if k < |exts| {
        if !r.found {
          var made := MakeDirsAt(r.w, now, dest);
          if made.None? {
            return r.(raised := true);
          }
          r := Run(made.value, true, false);
        }
        var (_, w1) := MoveOne(cfg, now, r.w, origin, dest, file);
        r := r.(w := w1);
      }
    }
  }

  /** The loop of `move_files_by_type`, leaving when the creation of the
      destination raises. */
  method ByTypeFiles(cfg: Config, now: Moment, origin: string, dest: string, exts: seq<string>, w: World, files: seq<string>)
    returns (run: Run)
    ensures run == ByTypeLoop(cfg, now, origin, dest, exts, Run(w, false, false), files)
  {
    run := Run(w, false, false);
    var i := 0;
    while i < |files|
      invariant 0 <= i <= |files|
      invariant run == ByTypeLoop(cfg, now, origin, dest, exts, Run(w, false, false), files[..i]) && !run.raised
    {
      var run1 := ByTypeOne(cfg, now, origin, dest, exts, run, files[i]);
      InitOf(files, i);
      if run1.raised {
        ByTypeLoopStops(cfg, now, origin, dest, exts, Run(w, false, false), files, i + 1);
        return run1;
      }
      run := run1;
      i := i + 1;
    }
    assert files[..i] == files;
  }

  /** The directory scan of `__is_excluded`, leaving at the first excluded
      directory whose absolute path starts the absolute path `ap`. */
  method UnderExcludedDir(dirs: seq<string>, cwd: string, ap: string) returns (b: bool)
    ensures b <==> exists i :: 0 <= i < |dirs| && StartsWith(ap, AbsPath(cwd, dirs[i]))
  {
    var i := 0;
    while i < |dirs|
      invariant 0 <= i <= |dirs|
      invariant forall j :: 0 <= j < i ==> !StartsWith(ap, AbsPath(cwd, dirs[j]))
    {
      if StartsWith(ap, AbsPath(cwd, dirs[i])) {
        return true;
      }
      i := i + 1;
    }
    return false;
  }

  /** The category loop of `organize_by_type`, breaking at the first list
      holding the extension. */
  method TypeOf(t: Table, ext: string) returns (folder: string)
    ensures folder == TypeFolder(t, ext)
  {
    folder := "others";
    var i := 0;
    while i < |t|
      invariant 0 <= i <= |t|
      invariant forall j :: 0 <= j < i ==> ext !in t[j].1
    {
      if ext in t[i].1 {
        return t[i].0;
      }
      i := i + 1;
    }
  }

  /** The loop of `organize_by_<c>`, leaving at the first step that raises. */
  method OrganizeFiles(cfg: Config, t: Table, c: Criterion, now: Moment, w: World, dir: string, files: seq<string>)
    returns (p: Progress)
    ensures p == OrganizeLoop(cfg, now, t, c, dir, Progress(w, false), files)
  {
    p := Progress(w, false);
    var i := 0;
    while i < |files|
      invariant 0 <= i <= |files|
      invariant p == OrganizeLoop(cfg, now, t, c, dir, Progress(w, false), files[..i]) && !p.failed
    {
      var p1 := OrganizeOne(cfg, t, c, now, dir, p, files[i]);
      InitOf(files, i);
      if p1.failed {
        OrganizeLoopStops(cfg, now, t, c, dir, Progress(w, false), files, i + 1);
        return p1;
      }
      p := p1;
      i := i + 1;
    }
    assert files[..i] == files;
  }

  /** One turn of the loop of `organize_by_<c>`. */
  method OrganizeOne(cfg: Config, t: Table, c: Criterion, now: Moment, dir: string, p: Progress, file: string)
    returns (r: Progress)
    requires !p.failed
    ensures r == OrganizeStep(cfg, now, t, c, dir, p, file)
  {
    var fp := Join(dir, file);
    if IsExcluded(cfg, p.w.cwd, fp) || !IsFileAt(p.w.fs, p.w.cwd, fp) {
      return p;
    }
    var folder: Option<string>;
    if c == ByType {
      var f := TypeOf(t, Lower(Ext(file)));
      folder := Some(f);
    } else {
      folder := FolderFor(c, t, file, p.w.fs[Resolve(p.w.cwd, fp)]);
    }
    if folder.None? {
      return p;
    }
    return PlaceInto(cfg, now, p.w, dir, file, folder.value);
  }

  /** The copy loop of `revert_backup`, leaving at the first copy that raises. */
  method RestoreItems(now: Moment, w: World, dir: string, bp: string, latest: string, items: seq<string>)
    returns (st: Restore)
    ensures st == RestoreLoop(now, dir, bp, latest, Restore(w, false), items)
  {
    st := Restore(w, false);
    var i := 0;
    while i < |items|
      invariant 0 <= i <= |items|
      invariant st == RestoreLoop(now, dir, bp, latest, Restore(w, false), items[..i]) && !st.failed
    {
      var st1 := RestoreOne(now, dir, bp, latest, st, items[i]);
      InitOf(items, i);
      if st1.failed {
        RestoreLoopStops(now, dir, bp, latest, Restore(w, false), items, i + 1);
        return st1;
      }
      st := st1;
      i := i + 1;
    }
    assert items[..i] == items;
  }

  /** The loop of `move_other_files`. */
  method OtherFiles(cfg: Config, now: Moment, origin: string, dest: string, known: set<string>, w: World, files: seq<string>)
    returns (w': World)
    ensures w' == OtherLoop(cfg, now, origin, dest, known, w, files)
  {
    w' := w;
    var i := 0;
    while i < |files|
      invariant 0 <= i <= |files|
      invariant w' == OtherLoop(cfg, now, origin, dest, known, w, files[..i])
    {
      w' := OtherOne(cfg, now, origin, dest, known, w', files[i]);
      InitOf(files, i);
      i := i + 1;
    }
    assert files[..i] == files;
  }

  /** One turn of `move_other_files`' loop. */
  method OtherOne(cfg: Config, now: Moment, origin: string, dest: string, known: set<string>, w: World, file: string)
    returns (r: World)
    ensures r == OtherStep(cfg, now, origin, dest, known, w, file)
  {
    r := w;
    if file != Basename(dest) && IsFileAt(w.fs, w.cwd, Join(origin, file)) {
      var ext := Ext(file);
      if Lower(ext) !in known {
        var (_, w1) := MoveOne(cfg, now, w, origin, dest, file);
        r := w1;
      }
    }
  }

  /** One turn of `revert_backup`'s copy loop. */
  method RestoreOne(now: Moment, dir: string, bp: string, latest: string, st: Restore, item: string)
    returns (r: Restore)
    requires !st.failed
    ensures r == RestoreStep(now, dir, bp, latest, st, item)
  {
    if item == latest {
      return st;
    }
    var src := Join(bp, item);
    var dst := Join(dir, item);
    var copied: Option<Fs>;
    if src == "" || dst == "" {
      copied := None;
    } else if IsDirAt(st.w.fs, st.w.cwd, src) {
      copied := CopyTree(st.w.fs, Resolve(st.w.cwd, src), Resolve(st.w.cwd, dst), now, true);
    } else {
      copied := CopyFile(st.w.fs, Resolve(st.w.cwd, src), Resolve(st.w.cwd, dst), now);
    }
    if copied.None? {
      return st.(failed := true);
    }
    return Restore(st.w.(fs := copied.value), false);
  }

  /** The grouping loop of `revert_last_action` over the move records,
      newest first, leaving at the first record outside the window. */
  method LastActionLogs(moves: seq<string>) returns (taken: seq<Record>)
    ensures taken == Group(Stamp(moves)).taken
  {
    var g := Grouping(None, [], false);
    var i := 0;
    while i < |moves|
      invariant 0 <= i <= |moves|
      invariant g == Group(Stamp(moves[..i])) && !g.stopped
    {
      var g1 := GroupOne(g, moves[i]);
      GroupStampNext(moves, i);
      if g1.stopped {
        GroupStampStops(moves, i + 1);
        return g1.taken;
      }
      g := g1;
      i := i + 1;
    }
    assert moves[..i] == moves;
    return g.taken;
  }

  /** The replay loop: each record of the group, oldest first. */
  method RevertEach(cfg: Config, now: Moment, w: World, logs: seq<string>) returns (success: bool, w': World)
    ensures (success, w') == RevertAll(cfg, now, w, logs)
  {
    var acc := (true, w);
    var i := 0;
    while i < |logs|
      invariant 0 <= i <= |logs|
      invariant acc == RevertAll(cfg, now, w, logs[..i])
    {
      acc := RevertOne(cfg, now, acc, logs[i]);
      RevertAllNext(cfg, now, w, logs, i);
      i := i + 1;
    }
    assert logs[..i] == logs;
    success, w' := acc.0, acc.1;
  }

  /** One turn of the grouping loop: read the record's timestamp, skip it
      when it has none, take it while it lies within the window. */
  method GroupOne(g: Grouping, log: string) returns (r: Grouping)
    requires !g.stopped
    ensures r == GroupStep(g, Record(log, TimestampOf(log)))
  {
    var t := TimestampOf(log);
    if t.None? {
      return g;
    }
    if g.newest.None? {
      return Grouping(t, g.taken + [Record(log, t)], false);
    }
    if Seconds(g.newest.value) - Seconds(t.value) <= Threshold {
      return g.(taken := g.taken + [Record(log, t)]);
    }
    return g.(stopped := true);
  }

  /** One turn of the replay loop. */
  method RevertOne(cfg: Config, now: Moment, acc: (bool, World), log: string) returns (r: (bool, World))
    ensures r == RevertStep(cfg, now, acc, log)
  {
    var (ok, w1) := RevertFile(cfg, now, acc.1, log);
    r := (acc.0, w1);
    if !ok {
      r := (false, Log(cfg, now, w1, Error, "Failed to revert part of the last action: " + log));
    }
  }
}
