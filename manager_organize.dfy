// The `organize_by_*` operations of the `onlyfiles` FileManager: each regular,
// unexcluded entry of a directory goes into a sub-folder named after one of
// its properties, and the first failure ends the call.

module ManagerOrganize {
  import opened Wrappers
  import opened Strings
  import opened Clock
  import opened PosixPath
  import opened FileSystem
  import opened OnlyFilesLogger
  import opened FileTypes
  import opened ManagerCore

  datatype Criterion = ByExtension | ByDate | BySize | ByType

  /** The word of the error message `Error organizing by <word>: ...`. */
  function CriterionName(c: Criterion): string {
    match c
    case ByExtension => "extension"
    case ByDate => "date"
    case BySize => "size"
    case ByType => "type"
  }

  // ---------------------------------------------------------------- folder names

  const KiB: nat := 1024
  const MiB: nat := 1024 * 1024

  /** The size bucket of `organize_by_size`. */
  function SizeFolder(size: nat): (r: string)
    ensures r == "tiny" <==> size < KiB
    ensures r == "small" <==> KiB <= size < MiB
    ensures r == "medium" <==> MiB <= size < 10 * MiB
    ensures r == "large" <==> 10 * MiB <= size < 100 * MiB
    ensures r == "huge" <==> 100 * MiB <= size
  {
    if size < 1024 then "tiny"
    else if size < 1024 * 1024 then "small"
    else if size < 1024 * 1024 * 10 then "medium"
    else if size < 1024 * 1024 * 100 then "large"
    else "huge"
  }

  /** A bigger file never lands in a smaller bucket. */
  lemma SizeFolderMonotone(a: nat, b: nat)
    requires a <= b
    ensures Bucket(SizeFolder(a)) <= Bucket(SizeFolder(b))
  {
  }

  /** The rank of a size bucket, smallest first. */
  function Bucket(name: string): nat {
    if name == "tiny" then 0 else if name == "small" then 1 else if name == "medium" then 2
    else if name == "large" then 3 else 4
  }

  /** The category of a lower-cased extension in `organize_by_type`: the first
      category listing it, or `others`. */
  function TypeFolder(t: Table, ext: string): (r: string)
    ensures r == "others" || exists i :: 0 <= i < |t| && t[i].0 == r && ext in t[i].1
    ensures (forall i :: 0 <= i < |t| ==> ext !in t[i].1) ==> r == "others"
    ensures forall i :: 0 <= i < |t| && ext in t[i].1 && (forall j :: 0 <= j < i ==> ext !in t[j].1) ==>
              r == t[i].0
  {
    if t == [] then "others"
    else if ext in t[0].1 then t[0].0
    else
      var r := TypeFolder(t[1..], ext);
      assert forall i :: 1 <= i < |t| ==> t[i] == t[1..][i - 1];
      r
  }

  /** With the manager's table the default folder is the lower-case `others`,
      never the `Others` category, which lists no extension. */
  lemma TypeFolderOthers(ext: string)
    ensures TypeFolder(FileTypes.FileTypes, ext) != "Others"
    ensures TypeFolder(FileTypes.FileTypes, ext) == "others" <==>
              forall i :: 0 <= i < |FileTypes.FileTypes| ==> ext !in FileTypes.FileTypes[i].1
  {
    var t := FileTypes.FileTypes;
    var r := TypeFolder(t, ext);
    if r != "others" {
      var i :| 0 <= i < |t| && t[i].0 == r && ext in t[i].1;
      assert i != 4;
    }
  }

  /** The date folder reads the same as the date part of a log timestamp. */
  lemma DateFolderIsTimestampDate(t: Moment)
    ensures FormatDate(t) == FormatTs(t)[..10]
  {
    Pad4Len(t.year); Pad2Len(t.month); Pad2Len(t.day);
    var d := Pad(t.year, 4) + "-" + Pad(t.month, 2) + "-" + Pad(t.day, 2);
    var rest := " " + Pad(t.hour, 2) + ":" + Pad(t.minute, 2) + ":" + Pad(t.second, 2);
    assert FormatTs(t) == d + rest;
    assert FormatDate(t) == d;
    assert |d| == 10;
    assert (d + rest)[..10] == d;
  }

  /** The sub-folder a regular file goes to, or `None` where it is left alone
      (a file without extension, by extension). */
  function FolderFor(c: Criterion, t: Table, file: string, node: Node): (r: Option<string>)
    requires node.File?
    ensures c == ByExtension ==> (r.None? <==> Ext(file) == "")
    ensures c == ByExtension && r.Some? ==> "." + r.value == Lower(Ext(file))
    ensures c == ByDate ==> r == Some(FormatDate(node.ctime))
    ensures c == BySize ==> r == Some(SizeFolder(node.size))
    ensures c == ByType ==> r == Some(TypeFolder(t, Lower(Ext(file))))
  {
    match c
    case ByExtension =>
      var e := Lower(Ext(file));
      if e == "" then None
      else
        assert e[0] == '.' by { assert Ext(file)[0] == '.'; }
        assert e == "." + e[1..];
        Some(e[1..])
    case ByDate => Some(FormatDate(node.ctime))
    case BySize => Some(SizeFolder(node.size))
    case ByType => Some(TypeFolder(t, Lower(Ext(file))))
  }

  // ---------------------------------------------------------------- the loop

  /** The world so far, and whether an exception has ended the loop. */
  datatype Progress = Progress(w: World, failed: bool)

  /** The entry `dir/file` is one the loop body works on. */
  predicate Eligible(cfg: Config, w: World, dir: string, file: string) {
    !IsExcluded(cfg, w.cwd, Join(dir, file)) && IsFileAt(w.fs, w.cwd, Join(dir, file))
  }

  /** The message logged after each move. */
  function MovedTo(file: string, folder: string): string {
    "Moved " + file + " to " + folder
  }

  /** One turn of the loop: create the folder, move the file into it, log. */
  function OrganizeStep(cfg: Config, now: Moment, t: Table, c: Criterion, dir: string,
                        p: Progress, file: string): (r: Progress)
    ensures p.failed || !Eligible(cfg, p.w, dir, file) ==> r == p
    ensures r.w.cwd == p.w.cwd && |p.w.log| <= |r.w.log|
  {
    if p.failed || !Eligible(cfg, p.w, dir, file) then p
    else
      match FolderFor(c, t, file, p.w.fs[Resolve(p.w.cwd, Join(dir, file))])
      case None => p
      case Some(k) => PlaceInto(cfg, now, p.w, dir, file, k)
  }

  /** `os.makedirs(dir/k, exist_ok=True)`, then `shutil.move(dir/file, dir/k/file)`
      and the log line; an exception from either ends the loop. */
  function PlaceInto(cfg: Config, now: Moment, w: World, dir: string, file: string, k: string): (r: Progress)
    ensures r.w.cwd == w.cwd && |w.log| <= |r.w.log|
    ensures !r.failed ==> r.w.log == w.log + FileLine(now, cfg.logger, Info, MovedTo(file, Join(dir, k)))
  {
    var kd := Join(dir, k);
    match MakeDirsAt(w, now, kd)
    case None => Progress(w, true)
    case Some(w1) =>
      match MoveAt(w1, Join(dir, file), Join(kd, file))
      case None => Progress(w1, true)
      case Some(fs) => Progress(Log(cfg, now, w1.(fs := fs), Info, MovedTo(file, kd)), false)
  }

  function OrganizeLoop(cfg: Config, now: Moment, t: Table, c: Criterion, dir: string,
                        p: Progress, files: seq<string>): (r: Progress)
    ensures r.w.cwd == p.w.cwd && |p.w.log| <= |r.w.log|
  {
    if files == [] then p
    else OrganizeStep(cfg, now, t, c, dir, OrganizeLoop(cfg, now, t, c, dir, p, files[..|files| - 1]), files[|files| - 1])
  }

  /** After a failure the rest of the listing is not looked at. */
  lemma {:induction false} OrganizeLoopFailed(cfg: Config, now: Moment, t: Table, c: Criterion, dir: string,
                                              p: Progress, files: seq<string>)
    requires p.failed
    ensures OrganizeLoop(cfg, now, t, c, dir, p, files) == p
    decreases |files|
  {
    if files != [] {
      OrganizeLoopFailed(cfg, now, t, c, dir, p, files[..|files| - 1]);
    }
  }

  /** After a step has failed, the rest of the listing changes nothing. */
  lemma {:induction false} OrganizeLoopStops(cfg: Config, now: Moment, t: Table, c: Criterion, dir: string,
                                             p: Progress, files: seq<string>, i: nat)
    requires i <= |files| && OrganizeLoop(cfg, now, t, c, dir, p, files[..i]).failed
    ensures OrganizeLoop(cfg, now, t, c, dir, p, files) == OrganizeLoop(cfg, now, t, c, dir, p, files[..i])
    decreases |files|
  {
    if i == |files| {
      assert files[..i] == files;
    } else {
      var pre := files[..|files| - 1];
      assert pre[..i] == files[..i];
      OrganizeLoopStops(cfg, now, t, c, dir, p, pre, i);
    }
  }

  /** `organize_by_<c>(dir)`: `true` when every entry was handled, otherwise
      `false` after an error line; the moves made before the failure stay. */
  function Organize(cfg: Config, now: Moment, t: Table, c: Criterion, w: World, dir: string): (r: (bool, World))
    ensures r.1.cwd == w.cwd
    ensures !IsDirAt(w.fs, w.cwd, dir) ==>
              r == (false, Log(cfg, now, w, Error, "Error organizing by " + CriterionName(c) + ": " + OsErrorText))
    ensures IsDirAt(w.fs, w.cwd, dir) ==>
              var p := OrganizeLoop(cfg, now, t, c, dir, Progress(w, false), ListDir(w.fs, Resolve(w.cwd, dir)).value);
              r == if p.failed
                   then (false, Log(cfg, now, p.w, Error, "Error organizing by " + CriterionName(c) + ": " + OsErrorText))
                   else (true, p.w)
  {
    var fail := "Error organizing by " + CriterionName(c) + ": " + OsErrorText;
    if !IsDirAt(w.fs, w.cwd, dir) then (false, Log(cfg, now, w, Error, fail))
    else
      var p := OrganizeLoop(cfg, now, t, c, dir, Progress(w, false), ListDir(w.fs, Resolve(w.cwd, dir)).value);
      if p.failed then (false, Log(cfg, now, p.w, Error, fail)) else (true, p.w)
  }

  // ---------------------------------------------------------------- one move, in the tree

  /** A file moved onto a free location is found there, and only there. */
  lemma MoveOntoFree(fs: Fs, src: Path, dst: Path)
    requires IsFile(fs, src) && dst !in fs && src != dst
    requires Move(fs, src, dst).Some?
    ensures src !in Move(fs, src, dst).value
    ensures IsFile(Move(fs, src, dst).value, dst) && Move(fs, src, dst).value[dst] == fs[src]
  {
    MoveFile(fs, src, dst);
  }

  /** Creating the folder `kp` leaves a file elsewhere in place and a free
      location inside `kp` free. */
  lemma MakeDirsKeeps(fs: Fs, kp: Path, now: Moment, src: Path, dst: Path)
    requires IsFile(fs, src) && dst !in fs && |dst| == |kp| + 1 && dst[..|kp|] == kp
    requires MakeDirs(fs, kp, now).Some?
    ensures IsFile(MakeDirs(fs, kp, now).value, src) && dst !in MakeDirs(fs, kp, now).value
    ensures IsDir(MakeDirs(fs, kp, now).value, kp)
  {
  }

  /** Where a step succeeds on a file whose target place is free, the file
      now sits, the same entry, in the chosen sub-folder, and its old place
      is empty. */
  lemma OrganizeStepMoves(cfg: Config, now: Moment, t: Table, c: Criterion, dir: string,
                          w: World, file: string, k: string, src: Path, dst: Path)
    requires IsName(file) && IsName(k)
    requires src == Resolve(w.cwd, Join(dir, file)) && dst == Resolve(w.cwd, Join(Join(dir, k), file))
    requires Eligible(cfg, w, dir, file) && FolderFor(c, t, file, w.fs[src]) == Some(k) && dst !in w.fs
    requires !OrganizeStep(cfg, now, t, c, dir, Progress(w, false), file).failed
    ensures var r := OrganizeStep(cfg, now, t, c, dir, Progress(w, false), file).w;
            src !in r.fs && IsFile(r.fs, dst) && r.fs[dst] == w.fs[src]
  {
    assert OrganizeStep(cfg, now, t, c, dir, Progress(w, false), file) == PlaceInto(cfg, now, w, dir, file, k);
    PlaceIntoMoves(cfg, now, w, dir, file, k, src, dst);
  }

  /** A placement that succeeds on a file whose target place is free moves
      that entry there. */
  lemma PlaceIntoMoves(cfg: Config, now: Moment, w: World, dir: string, file: string, k: string, src: Path, dst: Path)
    requires IsName(file) && IsName(k)
    requires src == Resolve(w.cwd, Join(dir, file)) && dst == Resolve(w.cwd, Join(Join(dir, k), file))
    requires IsFileAt(w.fs, w.cwd, Join(dir, file)) && dst !in w.fs
    requires !PlaceInto(cfg, now, w, dir, file, k).failed
    ensures var r := PlaceInto(cfg, now, w, dir, file, k).w;
            src !in r.fs && IsFile(r.fs, dst) && r.fs[dst] == w.fs[src]
  {
    var kd := Join(dir, k);
    var kp := Resolve(w.cwd, kd);
    assert kd != "";
    var w1 := MakeDirsAt(w, now, kd).value;
    assert w1.fs == MakeDirs(w.fs, kp, now).value;
    ResolveJoin(w.cwd, kd, file);
    MakeDirsKeeps(w.fs, kp, now, src, dst);
    assert MoveAt(w1, Join(dir, file), Join(kd, file)) == Move(w1.fs, src, dst);
    MoveOntoFree(w1.fs, src, dst);
  }
}
