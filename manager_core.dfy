// The state the `onlyfiles` FileManager works on, and its single-file
// primitives: exclusion, listing, path validation and moving one file.

module ManagerCore {
  import opened Wrappers
  import opened Strings
  import opened Clock
  import opened PosixPath
  import opened FileSystem
  import opened OnlyFilesLogger
  import opened Seqs

  /** The directory tree, the working directory, and the text of the log file
      `Logger.LOG_FILE` that the manager's logger appends to and `read_logs` reads. */
  datatype World = World(fs: Fs, cwd: Path, log: string)

  /** What a FileManager carries: its exclusion lists and its logger's name. */
  datatype Config = Config(excludedFiles: seq<string>, excludedDirs: seq<string>, logger: string)

  /** The text an operating-system exception renders as (`str(e)`). */
  const OsErrorText: string := "[Errno] operation failed"

  /** The logger records `msg` at `level`: one line appended to the log file. */
  function Log(cfg: Config, now: Moment, w: World, level: string, msg: string): (r: World)
    ensures r.fs == w.fs && r.cwd == w.cwd
    ensures r.log == w.log + FileLine(now, cfg.logger, level, msg)
  {
    w.(log := w.log + FileLine(now, cfg.logger, level, msg))
  }

  /** `os.getcwd()` */
  function Cwd(w: World): string {
    PathString(w.cwd)
  }

  /** `os.makedirs(s, exist_ok=True)` on a path string; `None` where it raises. */
  function MakeDirsAt(w: World, now: Moment, s: string): (r: Option<World>)
    ensures r.Some? ==> IsDirAt(r.value.fs, w.cwd, s) && r.value.cwd == w.cwd && r.value.log == w.log
    ensures IsDirAt(w.fs, w.cwd, s) ==> r == Some(w)
  {
    if s == "" then None
    else match MakeDirs(w.fs, Resolve(w.cwd, s), now)
      case None => None
      case Some(fs) => Some(w.(fs := fs))
  }

  /** `shutil.move(a, b)` on path strings; `None` where it raises. */
  function MoveAt(w: World, a: string, b: string): Option<Fs> {
    if a == "" || b == "" then None else Move(w.fs, Resolve(w.cwd, a), Resolve(w.cwd, b))
  }

  // ---------------------------------------------------------------- exclusion

  /** `add_excluded_file` / `add_excluded_directory`: append when absent. */
  function AddExcluded(names: seq<string>, n: string): (r: (bool, seq<string>))
    ensures r.0 <==> n !in names
    ensures r.1 == if r.0 then names + [n] else names
  {
    if n !in names then (true, names + [n]) else (false, names)
  }

  /** Appending only what is absent keeps a list free of duplicates. */
  lemma AddExcludedDistinct(names: seq<string>, n: string)
    requires forall i, j :: 0 <= i < j < |names| ==> names[i] != names[j]
    ensures var r := AddExcluded(names, n).1;
            forall i, j :: 0 <= i < j < |r| ==> r[i] != r[j]
  {
  }

  /** `__is_excluded(p)`: the final name is an excluded file, or the absolute
      path has an excluded directory's absolute path as a plain text prefix. */
  predicate IsExcluded(cfg: Config, cwd: Path, p: string) {
    || Basename(p) in cfg.excludedFiles
    || exists i :: 0 <= i < |cfg.excludedDirs|
         && StartsWith(AbsPath(PathString(cwd), p), AbsPath(PathString(cwd), cfg.excludedDirs[i]))
  }

  /** The listing of `origin` without its excluded entries, in listing order
      (`Seqs.FilterAppend` states the order). */
  function Unexcluded(cfg: Config, cwd: Path, origin: string, names: seq<string>): (r: seq<string>)
    ensures forall n :: n in r <==> n in names && !IsExcluded(cfg, cwd, Join(origin, n))
  {
    Filter(names, n => !IsExcluded(cfg, cwd, Join(origin, n)))
  }

  /** `list_files(origin)`: the unexcluded names, or `[]` and an error line when
      the directory cannot be listed. */
  function ListFiles(cfg: Config, now: Moment, w: World, origin: string): (r: (seq<string>, World))
    ensures r.1.fs == w.fs && r.1.cwd == w.cwd
    ensures IsDirAt(w.fs, w.cwd, origin) ==>
              r.1 == w && forall n :: n in r.0 <==>
                (Resolve(w.cwd, origin) + [n] in w.fs && !IsExcluded(cfg, w.cwd, Join(origin, n)))
    ensures !IsDirAt(w.fs, w.cwd, origin) ==>
              r.0 == [] && r.1 == Log(cfg, now, w, Error, "Error listing files in " + origin + ": " + OsErrorText)
  {
    if !IsDirAt(w.fs, w.cwd, origin) then
      ([], Log(cfg, now, w, Error, "Error listing files in " + origin + ": " + OsErrorText))
    else
      var names := ListDir(w.fs, Resolve(w.cwd, origin)).value;
      (Unexcluded(cfg, w.cwd, origin, names), w)
  }

  // ---------------------------------------------------------------- validation

  /** `__validate_paths(origin, dest)`: the origin must exist; the destination
      is then created with its parents. On failure an error line is logged. */
  function ValidatePaths(cfg: Config, now: Moment, w: World, origin: string, dest: string): (r: (bool, World))
    ensures r.1.cwd == w.cwd
    ensures r.0 ==> r.1.log == w.log && IsDirAt(r.1.fs, w.cwd, AbsPath(Cwd(w), dest))
    ensures !Exists(w.fs, w.cwd, AbsPath(Cwd(w), origin)) ==>
              r == (false, Log(cfg, now, w, Error,
                               "Error validating paths: Source path does not exist: " + AbsPath(Cwd(w), origin)))
    ensures !r.0 ==> r.1.fs == w.fs
  {
    var ao := AbsPath(Cwd(w), origin);
    var ad := AbsPath(Cwd(w), dest);
    if !Exists(w.fs, w.cwd, ao) then
      (false, Log(cfg, now, w, Error, "Error validating paths: Source path does not exist: " + ao))
    else
      match MakeDirsAt(w, now, ad)
      case None => (false, Log(cfg, now, w, Error, "Error validating paths: " + OsErrorText))
      case Some(w1) => (true, w1)
  }

  // ---------------------------------------------------------------- one move

  /** The message logged after a successful move. */
  function MovedMessage(file: string, dest: string): string {
    "File " + "\"" + file + "\"" + " moved to folder " + "\"" + dest + "\"" + "."
  }

  /** `__move_file(src, dest, file)`: moves `src/file` to `dest/file` unless the
      source is excluded or missing or the destination is absent; every outcome
      logs exactly one line. */
  function MoveOne(cfg: Config, now: Moment, w: World, src: string, dest: string, file: string): (r: (bool, World))
    ensures r.1.cwd == w.cwd
    ensures r.0 <==> && !IsExcluded(cfg, w.cwd, Join(src, file))
                     && Exists(w.fs, w.cwd, Join(src, file))
                     && Exists(w.fs, w.cwd, dest)
                     && MoveAt(w, Join(src, file), Join(dest, file)).Some?
    ensures r.0 ==> r.1 == World(MoveAt(w, Join(src, file), Join(dest, file)).value, w.cwd,
                                 w.log + FileLine(now, cfg.logger, Info, MovedMessage(file, dest)))
    ensures !r.0 ==> r.1.fs == w.fs && w.log < r.1.log
  {
    var sf := Join(src, file);
    var df := Join(dest, file);
    if IsExcluded(cfg, w.cwd, sf) then
      (false, Log(cfg, now, w, Info, "File \"" + file + "\" ignored (in exclusion list)."))
    else if !Exists(w.fs, w.cwd, sf) then
      (false, Log(cfg, now, w, Warning, "File \"" + file + "\" not found in " + src + "."))
    else if !Exists(w.fs, w.cwd, dest) then
      (false, Log(cfg, now, w, Error, "No write permission in " + dest + "."))
    else
      match MoveAt(w, sf, df)
      case None => (false, Log(cfg, now, w, Error, "System error moving file " + file + ": " + OsErrorText))
      case Some(fs) => (true, Log(cfg, now, w.(fs := fs), Info, MovedMessage(file, dest)))
  }
}
