// The first FileManager of the project (`File_Manager.py` at the repository
// root): a listing, and one category move whose checks only print, whose
// moves are recorded in Portuguese and whose per-file errors do not stop it.

module LegacyManager {
  import opened Wrappers
  import opened Strings
  import opened Clock
  import opened PosixPath
  import opened FileSystem
  import opened Seqs
  import opened LegacyLogger
  import opened ManagerCore
  import MM = ManagerMoves
  import ManagerRevert

  const Info: string := "INFO"
  const Error: string := "ERROR"

  // ---------------------------------------------------------------- console messages

  const EmptyPathMessage: string := "Erro: O caminho de origem ou destino está vazio!"
  const SamePathMessage: string := "Erro: A pasta de destino não pode ser a mesma da origem."
  const EmptyOriginMessage: string := "A pasta de origem está vazia!"

  function NotAFileMessage(file: string): string {
    "\"" + file + "\" não é um arquivo, ignorando."
  }

  // ---------------------------------------------------------------- log lines

  /** The root logger records `msg` at `level`: one line appended to `app.log`. */
  function Record(now: Moment, w: World, level: string, msg: string): (r: World)
    ensures r.fs == w.fs && r.cwd == w.cwd
    ensures r.log == w.log + LegacyLine(now, level, msg)
  {
    w.(log := w.log + LegacyLine(now, level, msg))
  }

  /** The message of a successful move. */
  function MovedMessage(file: string, dest: string): string {
    "Arquivo " + "\"" + file + "\"" + " movido para a pasta " + "\"" + dest + "\"" + "."
  }

  /** The message of a move that raised. */
  function FailedMessage(file: string): string {
    "Erro ao mover o file \"" + file + "\": " + OsErrorText
  }

  /** The record of a move, cut at its double quotes, has five pieces: the
      second is the file and the fourth the destination folder. */
  lemma MovedLineParts(now: Moment, file: string, dest: string)
    requires '"' !in file && '"' !in dest
    ensures Split(LegacyLine(now, Info, MovedMessage(file, dest)), "\"")
            == [FormatTs(now) + " - INFO - Arquivo ", file, " movido para a pasta ", dest, ".\n"]
  {
    var ts := FormatTs(now);
    var head := ts + " - INFO - Arquivo ";
    FormatTsAvoids(now, '"');
    NoCharAppend(ts, " - INFO - Arquivo ", '"');
    MovedLineRegroup(ts, file, dest);
    ManagerRevert.QuotedPieces(head, file, " movido para a pasta ", dest, ".\n");
  }

  /** The record of a move regrouped around its double quotes. */
  lemma MovedLineRegroup(ts: string, file: string, dest: string)
    ensures ts + " - " + Info + " - " + MovedMessage(file, dest) + "\n"
            == (ts + " - INFO - Arquivo ") + "\"" + file + "\"" + " movido para a pasta " + "\"" + dest + "\"" + ".\n"
  {
    PortugueseLiterals();
    Regroup(ts, " - ", Info, "Arquivo ", "\"", file, " movido para a pasta ", dest, ".", "\n",
            " - INFO - Arquivo ", ".\n");
  }

  lemma PortugueseLiterals()
    ensures " - " + Info + " - " + "Arquivo " == " - INFO - Arquivo "
    ensures "." + "\n" == ".\n"
  {
  }

  lemma Regroup(ts: string, sep: string, lvl: string, ar: string, q: string, f: string, mid: string,
                d: string, dot: string, nl: string, head: string, tail: string)
    requires head == sep + lvl + sep + ar && tail == dot + nl
    ensures ts + sep + lvl + sep + (ar + q + f + q + mid + q + d + q + dot) + nl
            == (ts + head) + q + f + q + mid + q + d + q + tail
  {
  }

  // ---------------------------------------------------------------- the listing

  /** `FileManager.list_files(origin)` is `os.listdir(origin)`: `None` where it raises
      (the empty path and anything that is not a directory). */
  function Listing(w: World, origin: string): (r: Option<seq<string>>)
    ensures r.Some? <==> IsDirAt(w.fs, w.cwd, origin)
    ensures r.Some? ==> forall n :: n in r.value <==> Resolve(w.cwd, origin) + [n] in w.fs
  {
    if origin == "" then None else ListDir(w.fs, Resolve(w.cwd, origin))
  }

  // ---------------------------------------------------------------- the move loop

  /** What the loop carries: the world, the console output, and whether an
      exception has left the call. */
  datatype Pass = Pass(w: World, out: seq<string>, raised: bool)

  /** One turn of the loop. A regular file ending with one of the extensions
      (case-sensitive, first match wins) is moved after `makedirs(dest,
      exist_ok=True)`, which lies outside the `try` and so raises out of the
      call; a failing move is logged and the loop goes on. Anything that is not
      a regular file is reported on the console. */
  function Step(now: Moment, origin: string, dest: string, exts: seq<string>, p: Pass, file: string): (r: Pass)
    ensures p.raised ==> r == p
    ensures !p.raised && !IsFileAt(p.w.fs, p.w.cwd, Join(origin, file)) ==>
              r == p.(out := p.out + [NotAFileMessage(file)])
    ensures !p.raised && IsFileAt(p.w.fs, p.w.cwd, Join(origin, file)) && !MM.Matches(file, exts) ==> r == p
    ensures !p.raised && IsFileAt(p.w.fs, p.w.cwd, Join(origin, file)) && MM.Matches(file, exts) ==>
              match MakeDirsAt(p.w, now, dest)
              case None => r == p.(raised := true)
              case Some(w1) =>
                var src := Resolve(w1.cwd, Join(origin, file));
                var dst := Resolve(w1.cwd, Join(dest, file));
                && r.out == p.out && !r.raised
                && (MoveAt(w1, Join(origin, file), Join(dest, file)).Some? ==>
                      && r.w == Record(now, w1.(fs := MoveAt(w1, Join(origin, file), Join(dest, file)).value),
                                       Info, MovedMessage(file, dest))
                      && IsFile(r.w.fs, MoveTarget(w1.fs, src, dst))
                      && r.w.fs[MoveTarget(w1.fs, src, dst)] == w1.fs[src])
                && (MoveAt(w1, Join(origin, file), Join(dest, file)).None? ==>
                      r.w == Record(now, w1, Error, FailedMessage(file)))
    ensures r.w.cwd == p.w.cwd
  {
    if p.raised then p
    else if !IsFileAt(p.w.fs, p.w.cwd, Join(origin, file)) then p.(out := p.out + [NotAFileMessage(file)])
    else if MM.FirstMatch(file, exts).None? then p
    else match MakeDirsAt(p.w, now, dest)
      case None => p.(raised := true)
      case Some(w1) =>
        assert IsFile(w1.fs, Resolve(w1.cwd, Join(origin, file)));
        MovedLands(w1, Join(origin, file), Join(dest, file));
        match MoveAt(w1, Join(origin, file), Join(dest, file))
        case Some(fs1) => Pass(Record(now, w1.(fs := fs1), Info, MovedMessage(file, dest)), p.out, false)
        case None => Pass(Record(now, w1, Error, FailedMessage(file)), p.out, false)
  }

  /** A file moved by `shutil.move` lands, unchanged, at the move's target. */
  lemma MovedLands(w: World, a: string, b: string)
    requires a != "" && b != "" && IsFile(w.fs, Resolve(w.cwd, a))
    ensures var src := Resolve(w.cwd, a);
            var dst := Resolve(w.cwd, b);
            MoveAt(w, a, b).Some? ==>
              IsFile(MoveAt(w, a, b).value, MoveTarget(w.fs, src, dst))
              && MoveAt(w, a, b).value[MoveTarget(w.fs, src, dst)] == w.fs[src]
  {
    MoveFile(w.fs, Resolve(w.cwd, a), Resolve(w.cwd, b));
  }

  /** The loop over the listing. */
  function Loop(now: Moment, origin: string, dest: string, exts: seq<string>, p: Pass, files: seq<string>): (r: Pass)
    ensures r.w.cwd == p.w.cwd
  {
    if files == [] then p
    else Step(now, origin, dest, exts, Loop(now, origin, dest, exts, p, files[..|files| - 1]), files[|files| - 1])
  }

  /** The checks at the head of `move_files_by_type`: an empty path, and an
      origin and a destination with the same absolute path. */
  function Warnings(w: World, origin: string, dest: string): (r: seq<string>)
    ensures EmptyPathMessage in r <==> origin == "" || dest == ""
    ensures SamePathMessage in r <==> AbsPath(Cwd(w), origin) == AbsPath(Cwd(w), dest)
  {
    (if origin == "" || dest == "" then [EmptyPathMessage] else [])
      + (if AbsPath(Cwd(w), origin) == AbsPath(Cwd(w), dest) then [SamePathMessage] else [])
  }

  /** `move_files_by_type(origin, dest, exts)`. The checks only print: the
      listing and the loop run whatever they find. */
  function MoveFilesByType(now: Moment, w: World, origin: string, dest: string, exts: seq<string>): (r: Pass)
    ensures r.w.cwd == w.cwd
    ensures Listing(w, origin).None? ==> r == Pass(w, Warnings(w, origin, dest), true)
    ensures Listing(w, origin) == Some([]) ==>
              r == Pass(w, Warnings(w, origin, dest) + [EmptyOriginMessage], false)
  {
    var out := Warnings(w, origin, dest);
    match Listing(w, origin)
    case None => Pass(w, out, true)
    case Some(files) =>
      if files == [] then Pass(w, out + [EmptyOriginMessage], false)
      else Loop(now, origin, dest, exts, Pass(w, out, false), files)
  }

  // ---------------------------------------------------------------- properties

  /** The console output already printed has no say in what the loop does:
      the loop run after any output is the loop run after none, with that
      output in front of what it prints. */
  lemma {:induction false} LoopOutput(now: Moment, origin: string, dest: string, exts: seq<string>,
                                      w: World, out: seq<string>, files: seq<string>)
    ensures var a := Loop(now, origin, dest, exts, Pass(w, out, false), files);
            var b := Loop(now, origin, dest, exts, Pass(w, [], false), files);
            a == b.(out := out + b.out)
    decreases |files|
  {
    if files != [] {
      var pre := files[..|files| - 1];
      LoopOutput(now, origin, dest, exts, w, out, pre);
      var b := Loop(now, origin, dest, exts, Pass(w, [], false), pre);
      assert out + (b.out + [NotAFileMessage(files[|files| - 1])]) == (out + b.out) + [NotAFileMessage(files[|files| - 1])];
    }
  }

  /** An empty or identical pair of paths is reported and processing goes on:
      the files and the log come out exactly as from a loop that printed
      nothing before it. */
  lemma ChecksOnlyPrint(now: Moment, w: World, origin: string, dest: string, exts: seq<string>)
    requires Listing(w, origin).Some? && Listing(w, origin).value != []
    ensures var r := MoveFilesByType(now, w, origin, dest, exts);
            var b := Loop(now, origin, dest, exts, Pass(w, [], false), Listing(w, origin).value);
            r.w == b.w && r.raised == b.raised && r.out == Warnings(w, origin, dest) + b.out
  {
    LoopOutput(now, origin, dest, exts, w, Warnings(w, origin, dest), Listing(w, origin).value);
  }

  /** Entries that are not regular files ending with one of the extensions
      leave the files and the log as they were. */
  lemma {:induction false} LoopSkips(now: Moment, origin: string, dest: string, exts: seq<string>,
                                     p: Pass, files: seq<string>)
    requires !p.raised
    requires forall i :: 0 <= i < |files| ==>
               !MM.Matches(files[i], exts) || !IsFileAt(p.w.fs, p.w.cwd, Join(origin, files[i]))
    ensures Loop(now, origin, dest, exts, p, files).w == p.w
    ensures !Loop(now, origin, dest, exts, p, files).raised
    decreases |files|
  {
    if files != [] {
      var pre := files[..|files| - 1];
      assert forall i :: 0 <= i < |pre| ==> pre[i] == files[i];
      LoopSkips(now, origin, dest, exts, p, pre);
    }
  }

  /** Once `makedirs` has raised, the rest of the listing changes nothing. */
  lemma {:induction false} LoopStops(now: Moment, origin: string, dest: string, exts: seq<string>,
                                     p: Pass, files: seq<string>, i: nat)
    requires i <= |files| && Loop(now, origin, dest, exts, p, files[..i]).raised
    ensures Loop(now, origin, dest, exts, p, files) == Loop(now, origin, dest, exts, p, files[..i])
    decreases |files|
  {
    if i == |files| {
      assert files[..i] == files;
    } else {
      PrefixOfInit(files, i);
      LoopStops(now, origin, dest, exts, p, files[..|files| - 1], i);
    }
  }

  // ---------------------------------------------------------------- the class

  /** One turn of the loop: the inner loop over the extensions, left by `break`
      at the first one the name ends with. */
  method MoveOne(now: Moment, origin: string, dest: string, exts: seq<string>, p: Pass, file: string)
    returns (r: Pass)
    requires !p.raised
    ensures r == Step(now, origin, dest, exts, p, file)
  {
    var path := Join(origin, file);
    if !IsFileAt(p.w.fs, p.w.cwd, path) {
      return p.(out := p.out + [NotAFileMessage(file)]);
    }
    r := p;
    var k := 0;
    while k < |exts|
      invariant 0 <= k <= |exts|
      invariant forall j :: 0 <= j < k ==> !EndsWith(file, exts[j])
      invariant r == p
    {
      if EndsWith(file, exts[k]) {
        var made := MakeDirsAt(p.w, now, dest);
        if made.None? {
          return p.(raised := true);
        }
        var w1 := made.value;
        var moved := MoveAt(w1, path, Join(dest, file));
        if moved.Some? {
          r := Pass(Record(now, w1.(fs := moved.value), Info, MovedMessage(file, dest)), p.out, false);
        } else {
          r := Pass(Record(now, w1, Error, FailedMessage(file)), p.out, false);
        }
        return;
      }
      k := k + 1;
    }
  }

  /** `FileManager.move_files_by_type(origin, dest, exts)` */
  method MoveFilesByTypeIn(now: Moment, w: World, origin: string, dest: string, exts: seq<string>)
    returns (r: Pass)
    ensures r == MoveFilesByType(now, w, origin, dest, exts)
  {
    var out := Warnings(w, origin, dest);
    var files := Listing(w, origin);
    if files.None? {
      return Pass(w, out, true);
    }
    if files.value == [] {
      return Pass(w, out + [EmptyOriginMessage], false);
    }
    r := MoveEach(now, origin, dest, exts, Pass(w, out, false), files.value);
  }

  /** The loop over the listing, left when `makedirs` raises. */
  method MoveEach(now: Moment, origin: string, dest: string, exts: seq<string>, p0: Pass, fs: seq<string>)
    returns (r: Pass)
    requires !p0.raised
    ensures r == Loop(now, origin, dest, exts, p0, fs)
  {
    r := p0;
    var i := 0;
    while i < |fs|
      invariant 0 <= i <= |fs|
      invariant r == Loop(now, origin, dest, exts, p0, fs[..i]) && !r.raised
    {
      var r1 := MoveOne(now, origin, dest, exts, r, fs[i]);
      InitOf(fs, i);
      if r1.raised {
        LoopStops(now, origin, dest, exts, p0, fs, i + 1);
        return r1;
      }
      r := r1;
      i := i + 1;
    }
    assert fs[..i] == fs;
  }
}
