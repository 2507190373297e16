// `PathUtils` of `src/utils/path_utils.py`: the cancel word, extensions, the
// directory helpers and the two-question path prompt, with the answers passed
// in as parameters.

module PathUtils {
  import opened Wrappers
  import opened Strings
  import opened Clock
  import opened PosixPath
  import opened FileSystem
  import Seqs
  import ManagerCore

  // ---------------------------------------------------------------- cancel

  /** `_is_cancel_command(command)`: `command.lower()` is `cancel` or `-c`.
      It does not strip; the callers strip first. */
  predicate IsCancelCommand(command: string) {
    Lower(command) == "cancel" || Lower(command) == "-c"
  }

  /** The check ignores case: it answers alike for a word and its lower case. */
  lemma CancelIgnoresCase(s: string)
    ensures IsCancelCommand(s) <==> IsCancelCommand(Lower(s))
  {
    LowerIdempotent(s);
  }

  /** A cancel word is exactly as long as `cancel` or `-c`, so surrounding
      whitespace, which the check keeps, defeats it. */
  lemma CancelLength(s: string)
    requires IsCancelCommand(s)
    ensures |s| == 6 || |s| == 2
    ensures !IsCancelCommand(" " + s) && !IsCancelCommand(s + " ")
  {
    assert Lower(" " + s)[0] == ' ' && Lower(s + " ")[|s|] == ' ';
  }

  // ---------------------------------------------------------------- extensions

  /** `get_file_extension(filename)`: the `splitext` extension, lower-cased. */
  function FileExtension(filename: string): (r: string)
    ensures r == "" || (r[0] == '.' && '.' !in r[1..] && '/' !in r)
    ensures Lower(r) == r
    ensures EndsWith(Lower(filename), r)
  {
    var e := Ext(filename);
    var r := Lower(e);
    LowerIdempotent(e);
    LowerKeepsDotsAndSlashes(e);
    assert EndsWith(filename, e) by {
      assert filename == SplitExt(filename).0 + e;
      assert filename[|filename| - |e|..] == e;
    }
    LowerSuffix(filename, e);
    r
  }

  /** Lower-casing moves neither dots nor slashes. */
  lemma LowerKeepsDotsAndSlashes(e: string)
    ensures forall i :: 0 <= i < |e| ==> (Lower(e)[i] == '.' <==> e[i] == '.')
    ensures forall i :: 0 <= i < |e| ==> (Lower(e)[i] == '/' <==> e[i] == '/')
    ensures e != [] ==> Lower(e)[1..] == Lower(e[1..])
  {
    if e != [] {
      assert forall i :: 0 <= i < |e| - 1 ==> Lower(e)[1..][i] == Lower(e[1..])[i];
    }
  }

  /** A name with a stem and a dot-free suffix has that suffix, lower-cased, as
      its extension. */
  lemma ExtensionOfName(stem: string, e: string)
    requires '/' !in stem && '/' !in e && '.' !in e
    requires exists k :: 0 <= k < |stem| && stem[k] != '.'
    ensures FileExtension(stem + "." + e) == "." + Lower(e)
  {
    ExtOfName(stem, e);
    assert Lower("." + e) == "." + Lower(e) by {
      assert forall i :: 0 <= i < |e| ==> Lower("." + e)[i + 1] == Lower(e)[i];
    }
  }

  // ---------------------------------------------------------------- directories

  /** `ensure_directory_exists(directory)`: `makedirs(exist_ok=True)`, True
      exactly when the directory exists afterwards; a second call after a
      successful one changes nothing. */
  function EnsureDirectory(fs: Fs, cwd: Path, directory: string, now: Moment): (r: (Fs, bool))
    ensures r.1 <==> IsDirAt(r.0, cwd, directory)
    ensures !r.1 ==> r.0 == fs
    ensures r.1 ==> forall q :: q in fs ==> q in r.0 && r.0[q] == fs[q]
    ensures IsDirAt(fs, cwd, directory) ==> r == (fs, true)
  {
    if directory == "" then (fs, false)
    else match MakeDirs(fs, Resolve(cwd, directory), now)
      case None => (fs, false)
      case Some(fs1) => (fs1, true)
  }

  /** Calling `ensure_directory_exists` twice is calling it once. */
  lemma EnsureIdempotent(fs: Fs, cwd: Path, directory: string, now: Moment, later: Moment)
    requires EnsureDirectory(fs, cwd, directory, now).1
    ensures EnsureDirectory(EnsureDirectory(fs, cwd, directory, now).0, cwd, directory, later)
            == EnsureDirectory(fs, cwd, directory, now)
  {
  }

  /** Whether `list_files` keeps the name `n` of `directory`: a regular file
      whose extension is among `extensions`, when those are given. */
  predicate Kept(fs: Fs, cwd: Path, directory: string, extensions: Option<seq<string>>, n: string) {
    IsFileAt(fs, cwd, Join(directory, n)) && (extensions.None? || FileExtension(n) in extensions.value)
  }

  /** The joined paths of the kept names, in listing order. */
  function Collect(fs: Fs, cwd: Path, directory: string, extensions: Option<seq<string>>, names: seq<string>)
    : (r: seq<string>)
    ensures forall x :: x in r <==> exists n :: n in names && x == Join(directory, n) && Kept(fs, cwd, directory, extensions, n)
  {
    if names == [] then []
    else
      var pre := names[..|names| - 1];
      var n := names[|names| - 1];
      assert names == pre + [n];
      Collect(fs, cwd, directory, extensions, pre) + (if Kept(fs, cwd, directory, extensions, n) then [Join(directory, n)] else [])
  }

  /** `list_files(directory, extensions)`: `[]` for a missing path or a
      non-directory, otherwise the kept names joined to the directory. */
  function ListFiles(fs: Fs, cwd: Path, directory: string, extensions: Option<seq<string>>): (r: seq<string>)
    ensures !IsDirAt(fs, cwd, directory) ==> r == []
    ensures IsDirAt(fs, cwd, directory) ==>
              forall x :: x in r <==> exists n :: Resolve(cwd, directory) + [n] in fs && x == Join(directory, n)
                                                 && Kept(fs, cwd, directory, extensions, n)
  {
    if !Exists(fs, cwd, directory) || !IsDirAt(fs, cwd, directory) then []
    else Collect(fs, cwd, directory, extensions, ListDir(fs, Resolve(cwd, directory)).value)
  }

  /** `list_files` with `extensions=None` keeps every regular file, so the
      filtered listings are among it. */
  lemma ListFilesFiltered(fs: Fs, cwd: Path, directory: string, extensions: seq<string>)
    ensures forall x :: x in ListFiles(fs, cwd, directory, Some(extensions)) ==> x in ListFiles(fs, cwd, directory, None)
  {
  }

  /** One more name of the listing. */
  lemma CollectNext(fs: Fs, cwd: Path, directory: string, extensions: Option<seq<string>>, names: seq<string>, i: nat)
    requires i < |names|
    ensures Collect(fs, cwd, directory, extensions, names[..i + 1])
            == Collect(fs, cwd, directory, extensions, names[..i])
               + (if Kept(fs, cwd, directory, extensions, names[i]) then [Join(directory, names[i])] else [])
  {
    Seqs.InitOf(names, i);
  }

  /** The loop of `list_files`. */
  method ListFilesIn(fs: Fs, cwd: Path, directory: string, extensions: Option<seq<string>>) returns (files: seq<string>)
    ensures files == ListFiles(fs, cwd, directory, extensions)
  {
    if !Exists(fs, cwd, directory) || !IsDirAt(fs, cwd, directory) {
      return [];
    }
    var names := ListDir(fs, Resolve(cwd, directory)).value;
    files := [];
    var i := 0;
    while i < |names|
      invariant 0 <= i <= |names|
      invariant files == Collect(fs, cwd, directory, extensions, names[..i])
    {
      var filePath := Join(directory, names[i]);
      CollectNext(fs, cwd, directory, extensions, names, i);
      if IsFileAt(fs, cwd, filePath) {
        if extensions.None? || FileExtension(names[i]) in extensions.value {
          files := files + [filePath];
        }
      }
      i := i + 1;
    }
    assert names[..i] == names;
  }

  // ---------------------------------------------------------------- joining

  /** `join_paths(*paths)`: `os.path.join` of the components from left to
      right; with no component at all Python raises. */
  function JoinPaths(ps: seq<string>): (r: Option<string>)
    ensures r.None? <==> ps == []
    ensures |ps| == 1 ==> r == Some(ps[0])
    ensures r.Some? ==> EndsWith(r.value, ps[|ps| - 1])
    ensures r.Some? && IsAbs(ps[|ps| - 1]) ==> r.value == ps[|ps| - 1]
    decreases |ps|
  {
    if ps == [] then None
    else if |ps| == 1 then Some(ps[0])
    else Some(Join(JoinPaths(ps[..|ps| - 1]).value, ps[|ps| - 1]))
  }

  // ---------------------------------------------------------------- the prompt

  /** What `get_paths` writes to the terminal: each `print` and each `input`
      prompt is one text, in order (`print`'s line end left off). */
  const PathsIntro: string := "\nEnter paths (or 'cancel' to return to menu):"
  const SourcePrompt: string := "Source path: "
  const DestinationPrompt: string := "Destination path: "

  function MissingSource(s: string): string {
    "Error: Source path '" + s + "' does not exist."
  }

  function CreatePrompt(d: string): string {
    "Destination '" + d + "' does not exist. Create it? (y/n): "
  }

  function CreatedMessage(d: string): string {
    "Created directory: " + d
  }

  const CreateFailed: string := "Error creating directory: " + ManagerCore.OsErrorText

  /** The part of `get_paths()` after both answers passed the cancel test:
      `s` and `d` are the expanded paths. The result is the pair of paths or
      nothing, the tree, and what is written after the two prompts. */
  function CheckPaths(fs: Fs, cwd: Path, s: string, d: string, create: string, now: Moment)
    : (r: (Option<(string, string)>, Fs, seq<string>))
    ensures r.0.Some? ==> r.0.value == (s, d) && Exists(r.1, cwd, s) && Exists(r.1, cwd, d)
    ensures r.1 != fs ==> Lower(create) == "y" && !Exists(fs, cwd, d)
    ensures r.0.Some? <==> Exists(fs, cwd, s) && (Exists(fs, cwd, d) || (Lower(create) == "y" && IsDirAt(r.1, cwd, d)))
    ensures !Exists(fs, cwd, s) ==> r.2 == [MissingSource(s)]
    ensures Exists(fs, cwd, s) && Exists(fs, cwd, d) ==> r.2 == []
    ensures Exists(fs, cwd, s) && !Exists(fs, cwd, d) ==>
              r.2 == [CreatePrompt(d)] + (if Lower(create) != "y" then []
                                          else if r.0.Some? then [CreatedMessage(d)] else [CreateFailed])
  {
    if !Exists(fs, cwd, s) then (None, fs, [MissingSource(s)])
    else if Exists(fs, cwd, d) then (Some((s, d)), fs, [])
    else if Lower(create) != "y" then (None, fs, [CreatePrompt(d)])
    else
      var (fs1, ok) := EnsureDirectory(fs, cwd, d, now);
      if ok then (Some((s, d)), fs1, [CreatePrompt(d), CreatedMessage(d)])
      else (None, fs, [CreatePrompt(d), CreateFailed])
  }

  /** `get_paths()` with the three answers given: the source, the destination,
      and (asked only when the destination is missing) whether to create it.
      Both paths are stripped, checked for the cancel word and expanded; `home`
      and `users` are what `~` and `~name` expand to. The result is the pair
      of paths or nothing, the tree, and the terminal output. */
  function GetPaths(fs: Fs, cwd: Path, home: string, users: map<string, string>,
                    source: string, destination: string, create: string,
                    now: Moment): (r: (Option<(string, string)>, Fs, seq<string>))
    ensures IsCancelCommand(Strip(source)) ==> r == (None, fs, [PathsIntro, SourcePrompt])
    ensures !IsCancelCommand(Strip(source)) && IsCancelCommand(Strip(destination)) ==>
              r == (None, fs, [PathsIntro, SourcePrompt, DestinationPrompt])
    ensures r.0.Some? ==> r.0.value == (ExpandUser(home, users, Strip(source)), ExpandUser(home, users, Strip(destination)))
    ensures r.0.Some? ==> Exists(r.1, cwd, r.0.value.0) && Exists(r.1, cwd, r.0.value.1)
    ensures r.1 != fs ==> Lower(create) == "y" && !Exists(fs, cwd, ExpandUser(home, users, Strip(destination)))
    ensures !IsCancelCommand(Strip(source)) && !IsCancelCommand(Strip(destination)) ==>
              var s := ExpandUser(home, users, Strip(source));
              var d := ExpandUser(home, users, Strip(destination));
              && (r.0.Some? <==> Exists(fs, cwd, s) && (Exists(fs, cwd, d) || (Lower(create) == "y" && IsDirAt(r.1, cwd, d))))
              && r.2 == [PathsIntro, SourcePrompt, DestinationPrompt] + CheckPaths(fs, cwd, s, d, create, now).2
  {
    var src := Strip(source);
    if IsCancelCommand(src) then (None, fs, [PathsIntro, SourcePrompt])
    else
      var dst := Strip(destination);
      var asked := [PathsIntro, SourcePrompt, DestinationPrompt];
      if IsCancelCommand(dst) then (None, fs, asked)
      else
        var c := CheckPaths(fs, cwd, ExpandUser(home, users, src), ExpandUser(home, users, dst), create, now);
        (c.0, c.1, asked + c.2)
  }

  /** With `HOME=/home/u/` the answer `~` names `/home/u`, and with an empty
      `HOME` it names the root. */
  lemma TildeAnswer(users: map<string, string>)
    ensures ExpandUser("/home/u/", users, "~") == "/home/u"
    ensures ExpandUser("", users, "~") == "/"
  {
    assert RStripSlash("/home/u") == "/home/u";
  }
}
