# OnlyFiles, modelled in Dafny

OnlyFiles is a Python tool that tidies a folder: it moves the files it finds
into category folders (by type, extension, date or size), writes one log line
per move, and can undo the last action by reading those lines back. This
project models that organize-then-revert engine and the smaller pieces around
it, and proves what each of them promises:

- the packaged `FileManager` (`src/onlyfiles/core/file_manager.py`): the
  exclusion lists, the filtered listing, the path checks, the move loops by
  type, by extension, by date and by size, backups, the move-log line and its
  parser, and `revert_last_action` with its five-second window measured from
  the newest record and its oldest-first replay;
- the category table (`src/onlyfiles/core/file_types.py`) and the driver that
  runs every category (`Execution.py`);
- the second engine (`src/core/file_organizer.py`, `src/core/file_operations.py`):
  the `organize_*` result maps, collision renaming, backups and their
  restoration, and `revert_last_organization`;
- the legacy mover (`File_Manager.py`), the three log stores (`logger.py`,
  `src/onlyfiles/utils/logger.py`, `src/utils/logging.py`) and the monthly
  log file names;
- the path helpers (`basic_file_path.py`, `File_Path_Changer.py`,
  `src/utils/path_utils.py`), the help-text parser
  (`src/onlyfiles/utils/help_manager.py`) and the folder navigator
  (`src/utils/file_navigator.py`).

The file system is a map from absolute paths (sequences of components) to
nodes, a file with its size and creation time or a directory. Each
file-system call (`shutil.move`, `os.makedirs`, `shutil.copytree`, ...) is a
total function that returns `None` where Python raises. A log file is its
whole content as a string. The clock, the environment, the platform and every
answer typed at a prompt are parameters. Where the source updates state step
by step, the model is a method with a loop, proved equal to a specification
function. The lemmas beside that function state what the source promises.
Objects whose fields the source updates (`FileManager`, `Execution`, the
loggers, `HelpManager`) are classes.

## Model

| member | source | states |
|---|---|---|
| Strings.Find | src/onlyfiles/core/file_manager.py:417 | the first occurrence of a text: it occurs there, nowhere before, and `None` means it occurs nowhere |
| Strings.JoinSplit | src/onlyfiles/core/file_manager.py:470 | `sep.join(s.split(sep)) == s`: splitting loses nothing |
| Strings.Split | src/onlyfiles/core/file_manager.py:470 | `s.split(sep)`: at least one piece; `Strings.JoinSplit` joins the pieces back into `s` |
| Strings.SplitJoinChar | File_Path_Changer.py:105 | splitting the comma-joined list of comma-free parts gives the parts back |
| Strings.SplitCharFirst | src/onlyfiles/core/file_manager.py:347 | splitting at the first separator keeps the text before it as the first part |
| Strings.Strip | File_Path_Changer.py:6 | `strip()`: no whitespace is left at either end |
| Strings.StripSlice | File_Path_Changer.py:6 | the stripped text is a slice of the input with only whitespace cut from each end |
| Strings.StripPadded | basic_file_path.py:7 | leading whitespace does not change the stripped text |
| Strings.StripKeeps | src/onlyfiles/utils/help_manager.py:71 | a text with no whitespace at either end strips to itself |
| Strings.NatToString | src/utils/file_navigator.py:36 | `str(n)` is a non-empty string of digits |
| Strings.NatToStringValue | src/utils/file_navigator.py:36 | `int(str(n)) == n` |
| Strings.PaddedRoundTrip | src/core/file_organizer.py:91 | `str(n).zfill(w)` for `n < 10^w` is `w` digits that read back as `n` |
| Strings.PyInt | src/onlyfiles/core/file_manager.py:347 | `int(s)` of a string of digits is its value |
| Strings.SplitOnce | src/onlyfiles/utils/help_manager.py:34 | `split(maxsplit=1)`: at most two pieces, none empty |
| Strings.ZFill | src/core/file_organizer.py:91 | `zfill(w)` pads to width `w` and never shortens |
| Strings.LowerSuffix | src/onlyfiles/core/file_manager.py:211 | lower-casing keeps a suffix a suffix |
| Strings.Lower | src/onlyfiles/core/file_manager.py:211 | `s.lower()` on ASCII, of the same length; `Strings.LowerSuffix` and `Strings.LowerIdempotent` are its properties |
| Strings.Upper | src/utils/file_navigator.py:106 | `s.upper()` on ASCII, of the same length; `FileNavigator.NumberReadsBack` shows a row number survives it |
| Clock.SameDayDifference | src/onlyfiles/core/file_manager.py:470-476 | within one day the difference of two moments in seconds is read off hours, minutes and seconds |
| Clock.FormatTs | src/onlyfiles/utils/logger.py:190-191 | `%Y-%m-%d %H:%M:%S` is 19 characters |
| Clock.ParseTs | src/onlyfiles/core/file_manager.py:471 | `strptime` with `%Y-%m-%d %H:%M:%S`, read on the zero-padded layout the logger writes, yields only valid moments |
| Clock.ParseFormat | src/onlyfiles/core/file_manager.py:470-471 | parsing a formatted log timestamp gives back the moment |
| Clock.FormatTsLayout | src/onlyfiles/utils/logger.py:190-191 | the timestamp has its dashes, space and colons at fixed places and digits elsewhere |
| Clock.FormatTsAvoids | src/onlyfiles/utils/logger.py:190-191 | the timestamp holds no character other than digits, `-`, space and `:` |
| Clock.FormatDate | src/onlyfiles/core/file_manager.py:240 | `%Y-%m-%d` is 10 characters |
| Clock.FormatCompact | src/core/file_operations.py:27 | `%Y%m%d_%H%M%S` is 15 characters |
| Clock.FormatCompactAvoids | src/core/file_operations.py:27 | the compact stamp holds only digits and `_` |
| Clock.FormatMonth | src/utils/logging.py:12 | `%Y%m` is six digits |
| PosixPath.RFind | src/onlyfiles/core/file_manager.py:125 | the last index of a character, `-1` when absent |
| PosixPath.Basename | src/onlyfiles/core/file_manager.py:125 | `os.path.basename`: a slash-free suffix of the path |
| PosixPath.BasenameJoin | src/onlyfiles/core/file_manager.py:34 | the base name of `join(d, f)` is `f` |
| PosixPath.SplitExt | src/core/file_organizer.py:31 | `os.path.splitext`: stem and extension concatenate to the name; the extension is empty or a dot followed by no dot or slash |
| PosixPath.ExtOfName | src/core/file_organizer.py:31 | `stem.e` splits into `stem` and `.e` |
| PosixPath.ExtAfterStem | src/core/file_operations.py:127 | a stem followed by an extension splits back into the two |
| PosixPath.NormPath | src/utils/path_utils.py:98 | `os.path.normpath` is never empty |
| PosixPath.NormPathComponents | src/utils/path_utils.py:98 | the normalised components are names, or leading `..` in a relative path |
| PosixPath.ResolveJoin | src/onlyfiles/core/file_manager.py:77-78 | `join(d, f)` names the entry `f` inside `d` |
| PosixPath.ResolveDirnameJoin | src/onlyfiles/core/file_manager.py:400-407 | the directory of `join(o, c)` is `o` |
| PosixPath.PureSibling | src/core/file_operations.py:152-163 | `Path(p).name` and `.parent` are the last component and the rest of the location; `p + x` is their sibling |
| PosixPath.ExpandUser | src/utils/path_utils.py:85 | `os.path.expanduser`: a path not starting with `~` is kept; `~` alone is the home without its trailing slashes, or `/` when nothing is left; `~/rest` is that home followed by `/rest`; a non-empty path never expands to empty text |
| PosixPath.ExpandUserNamed | src/utils/path_utils.py:85 | `~name` and `~name/rest` take that user's home from the password table, trailing slashes dropped; an unknown user leaves the path as typed |
| PosixPath.Join | src/onlyfiles/core/file_manager.py:77 | `os.path.join(a, b)`: `b` when absolute, else `a` and `b` with one slash between, none added after a trailing one; no contract of its own, `PosixPath.ResolveJoin` and `PosixPath.BasenameJoin` state what it names |
| PosixPath.Dirname | src/onlyfiles/core/file_manager.py:400-407 | `os.path.dirname`: the text up to the last slash, trailing slashes dropped unless only slashes remain; `PosixPath.ResolveDirnameJoin` states its meaning |
| PosixPath.Ext | src/core/file_organizer.py:31 | the extension part of `os.path.splitext`; `PosixPath.SplitExt`, `PosixPath.ExtOfName` and `PosixPath.ExtAfterStem` state it |
| PosixPath.AbsPath | File_Path_Changer.py:30 | `os.path.abspath(p)`: the normalised join of the working directory and a relative `p`, or the normalised absolute `p`; `PosixPath.NormPath` states it is never empty |
| PosixPath.Resolve | src/onlyfiles/core/file_manager.py:77-78 | the location a path string names from the working directory: absolute paths from the root, `.` and empty parts skipped, `..` climbing; `PosixPath.ResolveJoin` and `PosixPath.ResolveDirnameJoin` are its properties |
| FileSystem.NothingBelowFile | src/core/file_organizer.py:26 | in a well-formed tree nothing lies under a file |
| FileSystem.AncestorsAreDirs | src/core/file_organizer.py:26 | every ancestor of an entry is a directory |
| FileSystem.Children | src/core/file_organizer.py:26 | the names directly inside a location |
| FileSystem.ListDir | src/core/file_organizer.py:26 | `os.listdir` succeeds exactly on directories and lists each child once, in ascending order |
| FileSystem.MakeDirs | src/core/file_organizer.py:39 | `makedirs(exist_ok=True)`: afterwards a directory, nothing existing changes, only directories on the way appear; an existing directory is left as it is |
| FileSystem.MakeDirsValid | src/core/file_organizer.py:39 | `makedirs` keeps the tree well formed |
| FileSystem.MakeDirsFails | src/core/file_organizer.py:39 | `makedirs` raises exactly when a file lies on the way |
| FileSystem.MakeDirsIdempotent | src/core/file_organizer.py:39 | a second `makedirs` of the same path changes nothing |
| FileSystem.Relocate | src/core/file_organizer.py:48 | renaming moves a whole subtree and keeps everything outside it |
| FileSystem.Rename | src/core/file_organizer.py:48 | `os.rename`: a missing source raises; a file replaces a file in an existing folder; a directory is re-rooted at a free place outside itself; `FileSystem.MoveFile` and `FileSystem.MoveKeepsOutside` state the effect |
| FileSystem.MoveTarget | src/core/file_organizer.py:48 | where `shutil.move` puts `src`: inside `dst` when that is a directory, otherwise at `dst` |
| FileSystem.Move | src/core/file_organizer.py:48 | `shutil.move`: into a directory target under the source's name, refusing a name already there, otherwise a rename; `FileSystem.MoveFile`, `FileSystem.MoveFileBack` and `FileSystem.MoveFileValid` state its effect |
| FileSystem.MoveFile | src/core/file_organizer.py:48 | `shutil.move` of a file succeeds exactly when the target's folder exists and the target is not a directory; the file then sits at the target with its contents and everything else is unchanged |
| FileSystem.MoveFileBack | src/onlyfiles/core/file_manager.py:388-441 | moving a file to a free place and back restores the tree |
| FileSystem.MoveFileValid | src/core/file_organizer.py:48 | moving a file keeps the tree well formed |
| FileSystem.MoveKeepsOutside | src/core/file_organizer.py:48 | a move removes nothing outside the moved entry |
| FileSystem.CopyFile | src/core/file_operations.py:31 | `shutil.copy2` puts a file of the same size at the target and changes nothing else |
| FileSystem.CopyTargets | src/core/file_operations.py:34 | each copied entry has exactly one place in the copy |
| FileSystem.CopyDest | src/onlyfiles/core/file_manager.py:356-358 | where `copytree` writes a source entry: strictly below the target, at its own place, or inside that place when a file meets an existing directory there |
| FileSystem.CopyDestWritten | src/onlyfiles/core/file_manager.py:356-358 | without a clash a source entry's destination is written by the copy, and a redirected file lands inside the directory it met |
| FileSystem.CopyDestAlone | src/onlyfiles/core/file_manager.py:356-358 | without a conflict, a place that receives its own source entry does not also receive a file copied into it |
| FileSystem.OverlayAt | src/onlyfiles/core/file_manager.py:356-358 | an unwritten place keeps its node; a place a file is copied into holds that file's size stamped now; a copied file keeps its size, a copied directory is a directory |
| FileSystem.OverlaySource | src/onlyfiles/core/file_manager.py:356-358 | the node the copy leaves at a source entry's destination: the file's size stamped now, or a directory |
| FileSystem.CopyOverlay | src/onlyfiles/core/file_manager.py:356-358 | without a clash, every source entry is written at its destination (a file copied onto an existing directory goes inside it) with its size, or as a directory; every entry the copy does not write is kept, and nothing else appears |
| FileSystem.CopyTree | src/onlyfiles/core/file_manager.py:329 | `shutil.copytree(src, dst, dirs_exist_ok)`: the target is a directory; every source entry is at its destination, a file with its size and stamped now, a directory as a directory; a file copied onto an existing directory lands inside it; entries the copy does not write are kept, and a new entry is either on the way to the target or written by the copy |
| FileSystem.CopyDestFresh | src/core/file_operations.py:34 | into a target that did not exist, nothing is redirected: every entry lands at its own place below the target |
| FileSystem.CopyIntoDirectoryExample | src/onlyfiles/core/file_manager.py:351-358 | an illustration of `FileSystem.CopyDest`: restoring `/d/backup_5/sub`, whose `x` is a file, onto `/d/sub`, whose `x` is a directory, succeeds and leaves the file at `/d/sub/x/x`, `/d/sub/x` still a directory |
| FileSystem.RmTree | src/core/file_operations.py:78 | `shutil.rmtree` removes exactly the subtree |
| FileSystem.RmDir | src/core/file_organizer.py:300 | `os.rmdir` succeeds exactly on an empty directory other than the root and removes just it |
| Seqs.Filter | src/core/file_organizer.py:26 | a list comprehension with an `if`: no longer than the input, exactly its kept elements |
| Seqs.FilterAppend | src/core/file_organizer.py:26 | filtering keeps the order of the input |
| Seqs.FilterDistinct | src/core/file_organizer.py:26 | filtering a list without repeats gives one without repeats |
| Seqs.ArgMax | src/core/file_operations.py:68-70 | the first index of a largest value, as a stable descending sort puts first |
| Sorting.LessIrreflexive | src/utils/file_navigator.py:29 | string order is irreflexive |
| Sorting.LessTransitive | src/utils/file_navigator.py:29 | string order is transitive |
| Sorting.LessTotal | src/utils/file_navigator.py:29 | any two strings are equal or ordered one way |
| Sorting.PrefixLess | src/utils/file_navigator.py:29 | a proper prefix sorts first |
| Sorting.SortedList | src/utils/file_navigator.py:29 | `sorted(names)`: each name once, nothing else, ascending |
| Sorting.Reverse | src/utils/logging.py:86 | the elements in opposite order |
| Sorting.ReverseDescending | src/utils/logging.py:86 | reversing an ascending list gives a descending one |
| Sorting.SortedListDesc | src/utils/logging.py:86 | `sorted(names, reverse=True)` of distinct names: each once, descending |
| Sorting.InsertDesc | src/utils/logging.py:86 | inserting keeps a list non-increasing and adds exactly the element |
| Sorting.SortDesc | src/utils/logging.py:86 | `sorted(s, reverse=True)`: non-increasing and a permutation of `s` |
| Glob.MatchLiteral | src/utils/logging.py:76 | a pattern without wildcards matches only itself |
| Glob.MatchStar | src/core/file_operations.py:116 | a leading `*` matches exactly when the rest matches some suffix |
| Glob.MatchSuffix | src/core/file_operations.py:116 | `*` followed by a literal matches exactly the names ending with it |
| Glob.StarStar | src/core/file_operations.py:116 | for the matcher, two leading stars match as one star |
| Glob.MatchPrefix | src/utils/logging.py:76 | a literal followed by `*` matches every extension of it |
| Glob.MatchLiteralHead | src/utils/logging.py:76 | a literal head must be matched literally |
| Glob.TxtExample | src/core/file_operations.py:116 | an illustration of `Glob.MatchSuffix` and `Glob.StarStar` for the matcher alone: the pattern `**.txt` matches exactly the names ending with `.txt` |
| BasicFilePath.CancelarPadded | basic_file_path.py:5-8 | leading whitespace in front of an answer never changes whether it is read as `cancelar`/`-c` |
| BasicFilePath.CancelarLower | basic_file_path.py:5-8 | the cancel check ignores case: an answer and its lower case get the same verdict |
| BasicFilePath.StripLower | basic_file_path.py:7 | stripping and lower-casing commute, so the order `strip().lower()` does not matter |
| BasicFilePath.Prepare | basic_file_path.py:42-47 | `makedirs` then `chdir`: paths come back exactly when the destination can be made and the origin is a directory; the working directory becomes the origin, the destination is then a directory, nothing existing changes and only directories under the destination appear |
| BasicFilePath.BasicFilePath | basic_file_path.py:10-47 | no paths exactly when the origin is a cancel word, missing, or the destination is a cancel word or the same place (one message printed, tree and directory unchanged); the cancel and missing cases print their own message; paths returned only with the working directory moved into an existing origin and an existing destination; the raise cases named exactly |
| BasicFilePath.BasicFilePathKeeps | basic_file_path.py:36-45 | whatever the answers, every existing entry survives unchanged and every new entry is a directory on the way to the destination |
| BasicFilePath.BasicFilePathRecords | basic_file_path.py:12-13 | the first log record of every run is the chosen origin |
| BasicFilePath.BasicFilePathIn | basic_file_path.py:10-47 | the early-return code computes exactly `BasicFilePath` |
| PathChanger.Prologue | File_Path_Changer.py:9-38 | the shared prompt of the three commands: logs nothing; stops exactly when `basic_file_path` declines, changing neither tree nor directory; otherwise enters the origin with the destination existing |
| PathChanger.PrologueAgrees | File_Path_Changer.py:9-38 | the prompt copied into `File_Path_Changer.py` behaves as `basic_file_path` in everything but the log records |
| PathChanger.PrepareIgnoresLog | File_Path_Changer.py:35-38 | creating the destination and entering the origin neither read nor change the log records |
| PathChanger.MoveStep | File_Path_Changer.py:47-54 | one `shutil.move` inside `try`: the tree after the move and a success line, or the tree unchanged and an error line |
| PathChanger.MoveStepLands | File_Path_Changer.py:48-49 | when the success line is printed the file is at the move's target with its contents, and gone from where it was |
| PathChanger.MoveStepKeeps | File_Path_Changer.py:48 | a move removes nothing outside the moved entry |
| PathChanger.AllStep | File_Path_Changer.py:41-54 | a name that is not a regular file only prints a skip line; a regular file is moved to the same name under the destination |
| PathChanger.AllLoopReports | File_Path_Changer.py:41-54 | the loop prints exactly one line per listed name, in listing order, after the earlier output, and leaves directory and log alone |
| PathChanger.AllLoopSkips | File_Path_Changer.py:46-51 | a listing with no regular file leaves the tree as it was |
| PathChanger.MoveFiles | File_Path_Changer.py:9-54 | `move_files` (on the folders the user named, see Findings): declining changes nothing; an exception escapes exactly when the prompt raises; after the prompt one line per entry of the origin is printed inside the origin |
| PathChanger.MoveFilesIn | File_Path_Changer.py:9-54 | the imperative code computes exactly `MoveFiles` |
| PathChanger.AllEach | File_Path_Changer.py:41-54 | the loop computes exactly `AllLoop` |
| PathChanger.AllLoop | File_Path_Changer.py:41-54 | the `move_files` loop over the listing, one `AllStep` per name; `PathChanger.AllLoopReports` and `PathChanger.AllLoopSkips` state its effect |
| PathChanger.AsWrittenStep | File_Path_Changer.py:42-51 | as written: a name for which `join(origin, file)` is no regular file only prints a skip line |
| PathChanger.MoveFilesAsWritten | File_Path_Changer.py:9-54 | `move_files` as written; declining leaves the tree alone |
| PathChanger.AsWrittenStepSkips | File_Path_Changer.py:38-51 | as written, after entering a relative origin no name is found, since `origin/origin` does not exist |
| PathChanger.SkipLines | File_Path_Changer.py:51 | one skip line per name, in order |
| PathChanger.AsWrittenSkipsAll | File_Path_Changer.py:38-54 | as written, with a relative origin the loop moves nothing and prints a skip line for every name |
| PathChanger.AfterPromptValid | File_Path_Changer.py:35-38 | the tree of the counterexample in Findings is well formed |
| PathChanger.RelativeOriginSkipsFile | File_Path_Changer.py:41-51 | as written, `/work/src/a.txt` with answers `src` and `dst` is skipped and stays where it was |
| PathChanger.NamedFoldersMoveFile | File_Path_Changer.py:41-49 | on the folders the user named the same input moves `a.txt` into `dst` |
| PathChanger.RegularFiles | File_Path_Changer.py:89 | the names listed in the working directory that are regular files, and only those |
| PathChanger.AllRead | File_Path_Changer.py:105 | readings give indices exactly when every one succeeded, each one less than the number read |
| PathChanger.Indices | File_Path_Changer.py:105 | `[int(x.strip()) - 1 for x in ...]` succeeds exactly when every token reads as an integer, one index per token, each one less |
| PathChanger.Tokens | File_Path_Changer.py:105 | one reading per token, in order |
| PathChanger.SelectionRoundTrip | File_Path_Changer.py:103-105 | typing the numbers `k1,k2,...` gives back the indices `k1-1, k2-1, ...` |
| PathChanger.NumbersFacts | File_Path_Changer.py:105 | no written number holds the comma that separates them |
| PathChanger.IndicesOfNumbers | File_Path_Changer.py:105 | each written number reads back as itself, one less as index |
| PathChanger.NumberToken | File_Path_Changer.py:105 | `str(k)` has no comma and `int(str(k).strip())` is `k` |
| PathChanger.SelectStep | File_Path_Changer.py:108-119 | an index out of range only prints the invalid-index line with the one-based number; one in range moves that file |
| PathChanger.SelectLoopLeaves | File_Path_Changer.py:108-119 | whatever disappears from the tree lay under a selected file of the origin |
| PathChanger.MoveSelected | File_Path_Changer.py:56-121 | `move_selected_files`: declining changes nothing; an exception escapes exactly when the prompt raises; a cancel word or an unreadable selection only prints its message |
| PathChanger.MoveSelectedIn | File_Path_Changer.py:56-121 | the imperative code computes exactly `MoveSelected` |
| PathChanger.SelectEach | File_Path_Changer.py:108-119 | the loop computes exactly `SelectLoop` |
| PathChanger.SelectLoop | File_Path_Changer.py:108-119 | the `move_selected_files` loop over the chosen indices, one `SelectStep` each; `PathChanger.SelectLoopLeaves` and `PathChanger.SelectFailures` state its effect |
| PathChanger.RejoinedFails | File_Path_Changer.py:112-117 | as written, inside a relative origin `o` without a sub-folder `o`, the re-joined source is missing, so `shutil.move` fails and only its error is printed |
| PathChanger.SelectStepAsWritten | File_Path_Changer.py:108-119 | as written, an index out of range prints its one-based number and changes nothing |
| PathChanger.MoveSelectedAsWritten | File_Path_Changer.py:56-121 | `move_selected_files` with the source and target re-joined as at lines 112-113; declining changes nothing |
| PathChanger.SelectFailures | File_Path_Changer.py:108-119 | one report per selected index, in order: a failed move in range, an invalid index otherwise |
| PathChanger.SelectStepFails | File_Path_Changer.py:108-119 | as written, inside such a relative origin one index only prints its report |
| PathChanger.SelectAsWrittenFails | File_Path_Changer.py:108-119 | as written, inside such a relative origin no selected file moves, and each index prints its report in order |
| PathChanger.SelectionOne | File_Path_Changer.py:105 | the answer `1` selects index 0 |
| PathChanger.RelativeOriginSetup | File_Path_Changer.py:35-38 | the counterexample tree is well formed, the origin `src` has no `src` of its own and the listing holds plain names |
| PathChanger.RelativeOriginFailsSelected | File_Path_Changer.py:108-117 | as written, selecting `1` in `/work/src` with answers `src` and `dst` prints a failed move for `a.txt`, which stays where it was |
| PathChanger.NamedMove | File_Path_Changer.py:112-114 | from the named folders `shutil.move` takes `a.txt` into `dst` |
| PathChanger.NamedFoldersMoveSelected | File_Path_Changer.py:108-115 | on the folders the user named the same selection moves `a.txt` into `dst` |
| PathChanger.CounterexampleNames | File_Path_Changer.py:41 | `src` and `a.txt` are plain names |
| PathChanger.Extension | File_Path_Changer.py:170-172 | the typed extension with a dot in front unless it has one already |
| PathChanger.Matching | File_Path_Changer.py:175 | exactly the listed files whose lower-cased name ends with the extension |
| PathChanger.TypedExtensionMatches | File_Path_Changer.py:164-175 | a file `stem.e` matches whether the user types `e` or `.e`, in any case |
| PathChanger.LowerDot | File_Path_Changer.py:164 | lower-casing keeps the leading dot |
| PathChanger.TypedExtension | File_Path_Changer.py:164-172 | `e` and `.e`, in any case, both become the extension `.e` lower-cased |
| PathChanger.DottedSuffix | File_Path_Changer.py:175 | `stem.e`, lower-cased, ends with `.e` lower-cased |
| PathChanger.FileExtensionMatches | File_Path_Changer.py:175 | a file whose `get_file_extension` is the typed extension is among the matches |
| PathChanger.MatchLoopReports | File_Path_Changer.py:193-200 | one success or error line per matching file, in order |
| PathChanger.MatchLoopLeaves | File_Path_Changer.py:193-200 | whatever disappears from the tree lay under a matching file |
| PathChanger.ByExtension | File_Path_Changer.py:164-200 | a cancel word, no match, or a confirmation other than `s` only print their message; after a confirmation one line per matching file |
| PathChanger.MoveByExtension | File_Path_Changer.py:123-200 | `move_by_extension`: declining changes nothing; an exception escapes exactly when the prompt raises; otherwise the rest runs inside the origin |
| PathChanger.MoveByExtensionIn | File_Path_Changer.py:123-200 | the imperative code computes exactly `MoveByExtension` |
| PathChanger.ByExtensionIn | File_Path_Changer.py:164-200 | the filter, confirmation and loop compute exactly `ByExtension` |
| PathChanger.MatchEach | File_Path_Changer.py:193-200 | the loop computes exactly `MatchLoop` |
| PathChanger.MatchLoop | File_Path_Changer.py:193-200 | the `move_by_extension` loop over the matching files, one move each; `PathChanger.MatchLoopReports` and `PathChanger.MatchLoopLeaves` state its effect |
| PathChanger.ByExtensionAsWritten | File_Path_Changer.py:164-200 | as written, a cancel word, no match or a confirmation other than `s` only print their message |
| PathChanger.MoveByExtensionAsWritten | File_Path_Changer.py:123-200 | `move_by_extension` with the source and target re-joined as at lines 195-196; declining changes nothing |
| PathChanger.FailLines | File_Path_Changer.py:193-200 | one failed-move report per name, in order |
| PathChanger.MatchAsWrittenFails | File_Path_Changer.py:193-200 | as written, inside a relative origin `o` without a sub-folder `o`, no matching file moves and each prints a failed move |
| PathChanger.RelativeOriginFailsExtension | File_Path_Changer.py:193-200 | as written, moving the `txt` files of `/work/src` with answers `src` and `dst` prints a failed move for `a.txt`, which stays where it was |
| PathChanger.NamedFoldersMoveExtension | File_Path_Changer.py:193-198 | on the folders the user named the same loop moves `a.txt` into `dst` |
| FileTypes.Keys | src/onlyfiles/core/file_types.py:6-12 | the category names of the table, in its order |
| FileTypes.Lookup | src/onlyfiles/core/file_types.py:6-12 | `file_types[key]`: the extensions of that category, the only ones when names do not repeat |
| FileTypes.TableExtensionsLower | src/onlyfiles/core/file_types.py:7-10 | every listed extension is a dot followed by lower-case letters and digits |
| FileTypes.AllLowerExtsOf | src/onlyfiles/core/file_types.py:7-10 | a list of plain extensions is all lower case |
| FileTypes.PlainExtLower | src/onlyfiles/core/file_types.py:7-10 | a plain extension is a lower-case one |
| FileTypes.TableKeys | src/onlyfiles/core/file_types.py:6-12 | the categories are Music, Videos, Images, Documents and Others, each once |
| FileTypes.OthersEmpty | src/onlyfiles/core/file_types.py:11 | Others lists no extension |
| FileTypes.TableDisjoint | src/onlyfiles/core/file_types.py:6-12 | no extension belongs to two categories |
| ManagerCore.Log | src/onlyfiles/utils/logger.py:210-244 | logging appends exactly one formatted line and touches neither tree nor directory |
| ManagerCore.MakeDirsAt | src/onlyfiles/core/file_manager.py:67 | `makedirs` of a path string: afterwards a directory there; an existing one is left as it is |
| ManagerCore.AddExcluded | src/onlyfiles/core/file_manager.py:24-29 | the name is appended and `True` returned exactly when it was not listed yet |
| ManagerCore.AddExcludedDistinct | src/onlyfiles/core/file_manager.py:24-29 | the exclusion list never holds a name twice |
| ManagerCore.Unexcluded | src/onlyfiles/core/file_manager.py:51 | exactly the listed names whose joined path is not excluded |
| ManagerCore.ListFiles | src/onlyfiles/core/file_manager.py:44-54 | for a directory, exactly its unexcluded children and no log line; otherwise `[]` and the error line |
| ManagerCore.ValidatePaths | src/onlyfiles/core/file_manager.py:56-72 | success leaves the log alone and the absolute destination a directory; a missing origin gives `False` and its error line; failure leaves the tree unchanged |
| ManagerCore.MoveOne | src/onlyfiles/core/file_manager.py:74-110 | `True` exactly when the source is unexcluded and present, the destination present and the move succeeds; then the tree is the moved one and one success line is logged; otherwise the tree stays and a line is logged |
| ManagerMoves.FirstMatch | src/onlyfiles/core/file_manager.py:140-148 | the first extension the name ends with, `None` when there is none |
| ManagerMoves.ByTypeStep | src/onlyfiles/core/file_manager.py:130-150 | a matching regular file other than the destination folder is moved, the folder made before the first one; anything else leaves the run alone |
| ManagerMoves.ByTypeLoop | src/onlyfiles/core/file_manager.py:130-150 | the loop keeps the working directory and only adds to the log |
| ManagerMoves.ByTypeLoopNoMatch | src/onlyfiles/core/file_manager.py:140-148 | when no name matches, nothing happens at all |
| ManagerMoves.ByTypeLoopRaised | src/onlyfiles/core/file_manager.py:144 | after `makedirs` raises, nothing further happens |
| ManagerMoves.ByTypeLoopStops | src/onlyfiles/core/file_manager.py:144 | once an exception escapes the later names are never reached |
| ManagerMoves.MoveFilesByType | src/onlyfiles/core/file_manager.py:112-150 | failed validation only logs; an empty listing stops; otherwise the loop over the listing |
| ManagerMoves.KnownExtensions | src/onlyfiles/core/file_manager.py:175-177 | exactly the lower-cased extensions of the table |
| ManagerMoves.OtherStep | src/onlyfiles/core/file_manager.py:179-195 | a regular file whose lower-cased extension no category knows is moved; anything else is left |
| ManagerMoves.OtherLoop | src/onlyfiles/core/file_manager.py:179-195 | the loop keeps the working directory |
| ManagerMoves.MoveOtherFiles | src/onlyfiles/core/file_manager.py:152-195 | failed validation only logs; failing to make the folder logs its error and stops |
| ManagerMoves.UpperCaseMusicStays | src/onlyfiles/core/file_manager.py:141 | `SONG.MP3` ends with no Music extension, yet its lower-cased extension is known, so neither pass moves it |
| ManagerMoves.UpperSuffix | src/onlyfiles/core/file_manager.py:141 | no lower-case extension is a suffix of `SONG.MP3` |
| ManagerMoves.SongExt | src/onlyfiles/core/file_manager.py:189-192 | the lower-cased extension of `SONG.MP3` is `.mp3` |
| ManagerOrganize.SizeFolder | src/onlyfiles/core/file_manager.py:264-276 | each size band of the cascade, both directions: tiny below 1 KiB, small below 1 MiB, medium below 10 MiB, large below 100 MiB, huge from there |
| ManagerOrganize.SizeFolderMonotone | src/onlyfiles/core/file_manager.py:267-276 | a larger file never lands in a smaller band |
| ManagerOrganize.Bucket | src/onlyfiles/core/file_manager.py:267-276 | the rank of a size folder in the cascade, `tiny` lowest, by which `ManagerOrganize.SizeFolderMonotone` orders the bands |
| ManagerOrganize.TypeFolder | src/onlyfiles/core/file_manager.py:305-310 | the first category whose list holds the extension, `others` when none does |
| ManagerOrganize.TypeFolderOthers | src/onlyfiles/core/file_manager.py:306 | an unknown extension goes to lower-case `others`, never the table's own `Others` |
| ManagerOrganize.DateFolderIsTimestampDate | src/onlyfiles/core/file_manager.py:239-241 | the date folder is the date part of the log timestamp of the same moment |
| ManagerOrganize.FolderFor | src/onlyfiles/core/file_manager.py:211-213 | by extension: no folder exactly when the name has no extension, else the lower-cased extension without its dot; by date, size and type: the folder of those rules |
| ManagerOrganize.OrganizeStep | src/onlyfiles/core/file_manager.py:204-209 | excluded names, non-files and positions after a failure leave the run unchanged; the working directory is kept and the log only grows |
| ManagerOrganize.PlaceInto | src/onlyfiles/core/file_manager.py:213-219 | a successful placement logs exactly the `Moved <file> to <folder>` line |
| ManagerOrganize.OrganizeLoop | src/onlyfiles/core/file_manager.py:204-219 | the loop keeps the working directory and only adds to the log |
| ManagerOrganize.OrganizeLoopFailed | src/onlyfiles/core/file_manager.py:221-223 | once an exception is raised the remaining names change nothing |
| ManagerOrganize.OrganizeLoopStops | src/onlyfiles/core/file_manager.py:221-223 | a failure on a prefix of the listing decides the whole run |
| ManagerOrganize.Organize | src/onlyfiles/core/file_manager.py:197-320 | a missing directory or a failure inside the loop gives `False` and the `Error organizing by <criterion>` line; otherwise `True` and the loop's world |
| ManagerOrganize.MoveOntoFree | src/onlyfiles/core/file_manager.py:215-218 | moving a file onto a free path removes the source and keeps its contents at the target |
| ManagerOrganize.MakeDirsKeeps | src/onlyfiles/core/file_manager.py:214 | making the category folder keeps the file and leaves its target free |
| ManagerOrganize.OrganizeStepMoves | src/onlyfiles/core/file_manager.py:204-219 | an eligible file placed without failure ends up inside its folder with the same contents, and is gone from its old place |
| ManagerOrganize.PlaceIntoMoves | src/onlyfiles/core/file_manager.py:213-218 | the same for a single placement |
| ManagerBackup.BackupName | src/onlyfiles/core/file_manager.py:328 | the backup folder name starts with `backup_` |
| ManagerBackup.CreateBackup | src/onlyfiles/core/file_manager.py:322-334 | success exactly when the tree copy into `<dir>/backup_<epoch>` succeeds; then the path is returned and `Created backup at` logged; otherwise `None` and the error line |
| ManagerBackup.CreateBackupCopies | src/onlyfiles/core/file_manager.py:329 | every file of the directory has a copy of the same size at its destination under the backup folder, which is its own place when the backup folder did not exist before |
| ManagerBackup.BackupKeyName | src/onlyfiles/core/file_manager.py:347 | the key of `backup_<epoch>` read back by `split('_')[1]` is the epoch |
| ManagerBackup.BackupKey | src/onlyfiles/core/file_manager.py:347 | `int(x.split('_')[1])`, `None` where that raises; `ManagerBackup.BackupKeyName` reads a backup's epoch back |
| ManagerBackup.KeysOf | src/onlyfiles/core/file_manager.py:347 | the key of each backup name, in order |
| ManagerBackup.Latest | src/onlyfiles/core/file_manager.py:347 | `max` with a key: the first name whose key is the greatest |
| ManagerBackup.LatestOfTwo | src/onlyfiles/core/file_manager.py:347 | of two backups the later epoch is the latest |
| ManagerBackup.RestoreStep | src/onlyfiles/core/file_manager.py:351-358 | the latest backup's own name and positions after a failure are skipped; the log is untouched |
| ManagerBackup.RestoreLoop | src/onlyfiles/core/file_manager.py:351-358 | the restore loop keeps the working directory and the log |
| ManagerBackup.RestoreLoopFailed | src/onlyfiles/core/file_manager.py:362-364 | after an exception nothing further is restored |
| ManagerBackup.RestoreLoopStops | src/onlyfiles/core/file_manager.py:362-364 | a failure on a prefix decides the whole restore |
| ManagerBackup.RestoreStepFile | src/onlyfiles/core/file_manager.py:357-358 | a file of the backup is copied into the directory with its size, stamped now |
| ManagerBackup.Backups | src/onlyfiles/core/file_manager.py:343 | exactly the entries of the directory whose name starts with `backup_` |
| ManagerBackup.RevertBackup | src/onlyfiles/core/file_manager.py:336-364 | a missing directory or an unreadable key gives `False` and the error line; no backup gives `False` with nothing logged; success logs `Reverted to backup` with the latest name |
| ManagerRevert.ReadLinesShape | src/onlyfiles/core/file_manager.py:371 | `readlines` cuts the text into lines that each end at their first newline (the last one may lack it) and whose concatenation is the text |
| ManagerRevert.ReadLinesAppend | src/onlyfiles/core/file_manager.py:371 | the lines of text that ends in a newline followed by more text are the lines of each part |
| ManagerRevert.ReadLines | src/onlyfiles/core/file_manager.py:371 | `f.readlines()`: the text cut after each newline; `ManagerRevert.ReadLinesShape` states it |
| ManagerRevert.FileLineReadsBack | src/onlyfiles/core/file_manager.py:371 | one logged line reads back as exactly one line |
| ManagerRevert.MoveLogs | src/onlyfiles/core/file_manager.py:379-386 | exactly the lines that mention `moved to folder`, `File "` or `Moved` |
| ManagerRevert.IsMoveLog | src/onlyfiles/core/file_manager.py:384 | a line is a move record when it mentions `moved to folder`, `File "` or `Moved`; `ManagerRevert.MoveLogs` keeps exactly those |
| ManagerRevert.ParseLog | src/onlyfiles/core/file_manager.py:395-437 | unrecognized exactly when neither the quoted form nor `Moved` occurs; the quoted form yields quote-free names |
| ManagerRevert.SplitCharFree | src/onlyfiles/core/file_manager.py:397 | no piece of a split on a character contains that character |
| ManagerRevert.QuotedPieces | src/onlyfiles/core/file_manager.py:397-400 | splitting the quoted message on `"` yields its five pieces |
| ManagerRevert.ParseQuoted | src/onlyfiles/core/file_manager.py:395-400 | with at least five pieces the file is piece 1 and the folder piece 3 |
| ManagerRevert.ParseMovedLine | src/onlyfiles/core/file_manager.py:395-400 | the line `__move_file` logs parses back to the file and folder it names |
| ManagerRevert.RevertTo | src/onlyfiles/core/file_manager.py:403-414 | `True` exactly when `<dest>/<file>` exists and moves to the parent of `dest`; then the tree is the moved one and `reverted to` is logged; otherwise the tree is kept and a line logged |
| ManagerRevert.RevertFile | src/onlyfiles/core/file_manager.py:388-441 | only a parsed target can succeed, and then as `RevertTo`; failure leaves the tree; an unrecognized line logs its warning |
| ManagerRevert.TimestampOf | src/onlyfiles/core/file_manager.py:469-473 | the moment parsed from the text before the first ` - `, stripped; `None` when it does not parse |
| ManagerRevert.Stamp | src/onlyfiles/core/file_manager.py:467-473 | each line paired with its parsed moment, in order |
| ManagerRevert.GroupStepInWindow | src/onlyfiles/core/file_manager.py:475-481 | one grouping step keeps every taken line within five seconds of the newest |
| ManagerRevert.GroupInWindow | src/onlyfiles/core/file_manager.py:463-481 | all lines taken for the last action lie within the five-second window of the newest |
| ManagerRevert.GroupStep | src/onlyfiles/core/file_manager.py:469-481 | one turn of the grouping loop: after a stop nothing changes, an unstamped line is skipped, the first stamped line sets the newest, a line within five seconds is taken and an older one stops; `ManagerRevert.GroupStepInWindow` states what it keeps |
| ManagerRevert.Group | src/onlyfiles/core/file_manager.py:463-481 | the grouping loop over the records, newest first; `ManagerRevert.GroupInWindow`, `ManagerRevert.GroupTakesAll` and `ManagerRevert.GroupStopsAt` state its result |
| ManagerRevert.GroupTakesAll | src/onlyfiles/core/file_manager.py:467-481 | without a gap every line with a timestamp is taken, in order |
| ManagerRevert.GroupStopsAt | src/onlyfiles/core/file_manager.py:478-481 | a stop happens at a line more than five seconds older than the newest, and exactly the stamped lines before it are taken |
| ManagerRevert.GroupStops | src/onlyfiles/core/file_manager.py:481 | after the `break`, later lines change nothing |
| ManagerRevert.GroupExample | src/onlyfiles/core/file_manager.py:478-481 | an illustration of `ManagerRevert.GroupStopsAt`: with ages 8 s, 4 s, 0 s the newest two are taken and the third, 8 s older than the newest, stops the grouping |
| ManagerRevert.RevertStep | src/onlyfiles/core/file_manager.py:489-492 | success so far stays only when this line reverts |
| ManagerRevert.RevertAll | src/onlyfiles/core/file_manager.py:488-492 | the revert loop keeps the working directory and only adds to the log |
| ManagerRevert.RevertAllLast | src/onlyfiles/core/file_manager.py:489-492 | the loop succeeds on one more line exactly when it succeeded so far and that line reverts |
| ManagerRevert.RevertLastAction | src/onlyfiles/core/file_manager.py:443-502 | no lines, no move lines, or no stamped move line give `False` with their warnings; `True` exactly when the last action is non-empty and every one of its lines reverts, oldest first |
| ManagerUndo.MoveBackToParent | src/onlyfiles/core/file_manager.py:403-410 | moving a file into a subfolder and then from there to the subfolder's parent restores the tree |
| ManagerUndo.MoveOneTree | src/onlyfiles/core/file_manager.py:93-99 | a successful `__move_file` changes the tree by exactly that move |
| ManagerUndo.RevertFileTree | src/onlyfiles/core/file_manager.py:395-412 | a parsed line whose file is present reverts by exactly the move back |
| ManagerUndo.MoveThenRevertRecord | src/onlyfiles/core/file_manager.py:74-110 | reverting the record of a move into a subfolder gives back the original tree |
| ManagerUndo.MoveThenRevert | src/onlyfiles/core/file_manager.py:99 | the same, taking the very line `__move_file` logged |
| ManagerUndo.LastActionOfOne | src/onlyfiles/core/file_manager.py:443-498 | with one stamped move line in the log, undoing the last action is reverting that line |
| ManagerUndo.MovedRecordFacts | src/onlyfiles/core/file_manager.py:99 | the logged move line is one line, a move line and stamped |
| ManagerUndo.UndoSingleMove | src/onlyfiles/core/file_manager.py:443-502 | after one move into a subfolder on an empty log, `revert_last_action` succeeds and restores the original tree |
| OnlyFilesManager.FileManager.constructor | src/onlyfiles/core/file_manager.py:11-15 | a new manager excludes only `app.log`, no directory, and carries the category table |
| OnlyFilesManager.FileManager.Cfg | src/onlyfiles/core/file_manager.py:11-15 | the configuration the operations read is the manager's current exclusion lists and logger |
| OnlyFilesManager.FileManager.AddExcludedDirectory | src/onlyfiles/core/file_manager.py:17-22 | `True` exactly when the path is an existing directory not yet listed; then it is appended; the file list stays; no name is listed twice |
| OnlyFilesManager.FileManager.AddExcludedFile | src/onlyfiles/core/file_manager.py:24-29 | `True` exactly when the name is not yet listed; then it is appended; the directory list stays; no name is listed twice |
| OnlyFilesManager.FileManager.IsExcludedPath | src/onlyfiles/core/file_manager.py:31-42 | the loop over the excluded directories computes the exclusion test |
| OnlyFilesManager.UnderExcludedDir | src/onlyfiles/core/file_manager.py:38-41 | `True` exactly when the absolute path starts with the absolute path of some excluded directory |
| OnlyFilesManager.FileManager.MoveFilesByType | src/onlyfiles/core/file_manager.py:112-150 | the method computes the by-type run of its specification |
| OnlyFilesManager.ByTypeOne | src/onlyfiles/core/file_manager.py:131-148 | one pass of the inner loops over the extensions is one step of the run |
| OnlyFilesManager.ByTypeFiles | src/onlyfiles/core/file_manager.py:130-150 | the loop over the listing is the run's fold |
| OnlyFilesManager.FileManager.KnownExtensionsOf | src/onlyfiles/core/file_manager.py:175-177 | the nested loops collect exactly the lower-cased extensions of the table |
| OnlyFilesManager.FileManager.MoveOtherFiles | src/onlyfiles/core/file_manager.py:152-195 | the method computes the others pass of its specification |
| OnlyFilesManager.OtherFiles | src/onlyfiles/core/file_manager.py:179-195 | the loop over the listing is the others fold |
| OnlyFilesManager.OtherOne | src/onlyfiles/core/file_manager.py:180-195 | one iteration is one step of the others fold |
| OnlyFilesManager.FileManager.Organize | src/onlyfiles/core/file_manager.py:197-320 | the four `organize_by_*` methods compute the organizing run of their criterion |
| OnlyFilesManager.OrganizeFiles | src/onlyfiles/core/file_manager.py:204-219 | the loop over the listing is the organizing fold |
| OnlyFilesManager.OrganizeOne | src/onlyfiles/core/file_manager.py:205-219 | one iteration is one organizing step |
| OnlyFilesManager.TypeOf | src/onlyfiles/core/file_manager.py:306-310 | the loop with its `break` finds the folder of the first category holding the extension |
| OnlyFilesManager.FileManager.RevertBackup | src/onlyfiles/core/file_manager.py:336-364 | the method computes the restore of its specification |
| OnlyFilesManager.RestoreItems | src/onlyfiles/core/file_manager.py:351-358 | the loop over the backup's entries is the restore fold |
| OnlyFilesManager.RestoreOne | src/onlyfiles/core/file_manager.py:352-358 | one iteration is one restore step |
| OnlyFilesManager.FileManager.GetMoveLogs | src/onlyfiles/core/file_manager.py:379-386 | the loop keeps exactly the move lines, in order |
| OnlyFilesManager.FileManager.RevertLastAction | src/onlyfiles/core/file_manager.py:443-502 | the method computes the undo of its specification |
| OnlyFilesManager.LastActionLogs | src/onlyfiles/core/file_manager.py:463-481 | the grouping loop with its `continue` and `break` takes exactly the lines of the grouping fold |
| OnlyFilesManager.GroupOne | src/onlyfiles/core/file_manager.py:469-481 | one iteration is one grouping step |
| OnlyFilesManager.RevertEach | src/onlyfiles/core/file_manager.py:488-492 | the revert loop is the revert fold |
| OnlyFilesManager.RevertOne | src/onlyfiles/core/file_manager.py:489-492 | one iteration is one revert step |
| LogStore.LogFileStore.constructor | src/onlyfiles/utils/logger.py:44-59 | the store starts with the given layout (the `onlyfiles` logger with its name, or the root `logger.py` logger with or without a console), log file and directory state, and nothing printed |
| LogStore.LogFileStore.HandleLogs | src/onlyfiles/utils/logger.py:246-262 | `read` returns the text, `No logs found` for a missing or empty file and the failure message on a fault, changing nothing; `clear` empties the file and says so, or reports `No logs found` or the failure; any other action returns `None` and changes nothing |
| LogStore.LogFileStore.ClearLogs | src/onlyfiles/utils/logger.py:264-272 | `True` exactly when the directory exists and no fault occurs, and then the file is empty and nothing is printed; otherwise the logger records `Error clearing logs: <message>` at `ERROR` in its layout's format, on the console when that logger has one and, when the file exists, at its end; the root `logger.py` `clear_logs` (lines 97-104) is the same method under the plain layout |
| LogStore.LogFileStore.Emit | src/onlyfiles/utils/logger.py:219-226 | an `error` record in the layout's format is printed when the logger has a console and is appended to the log file when it exists |
| LogStore.ErrorRecord | logger.py:36-41 | an error record starts with the 19-character timestamp and ` - ` and ends in a newline; with the `onlyfiles` layout it carries the logger name (`src/onlyfiles/utils/logger.py:189-192`), with the root `logger.py` layout only the level and the message |
| OnlyFilesLogger.FileLine | src/onlyfiles/utils/logger.py:189-192 | a file record is the 19-character timestamp, ` - ` and the fields, ending in a newline, of exactly the combined length |
| OnlyFilesLogger.TimestampField | src/onlyfiles/utils/logger.py:189-192 | the text before the first ` - ` of a record is its timestamp |
| OnlyFilesLogger.FileLineTimestamp | src/onlyfiles/utils/logger.py:189-192 | the timestamp of a record parses back to the moment it was written |
| OnlyFilesLogger.NtJoin | src/onlyfiles/utils/logger.py:112-115 | a Windows join ends with the joined component |
| OnlyFilesLogger.LogDirectoryAppData | src/onlyfiles/utils/logger.py:108-112 | on Windows with `APPDATA` set the directory is `<APPDATA>\OnlyFiles\logs` |
| OnlyFilesLogger.LogDirectoryRoaming | src/onlyfiles/utils/logger.py:113-115 | on Windows with `APPDATA` unset or empty it is `<home>\AppData\Roaming\OnlyFiles\logs` |
| OnlyFilesLogger.LogDirectoryXdg | src/onlyfiles/utils/logger.py:117-125 | elsewhere with `XDG_DATA_HOME` set it is `<XDG_DATA_HOME>/onlyfiles/logs` |
| OnlyFilesLogger.LogDirectoryLocalShare | src/onlyfiles/utils/logger.py:118-125 | otherwise `<home>/.local/share/onlyfiles/logs` for a home without a trailing slash |
| OnlyFilesLogger.LogDirectoryRootHome | src/onlyfiles/utils/logger.py:118-125 | with an empty or all-slash home `expanduser('~')` is `/`, so `_get_log_directory` returns `/.local/share/onlyfiles/logs` |
| OnlyFilesLogger.LogDirectory | src/onlyfiles/utils/logger.py:99-125 | what `_get_log_directory` returns on each branch; `OnlyFilesLogger.LogDirectoryAppData`, `LogDirectoryRoaming`, `LogDirectoryXdg`, `LogDirectoryLocalShare` and `LogDirectoryRootHome` state it |
| OnlyFilesLogger.LoggerRegistry.constructor | src/onlyfiles/utils/logger.py:20-23 | the registry of configured loggers starts empty |
| OnlyFilesLogger.LoggerRegistry.NewLogger | src/onlyfiles/utils/logger.py:44-97 | a name is registered only when the directory is ready and the primary setup works; a registered name gets no new handlers; a failure falls back to `~/onlyfiles_app.log`, and to the console alone when that fails too |
| Execution.OrganizeCategory | Execution.py:14-20 | the destination is `join(origin, category)`; `Others` runs the others pass over the whole table, any other key its by-type pass with that key's extensions, and a name that is not a key raises before anything changes |
| Execution.AllStep | Execution.py:39-40 | after an exception nothing more runs; otherwise one category is organized |
| Execution.AllLoop | Execution.py:39-40 | the loop keeps the working directory, and an escaped exception passes through unchanged |
| Execution.AllCategories | Execution.py:37-40 | `organize_all` is the loop over the table's keys in their order |
| Execution.AllLoopStops | Execution.py:39-40 | an exception on a prefix of the keys decides the whole call |
| Execution.AllLoopAppend | Execution.py:39-40 | running two lists of keys one after the other is running their concatenation |
| Execution.AllLoopOne | Execution.py:39-40 | the loop over one key is one step |
| Execution.OrganizeAllStandard | Execution.py:37-40 | with the shipped table `organize_all` runs Music, Videos, Images, Documents and Others in that order, Others last over what the first four left |
| Execution.Execution.constructor | Execution.py:9-12 | a fresh manager that excludes only the log file, and the shipped table |
| Execution.Execution.OrganizeByType | Execution.py:14-20 | the method computes the category call of its specification |
| Execution.Execution.OrganizeMusic | Execution.py:22-23 | delegates with `Music` |
| Execution.Execution.OrganizeImages | Execution.py:25-26 | delegates with `Images` |
| Execution.Execution.OrganizeDocuments | Execution.py:28-29 | delegates with `Documents` |
| Execution.Execution.OrganizeVideos | Execution.py:31-32 | delegates with `Videos` |
| Execution.Execution.OrganizeOthers | Execution.py:34-35 | delegates with `Others` |
| Execution.Execution.OrganizeAll | Execution.py:37-40 | the loop over the keys computes `organize_all`, left at the first exception |
| CoreOrganizer.ExtKeyShape | src/core/file_organizer.py:31 | `no_extension` when the extension is empty or only a dot, otherwise the lower-cased extension without its dot, a valid folder name |
| CoreOrganizer.ExtKey | src/core/file_organizer.py:31 | the extension key of a name; `CoreOrganizer.ExtKeyShape` states it |
| CoreOrganizer.SizeKey | src/core/file_organizer.py:146-155 | small below 1 MiB, medium below 10 MiB, large from there, each both ways |
| CoreOrganizer.DateKeyFolder | src/core/file_organizer.py:82-92 | the key `year/MM` names the folders `year` and the zero-filled two-digit month, which read back as the moment's year and month |
| CoreOrganizer.DateKey | src/core/file_organizer.py:82 | the `year/MM` key of a moment; `CoreOrganizer.DateKeyFolder` states it |
| CoreOrganizer.TypeCategoriesDisjoint | src/core/file_organizer.py:182-190 | no extension is listed under two categories, and `others` lists none |
| CoreOrganizer.LastIndexIsLast | src/core/file_organizer.py:193-196 | the index found is a category listing the extension and no later category lists it |
| CoreOrganizer.TypeKeyIsLookup | src/core/file_organizer.py:193-213 | the key of an extension is its `extension_to_category` entry, or `others` when it has none |
| CoreOrganizer.TypeKey | src/core/file_organizer.py:193-213 | the category of an extension by the reverse map, `others` by default; `CoreOrganizer.TypeKeyIsLookup` and `CoreOrganizer.TypeKeyFirstMatch` state it |
| CoreOrganizer.ReverseMapLast | src/core/file_organizer.py:193-196 | the reverse map holds an extension exactly when some category lists it, and maps it to the last such category |
| CoreOrganizer.LastIsFirst | src/core/file_organizer.py:193-196 | when categories are disjoint the last match is the first match |
| CoreOrganizer.TypeKeyFirstMatch | src/core/file_organizer.py:210-213 | the lookup with default `others` agrees with the first-match search, and gives `others` exactly when no category lists the extension |
| CoreOrganizer.CategoryNames | src/core/file_organizer.py:182-188 | only the last category is called `others` |
| CoreOrganizer.FilesOf | src/core/file_organizer.py:26 | exactly the listed names that are regular files |
| CoreOrganizer.Place | src/core/file_organizer.py:31 | by extension and by type every name has a key; by date it needs an entry and by size a file |
| CoreOrganizer.SurveyStep | src/core/file_organizer.py:30-34 | once the survey raised it stays raised |
| CoreOrganizer.Survey | src/core/file_organizer.py:29-34 | the survey loop over the files, one `SurveyStep` each; `CoreOrganizer.SurveyByExtension`, `CoreOrganizer.SurveyEmpty` and `CoreOrganizer.SurveyFiles` state its result |
| CoreOrganizer.ExtKeys | src/core/file_organizer.py:29-32 | exactly the keys of the files |
| CoreOrganizer.SurveyByExtension | src/core/file_organizer.py:29-34 | the extension survey never raises and its result has exactly the files' keys |
| CoreOrganizer.Start | src/core/file_organizer.py:127-131 | by size the result starts with small, medium and large; by type with every category; all lists empty |
| CoreOrganizer.SurveyEmpty | src/core/file_organizer.py:33-34 | the survey opens every key with an empty list |
| CoreOrganizer.MakeAll | src/core/file_organizer.py:37-39 | when all folders were made, each is a directory |
| CoreOrganizer.MoveStep | src/core/file_organizer.py:42-51 | a failed move is skipped with nothing changed; a successful one moves the file and appends it to its key; the keys never change |
| CoreOrganizer.MoveLoop | src/core/file_organizer.py:42-51 | the move loop keeps the keys |
| CoreOrganizer.Organize | src/core/file_organizer.py:21-22 | a missing directory gives `{}` and an unchanged tree |
| CoreOrganizer.FiledMember | src/core/file_organizer.py:49 | a name in the result is one of the files |
| CoreOrganizer.AppendFiled | src/core/file_organizer.py:49 | appending a file under its own key keeps the result correct |
| CoreOrganizer.AppendOnce | src/core/file_organizer.py:49 | appending a new file keeps every file listed at most once |
| CoreOrganizer.StepFiled | src/core/file_organizer.py:42-51 | one move step keeps the result correct and free of repeats |
| CoreOrganizer.MoveLoopFiled | src/core/file_organizer.py:42-51 | every listed name is one of the files, under its own key, at most once |
| CoreOrganizer.OrganizeFilesResult | src/core/file_organizer.py:24-53 | the result files each name under its own key once; by size its keys are small, medium and large, by type the categories, by extension the files' keys |
| CoreOrganizer.OrganizeFiles | src/core/file_organizer.py:24-53 | survey, make the folders, then the move loop, with `None` once an exception escapes; `CoreOrganizer.OrganizeFilesResult` and `CoreOrganizer.OrganizeResult` state its result |
| CoreOrganizer.OrganizeResult | src/core/file_organizer.py:11-225 | for an existing directory, each result lists only regular files of that directory, each once and under its own key |
| CoreOrganizer.SurveyFiles | src/core/file_organizer.py:30-34 | the survey loop computes the survey |
| CoreOrganizer.SurveyOne | src/core/file_organizer.py:30-34 | one turn of the survey loop is one survey step |
| CoreOrganizer.SurveyStops | src/core/file_organizer.py:79 | once the survey raised, the later files do not matter |
| CoreOrganizer.MakeFolders | src/core/file_organizer.py:37-39 | the folder loop computes `MakeAll` |
| CoreOrganizer.MakeAllStops | src/core/file_organizer.py:39 | once `makedirs` raised, the later folders do not matter |
| CoreOrganizer.MoveFiles | src/core/file_organizer.py:42-51 | the move loop computes the move fold |
| CoreOrganizer.MoveOne | src/core/file_organizer.py:43-51 | one iteration is one move step |
| CoreOrganizer.MoveLoopNext | src/core/file_organizer.py:42-51 | the fold over one more file is one more step |
| CoreOrganizer.MoveLoopStops | src/core/file_organizer.py:99-100 | once an exception escaped, the later files do not matter |
| CoreOrganizer.OrganizeWith | src/core/file_organizer.py:11-225 | the method computes the organizing of its criterion |
| CoreOrganizer.FilesWith | src/core/file_organizer.py:24-53 | the method computes the organizing of the listed files |
| CoreOrganizer.OrganizeByExtension | src/core/file_organizer.py:11-53 | `organize_by_extension` |
| CoreOrganizer.OrganizeByDate | src/core/file_organizer.py:56-111 | `organize_by_date` |
| CoreOrganizer.OrganizeBySize | src/core/file_organizer.py:114-165 | `organize_by_size` |
| CoreOrganizer.OrganizeByType | src/core/file_organizer.py:168-225 | `organize_by_type` |
| CoreOrganizer.OrganizeDirectory | src/core/file_organizer.py:228-242 | `organize_directory` is organizing by type |
| CoreOrganizer.GatherStep | src/core/file_organizer.py:277-296 | a regular file is moved, contents kept, to the destination chosen for it below the target, and counted; anything else changes nothing |
| CoreOrganizer.GatherLoop | src/core/file_organizer.py:277-296 | the count never falls, and when it stays the tree stays |
| CoreOrganizer.SubdirStep | src/core/file_organizer.py:271-303 | after its turn a subdirectory is not left existing and empty |
| CoreOrganizer.SubdirLoop | src/core/file_organizer.py:271-303 | the count never falls |
| CoreOrganizer.Subdirs | src/core/file_organizer.py:260 | the subdirectories among the listed names, in listing order |
| CoreOrganizer.GatherSubdir | src/core/file_organizer.py:272-303 | one turn of the subdirectory loop, its inner loop included, is one `SubdirStep` |
| CoreOrganizer.RevertLastOrganization | src/core/file_organizer.py:245-309 | an unusable target or one without subdirectories gives `False` and changes nothing |
| CoreOrganizer.GatherFiles | src/core/file_organizer.py:277-296 | the loop over a subdirectory's entries computes the gathering fold |
| CoreOrganizer.RevertLastOrganizationIn | src/core/file_organizer.py:245-309 | the nested loops compute the revert |
| CoreOperations.CollisionNameShape | src/core/file_operations.py:127-129 | the renamed file keeps its extension, its stem gains `_` and the compact timestamp, it is 16 characters longer, differs from the original and is still a plain name |
| CoreOperations.DestinationAvoidsTaken | src/core/file_operations.py:122-130 | the destination lies in the destination folder with the file's extension, and differs from the plain name exactly when that name is taken |
| CoreOperations.CollisionName | src/core/file_operations.py:127-129 | `<base>_<timestamp><ext>`; `CoreOperations.CollisionNameShape` states it |
| CoreOperations.Destination | src/core/file_operations.py:122-130 | the plain name in the destination, or the collision name when that is taken; `CoreOperations.DestinationAvoidsTaken` states it |
| CoreOperations.Candidates | src/core/file_operations.py:114-118 | without a pattern, exactly the listed regular files; with one, `None` (the `ValueError` that `move_files` catches) exactly when some part of `*<pattern>` holds `**` without being `**`, and a non-empty selection only when the pattern is one part other than `**` |
| CoreOperations.SlashFreeParts | src/core/file_operations.py:116 | a pattern without `/` is globbed as the single part `*<pattern>` |
| CoreOperations.LeadingStarRaises | src/core/file_operations.py:95-116 | a slash-free pattern starting with `*`, other than `*` itself, such as the docstring's `*.txt`, makes `glob` raise |
| CoreOperations.BareStarMovesNothing | src/core/file_operations.py:116-121 | the pattern `*` becomes `**`, which yields only directories, so nothing moves and `[]` is returned |
| CoreOperations.StarPrefixNoDouble | src/core/file_operations.py:116 | a star put in front of a text that neither starts with a star nor holds `**` makes no `**` |
| CoreOperations.PlainPatternSelects | src/core/file_operations.py:116 | a slash-free pattern that neither starts with `*` nor holds `**` selects exactly the listed names matching `*<pattern>` |
| CoreOperations.TxtPatterns | src/core/file_operations.py:95-133 | the pattern `.txt` selects exactly the names ending in `.txt`; the docstring's `*.txt` makes `glob` raise, so `move_files` moves nothing and returns `[]` |
| CoreOperations.WalkedMoved | src/core/file_operations.py:114-137 | the names moved out of the walked candidates are listed entries, once each, and match the one globbed part when a pattern is given |
| CoreOperations.TransferStep | src/core/file_operations.py:120-137 | a regular file is moved to its destination with its contents and recorded, every other entry staying as it was; a skipped or failed move changes nothing |
| CoreOperations.TransferLoop | src/core/file_operations.py:120-137 | the moved list only grows |
| CoreOperations.MoveFiles | src/core/file_operations.py:100-121 | a missing source or destination, or one that is not a directory, moves nothing and returns `[]` |
| CoreOperations.TransferLoopMoved | src/core/file_operations.py:120-139 | the moved names are listed names, at most as many, and without repeats when the listing has none |
| CoreOperations.MoveFilesResult | src/core/file_operations.py:88-143 | every returned name was an entry of the source, none twice, and something is moved only between two directories; with a pattern, `*<pattern>` is globbed as one part other than `**` that does not make `glob` raise and matches the name, and for a pattern without `/` that part is `*<pattern>` itself |
| CoreOperations.MoveOne | src/core/file_operations.py:121-137 | one iteration is one transfer step |
| CoreOperations.MoveFilesIn | src/core/file_operations.py:88-143 | the method computes `move_files`, returning `[]` and an unchanged tree when `glob` raises |
| CoreOperations.BackupSuffix | src/core/file_operations.py:27-28 | the suffix is `.backup_` and the 15-character compact timestamp, 23 characters, no slash |
| CoreOperations.CreateBackup | src/core/file_operations.py:11-40 | a missing path gives `False`; failure touches nothing; a file gets a copy of its size beside it and nothing else changes; a directory gets a directory that was not there before, with a copy of each file at its destination below it |
| CoreOperations.CreateBackupTree | src/core/file_operations.py:34 | in a well-formed tree a directory's backup holds a copy of each file, of the same size, at its own place below the backup |
| CoreOperations.Within | src/core/file_operations.py:163-166 | the matches become the paths in the parent folder with exactly those names |
| CoreOperations.ListedChildren | src/core/file_operations.py:163 | a listing names exactly the entries directly inside the folder |
| CoreOperations.BackupFiles | src/core/file_operations.py:146-170 | exactly the entries of the parent folder whose name matches `<name>.backup_*`, none twice; nothing when the parent is not a directory |
| CoreOperations.BackupLeavesEntry | src/core/file_operations.py:28-36 | after a backup the backup path exists and the parent is a directory |
| CoreOperations.BackupNameMatches | src/core/file_operations.py:162-163 | the name `create_backup` gives (line 28) matches the pattern `_get_backup_files` searches |
| CoreOperations.BackupListed | src/core/file_operations.py:11-40 | a backup just made is among the backups found for the path |
| CoreOperations.Ctimes | src/core/file_operations.py:67 | the creation times of the backups, in seconds, in order |
| CoreOperations.Newest | src/core/file_operations.py:67-69 | the descending stable sort's first element: the earliest of the most recently created backups |
| CoreOperations.NewestUnique | src/core/file_operations.py:67-69 | a backup strictly newer than all others is the one chosen |
| CoreOperations.NewestIn | src/core/file_operations.py:67-69 | the scan computes the chosen backup |
| CoreOperations.RestoreFile | src/core/file_operations.py:73-75 | success overwrites the file with the backup's size, stamped now; failure changes nothing |
| CoreOperations.RestoreTree | src/core/file_operations.py:77-80 | success leaves a directory holding a copy of every file of the backup; failure leaves the tree or the removed one |
| CoreOperations.RevertToBackup | src/core/file_operations.py:43-85 | a missing path or no backups gives `False` unchanged; otherwise the newest backup is restored over the file or the directory |
| CoreOperations.FileBackupShape | src/core/file_operations.py:30-31 | a file backup is one new file beside the original with its size |
| CoreOperations.RestoreFileSucceeds | src/core/file_operations.py:73-75 | restoring a file from an existing backup file succeeds |
| CoreOperations.RevertFileFromNewest | src/core/file_operations.py:43-81 | with that backup chosen, the file gets the backup's size back |
| CoreOperations.BackupThenRevert | src/core/file_operations.py:11-85 | backing a file up and then reverting restores its size when the new backup is the newest |
| CoreOperations.RevertToBackupIn | src/core/file_operations.py:43-85 | the method computes `revert_to_backup` |
| LegacyLogger.LegacyLine | logger.py:36-41 | a record is the 19-character timestamp, ` - `, the level, ` - ` and the message, ending in a newline |
| LegacyLogger.LegacyLineTimestamp | logger.py:36-41 | the text before the first ` - ` is the timestamp, which parses back to the moment |
| LegacyLogger.LoggerClass.constructor | logger.py:8-9 | before any instance nothing is configured |
| LegacyLogger.LoggerClass.NewLogger | logger.py:11-41 | only the first instance of the process installs handlers: the file handler, and a console one after it when that instance is verbose; later ones change nothing |
| LegacyManager.Record | File_Manager.py:42-44 | logging a line keeps the tree and the directory and appends the record |
| LegacyManager.MovedLineParts | File_Manager.py:42 | splitting the record of a move on `"` yields the file and the folder as pieces 1 and 3 |
| LegacyManager.Listing | File_Manager.py:10-11 | a listing exists exactly for a directory and names exactly its entries |
| LegacyManager.Step | File_Manager.py:29-47 | a non-file prints its notice; a file matching no extension is left; a matching one makes the folder and is moved with its contents, logging the move, or logs the error; a failing `makedirs` raises |
| LegacyManager.MovedLands | File_Manager.py:41 | a successful move puts the file's contents at its target |
| LegacyManager.Loop | File_Manager.py:29-47 | the loop keeps the working directory |
| LegacyManager.Warnings | File_Manager.py:14-20 | the empty-path notice exactly when a path is empty, the same-folder notice exactly when both paths are the same absolute path |
| LegacyManager.MoveFilesByType | File_Manager.py:13-48 | a missing origin raises after the notices; an empty one prints its notice and stops |
| LegacyManager.LoopOutput | File_Manager.py:29-47 | the loop's printed lines come after those printed before it |
| LegacyManager.ChecksOnlyPrint | File_Manager.py:14-20 | the two checks only print: the moves are those of the loop |
| LegacyManager.LoopSkips | File_Manager.py:29-47 | when no regular file matches nothing moves and nothing raises |
| LegacyManager.LoopStops | File_Manager.py:37 | once `makedirs` raised the later files do not matter |
| LegacyManager.MoveOne | File_Manager.py:30-47 | one iteration, with its inner loop and `break`, is one step |
| LegacyManager.MoveFilesByTypeIn | File_Manager.py:13-48 | the method computes `move_files_by_type` |
| LegacyManager.MoveEach | File_Manager.py:29-47 | the loop over the files computes the fold |
| MonthlyLogger.Entry | src/utils/logging.py:32-33 | an entry is the bracketed timestamp, the level and the message, of exactly that length |
| MonthlyLogger.EntryOneLine | src/utils/logging.py:33 | an entry is one line, and its timestamp parses back to the moment |
| MonthlyLogger.DatePart | src/utils/logging.py:79 | the part between the first `_` and the next `.`, free of both |
| MonthlyLogger.Months | src/utils/logging.py:74-84 | only six-digit months are kept, and the month of every eligible file is kept |
| MonthlyLogger.DatePartOf | src/utils/logging.py:79 | `head_<month>.ext` gives back the month |
| MonthlyLogger.MonthFileName | src/utils/logging.py:12 | `onlyfiles_<YYYYMM>.log`; `MonthlyLogger.MonthNameMatches` shows it matches the listing pattern |
| MonthlyLogger.MonthNameMatches | src/utils/logging.py:76 | the file the logger writes (line 12) matches the pattern it lists |
| MonthlyLogger.OwnFileCounts | src/utils/logging.py:76-81 | the logger's own file (line 12) is listed under its own month |
| MonthlyLogger.MonthLogs | src/utils/logging.py:91-111 | the content exactly when the argument is six digits and its file exists |
| MonthlyLogger.MonthLogger.constructor | src/utils/logging.py:9-12 | the log file is `onlyfiles_<YYYYMM>.log` of the current month |
| MonthlyLogger.MonthLogger.WriteLog | src/utils/logging.py:30-39 | the entry is appended to the file, created when missing; a write fault changes nothing |
| MonthlyLogger.MonthLogger.Info | src/utils/logging.py:18-20 | an `INFO` entry |
| MonthlyLogger.MonthLogger.Error | src/utils/logging.py:22-24 | an `ERROR` entry |
| MonthlyLogger.MonthLogger.Warning | src/utils/logging.py:26-28 | a `WARNING` entry |
| MonthlyLogger.MonthLogger.ClearLogs | src/utils/logging.py:41-51 | `True` exactly when there is no file or no fault; an existing file is emptied; nothing else changes |
| MonthlyLogger.MonthLogger.GetLogs | src/utils/logging.py:53-65 | the content, `""` for a missing file, or on a read fault the bracketed error with the failure logged |
| MonthlyLogger.MonthLogger.ListAvailableLogs | src/utils/logging.py:67-89 | the six-digit months of the matching files, newest first |
| MonthlyLogger.MonthLogger.GetLogsForMonth | src/utils/logging.py:91-116 | the month's content or `None`; a read fault gives `None` and logs the error |
| MonthlyLogger.MonthsIn | src/utils/logging.py:76-83 | the loop over the matches computes the months |
| MonthlyLogger.SortedMonths | src/utils/logging.py:86 | sorting keeps only months |
| MonthlyLogger.OwnMonthListed | src/utils/logging.py:67-111 | once the logger has written, its month is listed and its logs can be read back |
| PathUtils.CancelIgnoresCase | src/utils/path_utils.py:49-59 | the cancel test does not depend on letter case |
| PathUtils.CancelLength | src/utils/path_utils.py:59 | only `cancel` and `-c` in some case cancel: nothing padded with a space |
| PathUtils.FileExtension | src/utils/path_utils.py:62-72 | empty or a dot followed by neither dot nor slash, lower case, and a suffix of the lower-cased name |
| PathUtils.LowerKeepsDotsAndSlashes | src/utils/path_utils.py:72 | lower-casing keeps dots and slashes where they are |
| PathUtils.ExtensionOfName | src/utils/path_utils.py:72 | `stem.e` has the extension `.e` lower-cased |
| PathUtils.EnsureDirectory | src/utils/path_utils.py:114-128 | `True` exactly when a directory is there afterwards; failure changes nothing; success keeps every existing entry; an existing directory is left as it is |
| PathUtils.EnsureIdempotent | src/utils/path_utils.py:124-126 | ensuring a directory twice is ensuring it once |
| PathUtils.Collect | src/utils/path_utils.py:146-150 | exactly the joined paths of the listed names that are files with an accepted extension |
| PathUtils.ListFiles | src/utils/path_utils.py:131-152 | `[]` unless the argument is a directory; otherwise exactly the joined paths of its regular files with an accepted extension |
| PathUtils.ListFilesFiltered | src/utils/path_utils.py:149 | filtering by extensions returns a part of the unfiltered list |
| PathUtils.CollectNext | src/utils/path_utils.py:146-150 | one more listed name adds its path exactly when it is kept |
| PathUtils.ListFilesIn | src/utils/path_utils.py:131-152 | the loop computes `list_files` |
| PathUtils.JoinPaths | src/utils/path_utils.py:155-165 | fails exactly with no component; one component is itself; the result ends with the last component, and an absolute last component is the result |
| PathUtils.GetPaths | src/utils/path_utils.py:9-46 | a cancel word gives `(None, None)` with nothing created and only the prompts shown so far printed; success returns the expanded paths, both existing; the tree changes only when the answer was `y` for a missing destination; success exactly when the source exists and the destination exists or was created; the output is the intro and both prompts followed by what the checks print |
| PathUtils.CheckPaths | src/utils/path_utils.py:30-46 | after the prompts: a missing source prints its error and fails; an existing destination succeeds silently; a missing one prints the create question, then `Created directory: <d>` or the error exactly as the creation succeeds or fails |
| PathUtils.TildeAnswer | src/utils/path_utils.py:26-28 | with `HOME=/home/u/` the answer `~` names `/home/u`, and with an empty `HOME` it names `/` |
| HelpText.Section | src/onlyfiles/utils/help_manager.py:27-33 | the lines after the header, without header lines: only lines of the input |
| HelpText.StopAt | src/onlyfiles/utils/help_manager.py:28-32 | the first line where the loop breaks, or the end: no break before it |
| HelpText.StopStep | src/onlyfiles/utils/help_manager.py:31-32 | before the break a line breaks the loop exactly when it is the break line |
| HelpText.SectionClosed | src/onlyfiles/utils/help_manager.py:33 | before the header is seen no line is taken |
| HelpText.SectionAfterHeader | src/onlyfiles/utils/help_manager.py:28-33 | after the first header line the taken lines are the later lines that are not header lines |
| HelpText.StopFirst | src/onlyfiles/utils/help_manager.py:31-32 | when the stop line comes before any header, nothing is taken |
| HelpText.Readings | src/onlyfiles/utils/help_manager.py:34-37 | each line read as a key and description, in order |
| HelpText.FillKeys | src/onlyfiles/utils/help_manager.py:37 | a key is in the dictionary exactly when some line gives it |
| HelpText.FillLast | src/onlyfiles/utils/help_manager.py:37 | a key holds the description of the last line giving it |
| HelpText.Fill | src/onlyfiles/utils/help_manager.py:33-37 | the dictionary filled in line order, a later key overwriting; `HelpText.FillKeys` and `HelpText.FillLast` state it |
| HelpText.Pair | src/onlyfiles/utils/help_manager.py:34-37 | the key and stripped description of a stripped line that splits into two pieces, else nothing; `HelpText.PairOfLine` states it |
| HelpText.EntriesKeys | src/onlyfiles/utils/help_manager.py:33-37 | the keys are exactly those of the lines splitting into two parts |
| HelpText.EntriesLast | src/onlyfiles/utils/help_manager.py:37 | a later line with the same key overwrites an earlier one |
| HelpText.Entries | src/onlyfiles/utils/help_manager.py:33-37 | the dictionary of a section's lines; `HelpText.EntriesKeys` and `HelpText.EntriesLast` state it |
| HelpText.PairOfLine | src/onlyfiles/utils/help_manager.py:34-37 | an indented `key  description` line reads as that key and that description |
| HelpText.Samples | src/onlyfiles/utils/help_manager.py:71-72 | each line read as an example, in order |
| HelpText.GatherMembers | src/onlyfiles/utils/help_manager.py:72 | exactly the examples some line gives |
| HelpText.Examples | src/onlyfiles/utils/help_manager.py:71-72 | the stripped non-blank lines of a section, in order; `HelpText.ExamplesStripped` states it |
| HelpText.ExampleStripped | src/onlyfiles/utils/help_manager.py:71-72 | an example is non-empty and already stripped |
| HelpText.ExamplesStripped | src/onlyfiles/utils/help_manager.py:65-72 | exactly the stripped non-blank lines of the section, each non-empty and stripped |
| HelpText.MissingFileEmpty | src/onlyfiles/utils/help_manager.py:14-20 | a missing help file gives no commands, no options and no examples |
| HelpText.LoadHelpContent | src/onlyfiles/utils/help_manager.py:14-20 | the help file's text, or `""` when it is missing |
| HelpText.NoSectionInEmpty | src/onlyfiles/utils/help_manager.py:19-20 | empty content has no section for any header |
| HelpText.ParseEntries | src/onlyfiles/utils/help_manager.py:22-58 | the loop of `_parse_commands` or `_parse_options` computes the section's dictionary |
| HelpText.ParseExamples | src/onlyfiles/utils/help_manager.py:60-74 | `_parse_examples` between `Examples:` and `For more information` |
| HelpText.CollectSection | src/onlyfiles/utils/help_manager.py:62-74 | the loop collects the examples of the section before the break |
| HelpText.FoundIsNotNotFound | src/onlyfiles/utils/help_manager.py:94-96 | a found entry's text never looks like the not-found message |
| HelpText.Describe | src/onlyfiles/utils/help_manager.py:92-102 | a known key gives `key: description`; the not-found message exactly when the key is unknown |
| HelpText.HelpManager.constructor | src/onlyfiles/utils/help_manager.py:7-12 | the content is the file's, or empty when missing, and the commands, options and examples are its three sections |
| HelpText.HelpManager.FormatCommandHelp | src/onlyfiles/utils/help_manager.py:92-96 | `command: description` for a known command; `Command '<c>' not found.` exactly when unknown |
| HelpText.HelpManager.FormatOptionHelp | src/onlyfiles/utils/help_manager.py:98-102 | the same for options |
| FileNavigator.DriveLetters | src/utils/file_navigator.py:17-18 | the 26 roots `A:\` to `Z:\` |
| FileNavigator.DrivesListed | src/utils/file_navigator.py:13-22 | on Windows exactly the drive roots that exist, each once; elsewhere `["/"]` |
| FileNavigator.Drives | src/utils/file_navigator.py:13-22 | the existing roots `A:\` to `Z:\` on Windows, `["/"]` elsewhere; `FileNavigator.DrivesListed` states it |
| FileNavigator.AvailableDrives | src/utils/file_navigator.py:13-22 | the loop over the letters computes the drive list |
| FileNavigator.ChooseDrive | src/utils/file_navigator.py:61-62 | an answer is accepted exactly when it is a number from 1 to the number of drives, and picks that drive |
| FileNavigator.ChooseShownDrive | src/utils/file_navigator.py:55-62 | typing the number shown beside a drive picks it |
| FileNavigator.FirstDriveChosen | src/utils/file_navigator.py:58-65 | a drive is returned exactly when some answer is valid, and it is one of the drives |
| FileNavigator.FirstDrive | src/utils/file_navigator.py:58-65 | the drive of the first valid answer; `FileNavigator.FirstDriveChosen` states it |
| FileNavigator.DisplayDrives | src/utils/file_navigator.py:50-65 | the prompt loop returns the drive of the first valid answer |
| FileNavigator.Rows | src/utils/file_navigator.py:29-37 | no more rows than names |
| FileNavigator.RowsNumbered | src/utils/file_navigator.py:32-37 | one row per folder, numbered from 1 without gaps, in listing order |
| FileNavigator.FoldersAscending | src/utils/file_navigator.py:29 | the folders keep the sorted order |
| FileNavigator.ListingFolders | src/utils/file_navigator.py:24-39 | for a directory: its subdirectories exactly, sorted, numbered from 1 |
| FileNavigator.Listing | src/utils/file_navigator.py:24-48 | the numbered folder rows of a directory, nothing for anything else; `FileNavigator.ListingFolders` and `FileNavigator.ListingMissing` state it |
| FileNavigator.ListingMissing | src/utils/file_navigator.py:43-48 | a path that is not a directory lists nothing |
| FileNavigator.RowsNext | src/utils/file_navigator.py:33-37 | one more name adds a row, with the next number, exactly when it is a folder |
| FileNavigator.ListDirectory | src/utils/file_navigator.py:24-48 | the loop with its counter computes the listing |
| FileNavigator.Enter | src/utils/file_navigator.py:120-135 | a number enters the folder of that row when it is in range and a directory; any other number stays |
| FileNavigator.StepCommands | src/utils/file_navigator.py:106-118 | after strip and upper-case: `C` exactly cancels, `S` exactly selects the current folder, `B` climbs when the parent exists, other words stay |
| FileNavigator.Up | src/utils/file_navigator.py:115 | `Path(p).parent`, the root staying the root |
| FileNavigator.Step | src/utils/file_navigator.py:106-135 | one answer: `C` cancels, `S` selects, `B` climbs when the parent exists, a number enters its row, anything else stays; `FileNavigator.StepCommands` and `FileNavigator.StepStaysInDirs` state it |
| FileNavigator.StepOfNumber | src/utils/file_navigator.py:121-122 | a number answer is handled by its value |
| FileNavigator.NumberReadsBack | src/utils/file_navigator.py:106 | a row number survives strip and upper-case |
| FileNavigator.ShownRow | src/utils/file_navigator.py:32-37 | row `i` carries number `i+1` and names a directory |
| FileNavigator.ChooseShownFolder | src/utils/file_navigator.py:120-129 | typing a shown row's number enters that directory |
| FileNavigator.StepStaysInDirs | src/utils/file_navigator.py:114-129 | from a directory each move reaches a directory: the same one, its parent or a child |
| FileNavigator.WalkSelectsDir | src/utils/file_navigator.py:98-137 | a selected location, and where the walk waits, is a directory |
| FileNavigator.Walk | src/utils/file_navigator.py:98-137 | `navigate()` over the answers, one step each until cancel or select; `FileNavigator.WalkSelectsDir` and `FileNavigator.WalkIgnoresRest` state it |
| FileNavigator.WalkIgnoresRest | src/utils/file_navigator.py:108-113 | after cancel or select later answers are never read |
| FileNavigator.Pass | src/utils/file_navigator.py:99-137 | one pass of the loop, listing included, is one step |
| FileNavigator.EnterRow | src/utils/file_navigator.py:121-133 | the numbered branch enters the row's folder only when the number is a row and the folder is a directory |
| FileNavigator.Navigate | src/utils/file_navigator.py:98-137 | the loop over the answers computes the walk |

## Left out

- Interactive front ends: the menus, `print` calls and `rich` tables of the terminal interfaces and CLI files only call into the modelled core.
- `dev/script.js`: browser code, outside the Python program.
- `src/core/drive_operations.py`: Windows drive probing through foreign calls.
- `Basic_File_Path.py`: a broken duplicate of `basic_file_path.py`; `Implant_logging.py` and `setup.py` are process-wide logging and packaging set-up.
- Typed answers: each `input()` is a parameter; for the navigator's and the menu's repeated prompts it is a finite sequence, and an answer list that runs out ends the walk as `Waiting` at the current folder.
- The navigator's Windows branch: only its drive list is modelled, as the drives known to exist. `display_directory` output and the `PermissionError` message text are not modelled.
- The `File_Path_Changer.py` menu loop (lines 202-222) only dispatches to the three modelled moves.
- Clocks: `datetime.now()`, `time.time()` and `os.path.getctime` are parameters. Creation times are whole seconds, so sorting by `getctime` compares seconds.
- `os.listdir` order is unspecified in Python; the model lists names in ascending code-point order (`FileSystem.ListDir`).
- File-system calls are total functions on the tree that return `None` where Python raises. Cross-device moves, atomicity, symbolic links, permissions and concurrent changes are not modelled, and every operating-system error message is one fixed text.
- `ManagerCore.MoveOne`: the write-permission test `os.access(dest, os.W_OK)` is modelled as the destination existing, because the tree has no permissions.
- Floating-point sizes: `size_mb` in `src/core/file_organizer.py` is replaced by the equivalent integer byte comparisons.
- Characters: `lower`, `upper`, `strip`, `isdigit` and `isspace` use their ASCII subsets; Unicode case mapping and whitespace are not modelled.
- The `.encode('utf-8').decode('utf-8')` round trips are identities on strings.
- `Glob.Match`: `*` and `?` only. `Path.glob` also reads `[...]` as a character class, and `src/core/file_operations.py` builds its patterns from text it does not escape: the caller's `file_pattern` (line 116) and the file's own name (line 163). `CoreOperations.MoveFilesResult`, `CoreOperations.MoveFiles`, `CoreOperations.BackupFiles` and `CoreOperations.BackupListed` therefore hold as stated only for patterns and names without `[`; for those `Glob.Match` reads `[` literally. Likewise a file name holding `**` makes the `glob` of line 163 raise, and `_get_backup_files` then returns `[]`, while `CoreOperations.BackupFiles` matches it.
- The `logging` library: handler objects, `basicConfig`, formatter internals, log rotation and `debug_info` are not modelled; a logger writes exactly the line its format produces to its file, and the console handler is recorded as a flag.
- The help file's location (computed from `__file__`) is not modelled; its content, or its absence, is a parameter.
- Path strings are resolved into component sequences (`PosixPath.Resolve`). `~` expansion takes the home folder (the `HOME` variable or the user's password entry) and the password table as parameters; Windows' `ntpath.expanduser` rules are not modelled, `OnlyFilesLogger.NtJoin` ignores drive letters (`ntpath.join` adds no backslash after a bare `C:` and restarts at a component with its own drive), and `OnlyFilesLogger.LogDirectory` takes its result on Windows as the parameter `home`.
- `normalize_path`, `is_directory` and `expand_user_path` of `src/utils/path_utils.py` are one-call wrappers of `PosixPath.NormPath`, `FileSystem.IsDir` and `PosixPath.ExpandUser` and have no members of their own.
- `Execution.py` imports the root `File_Manager.py`, whose class has no `move_other_files`; the model runs `Execution` against the packaged `FileManager` of `src/onlyfiles/core/file_manager.py`, which has it.
- `LogStore.LogFileStore`: the two loggers' `handle_logs` share their code and are modelled once. Their `clear_logs` differ only in the record an error writes, which the store's layout decides: `Named` for `src/onlyfiles/utils/logger.py` (the logger name in the record, a console handler always), `Plain` for the root `logger.py` (no name, and a console only when the process's first instance was verbose). Which file the store holds (the `onlyfiles` logger's `LOG_FILE`, or `app.log` in the working directory for the root one) is up to the caller.
- `CoreOrganizer.SubdirStep`: that no processed subdirectory is left existing and empty is stated for each subdirectory right after its turn, not for the final tree, since it would need the later turns' frames.
- `CoreOrganizer.RevertLastOrganization`: "True iff at least one file moved" is carried by the count, which `CoreOrganizer.GatherStep` raises exactly on a move, and a count that stays puts the tree back as it was (`CoreOrganizer.GatherLoop`); the function's own contract states only the `False` cases.
- `PathChanger.MoveSelected`, `PathChanger.ByExtension` and `PathChanger.MoveByExtension`: like `PathChanger.MoveFiles`, these take the folders the user named, not the paths re-joined after `os.chdir`; the code as written is `PathChanger.MoveSelectedAsWritten` and `PathChanger.MoveByExtensionAsWritten` (see Findings).
- `Clock.ParseTs`: it reads only the zero-padded 19-character layout the logger writes. `strptime` also takes unpadded fields (`2024-1-5 3:4:5`), a run of whitespace for the space, and years below 1000. A hand-edited log line in such a form is skipped by `ManagerRevert.TimestampOf`, and so by `ManagerRevert.RevertLastAction`, where Python would group it.
- `ManagerMoves.MoveFilesByType`, `ManagerMoves.MoveOtherFiles`, `ManagerOrganize.Organize`, `ManagerBackup.RevertBackup`, `ManagerRevert.RevertLastAction`, the `OnlyFilesManager.FileManager` methods built on them and `Execution.Execution.OrganizeAll`: one moment `now` stamps every log record of a call. The same holds for the collision timestamps of `CoreOperations.MoveFiles` and `CoreOrganizer.RevertLastOrganization`, which Python takes once per renamed file. In Python each `logger.info` takes its own time. A pass that lasts more than 5 s, whose records `revert_last_action` would split so that only the newest part is undone, cannot be expressed.
- `ManagerMoves.MoveFilesByType` and `ManagerMoves.MoveOtherFiles`, with `OnlyFilesManager.FileManager.MoveFilesByType` and `OnlyFilesManager.FileManager.MoveOtherFiles`: the `print` of `Source folder is empty!` (lines 121 and 168 of `src/onlyfiles/core/file_manager.py`) is not modelled; the empty listing ends the call as it does there.
- `ManagerMoves.ByTypeStep` and `ManagerMoves.OtherStep`: the `print` of `"<file>" is not a file, ignoring.` (lines 150 and 195) is not modelled; the entry is skipped as it is there.
- `CoreOrganizer` and `CoreOperations`: the Portuguese `print` messages of `src/core/file_organizer.py` and `src/core/file_operations.py` (moves, errors, backup and restore notices) are not modelled; the results and the tree are.
- `MonthlyLogger.MonthLogger`: its `print` of write, clear, read and listing errors is not modelled. Its log directory is a map of regular files, so a sub-directory named like `onlyfiles_<YYYYMM>.log`, which the glob at `src/utils/logging.py:76` would list too, cannot be represented.
- `FileNavigator`: the rich console messages of `src/utils/file_navigator.py` (the table, the options, `Invalid option!`) are not modelled; the answers and the transitions are.
- `LogStore.LogFileStore`: its console and file receive the records of the instance's own handlers; the fallback sinks of `OnlyFilesLogger.LoggerRegistry.NewLogger` are not connected to it.
- `Glob.StarStar`: this is a property of the matcher alone. In Python 3.8 to 3.12, `Path.glob` does not match a part that holds `**` inside other text: it raises `ValueError`. `move_files` (`src/core/file_operations.py:116`) catches that and moves nothing, as `CoreOperations.LeadingStarRaises` states. Only Python 3.13 and later read such a `**` as `*`. The model follows 3.8 to 3.12.
- `Glob.TxtExample`: likewise, `**.txt` matches the `.txt` names only for the matcher. `move_files` called with the docstring's pattern `*.txt` makes `glob` raise and moves nothing (`CoreOperations.TxtPatterns`).
- `CoreOperations.Candidates`, `CoreOperations.MoveFiles`, `CoreOperations.MoveFilesResult` and `CoreOperations.MoveFilesIn`: a pattern that `glob` reads as several parts, such as `x/*.txt`, selects entries of sub-folders in Python, which `move_files` then moves. For such a pattern the model selects nothing. A pattern with a trailing `/` is read as one part, as Python 3.8 to 3.10 read it. Python 3.11 and later select only directories for it, which the loop skips.
- `FileSystem.CopyTree`, and through it `CoreOperations.CreateBackup`, `ManagerBackup.CreateBackup`, `ManagerBackup.RestoreStep`, `ManagerBackup.RevertBackup` and `OnlyFilesManager.FileManager.RevertBackup`: when an entry fails, Python's `copytree` still copies the others and raises `shutil.Error` at the end. The model's `None` instead leaves the tree as it was, so a partly copied tree cannot be represented.
- `FileSystem.CopyOverlay`, `FileSystem.CopyTree`, `ManagerBackup.CreateBackup` and `ManagerBackup.CreateBackupCopies`: a target inside the source is never copied into itself. Python lists the source before it makes the target. For a new `backup_<epoch>` the result is the same. When that folder already exists (a second backup within the same second, with `dirs_exist_ok=True`), the listing includes it and the earlier backup is copied into `backup_<epoch>/backup_<epoch>`. The model does not do this.
- `CoreOrganizer.MakeAll`, called by `CoreOrganizer.OrganizeByExtension` and `CoreOrganizer.OrganizeByDate`: `src/core/file_organizer.py` makes the folders by iterating over a `set` (lines 37-39 and 89-92), whose order is unspecified. The model makes them in the order their keys first appear in the listing. The order matters only when a `makedirs` raises, because then it decides which folders exist afterwards.

## Findings

| source | as written | input that shows it | evidently intended | confidence | as-written member | corrected member |
|---|---|---|---|---|---|---|
| File_Path_Changer.py:38-48 | after `os.chdir(origin_path)` the loop joins the origin as typed onto each name again, so with a relative origin `src` it looks for `src/src/<file>`, finds nothing and skips every file | working directory `/work` holding `/work/src/a.txt`, answers `src` and `dst` | the files of the folder the user named are moved, so `a.txt` ends up in `/work/dst` | not executed | PathChanger.RelativeOriginSkipsFile | PathChanger.NamedFoldersMoveFile |
| File_Path_Changer.py:112-113 | `move_selected_files` also joins the origin and the destination as typed after `os.chdir(origin_path)`, so with relative answers `shutil.move` looks for `src/src/<file>` and every selected file fails to move | working directory `/work` holding `/work/src/a.txt`, answers `src`, `dst` and `1` | the selected file of the folder the user named is moved, so `a.txt` ends up in `/work/dst` | not executed | PathChanger.RelativeOriginFailsSelected | PathChanger.NamedFoldersMoveSelected |
| File_Path_Changer.py:195-196 | `move_by_extension` re-joins the same way, so every matching file fails to move | working directory `/work` holding `/work/src/a.txt`, answers `src`, `dst`, `txt` and `s` | the matching files are moved, so `a.txt` ends up in `/work/dst` | not executed | PathChanger.RelativeOriginFailsExtension | PathChanger.NamedFoldersMoveExtension |
