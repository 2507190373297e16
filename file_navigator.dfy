// `FileNavigator` of `src/utils/file_navigator.py`: the drive list, the
// directory listing with its continuous folder numbers, and the interactive
// walk through the tree, with the typed answers passed in as a sequence.
// Locations are component lists with `[]` as the root `/`.

module FileNavigator {
  import opened Wrappers
  import opened Strings
  import opened PosixPath
  import opened FileSystem
  import opened Sorting
  import opened Seqs

  // ---------------------------------------------------------------- drives

  /** The drive roots `A:\` to `Z:\` in letter order. */
  function DriveLetters(): (r: seq<string>)
    ensures |r| == 26
  {
    seq(26, i requires 0 <= i < 26 => [(65 + i) as char, ':', '\\'])
  }

  /** `get_available_drives()`: on Windows the roots that exist (`present`),
      elsewhere the single root `/`. */
  function Drives(windows: bool, present: set<string>): seq<string> {
    if windows then Filter(DriveLetters(), d => d in present) else ["/"]
  }

  /** The drives offered are exactly the existing roots, each once. */
  lemma DrivesListed(windows: bool, present: set<string>)
    ensures windows ==> forall d :: d in Drives(windows, present) <==> d in DriveLetters() && d in present
    ensures !windows ==> Drives(windows, present) == ["/"]
    ensures Distinct(Drives(windows, present))
  {
    if windows {
      var ls := DriveLetters();
      forall i, j | 0 <= i < j < |ls| ensures ls[i] != ls[j] {
        assert ls[i][0] != ls[j][0];
      }
      FilterDistinct(ls, d => d in present);
    }
  }

  /** The loop of `get_available_drives` over the letter codes 65 to 90. */
  method AvailableDrives(windows: bool, present: set<string>) returns (drives: seq<string>)
    ensures drives == Drives(windows, present)
  {
    if !windows {
      return ["/"];
    }
    ghost var ls := DriveLetters();
    drives := [];
    for letter := 65 to 91
      invariant drives == Filter(ls[..letter - 65], d => d in present)
    {
      var drive := [letter as char, ':', '\\'];
      assert drive == ls[letter - 65];
      assert ls[..letter - 65 + 1][..letter - 65] == ls[..letter - 65];
      if drive in present {
        drives := drives + [drive];
      }
    }
    assert ls[..26] == ls;
  }

  /** One answer to the drive prompt: a number from 1 to the count of drives
      picks that drive; anything else is refused. */
  function ChooseDrive(drives: seq<string>, choice: string): (r: Option<string>)
    ensures r.Some? <==> IsDigits(choice) && 1 <= DigitsValue(choice) <= |drives|
    ensures r.Some? ==> r.value == drives[DigitsValue(choice) - 1]
  {
    if IsDigits(choice) && 1 <= DigitsValue(choice) <= |drives| then Some(drives[DigitsValue(choice) - 1]) else None
  }

  /** The number printed before a drive selects it. */
  lemma ChooseShownDrive(drives: seq<string>, i: nat)
    requires i < |drives|
    ensures ChooseDrive(drives, NatToString(i + 1)) == Some(drives[i])
  {
    NatToStringValue(i + 1);
  }

  /** `display_drives()`: the prompt repeats until an answer picks a drive;
      `None` when the answers run out first. */
  function FirstDrive(drives: seq<string>, answers: seq<string>): Option<string> {
    if answers == [] then None
    else if ChooseDrive(drives, answers[0]).Some? then ChooseDrive(drives, answers[0])
    else FirstDrive(drives, answers[1..])
  }

  /** A drive is returned exactly when some answer picks one, and it is the
      one the first such answer picks. */
  lemma {:induction false} FirstDriveChosen(drives: seq<string>, answers: seq<string>)
    ensures FirstDrive(drives, answers).Some? <==> exists i :: 0 <= i < |answers| && ChooseDrive(drives, answers[i]).Some?
    ensures FirstDrive(drives, answers).Some? ==> FirstDrive(drives, answers).value in drives
  {
    if answers != [] && ChooseDrive(drives, answers[0]).None? {
      FirstDriveChosen(drives, answers[1..]);
      forall i | 0 < i < |answers| ensures answers[1..][i - 1] == answers[i] {
      }
    }
  }

  /** The prompt loop of `display_drives`. */
  method DisplayDrives(drives: seq<string>, answers: seq<string>) returns (r: Option<string>)
    ensures r == FirstDrive(drives, answers)
  {
    var i := 0;
    while i < |answers|
      invariant 0 <= i <= |answers|
      invariant FirstDrive(drives, answers) == FirstDrive(drives, answers[i..])
    {
      var choice := answers[i];
      assert answers[i..][1..] == answers[i + 1..];
      if IsDigits(choice) && 1 <= DigitsValue(choice) <= |drives| {
        return Some(drives[DigitsValue(choice) - 1]);
      }
      i := i + 1;
    }
    return None;
  }

  // ---------------------------------------------------------------- listing

  /** A row of the listing: its number, the folder's name and its type. */
  datatype Item = Item(index: string, name: string, kind: string)

  /** The rows for the names of a listing: each folder in turn gets the next
      number, counting from 1; other entries are passed over. */
  function Rows(fs: Fs, p: Path, names: seq<string>): (r: seq<Item>)
    ensures |r| <= |names|
  {
    if names == [] then []
    else
      var rows := Rows(fs, p, names[..|names| - 1]);
      var n := names[|names| - 1];
      if IsDir(fs, p + [n]) then rows + [Item(NatToString(|rows| + 1), n, "Folder")] else rows
  }

  /** `list_directory(path)`: the rows for the sorted listing of a directory,
      and no rows when the path cannot be listed. */
  function Listing(fs: Fs, p: Path): seq<Item> {
    if IsDir(fs, p) then Rows(fs, p, ListDir(fs, p).value) else []
  }

  /** The folders among `names`, in order. */
  function Folders(fs: Fs, p: Path, names: seq<string>): seq<string> {
    Filter(names, n => IsDir(fs, p + [n]))
  }

  /** The rows are the folders in listing order, numbered 1, 2, 3 and so on
      without a gap. */
  lemma {:induction false} RowsNumbered(fs: Fs, p: Path, names: seq<string>)
    ensures |Rows(fs, p, names)| == |Folders(fs, p, names)|
    ensures forall i :: 0 <= i < |Rows(fs, p, names)| ==>
              Rows(fs, p, names)[i] == Item(NatToString(i + 1), Folders(fs, p, names)[i], "Folder")
    decreases |names|
  {
    if names != [] {
      var init := names[..|names| - 1];
      RowsNumbered(fs, p, init);
      assert names == init + [names[|names| - 1]];
    }
  }

  /** Filtering keeps a list ascending. */
  lemma {:induction false} FoldersAscending(fs: Fs, p: Path, names: seq<string>)
    requires Ascending(names)
    ensures Ascending(Folders(fs, p, names))
    decreases |names|
  {
    if names != [] {
      var init := names[..|names| - 1];
      var x := names[|names| - 1];
      assert names == init + [x];
      FoldersAscending(fs, p, init);
      var rest := Folders(fs, p, init);
      forall k | 0 <= k < |rest| ensures Less(rest[k], x) {
        assert rest[k] in rest;
        var j :| 0 <= j < |init| && init[j] == rest[k];
        assert names[j] == rest[k];
      }
    }
  }

  /** The listing of a directory numbers exactly its sub-directories, in
      ascending order of name. */
  lemma ListingFolders(fs: Fs, p: Path)
    requires IsDir(fs, p)
    ensures |Listing(fs, p)| == |Folders(fs, p, ListDir(fs, p).value)|
    ensures forall i :: 0 <= i < |Listing(fs, p)| ==> Listing(fs, p)[i].index == NatToString(i + 1)
    ensures forall n :: n in Folders(fs, p, ListDir(fs, p).value) <==> IsDir(fs, p + [n])
    ensures Ascending(Folders(fs, p, ListDir(fs, p).value))
  {
    var names := ListDir(fs, p).value;
    RowsNumbered(fs, p, names);
    FoldersAscending(fs, p, names);
  }

  /** A path that cannot be listed shows no rows. */
  lemma ListingMissing(fs: Fs, p: Path)
    requires !IsDir(fs, p)
    ensures Listing(fs, p) == []
  {
  }

  /** One more name of the listing. */
  lemma RowsNext(fs: Fs, p: Path, names: seq<string>, i: nat)
    requires i < |names|
    ensures Rows(fs, p, names[..i + 1])
            == var rows := Rows(fs, p, names[..i]);
               if IsDir(fs, p + [names[i]]) then rows + [Item(NatToString(|rows| + 1), names[i], "Folder")] else rows
  {
    InitOf(names, i);
  }

  /** The loop of `list_directory`, with its running folder number. */
  method ListDirectory(fs: Fs, p: Path) returns (items: seq<Item>)
    ensures items == Listing(fs, p)
  {
    if !IsDir(fs, p) {
      return [];
    }
    var names := ListDir(fs, p).value;
    items := [];
    var index := 1;
    var i := 0;
    while i < |names|
      invariant 0 <= i <= |names|
      invariant items == Rows(fs, p, names[..i])
      invariant index == |items| + 1
    {
      var item := names[i];
      RowsNext(fs, p, names, i);
      if IsDir(fs, p + [item]) {
        items := items + [Item(NatToString(index), item, "Folder")];
        index := index + 1;
      }
      i := i + 1;
    }
    assert names[..i] == names;
  }

  // ---------------------------------------------------------------- navigation

  /** What one answer to the navigation prompt leads to. */
  datatype Outcome = Cancelled | Selected(at: Path) | Go(to: Path)

  /** `Path(current_path).parent`; the root is its own parent. */
  function Up(p: Path): Path {
    if p == [] then [] else Parent(p)
  }

  /** One pass of the `navigate` loop at `p` for the answer `choice`, read
      stripped and upper-cased: `C` cancels, `S` selects `p`, `B` climbs to the
      parent when it exists, the number of a row enters that folder, and
      anything else stays. */
  function Step(fs: Fs, p: Path, choice: string): Outcome {
    var c := Upper(Strip(choice));
    if c == "C" then Cancelled
    else if c == "S" then Selected(p)
    else if c == "B" then Go(if Up(p) in fs then Up(p) else p)
    else if IsDigits(c) then Enter(fs, p, DigitsValue(c))
    else Go(p)
  }

  /** The answer `k`, a number: the folder of row `k` when there is one and it
      is a directory, else no move. */
  function Enter(fs: Fs, p: Path, k: nat): (r: Outcome)
    ensures r.Go?
    ensures 1 <= k <= |Listing(fs, p)| && IsDir(fs, p + [Listing(fs, p)[k - 1].name]) ==> r.to == p + [Listing(fs, p)[k - 1].name]
    ensures !(1 <= k <= |Listing(fs, p)|) ==> r.to == p
    ensures 1 <= k <= |Listing(fs, p)| && !IsDir(fs, p + [Listing(fs, p)[k - 1].name]) ==> r.to == p
  {
    var items := Listing(fs, p);
    if 1 <= k <= |items| && IsDir(fs, p + [items[k - 1].name]) then Go(p + [items[k - 1].name]) else Go(p)
  }

  /** The walk ends exactly on `C` or `S`, in any case and with any
      surrounding whitespace; `S` returns the current location; `B` climbs
      when the parent exists; a word that is neither a command nor a number
      stays. */
  lemma StepCommands(fs: Fs, p: Path, choice: string)
    ensures Step(fs, p, choice).Cancelled? <==> Upper(Strip(choice)) == "C"
    ensures Step(fs, p, choice).Selected? <==> Upper(Strip(choice)) == "S"
    ensures Step(fs, p, choice).Selected? ==> Step(fs, p, choice).at == p
    ensures Upper(Strip(choice)) == "B" ==> Step(fs, p, choice) == Go(if Up(p) in fs then Up(p) else p)
    ensures !IsDigits(Upper(Strip(choice))) && Upper(Strip(choice)) !in {"C", "S", "B"} ==> Step(fs, p, choice) == Go(p)
  {
  }

  /** An answer that reads back as a number enters that row. */
  lemma StepOfNumber(fs: Fs, p: Path, s: string)
    requires Upper(Strip(s)) == s && IsDigits(s)
    ensures Step(fs, p, s) == Enter(fs, p, DigitsValue(s))
  {
    assert IsDigit(s[0]);
    assert s != "C" && s != "S" && s != "B";
  }

  /** Digits are not changed by stripping or upper-casing. */
  lemma NumberReadsBack(n: nat)
    ensures Upper(Strip(NatToString(n))) == NatToString(n)
  {
    var s := NatToString(n);
    assert forall i :: 0 <= i < |s| ==> IsDigit(s[i]);
    StripNoSpace(s);
    assert Upper(s) == s;
  }

  /** Row `i` shows the number `i + 1` and names a directory. */
  lemma ShownRow(fs: Fs, p: Path, i: nat)
    requires IsDir(fs, p) && i < |Listing(fs, p)|
    ensures Listing(fs, p)[i].index == NatToString(i + 1)
    ensures IsDir(fs, p + [Listing(fs, p)[i].name])
  {
    var names := ListDir(fs, p).value;
    RowsNumbered(fs, p, names);
    var f := Folders(fs, p, names);
    assert f[i] in f;
  }

  /** Typing the number shown in a row enters that folder. */
  lemma ChooseShownFolder(fs: Fs, p: Path, i: nat)
    requires IsDir(fs, p) && i < |Listing(fs, p)|
    ensures Step(fs, p, Listing(fs, p)[i].index) == Go(p + [Listing(fs, p)[i].name])
    ensures IsDir(fs, p + [Listing(fs, p)[i].name])
  {
    ShownRow(fs, p, i);
    NumberReadsBack(i + 1);
    NatToStringValue(i + 1);
    StepOfNumber(fs, p, NatToString(i + 1));
  }

  /** From a directory of a valid tree, a step goes to a directory at most
      one level away: the same one, its parent, or one of its folders. */
  lemma StepStaysInDirs(fs: Fs, p: Path, choice: string)
    requires Valid(fs) && IsDir(fs, p)
    ensures Step(fs, p, choice).Go? ==> IsDir(fs, Step(fs, p, choice).to)
    ensures Step(fs, p, choice).Go? ==>
              var q := Step(fs, p, choice).to;
              q == p || (p != [] && q == Parent(p)) || (|q| == |p| + 1 && q[..|p|] == p)
  {
    if Step(fs, p, choice).Go? && Step(fs, p, choice).to != p {
      var q := Step(fs, p, choice).to;
      if Upper(Strip(choice)) == "B" {
        assert p != [] && q == Parent(p);
      } else {
        assert q[..|p|] == p;
      }
    }
  }

  /** A walk either ends, cancelled or with a selection, or is still going at
      a location when the answers run out. */
  datatype Walked = Finished(selection: Option<Path>) | Waiting(at: Path)

  /** `navigate()` from `p` with the answers given, one per pass. */
  function Walk(fs: Fs, p: Path, choices: seq<string>): Walked
    decreases |choices|
  {
    if choices == [] then Waiting(p)
    else match Step(fs, p, choices[0])
      case Cancelled => Finished(None)
      case Selected(q) => Finished(Some(q))
      case Go(q) => Walk(fs, q, choices[1..])
  }

  /** Starting from a directory of a valid tree, every location the walk
      reaches, and the one it returns, is a directory. */
  lemma {:induction false} WalkSelectsDir(fs: Fs, p: Path, choices: seq<string>)
    requires Valid(fs) && IsDir(fs, p)
    ensures Walk(fs, p, choices).Finished? && Walk(fs, p, choices).selection.Some? ==>
              IsDir(fs, Walk(fs, p, choices).selection.value)
    ensures Walk(fs, p, choices).Waiting? ==> IsDir(fs, Walk(fs, p, choices).at)
    decreases |choices|
  {
    if choices != [] {
      StepStaysInDirs(fs, p, choices[0]);
      if Step(fs, p, choices[0]).Go? {
        WalkSelectsDir(fs, Step(fs, p, choices[0]).to, choices[1..]);
      }
    }
  }

  /** Answers after the one that ends the walk are never read. */
  lemma {:induction false} WalkIgnoresRest(fs: Fs, p: Path, choices: seq<string>, more: seq<string>)
    requires Walk(fs, p, choices).Finished?
    ensures Walk(fs, p, choices + more) == Walk(fs, p, choices)
    decreases |choices|
  {
    assert (choices + more)[0] == choices[0];
    if Step(fs, p, choices[0]).Go? {
      assert (choices + more)[1..] == choices[1..] + more;
      WalkIgnoresRest(fs, Step(fs, p, choices[0]).to, choices[1..], more);
    }
  }

  /** One pass of the `navigate` loop: list, read the answer, act on it. */
  method Pass(fs: Fs, current: Path, answer: string) returns (o: Outcome)
    ensures o == Step(fs, current, answer)
  {
    var items := ListDirectory(fs, current);
    var choice := Upper(Strip(answer));
    if choice == "C" {
      return Cancelled;
    } else if choice == "S" {
      return Selected(current);
    } else if choice == "B" {
      var parent := Up(current);
      if parent in fs {
        return Go(parent);
      }
      return Go(current);
    } else if IsDigits(choice) {
      o := EnterRow(fs, current, items, DigitsValue(choice));
      return;
    }
    return Go(current);
  }

  /** The numbered branch of a pass: the row's folder when it is a directory. */
  method EnterRow(fs: Fs, current: Path, items: seq<Item>, k: nat) returns (o: Outcome)
    requires items == Listing(fs, current)
    ensures o == Enter(fs, current, k)
  {
    var i := k - 1;
    if 0 <= i < |items| {
      var newPath := current + [items[i].name];
      if IsDir(fs, newPath) {
        return Go(newPath);
      }
    }
    return Go(current);
  }

  /** A walk is its first pass followed by the walk from where that pass went. */
  lemma WalkFirst(fs: Fs, p: Path, choices: seq<string>, o: Outcome)
    requires choices != [] && o == Step(fs, p, choices[0])
    ensures o.Cancelled? ==> Walk(fs, p, choices) == Finished(None)
    ensures o.Selected? ==> Walk(fs, p, choices) == Finished(Some(o.at))
    ensures o.Go? ==> Walk(fs, p, choices) == Walk(fs, o.to, choices[1..])
  {
  }

  /** The `while True` loop of `navigate`. */
  method Navigate(fs: Fs, start: Path, choices: seq<string>) returns (r: Walked)
    ensures r == Walk(fs, start, choices)
  {
    var current := start;
    var i := 0;
    while i < |choices|
      invariant 0 <= i <= |choices|
      invariant Walk(fs, start, choices) == Walk(fs, current, choices[i..])
    {
      assert choices[i..][0] == choices[i] && choices[i..][1..] == choices[i + 1..];
      var o := Pass(fs, current, choices[i]);
      WalkFirst(fs, current, choices[i..], o);
      match o
      case Cancelled => return Finished(None);
      case Selected(q) => return Finished(Some(q));
      case Go(q) => current := q;
      i := i + 1;
    }
    return Waiting(current);
  }
}
