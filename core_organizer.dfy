// The newer `FileOrganizer` of `src/core`: each `organize_*` lists the regular
// files of a directory, creates its category folders up front, moves every
// file into the folder its key names (skipping a file whose move fails) and
// returns the map from key to the names it moved.

module CoreOrganizer {
  import opened Wrappers
  import opened Strings
  import opened Clock
  import opened PosixPath
  import opened FileSystem
  import opened Seqs
  import opened Sorting
  import opened FileTypes
  import MO = ManagerOrganize
  import Ops = CoreOperations

  /** A result map: each key with the names moved under it, in order. */
  type Groups = map<string, seq<string>>

  /** What a call leaves: the tree, and the result map, `None` when an
      exception left the call. */
  datatype Outcome = Outcome(fs: Fs, result: Option<Groups>)

  // ---------------------------------------------------------------- keys

  /** `os.path.splitext(f)[1][1:].lower() or 'no_extension'` */
  function ExtKey(name: string): string {
    var x := Ext(name);
    if |x| <= 1 then "no_extension" else Lower(x)[1..]
  }

  /** The key is `no_extension` for an empty extension or a lone dot, and
      otherwise the lower-cased extension after its dot; either way a folder
      name without a dot. */
  lemma ExtKeyShape(name: string)
    ensures |Ext(name)| <= 1 ==> ExtKey(name) == "no_extension"
    ensures |Ext(name)| > 1 ==> "." + ExtKey(name) == Lower(Ext(name))
    ensures IsName(ExtKey(name)) && '.' !in ExtKey(name)
  {
    var x := Ext(name);
    if |x| <= 1 {
      NoExtensionName();
    } else {
      ExtKeyTail(x);
    }
  }

  lemma NoExtensionName()
    ensures IsName("no_extension") && '.' !in "no_extension"
  {
    var n := "no_extension";
    assert |n| == 12;
    forall k | 0 <= k < |n| ensures n[k] != '/' && n[k] != '.' {
      assert n[k] in "abdeimnostx_";
    }
  }

  /** Lower-casing an extension `.xyz` keeps the dot in front and neither
      adds a dot nor a separator behind it. */
  lemma ExtKeyTail(x: string)
    requires |x| > 1 && x[0] == '.' && '/' !in x && '.' !in x[1..]
    ensures var e := Lower(x); "." + e[1..] == e && IsName(e[1..]) && '.' !in e[1..]
  {
    var e := Lower(x);
    assert e[0] == '.';
    assert "." + e[1..] == e;
    forall k | 0 <= k < |e[1..]| ensures e[1..][k] != '.' && e[1..][k] != '/' {
      assert e[1..][k] == LowerChar(x[k + 1]);
      assert x[k + 1] == x[1..][k] && x[k + 1] in x;
    }
    assert |e[1..]| >= 1 && e[1..][0] != '.';
  }

  const MiB: nat := 1024 * 1024

  /** `organize_by_size`'s category, `size / 2**20` compared with 1 and 10
      (exact in floating point: the divisor is a power of two). */
  function SizeKey(size: nat): (r: string)
    ensures r == "small" <==> size < MiB
    ensures r == "medium" <==> MiB <= size < 10 * MiB
    ensures r == "large" <==> 10 * MiB <= size
  {
    if size < 1024 * 1024 then "small"
    else if size < 10 * 1024 * 1024 then "medium"
    else "large"
  }

  /** `f"{date.year}/{date.month:02d}"` */
  function DateKey(t: Moment): string {
    NatToString(t.year) + "/" + Pad(t.month, 2)
  }

  /** `join(str(year), str(month).zfill(2))`, as the names below the directory. */
  function DateFolder(t: Moment): seq<string> {
    [NatToString(t.year), ZFill(NatToString(t.month), 2)]
  }

  /** The date key is the year folder and the month folder joined by a slash;
      the year reads back as the year, and the month folder is two digits that
      read back as the month. */
  lemma DateKeyFolder(t: Moment)
    ensures DateKey(t) == DateFolder(t)[0] + "/" + DateFolder(t)[1]
    ensures IsDigits(DateFolder(t)[0]) && DigitsValue(DateFolder(t)[0]) == t.year
    ensures |DateFolder(t)[1]| == 2 && AllDigits(DateFolder(t)[1]) && DigitsValue(DateFolder(t)[1]) == t.month
    ensures IsName(DateFolder(t)[0]) && IsName(DateFolder(t)[1])
  {
    NatToStringValue(t.year);
    assert Pow10(2) == 100;
    PaddedRoundTrip(t.month, 2);
    var m := DateFolder(t)[1];
    assert m != "." && m != ".." by {
      assert IsDigit(m[0]);
    }
    assert '/' !in m by {
      forall k | 0 <= k < |m| ensures m[k] != '/' {
        assert IsDigit(m[k]);
      }
    }
    var y := DateFolder(t)[0];
    assert y != "." && y != ".." by {
      assert IsDigit(y[0]);
    }
    assert '/' !in y by {
      forall k | 0 <= k < |y| ensures y[k] != '/' {
        assert IsDigit(y[k]);
      }
    }
  }

  /** `type_categories` of `organize_by_type`, in order. */
  const TypeCategories: Table := [
    ("images", [".jpg", ".jpeg", ".png", ".gif", ".bmp", ".tiff", ".webp"]),
    ("documents", [".pdf", ".doc", ".docx", ".txt", ".rtf", ".odt", ".xls", ".xlsx"]),
    ("audio", [".mp3", ".wav", ".flac", ".m4a", ".aac", ".ogg"]),
    ("video", [".mp4", ".avi", ".mkv", ".mov", ".wmv", ".flv"]),
    ("archives", [".zip", ".rar", ".7z", ".tar", ".gz"]),
    ("code", [".py", ".js", ".html", ".css", ".java", ".cpp", ".h", ".php"]),
    ("others", [])
  ]

  /** No extension of category `i` is listed by category `j`. */
  predicate Apart(i: nat, j: nat)
    requires i < |TypeCategories| && j < |TypeCategories|
  {
    forall e :: e in TypeCategories[i].1 ==> e !in TypeCategories[j].1
  }

  /** No extension of category `i` is listed by a later category. */
  predicate ApartFromLater(i: nat)
    requires i < |TypeCategories|
  {
    forall j :: i < j < |TypeCategories| ==> Apart(i, j)
  }

  lemma ImagesApart()
    ensures ApartFromLater(0)
  {
  }

  lemma DocumentsAudioApart()
    ensures Apart(1, 2)
  {
  }

  lemma DocumentsVideoApart()
    ensures Apart(1, 3)
  {
  }

  lemma DocumentsArchivesApart()
    ensures Apart(1, 4)
  {
  }

  lemma DocumentsCodeApart()
    ensures Apart(1, 5)
  {
  }

  lemma DocumentsApart()
    ensures ApartFromLater(1)
  {
    DocumentsAudioApart();
    DocumentsVideoApart();
    DocumentsArchivesApart();
    DocumentsCodeApart();
    assert Apart(1, 6);
  }

  lemma AudioVideoApart()
    ensures Apart(2, 3)
  {
  }

  lemma AudioArchivesApart()
    ensures Apart(2, 4)
  {
  }

  lemma AudioCodeApart()
    ensures Apart(2, 5)
  {
  }

  lemma AudioApart()
    ensures ApartFromLater(2)
  {
    AudioVideoApart();
    AudioArchivesApart();
    AudioCodeApart();
    assert Apart(2, 6);
  }

  lemma VideoArchivesApart()
    ensures Apart(3, 4)
  {
  }

  lemma VideoCodeApart()
    ensures Apart(3, 5)
  {
  }

  lemma VideoApart()
    ensures ApartFromLater(3)
  {
    VideoArchivesApart();
    VideoCodeApart();
    assert Apart(3, 6);
  }

  lemma ArchivesApart()
    ensures ApartFromLater(4)
  {
  }

  lemma CodeApart()
    ensures ApartFromLater(5)
  {
  }

  /** The category lists are pairwise disjoint. */
  lemma TypeCategoriesDisjoint()
    ensures forall i, j, e :: 0 <= i < j < |TypeCategories| && e in TypeCategories[i].1 ==> e !in TypeCategories[j].1
    ensures TypeCategories[6].1 == []
  {
    ImagesApart();
    DocumentsApart();
    AudioApart();
    VideoApart();
    ArchivesApart();
    CodeApart();
    forall i, j, e | 0 <= i < j < |TypeCategories| && e in TypeCategories[i].1
      ensures e !in TypeCategories[j].1
    {
      assert ApartFromLater(i);
      assert Apart(i, j);
    }
  }

  /** The last category of the table listing `ext`, or -1. */
  function LastIndex(t: Table, ext: string): (r: int)
    ensures -1 <= r < |t|
  {
    if t == [] then -1
    else if ext in t[|t| - 1].1 then |t| - 1
    else LastIndex(t[..|t| - 1], ext)
  }

  /** `LastIndex` finds a category listing `ext` and no later one lists it. */
  lemma {:induction false} LastIndexIsLast(t: Table, ext: string)
    ensures LastIndex(t, ext) >= 0 ==> ext in t[LastIndex(t, ext)].1
    ensures forall j :: LastIndex(t, ext) < j < |t| ==> ext !in t[j].1
    decreases |t|
  {
    if t != [] && ext !in t[|t| - 1].1 {
      var pre := t[..|t| - 1];
      LastIndexIsLast(pre, ext);
      assert forall j :: 0 <= j < |pre| ==> pre[j] == t[j];
    }
  }

  /** `extension_to_category`: each category's extensions mapped to it, a
      later category overwriting an earlier one. */
  function ReverseMap(t: Table): map<string, string> {
    if t == [] then map[]
    else
      var (c, exts) := t[|t| - 1];
      var es := set e | e in exts;
      ReverseMap(t[..|t| - 1]) + map e | e in es :: c
  }

  /** The map holds exactly the listed extensions, each with the last
      category listing it. */
  lemma {:induction false} ReverseMapLast(t: Table, ext: string)
    ensures ext in ReverseMap(t) <==> LastIndex(t, ext) >= 0
    ensures ext in ReverseMap(t) ==> ReverseMap(t)[ext] == t[LastIndex(t, ext)].0
    decreases |t|
  {
    if t != [] {
      var pre := t[..|t| - 1];
      ReverseMapLast(pre, ext);
      if ext !in t[|t| - 1].1 && LastIndex(pre, ext) >= 0 {
        assert pre[LastIndex(pre, ext)] == t[LastIndex(pre, ext)];
      }
    }
  }

  /** With disjoint lists, the last category listing an extension is also the first. */
  lemma LastIsFirst(t: Table, ext: string)
    requires forall i, j :: 0 <= i < j < |t| && ext in t[i].1 ==> ext !in t[j].1
    ensures LastIndex(t, ext) >= 0 ==> MO.TypeFolder(t, ext) == t[LastIndex(t, ext)].0
    ensures LastIndex(t, ext) < 0 ==> MO.TypeFolder(t, ext) == "others"
  {
    LastIndexIsLast(t, ext);
    var r := LastIndex(t, ext);
    if r < 0 {
      assert forall i :: 0 <= i < |t| ==> ext !in t[i].1;
    }
  }

  /** `extension_to_category.get(ext, 'others')`, read through
      `TypeKeyIsLookup`: the category the reverse map gives, which is the
      last one listing the extension. */
  function TypeKey(ext: string): string {
    var i := LastIndex(TypeCategories, ext);
    if i >= 0 then TypeCategories[i].0 else "others"
  }

  /** The key is the lookup in `extension_to_category` with default `others`. */
  lemma TypeKeyIsLookup(ext: string)
    ensures var m := ReverseMap(TypeCategories);
            TypeKey(ext) == if ext in m then m[ext] else "others"
  {
    ReverseMapLast(TypeCategories, ext);
  }

  /** The reverse map reads the same as a first-match lookup, because the
      category lists are disjoint: an unknown extension goes to "others", a
      listed one to its only category. */
  lemma TypeKeyFirstMatch(ext: string)
    ensures TypeKey(ext) == MO.TypeFolder(TypeCategories, ext)
    ensures TypeKey(ext) == "others" <==> LastIndex(TypeCategories, ext) < 0
  {
    TypeCategoriesDisjoint();
    LastIsFirst(TypeCategories, ext);
    var r := LastIndex(TypeCategories, ext);
    if r >= 0 {
      assert r != 6;
      CategoryNames(r);
    }
  }

  /** Only the last category is called "others", and it lists nothing. */
  lemma CategoryNames(i: int)
    requires 0 <= i < |TypeCategories| - 1
    ensures TypeCategories[i].0 != "others"
  {
  }

  // ---------------------------------------------------------------- the passes

  /** `[f for f in os.listdir(d) if os.path.isfile(join(d, f))]` */
  function FilesOf(fs: Fs, d: Path, names: seq<string>): (r: seq<string>)
    ensures forall x :: x in r <==> x in names && IsFile(fs, d + [x])
  {
    Filter(names, x => IsFile(fs, d + [x]))
  }

  /** A file's key and the folder (the names below the directory) it goes to,
      or `None` where reading its time or size raises. */
  function Place(c: MO.Criterion, fs: Fs, d: Path, f: string): (r: Option<(string, seq<string>)>)
    ensures c == MO.ByExtension ==> r == Some((ExtKey(f), [ExtKey(f)]))
    ensures c == MO.ByType ==> r == Some((TypeKey(Lower(Ext(f))), [TypeKey(Lower(Ext(f)))]))
    ensures c == MO.ByDate ==> (r.Some? <==> d + [f] in fs)
    ensures c == MO.BySize ==> (r.Some? <==> IsFile(fs, d + [f]))
  {
    var p := d + [f];
    match c
    case ByExtension => Some((ExtKey(f), [ExtKey(f)]))
    case ByType => var k := TypeKey(Lower(Ext(f))); Some((k, [k]))
    case ByDate => if p in fs then Some((DateKey(fs[p].ctime), DateFolder(fs[p].ctime))) else None
    case BySize => if IsFile(fs, p) then Some((SizeKey(fs[p].size), [SizeKey(fs[p].size)])) else None
  }

  /** One turn of the first pass of `organize_by_extension` / `organize_by_date`:
      the key gets an empty list and its folder joins the folders to create. */
  function SurveyStep(c: MO.Criterion, fs: Fs, d: Path, acc: Option<(seq<seq<string>>, Groups)>, f: string)
    : (r: Option<(seq<seq<string>>, Groups)>)
    ensures acc.None? ==> r.None?
  {
    match acc
    case None => None
    case Some((folders, g)) =>
      match Place(c, fs, d, f)
      case None => None
      case Some((k, sub)) =>
        Some((if sub in folders then folders else folders + [sub], if k in g then g else g[k := []]))
  }

  function Survey(c: MO.Criterion, fs: Fs, d: Path, files: seq<string>): Option<(seq<seq<string>>, Groups)> {
    if files == [] then Some(([], map[]))
    else SurveyStep(c, fs, d, Survey(c, fs, d, files[..|files| - 1]), files[|files| - 1])
  }

  /** The extension keys of a list of names. */
  function ExtKeys(files: seq<string>): (r: set<string>)
    ensures forall x :: x in files ==> ExtKey(x) in r
    ensures forall k :: k in r ==> exists x :: x in files && k == ExtKey(x)
  {
    if files == [] then {}
    else
      var pre := files[..|files| - 1];
      assert files == pre + [files[|files| - 1]];
      ExtKeys(pre) + {ExtKey(files[|files| - 1])}
  }

  /** The first pass collects the key of every file. */
  lemma {:induction false} SurveyByExtension(fs: Fs, d: Path, files: seq<string>)
    ensures Survey(MO.ByExtension, fs, d, files).Some?
    ensures Survey(MO.ByExtension, fs, d, files).value.1.Keys == ExtKeys(files)
    decreases |files|
  {
    if files != [] {
      var pre, f := files[..|files| - 1], files[|files| - 1];
      SurveyByExtension(fs, d, pre);
      ExtensionSurveyStep(fs, d, Survey(MO.ByExtension, fs, d, pre).value, f);
      assert ExtKeys(files) == ExtKeys(pre) + {ExtKey(f)};
    }
  }

  /** A turn of the survey by extension adds the file's key. */
  lemma ExtensionSurveyStep(fs: Fs, d: Path, acc: (seq<seq<string>>, Groups), f: string)
    ensures SurveyStep(MO.ByExtension, fs, d, Some(acc), f).Some?
    ensures SurveyStep(MO.ByExtension, fs, d, Some(acc), f).value.1.Keys == acc.1.Keys + {ExtKey(f)}
  {
    assert Place(MO.ByExtension, fs, d, f) == Some((ExtKey(f), [ExtKey(f)]));
  }

  /** The folders created before the moves, and the initial result map. */
  function Start(c: MO.Criterion, fs: Fs, d: Path, files: seq<string>): (r: Option<(seq<seq<string>>, Groups)>)
    ensures c == MO.BySize ==> r.Some? && r.value.1.Keys == {"small", "medium", "large"}
    ensures c == MO.ByType ==> r.Some? && forall k :: k in r.value.1 <==> k in Keys(TypeCategories)
    ensures r.Some? ==> forall k :: k in r.value.1 ==> r.value.1[k] == []
  {
    match c
    case BySize => Some(([["small"], ["medium"], ["large"]], map["small" := [], "medium" := [], "large" := []]))
    case ByType =>
      var keys := Keys(TypeCategories);
      Some((seq(|keys|, i requires 0 <= i < |keys| => [keys[i]]), map k | k in keys :: []))
    case ByExtension =>
      SurveyByExtension(fs, d, files);
      SurveyEmpty(c, fs, d, files);
      Survey(c, fs, d, files)
    case ByDate =>
      SurveyEmpty(c, fs, d, files);
      Survey(c, fs, d, files)
  }

  /** Every list the first pass sets up is empty. */
  lemma {:induction false} SurveyEmpty(c: MO.Criterion, fs: Fs, d: Path, files: seq<string>)
    ensures Survey(c, fs, d, files).Some? ==>
              forall k :: k in Survey(c, fs, d, files).value.1 ==> Survey(c, fs, d, files).value.1[k] == []
    decreases |files|
  {
    if files != [] {
      SurveyEmpty(c, fs, d, files[..|files| - 1]);
    }
  }

  /** `os.makedirs(join(d, *folder), exist_ok=True)` for each folder, left by
      the first that raises: the tree so far, and whether all succeeded. */
  function MakeAll(fs: Fs, d: Path, folders: seq<seq<string>>, now: Moment): (r: (Fs, bool))
    ensures r.1 ==> forall i :: 0 <= i < |folders| ==> IsDir(r.0, d + folders[i])
    decreases |folders|
  {
    if folders == [] then (fs, true)
    else
      var (fs1, ok) := MakeAll(fs, d, folders[..|folders| - 1], now);
      if !ok then (fs1, false)
      else match MakeDirs(fs1, d + folders[|folders| - 1], now)
        case None => (fs1, false)
        case Some(fs2) =>
          assert forall i :: 0 <= i < |folders| - 1 ==> folders[..|folders| - 1][i] == folders[i];
          (fs2, true)
  }

  /** The state the move loop carries. */
  datatype Moving = Moving(fs: Fs, groups: Groups, raised: bool)

  /** One turn of the move loop. A read that raises leaves the call; a move
      that raises skips the file; a recorded move appends the name to its
      key's list. */
  function MoveStep(c: MO.Criterion, d: Path, st: Moving, f: string): (r: Moving)
    ensures st.raised ==> r == st
    ensures r.groups.Keys == st.groups.Keys
    ensures !st.raised && Place(c, st.fs, d, f).None? ==> r == st.(raised := true)
    ensures !st.raised && Place(c, st.fs, d, f).Some? ==>
              var (k, sub) := Place(c, st.fs, d, f).value;
              && (Move(st.fs, d + [f], d + sub + [f]).None? ==> r == st)
              && (Move(st.fs, d + [f], d + sub + [f]).Some? && k in st.groups ==>
                    r == Moving(Move(st.fs, d + [f], d + sub + [f]).value, st.groups[k := st.groups[k] + [f]], false))
  {
    if st.raised then st
    else match Place(c, st.fs, d, f)
      case None => st.(raised := true)
      case Some((k, sub)) =>
        match Move(st.fs, d + [f], d + sub + [f])
        case None => st
        case Some(fs1) =>
          if k in st.groups then Moving(fs1, st.groups[k := st.groups[k] + [f]], false)
          else st.(fs := fs1)
  }

  function MoveLoop(c: MO.Criterion, d: Path, st: Moving, files: seq<string>): (r: Moving)
    ensures r.groups.Keys == st.groups.Keys
    ensures st.raised ==> r == st
  {
    if files == [] then st
    else MoveStep(c, d, MoveLoop(c, d, st, files[..|files| - 1]), files[|files| - 1])
  }

  /** `organize_by_<c>(directory)` */
  function Organize(c: MO.Criterion, fs: Fs, cwd: Path, directory: string, now: Moment): (r: Outcome)
    ensures !Exists(fs, cwd, directory) ==> r == Outcome(fs, Some(map[]))
  {
    if !Exists(fs, cwd, directory) then Outcome(fs, Some(map[]))
    else
      var d := Resolve(cwd, directory);
      match ListDir(fs, d)
      case None => Outcome(fs, None)
      case Some(names) => OrganizeFiles(c, fs, d, FilesOf(fs, d, names), now)
  }

  /** What follows the listing: the first pass, the folders, the moves. */
  function OrganizeFiles(c: MO.Criterion, fs: Fs, d: Path, files: seq<string>, now: Moment): Outcome {
    match Start(c, fs, d, files)
    case None => Outcome(fs, None)
    case Some((folders, g)) =>
      var (fs1, ok) := MakeAll(fs, d, folders, now);
      if !ok then Outcome(fs1, None)
      else
        var st := MoveLoop(c, d, Moving(fs1, g, false), files);
        Outcome(st.fs, if st.raised then None else Some(st.groups))
  }

  // ---------------------------------------------------------------- what the result holds

  /** Every name under a key is one of `s`; for the name-based keys, it is
      the key of that name. */
  predicate Filed(c: MO.Criterion, g: Groups, s: seq<string>) {
    forall k, x :: k in g && x in g[k] ==> x in s && FiledAs(c, k, x)
  }

  /** For the name-based keys, `k` is the key of the name `x`. */
  predicate FiledAs(c: MO.Criterion, k: string, x: string) {
    && (c == MO.ByExtension ==> k == ExtKey(x))
    && (c == MO.ByType ==> k == TypeKey(Lower(Ext(x))))
  }

  lemma FiledMember(c: MO.Criterion, g: Groups, s: seq<string>, k: string, x: string)
    requires Filed(c, g, s) && k in g && x in g[k]
    ensures x in s
  {
  }

  /** No name is listed twice, under one key or two. */
  predicate Once(g: Groups) {
    && (forall k :: k in g ==> Distinct(g[k]))
    && (forall k1, k2, x :: k1 in g && k2 in g && k1 != k2 && x in g[k1] ==> x !in g[k2])
  }

  /** Appending a new name to one list keeps the names filed. */
  lemma AppendFiled(c: MO.Criterion, g: Groups, s: seq<string>, k: string, f: string)
    requires Filed(c, g, s) && k in g && FiledAs(c, k, f)
    ensures Filed(c, g[k := g[k] + [f]], s + [f])
  {
    var g' := g[k := g[k] + [f]];
    forall k1, x | k1 in g' && x in g'[k1] ensures x in s + [f] && FiledAs(c, k1, x) {
      if k1 == k {
        assert g'[k1] == g[k] + [f];
        if x != f {
          assert x in g[k];
        }
      } else {
        assert g'[k1] == g[k1];
      }
    }
  }

  /** Appending a name no list holds keeps every name listed once. */
  lemma AppendOnce(g: Groups, s: seq<string>, k: string, f: string)
    requires Once(g) && k in g && f !in s
    requires forall k1, x :: k1 in g && x in g[k1] ==> x in s
    ensures Once(g[k := g[k] + [f]])
  {
    var g' := g[k := g[k] + [f]];
    assert forall k0 :: k0 in g ==> f !in g[k0];
    DistinctAppend(g[k], f);
    forall k1, k2, x | k1 in g' && k2 in g' && k1 != k2 && x in g'[k1] ensures x !in g'[k2] {
      if x != f {
        assert x in g[k1];
      }
    }
  }

  /** A turn keeps the result well filed. */
  lemma StepFiled(c: MO.Criterion, d: Path, st: Moving, s: seq<string>, f: string)
    requires Filed(c, st.groups, s) && Once(st.groups) && f !in s
    ensures var r := MoveStep(c, d, st, f);
            Filed(c, r.groups, s + [f]) && Once(r.groups)
  {
    var r := MoveStep(c, d, st, f);
    if r.groups != st.groups {
      var (k, sub) := Place(c, st.fs, d, f).value;
      AppendFiled(c, st.groups, s, k, f);
      AppendOnce(st.groups, s, k, f);
    }
  }

  /** The names moved are files of the listing, each under its own key and
      listed once, when the listing repeats no name. */
  lemma {:induction false} MoveLoopFiled(c: MO.Criterion, d: Path, st: Moving, files: seq<string>)
    requires forall k :: k in st.groups ==> st.groups[k] == []
    requires Distinct(files)
    ensures Filed(c, MoveLoop(c, d, st, files).groups, files) && Once(MoveLoop(c, d, st, files).groups)
    decreases |files|
  {
    if files != [] {
      var pre, f := files[..|files| - 1], files[|files| - 1];
      assert Distinct(pre) by {
        forall i, j | 0 <= i < j < |pre| ensures pre[i] != pre[j] {
          assert pre[i] == files[i] && pre[j] == files[j];
        }
      }
      assert f !in pre by {
        forall i | 0 <= i < |pre| ensures pre[i] != f {
          assert pre[i] == files[i];
        }
      }
      MoveLoopFiled(c, d, st, pre);
      StepFiled(c, d, MoveLoop(c, d, st, pre), pre, f);
      assert pre + [f] == files;
    }
  }

  /** The result map of the passes over a list of distinct names: the keys
      set up before moving (for size, exactly small, medium and large; for
      type, the seven categories; for extension, the extensions present), and
      every moved name one of the list, listed once, under its own key. */
  lemma {:induction false} OrganizeFilesResult(c: MO.Criterion, fs: Fs, d: Path, files: seq<string>, now: Moment)
    requires Distinct(files)
    ensures var r := OrganizeFiles(c, fs, d, files, now);
            r.result.Some? ==>
              && Filed(c, r.result.value, files) && Once(r.result.value)
              && (c == MO.BySize ==> r.result.value.Keys == {"small", "medium", "large"})
              && (c == MO.ByType ==> forall k :: k in r.result.value <==> k in Keys(TypeCategories))
              && (c == MO.ByExtension ==> r.result.value.Keys == ExtKeys(files))
  {
    var r := OrganizeFiles(c, fs, d, files, now);
    if r.result.Some? {
      var (folders, g) := Start(c, fs, d, files).value;
      var (fs1, ok) := MakeAll(fs, d, folders, now);
      var st := MoveLoop(c, d, Moving(fs1, g, false), files);
      assert r.result.value == st.groups;
      MoveLoopFiled(c, d, Moving(fs1, g, false), files);
      if c == MO.ByExtension {
        SurveyByExtension(fs, d, files);
      }
    }
  }

  /** What `organize_*` returns on an existing directory: a map whose names
      are regular files of the directory's listing, each listed once under
      its own key, with the keys `OrganizeFilesResult` describes. */
  lemma OrganizeResult(c: MO.Criterion, fs: Fs, cwd: Path, directory: string, now: Moment)
    requires Exists(fs, cwd, directory)
    ensures var r := Organize(c, fs, cwd, directory, now);
            var d := Resolve(cwd, directory);
            r.result.Some? ==>
              && IsDir(fs, d)
              && var files := FilesOf(fs, d, ListDir(fs, d).value);
                 && r == OrganizeFiles(c, fs, d, files, now)
                 && Filed(c, r.result.value, files) && Once(r.result.value)
                 && (forall k, x :: k in r.result.value && x in r.result.value[k] ==> IsFile(fs, d + [x]))
  {
    var d := Resolve(cwd, directory);
    var r := Organize(c, fs, cwd, directory, now);
    if r.result.Some? {
      var names := ListDir(fs, d).value;
      var files := FilesOf(fs, d, names);
      AscendingDistinct(names);
      FilterDistinct(names, x => IsFile(fs, d + [x]));
      assert r == OrganizeFiles(c, fs, d, files, now);
      OrganizeFilesResult(c, fs, d, files, now);
      var g := r.result.value;
      assert Filed(c, g, files);
      forall k, x | k in g && x in g[k] ensures IsFile(fs, d + [x]) {
        FiledMember(c, g, files, k, x);
      }
    }
  }

  // ---------------------------------------------------------------- the loops

  /** The first pass of `organize_by_extension` / `organize_by_date`. */
  method SurveyFiles(c: MO.Criterion, fs: Fs, d: Path, files: seq<string>)
    returns (r: Option<(seq<seq<string>>, Groups)>)
    ensures r == Survey(c, fs, d, files)
  {
    var folders: seq<seq<string>> := [];
    var g: Groups := map[];
    var i := 0;
    while i < |files|
      invariant 0 <= i <= |files|
      invariant Survey(c, fs, d, files[..i]) == Some((folders, g))
    {
      InitOf(files, i);
      var acc := SurveyOne(c, fs, d, folders, g, files[i]);
      assert Survey(c, fs, d, files[..i + 1]) == acc;
      if acc.None? {
        SurveyStops(c, fs, d, files, i + 1);
        return None;
      }
      folders, g := acc.value.0, acc.value.1;
      i := i + 1;
    }
    assert files[..i] == files;
    return Some((folders, g));
  }

  /** One turn of the first pass: the file's key and folder, noted once. */
  method SurveyOne(c: MO.Criterion, fs: Fs, d: Path, folders: seq<seq<string>>, g: Groups, f: string)
    returns (r: Option<(seq<seq<string>>, Groups)>)
    ensures r == SurveyStep(c, fs, d, Some((folders, g)), f)
  {
    var place := Place(c, fs, d, f);
    if place.None? {
      return None;
    }
    var k, sub := place.value.0, place.value.1;
    var folders' := if sub in folders then folders else folders + [sub];
    var g' := if k in g then g else g[k := []];
    return Some((folders', g'));
  }

  /** Once a read has raised, the first pass stays failed. */
  lemma {:induction false} SurveyStops(c: MO.Criterion, fs: Fs, d: Path, files: seq<string>, i: nat)
    requires i <= |files| && Survey(c, fs, d, files[..i]).None?
    ensures Survey(c, fs, d, files).None?
    decreases |files|
  {
    if i == |files| {
      assert files[..i] == files;
    } else {
      PrefixOfInit(files, i);
      SurveyStops(c, fs, d, files[..|files| - 1], i);
    }
  }

  /** The `os.makedirs` loop. */
  method MakeFolders(fs: Fs, d: Path, folders: seq<seq<string>>, now: Moment) returns (fs': Fs, ok: bool)
    ensures (fs', ok) == MakeAll(fs, d, folders, now)
  {
    fs' := fs;
    var i := 0;
    while i < |folders|
      invariant 0 <= i <= |folders|
      invariant MakeAll(fs, d, folders[..i], now) == (fs', true)
    {
      InitOf(folders, i);
      var made := MakeDirs(fs', d + folders[i], now);
      if made.None? {
        MakeAllStops(fs, d, folders, now, i + 1);
        return fs', false;
      }
      fs' := made.value;
      i := i + 1;
    }
    assert folders[..i] == folders;
    ok := true;
  }

  /** Once a `makedirs` has raised, the rest are not run. */
  lemma {:induction false} MakeAllStops(fs: Fs, d: Path, folders: seq<seq<string>>, now: Moment, i: nat)
    requires i <= |folders| && !MakeAll(fs, d, folders[..i], now).1
    ensures MakeAll(fs, d, folders, now) == MakeAll(fs, d, folders[..i], now)
    decreases |folders|
  {
    if i == |folders| {
      assert folders[..i] == folders;
    } else {
      PrefixOfInit(folders, i);
      MakeAllStops(fs, d, folders[..|folders| - 1], now, i);
    }
  }

  /** The move loop, left when a read raises. */
  method MoveFiles(c: MO.Criterion, d: Path, st0: Moving, files: seq<string>) returns (st: Moving)
    requires !st0.raised
    ensures st == MoveLoop(c, d, st0, files)
  {
    st := st0;
    var i := 0;
    while i < |files|
      invariant 0 <= i <= |files|
      invariant st == MoveLoop(c, d, st0, files[..i]) && !st.raised
    {
      MoveLoopNext(c, d, st0, files, i);
      var st1 := MoveOne(c, d, st, files[i]);
      if st1.raised {
        MoveLoopStops(c, d, st0, files, i + 1);
        return st1;
      }
      st := st1;
      i := i + 1;
    }
    assert files[..i] == files;
  }

  /** The body of the move loop. */
  method MoveOne(c: MO.Criterion, d: Path, st: Moving, f: string) returns (r: Moving)
    requires !st.raised
    ensures r == MoveStep(c, d, st, f)
  {
    var place := Place(c, st.fs, d, f);
    if place.None? {
      return st.(raised := true);
    }
    var (k, sub) := place.value;
    var moved := Move(st.fs, d + [f], d + sub + [f]);
    if moved.None? {
      return st;
    }
    if k in st.groups {
      r := Moving(moved.value, st.groups[k := st.groups[k] + [f]], false);
    } else {
      r := st.(fs := moved.value);
    }
  }

  lemma MoveLoopNext(c: MO.Criterion, d: Path, st: Moving, files: seq<string>, i: nat)
    requires i < |files|
    ensures MoveLoop(c, d, st, files[..i + 1]) == MoveStep(c, d, MoveLoop(c, d, st, files[..i]), files[i])
  {
    InitOf(files, i);
  }

  /** Once a read has raised, the rest of the listing changes nothing. */
  lemma {:induction false} MoveLoopStops(c: MO.Criterion, d: Path, st: Moving, files: seq<string>, i: nat)
    requires i <= |files| && MoveLoop(c, d, st, files[..i]).raised
    ensures MoveLoop(c, d, st, files) == MoveLoop(c, d, st, files[..i])
    decreases |files|
  {
    if i == |files| {
      assert files[..i] == files;
    } else {
      PrefixOfInit(files, i);
      MoveLoopStops(c, d, st, files[..|files| - 1], i);
    }
  }

  /** The shared body of the four `organize_*` methods. */
  method OrganizeWith(c: MO.Criterion, fs: Fs, cwd: Path, directory: string, now: Moment) returns (o: Outcome)
    ensures o == Organize(c, fs, cwd, directory, now)
  {
    if !Exists(fs, cwd, directory) {
      return Outcome(fs, Some(map[]));
    }
    var d := Resolve(cwd, directory);
    var listing := ListDir(fs, d);
    if listing.None? {
      return Outcome(fs, None);
    }
    var files := FilesOf(fs, d, listing.value);
    o := FilesWith(c, fs, d, files, now);
  }

  /** The passes after the listing. */
  method FilesWith(c: MO.Criterion, fs: Fs, d: Path, files: seq<string>, now: Moment) returns (o: Outcome)
    ensures o == OrganizeFiles(c, fs, d, files, now)
  {
    var start: Option<(seq<seq<string>>, Groups)>;
    if c == MO.ByExtension || c == MO.ByDate {
      start := SurveyFiles(c, fs, d, files);
    } else {
      start := Start(c, fs, d, files);
    }
    assert start == Start(c, fs, d, files);
    if start.None? {
      return Outcome(fs, None);
    }
    var (folders, g) := start.value;
    var fs1, ok := MakeFolders(fs, d, folders, now);
    if !ok {
      return Outcome(fs1, None);
    }
    var st := MoveFiles(c, d, Moving(fs1, g, false), files);
    o := Outcome(st.fs, if st.raised then None else Some(st.groups));
  }

  method OrganizeByExtension(fs: Fs, cwd: Path, directory: string, now: Moment) returns (o: Outcome)
    ensures o == Organize(MO.ByExtension, fs, cwd, directory, now)
  {
    o := OrganizeWith(MO.ByExtension, fs, cwd, directory, now);
  }

  method OrganizeByDate(fs: Fs, cwd: Path, directory: string, now: Moment) returns (o: Outcome)
    ensures o == Organize(MO.ByDate, fs, cwd, directory, now)
  {
    o := OrganizeWith(MO.ByDate, fs, cwd, directory, now);
  }

  method OrganizeBySize(fs: Fs, cwd: Path, directory: string, now: Moment) returns (o: Outcome)
    ensures o == Organize(MO.BySize, fs, cwd, directory, now)
  {
    o := OrganizeWith(MO.BySize, fs, cwd, directory, now);
  }

  method OrganizeByType(fs: Fs, cwd: Path, directory: string, now: Moment) returns (o: Outcome)
    ensures o == Organize(MO.ByType, fs, cwd, directory, now)
  {
    o := OrganizeWith(MO.ByType, fs, cwd, directory, now);
  }

  /** `organize_directory(directory)`: the type organization, behind its own
      existence check. */
  method OrganizeDirectory(fs: Fs, cwd: Path, directory: string, now: Moment) returns (o: Outcome)
    ensures o == Organize(MO.ByType, fs, cwd, directory, now)
  {
    if !Exists(fs, cwd, directory) {
      return Outcome(fs, Some(map[]));
    }
    o := OrganizeByType(fs, cwd, directory, now);
  }

  // ---------------------------------------------------------------- revert_last_organization

  /** The loop's state: the tree and `moved_files_count`. */
  datatype Gathering = Gathering(fs: Fs, count: nat)

  /** One entry of a subdirectory: a regular file comes back up into
      `target`, under its own name or the timestamped one when that is taken;
      anything else, or a move that raises, changes nothing. */
  function GatherStep(target: Path, sub: Path, now: Moment, st: Gathering, n: string): (r: Gathering)
    requires |sub| == |target| + 1
    ensures r.count == st.count || r.count == st.count + 1
    ensures r.count == st.count ==> r.fs == st.fs
    ensures r.count != st.count ==>
              var f := sub + [n];
              var t := MoveTarget(st.fs, f, Ops.Destination(st.fs, target, n, now));
              && IsFile(st.fs, f) && IsFile(r.fs, t) && r.fs[t] == st.fs[f]
              && target < t && f !in r.fs
  {
    var f := sub + [n];
    if !IsFile(st.fs, f) then st
    else
      var d := Ops.Destination(st.fs, target, n, now);
      MoveFile(st.fs, f, d);
      match Move(st.fs, f, d)
      case None => st
      case Some(fs) =>
        assert f != d;
        Gathering(fs, st.count + 1)
  }

  function GatherLoop(target: Path, sub: Path, now: Moment, st: Gathering, names: seq<string>): (r: Gathering)
    requires |sub| == |target| + 1
    ensures r.count >= st.count
    ensures r.count == st.count ==> r.fs == st.fs
  {
    if names == [] then st
    else GatherStep(target, sub, now, GatherLoop(target, sub, now, st, names[..|names| - 1]), names[|names| - 1])
  }

  /** One subdirectory: its listing (an error skips it), its files brought up,
      and then `rmdir` when that left it empty. */
  function SubdirStep(target: Path, now: Moment, st: Gathering, name: string): (r: Gathering)
    ensures r.count >= st.count
    ensures !(IsDir(r.fs, target + [name]) && Children(r.fs, target + [name]) == {})
  {
    var sub := target + [name];
    match ListDir(st.fs, sub)
    case None => st
    case Some(entries) =>
      var g := GatherLoop(target, sub, now, st, entries);
      match RmDir(g.fs, sub)
      case None => g
      case Some(fs) => g.(fs := fs)
  }

  function SubdirLoop(target: Path, now: Moment, st: Gathering, names: seq<string>): (r: Gathering)
    ensures r.count >= st.count
  {
    if names == [] then st
    else SubdirStep(target, now, SubdirLoop(target, now, st, names[..|names| - 1]), names[|names| - 1])
  }

  /** The directory reverted: the given one when it is non-empty and exists,
      else the working directory. */
  function RevertTarget(fs: Fs, cwd: Path, directory: Option<string>): Path {
    if directory.Some? && directory.value != "" && Exists(fs, cwd, directory.value) then Resolve(cwd, directory.value)
    else cwd
  }

  /** The subdirectories of the target, in listing order. */
  function Subdirs(fs: Fs, target: Path, names: seq<string>): seq<string> {
    Filter(names, (n: string) => IsDir(fs, target + [n]))
  }

  /** `revert_last_organization(directory)`: every subdirectory of the target
      gives its files back to the target and goes if that left it empty; the
      answer is whether any file moved. */
  function RevertLastOrganization(fs: Fs, cwd: Path, directory: Option<string>, now: Moment): (r: (Fs, bool))
    ensures !IsDir(fs, RevertTarget(fs, cwd, directory)) ==> r == (fs, false)
    ensures (forall n :: !IsDir(fs, RevertTarget(fs, cwd, directory) + [n])) ==> r == (fs, false)
  {
    var target := RevertTarget(fs, cwd, directory);
    match ListDir(fs, target)
    case None => (fs, false)
    case Some(names) =>
      var subdirs := Subdirs(fs, target, names);
      if subdirs == [] then (fs, false)
      else
        var g := SubdirLoop(target, now, Gathering(fs, 0), subdirs);
        (g.fs, g.count > 0)
  }

  /** The files of one subdirectory brought up, one entry at a time. */
  method GatherFiles(target: Path, sub: Path, now: Moment, st: Gathering, entries: seq<string>) returns (r: Gathering)
    requires |sub| == |target| + 1
    ensures r == GatherLoop(target, sub, now, st, entries)
  {
    r := st;
    var i := 0;
    while i < |entries|
      invariant 0 <= i <= |entries|
      invariant r == GatherLoop(target, sub, now, st, entries[..i])
    {
      InitOf(entries, i);
      var n := entries[i];
      var f := sub + [n];
      if IsFile(r.fs, f) {
        var d := target + [n];
        if d in r.fs {
          d := target + [Ops.CollisionName(n, now)];
        }
        var moved := Move(r.fs, f, d);
        if moved.Some? {
          r := Gathering(moved.value, r.count + 1);
        }
      }
      i := i + 1;
    }
    assert entries[..i] == entries;
  }

  /** One subdirectory of `revert_last_organization`: its files brought up,
      then `rmdir`. */
  method GatherSubdir(target: Path, now: Moment, st: Gathering, name: string) returns (r: Gathering)
    ensures r == SubdirStep(target, now, st, name)
  {
    r := st;
    var sub := target + [name];
    var entries := ListDir(r.fs, sub);
    if entries.Some? {
      r := GatherFiles(target, sub, now, r, entries.value);
      var removed := RmDir(r.fs, sub);
      if removed.Some? {
        r := r.(fs := removed.value);
      }
    }
  }

  /** `revert_last_organization(directory)`, subdirectory by subdirectory. */
  method RevertLastOrganizationIn(fs: Fs, cwd: Path, directory: Option<string>, now: Moment)
    returns (fs': Fs, reverted: bool)
    ensures (fs', reverted) == RevertLastOrganization(fs, cwd, directory, now)
  {
    var target := cwd;
    if directory.Some? && directory.value != "" && Exists(fs, cwd, directory.value) {
      target := Resolve(cwd, directory.value);
    }
    var listing := ListDir(fs, target);
    if listing.None? {
      return fs, false;
    }
    var subdirs := Subdirs(fs, target, listing.value);
    if subdirs == [] {
      return fs, false;
    }
    var st := Gathering(fs, 0);
    var i := 0;
    while i < |subdirs|
      invariant 0 <= i <= |subdirs|
      invariant st == SubdirLoop(target, now, Gathering(fs, 0), subdirs[..i])
    {
      InitOf(subdirs, i);
      st := GatherSubdir(target, now, st, subdirs[i]);
      i := i + 1;
    }
    assert subdirs[..i] == subdirs;
    fs', reverted := st.fs, st.count > 0;
  }
}
