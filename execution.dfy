// The `Execution` front end: one category at a time, or every category of the
// table in its own order, each handed to the FileManager's category moves.

module Execution {
  import opened Strings
  import opened Clock
  import opened PosixPath
  import opened FileSystem
  import opened Seqs
  import opened OnlyFilesLogger
  import opened FileTypes
  import opened ManagerCore
  import opened ManagerMoves
  import opened OnlyFilesManager

  /** The result of a call: the world, and whether an exception left it. */
  type Outcome = (World, bool)

  /** `__organize_by_type(origin, category)`: the destination is always
      `join(origin, category)`; "Others" gathers what no category claims,
      every other key gathers its own extensions, and a name that is not a
      key raises (`KeyError`) before anything is touched. */
  function OrganizeCategory(cfg: Config, now: Moment, t: Table, w: World, origin: string,
                            category: string): (r: Outcome)
    ensures r.0.cwd == w.cwd
    ensures category == "Others" ==>
              r == (ManagerMoves.MoveOtherFiles(cfg, now, w, origin, Join(origin, category), t), false)
    ensures category != "Others" && category in Keys(t) ==>
              r == ManagerMoves.MoveFilesByType(cfg, now, w, origin, Join(origin, category), Lookup(t, category))
    ensures category != "Others" && category !in Keys(t) ==> r == (w, true)
  {
    var dest := Join(origin, category);
    if category == "Others" then (ManagerMoves.MoveOtherFiles(cfg, now, w, origin, dest, t), false)
    else if category in Keys(t) then ManagerMoves.MoveFilesByType(cfg, now, w, origin, dest, Lookup(t, category))
    else (w, true)
  }

  /** One turn of `organize_all`'s loop: nothing runs once an exception has left. */
  function AllStep(cfg: Config, now: Moment, t: Table, origin: string, acc: Outcome, category: string): (r: Outcome)
    ensures acc.1 ==> r == acc
    ensures !acc.1 ==> r == OrganizeCategory(cfg, now, t, acc.0, origin, category)
  {
    if acc.1 then acc else OrganizeCategory(cfg, now, t, acc.0, origin, category)
  }

  /** The loop over a list of categories. */
  function AllLoop(cfg: Config, now: Moment, t: Table, origin: string, acc: Outcome, cats: seq<string>): (r: Outcome)
    ensures r.0.cwd == acc.0.cwd
    ensures acc.1 ==> r == acc
  {
    if cats == [] then acc
    else AllStep(cfg, now, t, origin, AllLoop(cfg, now, t, origin, acc, cats[..|cats| - 1]), cats[|cats| - 1])
  }

  /** `organize_all(origin)`: every key of the table, in order. */
  function AllCategories(cfg: Config, now: Moment, t: Table, w: World, origin: string): (r: Outcome)
    ensures r == AllLoop(cfg, now, t, origin, (w, false), Keys(t))
  {
    AllLoop(cfg, now, t, origin, (w, false), Keys(t))
  }

  /** After an exception, the rest of the categories change nothing. */
  lemma {:induction false} AllLoopStops(cfg: Config, now: Moment, t: Table, origin: string, acc: Outcome,
                                        cats: seq<string>, i: nat)
    requires i <= |cats| && AllLoop(cfg, now, t, origin, acc, cats[..i]).1
    ensures AllLoop(cfg, now, t, origin, acc, cats) == AllLoop(cfg, now, t, origin, acc, cats[..i])
    decreases |cats|
  {
    if i == |cats| {
      assert cats[..i] == cats;
    } else {
      var pre := cats[..|cats| - 1];
      PrefixOfInit(cats, i);
      AllLoopStops(cfg, now, t, origin, acc, pre, i);
    }
  }

  /** The loop over two lists is the loop over the second, started where the
      first one ended. */
  lemma {:induction false} AllLoopAppend(cfg: Config, now: Moment, t: Table, origin: string, acc: Outcome,
                                         a: seq<string>, b: seq<string>)
    ensures AllLoop(cfg, now, t, origin, acc, a + b)
            == AllLoop(cfg, now, t, origin, AllLoop(cfg, now, t, origin, acc, a), b)
    decreases |b|
  {
    if b == [] {
      assert a + b == a;
    } else {
      InitOfAppend(a, b);
      AllLoopAppend(cfg, now, t, origin, acc, a, b[..|b| - 1]);
    }
  }

  /** On a single category the loop is one call of `__organize_by_type`. */
  lemma AllLoopOne(cfg: Config, now: Moment, t: Table, origin: string, acc: Outcome, c: string)
    ensures AllLoop(cfg, now, t, origin, acc, [c]) == AllStep(cfg, now, t, origin, acc, c)
  {
    assert [c][..0] == [];
  }

  /** With the shipped table, `organize_all` runs Music, Videos, Images,
      Documents and Others, once each and in that order, leaving at the first
      exception; only the four extension categories can raise. */
  lemma OrganizeAllStandard(cfg: Config, now: Moment, w: World, origin: string)
    ensures var t := FileTypes.FileTypes;
            var a := AllStep(cfg, now, t, origin, (w, false), "Music");
            var b := AllStep(cfg, now, t, origin, a, "Videos");
            var c := AllStep(cfg, now, t, origin, b, "Images");
            var d := AllStep(cfg, now, t, origin, c, "Documents");
            AllCategories(cfg, now, t, w, origin) == AllStep(cfg, now, t, origin, d, "Others")
    ensures !AllCategories(cfg, now, FileTypes.FileTypes, w, origin).1 ==>
              AllCategories(cfg, now, FileTypes.FileTypes, w, origin).0 ==
                var t := FileTypes.FileTypes;
                var d := AllLoop(cfg, now, t, origin, (w, false), ["Music", "Videos", "Images", "Documents"]);
                ManagerMoves.MoveOtherFiles(cfg, now, d.0, origin, Join(origin, "Others"), t)
  {
    var t := FileTypes.FileTypes;
    TableKeys();
    var ks := ["Music", "Videos", "Images", "Documents", "Others"];
    assert Keys(t) == ks;
    var s0 := (w, false);
    var four := ["Music", "Videos", "Images", "Documents"];
    var three := ["Music", "Videos", "Images"];
    var two := ["Music", "Videos"];
    var one := ["Music"];
    assert ks == four + ["Others"];
    assert four == three + ["Documents"];
    assert three == two + ["Images"];
    assert two == one + ["Videos"];
    AllLoopAppend(cfg, now, t, origin, s0, four, ["Others"]);
    AllLoopAppend(cfg, now, t, origin, s0, three, ["Documents"]);
    AllLoopAppend(cfg, now, t, origin, s0, two, ["Images"]);
    AllLoopAppend(cfg, now, t, origin, s0, one, ["Videos"]);
    var a := AllLoop(cfg, now, t, origin, s0, one);
    AllLoopOne(cfg, now, t, origin, s0, "Music");
    var b := AllLoop(cfg, now, t, origin, s0, two);
    AllLoopOne(cfg, now, t, origin, a, "Videos");
    var c := AllLoop(cfg, now, t, origin, s0, three);
    AllLoopOne(cfg, now, t, origin, b, "Images");
    var d := AllLoop(cfg, now, t, origin, s0, four);
    AllLoopOne(cfg, now, t, origin, c, "Documents");
    AllLoopOne(cfg, now, t, origin, d, "Others");
  }

  /** The `Execution` object: its manager and its table. */
  class Execution {
    const manager: FileManager
    /** `self.__types` */
    const types: Table

    constructor(logger: string)
      ensures fresh(manager) && manager.Valid()
      ensures manager.logger == logger && manager.excludedFiles == [LogFileName] && manager.excludedDirs == []
      ensures types == FileTypes.FileTypes
    {
      manager := new FileManager(logger);
      types := FileTypes.FileTypes;
    }

    /** `__organize_by_type(origin, category)` */
    method OrganizeByType(now: Moment, w: World, origin: string, category: string)
      returns (w': World, raised: bool)
      ensures (w', raised) == OrganizeCategory(manager.Cfg(), now, types, w, origin, category)
    {
      var dest := Join(origin, category);
      if category == "Others" {
        w' := manager.MoveOtherFiles(now, w, origin, dest, types);
        raised := false;
      } else if category in Keys(types) {
        w', raised := manager.MoveFilesByType(now, w, origin, dest, Lookup(types, category));
      } else {
        w', raised := w, true;
      }
    }

    method OrganizeMusic(now: Moment, w: World, origin: string) returns (w': World, raised: bool)
      ensures (w', raised) == OrganizeCategory(manager.Cfg(), now, types, w, origin, "Music")
    {
      w', raised := OrganizeByType(now, w, origin, "Music");
    }

    method OrganizeImages(now: Moment, w: World, origin: string) returns (w': World, raised: bool)
      ensures (w', raised) == OrganizeCategory(manager.Cfg(), now, types, w, origin, "Images")
    {
      w', raised := OrganizeByType(now, w, origin, "Images");
    }

    method OrganizeDocuments(now: Moment, w: World, origin: string) returns (w': World, raised: bool)
      ensures (w', raised) == OrganizeCategory(manager.Cfg(), now, types, w, origin, "Documents")
    {
      w', raised := OrganizeByType(now, w, origin, "Documents");
    }

    method OrganizeVideos(now: Moment, w: World, origin: string) returns (w': World, raised: bool)
      ensures (w', raised) == OrganizeCategory(manager.Cfg(), now, types, w, origin, "Videos")
    {
      w', raised := OrganizeByType(now, w, origin, "Videos");
    }

    method OrganizeOthers(now: Moment, w: World, origin: string) returns (w': World, raised: bool)
      ensures (w', raised) == OrganizeCategory(manager.Cfg(), now, types, w, origin, "Others")
    {
      w', raised := OrganizeByType(now, w, origin, "Others");
    }

    /** `organize_all(origin)`: the loop over the table's keys, left by the
        first exception. */
    method OrganizeAll(now: Moment, w: World, origin: string) returns (w': World, raised: bool)
      ensures (w', raised) == AllCategories(manager.Cfg(), now, types, w, origin)
    {
      var cfg := manager.Cfg();
      var keys := Keys(types);
      w', raised := w, false;
      var i := 0;
      while i < |keys|
        invariant 0 <= i <= |keys|
        invariant (w', raised) == AllLoop(cfg, now, types, origin, (w, false), keys[..i]) && !raised
      {
        var w1, r1 := OrganizeByType(now, w', origin, keys[i]);
        InitOf(keys, i);
        if r1 {
          AllLoopStops(cfg, now, types, origin, (w, false), keys, i + 1);
          return w1, r1;
        }
        w', raised := w1, r1;
        i := i + 1;
      }
      assert keys[..i] == keys;
    }
  }
}
