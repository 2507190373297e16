// A directory tree as a map from locations to entries, and the operations of
// `os` and `shutil` the organizer calls, each returning `None` where the call
// raises.

module FileSystem {
  import opened Wrappers
  import opened Sorting
  import opened Clock
  import opened PosixPath

  /** A directory entry. `ctime` is `os.path.getctime` read as local time. */
  datatype Node = File(size: nat, ctime: Moment) | Dir(ctime: Moment)

  type Fs = map<Path, Node>

  function Parent(p: Path): Path
    requires p != []
  {
    p[..|p| - 1]
  }

  function Last(p: Path): string
    requires p != []
  {
    p[|p| - 1]
  }

  /** Every entry but the root sits in a directory. */
  predicate Valid(fs: Fs) {
    && [] in fs && fs[[]].Dir?
    && forall p :: p in fs && p != [] ==> Parent(p) in fs && fs[Parent(p)].Dir?
  }

  predicate IsFile(fs: Fs, p: Path) {
    p in fs && fs[p].File?
  }

  predicate IsDir(fs: Fs, p: Path) {
    p in fs && fs[p].Dir?
  }

  /** In a valid tree nothing lies below a file. */
  lemma {:induction false} NothingBelowFile(fs: Fs, f: Path, q: Path)
    requires Valid(fs) && IsFile(fs, f) && f < q
    ensures q !in fs
    decreases |q|
  {
    if |q| > |f| + 1 {
      assert f < Parent(q);
      NothingBelowFile(fs, f, Parent(q));
    } else {
      assert Parent(q) == f;
    }
  }

  /** In a valid tree every ancestor of an entry is a directory. */
  lemma {:induction false} AncestorsAreDirs(fs: Fs, p: Path, i: nat)
    requires Valid(fs) && p in fs && i < |p|
    ensures IsDir(fs, p[..i])
    decreases |p| - i
  {
    if i < |p| - 1 {
      AncestorsAreDirs(fs, Parent(p), i);
      assert Parent(p)[..i] == p[..i];
    } else {
      assert Parent(p) == p[..i];
    }
  }

  // ---------------------------------------------------------------- listing

  /** The names directly inside `p`. */
  function Children(fs: Fs, p: Path): (r: set<string>)
    ensures forall n :: n in r <==> p + [n] in fs
  {
    var r := set q | q in fs && |q| == |p| + 1 && q[..|p|] == p :: q[|p|];
    assert forall n :: p + [n] in fs ==> n in r by {
      forall n | p + [n] in fs ensures n in r {
        var q := p + [n];
        assert q[..|p|] == p && q[|p|] == n;
      }
    }
    assert forall n :: n in r ==> p + [n] in fs by {
      forall n | n in r ensures p + [n] in fs {
        var q :| q in fs && |q| == |p| + 1 && q[..|p|] == p && q[|p|] == n;
        assert q == p + [n];
      }
    }
    r
  }

  /** `os.listdir(p)`: the names inside a directory (in ascending order; the
      operating system's order is unspecified), `None` when it raises. */
  function ListDir(fs: Fs, p: Path): (r: Option<seq<string>>)
    ensures r.Some? <==> IsDir(fs, p)
    ensures r.Some? ==> Ascending(r.value) && forall n :: n in r.value <==> p + [n] in fs
  {
    if IsDir(fs, p) then Some(SortedList(Children(fs, p))) else None
  }

  // ---------------------------------------------------------------- makedirs

  /** `os.makedirs(p, exist_ok=True)` stamped with `now`. */
  function MakeDirs(fs: Fs, p: Path, now: Moment): (r: Option<Fs>)
    ensures r.Some? ==> IsDir(r.value, p)
    ensures r.Some? ==> forall q :: q in fs ==> q in r.value && r.value[q] == fs[q]
    ensures r.Some? ==> forall q :: q in r.value && q !in fs ==> q <= p && r.value[q] == Dir(now)
    ensures IsDir(fs, p) ==> r == Some(fs)
    decreases |p|
  {
    if p in fs then (if fs[p].Dir? then Some(fs) else None)
    else if p == [] then None
    else
      match MakeDirs(fs, Parent(p), now)
      case None => None
      case Some(fs1) => Some(fs1[p := Dir(now)])
  }

  lemma {:induction false} MakeDirsValid(fs: Fs, p: Path, now: Moment)
    requires Valid(fs)
    ensures MakeDirs(fs, p, now).Some? ==> Valid(MakeDirs(fs, p, now).value)
    decreases |p|
  {
    if p !in fs && p != [] {
      MakeDirsValid(fs, Parent(p), now);
    }
  }

  /** `makedirs` fails exactly when some ancestor of `p`, or `p` itself, is a file. */
  lemma {:induction false} MakeDirsFails(fs: Fs, p: Path, now: Moment)
    requires Valid(fs)
    ensures MakeDirs(fs, p, now).None? <==> exists i :: 0 <= i <= |p| && IsFile(fs, p[..i])
    decreases |p|
  {
    if p in fs {
      if fs[p].Dir? {
        forall i | 0 <= i <= |p| ensures !IsFile(fs, p[..i]) {
          if i < |p| { AncestorsAreDirs(fs, p, i); }
          else { assert p[..i] == p; }
        }
      } else {
        assert p[..|p|] == p;
      }
    } else {
      assert p != [];
      MakeDirsFails(fs, Parent(p), now);
      FileAncestorOfParent(fs, p);
    }
  }

  /** When nothing is at `p`, a file among its ancestors is one among its
      parent's. */
  lemma FileAncestorOfParent(fs: Fs, p: Path)
    requires p != [] && p !in fs
    ensures (exists i :: 0 <= i <= |p| && IsFile(fs, p[..i]))
            <==> exists i :: 0 <= i <= |Parent(p)| && IsFile(fs, Parent(p)[..i])
  {
    if exists i :: 0 <= i <= |Parent(p)| && IsFile(fs, Parent(p)[..i]) {
      var i :| 0 <= i <= |Parent(p)| && IsFile(fs, Parent(p)[..i]);
      assert p[..i] == Parent(p)[..i];
    }
    if exists i :: 0 <= i <= |p| && IsFile(fs, p[..i]) {
      var i :| 0 <= i <= |p| && IsFile(fs, p[..i]);
      assert i < |p| by { assert p[..|p|] == p; }
      assert Parent(p)[..i] == p[..i];
    }
  }

  /** A second `makedirs` of the same directory changes nothing. */
  lemma MakeDirsIdempotent(fs: Fs, p: Path, now: Moment, later: Moment)
    requires MakeDirs(fs, p, now).Some?
    ensures MakeDirs(MakeDirs(fs, p, now).value, p, later) == MakeDirs(fs, p, now)
  {
  }

  // ---------------------------------------------------------------- rename and move

  /** Something exists at or below `p`. */
  predicate Occupied(fs: Fs, p: Path) {
    exists x :: x in fs && p <= x
  }

  /** The tree with the subtree at `src` re-rooted at `dst` (which holds nothing). */
  function Relocate(fs: Fs, src: Path, dst: Path): (r: Fs)
    requires forall x :: x in fs ==> !(dst <= x)
    ensures forall q :: q in fs && !(src <= q) ==> q in r && r[q] == fs[q]
    ensures forall q :: q in fs && src <= q ==> dst + q[|src|..] in r && r[dst + q[|src|..]] == fs[q]
  {
    var moved := set q | q in fs && src <= q :: dst + q[|src|..];
    assert forall t :: t in moved ==> dst <= t && src + t[|dst|..] in fs by {
      forall t | t in moved ensures dst <= t && src + t[|dst|..] in fs {
        var q :| q in fs && src <= q && t == dst + q[|src|..];
        assert src + t[|dst|..] == q;
      }
    }
    var r := map t | t in (set x | x in fs && !(src <= x)) + moved ::
      if t in fs then fs[t] else fs[src + t[|dst|..]];
    assert forall q :: q in fs && src <= q ==> dst + q[|src|..] in moved;
    forall q | q in fs && src <= q ensures r[dst + q[|src|..]] == fs[q] {
      var t := dst + q[|src|..];
      assert t[|dst|..] == q[|src|..];
      assert src + t[|dst|..] == q;
    }
    r
  }

  /** `os.rename(src, dst)` on POSIX: a file replaces a file; a directory is
      re-rooted at a free location outside itself. */
  function Rename(fs: Fs, src: Path, dst: Path): Option<Fs> {
    if src !in fs then None
    else if src == dst then Some(fs)
    else if dst == [] || !IsDir(fs, Parent(dst)) then None
    else if fs[src].File? then
      if IsDir(fs, dst) then None else Some((fs - {src})[dst := fs[src]])
    else if src <= dst || Occupied(fs, dst) then None
    else Some(Relocate(fs, src, dst))
  }

  /** Where `shutil.move(src, dst)` puts `src`: inside `dst` when that is a directory. */
  function MoveTarget(fs: Fs, src: Path, dst: Path): Path {
    if IsDir(fs, dst) && src != dst && src != [] then dst + [Last(src)] else dst
  }

  /** `shutil.move(src, dst)` */
  function Move(fs: Fs, src: Path, dst: Path): Option<Fs> {
    if IsDir(fs, dst) && src != dst then
      if src == [] || dst + [Last(src)] in fs then None
      else Rename(fs, src, dst + [Last(src)])
    else Rename(fs, src, dst)
  }

  /** Moving a file: it leaves `src`, appears at the target, and nothing else changes. */
  lemma MoveFile(fs: Fs, src: Path, dst: Path)
    requires IsFile(fs, src)
    ensures var t := MoveTarget(fs, src, dst);
            Move(fs, src, dst).Some? <==>
              (src == dst || (t != [] && IsDir(fs, Parent(t)) && !IsDir(fs, t) && (t == dst || t !in fs)))
    ensures var t := MoveTarget(fs, src, dst);
            Move(fs, src, dst).Some? ==>
              && IsFile(Move(fs, src, dst).value, t)
              && Move(fs, src, dst).value[t] == fs[src]
              && (src != dst ==> src !in Move(fs, src, dst).value)
              && forall q :: q != src && q != t ==>
                   (q in fs <==> q in Move(fs, src, dst).value)
                   && (q in fs ==> Move(fs, src, dst).value[q] == fs[q])
  {
  }

  /** Moving a file to a free place in a directory and back restores the tree. */
  lemma MoveFileBack(fs: Fs, src: Path, dst: Path)
    requires IsFile(fs, src) && dst !in fs && dst != [] && IsDir(fs, Parent(dst))
    requires src != [] && IsDir(fs, Parent(src))
    ensures Move(fs, src, dst).Some?
    ensures Move(Move(fs, src, dst).value, dst, src) == Some(fs)
  {
    var fs1 := Move(fs, src, dst).value;
    assert fs1 == (fs - {src})[dst := fs[src]];
    assert Parent(src) != src;
    assert IsDir(fs1, Parent(src)) by {
      assert Parent(src) != dst;
    }
    assert (fs1 - {dst})[src := fs1[dst]] == fs;
  }

  /** Moving a file keeps the tree well formed. */
  lemma MoveFileValid(fs: Fs, src: Path, dst: Path)
    requires Valid(fs) && IsFile(fs, src)
    ensures Move(fs, src, dst).Some? ==> Valid(Move(fs, src, dst).value)
  {
    var t := MoveTarget(fs, src, dst);
    if Move(fs, src, dst).Some? && t != src {
      var r := Move(fs, src, dst).value;
      forall p | p in r && p != [] ensures Parent(p) in r && r[Parent(p)].Dir? {
        if p != t {
          assert p in fs;
        }
      }
    }
  }

  /** A move removes nothing outside the moved subtree. */
  lemma MoveKeepsOutside(fs: Fs, src: Path, dst: Path)
    ensures Move(fs, src, dst).Some? ==> forall q :: q in fs && !(src <= q) ==> q in Move(fs, src, dst).value
  {
  }

  // ---------------------------------------------------------------- copies and removal

  /** `shutil.copy2(src, dst)`: the copy gets the source's size and a new change time. */
  function CopyFile(fs: Fs, src: Path, dst: Path, now: Moment): (r: Option<Fs>)
    ensures r.Some? ==> IsFile(fs, src) && var t := MoveTarget(fs, src, dst);
              IsFile(r.value, t) && r.value[t] == File(fs[src].size, now)
              && forall q :: q != t ==> (q in fs <==> q in r.value) && (q in fs ==> r.value[q] == fs[q])
  {
    if !IsFile(fs, src) || src == [] then None
    else
      var t := MoveTarget(fs, src, dst);
      if t == src || t == [] || !IsDir(fs, Parent(t)) || IsDir(fs, t) then None
      else Some(fs[t := File(fs[src].size, now)])
  }

  /** The entries `copytree(src, dst)` copies: everything strictly below `src`,
      except the destination itself when it lies inside the source. */
  predicate CopySource(fs: Fs, src: Path, dst: Path, p: Path) {
    p in fs && src < p && !(dst <= p)
  }

  function CopyTargetOf(src: Path, dst: Path, p: Path): Path
    requires src <= p
  {
    dst + p[|src|..]
  }

  /** The entry a copy destination `q` comes from, if any. */
  predicate IsCopyTarget(fs: Fs, src: Path, dst: Path, q: Path) {
    dst < q && CopySource(fs, src, dst, src + q[|dst|..])
  }

  /** Where `copytree` writes the source entry `p`: at its place below the
      target, or inside that place when `p` is a file and the place is an
      existing directory, as `copy2` does. */
  function CopyDest(fs: Fs, src: Path, dst: Path, p: Path): (q: Path)
    requires src < p
    ensures dst < q
  {
    var t := CopyTargetOf(src, dst, p);
    if IsFile(fs, p) && IsDir(fs, t) then t + [Last(p)] else t
  }

  /** `q` receives a file that `copy2` copied into the directory `Parent(q)`. */
  predicate CopiedInto(fs: Fs, src: Path, dst: Path, q: Path) {
    && q != [] && IsCopyTarget(fs, src, dst, Parent(q))
    && IsFile(fs, src + Parent(q)[|dst|..]) && IsDir(fs, Parent(q))
    && Last(q) == Last(src + Parent(q)[|dst|..])
  }

  /** `q` is written by the copy: a place that receives its source entry,
      or the place inside a directory that receives a file. */
  predicate Written(fs: Fs, src: Path, dst: Path, q: Path) {
    || (IsCopyTarget(fs, src, dst, q) && !(IsFile(fs, src + q[|dst|..]) && IsDir(fs, q)))
    || CopiedInto(fs, src, dst, q)
  }

  /** A directory copied onto a file, a file copied into a directory that
      already holds a directory of its name, or (only in a tree that is not
      well formed) a file copied into a directory where another entry lands. */
  predicate Clash(fs: Fs, fs1: Fs, src: Path, dst: Path, p: Path)
    requires CopySource(fs, src, dst, p)
  {
    var q := CopyDest(fs, src, dst, p);
    || (q in fs1 && fs[p].Dir? != fs1[q].Dir?)
    || (q != CopyTargetOf(src, dst, p) && IsCopyTarget(fs, src, dst, q))
  }

  predicate CopyConflict(fs: Fs, fs1: Fs, src: Path, dst: Path) {
    exists p :: p in fs && CopySource(fs, src, dst, p) && Clash(fs, fs1, src, dst, p)
  }

  lemma CopyTargets(fs: Fs, src: Path, dst: Path)
    ensures forall p :: CopySource(fs, src, dst, p) ==>
              (IsCopyTarget(fs, src, dst, CopyTargetOf(src, dst, p)) && src + CopyTargetOf(src, dst, p)[|dst|..] == p)
  {
    forall p | CopySource(fs, src, dst, p)
      ensures IsCopyTarget(fs, src, dst, CopyTargetOf(src, dst, p)) && src + CopyTargetOf(src, dst, p)[|dst|..] == p
    {
      var q := CopyTargetOf(src, dst, p);
      assert q[|dst|..] == p[|src|..];
      assert src + q[|dst|..] == p;
    }
  }

  /** The destination of a source entry is written, and a file moved away
      from its place lands inside that directory. */
  lemma CopyDestWritten(fs: Fs, fs1: Fs, src: Path, dst: Path, p: Path)
    requires CopySource(fs, src, dst, p) && !Clash(fs, fs1, src, dst, p)
    ensures Written(fs, src, dst, CopyDest(fs, src, dst, p))
    ensures var q := CopyDest(fs, src, dst, p);
            q != CopyTargetOf(src, dst, p) ==> CopiedInto(fs, src, dst, q)
  {
    CopyTargets(fs, src, dst);
    var t := CopyTargetOf(src, dst, p);
    var q := CopyDest(fs, src, dst, p);
    if q != t {
      assert Parent(q) == t && Last(q) == Last(p);
    }
  }

  /** Without a conflict, an entry copied to its own place is not also the
      place of a file copied into a directory. */
  lemma CopyDestAlone(fs: Fs, fs1: Fs, src: Path, dst: Path, p: Path)
    requires CopySource(fs, src, dst, p) && !CopyConflict(fs, fs1, src, dst)
    requires CopyDest(fs, src, dst, p) == CopyTargetOf(src, dst, p)
    ensures !CopiedInto(fs, src, dst, CopyTargetOf(src, dst, p))
  {
    var t := CopyTargetOf(src, dst, p);
    CopyTargets(fs, src, dst);
    if CopiedInto(fs, src, dst, t) {
      var p0 := src + Parent(t)[|dst|..];
      assert CopyTargetOf(src, dst, p0) == Parent(t) by {
        assert p0[|src|..] == Parent(t)[|dst|..];
      }
      assert t == Parent(t) + [Last(t)];
      assert CopyDest(fs, src, dst, p0) == t;
      assert Clash(fs, fs1, src, dst, p0);
    }
  }

  /** What the copy leaves at a place `q` that is written or was there. */
  function OverlayAt(fs: Fs, fs1: Fs, src: Path, dst: Path, now: Moment, q: Path): (n: Node)
    requires q in fs1 || Written(fs, src, dst, q)
    ensures !Written(fs, src, dst, q) ==> n == fs1[q]
    ensures CopiedInto(fs, src, dst, q) ==> n == File(fs[src + Parent(q)[|dst|..]].size, now)
    ensures IsCopyTarget(fs, src, dst, q) && !CopiedInto(fs, src, dst, q) ==>
              var p := src + q[|dst|..];
              (fs[p].File? && !IsDir(fs, q) ==> n == File(fs[p].size, now)) && (fs[p].Dir? ==> n.Dir?)
  {
    if CopiedInto(fs, src, dst, q) then File(fs[src + Parent(q)[|dst|..]].size, now)
    else if IsCopyTarget(fs, src, dst, q) then
      var p := src + q[|dst|..];
      if fs[p].File? then (if IsDir(fs, q) && q in fs1 then fs1[q] else File(fs[p].size, now))
      else if q in fs1 && fs1[q].Dir? then fs1[q] else Dir(now)
    else fs1[q]
  }

  /** The node the copy leaves at the destination of a source entry. */
  lemma OverlaySource(fs: Fs, fs1: Fs, src: Path, dst: Path, now: Moment, p: Path)
    requires CopySource(fs, src, dst, p) && !CopyConflict(fs, fs1, src, dst)
    ensures var q := CopyDest(fs, src, dst, p);
            Written(fs, src, dst, q)
            && var n := OverlayAt(fs, fs1, src, dst, now, q);
               (fs[p].File? ==> n == File(fs[p].size, now)) && (fs[p].Dir? ==> n.Dir?)
  {
    CopyDestWritten(fs, fs1, src, dst, p);
    CopyTargets(fs, src, dst);
    var t := CopyTargetOf(src, dst, p);
    var q := CopyDest(fs, src, dst, p);
    if q == t {
      CopyDestAlone(fs, fs1, src, dst, p);
    } else {
      assert Parent(q) == t;
    }
  }

  /** The tree after every copy source has been written at its destination. */
  function CopyOverlay(fs: Fs, fs1: Fs, src: Path, dst: Path, now: Moment): (r: Fs)
    requires !CopyConflict(fs, fs1, src, dst)
    ensures forall q :: q in fs1 && !Written(fs, src, dst, q) ==> q in r && r[q] == fs1[q]
    ensures forall q :: q in r ==> q in fs1 || Written(fs, src, dst, q)
    ensures forall p :: CopySource(fs, src, dst, p) ==>
              var q := CopyDest(fs, src, dst, p);
              q in r && (fs[p].File? ==> r[q] == File(fs[p].size, now)) && (fs[p].Dir? ==> r[q].Dir?)
  {
    var targets := set p | p in fs && CopySource(fs, src, dst, p) :: CopyDest(fs, src, dst, p);
    assert forall q :: q in targets ==> Written(fs, src, dst, q) by {
      forall q | q in targets ensures Written(fs, src, dst, q) {
        var p :| p in fs && CopySource(fs, src, dst, p) && q == CopyDest(fs, src, dst, p);
        CopyDestWritten(fs, fs1, src, dst, p);
      }
    }
    var r := map q | q in fs1.Keys + targets :: OverlayAt(fs, fs1, src, dst, now, q);
    forall p | CopySource(fs, src, dst, p)
      ensures var q := CopyDest(fs, src, dst, p);
              q in r && (fs[p].File? ==> r[q] == File(fs[p].size, now)) && (fs[p].Dir? ==> r[q].Dir?)
    {
      OverlaySource(fs, fs1, src, dst, now, p);
    }
    r
  }

  /** `shutil.copytree(src, dst, dirs_exist_ok=existOk)`, copying files with
      `copy2`. The whole call fails when an entry clashes with what is there. */
  function CopyTree(fs: Fs, src: Path, dst: Path, now: Moment, existOk: bool): (r: Option<Fs>)
    ensures r.Some? ==> IsDir(r.value, dst)
    ensures r.Some? ==> forall p :: CopySource(fs, src, dst, p) ==>
              var q := CopyDest(fs, src, dst, p);
              q in r.value && (fs[p].File? ==> r.value[q] == File(fs[p].size, now))
              && (fs[p].Dir? ==> r.value[q].Dir?)
    ensures r.Some? ==> forall q :: q in fs && !Written(fs, src, dst, q) && q != dst ==>
              q in r.value && r.value[q] == fs[q]
    ensures r.Some? ==> forall q :: q in r.value && q !in fs ==> q <= dst || Written(fs, src, dst, q)
  {
    if !IsDir(fs, src) || dst <= src then None
    else if dst in fs && (!existOk || fs[dst].File?) then None
    else
      match MakeDirs(fs, dst, now)
      case None => None
      case Some(fs1) =>
        if CopyConflict(fs, fs1, src, dst) then None
        else
          var r := CopyOverlay(fs, fs1, src, dst, now);
          assert !Written(fs, src, dst, dst);
          Some(r)
  }

  /** Into a target that was not there, with nothing below it, every entry
      is copied to its own place. */
  lemma CopyDestFresh(fs: Fs, src: Path, dst: Path, p: Path)
    requires Valid(fs) && dst !in fs && CopySource(fs, src, dst, p)
    ensures CopyDest(fs, src, dst, p) == CopyTargetOf(src, dst, p)
  {
    var t := CopyTargetOf(src, dst, p);
    if IsDir(fs, t) {
      assert t[..|dst|] == dst;
      AncestorsAreDirs(fs, t, |dst|);
    }
  }

  /** A directory `/d` with a backup folder `backup_5` holding `sub/x` as a
      file, where `/d/sub/x` is a folder. */
  function IntoDirectoryTree(t0: Moment): Fs {
    map[[] := Dir(t0), ["d"] := Dir(t0), ["d", "backup_5"] := Dir(t0),
        ["d", "backup_5", "sub"] := Dir(t0), ["d", "backup_5", "sub", "x"] := File(3, t0),
        ["d", "sub"] := Dir(t0), ["d", "sub", "x"] := Dir(t0)]
  }

  /** An illustration of `copy2` inside `copytree`: copying `/d/backup_5/sub`
      over `/d/sub` of that tree succeeds and puts the file `x` inside the
      folder `x`, which stays a folder. */
  lemma CopyIntoDirectoryExample(t0: Moment, now: Moment)
    ensures var r := CopyTree(IntoDirectoryTree(t0), ["d", "backup_5", "sub"], ["d", "sub"], now, true);
            && r.Some? && ["d", "sub", "x", "x"] in r.value && ["d", "sub", "x"] in r.value
            && r.value[["d", "sub", "x", "x"]] == File(3, now) && r.value[["d", "sub", "x"]] == Dir(t0)
  {
    var fs := IntoDirectoryTree(t0);
    var src: Path := ["d", "backup_5", "sub"];
    var dst: Path := ["d", "sub"];
    var x: Path := ["d", "backup_5", "sub", "x"];
    assert MakeDirs(fs, dst, now) == Some(fs);
    assert x == src + ["x"] && x[1] != dst[1];
    assert CopySource(fs, src, dst, x);
    assert forall p :: CopySource(fs, src, dst, p) ==> p == x by {
      forall p | CopySource(fs, src, dst, p) ensures p == x {
        assert p in fs && |p| > 3;
      }
    }
    assert CopyTargetOf(src, dst, x) == ["d", "sub", "x"];
    assert CopyDest(fs, src, dst, x) == ["d", "sub", "x", "x"];
    assert !Clash(fs, fs, src, dst, x) by {
      assert !IsCopyTarget(fs, src, dst, ["d", "sub", "x", "x"]) by {
        assert src + ["d", "sub", "x", "x"][|dst|..] == ["d", "backup_5", "sub", "x", "x"];
      }
    }
    assert !CopyConflict(fs, fs, src, dst);
    assert !Written(fs, src, dst, ["d", "sub", "x"]) by {
      assert src + ["d", "sub", "x"][|dst|..] == x;
      assert !CopiedInto(fs, src, dst, ["d", "sub", "x"]) by {
        assert src + ["d", "sub"][|dst|..] == src;
      }
    }
  }

  /** `shutil.rmtree(p)` */
  function RmTree(fs: Fs, p: Path): (r: Option<Fs>)
    ensures r.Some? ==> forall q :: (q in r.value <==> q in fs && !(p <= q))
    ensures r.Some? ==> forall q :: q in r.value ==> r.value[q] == fs[q]
  {
    if !IsDir(fs, p) || p == [] then None
    else Some(map q | q in fs && !(p <= q) :: fs[q])
  }

  /** `os.rmdir(p)`: only an empty directory goes. */
  function RmDir(fs: Fs, p: Path): (r: Option<Fs>)
    ensures r.Some? <==> IsDir(fs, p) && p != [] && Children(fs, p) == {}
    ensures r.Some? ==> r.value == fs - {p}
  {
    if !IsDir(fs, p) || p == [] || Children(fs, p) != {} then None
    else Some(fs - {p})
  }

  /** The entry a path string leads to: the empty string leads nowhere. */
  function Locate(cwd: Path, s: string): Option<Path> {
    if s == "" then None else Some(Resolve(cwd, s))
  }

  /** `os.path.exists(s)` */
  predicate Exists(fs: Fs, cwd: Path, s: string) {
    s != "" && Resolve(cwd, s) in fs
  }

  /** `os.path.isfile(s)` */
  predicate IsFileAt(fs: Fs, cwd: Path, s: string) {
    s != "" && IsFile(fs, Resolve(cwd, s))
  }

  /** `os.path.isdir(s)` */
  predicate IsDirAt(fs: Fs, cwd: Path, s: string) {
    s != "" && IsDir(fs, Resolve(cwd, s))
  }
}
