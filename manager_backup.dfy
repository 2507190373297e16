// Backups of the `onlyfiles` FileManager: `create_backup` copies a directory
// into a `backup_<epoch>` folder of its own, `revert_backup` copies the
// entries of the newest such folder back over the directory.

module ManagerBackup {
  import opened Wrappers
  import opened Strings
  import opened Clock
  import opened PosixPath
  import opened FileSystem
  import opened OnlyFilesLogger
  import opened Seqs
  import opened ManagerCore

  const BackupPrefix: string := "backup_"

  /** The folder name of a backup taken at `epoch` (`int(time.time())`). */
  function BackupName(epoch: nat): (r: string)
    ensures StartsWith(r, BackupPrefix)
  {
    BackupPrefix + NatToString(epoch)
  }

  /** `create_backup(dir)`: the backup folder's path, or `None` after an error line. */
  function CreateBackup(cfg: Config, now: Moment, epoch: nat, w: World, dir: string): (r: (Option<string>, World))
    ensures r.1.cwd == w.cwd
    ensures r.0.Some? ==> r.0.value == Join(dir, BackupName(epoch))
    ensures r.0.Some? <==> dir != "" && CopyTree(w.fs, Resolve(w.cwd, dir), Resolve(w.cwd, Join(dir, BackupName(epoch))), now, true).Some?
    ensures r.0.Some? ==>
              r.1 == Log(cfg, now, w.(fs := CopyTree(w.fs, Resolve(w.cwd, dir), Resolve(w.cwd, r.0.value), now, true).value),
                         Info, "Created backup at " + r.0.value)
    ensures r.0.None? ==> r.1 == Log(cfg, now, w, Error, "Error creating backup: " + OsErrorText)
  {
    var bd := Join(dir, BackupName(epoch));
    if dir == "" then (None, Log(cfg, now, w, Error, "Error creating backup: " + OsErrorText))
    else match CopyTree(w.fs, Resolve(w.cwd, dir), Resolve(w.cwd, bd), now, true)
      case None => (None, Log(cfg, now, w, Error, "Error creating backup: " + OsErrorText))
      case Some(fs) => (Some(bd), Log(cfg, now, w.(fs := fs), Info, "Created backup at " + bd))
  }

  /** A successful backup holds a copy of every file that was in the directory,
      outside the backup folder, with its size: at its own place when the
      backup folder is new. */
  lemma CreateBackupCopies(cfg: Config, now: Moment, epoch: nat, w: World, dir: string, p: Path)
    requires CreateBackup(cfg, now, epoch, w, dir).0.Some?
    requires CopySource(w.fs, Resolve(w.cwd, dir), Resolve(w.cwd, Join(dir, BackupName(epoch))), p)
    requires w.fs[p].File?
    ensures var src := Resolve(w.cwd, dir);
            var dst := Resolve(w.cwd, Join(dir, BackupName(epoch)));
            var fs := CreateBackup(cfg, now, epoch, w, dir).1.fs;
            CopyDest(w.fs, src, dst, p) in fs && fs[CopyDest(w.fs, src, dst, p)] == File(w.fs[p].size, now)
    ensures var dst := Resolve(w.cwd, Join(dir, BackupName(epoch)));
            FileSystem.Valid(w.fs) && dst !in w.fs ==>
              CopyDest(w.fs, Resolve(w.cwd, dir), dst, p) == CopyTargetOf(Resolve(w.cwd, dir), dst, p)
  {
    var dst := Resolve(w.cwd, Join(dir, BackupName(epoch)));
    if FileSystem.Valid(w.fs) && dst !in w.fs {
      CopyDestFresh(w.fs, Resolve(w.cwd, dir), dst, p);
    }
  }

  // ---------------------------------------------------------------- the newest backup

  /** `int(x.split('_')[1])`, the key `max` compares backups by. */
  function BackupKey(x: string): Option<int> {
    var parts := Split(x, "_");
    if |parts| < 2 then None else PyInt(parts[1])
  }

  /** A backup's name gives back the epoch it was taken at. */
  lemma BackupKeyName(epoch: nat)
    ensures BackupKey(BackupName(epoch)) == Some(epoch)
  {
    var digits := NatToString(epoch);
    assert '_' !in digits by {
      forall i | 0 <= i < |digits| ensures digits[i] != '_' {
        assert IsDigit(digits[i]);
      }
    }
    assert BackupName(epoch) == "backup" + ['_'] + digits;
    SplitCharFirst("backup", digits, '_');
    SplitCharNone(digits, '_');
    NatToStringValue(epoch);
  }

  predicate Keyed(bs: seq<string>) {
    forall i :: 0 <= i < |bs| ==> BackupKey(bs[i]).Some?
  }

  /** The keys of a list of backups, in order. */
  function KeysOf(bs: seq<string>): (ks: seq<int>)
    requires Keyed(bs)
    ensures |ks| == |bs| && forall i :: 0 <= i < |bs| ==> ks[i] == BackupKey(bs[i]).value
  {
    seq(|bs|, i requires 0 <= i < |bs| => BackupKey(bs[i]).value)
  }

  /** `max(bs, key=BackupKey)`: the first name of greatest key. */
  function Latest(bs: seq<string>): (r: nat)
    requires bs != [] && Keyed(bs)
    ensures r < |bs|
    ensures forall i :: 0 <= i < |bs| ==> BackupKey(bs[i]).value <= BackupKey(bs[r]).value
    ensures forall i :: 0 <= i < r ==> BackupKey(bs[i]).value < BackupKey(bs[r]).value
  {
    var ks := KeysOf(bs);
    ArgMax(ks)
  }

  /** Of two backups the later one is restored. */
  lemma LatestOfTwo(e1: nat, e2: nat)
    requires e1 < e2
    ensures var bs := [BackupName(e1), BackupName(e2)];
            Keyed(bs) && bs[Latest(bs)] == BackupName(e2)
  {
    BackupKeyName(e1);
    BackupKeyName(e2);
  }

  // ---------------------------------------------------------------- restoring

  /** The world so far, and whether an exception has ended the loop. */
  datatype Restore = Restore(w: World, failed: bool)

  /** One turn of the restore loop: a directory is merged in with
      `copytree(dirs_exist_ok=True)`, anything else copied with `copy2`. */
  function RestoreStep(now: Moment, dir: string, bp: string, latest: string, st: Restore, item: string): (r: Restore)
    ensures st.failed || item == latest ==> r == st
    ensures r.w.cwd == st.w.cwd && r.w.log == st.w.log
  {
    if st.failed || item == latest then st
    else
      var src := Join(bp, item);
      var dst := Join(dir, item);
      var copied :=
        if src == "" || dst == "" then None
        else if IsDirAt(st.w.fs, st.w.cwd, src)
        then CopyTree(st.w.fs, Resolve(st.w.cwd, src), Resolve(st.w.cwd, dst), now, true)
        else CopyFile(st.w.fs, Resolve(st.w.cwd, src), Resolve(st.w.cwd, dst), now);
      match copied
      case None => st.(failed := true)
      case Some(fs) => Restore(st.w.(fs := fs), false)
  }

  function RestoreLoop(now: Moment, dir: string, bp: string, latest: string, st: Restore, items: seq<string>): (r: Restore)
    ensures r.w.cwd == st.w.cwd && r.w.log == st.w.log
  {
    if items == [] then st
    else RestoreStep(now, dir, bp, latest, RestoreLoop(now, dir, bp, latest, st, items[..|items| - 1]), items[|items| - 1])
  }

  /** After a failure the remaining items are not copied. */
  lemma {:induction false} RestoreLoopFailed(now: Moment, dir: string, bp: string, latest: string,
                                             st: Restore, items: seq<string>)
    requires st.failed
    ensures RestoreLoop(now, dir, bp, latest, st, items) == st
    decreases |items|
  {
    if items != [] {
      RestoreLoopFailed(now, dir, bp, latest, st, items[..|items| - 1]);
    }
  }

  /** After a copy has failed, the remaining items change nothing. */
  lemma {:induction false} RestoreLoopStops(now: Moment, dir: string, bp: string, latest: string,
                                            st: Restore, items: seq<string>, i: nat)
    requires i <= |items| && RestoreLoop(now, dir, bp, latest, st, items[..i]).failed
    ensures RestoreLoop(now, dir, bp, latest, st, items) == RestoreLoop(now, dir, bp, latest, st, items[..i])
    decreases |items|
  {
    if i == |items| {
      assert items[..i] == items;
    } else {
      var pre := items[..|items| - 1];
      assert pre[..i] == items[..i];
      RestoreLoopStops(now, dir, bp, latest, st, pre, i);
    }
  }

  /** A file of the backup is restored in place of what the directory holds
      under its name (unless that is a directory). */
  lemma RestoreStepFile(now: Moment, dir: string, bp: string, latest: string, w: World, item: string,
                        src: Path, dst: Path)
    requires IsName(item) && item != latest
    requires src == Resolve(w.cwd, Join(bp, item)) && dst == Resolve(w.cwd, Join(dir, item))
    requires IsFile(w.fs, src) && !IsDir(w.fs, dst)
    requires !RestoreStep(now, dir, bp, latest, Restore(w, false), item).failed
    ensures var fs := RestoreStep(now, dir, bp, latest, Restore(w, false), item).w.fs;
            IsFile(fs, dst) && fs[dst] == File(w.fs[src].size, now)
  {
    assert Join(bp, item) != "" && Join(dir, item) != "" by {
      assert EndsWith(Join(bp, item), item) && EndsWith(Join(dir, item), item) by {
        JoinEnds(bp, item);
        JoinEnds(dir, item);
      }
    }
    assert !IsDirAt(w.fs, w.cwd, Join(bp, item));
    assert MoveTarget(w.fs, src, dst) == dst;
  }

  lemma JoinEnds(a: string, b: string)
    ensures EndsWith(Join(a, b), b)
  {
  }

  /** The `backup_*` entries of a directory, in listing order. */
  function Backups(w: World, dir: string): (bs: seq<string>)
    requires IsDirAt(w.fs, w.cwd, dir)
    ensures forall x :: x in bs <==> Resolve(w.cwd, dir) + [x] in w.fs && StartsWith(x, BackupPrefix)
  {
    Filter(ListDir(w.fs, Resolve(w.cwd, dir)).value, x => StartsWith(x, BackupPrefix))
  }

  /** `revert_backup(dir)`. With no `backup_*` entry nothing is logged;
      otherwise success is announced and any exception logged as an error. */
  function RevertBackup(cfg: Config, now: Moment, w: World, dir: string): (r: (bool, World))
    ensures r.1.cwd == w.cwd
    ensures !IsDirAt(w.fs, w.cwd, dir) ==> r == (false, Log(cfg, now, w, Error, "Error reverting backup: " + OsErrorText))
    ensures IsDirAt(w.fs, w.cwd, dir) && Backups(w, dir) == [] ==> r == (false, w)
    ensures IsDirAt(w.fs, w.cwd, dir) && Backups(w, dir) != [] && !Keyed(Backups(w, dir)) ==>
              r == (false, Log(cfg, now, w, Error, "Error reverting backup: " + OsErrorText))
    ensures r.0 ==> IsDirAt(w.fs, w.cwd, dir) && Backups(w, dir) != [] && Keyed(Backups(w, dir))
                    && var bs := Backups(w, dir);
                       r.1.log == w.log + FileLine(now, cfg.logger, Info, "Reverted to backup " + bs[Latest(bs)])
    ensures !r.0 ==> r.1 == w || r.1.log == w.log + FileLine(now, cfg.logger, Error, "Error reverting backup: " + OsErrorText)
  {
    var fail := "Error reverting backup: " + OsErrorText;
    if !IsDirAt(w.fs, w.cwd, dir) then (false, Log(cfg, now, w, Error, fail))
    else
      var bs := Backups(w, dir);
      if bs == [] then (false, w)
      else if !Keyed(bs) then (false, Log(cfg, now, w, Error, fail))
      else
        var latest := bs[Latest(bs)];
        var bp := Join(dir, latest);
        if !IsDirAt(w.fs, w.cwd, bp) then (false, Log(cfg, now, w, Error, fail))
        else
          var st := RestoreLoop(now, dir, bp, latest, Restore(w, false), ListDir(w.fs, Resolve(w.cwd, bp)).value);
          if st.failed then (false, Log(cfg, now, st.w, Error, fail))
          else (true, Log(cfg, now, st.w, Info, "Reverted to backup " + latest))
  }
}
