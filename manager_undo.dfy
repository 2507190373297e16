// The undo guarantees: a move's own log record sends the file back, and on a
// fresh log `revert_last_action` undoes a single move.

module ManagerUndo {
  import opened Wrappers
  import opened Strings
  import opened Clock
  import opened PosixPath
  import opened FileSystem
  import opened OnlyFilesLogger
  import opened Sorting
  import opened ManagerCore
  import opened ManagerRevert

  /** On the tree: a file moved from `src` into `src/folder` goes back to
      `dirname(src/folder)`, which is `src` again, leaving the tree as it was. */
  lemma MoveBackToParent(fs: Fs, cwd: Path, src: string, folder: string, file: string)
    requires FileSystem.Valid(fs)
    requires IsName(file) && IsName(folder)
    requires IsFile(fs, Resolve(cwd, Join(src, file)))
    requires Resolve(cwd, Join(Join(src, folder), file)) !in fs
    requires Move(fs, Resolve(cwd, Join(src, file)), Resolve(cwd, Join(Join(src, folder), file))).Some?
    ensures var a := Resolve(cwd, Join(src, file));
            var d := Resolve(cwd, Join(Join(src, folder), file));
            Move(Move(fs, a, d).value, d, Resolve(cwd, Join(Dirname(Join(src, folder)), file))) == Some(fs)
  {
    var dest := Join(src, folder);
    var a := Resolve(cwd, Join(src, file));
    var d := Resolve(cwd, Join(dest, file));
    ResolveJoin(cwd, src, file);
    ResolveJoin(cwd, dest, file);
    ResolveJoin(cwd, src, folder);
    ResolveDirnameJoin(cwd, src, folder);
    ResolveJoin(cwd, Dirname(dest), file);
    assert Resolve(cwd, Join(Dirname(dest), file)) == a;
    assert Parent(d) == Resolve(cwd, dest);
    assert Parent(a) == Resolve(cwd, src);
    assert IsDir(fs, Parent(d)) by {
      MoveFile(fs, a, d);
    }
    assert IsDir(fs, Parent(a)) by {
      assert a != [] && a in fs;
    }
    MoveFileBack(fs, a, d);
  }

  /** A successful move, seen on the tree. */
  lemma MoveOneTree(cfg: Config, now: Moment, w: World, src: string, dest: string, file: string)
    requires IsName(file)
    requires MoveOne(cfg, now, w, src, dest, file).0
    ensures var a := Resolve(w.cwd, Join(src, file));
            var d := Resolve(w.cwd, Join(dest, file));
            Move(w.fs, a, d).Some? && MoveOne(cfg, now, w, src, dest, file).1.fs == Move(w.fs, a, d).value
            && MoveOne(cfg, now, w, src, dest, file).1.cwd == w.cwd
  {
    assert Join(src, file) != "" && Join(dest, file) != "";
  }

  /** Reverting a record on the tree: the file goes from `dest/file` to `dirname(dest)/file`. */
  lemma RevertFileTree(cfg: Config, now: Moment, w: World, line: string, file: string, dest: string)
    requires IsName(file)
    requires ParseLog(line) == Target(file, dest)
    requires Resolve(w.cwd, Join(dest, file)) in w.fs
    requires Move(w.fs, Resolve(w.cwd, Join(dest, file)), Resolve(w.cwd, Join(Dirname(dest), file))).Some?
    ensures RevertFile(cfg, now, w, line).0
    ensures RevertFile(cfg, now, w, line).1.fs
            == Move(w.fs, Resolve(w.cwd, Join(dest, file)), Resolve(w.cwd, Join(Dirname(dest), file))).value
  {
    assert Join(dest, file) != "" && Join(Dirname(dest), file) != "";
  }

  /** `MoveOne` moved the regular file `src/file` into the sub-folder
      `dest = src/folder`, where nothing of that name was before. */
  predicate MovedIntoSubfolder(cfg: Config, now: Moment, w: World, src: string, folder: string,
                               dest: string, file: string)
  {
    && FileSystem.Valid(w.fs)
    && IsName(file) && IsName(folder) && dest == Join(src, folder)
    && IsFileAt(w.fs, w.cwd, Join(src, file))
    && !Exists(w.fs, w.cwd, Join(dest, file))
    && MoveOne(cfg, now, w, src, dest, file).0
  }

  /** Reverting any record that names the moved file and its folder puts the
      tree back as it was before the move. */
  lemma MoveThenRevertRecord(cfg: Config, now: Moment, later: Moment, w: World,
                             src: string, folder: string, dest: string, file: string, line: string)
    requires MovedIntoSubfolder(cfg, now, w, src, folder, dest, file)
    requires ParseLog(line) == Target(file, dest)
    ensures var w1 := MoveOne(cfg, now, w, src, dest, file).1;
            RevertFile(cfg, later, w1, line).0 && RevertFile(cfg, later, w1, line).1.fs == w.fs
  {
    var w1 := MoveOne(cfg, now, w, src, dest, file).1;
    var a := Resolve(w.cwd, Join(src, file));
    var d := Resolve(w.cwd, Join(dest, file));
    MoveOneTree(cfg, now, w, src, dest, file);
    MoveBackToParent(w.fs, w.cwd, src, folder, file);
    assert d in w1.fs by {
      MoveFile(w.fs, a, d);
    }
    RevertFileTree(cfg, later, w1, line, file, dest);
  }

  /** Reverting the move's own record puts the tree back as it was. */
  lemma MoveThenRevert(cfg: Config, now: Moment, later: Moment, w: World,
                       src: string, folder: string, dest: string, file: string)
    requires MovedIntoSubfolder(cfg, now, w, src, folder, dest, file)
    requires '"' !in cfg.logger && '"' !in file && '"' !in dest
    ensures var w1 := MoveOne(cfg, now, w, src, dest, file).1;
            var line := FileLine(now, cfg.logger, Info, MovedMessage(file, dest));
            RevertFile(cfg, later, w1, line).0 && RevertFile(cfg, later, w1, line).1.fs == w.fs
  {
    var line := FileLine(now, cfg.logger, Info, MovedMessage(file, dest));
    ParseMovedLine(now, cfg.logger, Info, file, dest);
    MoveThenRevertRecord(cfg, now, later, w, src, folder, dest, file, line);
  }

  /** A log holding a single timestamped move record: the last action is that record. */
  lemma LastActionOfOne(cfg: Config, now: Moment, w: World, line: string)
    requires ReadLines(w.log) == [line] && IsMoveLog(line) && HasTimestamp(line)
    ensures RevertLastAction(cfg, now, w).0 == RevertFile(cfg, now, w, line).0
    ensures RevertLastAction(cfg, now, w).1.fs == RevertFile(cfg, now, w, line).1.fs
  {
    OneMoveLog(line);
    OneGroup(line);
    OneRevert(cfg, now, w, line);
    assert Reverse([line]) == [line];
  }

  lemma OneMoveLog(line: string)
    requires IsMoveLog(line)
    ensures MoveLogs([line]) == [line]
  {
    assert [line][..0] == [];
  }

  /** A single timestamped record forms the group alone. */
  lemma OneGroup(line: string)
    requires HasTimestamp(line)
    ensures Lines(Group(Stamp(Reverse([line]))).taken) == [line]
    ensures Group(Stamp(Reverse([line]))).taken != []
  {
    assert Reverse([line]) == [line];
    var r := Record(line, TimestampOf(line));
    assert Stamp([line]) == [r];
    assert Group([r]) == GroupStep(Group([]), r) by { assert [r][..0] == []; }
  }

  lemma OneRevert(cfg: Config, now: Moment, w: World, line: string)
    ensures RevertAll(cfg, now, w, [line]).0 == RevertFile(cfg, now, w, line).0
    ensures RevertAll(cfg, now, w, [line]).1.fs == RevertFile(cfg, now, w, line).1.fs
  {
    assert [line][..0] == [];
  }

  /** The record of a move is one line of the log, a move record, and timestamped. */
  lemma MovedRecordFacts(now: Moment, name: string, file: string, dest: string)
    requires '\n' !in name && '\n' !in file && '\n' !in dest
    ensures var line := FileLine(now, name, Info, MovedMessage(file, dest));
            ReadLines(line) == [line] && IsMoveLog(line) && HasTimestamp(line)
  {
    var msg := MovedMessage(file, dest);
    var line := FileLine(now, name, Info, msg);
    assert '\n' !in msg;
    FileLineReadsBack(now, name, Info, msg);
    var head := FormatTs(now) + " - " + name + " - " + Info + " - ";
    MovedLineText(now, name, Info, file, dest);
    MovedTextHasFile(head, file, dest);
    FileLineTimestamp(now, name, Info, msg);
  }

  /** On a fresh log, reverting the last action after the move puts the file back. */
  lemma UndoSingleMove(cfg: Config, now: Moment, later: Moment, w: World,
                       src: string, folder: string, dest: string, file: string)
    requires MovedIntoSubfolder(cfg, now, w, src, folder, dest, file) && w.log == ""
    requires '"' !in cfg.logger && '"' !in file && '"' !in dest
    requires '\n' !in cfg.logger && '\n' !in file && '\n' !in dest
    ensures var w1 := MoveOne(cfg, now, w, src, dest, file).1;
            RevertLastAction(cfg, later, w1).0 && RevertLastAction(cfg, later, w1).1.fs == w.fs
  {
    var w1 := MoveOne(cfg, now, w, src, dest, file).1;
    var line := FileLine(now, cfg.logger, Info, MovedMessage(file, dest));
    assert w1.log == line;
    MovedRecordFacts(now, cfg.logger, file, dest);
    LastActionOfOne(cfg, later, w1, line);
    MoveThenRevert(cfg, now, later, w, src, folder, dest, file);
  }
}
