// Undoing moves from the log: reading the log back, recognising the move
// records, parsing the two record formats, and grouping the newest records
// into the last action.

module ManagerRevert {
  import opened Wrappers
  import opened Strings
  import opened Clock
  import opened PosixPath
  import opened FileSystem
  import opened OnlyFilesLogger
  import opened Seqs
  import opened Sorting
  import opened ManagerCore

  // ---------------------------------------------------------------- reading the log

  lemma NewlineAt(s: string, i: nat)
    requires Find(s, "\n") == Some(i)
    ensures i < |s| && s[i] == '\n' && '\n' !in s[..i]
  {
    NewlineOccurs(s, i);
    NoNewlineBefore(s, i);
  }

  lemma NewlineOccurs(s: string, i: nat)
    requires OccursAt(s, "\n", i)
    ensures i < |s| && s[i] == '\n'
  {
    assert s[i..i + 1][0] == s[i];
  }

  lemma NoNewlineBefore(s: string, i: nat)
    requires i <= |s| && forall j :: 0 <= j < i ==> !OccursAt(s, "\n", j)
    ensures '\n' !in s[..i]
  {
    forall j | 0 <= j < i ensures s[..i][j] != '\n' {
      assert !OccursAt(s, "\n", j);
      assert s[j..j + 1] == [s[j]];
    }
  }

  /** `f.readlines()`: the text cut after every newline, each piece keeping
      its newline (`ReadLinesShape` states it). */
  function ReadLines(s: string): seq<string>
    decreases |s|
  {
    if s == "" then []
    else match Find(s, "\n")
      case None => [s]
      case Some(i) => [s[..i + 1]] + ReadLines(s[i + 1..])
  }

  /** `r` cuts `s` into lines: they are non-empty, glue back to the text,
      every line but the last ends with a newline, and no line holds a
      newline before its end. */
  predicate LinesOf(r: seq<string>, s: string) {
    && JoinWith(r, "") == s
    && (forall i :: 0 <= i < |r| ==> r[i] != "" && '\n' !in r[i][..|r[i]| - 1])
    && (forall i :: 0 <= i < |r| - 1 ==> r[i][|r[i]| - 1] == '\n')
  }

  lemma {:induction false} ReadLinesShape(s: string)
    ensures LinesOf(ReadLines(s), s)
    decreases |s|
  {
    if s != "" {
      match Find(s, "\n")
      case None =>
        FindCharIff(s, '\n');
        assert s[..|s|] == s;
      case Some(i) =>
        NewlineAt(s, i);
        ReadLinesShape(s[i + 1..]);
        assert s == s[..i + 1] + s[i + 1..];
        assert s[..i + 1][..i] == s[..i];
        LinesCons(s[..i + 1], s[i + 1..], ReadLines(s[i + 1..]));
    }
  }

  /** A line ending at its only newline, put before the lines of some text,
      gives the lines of the two texts joined. */
  lemma LinesCons(line: string, t: string, rest: seq<string>)
    requires line != "" && line[|line| - 1] == '\n' && '\n' !in line[..|line| - 1]
    requires LinesOf(rest, t)
    ensures LinesOf([line] + rest, line + t)
  {
    if rest == [] {
      assert t == "";
      assert line + t == line;
    } else {
      JoinCons(line, rest, "");
      assert line + "" + JoinWith(rest, "") == line + t;
    }
    var r := [line] + rest;
    forall i | 0 <= i < |r| ensures r[i] != "" && '\n' !in r[i][..|r[i]| - 1] {
      if i > 0 { assert r[i] == rest[i - 1]; }
    }
    forall i | 0 <= i < |r| - 1 ensures r[i][|r[i]| - 1] == '\n' {
      if i > 0 { assert r[i] == rest[i - 1]; }
    }
  }

  /** Reading text that ends at a line break, then more text, reads the two in turn. */
  lemma {:induction false} ReadLinesAppend(a: string, b: string)
    requires a == "" || a[|a| - 1] == '\n'
    ensures ReadLines(a + b) == ReadLines(a) + ReadLines(b)
    decreases |a|
  {
    if a == "" {
      assert a + b == b;
    } else {
      FindCharIff(a, '\n');
      var i := Find(a, "\n").value;
      FindCharExtend(a, b, '\n');
      NewlineAt(a, i);
      ReadLinesAt(a, i);
      ReadLinesAt(a + b, i);
      SliceAppend(a, b, i + 1);
      SuffixEndsNewline(a, i + 1);
      ReadLinesAppend(a[i + 1..], b);
      AppendAssoc([a[..i + 1]], ReadLines(a[i + 1..]), ReadLines(b));
    }
  }

  lemma SuffixEndsNewline(a: string, k: nat)
    requires a != "" && a[|a| - 1] == '\n' && k <= |a|
    ensures a[k..] == "" || a[k..][|a[k..]| - 1] == '\n'
  {
  }

  /** The first line runs to the first newline. */
  lemma ReadLinesAt(s: string, i: nat)
    requires Find(s, "\n") == Some(i)
    ensures i < |s| && ReadLines(s) == [s[..i + 1]] + ReadLines(s[i + 1..])
  {
  }

  /** A single newline-terminated line reads back as itself. */
  lemma ReadLinesOne(l: string)
    requires l != "" && l[|l| - 1] == '\n' && '\n' !in l[..|l| - 1]
    ensures ReadLines(l) == [l]
  {
    LastNewline(l);
    FindCharAt(l[..|l| - 1], "", '\n');
    ReadLinesAt(l, |l| - 1);
  }

  lemma LastNewline(l: string)
    requires l != "" && l[|l| - 1] == '\n'
    ensures l == l[..|l| - 1] + ['\n'] + "" && l[..|l|] == l && l[|l|..] == ""
  {
  }

  /** A log line whose fields hold no line break is one line of the file. */
  lemma FileLineReadsBack(now: Moment, name: string, level: string, msg: string)
    requires '\n' !in name && '\n' !in level && '\n' !in msg
    ensures ReadLines(FileLine(now, name, level, msg)) == [FileLine(now, name, level, msg)]
  {
    var l := FileLine(now, name, level, msg);
    FormatTsAvoids(now, '\n');
    assert l[..|l| - 1] == FormatTs(now) + " - " + name + " - " + level + " - " + msg;
    ReadLinesOne(l);
  }

  // ---------------------------------------------------------------- move records

  /** `get_move_logs` keeps a line mentioning any of these patterns. */
  predicate IsMoveLog(l: string) {
    Contains(l, "moved to folder") || Contains(l, "File \"") || Contains(l, "Moved")
  }

  /** `get_move_logs(logs)`: the move records, in file order. */
  function MoveLogs(logs: seq<string>): (r: seq<string>)
    ensures forall l :: l in r <==> l in logs && IsMoveLog(l)
  {
    Filter(logs, IsMoveLog)
  }

  /** What `revert_file` reads out of one record. */
  datatype Parsed =
    | Target(file: string, dest: string)  // a file name and the folder it was moved to
    | Skipped                             // a recognised record with the wrong number of pieces
    | NoMovedSpace                        // "Moved" without the space the second format splits at
    | Unrecognized

  /** The parsing half of `revert_file`. The first format is
      `File "<file>" moved to folder "<dest>".`, cut at every double quote; the
      second is `Moved <file> to <dest>`, cut after `Moved ` and then at ` to `. */
  function ParseLog(log: string): (r: Parsed)
    ensures r == Unrecognized <==>
              !(Contains(log, "File \"") && Contains(log, "moved to folder")) && !Contains(log, "Moved")
    ensures r == NoMovedSpace ==> Contains(log, "Moved") && !Contains(log, "Moved ")
    ensures r.Target? && Contains(log, "File \"") && Contains(log, "moved to folder") ==>
              '"' !in r.file && '"' !in r.dest
  {
    if Contains(log, "File \"") && Contains(log, "moved to folder") then
      var parts := Split(log, "\"");
      if |parts| >= 5 then
        assert JoinWith(parts, "\"") == log by { JoinSplit(log, "\""); }
        QuoteFree(log, 1);
        QuoteFree(log, 3);
        Target(parts[1], parts[3])
      else Skipped
    else if Contains(log, "Moved") then
      var pieces := Split(log, "Moved ");
      if |pieces| < 2 then NoMovedSpace
      else
        var parts := Split(pieces[1], " to ");
        if |parts| == 2 then Target(Strip(parts[0]), Strip(parts[1])) else Skipped
    else Unrecognized
  }

  /** The pieces of a cut at a character do not contain that character. */
  lemma {:induction false} SplitCharFree(s: string, c: char)
    ensures forall k :: 0 <= k < |Split(s, [c])| ==> c !in Split(s, [c])[k]
    decreases |s|
  {
    match Find(s, [c])
    case None =>
      FindCharIff(s, c);
    case Some(i) =>
      FindCharIff(s[..i], c);
      forall j | 0 <= j < i ensures s[..i][j] != c {
        assert !OccursAt(s, [c], j);
        assert s[j..j + 1] == [s[j]];
      }
      SplitCharFree(s[i + 1..], c);
  }

  lemma QuoteFree(log: string, k: nat)
    requires k < |Split(log, "\"")|
    ensures '"' !in Split(log, "\"")[k]
  {
    SplitCharFree(log, '"');
  }

  // ---------------------------------------------------------------- one revert

  /** The message logged after a successful revert. */
  function RevertedMessage(file: string, parent: string): string {
    "File \"" + file + "\" reverted to \"" + parent + "\"."
  }

  /** Sends `dest/file` back to `dirname(dest)/file`, if it exists. */
  function RevertTo(cfg: Config, now: Moment, w: World, file: string, dest: string): (r: (bool, World))
    ensures r.1.cwd == w.cwd
    ensures r.0 <==> Exists(w.fs, w.cwd, Join(dest, file))
                     && MoveAt(w, Join(dest, file), Join(Dirname(dest), file)).Some?
    ensures r.0 ==> r.1.fs == MoveAt(w, Join(dest, file), Join(Dirname(dest), file)).value
                    && r.1.log == w.log + FileLine(now, cfg.logger, Info, RevertedMessage(file, Dirname(dest)))
    ensures !r.0 ==> r.1.fs == w.fs && w.log < r.1.log
  {
    var source := Join(dest, file);
    var parent := Dirname(dest);
    var target := Join(parent, file);
    if Exists(w.fs, w.cwd, source) then
      match MoveAt(w, source, target)
      case None => (false, Log(cfg, now, w, Error, "Error reverting operation: " + OsErrorText))
      case Some(fs) => (true, Log(cfg, now, w.(fs := fs), Info, RevertedMessage(file, parent)))
    else (false, Log(cfg, now, w, Warning, "File " + file + " not found in " + dest))
  }

  /** `revert_file(log)`: parse the record, then send the file back. */
  function RevertFile(cfg: Config, now: Moment, w: World, log: string): (r: (bool, World))
    ensures r.1.cwd == w.cwd
    ensures r.0 ==> ParseLog(log).Target?
    ensures ParseLog(log).Target? ==> r == RevertTo(cfg, now, w, ParseLog(log).file, ParseLog(log).dest)
    ensures !r.0 ==> r.1.fs == w.fs
    ensures ParseLog(log) == Unrecognized ==>
              r == (false, Log(cfg, now, w, Warning, "Unrecognized log format for reversion"))
  {
    match ParseLog(log)
    case Target(f, d) => RevertTo(cfg, now, w, f, d)
    case Skipped => (false, w)
    case NoMovedSpace => (false, Log(cfg, now, w, Error, "Error reverting operation: list index out of range"))
    case Unrecognized => (false, Log(cfg, now, w, Warning, "Unrecognized log format for reversion"))
  }

  // ---------------------------------------------------------------- the round trip

  /** Five quote-free pieces joined by double quotes are cut back into those pieces. */
  lemma QuotedPieces(head: string, file: string, mid: string, dest: string, tail: string)
    requires '"' !in head && '"' !in file && '"' !in mid && '"' !in dest && '"' !in tail
    ensures Split(head + "\"" + file + "\"" + mid + "\"" + dest + "\"" + tail, "\"")
            == [head, file, mid, dest, tail]
  {
    var q := "\"";
    JoinCons(dest, [tail], q);
    JoinCons(mid, [dest, tail], q);
    JoinCons(file, [mid, dest, tail], q);
    JoinCons(head, [file, mid, dest, tail], q);
    assert JoinWith([head, file, mid, dest, tail], q) == head + q + file + q + mid + q + dest + q + tail;
    SplitJoinChar([head, file, mid, dest, tail], '"');
  }

  /** The record of a move, cut at its double quotes, has five pieces: the
      line's head, the file, the connecting words, the folder and the tail. */
  lemma MovedLineParts(now: Moment, name: string, level: string, file: string, dest: string)
    requires '"' !in name && '"' !in level && '"' !in file && '"' !in dest
    ensures Split(FileLine(now, name, level, MovedMessage(file, dest)), "\"")
            == [FormatTs(now) + " - " + name + " - " + level + " - File ", file, " moved to folder ", dest, ".\n"]
  {
    var head := FormatTs(now) + " - " + name + " - " + level + " - File ";
    FormatTsAvoids(now, '"');
    assert '"' !in head;
    var a := FormatTs(now) + " - " + name + " - " + level + " - ";
    assert FileLine(now, name, level, MovedMessage(file, dest)) == a + MovedMessage(file, dest) + "\n";
    MovedLineRegroup(a, file, dest);
    assert head == a + "File ";
    QuotedPieces(head, file, " moved to folder ", dest, ".\n");
  }

  /** The record of a move regrouped around its double quotes. */
  lemma MovedLineRegroup(a: string, file: string, dest: string)
    ensures a + MovedMessage(file, dest) + "\n"
            == (a + "File ") + "\"" + file + "\"" + " moved to folder " + "\"" + dest + "\"" + ".\n"
  {
    assert "." + "\n" == ".\n";
  }

  /** A record that names both patterns of the first format and cuts into at
      least five pieces yields the second and fourth pieces. */
  lemma ParseQuoted(log: string)
    requires Contains(log, "File \"") && Contains(log, "moved to folder")
    requires |Split(log, "\"")| >= 5
    ensures ParseLog(log) == Target(Split(log, "\"")[1], Split(log, "\"")[3])
  {
  }

  lemma MovedTextHasFile(head: string, file: string, dest: string)
    ensures Contains(head + "File \"" + file + "\" moved to folder \"" + dest + "\".\n", "File \"")
  {
    var rest := file + "\" moved to folder \"" + dest + "\".\n";
    assert head + "File \"" + file + "\" moved to folder \"" + dest + "\".\n" == head + "File \"" + rest;
    ContainsMiddle(head, "File \"", rest);
  }

  lemma MovedTextHasFolder(head: string, file: string, dest: string)
    ensures Contains(head + "File \"" + file + "\" moved to folder \"" + dest + "\".\n", "moved to folder")
  {
    var pre := head + "File \"" + file + "\" ";
    var post := " \"" + dest + "\".\n";
    assert head + "File \"" + file + "\" moved to folder \"" + dest + "\".\n" == pre + "moved to folder" + post;
    ContainsMiddle(pre, "moved to folder", post);
  }

  /** The record of a move, spelt out. */
  lemma MovedLineText(now: Moment, name: string, level: string, file: string, dest: string)
    ensures FileLine(now, name, level, MovedMessage(file, dest))
            == (FormatTs(now) + " - " + name + " - " + level + " - ") + "File \"" + file + "\" moved to folder \"" + dest + "\".\n"
  {
    var a := FormatTs(now) + " - " + name + " - " + level + " - ";
    assert FileLine(now, name, level, MovedMessage(file, dest)) == a + MovedMessage(file, dest) + "\n";
    MovedTextRegroup(a, file, dest);
  }

  lemma MovedTextRegroup(a: string, file: string, dest: string)
    ensures a + MovedMessage(file, dest) + "\n" == a + "File \"" + file + "\" moved to folder \"" + dest + "\".\n"
  {
    QuoteLiterals();
  }

  lemma QuoteLiterals()
    ensures "File \"" == "File " + "\""
    ensures "\" moved to folder \"" == "\"" + " moved to folder " + "\""
    ensures "\".\n" == "\"" + "." + "\n"
  {
  }

  /** `revert_file` reads back exactly the file and folder a move record names. */
  lemma ParseMovedLine(now: Moment, name: string, level: string, file: string, dest: string)
    requires '"' !in name && '"' !in level && '"' !in file && '"' !in dest
    ensures ParseLog(FileLine(now, name, level, MovedMessage(file, dest))) == Target(file, dest)
  {
    var l := FileLine(now, name, level, MovedMessage(file, dest));
    var head := FormatTs(now) + " - " + name + " - " + level + " - ";
    MovedLineText(now, name, level, file, dest);
    MovedTextHasFile(head, file, dest);
    MovedTextHasFolder(head, file, dest);
    MovedLineParts(now, name, level, file, dest);
    ParseQuoted(l);
  }

  // ---------------------------------------------------------------- the last action

  /** `log.split(' - ')[0].strip()` read as `%Y-%m-%d %H:%M:%S`; `None` where
      that raises. */
  function TimestampOf(log: string): (r: Option<Moment>)
    ensures r.Some? ==> var t: DateTime := r.value; ParseTs(Strip(Split(log, " - ")[0])) == Some(t)
    ensures r.None? ==> ParseTs(Strip(Split(log, " - ")[0])).None?
  {
    match ParseTs(Strip(Split(log, " - ")[0]))
    case None => None
    case Some(t) => var m: Moment := t; Some(m)
  }

  predicate HasTimestamp(log: string) {
    TimestampOf(log).Some?
  }

  /** A record with the timestamp the grouping loop reads from it. */
  datatype Record = Record(line: string, time: Option<Moment>)

  /** Each record paired with its timestamp. */
  function Stamp(logs: seq<string>): (r: seq<Record>)
    ensures |r| == |logs| && forall i :: 0 <= i < |logs| ==> r[i] == Record(logs[i], TimestampOf(logs[i]))
  {
    seq(|logs|, i requires 0 <= i < |logs| => Record(logs[i], TimestampOf(logs[i])))
  }

  function Lines(recs: seq<Record>): (r: seq<string>)
    ensures |r| == |recs| && forall i :: 0 <= i < |recs| ==> r[i] == recs[i].line
  {
    seq(|recs|, i requires 0 <= i < |recs| => recs[i].line)
  }

  predicate IsStamped(r: Record) {
    r.time.Some?
  }

  /** The loop state of the grouping: the first timestamp read, the records
      taken so far, and whether the loop has broken off. */
  datatype Grouping = Grouping(newest: Option<Moment>, taken: seq<Record>, stopped: bool)

  /** The grouping window, in seconds. */
  const Threshold: int := 5

  /** One turn of the grouping loop over the records, newest first. The
      window is measured from the first valid record, never from the previous one. */
  function GroupStep(g: Grouping, r: Record): Grouping {
    if g.stopped then g
    else match r.time
      case None => g
      case Some(t) =>
        if g.newest.None? then Grouping(Some(t), g.taken + [r], false)
        else if Seconds(g.newest.value) - Seconds(t) <= Threshold then g.(taken := g.taken + [r])
        else g.(stopped := true)
  }

  /** The grouping loop run over `recs` (newest first). */
  function Group(recs: seq<Record>): Grouping {
    if recs == [] then Grouping(None, [], false)
    else GroupStep(Group(recs[..|recs| - 1]), recs[|recs| - 1])
  }

  /** The records of a grouping all lie within the window of its newest one. */
  predicate InWindow(g: Grouping) {
    && (g.newest.None? <==> g.taken == [])
    && (g.taken != [] ==> g.taken[0].time == g.newest)
    && forall i :: 0 <= i < |g.taken| ==>
         g.taken[i].time.Some? && g.newest.Some?
         && Seconds(g.newest.value) - Seconds(g.taken[i].time.value) <= Threshold
  }

  /** One turn of the loop keeps the records within the window. */
  lemma GroupStepInWindow(g: Grouping, r: Record)
    requires InWindow(g)
    ensures InWindow(GroupStep(g, r))
  {
    if !g.stopped && r.time.Some? && g.newest.Some? {
      var g' := GroupStep(g, r);
      assert g'.taken[..|g.taken|] == g.taken;
    }
  }

  /** Every record of the group lies within five seconds of the newest one,
      which is the group's first record. */
  lemma {:induction false} GroupInWindow(recs: seq<Record>)
    ensures InWindow(Group(recs))
    decreases |recs|
  {
    if recs != [] {
      GroupInWindow(recs[..|recs| - 1]);
      GroupStepInWindow(Group(recs[..|recs| - 1]), recs[|recs| - 1]);
    }
  }

  /** Until the loop breaks off, the group is every timestamped record read so far. */
  lemma {:induction false} GroupTakesAll(recs: seq<Record>)
    ensures !Group(recs).stopped ==> Group(recs).taken == Filter(recs, IsStamped)
    decreases |recs|
  {
    if recs != [] {
      GroupTakesAll(recs[..|recs| - 1]);
    }
  }

  /** Where the loop breaks off: at a timestamped record more than five
      seconds older than the newest one; the group is every timestamped
      record before it. */
  lemma {:induction false} GroupStopsAt(recs: seq<Record>)
    ensures Group(recs).stopped ==>
              exists k :: 0 <= k < |recs| && Group(recs).taken == Filter(recs[..k], IsStamped)
                && Group(recs).newest.Some? && recs[k].time.Some?
                && Seconds(Group(recs).newest.value) - Seconds(recs[k].time.value) > Threshold
    decreases |recs|
  {
    if recs != [] {
      var pre := recs[..|recs| - 1];
      var g := Group(pre);
      GroupStopsAt(pre);
      if g.stopped {
        var k :| 0 <= k < |pre| && g.taken == Filter(pre[..k], IsStamped)
                 && g.newest.Some? && pre[k].time.Some?
                 && Seconds(g.newest.value) - Seconds(pre[k].time.value) > Threshold;
        PrefixOfInit(recs, k);
      } else if Group(recs).stopped {
        GroupTakesAll(pre);
        PrefixOfInit(recs, |pre|);
      }
    }
  }

  /** Once the loop has broken off, later records change nothing. */
  lemma {:induction false} GroupStops(pre: seq<Record>, post: seq<Record>)
    requires Group(pre).stopped
    ensures Group(pre + post) == Group(pre)
    decreases |post|
  {
    if post == [] {
      assert pre + post == pre;
    } else {
      GroupStops(pre, post[..|post| - 1]);
      assert (pre + post)[..|pre + post| - 1] == pre + post[..|post| - 1];
    }
  }

  /** The grouping over one more line takes one more step. */
  lemma GroupStampNext(logs: seq<string>, i: nat)
    requires i < |logs|
    ensures Group(Stamp(logs[..i + 1])) == GroupStep(Group(Stamp(logs[..i])), Record(logs[i], TimestampOf(logs[i])))
  {
    StampPrefix(logs[..i + 1], i);
    assert logs[..i + 1][..i] == logs[..i];
  }

  /** Once the grouping over a prefix has broken off, the lines after it change nothing. */
  lemma GroupStampStops(logs: seq<string>, i: nat)
    requires i <= |logs| && Group(Stamp(logs[..i])).stopped
    ensures Group(Stamp(logs)) == Group(Stamp(logs[..i]))
  {
    var recs := Stamp(logs);
    StampPrefix(logs, i);
    GroupStops(recs[..i], recs[i..]);
    TakeDrop(recs, i);
  }

  lemma StampPrefix(logs: seq<string>, i: nat)
    requires i <= |logs|
    ensures Stamp(logs)[..i] == Stamp(logs[..i])
  {
  }

  /** Records written 0, 4 and 8 seconds before the newest one: the window
      keeps the first two and the loop stops at the third. */
  lemma GroupExample(a: string, b: string, c: string)
    ensures var t0: Moment := DateTime(2024, 1, 1, 12, 0, 8);
            var t1: Moment := DateTime(2024, 1, 1, 12, 0, 4);
            var t2: Moment := DateTime(2024, 1, 1, 12, 0, 0);
            Group([Record(a, Some(t0)), Record(b, Some(t1)), Record(c, Some(t2))])
              == Grouping(Some(t0), [Record(a, Some(t0)), Record(b, Some(t1))], true)
  {
    var t0: Moment := DateTime(2024, 1, 1, 12, 0, 8);
    var t1: Moment := DateTime(2024, 1, 1, 12, 0, 4);
    var t2: Moment := DateTime(2024, 1, 1, 12, 0, 0);
    SameDayDifference(t0, t1);
    SameDayDifference(t0, t2);
    var rs := [Record(a, Some(t0)), Record(b, Some(t1)), Record(c, Some(t2))];
    assert rs[..2][..1] == [rs[0]] && rs[..2][..1][..0] == [];
    assert Group([rs[0]]) == Grouping(Some(t0), [rs[0]], false);
    assert Group(rs[..2]) == Grouping(Some(t0), [rs[0], rs[1]], false);
  }

  /** One turn of the replay: revert `x`, and on failure clear the success
      flag and log the record. */
  function RevertStep(cfg: Config, now: Moment, acc: (bool, World), x: string): (r: (bool, World))
    ensures r.1.cwd == acc.1.cwd && |acc.1.log| <= |r.1.log|
    ensures r.0 <==> acc.0 && RevertFile(cfg, now, acc.1, x).0
  {
    var (ok2, w2) := RevertFile(cfg, now, acc.1, x);
    if ok2 then (acc.0, w2)
    else (false, Log(cfg, now, w2, Error, "Failed to revert part of the last action: " + x))
  }

  /** Replays the group, logging a line for each record that fails. */
  function RevertAll(cfg: Config, now: Moment, w: World, logs: seq<string>): (r: (bool, World))
    ensures r.1.cwd == w.cwd
    ensures |w.log| <= |r.1.log|
  {
    if logs == [] then (true, w)
    else RevertStep(cfg, now, RevertAll(cfg, now, w, logs[..|logs| - 1]), logs[|logs| - 1])
  }

  /** The replay over one more record takes one more step. */
  lemma RevertAllNext(cfg: Config, now: Moment, w: World, logs: seq<string>, i: nat)
    requires i < |logs|
    ensures RevertAll(cfg, now, w, logs[..i + 1]) == RevertStep(cfg, now, RevertAll(cfg, now, w, logs[..i]), logs[i])
  {
    InitOf(logs, i);
  }

  /** The whole replay succeeds exactly when the replay of every prefix and
      the last revert do. */
  lemma RevertAllLast(cfg: Config, now: Moment, w: World, logs: seq<string>, x: string)
    ensures var (ok, w1) := RevertAll(cfg, now, w, logs);
            RevertAll(cfg, now, w, logs + [x]).0 <==> ok && RevertFile(cfg, now, w1, x).0
  {
    assert (logs + [x])[..|logs|] == logs;
  }

  /** `revert_last_action()` on the log text as it stands when it is called. */
  function RevertLastAction(cfg: Config, now: Moment, w: World): (r: (bool, World))
    ensures r.1.cwd == w.cwd
    ensures ReadLines(w.log) == [] ==> r == (false, Log(cfg, now, w, Warning, "No logs found for reversion."))
    ensures ReadLines(w.log) != [] && MoveLogs(ReadLines(w.log)) == [] ==>
              r == (false, Log(cfg, now, w, Warning, "No move logs found for reversion."))
    ensures ReadLines(w.log) != [] && MoveLogs(ReadLines(w.log)) != []
            && Group(Stamp(Reverse(MoveLogs(ReadLines(w.log))))).taken == [] ==>
              r == (false, Log(cfg, now, w, Warning, "No valid logs found for the last action."))
    ensures r.0 <==> && ReadLines(w.log) != [] && MoveLogs(ReadLines(w.log)) != []
                     && var g := Group(Stamp(Reverse(MoveLogs(ReadLines(w.log)))));
                        g.taken != [] && RevertAll(cfg, now, w, Reverse(Lines(g.taken))).0
  {
    var lines := ReadLines(w.log);
    if lines == [] then (false, Log(cfg, now, w, Warning, "No logs found for reversion."))
    else
      var moves := MoveLogs(lines);
      if moves == [] then (false, Log(cfg, now, w, Warning, "No move logs found for reversion."))
      else
        var g := Group(Stamp(Reverse(moves)));
        if g.taken == [] then (false, Log(cfg, now, w, Warning, "No valid logs found for the last action."))
        else
          var (ok, w1) := RevertAll(cfg, now, w, Reverse(Lines(g.taken)));
          if ok then (true, Log(cfg, now, w1, Info, "Successfully reverted the last action."))
          else (false, Log(cfg, now, w1, Warning, "Last action partially reverted due to errors."))
  }
}
