// The monthly operation log of `src/utils/logging.py`: one file per month,
// `onlyfiles_<YYYYMM>.log` in the user's log directory, appended to a line at
// a time and listed by month.

module MonthlyLogger {
  import opened Wrappers
  import opened Strings
  import opened Clock
  import opened Sorting
  import opened Seqs
  import opened Glob
  import PosixPath

  /** The file holding the logs of month `ym`. */
  function MonthFileName(ym: string): string {
    "onlyfiles_" + ym + ".log"
  }

  /** The pattern `list_available_logs` globs the directory with. */
  const MonthPattern: string := "onlyfiles_*.log"

  // ---------------------------------------------------------------- one entry

  /** `[<%Y-%m-%d %H:%M:%S>] <LEVEL>: <message>` and a newline. */
  function Entry(now: Moment, level: string, msg: string): (e: string)
    ensures |e| == 25 + |level| + |msg|
    ensures e[1..20] == FormatTs(now)
  {
    "[" + FormatTs(now) + "] " + level + ": " + msg + "\n"
  }

  /** An entry is exactly one line when level and message hold no newline,
      and its bracketed timestamp reads back as the moment it was written. */
  lemma EntryOneLine(now: Moment, level: string, msg: string)
    requires '\n' !in level && '\n' !in msg
    ensures var e := Entry(now, level, msg);
            e[|e| - 1] == '\n' && '\n' !in e[..|e| - 1]
    ensures var t: DateTime := now; ParseTs(Entry(now, level, msg)[1..20]) == Some(t)
  {
    var ts := FormatTs(now);
    var x := "[" + ts + "] " + level + ": " + msg;
    FormatTsAvoids(now, '\n');
    EntryBody(ts, level, msg);
    assert Entry(now, level, msg) == x + "\n";
    assert (x + "\n")[..|x|] == x;
    ParseFormat(now);
  }

  /** The entry without its newline holds none. */
  lemma EntryBody(ts: string, level: string, msg: string)
    requires '\n' !in ts && '\n' !in level && '\n' !in msg
    ensures '\n' !in "[" + ts + "] " + level + ": " + msg
  {
    PosixPath.NoCharAppend("[", ts, '\n');
    PosixPath.NoCharAppend("[" + ts, "] ", '\n');
    PosixPath.NoCharAppend("[" + ts + "] ", level, '\n');
    PosixPath.NoCharAppend("[" + ts + "] " + level, ": ", '\n');
    PosixPath.NoCharAppend("[" + ts + "] " + level + ": ", msg, '\n');
  }

  // ---------------------------------------------------------------- listing the months

  /** `name.split('_')[1].split('.')[0]`; `None` where the index raises. */
  function DatePart(name: string): (r: Option<string>)
    ensures r.Some? ==> '.' !in r.value && '_' !in r.value
  {
    var parts := Split(name, "_");
    PosixPath.SplitNoSep(name, '_');
    if |parts| < 2 then None
    else
      PosixPath.SplitNoSep(parts[1], '.');
      Some(Split(parts[1], ".")[0])
  }

  /** Exactly six digits, as `len(s) == 6 and s.isdigit()` checks. */
  predicate IsMonth(s: string) {
    |s| == 6 && IsDigits(s)
  }

  /** Whether a name in the directory counts as a month's log. */
  predicate MonthLog(name: string) {
    Match(MonthPattern, name) && DatePart(name).Some? && IsMonth(DatePart(name).value)
  }

  /** The month parts of the names that count, in the order the names come. */
  function Months(names: seq<string>): (r: seq<string>)
    ensures forall m :: m in r ==> IsMonth(m)
    ensures forall i :: 0 <= i < |names| && MonthLog(names[i]) ==> DatePart(names[i]).value in r
  {
    if names == [] then []
    else
      var pre := names[..|names| - 1];
      var last := names[|names| - 1];
      assert forall i :: 0 <= i < |pre| ==> pre[i] == names[i];
      Months(pre) + (if MonthLog(last) then [DatePart(last).value] else [])
  }

  /** The part after the first `_` of a name that has one is the text up to
      the next `_`. */
  lemma DatePartOf(head: string, m: string, tail: string)
    requires '_' !in head && '_' !in m && '_' !in tail && '.' !in m && tail != [] && tail[0] == '.'
    ensures DatePart(head + "_" + m + tail) == Some(m)
  {
    var name := head + "_" + m + tail;
    assert name == head + ['_'] + (m + tail);
    SplitCharFirst(head, m + tail, '_');
    PosixPath.NoCharAppend(m, tail, '_');
    SplitCharNone(m + tail, '_');
    MonthPartCut(m, tail);
  }

  /** Cutting `m + tail` at `.` keeps `m` in front when `tail` starts with the dot. */
  lemma MonthPartCut(m: string, tail: string)
    requires '.' !in m && tail != [] && tail[0] == '.'
    ensures Split(m + tail, ".")[0] == m
  {
    assert m + tail == m + ['.'] + tail[1..];
    SplitCharFirst(m, tail[1..], '.');
  }

  /** A month formatted by the clock holds neither separator. */
  lemma MonthNoSeparators(now: Moment)
    ensures '_' !in FormatMonth(now) && '.' !in FormatMonth(now)
  {
    var ym := FormatMonth(now);
    forall i | 0 <= i < |ym| ensures ym[i] != '_' && ym[i] != '.' {
      assert IsDigit(ym[i]);
    }
  }

  /** The name of a month's file matches the glob. */
  lemma MonthNameMatches(ym: string)
    ensures Match(MonthPattern, MonthFileName(ym))
  {
    assert MonthPattern == "onlyfiles_" + (['*'] + ".log");
    assert MonthFileName(ym) == "onlyfiles_" + (ym + ".log");
    MatchLiteralHead("onlyfiles_", ['*'] + ".log", ym + ".log");
    MatchSuffix(".log", ym + ".log");
    assert (ym + ".log")[|ym|..] == ".log";
  }

  /** The name the logger gives its own month's file counts, with that month. */
  lemma OwnFileCounts(now: Moment)
    ensures MonthLog(MonthFileName(FormatMonth(now)))
    ensures DatePart(MonthFileName(FormatMonth(now))) == Some(FormatMonth(now))
  {
    var ym := FormatMonth(now);
    MonthNoSeparators(now);
    assert MonthFileName(ym) == "onlyfiles" + "_" + ym + ".log";
    DatePartOf("onlyfiles", ym, ".log");
    MonthNameMatches(ym);
  }

  // ---------------------------------------------------------------- the logger

  /** The content of a file, an absent one reading as empty. */
  function Content(dir: map<string, string>, name: string): string {
    if name in dir then dir[name] else ""
  }

  /** The month logs for `ym`: `None` unless `ym` is six digits and its
      file exists. */
  function MonthLogs(dir: map<string, string>, ym: string): (r: Option<string>)
    ensures r.Some? <==> IsMonth(ym) && MonthFileName(ym) in dir
    ensures r.Some? ==> r.value == dir[MonthFileName(ym)]
  {
    if !IsMonth(ym) || MonthFileName(ym) !in dir then None else Some(dir[MonthFileName(ym)])
  }

  /** The logger as created in month `FormatMonth(now)`: the regular files of
      its (created) log directory, each with its text. Reading or writing a
      file may raise an operating-system error the directory does not decide;
      the methods take it as a parameter `fault`, the error's message. */
  class MonthLogger {
    const logFile: string
    var dir: map<string, string>

    constructor(now: Moment, dir: map<string, string>)
      ensures logFile == MonthFileName(FormatMonth(now)) && this.dir == dir
    {
      logFile := MonthFileName(FormatMonth(now));
      this.dir := dir;
    }

    /** `_write_log(level, message)`: appends one entry to this month's file,
        creating it if need be; an error is only printed. */
    method WriteLog(now: Moment, level: string, msg: string, fault: Option<string>)
      modifies this
      ensures fault.None? ==> dir == old(dir)[logFile := Content(old(dir), logFile) + Entry(now, level, msg)]
      ensures fault.Some? ==> dir == old(dir)
    {
      if fault.None? {
        var text := if logFile in dir then dir[logFile] else "";
        dir := dir[logFile := text + Entry(now, level, msg)];
      }
    }

    method Info(now: Moment, msg: string, fault: Option<string>)
      modifies this
      ensures fault.None? ==> dir == old(dir)[logFile := Content(old(dir), logFile) + Entry(now, "INFO", msg)]
      ensures fault.Some? ==> dir == old(dir)
    {
      WriteLog(now, "INFO", msg, fault);
    }

    method Error(now: Moment, msg: string, fault: Option<string>)
      modifies this
      ensures fault.None? ==> dir == old(dir)[logFile := Content(old(dir), logFile) + Entry(now, "ERROR", msg)]
      ensures fault.Some? ==> dir == old(dir)
    {
      WriteLog(now, "ERROR", msg, fault);
    }

    method Warning(now: Moment, msg: string, fault: Option<string>)
      modifies this
      ensures fault.None? ==> dir == old(dir)[logFile := Content(old(dir), logFile) + Entry(now, "WARNING", msg)]
      ensures fault.Some? ==> dir == old(dir)
    {
      WriteLog(now, "WARNING", msg, fault);
    }

    /** `clear_logs()`: an existing file is truncated; a missing one counts as
        cleared. Only the truncation can fail. */
    method ClearLogs(fault: Option<string>) returns (ok: bool)
      modifies this
      ensures ok <==> logFile !in old(dir) || fault.None?
      ensures logFile in old(dir) && fault.None? ==> dir == old(dir)[logFile := ""]
      ensures logFile !in old(dir) || fault.Some? ==> dir == old(dir)
    {
      if logFile in dir {
        if fault.Some? {
          return false;
        }
        dir := dir[logFile := ""];
      }
      ok := true;
    }

    /** `get_logs()`: the whole file, `""` when it is missing. A failing read
        is logged through `error` (which may fail in turn, `writeFault`) and
        answered with a bracketed message. */
    method GetLogs(now: Moment, readFault: Option<string>, writeFault: Option<string>) returns (s: string)
      modifies this
      ensures logFile !in old(dir) ==> s == "" && dir == old(dir)
      ensures logFile in old(dir) && readFault.None? ==> s == old(dir)[logFile] && dir == old(dir)
      ensures logFile in old(dir) && readFault.Some? ==>
                && s == "[Error reading logs: " + readFault.value + "]"
                && (writeFault.None? ==>
                      dir == old(dir)[logFile := old(dir)[logFile]
                                      + Entry(now, "ERROR", "Failed to read log file: " + readFault.value)])
                && (writeFault.Some? ==> dir == old(dir))
    {
      if logFile !in dir {
        return "";
      }
      if readFault.None? {
        return dir[logFile];
      }
      Error(now, "Failed to read log file: " + readFault.value, writeFault);
      s := "[Error reading logs: " + readFault.value + "]";
    }

    /** `list_available_logs()`: the month of every file the glob finds whose
        part after the first `_` is six digits, newest first. The glob's
        order is the directory's; the model takes the names in ascending
        order, which the sort makes immaterial. */
    method ListAvailableLogs() returns (r: seq<string>)
      ensures r == SortDesc(Months(SortedList(dir.Keys)))
      ensures forall m :: m in r ==> IsMonth(m)
      ensures NonIncreasing(r)
    {
      var months := MonthsIn(SortedList(dir.Keys));
      r := SortDesc(months);
      SortedMonths(months);
    }

    /** `get_logs_for_month(ym)`: the month's file, or `None` when `ym` is not
        six digits, the file is missing, or a read fails (which is logged). */
    method GetLogsForMonth(now: Moment, ym: string, readFault: Option<string>, writeFault: Option<string>)
      returns (r: Option<string>)
      modifies this
      ensures readFault.None? || MonthLogs(old(dir), ym).None? ==> r == MonthLogs(old(dir), ym) && dir == old(dir)
      ensures readFault.Some? && MonthLogs(old(dir), ym).Some? ==>
                var msg := "Error reading log file for " + ym + ": " + readFault.value;
                && r.None?
                && (writeFault.None? ==> dir == old(dir)[logFile := Content(old(dir), logFile) + Entry(now, "ERROR", msg)])
                && (writeFault.Some? ==> dir == old(dir))
    {
      if |ym| != 6 || !IsDigits(ym) {
        return None;
      }
      var path := MonthFileName(ym);
      if path !in dir {
        return None;
      }
      if readFault.Some? {
        Error(now, "Error reading log file for " + ym + ": " + readFault.value, writeFault);
        return None;
      }
      r := Some(dir[path]);
    }
  }

  /** The scan of `list_available_logs` over the names the glob visits. */
  method MonthsIn(names: seq<string>) returns (months: seq<string>)
    ensures months == Months(names)
  {
    months := [];
    var i := 0;
    while i < |names|
      invariant 0 <= i <= |names|
      invariant months == Months(names[..i])
    {
      var name := names[i];
      InitOf(names, i);
      if Match(MonthPattern, name) {
        var part := DatePart(name);
        if part.Some? && |part.value| == 6 && IsDigits(part.value) {
          months := months + [part.value];
        }
      }
      i := i + 1;
    }
    assert names[..i] == names;
  }

  /** Sorting keeps the months and only them. */
  lemma SortedMonths(ms: seq<string>)
    requires forall m :: m in ms ==> IsMonth(m)
    ensures forall m :: m in SortDesc(ms) ==> IsMonth(m)
  {
    forall m | m in SortDesc(ms) ensures IsMonth(m) {
      assert m in multiset(SortDesc(ms));
    }
  }

  // ---------------------------------------------------------------- properties

  /** The current month's file, when it exists, is listed, and asking for
      the current month reads the logger's own file. */
  lemma OwnMonthListed(now: Moment, dir: map<string, string>)
    requires MonthFileName(FormatMonth(now)) in dir
    ensures FormatMonth(now) in SortDesc(Months(SortedList(dir.Keys)))
    ensures MonthLogs(dir, FormatMonth(now)) == Some(dir[MonthFileName(FormatMonth(now))])
  {
    var name := MonthFileName(FormatMonth(now));
    var names := SortedList(dir.Keys);
    OwnFileCounts(now);
    assert name in names;
    var i :| 0 <= i < |names| && names[i] == name;
    assert FormatMonth(now) in multiset(Months(names));
  }
}
