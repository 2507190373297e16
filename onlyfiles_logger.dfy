// The package logger of `onlyfiles`: the directory `_get_log_directory`
// names (no caller writes there: the handlers use `LOG_FILE`), the
// once-per-name handler setup, and the text of one log-file line.

module OnlyFilesLogger {
  import opened Wrappers
  import opened Strings
  import opened Clock
  import PosixPath

  /** The final name of `Logger.LOG_FILE` (`<repository>/docs/app.log`). */
  const LogFileName: string := "app.log"

  /** The file used when the log directory cannot be prepared. */
  const FallbackFileName: string := "onlyfiles_app.log"

  const Info: string := "INFO"
  const Warning: string := "WARNING"
  const Error: string := "ERROR"

  // ---------------------------------------------------------------- line format

  /** One line of the log file: `%(asctime)s - %(name)s - %(levelname)s - %(message)s`
      with `%Y-%m-%d %H:%M:%S` dates, ended by the handler's newline. */
  function FileLine(now: Moment, name: string, level: string, msg: string): (line: string)
    ensures |line| == 29 + |name| + |level| + |msg|
    ensures line[..19] == FormatTs(now) && line[19..22] == " - "
    ensures line[|line| - 1] == '\n'
  {
    FormatTs(now) + " - " + name + " - " + level + " - " + msg + "\n"
  }

  /** The text before the first ` - ` of a line that starts with a timestamp
      and a separator is that timestamp. */
  lemma TimestampField(now: Moment, rest: string)
    ensures Split(FormatTs(now) + " - " + rest, " - ")[0] == FormatTs(now)
  {
    var ts := FormatTs(now);
    var s := ts + " - " + rest;
    FormatTsLayout(now);
    assert OccursAt(s, " - ", 19) by { assert s[19..22] == " - "; }
    forall j | 0 <= j < 19 ensures !OccursAt(s, " - ", j) {
      if j != 10 {
        assert s[j] == ts[j];
        assert s[j..j + 3][0] == s[j];
        assert ts[j] != ' ';
      } else {
        assert s[11] == ts[11];
        assert s[j..j + 3][1] == s[11];
      }
    }
    FindFirst(s, " - ", 19);
    assert s[..19] == ts;
  }

  /** The timestamp at the head of a file line reads back, surrounding
      whitespace stripped, as the moment the line was written. */
  lemma FileLineTimestamp(now: Moment, name: string, level: string, msg: string)
    ensures var field := Split(FileLine(now, name, level, msg), " - ")[0];
            var t: DateTime := now;
            ParseTs(Strip(field)) == Some(t)
  {
    var ts := FormatTs(now);
    assert FileLine(now, name, level, msg) == ts + " - " + (name + " - " + level + " - " + msg + "\n");
    TimestampField(now, name + " - " + level + " - " + msg + "\n");
    ParseFormat(now);
    assert TsShape(ts);
    assert ts[0] == ts[0..4][0] && ts[18] == ts[17..19][1];
    StripKeeps(ts);
  }

  // ---------------------------------------------------------------- log directory

  /** `ntpath.join(a, b)` for a relative `b` without a drive. */
  function NtJoin(a: string, b: string): (r: string)
    ensures EndsWith(r, b)
  {
    if a == "" || a[|a| - 1] == '\\' || a[|a| - 1] == '/' then a + b else a + "\\" + b
  }

  /** `_get_log_directory()`. An environment variable that is unset or empty
      counts as absent. On Windows `home` is what `ntpath.expanduser('~')`
      gives; elsewhere it is the home directory that `posixpath.expanduser`
      reads, trailing slashes dropped and an empty one standing for `/`. */
  function LogDirectory(windows: bool, appData: Option<string>, xdgDataHome: Option<string>,
                        home: string): string
  {
    if windows then
      if appData.Some? && appData.value != "" then
        NtJoin(NtJoin(appData.value, "OnlyFiles"), "logs")
      else NtJoin(NtJoin(NtJoin(NtJoin(home, "AppData"), "Roaming"), "OnlyFiles"), "logs")
    else
      var base := if xdgDataHome.Some? && xdgDataHome.value != "" then xdgDataHome.value
                  else PosixPath.Join(PosixPath.Join(PosixPath.ExpandUser(home, map[], "~"), ".local"), "share");
      PosixPath.Join(PosixPath.Join(base, "onlyfiles"), "logs")
  }

  /** With `APPDATA` set, `_get_log_directory` returns `APPDATA\OnlyFiles\logs`. */
  lemma LogDirectoryAppData(appData: string, xdg: Option<string>, home: string)
    requires appData != "" && appData[|appData| - 1] != '\\' && appData[|appData| - 1] != '/'
    ensures LogDirectory(true, Some(appData), xdg, home) == appData + "\\OnlyFiles\\logs"
  {
    var a := NtJoin(appData, "OnlyFiles");
    assert a == appData + "\\OnlyFiles";
    assert NtJoin(a, "logs") == a + "\\logs";
  }

  /** Without `APPDATA`, under `~\AppData\Roaming\OnlyFiles\logs`. */
  lemma LogDirectoryRoaming(xdg: Option<string>, home: string)
    requires home != "" && home[|home| - 1] != '\\' && home[|home| - 1] != '/'
    ensures LogDirectory(true, None, xdg, home) == home + "\\" + "AppData" + "\\" + "Roaming" + "\\" + "OnlyFiles" + "\\" + "logs"
    ensures LogDirectory(true, Some(""), xdg, home) == LogDirectory(true, None, xdg, home)
  {
    NtJoinName(home, "AppData");
    var a := home + "\\" + "AppData";
    NtJoinName(a, "Roaming");
    var b := a + "\\" + "Roaming";
    NtJoinName(b, "OnlyFiles");
    NtJoinName(b + "\\" + "OnlyFiles", "logs");
  }

  /** Joining onto a folder that does not end in a separator inserts one, and
      the result ends like the name joined. */
  lemma NtJoinName(a: string, b: string)
    requires a != "" && a[|a| - 1] != '\\' && a[|a| - 1] != '/'
    requires b != "" && b[|b| - 1] != '\\' && b[|b| - 1] != '/'
    ensures NtJoin(a, b) == a + "\\" + b
    ensures var r := a + "\\" + b; r != "" && r[|r| - 1] == b[|b| - 1]
  {
  }

  /** Elsewhere, under `$XDG_DATA_HOME/onlyfiles/logs` ... */
  lemma LogDirectoryXdg(appData: Option<string>, xdg: string, home: string)
    requires xdg != "" && !EndsWith(xdg, "/")
    ensures LogDirectory(false, appData, Some(xdg), home) == xdg + "/onlyfiles/logs"
  {
  }

  /** ... or `~/.local/share/onlyfiles/logs` when that variable is absent. */
  lemma LogDirectoryLocalShare(appData: Option<string>, home: string)
    requires home != "" && !EndsWith(home, "/")
    ensures LogDirectory(false, appData, None, home) == home + "/" + ".local" + "/" + "share" + "/" + "onlyfiles" + "/" + "logs"
    ensures LogDirectory(false, appData, Some(""), home) == LogDirectory(false, appData, None, home)
  {
    assert PosixPath.RStripSlash(home) == home;
    PosixJoinName(home, ".local");
    var a := home + "/" + ".local";
    PosixJoinName(a, "share");
    var b := a + "/" + "share";
    PosixJoinName(b, "onlyfiles");
    PosixJoinName(b + "/" + "onlyfiles", "logs");
  }

  /** With an empty home, or one made only of slashes, `_get_log_directory`
      returns a directory under the root: `/.local/share/onlyfiles/logs`. */
  lemma LogDirectoryRootHome(appData: Option<string>, home: string)
    requires forall k :: 0 <= k < |home| ==> home[k] == '/'
    ensures LogDirectory(false, appData, None, home) == "/" + ".local" + "/" + "share" + "/" + "onlyfiles" + "/" + "logs"
  {
    PosixPath.RStripSlashAll(home);
    assert PosixPath.ExpandUser(home, map[], "~") == "/";
    assert !PosixPath.IsAbs(".local") by { assert ".local"[0] != '/'; }
    assert EndsWith("/", "/");
    PosixJoinName("/" + ".local", "share");
    var b := "/" + ".local" + "/" + "share";
    PosixJoinName(b, "onlyfiles");
    PosixJoinName(b + "/" + "onlyfiles", "logs");
  }

  /** Joining a relative name onto a folder not ending in `/` inserts one, and
      the result does not end in `/` either. */
  lemma PosixJoinName(a: string, b: string)
    requires a != "" && !EndsWith(a, "/")
    requires b != "" && b[0] != '/' && b[|b| - 1] != '/'
    ensures PosixPath.Join(a, b) == a + "/" + b
    ensures a + "/" + b != "" && !EndsWith(a + "/" + b, "/")
  {
    assert !PosixPath.IsAbs(b);
    var r := a + "/" + b;
    assert r[|r| - 1] == b[|b| - 1];
    assert r[|r| - 1..] != "/";
  }

  // ---------------------------------------------------------------- handler setup

  /** Where an instance's records go once it is constructed. */
  datatype Sink =
    | FileAndConsole(file: string)  // handlers installed by this instance
    | Inherited                     // the handlers an earlier instance of the name installed
    | ConsoleOnly                   // last resort

  /** What a `Logger(name)` instance holds: its `_configured` flag, its `_log_file`
      and its sink. */
  datatype Instance = Instance(name: string, configured: bool, logFile: string, sink: Sink)

  /** The class-wide `_configured_loggers` record. `primarySetups` lists, in
      order, each name whose handlers were installed on the primary log file:
      a name is recorded once, after its first successful setup. */
  class LoggerRegistry {
    const logFile: string
    const home: string
    var configured: set<string>
    var primarySetups: seq<string>

    predicate Valid()
      reads this
    {
      && (forall i, j :: 0 <= i < j < |primarySetups| ==> primarySetups[i] != primarySetups[j])
      && configured == set n | n in primarySetups
    }

    constructor(logFile: string, home: string)
      ensures Valid()
      ensures this.logFile == logFile && this.home == home
      ensures configured == {} && primarySetups == []
    {
      this.logFile := logFile;
      this.home := home;
      configured := {};
      primarySetups := [];
    }

    /** `Logger(name)`. `dirReady`: the log directory exists or `makedirs`
        creates it; `primaryOk` / `fallbackOk`: the file handler for the primary
        / the fallback file can be opened. */
    method NewLogger(name: string, dirReady: bool, primaryOk: bool, fallbackOk: bool)
      returns (inst: Instance)
      requires Valid()
      modifies this
      ensures Valid()
      ensures inst.name == name
      ensures configured == old(configured) + (if dirReady && primaryOk then {name} else {})
      ensures primarySetups == old(primarySetups)
                + (if dirReady && primaryOk && name !in old(configured) then [name] else [])
      ensures dirReady && name in old(configured) ==> inst == Instance(name, false, logFile, Inherited)
      ensures dirReady && name !in old(configured) && primaryOk ==>
                inst == Instance(name, true, logFile, FileAndConsole(logFile))
      ensures (!dirReady || (name !in old(configured) && !primaryOk)) ==>
                var fb := PosixPath.Join(home, FallbackFileName);
                inst == Instance(name, fallbackOk, fb, if fallbackOk then FileAndConsole(fb) else ConsoleOnly)
    {
      var fallback := false;
      if !dirReady {
        fallback := true;
      } else if name !in configured {
        if primaryOk {
          configured := configured + {name};
          primarySetups := primarySetups + [name];
          inst := Instance(name, true, logFile, FileAndConsole(logFile));
        } else {
          fallback := true;
        }
      } else {
        inst := Instance(name, false, logFile, Inherited);
      }
      if fallback {
        var fb := PosixPath.Join(home, FallbackFileName);
        if fallbackOk {
          inst := Instance(name, true, fb, FileAndConsole(fb));
        } else {
          inst := Instance(name, false, fb, ConsoleOnly);
        }
      }
    }
  }
}
