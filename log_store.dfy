// The operation-log file behind the two `Logger` classes' `handle_logs` and
// `clear_logs`: read it whole, or truncate it, and log when that fails.

module LogStore {
  import opened Wrappers
  import opened Clock
  import OnlyFilesLogger
  import LegacyLogger
  import ManagerCore

  /** The log file: absent, or present with its whole text. */
  datatype LogFile = Missing | Present(text: string)

  /** Whose handlers write the records: the `onlyfiles` logger named
      `name`, with its file and console handlers, or the root `logger.py`,
      whose records carry no name and reach the console only when the
      process's first instance was verbose. */
  datatype Layout = Named(name: string) | Plain(console: bool)

  /** The record an `error(msg)` call writes at `now`. */
  function ErrorRecord(layout: Layout, now: Moment, msg: string): (r: string)
    ensures layout.Named? ==> |r| == 29 + |layout.name| + |OnlyFilesLogger.Error| + |msg|
    ensures layout.Plain? ==> |r| == 26 + |OnlyFilesLogger.Error| + |msg|
    ensures |r| > 22 && r[..19] == FormatTs(now) && r[19..22] == " - " && r[|r| - 1] == '\n'
  {
    match layout
    case Named(name) => OnlyFilesLogger.FileLine(now, name, OnlyFilesLogger.Error, msg)
    case Plain(_) => LegacyLogger.LegacyLine(now, OnlyFilesLogger.Error, msg)
  }

  /** Whether records are also printed. */
  predicate ToConsole(layout: Layout) {
    layout.Named? || layout.console
  }

  const NoLogs: string := "No logs found"
  const Cleared: string := "Logs cleared successfully"

  /** A log file and whether the directory that should hold it exists, for
      a logger of the given layout, whose file handler writes this file and
      whose console handler, if any, writes `console`, one record after another.
      Opening the file may also raise an operating-system error that the
      file's state does not decide (a permission, a device); the methods take
      that as a parameter `fault`, the error's message. */
  class LogFileStore {
    const layout: Layout
    var file: LogFile
    var dirExists: bool
    var console: seq<string>

    /** A file exists only inside an existing directory. */
    predicate Valid()
      reads this
    {
      !dirExists ==> file.Missing?
    }

    constructor(layout: Layout, file: LogFile, dirExists: bool)
      requires !dirExists ==> file.Missing?
      ensures Valid()
      ensures this.layout == layout && this.file == file && this.dirExists == dirExists && console == []
    {
      this.layout := layout;
      this.file := file;
      this.dirExists := dirExists;
      console := [];
    }

    /** `handle_logs(action)`: 'read' returns the content, 'clear' truncates,
        any other action returns `None`. A missing file reads as "No logs found";
        other errors are reported as `Failed to <action> logs: <message>`. */
    method HandleLogs(action: string, fault: Option<string>) returns (r: Option<string>)
      requires Valid()
      modifies this
      ensures Valid()
      ensures action == "read" ==> unchanged(this)
      ensures action == "read" && old(file).Missing? ==> r == Some(NoLogs)
      ensures action == "read" && old(file).Present? && fault.None? ==>
                r == Some(if old(file).text == "" then NoLogs else old(file).text)
      ensures action == "read" && old(file).Present? && fault.Some? ==>
                r == Some("Failed to read logs: " + fault.value)
      ensures action == "clear" && old(dirExists) && fault.None? ==>
                file == Present("") && dirExists && r == Some(Cleared)
      ensures action == "clear" && !old(dirExists) ==> unchanged(this) && r == Some(NoLogs)
      ensures action == "clear" && old(dirExists) && fault.Some? ==>
                unchanged(this) && r == Some("Failed to clear logs: " + fault.value)
      ensures action != "read" && action != "clear" ==> unchanged(this) && r == None
    {
      if action == "read" {
        match file {
          case Missing =>
            r := Some(NoLogs);
          case Present(text) =>
            if fault.Some? {
              r := Some("Failed to read logs: " + fault.value);
            } else if text != "" {
              r := Some(text);
            } else {
              r := Some(NoLogs);
            }
        }
      } else if action == "clear" {
        if !dirExists {
          r := Some(NoLogs);
        } else if fault.Some? {
          r := Some("Failed to clear logs: " + fault.value);
        } else {
          file := Present("");
          r := Some(Cleared);
        }
      } else {
        r := None;
      }
    }

    /** The record `error(msg)` emits at `now`: the file handler appends it
        to the log file, when there is one, and a console handler prints it. */
    method Emit(now: Moment, msg: string)
      requires Valid()
      modifies this
      ensures Valid()
      ensures var rec := ErrorRecord(layout, now, msg);
              && console == old(console) + (if ToConsole(layout) then [rec] else [])
              && file == (if old(file).Present? then Present(old(file).text + rec) else old(file))
              && dirExists == old(dirExists)
    {
      var rec := ErrorRecord(layout, now, msg);
      if ToConsole(layout) {
        console := console + [rec];
      }
      if file.Present? {
        file := Present(file.text + rec);
      }
    }

    /** `clear_logs()`: truncates the file, creating it if need be. When the
        file cannot be opened (its directory is missing, or `fault`) the
        error is logged as `Error clearing logs: <message>` and the answer is
        `False`. */
    method ClearLogs(now: Moment, fault: Option<string>) returns (ok: bool)
      requires Valid()
      modifies this
      ensures Valid()
      ensures ok <==> old(dirExists) && fault.None?
      ensures ok ==> file == Present("") && dirExists && console == old(console)
      ensures !ok ==>
                var msg := "Error clearing logs: " + (if fault.Some? then fault.value else ManagerCore.OsErrorText);
                var rec := ErrorRecord(layout, now, msg);
                && console == old(console) + (if ToConsole(layout) then [rec] else [])
                && file == (if old(file).Present? then Present(old(file).text + rec) else Missing)
                && dirExists == old(dirExists)
    {
      if dirExists && fault.None? {
        file := Present("");
        ok := true;
      } else {
        var e := if fault.Some? then fault.value else ManagerCore.OsErrorText;
        Emit(now, "Error clearing logs: " + e);
        ok := false;
      }
    }
  }
}
