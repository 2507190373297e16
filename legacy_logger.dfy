// The first logger of the project (`logger.py` at the repository root): the
// handlers are installed once per process, by whichever instance comes first,
// and every line carries the time, the level and the message.

module LegacyLogger {
  import opened Wrappers
  import opened Strings
  import opened Clock
  import OnlyFilesLogger

  /** `Logger.LOG_FILE`, relative to the working directory. */
  const LegacyLogFile: string := "app.log"

  // ---------------------------------------------------------------- line format

  /** One line of the log file: `%(asctime)s - %(levelname)s - %(message)s`
      with `%Y-%m-%d %H:%M:%S` dates, ended by the handler's newline. */
  function LegacyLine(now: Moment, level: string, msg: string): (line: string)
    ensures |line| == 26 + |level| + |msg|
    ensures line[..19] == FormatTs(now) && line[19..22] == " - "
    ensures line[|line| - 1] == '\n'
  {
    FormatTs(now) + " - " + level + " - " + msg + "\n"
  }

  /** The fixed-width timestamp is the text before the first ` - ` separator,
      and it reads back as the moment the line was written. */
  lemma LegacyLineTimestamp(now: Moment, level: string, msg: string)
    ensures Split(LegacyLine(now, level, msg), " - ")[0] == FormatTs(now)
    ensures var t: DateTime := now; ParseTs(Split(LegacyLine(now, level, msg), " - ")[0]) == Some(t)
  {
    assert LegacyLine(now, level, msg) == FormatTs(now) + " - " + (level + " - " + msg + "\n");
    OnlyFilesLogger.TimestampField(now, level + " - " + msg + "\n");
    ParseFormat(now);
  }

  // ---------------------------------------------------------------- handler setup

  /** A handler `logging.basicConfig` installs on the root logger. */
  datatype Handler = FileHandler(file: string) | StreamHandler

  /** What a `Logger(name, verbose)` instance holds. */
  datatype Instance = Instance(name: string, verbose: bool)

  /** The class attribute `Logger._configured` and the root logger's handlers
      it guards. The root logger is taken to have no handlers before the first
      instance configures it, so `basicConfig` installs what it is given. */
  class LoggerClass {
    var configured: bool
    var handlers: seq<Handler>

    /** Handlers exist exactly once the flag is set, with the file handler first. */
    predicate Valid()
      reads this
    {
      configured <==> handlers != [] && handlers[0] == FileHandler(LegacyLogFile)
    }

    /** The class before any instance exists. */
    constructor()
      ensures Valid() && !configured && handlers == []
    {
      configured := false;
      handlers := [];
    }

    /** `Logger(name, verbose)`: only the first instance of the process, whatever
        its name, installs handlers: the file handler, and a console handler
        after it when that first instance is verbose. */
    method NewLogger(name: string, verbose: bool) returns (inst: Instance)
      requires Valid()
      modifies this
      ensures Valid() && configured
      ensures inst == Instance(name, verbose)
      ensures old(configured) ==> unchanged(this)
      ensures !old(configured) ==>
                handlers == [FileHandler(LegacyLogFile)] + (if verbose then [StreamHandler] else [])
    {
      inst := Instance(name, verbose);
      if !configured {
        if verbose {
          handlers := [FileHandler(LegacyLogFile), StreamHandler];
        } else {
          handlers := [FileHandler(LegacyLogFile)];
        }
        configured := true;
      }
    }
  }
}
