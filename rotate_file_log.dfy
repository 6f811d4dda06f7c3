/**
 * Writer selection: the console writer (with or without the package's
 * caller formatter) and the rolling file, chosen from the rotation
 * configuration, and the logger built over them.
 */
module RotateFileLog {
  import opened Text
  import opened Zerolog
  import opened Globals

  /** rotateConfig: the flags and limits the writers are built from. */
  datatype RotateConfig = RotateConfig(
    consoleLoggingEnabled: bool,
    encodeLogsAsJson: bool,
    fileLoggingEnabled: bool,
    directory: string,
    filename: string,
    maxSize: int,
    maxBackups: int,
    maxAge: int,
    noColor: bool)

  /**
   * The console caller formatter: the caller text after its last '/'
   * (the green colouring around it is not modelled).
   */
  function FormatCaller(caller: string): (r: string)
    ensures r == LastSegment(caller, '/')
    ensures '/' !in r
  {
    LastPieceIsLastSegment(caller, '/');
    var arr := Split(caller, '/');
    arr[|arr| - 1]
  }

  /**
   * The caller text a writer shows for the caller value it receives: the
   * console writer with the formatter trims it, the others keep it.
   */
  function ShownCaller(w: Sink, caller: string): string {
    if w.ConsoleCustom? && w.callerFmt then FormatCaller(caller) else caller
  }

  /** A console writer without the caller formatter shows the caller as the plain one does. */
  lemma ConsoleWithoutFormatterIsPlain(noColor: bool, caller: string)
    ensures ShownCaller(ConsoleCustom(false, noColor), caller) == ShownCaller(ConsolePlain(noColor), caller)
  {
  }

  /** newRollingFile: the rolling file takes its location and limits unchanged from the configuration. */
  function NewRollingFile(config: RotateConfig): (w: Sink)
    ensures w.RollingFile?
    ensures w.dir == config.directory && w.name == config.filename
    ensures w.maxSize == config.maxSize && w.maxBackups == config.maxBackups && w.maxAge == config.maxAge
  {
    RollingFile(config.directory, config.filename, config.maxSize, config.maxBackups, config.maxAge)
  }

  /**
   * The writer list newWriters returns: at most one console writer, first,
   * present exactly when console logging is on, and at most one rolling
   * file, last, present exactly when file logging is on. With
   * `defaultCaller` the console writer is the plain one whatever
   * `withCaller` says; otherwise it carries the caller formatter exactly
   * when `withCaller` holds.
   */
  function Writers(config: RotateConfig, withCaller: bool, defaultCaller: bool): (r: seq<Sink>)
    ensures |r| == (if config.consoleLoggingEnabled then 1 else 0) + (if config.fileLoggingEnabled then 1 else 0)
    ensures (exists i :: 0 <= i < |r| && r[i].IsConsole()) <==> config.consoleLoggingEnabled
    ensures (exists i :: 0 <= i < |r| && r[i].RollingFile?) <==> config.fileLoggingEnabled
    ensures config.consoleLoggingEnabled ==>
      && r[0].IsConsole()
      && r[0].noColor == config.noColor
      && (r[0].ConsolePlain? <==> defaultCaller)
      && (r[0].ConsoleCustom? ==> r[0].callerFmt == withCaller)
    ensures config.fileLoggingEnabled ==> r[|r| - 1] == NewRollingFile(config)
  {
    var console :=
      if !config.consoleLoggingEnabled then []
      else if defaultCaller then [ConsolePlain(config.noColor)]
      else [ConsoleCustom(withCaller, config.noColor)];
    var file := if config.fileLoggingEnabled then [NewRollingFile(config)] else [];
    var r := console + file;
    assert config.consoleLoggingEnabled ==> r[0].IsConsole();
    assert config.fileLoggingEnabled ==> r[|r| - 1].RollingFile?;
    r
  }

  /**
   * newWriters: sets the colour library's NoColor switch from the
   * configuration and builds the writer list by conditional appends.
   */
  method NewWriters(g: Process, config: RotateConfig, withCaller: bool, defaultCaller: bool)
    returns (writers: seq<Sink>)
    modifies g`noColor
    ensures g.noColor == config.noColor
    ensures writers == Writers(config, withCaller, defaultCaller)
  {
    writers := [];
    g.noColor := config.noColor;
    var cw := ConsoleCustom(withCaller, config.noColor);
    if config.consoleLoggingEnabled {
      if defaultCaller {
        writers := writers + [ConsolePlain(config.noColor)];
      } else {
        writers := writers + [cw];
      }
    }
    if config.fileLoggingEnabled {
      writers := writers + [NewRollingFile(config)];
    }
  }

  /**
   * configure: a logger over `mw` whose context always adds a timestamp
   * and adds the caller exactly when `mode` is on, with no hooks yet.
   */
  function Configure(config: RotateConfig, mode: bool, mw: seq<Sink>): (r: Logger)
    ensures r.timestamp
    ensures r.caller <==> mode
    ensures r.out == mw && r.hooks == []
  {
    if mode then Logger(mw, caller := true, timestamp := true, hooks := [])
    else Logger(mw, caller := false, timestamp := true, hooks := [])
  }
}
