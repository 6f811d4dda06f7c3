/**
 * The process-wide state the package writes: zerolog's global level,
 * TimeFieldFormat, TimestampFunc and CallerMarshalFunc, the colour
 * library's NoColor switch, and the global logger `log.Logger`.
 */
module Globals {
  import opened Zerolog

  /** A snapshot of the globals. */
  datatype Installed = Installed(
    globalLevel: int,
    timeFieldFormat: string,
    timestampFn: TimestampFn,
    callerMarshal: CallerMarshal,
    noColor: bool,
    logger: Logger)

  class Process {
    var globalLevel: int
    var timeFieldFormat: string
    var timestampFn: TimestampFn
    var callerMarshal: CallerMarshal
    var noColor: bool
    var logger: Logger

    /** The globals as they stand before the package touches them. */
    constructor (initial: Installed)
      ensures Snapshot() == initial
    {
      globalLevel := initial.globalLevel;
      timeFieldFormat := initial.timeFieldFormat;
      timestampFn := initial.timestampFn;
      callerMarshal := initial.callerMarshal;
      noColor := initial.noColor;
      logger := initial.logger;
    }

    function Snapshot(): Installed
      reads this
    {
      Installed(globalLevel, timeFieldFormat, timestampFn, callerMarshal, noColor, logger)
    }
  }
}
