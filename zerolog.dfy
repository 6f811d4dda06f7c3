/**
 * The values of the logging libraries that the package chooses and hands
 * over: zerolog's levels (its `Level` is an int8), the writers ("sinks")
 * it builds, the logger it installs, the per-event fields a hook adds, and
 * the timestamp and caller-marshal functions it installs. What the
 * libraries then do with these values is not modelled.
 */
module Zerolog {

  // zerolog's level numbers.
  const TraceLevel: int := -1
  const DebugLevel: int := 0
  const InfoLevel: int := 1
  const WarnLevel: int := 2
  const ErrorLevel: int := 3
  const FatalLevel: int := 4
  const PanicLevel: int := 5
  const NoLevel: int := 6
  const Disabled: int := 7

  /** Go's conversion of an int to int8: keep the low eight bits, two's complement. */
  function ToInt8(x: int): (r: int)
    ensures -128 <= r < 128
    ensures (x - r) % 256 == 0
  {
    (x + 128) % 256 - 128
  }

  /**
   * A writer in the logger's fan-out. `ConsolePlain` is the console writer
   * built for the default caller; `ConsoleCustom` is the one that may carry
   * the caller formatter. Without the formatter the two behave alike; they
   * stay apart to record which branch built the writer. `Extra` stands for
   * a writer the caller supplies.
   */
  datatype Sink =
    | ConsolePlain(noColor: bool)
    | ConsoleCustom(callerFmt: bool, noColor: bool)
    | RollingFile(dir: string, name: string, maxSize: int, maxBackups: int, maxAge: int)
    | Extra(id: nat)
  {
    predicate IsConsole() {
      ConsolePlain? || ConsoleCustom?
    }
  }

  /** The event hooks this package defines. */
  datatype HookFunc = FuncNameHook

  /**
   * A zerolog logger: where it writes, whether its context adds the caller
   * and a timestamp to every event, and its hooks in the order they run.
   */
  datatype Logger = Logger(out: seq<Sink>, caller: bool, timestamp: bool, hooks: seq<HookFunc>)

  /** Logger.Hook: a copy of the logger with one more hook at the end. */
  function Hook(l: Logger, h: HookFunc): (r: Logger)
    ensures |r.hooks| == |l.hooks| + 1 && r.hooks[..|l.hooks|] == l.hooks && r.hooks[|l.hooks|] == h
    ensures r.out == l.out && r.caller == l.caller && r.timestamp == l.timestamp
  {
    l.(hooks := l.hooks + [h])
  }

  /** A string field of one log event. */
  datatype Field = Field(key: string, value: string)

  /** The fields an event has gathered so far, in the order they were added. */
  datatype Event = Event(fields: seq<Field>)

  /** The clock the installed TimestampFunc reads (LocalFn, UtcFn or one of the caller's). */
  datatype TimestampFn = LocalFn | UtcFn | CustomFn(id: nat)

  /** The installed CallerMarshalFunc: the library's own, or the package's trimmed one. */
  datatype CallerMarshal = LibraryDefault | BaseNameAndLine
}
