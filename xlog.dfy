/**
 * InitLog and its options: the functional options folded over the
 * defaults, the level clamp, the trimmed file:line caller marshaller, the
 * configuration handed to the writers, and the hooks applied to the
 * global logger.
 */
module Xlog {
  import opened Wrappers
  import opened Text
  import opened Zerolog
  import opened Globals
  import opened Cfg
  import opened RotateFileLog

  /** LogOpts: what the options collect before InitLog reads them. */
  datatype LogOpts = LogOpts(cfg: XLogCfg, wr: seq<Sink>, level: int, timestampFn: TimestampFn)

  /** The functional options. */
  datatype LogOptFunc =
    | WithCfg(c: XLogCfg)
    | WithWr(w: Sink)
    | WithTimestampFunc(fn: TimestampFn)
    | WithLevel(l: int)

  /** Running one option on the options record: each option sets only its own field, and WithWr appends. */
  function ApplyOpt(o: LogOpts, f: LogOptFunc): (r: LogOpts)
    ensures r.cfg == (if f.WithCfg? then f.c else o.cfg)
    ensures r.wr == o.wr + (if f.WithWr? then [f.w] else [])
    ensures r.timestampFn == (if f.WithTimestampFunc? then f.fn else o.timestampFn)
    ensures r.level == (if f.WithLevel? then f.l else o.level)
  {
    match f
    case WithCfg(c) => o.(cfg := c)
    case WithWr(w) => o.(wr := o.wr + [w])
    case WithTimestampFunc(fn) => o.(timestampFn := fn)
    case WithLevel(l) => o.(level := l)
  }

  /** The options applied left to right. */
  function FoldOpts(o: LogOpts, opts: seq<LogOptFunc>): LogOpts
    decreases |opts|
  {
    if opts == [] then o else FoldOpts(ApplyOpt(o, opts[0]), opts[1..])
  }

  lemma {:induction false} FoldOptsSnoc(o: LogOpts, opts: seq<LogOptFunc>, f: LogOptFunc)
    ensures FoldOpts(o, opts + [f]) == ApplyOpt(FoldOpts(o, opts), f)
    decreases |opts|
  {
    if opts == [] {
      assert [] + [f] == [f];
    } else {
      assert (opts + [f])[1..] == opts[1..] + [f];
      FoldOptsSnoc(ApplyOpt(o, opts[0]), opts[1..], f);
    }
  }

  /** Folding a concatenation folds the first part, then the second. */
  lemma {:induction false} FoldOptsAppend(o: LogOpts, a: seq<LogOptFunc>, b: seq<LogOptFunc>)
    ensures FoldOpts(o, a + b) == FoldOpts(FoldOpts(o, a), b)
    decreases |a|
  {
    if a == [] {
      assert [] + b == b;
    } else {
      assert (a + b)[1..] == a[1..] + b;
      FoldOptsAppend(ApplyOpt(o, a[0]), a[1..], b);
    }
  }

  /** bindLogOpts: runs the options in the order given. */
  method BindLogOpts(opt: LogOpts, opts: seq<LogOptFunc>) returns (r: LogOpts)
    ensures r == FoldOpts(opt, opts)
  {
    r := opt;
    for i := 0 to |opts|
      invariant r == FoldOpts(opt, opts[..i])
    {
      FoldOptsSnoc(opt, opts[..i], opts[i]);
      assert opts[..i + 1] == opts[..i] + [opts[i]];
      r := ApplyOpt(r, opts[i]);
    }
    assert opts[..|opts|] == opts;
  }

  /** Options that are not WithCfg leave the configuration alone. */
  lemma {:induction false} CfgUntouched(o: LogOpts, opts: seq<LogOptFunc>)
    requires forall j :: 0 <= j < |opts| ==> !opts[j].WithCfg?
    ensures FoldOpts(o, opts).cfg == o.cfg
    decreases |opts|
  {
    if opts != [] {
      CfgUntouched(ApplyOpt(o, opts[0]), opts[1..]);
    }
  }

  /** The last WithCfg given decides the configuration. */
  lemma LastCfgWins(o: LogOpts, opts: seq<LogOptFunc>, i: nat)
    requires i < |opts| && opts[i].WithCfg?
    requires forall j :: i < j < |opts| ==> !opts[j].WithCfg?
    ensures FoldOpts(o, opts).cfg == opts[i].c
  {
    assert opts == opts[..i + 1] + opts[i + 1..];
    FoldOptsAppend(o, opts[..i + 1], opts[i + 1..]);
    assert opts[..i + 1] == opts[..i] + [opts[i]];
    FoldOptsSnoc(o, opts[..i], opts[i]);
    CfgUntouched(FoldOpts(o, opts[..i + 1]), opts[i + 1..]);
  }

  /** Options that are not WithTimestampFunc leave the timestamp function alone. */
  lemma {:induction false} TimestampUntouched(o: LogOpts, opts: seq<LogOptFunc>)
    requires forall j :: 0 <= j < |opts| ==> !opts[j].WithTimestampFunc?
    ensures FoldOpts(o, opts).timestampFn == o.timestampFn
    decreases |opts|
  {
    if opts != [] {
      TimestampUntouched(ApplyOpt(o, opts[0]), opts[1..]);
    }
  }

  /** The last WithTimestampFunc given decides the timestamp function. */
  lemma LastTimestampWins(o: LogOpts, opts: seq<LogOptFunc>, i: nat)
    requires i < |opts| && opts[i].WithTimestampFunc?
    requires forall j :: i < j < |opts| ==> !opts[j].WithTimestampFunc?
    ensures FoldOpts(o, opts).timestampFn == opts[i].fn
  {
    assert opts == opts[..i + 1] + opts[i + 1..];
    FoldOptsAppend(o, opts[..i + 1], opts[i + 1..]);
    assert opts[..i + 1] == opts[..i] + [opts[i]];
    FoldOptsSnoc(o, opts[..i], opts[i]);
    TimestampUntouched(FoldOpts(o, opts[..i + 1]), opts[i + 1..]);
  }

  /** Options that are not WithLevel leave the level alone. */
  lemma {:induction false} LevelUntouched(o: LogOpts, opts: seq<LogOptFunc>)
    requires forall j :: 0 <= j < |opts| ==> !opts[j].WithLevel?
    ensures FoldOpts(o, opts).level == o.level
    decreases |opts|
  {
    if opts != [] {
      LevelUntouched(ApplyOpt(o, opts[0]), opts[1..]);
    }
  }

  /** The last WithLevel given decides the recorded level. */
  lemma LastLevelWins(o: LogOpts, opts: seq<LogOptFunc>, i: nat)
    requires i < |opts| && opts[i].WithLevel?
    requires forall j :: i < j < |opts| ==> !opts[j].WithLevel?
    ensures FoldOpts(o, opts).level == opts[i].l
  {
    assert opts == opts[..i + 1] + opts[i + 1..];
    FoldOptsAppend(o, opts[..i + 1], opts[i + 1..]);
    assert opts[..i + 1] == opts[..i] + [opts[i]];
    FoldOptsSnoc(o, opts[..i], opts[i]);
    LevelUntouched(FoldOpts(o, opts[..i + 1]), opts[i + 1..]);
  }

  /** The writers passed with WithWr, in the order they were given. */
  function WritersOf(opts: seq<LogOptFunc>): seq<Sink>
    decreases |opts|
  {
    if opts == [] then []
    else (if opts[0].WithWr? then [opts[0].w] else []) + WritersOf(opts[1..])
  }

  /** WithWr only appends: the collected writers are the initial ones followed by the given ones, in call order. */
  lemma {:induction false} FoldOptsWriters(o: LogOpts, opts: seq<LogOptFunc>)
    ensures FoldOpts(o, opts).wr == o.wr + WritersOf(opts)
    decreases |opts|
  {
    if opts != [] {
      FoldOptsWriters(ApplyOpt(o, opts[0]), opts[1..]);
    }
  }

  /** Two option records that differ at most in their level. */
  predicate SameButLevel(x: LogOpts, y: LogOpts) {
    x.cfg == y.cfg && x.wr == y.wr && x.timestampFn == y.timestampFn
  }

  lemma {:induction false} FoldOptsSameButLevel(x: LogOpts, y: LogOpts, opts: seq<LogOptFunc>)
    requires SameButLevel(x, y)
    ensures SameButLevel(FoldOpts(x, opts), FoldOpts(y, opts))
    decreases |opts|
  {
    if opts != [] {
      FoldOptsSameButLevel(ApplyOpt(x, opts[0]), ApplyOpt(y, opts[0]), opts[1..]);
    }
  }

  /** The options record InitLog starts from. */
  function DefaultOpts(): (o: LogOpts)
    ensures o.cfg == NewXLogCfg() && o.wr == [] && o.level == DebugLevel && o.timestampFn == UtcFn
  {
    LogOpts(NewXLogCfg(), [], DebugLevel, UtcFn)
  }

  /** With no options the defaults stand. */
  lemma DefaultOptsStand()
    ensures BindResult([]) == DefaultOpts()
  {
  }

  function BindResult(opts: seq<LogOptFunc>): LogOpts {
    FoldOpts(DefaultOpts(), opts)
  }

  const TimeFieldFormat: string := "2006-01-02T15:04:05.999Z"

  /**
   * setLog: the level handed to SetGlobalLevel. The configured int is first
   * converted to zerolog's int8 Level; a converted value above Disabled
   * becomes Trace, any other passes through. So the installed level never
   * exceeds Disabled, and within int8 range only levels above Disabled change.
   */
  function SetLog(level: int): (l: int)
    ensures -128 <= l <= Disabled
    ensures -128 <= level <= Disabled ==> l == level
    ensures Disabled < level < 128 ==> l == TraceLevel
  {
    var l := ToInt8(level);
    if l > Disabled then TraceLevel else l
  }

  /** Levels outside int8 wrap before the clamp: 263 disables logging, 256 is Debug, -129 becomes Trace. */
  lemma SetLogWrapsOutsideInt8()
    ensures SetLog(263) == Disabled && SetLog(256) == DebugLevel && SetLog(-129) == TraceLevel
  {
  }

  /** Only the low eight bits of the configured level matter: levels 256 apart install the same level. */
  lemma SetLogLowByte(level: int, k: int)
    ensures SetLog(level + 256 * k) == SetLog(level)
  {
    var m := 256 * k;
    assert m % 256 == 0;
    assert (level + m + 128) % 256 == (level + 128) % 256;
  }

  /**
   * The caller marshaller refineFileCaller installs: the file path after
   * its last '/', a colon, then the line number in decimal.
   */
  function MarshalCaller(file: string, line: int): (r: string)
    ensures r == LastSegment(file, '/') + ":" + Itoa(line)
  {
    var lst := Split(file, '/');
    LastPieceIsLastSegment(file, '/');
    Last(lst) + ":" + Itoa(line)
  }

  /** A file name with no '/' is kept as it is. */
  lemma MarshalCallerWithoutSlash(file: string, line: int)
    requires '/' !in file
    ensures MarshalCaller(file, line) == file + ":" + Itoa(line)
  {
    LastSegmentWithoutSep(file, '/');
  }

  lemma NoColonInItoa(n: int)
    ensures ':' !in Itoa(n)
  {
  }

  /** The line number can be read back from the text after the last ':'. */
  lemma MarshalCallerLineRoundTrip(file: string, line: int)
    ensures ParseInt(LastSegment(MarshalCaller(file, line), ':')) == Some(line)
  {
    NoColonInItoa(line);
    LastSegmentAfterSep(LastSegment(file, '/'), ':', Itoa(line));
    assert LastSegment(file, '/') + ":" + Itoa(line) == LastSegment(file, '/') + [':'] + Itoa(line);
    ItoaRoundTrip(line);
  }

  /** Whatever directories lead to a file, only its name is kept ("a/b/c/file.go" gives "file.go:<line>"). */
  lemma MarshalCallerDropsDirectories(dir: string, name: string, line: int)
    requires '/' !in name
    ensures MarshalCaller(dir + "/" + name, line) == name + ":" + Itoa(line)
  {
    assert dir + "/" + name == dir + ['/'] + name;
    LastSegmentAfterSep(dir, '/', name);
  }

  lemma NoSlashInItoa(n: int)
    ensures '/' !in Itoa(n)
  {
  }

  lemma NotInConcat(a: string, b: string, c: char)
    requires c !in a && c !in b
    ensures c !in a + b
  {
  }

  /** The console caller formatter leaves a marshalled caller as it is. */
  lemma FormatCallerKeepsMarshalled(file: string, line: int)
    ensures FormatCaller(MarshalCaller(file, line)) == MarshalCaller(file, line)
  {
    var a := LastSegment(file, '/');
    NoSlashInItoa(line);
    NotInConcat(a, ":", '/');
    NotInConcat(a + ":", Itoa(line), '/');
    LastSegmentWithoutSep(a + ":" + Itoa(line), '/');
  }

  /**
   * What an installed caller marshaller makes of a call site; the library's
   * own format is not modelled (None).
   */
  function CallerText(m: CallerMarshal, file: string, line: int): Option<string> {
    match m
    case LibraryDefault => None
    case BaseNameAndLine => Some(MarshalCaller(file, line))
  }

  /** refineFileCaller: installs the trimmed file:line marshaller. */
  method RefineFileCaller(g: Process)
    modifies g`callerMarshal
    ensures g.callerMarshal == BaseNameAndLine
  {
    g.callerMarshal := BaseNameAndLine;
  }

  /**
   * The rotation configuration InitLog derives from the configuration:
   * flags, file name and limits copied, the directory after path expansion
   * (`expandPath` stands for the foreign path expander), NoColor left false.
   */
  function ToRotateConfig(lc: XLogCfg, expandPath: string -> string): (rc: RotateConfig)
    ensures rc.consoleLoggingEnabled == lc.logToConsole
    ensures rc.encodeLogsAsJson == lc.asJson
    ensures rc.fileLoggingEnabled == lc.logToFile
    ensures rc.directory == expandPath(lc.saveToDir) && rc.filename == lc.fileName
    ensures rc.maxSize == lc.maxSize && rc.maxBackups == lc.maxBackups && rc.maxAge == lc.maxAge
    ensures !rc.noColor
  {
    RotateConfig(
      consoleLoggingEnabled := lc.logToConsole,
      encodeLogsAsJson := lc.asJson,
      fileLoggingEnabled := lc.logToFile,
      directory := expandPath(lc.saveToDir),
      filename := lc.fileName,
      maxSize := lc.maxSize,
      maxBackups := lc.maxBackups,
      maxAge := lc.maxAge,
      noColor := false)
  }

  /** The globals InitLog leaves behind, as a function of its options. */
  function InitLogResult(opts: seq<LogOptFunc>, expandPath: string -> string): Installed {
    var opt := BindResult(opts);
    var lc := opt.cfg;
    var lcf := ToRotateConfig(lc, expandPath);
    var writers := Writers(lcf, lc.caller, lc.defaultCaller) + opt.wr;
    Installed(
      globalLevel := SetLog(lc.level),
      timeFieldFormat := TimeFieldFormat,
      timestampFn := opt.timestampFn,
      callerMarshal := BaseNameAndLine,
      noColor := lcf.noColor,
      logger := Configure(lcf, lc.caller, writers))
  }

  /** InitLog: binds the options over the defaults and installs the globals step by step. */
  method InitLog(g: Process, opts: seq<LogOptFunc>, expandPath: string -> string)
    modifies g
    ensures g.Snapshot() == InitLogResult(opts, expandPath)
  {
    var cf := NewXLogCfg();
    var opt := LogOpts(cfg := cf, wr := [], level := DebugLevel, timestampFn := UtcFn);
    opt := BindLogOpts(opt, opts);

    var lc := opt.cfg;
    var wr := opt.wr;

    g.timeFieldFormat := TimeFieldFormat;
    g.timestampFn := opt.timestampFn;
    g.globalLevel := SetLog(lc.level);

    var lcf := ToRotateConfig(lc, expandPath);

    RefineFileCaller(g);

    var writers := NewWriters(g, lcf, lc.caller, lc.defaultCaller);
    if |wr| != 0 {
      writers := writers + wr;
    }

    g.logger := Configure(lcf, lc.caller, writers);
  }

  /**
   * With no options InitLog installs level 0 and UTC timestamps, and the
   * logger writes to the console with the caller formatter and then to
   * ~/tmp/xkitlog/xkit_log.log rolled at 10 MB, adding caller and timestamp.
   */
  lemma InitLogDefaults(expandPath: string -> string)
    ensures var s := InitLogResult([], expandPath);
      && s.globalLevel == DebugLevel
      && s.timestampFn == UtcFn
      && s.callerMarshal == BaseNameAndLine
      && !s.noColor
      && s.logger.caller && s.logger.timestamp && s.logger.hooks == []
      && s.logger.out == [ConsoleCustom(true, false), RollingFile(expandPath(DefaultSaveToDir), DefaultFileName, 10, 0, 0)]
  {
    var rc := ToRotateConfig(NewXLogCfg(), expandPath);
    var w := Writers(rc, true, false);
    assert w == [ConsoleCustom(true, false), NewRollingFile(rc)];
  }

  /** The writers given with WithWr come after the built-in ones, in call order. */
  lemma InitLogExtraWritersLast(opts: seq<LogOptFunc>, expandPath: string -> string)
    ensures var lc := BindResult(opts).cfg;
      InitLogResult(opts, expandPath).logger.out
        == Writers(ToRotateConfig(lc, expandPath), lc.caller, lc.defaultCaller) + WritersOf(opts)
  {
    FoldOptsWriters(DefaultOpts(), opts);
  }

  /** WithLevel is recorded but never read: inserting one anywhere changes nothing InitLog installs. */
  lemma InitLogIgnoresWithLevel(opts: seq<LogOptFunc>, i: nat, l: int, expandPath: string -> string)
    requires i <= |opts|
    ensures InitLogResult(opts[..i] + [WithLevel(l)] + opts[i..], expandPath) == InitLogResult(opts, expandPath)
  {
    var o := DefaultOpts();
    var before := FoldOpts(o, opts[..i]);
    FoldOptsAppend(o, opts[..i] + [WithLevel(l)], opts[i..]);
    FoldOptsSnoc(o, opts[..i], WithLevel(l));
    FoldOptsAppend(o, opts[..i], opts[i..]);
    assert opts[..i] + opts[i..] == opts;
    FoldOptsSameButLevel(before.(level := l), before, opts[i..]);
  }

  /** The hooks applied left to right, each to the result of the previous one. */
  function ApplyHooks(l: Logger, hks: seq<Logger -> Logger>): Logger
    decreases |hks|
  {
    if hks == [] then l else ApplyHooks(hks[0](l), hks[1..])
  }

  lemma {:induction false} ApplyHooksSnoc(l: Logger, hks: seq<Logger -> Logger>, h: Logger -> Logger)
    ensures ApplyHooks(l, hks + [h]) == h(ApplyHooks(l, hks))
    decreases |hks|
  {
    if hks == [] {
      assert [] + [h] == [h];
    } else {
      assert (hks + [h])[1..] == hks[1..] + [h];
      ApplyHooksSnoc(hks[0](l), hks[1..], h);
    }
  }

  /** AppendHooks: each hook is applied to the global logger in turn. */
  method AppendHooks(g: Process, hks: seq<Logger -> Logger>)
    modifies g`logger
    ensures g.logger == ApplyHooks(old(g.logger), hks)
  {
    for i := 0 to |hks|
      invariant g.logger == ApplyHooks(old(g.logger), hks[..i])
    {
      ApplyHooksSnoc(old(g.logger), hks[..i], hks[i]);
      assert hks[..i + 1] == hks[..i] + [hks[i]];
      g.logger := hks[i](g.logger);
    }
    assert hks[..|hks|] == hks;
  }

  /**
   * After InitLog, every writer of the installed logger shows a caller as
   * the trimmed file:line, whichever console writer defaultCaller chose.
   */
  lemma InitLogShowsTrimmedCaller(opts: seq<LogOptFunc>, expandPath: string -> string, file: string, line: int, k: nat)
    requires k < |InitLogResult(opts, expandPath).logger.out|
    ensures var s := InitLogResult(opts, expandPath);
      && CallerText(s.callerMarshal, file, line) == Some(LastSegment(file, '/') + ":" + Itoa(line))
      && ShownCaller(s.logger.out[k], MarshalCaller(file, line)) == MarshalCaller(file, line)
  {
    FormatCallerKeepsMarshalled(file, line);
  }

  /** AsJson is copied into the rotation configuration but never read: it changes nothing InitLog installs. */
  lemma InitLogIgnoresAsJson(opts: seq<LogOptFunc>, c: XLogCfg, b: bool, expandPath: string -> string)
    ensures InitLogResult(opts + [WithCfg(c)], expandPath) == InitLogResult(opts + [WithCfg(c.(asJson := b))], expandPath)
  {
    FoldOptsSnoc(DefaultOpts(), opts, WithCfg(c));
    FoldOptsSnoc(DefaultOpts(), opts, WithCfg(c.(asJson := b)));
  }
}
