# xlog, modelled in Dafny

xlog is a small Go package that sets up zerolog for a program. `InitLog`
applies functional options over a default configuration. It then installs
zerolog's globals:

- the global level, clamped by `setLog`;
- the time field format;
- the timestamp function;
- a caller marshaller that keeps only `file:line` after the last `/`.

Next it builds the writers from the configuration. That means a console
writer (optionally with a caller formatter) and a rolling log file, with
any writers the caller passed appended. It installs a logger over them
that adds a timestamp and, optionally, the caller. `AppendHooks` then runs
logger transformers such as `WithFuncNameHook` over the global logger. That
hook adds the short name of the calling function to every event.

The model has one module per source file, plus four shared modules:

- `Cfg` for `cfg.go`, `Hooks` for `hooks.go`, `RotateFileLog` for
  `rotate_file_log.go` and `Xlog` for `xlog.go`.
- `Wrappers` holds the `Option` type. It carries the answer of the stack
  lookup that the function-name hook receives, and the caller text of an
  installed caller marshaller.
- `Text` holds Go's `strings.Split`, `strings.Join` and `strconv.Itoa`.
  Each comes with its partner: the round trip of split and join, and a
  decimal parser.
- `Zerolog` holds the library values the package hands over: the levels,
  int8 truncation, writers ("sinks"), the logger and events.
- `Globals` holds a class `Process` whose fields are the process-wide
  globals that `InitLog`, `newWriters` and `AppendHooks` assign.

Functions that compute a value stay functions. Code that assigns globals
step by step becomes methods on `Process`:

- `InitLog`, `refineFileCaller`, `newWriters` and `AppendHooks` are methods
  on `Process`.
- Each is proved against a function that describes the resulting state.
- The loop in `bindLogOpts` is a loop with an invariant. It is proved
  equal to a left fold of the options.

## Model

| member | source | states |
|---|---|---|
| Text.Split | hooks.go:24 | `strings.Split` with a one-character separator; never returns zero pieces |
| Text.Join | hooks.go:30 | `strings.Join`: the result starts with the first part, and for separator-free parts the separator occurs exactly `\|parts\| - 1` times; `Text.SplitJoin` pins down the layout |
| Text.SplitCount | xlog.go:114 | `strings.Split` on one separator gives one piece more than the separator occurs, so never zero pieces |
| Text.SplitPieceFree | hooks.go:24 | no piece of a split contains the separator |
| Text.JoinSplit | hooks.go:24-30 | joining the pieces of a split with the same separator gives back the original string |
| Text.SplitJoin | hooks.go:24-30 | splitting a join of separator-free pieces (at least one) gives back exactly those pieces |
| Text.LastSegment | xlog.go:114-115 | the text after the last separator: holds no separator, is a suffix of the input, and is either the whole input or preceded by the separator |
| Text.LastPieceIsLastSegment | xlog.go:114-115 | the last piece of a split is the text after the last separator |
| Text.LastSegmentUnique | xlog.go:114-115 | any separator-free suffix that is the whole string or sits right after a separator is the last segment |
| Text.LastSegmentIdempotent | hooks.go:24-30 | taking the last segment twice equals taking it once |
| Text.LastSegmentAfterSep | xlog.go:114-115 | for `a + sep + b` with `b` free of `sep`, the last segment is `b` |
| Text.Itoa | xlog.go:116 | decimal text: non-empty, a leading '-' exactly for negative numbers, digits otherwise, no leading zero |
| Text.ItoaRoundTrip | xlog.go:116 | parsing the decimal text of any int gives the int back |
| Zerolog.ToInt8 | xlog.go:105 | Go's int to int8 conversion: the result lies in [-128, 127] and is congruent to the input modulo 256 |
| Zerolog.Hook | hooks.go:38 | a logger's Hook adds the hook after the existing ones and keeps its writers, caller and timestamp settings |
| Cfg.NewXLogCfg | cfg.go:20-36 | the default configuration: level 0, caller on, short caller, console, file and JSON on, 10 MB files, no age or backup limit, `~/tmp/xkitlog/xkit_log.log` |
| Hooks.ShortFuncName | hooks.go:23-31 | keeping the last piece of the name split on '.' gives the text after the last '.', which holds no '.' |
| Hooks.ShortFuncNameWithoutDot | hooks.go:23-31 | a name without '.' is kept unchanged |
| Hooks.ShortFuncNameIdempotent | hooks.go:23-31 | shortening a short name changes nothing |
| Hooks.ShortFuncNameOfMethod | hooks.go:23-31 | `pkg.(*T).Method` is shortened to `Method` |
| Hooks.FuncName | hooks.go:17-34 | a failed stack lookup leaves the event alone; otherwise exactly one field `caller_fn` holding the short name is added after the existing ones |
| Hooks.FuncNameHookAddsShortName | hooks.go:17-34 | the installed function-name hook, run on an event after a successful lookup, adds `caller_fn` with the text after the last '.' after the existing fields |
| Hooks.WithFuncNameHookRunsLast | hooks.go:36-40 | the hook that `WithFuncNameHook` adds is the function-name hook, and it comes after every hook the logger already had |
| Hooks.WithFuncNameHook | hooks.go:36-40 | the returned transformer appends the function-name hook to any logger and changes nothing else |
| RotateFileLog.FormatCaller | rotate_file_log.go:56-59 | the console caller text is the part after the last '/', which holds no '/' |
| RotateFileLog.NewRollingFile | rotate_file_log.go:106-116 | the rolling file takes its directory, name, size, backup and age limits unchanged from the configuration |
| RotateFileLog.Writers | rotate_file_log.go:51-80 | there is a console writer exactly when console logging is on, and it comes first. It is built by the default-caller branch exactly when the default caller is asked for, and otherwise carries the caller formatter exactly when caller is on; without the formatter both branches give writers that show the caller alike. There is a rolling file exactly when file logging is on, and it comes last |
| RotateFileLog.NewWriters | rotate_file_log.go:51-80 | sets the global NoColor from the configuration and returns the writer list described by `Writers` |
| RotateFileLog.Configure | rotate_file_log.go:82-104 | the logger writes to the given writers, always adds a timestamp, adds the caller exactly when `mode` is on, and carries none of this package's hooks yet |
| Xlog.ApplyOpt | xlog.go:32-54 | each option sets only its own field, and `WithWr` appends its writer at the end |
| RotateFileLog.ConsoleWithoutFormatterIsPlain | rotate_file_log.go:60-75 | a console writer without the caller formatter shows the caller as the default-caller writer does |
| Xlog.BindLogOpts | xlog.go:26-30 | the loop applies the options in the order given: the result is the left fold of the options over the starting record |
| Xlog.FoldOptsAppend | xlog.go:26-30 | applying `a + b` equals applying `a` and then `b` |
| Xlog.LastCfgWins | xlog.go:32-36 | after binding, the configuration is the one of the last `WithCfg` given |
| Xlog.FoldOptsWriters | xlog.go:38-42 | after binding, the writers are the starting ones followed by every `WithWr` writer in call order |
| Xlog.LastTimestampWins | xlog.go:44-48 | after binding, the timestamp function is the one of the last `WithTimestampFunc` given |
| Xlog.LastLevelWins | xlog.go:50-54 | after binding, the recorded level is the one of the last `WithLevel` given |
| Xlog.DefaultOpts | xlog.go:67-69 | the starting options: the default configuration, no extra writers, Debug level, UTC timestamps |
| Xlog.SetLog | xlog.go:104-110 | the installed level is at most Disabled. An int8-range level up to Disabled passes unchanged. An int8-range level above Disabled becomes Trace |
| Xlog.SetLogLowByte | xlog.go:104-110 | only the low eight bits of the configured level matter: levels 256 apart install the same level, which with the int8-range clauses of `Xlog.SetLog` fixes the installed level for every input |
| Xlog.SetLogWrapsOutsideInt8 | xlog.go:104-110 | levels outside int8 wrap before the clamp: 263 gives Disabled, 256 gives Debug, -129 gives Trace |
| Xlog.MarshalCaller | xlog.go:113-117 | the marshalled caller is the file name after its last '/', a ':', then the line in decimal |
| Xlog.MarshalCallerWithoutSlash | xlog.go:113-117 | a file name without '/' is kept whole in front of `:line` |
| Xlog.MarshalCallerLineRoundTrip | xlog.go:113-117 | the line number can be read back from the text after the last ':' |
| Xlog.MarshalCallerDropsDirectories | xlog.go:113-117 | `dir/name` marshals to `name:line` whatever the directories are |
| Xlog.FormatCallerKeepsMarshalled | rotate_file_log.go:56-59 | the console caller formatter leaves the text of the trimmed caller marshaller unchanged |
| Xlog.InitLogShowsTrimmedCaller | xlog.go:92-97 | after `InitLog` the installed marshaller gives `base:line`, and every writer receives that text, and none of the package's writers changes it, whichever console writer `DefaultCaller` chose |
| Xlog.InitLogIgnoresAsJson | xlog.go:81-100 | `AsJson` is copied into the rotation configuration but never read: changing it changes nothing `InitLog` installs |
| Xlog.RefineFileCaller | xlog.go:112-118 | installs the trimmed `file:line` caller marshaller |
| Xlog.ToRotateConfig | xlog.go:81-90 | the rotation configuration copies the console, JSON and file flags, the file name and the limits, expands the directory, and leaves NoColor false |
| Xlog.InitLog | xlog.go:66-102 | the globals after the call: time format, timestamp function, clamped level, trimmed caller marshaller, NoColor, and a logger over the built-in writers followed by the extra ones |
| Xlog.InitLogDefaults | xlog.go:66-102 | with no options: Debug level, UTC timestamps, caller and timestamp on, and output to the console with the caller formatter, then to `~/tmp/xkitlog/xkit_log.log` rolled at 10 MB |
| Xlog.InitLogExtraWritersLast | xlog.go:94-97 | the logger writes to the built-in writers followed by the `WithWr` writers in call order |
| Xlog.InitLogIgnoresWithLevel | xlog.go:69-79 | `WithLevel` is recorded but never read: inserting one anywhere leaves every global `InitLog` installs unchanged |
| Xlog.ApplyHooksSnoc | xlog.go:120-124 | applying one more hook applies it to the result of the earlier ones |
| Xlog.AppendHooks | xlog.go:120-124 | the global logger becomes the result of applying the hooks in order to the old one |
| Globals.Process.constructor | xlog.go:75-79 | the globals start from any given snapshot |

## Left out

- The zap-based logger under `zlog/` is not part of this model.
- The runtime stack lookup (`runtime.Caller`, `runtime.FuncForPC`) is an input. `Hooks.FuncName` receives the function name found, or None when the lookup fails.
- Creating files and directories (`fsutil.MustCreateFile`), `path.Join` and log rotation (lumberjack) are left out. A rolling file is the record of its directory, name and limits.
- `fsutil.ExpandPath` is a function parameter `expandPath`.
- Writing and colouring are left out: the console writer's `TimeFormat`, the text the writers produce, and the green `color` wrapping in the caller formatter. `io.MultiWriter` is the sequence of writers.
- The `AsJson` flag chooses no encoding. It reaches only the trace message of `configure`, which is left out, and `Xlog.InitLogIgnoresAsJson` shows that it changes nothing else.
- `RotateFileLog.Configure`: zerolog implements the context's `Caller()` and `Timestamp()` by adding hooks of its own. The model records them as the logger's `caller` and `timestamp` flags, so its `hooks` list holds only the hooks this package adds, which run after zerolog's.
- The library's own caller marshaller (`LibraryDefault`) is not modelled; `Xlog.CallerText` gives no text for it.
- The stack-depth arithmetic of the hook (`zerolog.CallerSkipFrameCount + skip`) is part of the stack lookup, which is an input.
- `RotateFileLog.FormatCaller`: the `i.(string)` type assertion is taken as given. A non-string caller value, which panics in Go, is not modelled.
- `zerolog.ErrorStackMarshaler` is not modelled. Nothing in the package reads it back.
- The "logging configured" trace event that `configure` writes is not modelled.
- `LocalFn` and `UtcFn` read the clock. They are modelled as tags of the installed timestamp function, not as times.
- Hooks other than `funcName` are opaque `Logger -> Logger` functions.
- Nil options are not modelled: `WithCfg(nil)`, `WithWr(nil)` and `WithTimestampFunc(nil)`. The configuration, writers and timestamp function are values with no nil. So the model does not capture the panic that `WithCfg(nil)` causes in `InitLog`. Nor does it capture the later failures: a nil writer fails on the first write through `io.MultiWriter`, and a nil timestamp function fails on every event, since the timestamp is always added.
- Concurrent use of the globals is not modelled.
- `Hooks.ShortFuncName`: the trim count `n` is the constant 1 of the source. The `len(lst) < n` fallback is unreachable, because a split never has zero pieces. The model proves this instead of modelling the branch.
- `Xlog.SetLog`: the conversion to zerolog's int8 level is modelled as it is. So "above Disabled becomes Trace" is promised only for levels within the int8 range. Other levels wrap first, as `Xlog.SetLogLowByte` states; for example, 263 disables logging.
