/** The user-facing configuration record and its defaults. */
module Cfg {

  /**
   * XLogCfg. `caller` turns caller annotation on; `defaultCaller` asks
   * for the console writer without the package's caller formatter. The
   * caller text that writer shows is still the trimmed file:line, because
   * InitLog installs the trimmed caller marshaller before it builds the
   * writers, and the formatter changes nothing on trimmed text.
   */
  datatype XLogCfg = XLogCfg(
    level: int,
    caller: bool,
    defaultCaller: bool,
    logToConsole: bool,
    logToFile: bool,
    asJson: bool,
    maxSize: int,
    maxBackups: int,
    maxAge: int,
    saveToDir: string,
    fileName: string)

  const DefaultSaveToDir: string := "~/tmp/xkitlog"
  const DefaultFileName: string := "xkit_log.log"

  /**
   * NewXLogCfg: level 0, caller annotation on with the short caller
   * formatter, console and file output on, JSON on, files rolled at 10 MB
   * with no age or backup limit, under ~/tmp/xkitlog/xkit_log.log.
   */
  function NewXLogCfg(): (c: XLogCfg)
    ensures c.level == 0
    ensures c.caller && !c.defaultCaller
    ensures c.logToConsole && c.logToFile && c.asJson
    ensures c.maxSize == 10 && c.maxAge == 0 && c.maxBackups == 0
    ensures c.saveToDir == DefaultSaveToDir && c.fileName == DefaultFileName
  {
    XLogCfg(
      level := 0,
      caller := true,
      defaultCaller := false,
      logToConsole := true,
      logToFile := true,
      asJson := true,
      maxSize := 10,
      maxBackups := 0,
      maxAge := 0,
      saveToDir := DefaultSaveToDir,
      fileName := DefaultFileName)
  }
}
