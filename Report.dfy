/**
 * What one scan leaves behind: lines appended to the log file, desktop
 * notifications and console summaries, as a trace of events. Timestamps,
 * the log file itself and the platform notification calls are not modelled.
 */
module Report {

  /** The levels the core logs at. */
  datatype Level = Info | Warning

  /** The log messages the core writes, with the values they interpolate. */
  datatype Entry =
    | AnalysisStarted
    | InvalidAllowlistLine(text: string)
    | AllowlistLoaded(path: string, total: nat)
    | AllowlistMissing(path: string)
    | SuspiciousConnection(port: int, line: string)
    | NoSuspiciousPorts

  /** The console summary printed at the end of an analysis. */
  datatype Summary = NoneFound | Found(count: nat)

  datatype Event =
    | Log(level: Level, entry: Entry)
      /** "Porta Suspeita Detectada": the connection on `port` may be a risk. */
    | Notify(port: int)
    | Console(summary: Summary)
}
