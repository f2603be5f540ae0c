/** The console pane that `log(message, type)` appends to. Timestamps and markup are not modelled. */
module Logging {
  /** The `type` argument of `log`: the class the line is shown with. */
  datatype Level = Info | Success | Error

  datatype LogLine = LogLine(level: Level, text: string)

  class Console {
    var lines: seq<LogLine>

    constructor ()
      ensures lines == []
    {
      lines := [];
    }

    /** `log(message, type)`: one more line at the end, nothing else changes. */
    method Log(level: Level, text: string)
      modifies this
      ensures lines == old(lines) + [LogLine(level, text)]
    {
      lines := lines + [LogLine(level, text)];
    }
  }
}
