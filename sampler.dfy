/**
 * The home screen's memory readout: `updateSystemStats` turns one memory
 * query into a used/total readout, a percentage with one decimal and a
 * colour band, and `startSystemMonitoring` / `stopSystemMonitoring` keep at
 * most one interval timer that repeats the sample.
 */
module Sampler {
  import opened Results
  import opened Logging

  /** What `Neutralino.computer.getMemoryInfo` reports, in bytes. */
  datatype MemoryInfo = MemoryInfo(total: nat, available: nat)

  /** The progress bar colour: primary, warning or error. */
  datatype Band = Normal | Warning | Critical

  /** What the readout shows after a successful sample. */
  datatype Readout = Readout(used: int, total: nat, percent: Option<int>, band: Band)

  function Used(m: MemoryInfo): int {
    m.total - m.available
  }

  /**
   * `((used / total) * 100).toFixed(1)` in tenths of a percent: the integer
   * nearest to `1000 * used / total`, a tie going away from zero as
   * `toFixed` rounds the magnitude.
   */
  function RoundTenths(used: int, total: nat): (t: int)
    requires total > 0
    ensures used >= 0 ==> t >= 0 && 2 * total * t <= 2000 * used + total < 2 * total * (t + 1)
    ensures used < 0 ==> t <= 0 && 2 * total * -t <= 2000 * -used + total < 2 * total * (-t + 1)
  {
    var magnitude := if used >= 0 then used else -used;
    var q := (2000 * magnitude + total) / (2 * total);
    if used >= 0 then q else -q
  }

  /** The percentage shown, in tenths; None when `total` is 0 and the division gives no number. */
  function PercentTenths(m: MemoryInfo): Option<int> {
    if m.total == 0 then None else Some(RoundTenths(Used(m), m.total))
  }

  /** The strict thresholds on the rounded percentage: above 90 is critical, above 70 a warning. */
  function BandOf(percent: Option<int>): Band {
    match percent
    case None => Normal
    case Some(t) => if t > 900 then Critical else if t > 700 then Warning else Normal
  }

  function ReadoutOf(m: MemoryInfo): Readout {
    Readout(Used(m), m.total, PercentTenths(m), BandOf(PercentTenths(m)))
  }

  /** The readout after one sample: the new values, or the old ones when the query failed. */
  function Sampled(readout: Option<Readout>, query: Outcome<MemoryInfo>): Option<Readout> {
    match query
    case Ok(m) => Some(ReadoutOf(m))
    case Err(_) => readout
  }

  /** The console lines one sample writes: one error line when the query failed, none otherwise. */
  function SampleLog(query: Outcome<MemoryInfo>): seq<LogLine> {
    match query
    case Ok(_) => []
    case Err(m) => [LogLine(Error, "Error updating system stats: " + m)]
  }

  /** With `d > 0` and `a >= 0`, `a / d` reaches `k` exactly when `a` reaches `k * d`. */
  lemma DivReaches(a: int, d: int, k: int)
    requires a >= 0 && d > 0 && k >= 0
    ensures a / d >= k <==> a >= k * d
  {
    var q := a / d;
    assert d * q <= a < d * q + d;
    if q >= k {
      assert d * q >= d * k;
    } else {
      assert d * (q + 1) <= d * k;
    }
  }

  /**
   * In exact arithmetic the bar turns red exactly when `used` is at least
   * 90.05% of `total` (the source's floating-point quotient can fall just
   * below such a tie).
   */
  lemma CriticalExactly(m: MemoryInfo)
    requires m.total > 0
    ensures BandOf(PercentTenths(m)) == Critical <==> 2000 * Used(m) >= 1801 * m.total
  {
    var u := Used(m);
    if u >= 0 {
      DivReaches(2000 * u + m.total, 2 * m.total, 901);
    }
  }

  /** In exact arithmetic the bar turns amber exactly when `used` is at least 70.05% and below 90.05% of `total`. */
  lemma WarningExactly(m: MemoryInfo)
    requires m.total > 0
    ensures BandOf(PercentTenths(m)) == Warning <==> 1401 * m.total <= 2000 * Used(m) < 1801 * m.total
  {
    var u := Used(m);
    if u >= 0 {
      DivReaches(2000 * u + m.total, 2 * m.total, 901);
      DivReaches(2000 * u + m.total, 2 * m.total, 701);
    }
  }

  /**
   * The boundaries are strict: exactly 70.0% stays normal, exactly 90.0% is
   * only a warning, and 90.06% shows as 90.1 and is critical.
   */
  lemma BoundariesAreStrict()
    ensures PercentTenths(MemoryInfo(1000, 300)) == Some(700) && BandOf(Some(700)) == Normal
    ensures PercentTenths(MemoryInfo(1000, 100)) == Some(900) && BandOf(Some(900)) == Warning
    ensures PercentTenths(MemoryInfo(10000, 994)) == Some(901) && BandOf(Some(901)) == Critical
  {
  }

  /** An empty or unreadable total shows no number and the normal colour. */
  lemma NoTotalIsNormal(m: MemoryInfo)
    requires m.total == 0
    ensures PercentTenths(m).None? && ReadoutOf(m).band == Normal
  {
  }

  /** A failed query leaves whatever was displayed before, and logs one line. */
  lemma FailedSampleKeepsReadout(readout: Option<Readout>, message: string)
    ensures Sampled(readout, Err(message)) == readout
    ensures |SampleLog(Err(message))| == 1
  {
  }

  // ---------------------------------------------------------------- timers

  /**
   * The interval timers: the handle kept in `monitoringInterval` (None for
   * `null`), the handles the host still has running, and the handle the host
   * will give the next `setInterval`.
   */
  datatype Timers = Timers(interval: Option<nat>, running: set<nat>, next: nat)

  /** The field names every running timer, and the host has issued every handle below `next`. */
  ghost predicate Tracked(s: Timers) {
    && s.running == (if s.interval.Some? then {s.interval.value} else {})
    && (forall h :: h in s.running ==> h < s.next)
  }

  /** `startSystemMonitoring`'s guard: a new timer only when the field is empty. */
  function StartTimers(s: Timers): Timers {
    if s.interval.None? then Timers(Some(s.next), s.running + {s.next}, s.next + 1) else s
  }

  /** `stopSystemMonitoring`: the timer cleared and the field emptied, if there is one. */
  function StopTimers(s: Timers): Timers {
    match s.interval
    case Some(h) => Timers(None, s.running - {h}, s.next)
    case None => s
  }

  datatype Call = Start | Stop

  function Apply(s: Timers, call: Call): Timers {
    match call
    case Start => StartTimers(s)
    case Stop => StopTimers(s)
  }

  /** The timers after a sequence of calls, first call first. */
  function Run(s: Timers, calls: seq<Call>): Timers
    decreases |calls|
  {
    if calls == [] then s else Run(Apply(s, calls[0]), calls[1..])
  }

  /** Each call keeps the field and the running timers in step. */
  lemma CallKeepsTracked(s: Timers, call: Call)
    requires Tracked(s)
    ensures Tracked(Apply(s, call))
  {
    if call == Start && s.interval.None? {
      var t := StartTimers(s);
      assert t.running == {s.next};
    }
  }

  /** After any sequence of starts and stops at most one timer runs, and it is the one in the field. */
  lemma {:induction false} AtMostOneTimer(s: Timers, calls: seq<Call>)
    requires Tracked(s)
    ensures Tracked(Run(s, calls))
    ensures |Run(s, calls).running| <= 1
    decreases |calls|
  {
    if calls != [] {
      CallKeepsTracked(s, calls[0]);
      AtMostOneTimer(Apply(s, calls[0]), calls[1..]);
    } else {
      if s.interval.Some? {
        assert s.running == {s.interval.value};
      }
    }
  }

  /** Starting twice creates no second timer; stopping twice clears nothing more. */
  lemma StartStopIdempotent(s: Timers)
    ensures StartTimers(StartTimers(s)) == StartTimers(s)
    ensures StopTimers(StopTimers(s)) == StopTimers(s)
  {
  }

  /** After a stop nothing runs, whatever came before. */
  lemma StopClearsAll(s: Timers)
    requires Tracked(s)
    ensures StopTimers(s).interval.None? && StopTimers(s).running == {}
  {
  }

  // ---------------------------------------------------------------- the monitor

  /** The monitoring part of the application object. */
  class Monitor {
    const console: Console
    var readout: Option<Readout>
    var timers: Timers

    ghost predicate Valid()
      reads this
    {
      Tracked(timers)
    }

    constructor (console: Console)
      ensures Valid() && this.console == console
      ensures readout == None && timers == Timers(None, {}, 1)
    {
      this.console := console;
      readout := None;
      timers := Timers(None, {}, 1);
    }

    /** `updateSystemStats`, given what the memory query returned. */
    method UpdateSystemStats(query: Outcome<MemoryInfo>)
      modifies this, console
      ensures readout == Sampled(old(readout), query) && timers == old(timers)
      ensures console.lines == old(console.lines) + SampleLog(query)
    {
      match query
      case Ok(m) =>
        var used := m.total - m.available;
        var percent := if m.total == 0 then None else Some(RoundTenths(used, m.total));
        var band := Normal;
        match percent {
          case Some(t) =>
            if t > 900 {
              band := Critical;
            } else if t > 700 {
              band := Warning;
            }
          case None =>
        }
        readout := Some(Readout(used, m.total, percent, band));
      case Err(message) =>
        console.Log(Error, "Error updating system stats: " + message);
    }

    /** `startSystemMonitoring`: one sample straight away, then a timer unless one is already set. */
    method StartSystemMonitoring(query: Outcome<MemoryInfo>)
      requires Valid()
      modifies this, console
      ensures Valid()
      ensures readout == Sampled(old(readout), query)
      ensures console.lines == old(console.lines) + SampleLog(query)
      ensures timers == StartTimers(old(timers))
    {
      UpdateSystemStats(query);
      if timers.interval.None? {
        var handle := timers.next;
        timers := Timers(Some(handle), timers.running + {handle}, handle + 1);
        CallKeepsTracked(old(timers), Start);
      }
    }

    /** `stopSystemMonitoring`: clears the timer and empties the field; nothing else. */
    method StopSystemMonitoring()
      requires Valid()
      modifies this
      ensures Valid()
      ensures readout == old(readout)
      ensures timers == StopTimers(old(timers))
    {
      match timers.interval {
        case Some(handle) =>
          timers := Timers(None, timers.running - {handle}, timers.next);
        case None =>
      }
    }

    /** What the running timer does every two seconds: one more sample. */
    method Tick(query: Outcome<MemoryInfo>)
      requires Valid() && timers.interval.Some?
      modifies this, console
      ensures Valid()
      ensures readout == Sampled(old(readout), query) && timers == old(timers)
      ensures console.lines == old(console.lines) + SampleLog(query)
    {
      UpdateSystemStats(query);
    }
  }
}
