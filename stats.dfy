/** stats.c: the system-wide statistics the sampler timer refreshes every
    500 ms (CPU usage, memory, uptime and load, timestamps). The contents
    of the /proc files and the clock readings are inputs; the static
    variables of read_cpu_stats and stats_timer_cb are fields of the
    Sampler. Floating-point values are modelled as reals. */
module Stats {
  import opened Text
  import opened Limits
  import opened Util
  import opened ProcStat

  /** The eight counters of the aggregate "cpu" line of /proc/stat. */
  datatype CpuCounters = CpuCounters(user: nat, nice: nat, system: nat, idle: nat, iowait: nat,
                                     irq: nat, softirq: nat, steal: nat)

  function IdleSum(c: CpuCounters): nat
  {
    c.idle + c.iowait
  }

  function TotalSum(c: CpuCounters): nat
  {
    c.user + c.nice + c.system + c.idle + c.iowait + c.irq + c.softirq + c.steal
  }

  /** The counters read from the "cpu" line. */
  const CPU_COUNTERS: nat := 8

  /** sscanf(line, "cpu %llu %llu %llu %llu %llu %llu %llu %llu") == 8, each
      conversion saturating at ULLONG_MAX. */
  function CpuLine(line: string): Option<CpuCounters>
  {
    if !StartsWith(line, "cpu") then None
    else
      match ScanU64List(line, |"cpu"|, CPU_COUNTERS)
      case None => None
      case Some(v) =>
        Some(CpuCounters(v[0], v[1], v[2], v[3], v[4], v[5], v[6], v[7]))
  }

  /** The static baseline of read_cpu_stats. */
  datatype CpuBaseline = CpuBaseline(prevIdle: nat, prevTotal: nat, initialized: bool)

  /** The reported usage and the baseline left for the next call. */
  datatype CpuResult = CpuResult(usage: real, baseline: CpuBaseline)

  /** 100 * (1 - idle/total): the non-idle share of the elapsed ticks. */
  function Usage(deltaIdle: nat, deltaTotal: nat): real
    requires deltaTotal > 0
  {
    100.0 * (1.0 - deltaIdle as real / deltaTotal as real)
  }

  /** The counters of /proc/stat's first line, when the file opens and the
      line parses. */
  function CpuReading(stat: FileRead): Option<CpuCounters>
  {
    if stat.Line? then CpuLine(stat.text) else None
  }

  /** read_cpu_stats: usage is 0 unless the first line of /proc/stat parses,
      a baseline exists, neither sum went down, and total time advanced; in
      that case it is the non-idle share of the elapsed time, in percent.
      Idle and total are summed in 64-bit unsigned arithmetic. */
  function CpuStep(b: CpuBaseline, reading: Option<CpuCounters>): CpuResult
  {
    if reading.None? then CpuResult(0.0, b)
    else
      var c := reading.value;
      var idle, total := WrapU64(IdleSum(c)), WrapU64(TotalSum(c));
      var next := CpuBaseline(idle, total, true);
      if !b.initialized || idle < b.prevIdle || total < b.prevTotal then CpuResult(0.0, next)
      else
        var deltaIdle, deltaTotal := idle - b.prevIdle, total - b.prevTotal;
        if deltaTotal > 0 then CpuResult(Usage(deltaIdle, deltaTotal), next)
        else CpuResult(0.0, next)
  }

  /** A failed read or parse reports 0 and keeps the baseline; a parsed line
      always becomes the new baseline, and the first one only records it. */
  lemma CpuStepBaseline(b: CpuBaseline, reading: Option<CpuCounters>)
    ensures reading.None? ==> CpuStep(b, reading) == CpuResult(0.0, b)
    ensures reading.Some? ==>
              CpuStep(b, reading).baseline ==
                CpuBaseline(WrapU64(IdleSum(reading.value)), WrapU64(TotalSum(reading.value)), true) &&
              (!b.initialized ==> CpuStep(b, reading).usage == 0.0)
  {
  }

  /** usage is the non-idle share of dt elapsed ticks of which di were idle,
      in percent: between 0 and 100, and usage * dt == 100 * (dt - di). */
  predicate IsShare(usage: real, di: int, dt: int)
  {
    0.0 <= usage <= 100.0 && usage * dt as real == 100.0 * (dt - di) as real
  }

  /** Between two readings in which no counter went down (and the sums did
      not wrap), the usage is the non-idle share of the elapsed ticks: it
      lies between 0 and 100 and satisfies
      usage * dTotal == 100 * (dTotal - dIdle). */
  lemma CpuUsageInRange(prev: CpuCounters, c: CpuCounters)
    requires TotalSum(c) < TWO_64
    requires prev.user <= c.user && prev.nice <= c.nice && prev.system <= c.system && prev.idle <= c.idle
    requires prev.iowait <= c.iowait && prev.irq <= c.irq && prev.softirq <= c.softirq && prev.steal <= c.steal
    ensures IsShare(CpuStep(CpuBaseline(IdleSum(prev), TotalSum(prev), true), Some(c)).usage,
                    IdleSum(c) - IdleSum(prev), TotalSum(c) - TotalSum(prev))
  {
    CountersGrow(prev, c);
    CpuStepShare(CpuBaseline(IdleSum(prev), TotalSum(prev), true), c);
  }

  /** Counters that do not go down raise idle time by no more than total time. */
  lemma CountersGrow(prev: CpuCounters, c: CpuCounters)
    requires prev.user <= c.user && prev.nice <= c.nice && prev.system <= c.system && prev.idle <= c.idle
    requires prev.iowait <= c.iowait && prev.irq <= c.irq && prev.softirq <= c.softirq && prev.steal <= c.steal
    ensures IdleSum(prev) <= IdleSum(c) && TotalSum(prev) <= TotalSum(c)
    ensures IdleSum(c) - IdleSum(prev) <= TotalSum(c) - TotalSum(prev)
  {
  }

  /** The measuring branch of CpuStep when idle time grew by no more than
      total time. */
  lemma CpuStepShare(b: CpuBaseline, c: CpuCounters)
    requires b.initialized && TotalSum(c) < TWO_64
    requires IdleSum(c) >= b.prevIdle && TotalSum(c) >= b.prevTotal
    requires IdleSum(c) - b.prevIdle <= TotalSum(c) - b.prevTotal
    ensures IsShare(CpuStep(b, Some(c)).usage, IdleSum(c) - b.prevIdle, TotalSum(c) - b.prevTotal)
  {
    CpuStepMeasures(b, c);
    var di: nat, dt: nat := IdleSum(c) - b.prevIdle, TotalSum(c) - b.prevTotal;
    if dt > 0 {
      ShareBounds(di, dt);
    }
    assert IsShare(CpuStep(b, Some(c)).usage, di, dt);
  }

  /** The measuring branch of CpuStep, for sums that do not wrap. */
  lemma CpuStepMeasures(b: CpuBaseline, c: CpuCounters)
    requires b.initialized && TotalSum(c) < TWO_64
    requires IdleSum(c) >= b.prevIdle && TotalSum(c) >= b.prevTotal
    ensures var dt := TotalSum(c) - b.prevTotal;
      CpuStep(b, Some(c)).usage == if dt > 0 then Usage(IdleSum(c) - b.prevIdle, dt) else 0.0
  {
    assert IdleSum(c) <= TotalSum(c);
    WrapU64Small(IdleSum(c));
    WrapU64Small(TotalSum(c));
  }

  /** 0 <= 100 * (1 - i/t) <= 100 when 0 <= i <= t and t > 0. */
  lemma ShareBounds(i: nat, t: nat)
    requires i <= t && t > 0
    ensures 0.0 <= Usage(i, t) <= 100.0 && Usage(i, t) * t as real == 100.0 * (t - i) as real
  {
    var q := i as real / t as real;
    assert q * t as real == i as real;
    assert q >= 0.0;
  }

  /** A non-idle counter that goes down while both sums still grow yields
      a negative usage: from user 10, idle 0 to user 5, idle 10 the idle
      time grows by 10 ticks of an elapsed 5, and the usage is -100. */
  lemma CpuUsageNegativeWhenBusyCounterFalls(b: CpuBaseline, c: CpuCounters)
    requires b.initialized && TotalSum(c) < TWO_64 && TotalSum(c) >= b.prevTotal
    requires IdleSum(c) - b.prevIdle > TotalSum(c) - b.prevTotal > 0
    ensures CpuStep(b, Some(c)).usage < 0.0
  {
    CpuStepMeasures(b, c);
    var di: nat, dt: nat := IdleSum(c) - b.prevIdle, TotalSum(c) - b.prevTotal;
    QuotientAboveOne(di, dt);
  }

  /** i / t > 1 when i > t > 0. */
  lemma QuotientAboveOne(i: nat, t: nat)
    requires i > t > 0
    ensures Usage(i, t) < 0.0
  {
    var q := i as real / t as real;
    assert q * t as real == i as real;
  }

  /** /proc/meminfo: the first MemTotal and the first MemAvailable value;
      both 0 when the file cannot be opened or the line is missing. */
  function MemTotal(meminfo: Option<seq<string>>): nat
  {
    if meminfo.None? then 0 else FirstKeyed(meminfo.value, "MemTotal:")
  }

  function MemAvailable(meminfo: Option<seq<string>>): nat
  {
    if meminfo.None? then 0 else FirstKeyed(meminfo.value, "MemAvailable:")
  }

  /** A line is never both a MemTotal and a MemAvailable line. */
  lemma MemKeysExclusive(line: string)
    ensures KeyedLong(line, "MemTotal:").Some? ==> KeyedLong(line, "MemAvailable:").None?
  {
    if KeyedLong(line, "MemTotal:").Some? {
      assert line[..9] == "MemTotal:";
      assert line[3] == 'T';
    }
  }

  /** /proc/uptime: the first of two numbers, or 0. */
  function Uptime(uptime: FileRead): (r: real)
    ensures r >= 0.0
  {
    if !uptime.Line? then 0.0
    else
      match ScanDecimalList(uptime.text, 0, 2)
      case Some(v) => v[0]
      case None => 0.0
  }

  /** /proc/loadavg: the three load averages when three numbers parse, all
      0 otherwise. */
  datatype Loads = Loads(load1: real, load5: real, load15: real)

  function LoadAverages(loadavg: FileRead): (r: Loads)
    ensures r.load1 >= 0.0 && r.load5 >= 0.0 && r.load15 >= 0.0
  {
    if !loadavg.Line? then Loads(0.0, 0.0, 0.0)
    else
      match ScanDecimalList(loadavg.text, 0, 3)
      case Some(v) => Loads(v[0], v[1], v[2])
      case None => Loads(0.0, 0.0, 0.0)
  }

  /** delta_ms of stats_timer_cb: the time since the previous tick, or 0 on
      the first tick (previous reading 0) and when the clock went back. */
  function DeltaMs(prevMonoMs: nat, nowMonoMs: nat): nat
  {
    if prevMonoMs != 0 && nowMonoMs >= prevMonoMs then nowMonoMs - prevMonoMs else 0
  }

  /** The deltas of consecutive ticks add up to the time between the first
      and the last, as long as the clock neither fails nor goes back. */
  lemma DeltaMsAdds(t0: nat, t1: nat, t2: nat)
    requires 0 < t0 <= t1 <= t2
    ensures DeltaMs(t0, t1) + DeltaMs(t1, t2) == DeltaMs(t0, t2)
  {
  }

  /** A tick whose clock read failed (0) reports no delta, and neither does
      the tick after it. */
  lemma DeltaMsAfterClockFailure(prev: nat, next: nat)
    ensures DeltaMs(prev, 0) == 0 && DeltaMs(0, next) == 0
  {
  }

  /** struct sys_stats */
  datatype SysStats = SysStats(cpuUsage: real, memTotalKb: nat, memAvailableKb: nat, uptimeS: real,
                               loads: Loads, timestampMs: nat, monotonicMs: nat, deltaMs: nat)

  /** The line loop of read_mem_stats: each line is tried as MemTotal and,
      failing that, as MemAvailable, until both have been seen. */
  method ScanMemInfo(lines: seq<string>) returns (total: nat, avail: nat)
    ensures total == FirstKeyed(lines, "MemTotal:") && avail == FirstKeyed(lines, "MemAvailable:")
  {
    total, avail := 0, 0;
    var gotTotal, gotAvail := false, false;
    var i := 0;
    while i < |lines|
      invariant 0 <= i <= |lines|
      invariant gotTotal ==> total == FirstKeyed(lines, "MemTotal:")
      invariant !gotTotal ==> total == 0 && FirstKeyed(lines[i..], "MemTotal:") == FirstKeyed(lines, "MemTotal:")
      invariant gotAvail ==> avail == FirstKeyed(lines, "MemAvailable:")
      invariant !gotAvail ==>
                  avail == 0 && FirstKeyed(lines[i..], "MemAvailable:") == FirstKeyed(lines, "MemAvailable:")
    {
      assert lines[i..][1..] == lines[i + 1..];
      var line := lines[i];
      MemKeysExclusive(line);
      if !gotTotal {
        var v := KeyedLong(line, "MemTotal:");
        if v.Some? {
          total := v.value;
          gotTotal := true;
          i := i + 1;
          continue;
        }
      }
      if !gotAvail {
        var v := KeyedLong(line, "MemAvailable:");
        if v.Some? {
          avail := v.value;
          gotAvail := true;
          i := i + 1;
          continue;
        }
      }
      if gotTotal && gotAvail {
        break;
      }
      i := i + 1;
    }
    if !gotTotal {
      assert lines[i..] == [];
    }
    if !gotAvail {
      assert lines[i..] == [];
    }
  }

  /** The shared statistics and the sampler's static state. */
  class Sampler {
    var cpuUsage: real
    var memTotalKb: nat
    var memAvailableKb: nat
    var uptimeS: real
    var load1: real
    var load5: real
    var load15: real
    var timestampMs: nat
    var monotonicMs: nat
    var deltaMs: nat
    /** Statics of read_cpu_stats. */
    var prevIdle: nat
    var prevTotal: nat
    var initialized: bool
    /** Static of stats_timer_cb. */
    var prevMonoMs: nat

    function Stats(): SysStats
      reads this
    {
      SysStats(cpuUsage, memTotalKb, memAvailableKb, uptimeS, Loads(load1, load5, load15),
               timestampMs, monotonicMs, deltaMs)
    }

    function Baseline(): CpuBaseline
      reads this
    {
      CpuBaseline(prevIdle, prevTotal, initialized)
    }

    /** Zero-initialised statics and statistics. */
    constructor ()
      ensures Stats() == SysStats(0.0, 0, 0, 0.0, Loads(0.0, 0.0, 0.0), 0, 0, 0)
      ensures Baseline() == CpuBaseline(0, 0, false) && prevMonoMs == 0
    {
      cpuUsage, memTotalKb, memAvailableKb := 0.0, 0, 0;
      uptimeS, load1, load5, load15 := 0.0, 0.0, 0.0, 0.0;
      timestampMs, monotonicMs, deltaMs := 0, 0, 0;
      prevIdle, prevTotal, initialized := 0, 0, false;
      prevMonoMs := 0;
    }

    /** read_cpu_stats */
    method ReadCpuStats(stat: FileRead)
      modifies this
      ensures CpuResult(cpuUsage, Baseline()) == CpuStep(old(Baseline()), CpuReading(stat))
      ensures memTotalKb == old(memTotalKb) && memAvailableKb == old(memAvailableKb) && uptimeS == old(uptimeS)
      ensures load1 == old(load1) && load5 == old(load5) && load15 == old(load15)
      ensures timestampMs == old(timestampMs) && monotonicMs == old(monotonicMs) && deltaMs == old(deltaMs)
      ensures prevMonoMs == old(prevMonoMs)
    {
      var c := CpuReading(stat);
      UpdateCpu(c);
    }

    /** The part of read_cpu_stats after the first line of /proc/stat has
        been read and scanned. */
    method UpdateCpu(c: Option<CpuCounters>)
      modifies this
      ensures CpuResult(cpuUsage, Baseline()) == CpuStep(old(Baseline()), c)
      ensures memTotalKb == old(memTotalKb) && memAvailableKb == old(memAvailableKb) && uptimeS == old(uptimeS)
      ensures load1 == old(load1) && load5 == old(load5) && load15 == old(load15)
      ensures timestampMs == old(timestampMs) && monotonicMs == old(monotonicMs) && deltaMs == old(deltaMs)
      ensures prevMonoMs == old(prevMonoMs)
    {
      cpuUsage := 0.0;
      if c.None? {
        return;
      }
      var idleTime := WrapU64(IdleSum(c.value));
      var totalTime := WrapU64(TotalSum(c.value));
      if !initialized {
        prevIdle, prevTotal, initialized := idleTime, totalTime, true;
        return;
      }
      if idleTime < prevIdle || totalTime < prevTotal {
        prevIdle, prevTotal := idleTime, totalTime;
        return;
      }
      var deltaIdle := idleTime - prevIdle;
      var deltaTotal := totalTime - prevTotal;
      if deltaTotal > 0 {
        cpuUsage := Usage(deltaIdle, deltaTotal);
      }
      prevIdle, prevTotal := idleTime, totalTime;
    }

    /** read_mem_stats: both values cleared, then filled from the file. */
    method ReadMemStats(meminfo: Option<seq<string>>)
      modifies this
      ensures memTotalKb == MemTotal(meminfo) && memAvailableKb == MemAvailable(meminfo)
      ensures cpuUsage == old(cpuUsage) && uptimeS == old(uptimeS) && Baseline() == old(Baseline())
      ensures load1 == old(load1) && load5 == old(load5) && load15 == old(load15)
      ensures timestampMs == old(timestampMs) && monotonicMs == old(monotonicMs) && deltaMs == old(deltaMs)
      ensures prevMonoMs == old(prevMonoMs)
    {
      memTotalKb, memAvailableKb := 0, 0;
      if meminfo.None? {
        return;
      }
      memTotalKb, memAvailableKb := ScanMemInfo(meminfo.value);
    }

    /** read_uptime_load */
    method ReadUptimeLoad(uptime: FileRead, loadavg: FileRead)
      modifies this
      ensures uptimeS == Uptime(uptime) && Loads(load1, load5, load15) == LoadAverages(loadavg)
      ensures cpuUsage == old(cpuUsage) && memTotalKb == old(memTotalKb) && memAvailableKb == old(memAvailableKb)
      ensures Baseline() == old(Baseline())
      ensures timestampMs == old(timestampMs) && monotonicMs == old(monotonicMs) && deltaMs == old(deltaMs)
      ensures prevMonoMs == old(prevMonoMs)
    {
      uptimeS, load1, load5, load15 := 0.0, 0.0, 0.0, 0.0;
      if uptime.Line? {
        var v := ScanDecimalList(uptime.text, 0, 2);
        if v.Some? {
          uptimeS := v.value[0];
        }
      }
      if loadavg.Line? {
        var v := ScanDecimalList(loadavg.text, 0, 3);
        if v.Some? {
          load1, load5, load15 := v.value[0], v.value[1], v.value[2];
        }
      }
    }

    /** stats_timer_cb: one sampler tick. */
    method TimerTick(stat: FileRead, meminfo: Option<seq<string>>, uptime: FileRead, loadavg: FileRead,
                     realtime: Option<Timespec>, monotonic: Option<Timespec>)
      modifies this
      ensures CpuResult(cpuUsage, Baseline()) == CpuStep(old(Baseline()), CpuReading(stat))
      ensures memTotalKb == MemTotal(meminfo) && memAvailableKb == MemAvailable(meminfo)
      ensures uptimeS == Uptime(uptime) && Loads(load1, load5, load15) == LoadAverages(loadavg)
      ensures timestampMs == GetTimeMs(realtime)
      ensures monotonicMs == GetTimeMs(monotonic) && prevMonoMs == monotonicMs
      ensures deltaMs == DeltaMs(old(prevMonoMs), monotonicMs)
    {
      ReadCpuStats(stat);
      ReadMemStats(meminfo);
      ReadUptimeLoad(uptime, loadavg);
      timestampMs := GetTimeMs(realtime);
      var nowMonoMs := GetTimeMs(monotonic);
      monotonicMs := nowMonoMs;
      if prevMonoMs != 0 && nowMonoMs >= prevMonoMs {
        deltaMs := nowMonoMs - prevMonoMs;
      } else {
        deltaMs := 0;
      }
      prevMonoMs := nowMonoMs;
    }
  }
}
