/** proc.c: the per-session process monitor (read_process_stats) and the
    cached number of online CPUs (proc_init_cpu_count).

    sysconf() results and the monotonic time are inputs; /proc is a
    `ProcFs` snapshot read once per call. */
module ProcMonitor {
  import opened Text
  import opened Limits
  import opened ProcFs
  import opened ProcStat
  import opened Sessions

  /** The number of online CPUs the monitor divides by: never below 1. */
  type CoreCount = n: nat | n >= 1 witness 1

  /** proc_init_cpu_count: sysconf(_SC_NPROCESSORS_ONLN), or 1 when the
      call fails or reports no CPU. */
  function ProcInitCpuCount(online: int): (cores: CoreCount)
    ensures online >= 1 ==> cores == online
    ensures online <= 0 ==> cores == 1
  {
    if online <= 0 then 1 else online
  }

  /** The values read_process_stats writes through its output pointers. */
  datatype ProcSample = ProcSample(cpu: real, rssKb: nat, pssKb: nat, ussKb: nat, pid: nat)

  const NO_SAMPLE: ProcSample := ProcSample(0.0, 0, 0, 0, 0)

  /** Result of one read_process_stats call: its return value, the new
      monitor state of the session, and the outputs. */
  datatype ProcOutcome = ProcOutcome(ok: bool, state: MonitorState, sample: ProcSample)

  /** The pid cache step: an empty cache is filled by a scan; a cached pid
      whose comm no longer matches is dropped together with the baseline
      and the pid is looked up again. */
  function ResolvePid(fs: ProcFs, name: string, st: MonitorState): MonitorState
  {
    if st.pid == 0 then st.(pid := FirstPidWithComm(fs, name))
    else if PidMatchesComm(fs, st.pid, name) then st
    else MonitorState(FirstPidWithComm(fs, name), 0, 0, 0)
  }

  /** Share of the whole machine the process used, in percent:
      jiffies / clk_tck / elapsed seconds * 100 / cores. */
  function CpuPercent(deltaJiffies: nat, clkTck: nat, deltaMs: nat, cores: CoreCount): real
    requires clkTck > 0 && deltaMs > 0
  {
    (deltaJiffies as real / clkTck as real / (deltaMs as real / 1000.0) * 100.0) / cores as real
  }

  function StatRead(fs: ProcFs, pid: nat): FileRead
  {
    if pid in fs.stat then fs.stat[pid] else Missing
  }

  function StatusLines(fs: ProcFs, pid: nat): seq<string>
  {
    if pid in fs.status then fs.status[pid] else []
  }

  function SmapsLines(fs: ProcFs, pid: nat): seq<string>
  {
    if pid in fs.smapsRollup then fs.smapsRollup[pid] else []
  }

  /** The CPU figure of a successful read against the previous state:
      0 on the first observation, when utime + stime (summed in 64 bits)
      fell, or when the clock did not advance; otherwise the formula. */
  function CpuSince(prev: MonitorState, t: CpuTimes, now: nat, clkTck: nat, cores: CoreCount): real
    requires clkTck > 0
  {
    var prevTotal := WrapU64(prev.prevUtime + prev.prevStime);
    var currTotal := WrapU64(t.utime + t.stime);
    if prev.prevMonoMs == 0 || currTotal < prevTotal || now <= prev.prevMonoMs then 0.0
    else CpuPercent(currTotal - prevTotal, clkTck, now - prev.prevMonoMs, cores)
  }

  /** The part of read_process_stats after the pid is resolved to r.pid != 0. */
  function ReadResolved(r: MonitorState, fs: ProcFs, now: nat, clkTck: nat, cores: CoreCount): ProcOutcome
    requires clkTck > 0 && r.pid != 0
  {
    var failed := NO_SAMPLE.(pid := r.pid);
    match StatRead(fs, r.pid)
    case Missing => ProcOutcome(false, NO_MONITOR, failed)
    case Empty => ProcOutcome(false, r, failed)
    case Line(text) =>
      match StatTimes(text)
      case None => ProcOutcome(false, NO_MONITOR, failed)
      case Some(t) =>
        var mem := Smaps(SmapsLines(fs, r.pid));
        ProcOutcome(true, MonitorState(r.pid, t.utime, t.stime, now),
                    ProcSample(CpuSince(r, t, now, clkTck, cores), VmRss(StatusLines(fs, r.pid)),
                               mem.pssKb, mem.ussKb, r.pid))
  }

  /** What read_process_stats does, as a function of the monitor state it
      starts from, the /proc snapshot, the monotonic time and sysconf(). */
  function ProcessStats(name: string, st: MonitorState, fs: ProcFs, now: nat, clkTck: int, cores: CoreCount)
    : ProcOutcome
  {
    if clkTck <= 0 then ProcOutcome(false, st, NO_SAMPLE)
    else
      var r := ResolvePid(fs, name, st);
      if r.pid == 0 then ProcOutcome(false, NO_MONITOR, NO_SAMPLE)
      else ReadResolved(r, fs, now, clkTck, cores)
  }

  /** read_process_stats on a session: resolves the pid, reads the stat,
      status and smaps_rollup files, updates the session's pid cache and
      baseline in place, and returns the sample. */
  method ReadProcessStats(s: Session, name: string, fs: ProcFs, nowMonoMs: nat, clkTck: int, cores: CoreCount)
    returns (ok: bool, sample: ProcSample)
    modifies s
    ensures ProcOutcome(ok, s.Monitor(), sample) == ProcessStats(name, old(s.Monitor()), fs, nowMonoMs, clkTck, cores)
    ensures s.counted == old(s.counted) && s.procName == old(s.procName) && s.procEnabled == old(s.procEnabled)
  {
    if clkTck <= 0 {
      return false, NO_SAMPLE;
    }
    sample := NO_SAMPLE;
    ghost var m0 := s.Monitor();

    if s.procPid == 0 {
      s.procPid := FindPidByComm(fs, name);
    } else if !PidMatchesComm(fs, s.procPid, name) {
      s.procPid := 0;
      s.prevProcUtime := 0;
      s.prevProcStime := 0;
      s.prevProcSampleMonoMs := 0;
      s.procPid := FindPidByComm(fs, name);
    }
    ghost var r := ResolvePid(fs, name, m0);
    assert s.Monitor() == r;
    var pid := s.procPid;
    sample := sample.(pid := pid);

    if pid == 0 {
      sample := sample.(pid := 0);
      s.prevProcUtime, s.prevProcStime, s.prevProcSampleMonoMs, s.procPid := 0, 0, 0, 0;
      return false, sample;
    }
    if pid !in fs.stat || fs.stat[pid].Missing? {
      s.procPid, s.prevProcUtime, s.prevProcStime, s.prevProcSampleMonoMs := 0, 0, 0, 0;
      return false, sample;
    }
    if fs.stat[pid].Empty? {
      return false, sample;
    }
    assert StatRead(fs, pid) == fs.stat[pid] && fs.stat[pid].Line?;
    var parsed, utime, stime := ParseProcStatTimes(fs.stat[pid].text, 0, 0);
    if !parsed {
      s.prevProcUtime, s.prevProcStime, s.prevProcSampleMonoMs, s.procPid := 0, 0, 0, 0;
      return false, sample;
    }

    var rssKb := 0;
    if pid in fs.status {
      rssKb := ReadVmRss(fs.status[pid]);
    }
    var pssKb, ussKb := 0, 0;
    if pid in fs.smapsRollup {
      pssKb, ussKb := ReadSmapsRollup(fs.smapsRollup[pid]);
    }

    ghost var t := CpuTimes(utime, stime);
    assert StatTimes(fs.stat[pid].text) == Some(t);
    assert rssKb == VmRss(StatusLines(fs, pid)) && MemTotals(pssKb, ussKb) == Smaps(SmapsLines(fs, pid));
    assert ProcessStats(name, m0, fs, nowMonoMs, clkTck, cores) == ReadResolved(r, fs, nowMonoMs, clkTck, cores);
    var cpu := AdvanceBaseline(s, utime, stime, nowMonoMs, clkTck, cores);
    return true, ProcSample(cpu, rssKb, pssKb, ussKb, pid);
  }

  /** The baseline step of read_process_stats after a successful stat
      read: the first sample, a fall of utime + stime (process restart) or
      a clock that did not advance only record the new baseline and report
      0; otherwise the CPU figure is computed from the deltas. The baseline
      always moves to the current sample. */
  method AdvanceBaseline(s: Session, utime: nat, stime: nat, nowMonoMs: nat, clkTck: nat, cores: CoreCount)
    returns (cpu: real)
    requires clkTck > 0
    modifies s
    ensures cpu == CpuSince(old(s.Monitor()), CpuTimes(utime, stime), nowMonoMs, clkTck, cores)
    ensures s.Monitor() == MonitorState(old(s.procPid), utime, stime, nowMonoMs)
    ensures s.counted == old(s.counted) && s.procName == old(s.procName) && s.procEnabled == old(s.procEnabled)
  {
    if s.prevProcSampleMonoMs == 0 {
      s.prevProcUtime, s.prevProcStime, s.prevProcSampleMonoMs := utime, stime, nowMonoMs;
      return 0.0;
    }
    var prevTotal := WrapU64(s.prevProcUtime + s.prevProcStime);
    var currTotal := WrapU64(utime + stime);
    if currTotal < prevTotal || nowMonoMs <= s.prevProcSampleMonoMs {
      s.prevProcUtime, s.prevProcStime, s.prevProcSampleMonoMs := utime, stime, nowMonoMs;
      return 0.0;
    }
    var deltaJiffies := currTotal - prevTotal;
    cpu := CpuPercent(deltaJiffies, clkTck, nowMonoMs - s.prevProcSampleMonoMs, cores);
    s.prevProcUtime, s.prevProcStime, s.prevProcSampleMonoMs := utime, stime, nowMonoMs;
  }

  /** The CPU figure is never negative, and it is exactly the jiffy delta
      scaled by 100 over ticks per second, elapsed seconds and cores. */
  lemma CpuPercentMeaning(deltaJiffies: nat, clkTck: nat, deltaMs: nat, cores: CoreCount)
    requires clkTck > 0 && deltaMs > 0
    ensures CpuPercent(deltaJiffies, clkTck, deltaMs, cores) >= 0.0
    ensures CpuPercent(deltaJiffies, clkTck, deltaMs, cores) * (clkTck * deltaMs * cores) as real
            == (deltaJiffies * 100_000) as real
  {
    var ck, dm, c, dj := clkTck as real, deltaMs as real, cores as real, deltaJiffies as real;
    var secs := dm / 1000.0;
    var perSec := dj / ck / secs;
    assert perSec * ck * secs == dj;
    assert perSec >= 0.0;
    calc {
      CpuPercent(deltaJiffies, clkTck, deltaMs, cores) * (clkTck * deltaMs * cores) as real;
      (perSec * 100.0 / c) * (ck * dm * c);
      perSec * 100.0 * ck * dm;
      perSec * ck * secs * 100_000.0;
      dj * 100_000.0;
    }
  }

  /** 100% means every CPU was busy for the whole interval: the figure
      stays at or below 100 when the jiffies used fit in the elapsed time
      on all cores. */
  lemma CpuPercentAtMostFull(deltaJiffies: nat, clkTck: nat, deltaMs: nat, cores: CoreCount)
    requires clkTck > 0 && deltaMs > 0
    requires deltaJiffies * 1000 <= clkTck * deltaMs * cores
    ensures CpuPercent(deltaJiffies, clkTck, deltaMs, cores) <= 100.0
  {
    CpuPercentMeaning(deltaJiffies, clkTck, deltaMs, cores);
    var x := CpuPercent(deltaJiffies, clkTck, deltaMs, cores);
    var n := clkTck * deltaMs * cores;
    assert n >= 1 by {
      assert clkTck * deltaMs >= 1;
    }
    var d := n as real;
    assert (deltaJiffies * 100_000) as real <= 100.0 * d;
    if x > 100.0 {
      PositiveProduct(x - 100.0, d);
      assert false;
    }
  }

  lemma PositiveProduct(a: real, b: real)
    requires a > 0.0 && b > 0.0
    ensures a * b > 0.0
  {
  }

  lemma CpuSinceNonNegative(prev: MonitorState, t: CpuTimes, now: nat, clkTck: nat, cores: CoreCount)
    requires clkTck > 0
    ensures CpuSince(prev, t, now, clkTck, cores) >= 0.0
  {
    var prevTotal := WrapU64(prev.prevUtime + prev.prevStime);
    var currTotal := WrapU64(t.utime + t.stime);
    if !(prev.prevMonoMs == 0 || currTotal < prevTotal || now <= prev.prevMonoMs) {
      CpuPercentMeaning(currTotal - prevTotal, clkTck, now - prev.prevMonoMs, cores);
    }
  }

  /** A monitor state with no cached pid carries no baseline. */
  predicate Consistent(st: MonitorState)
  {
    (st.pid == 0 ==> st == NO_MONITOR) && st.prevUtime <= U64_MAX && st.prevStime <= U64_MAX
  }

  /** read_process_stats keeps the state consistent; on success the cached
      pid is one whose comm matches the name in the snapshot, and the
      baseline is the stat line's times at `now`. */
  lemma ProcessStatsOnSuccess(name: string, st: MonitorState, fs: ProcFs, now: nat, clkTck: int, cores: CoreCount)
    requires Consistent(st)
    ensures var o := ProcessStats(name, st, fs, now, clkTck, cores);
      Consistent(o.state) &&
      (o.ok ==> o.state.pid != 0 && o.state.pid == o.sample.pid && PidMatchesComm(fs, o.state.pid, name) &&
                StatRead(fs, o.state.pid).Line? &&
                StatTimes(StatRead(fs, o.state.pid).text) == Some(CpuTimes(o.state.prevUtime, o.state.prevStime)) &&
                o.state.prevMonoMs == now && o.sample.cpu >= 0.0 &&
                o.sample.rssKb == VmRss(StatusLines(fs, o.state.pid)) &&
                MemTotals(o.sample.pssKb, o.sample.ussKb) == Smaps(SmapsLines(fs, o.state.pid)))
  {
    FoundPidMatchesComm(fs, name);
    var o := ProcessStats(name, st, fs, now, clkTck, cores);
    if o.ok {
      var r := ResolvePid(fs, name, st);
      assert r.pid != 0 && PidMatchesComm(fs, r.pid, name);
      var t := StatTimes(StatRead(fs, r.pid).text).value;
      assert o == ReadResolved(r, fs, now, clkTck as nat, cores);
      CpuSinceNonNegative(r, t, now, clkTck as nat, cores);
    }
  }

  /** Failure paths: every output is 0; the pid cache and baseline are
      cleared, except when the stat file opened but read nothing, which
      leaves the resolved pid and baseline in place. */
  lemma ProcessStatsOnFailure(name: string, st: MonitorState, fs: ProcFs, now: nat, clkTck: int, cores: CoreCount)
    requires clkTck > 0
    ensures var o := ProcessStats(name, st, fs, now, clkTck, cores);
      !o.ok ==>
        o.sample.cpu == 0.0 && o.sample.rssKb == 0 && o.sample.pssKb == 0 && o.sample.ussKb == 0 &&
        o.sample.pid == ResolvePid(fs, name, st).pid &&
        (o.state == NO_MONITOR <==> !(o.state.pid != 0 && StatRead(fs, o.state.pid).Empty?)) &&
        (o.state.pid != 0 ==> o.state == ResolvePid(fs, name, st))
  {
  }

  /** A cached pid is kept, with its baseline, only while its comm still
      matches; a stale one never produces a CPU delta against the old
      process's baseline. */
  lemma StalePidNeverMeasured(name: string, st: MonitorState, fs: ProcFs, now: nat, clkTck: int, cores: CoreCount)
    requires st.pid != 0 && !PidMatchesComm(fs, st.pid, name)
    ensures var o := ProcessStats(name, st, fs, now, clkTck, cores);
      o.sample.cpu == 0.0 &&
      (clkTck > 0 ==> o.state.pid == 0 || o.state.pid == FirstPidWithComm(fs, name))
  {
  }

  /** With a valid cached pid and a readable stat line the cached pid is
      kept, the baseline moves to the current sample, and the CPU figure is
      measured against the cached baseline. */
  lemma CachedPidMeasured(name: string, st: MonitorState, fs: ProcFs, now: nat, clkTck: int, cores: CoreCount)
    requires clkTck > 0 && PidMatchesComm(fs, st.pid, name)
    requires StatRead(fs, st.pid).Line? && StatTimes(StatRead(fs, st.pid).text).Some?
    ensures var o := ProcessStats(name, st, fs, now, clkTck, cores);
      var t := StatTimes(StatRead(fs, st.pid).text).value;
      o.ok && o.state == MonitorState(st.pid, t.utime, t.stime, now) &&
      o.sample.cpu == CpuSince(st, t, now, clkTck as nat, cores)
  {
    assert ResolvePid(fs, name, st) == st;
    assert ProcessStats(name, st, fs, now, clkTck, cores) == ReadResolved(st, fs, now, clkTck as nat, cores);
  }

  /** CPU is reported only when a previous sample exists, utime + stime
      did not fall and time advanced; it is then the jiffy delta over
      ticks per second, elapsed seconds and cores, in percent. */
  lemma CpuSinceCases(prev: MonitorState, t: CpuTimes, now: nat, clkTck: nat, cores: CoreCount)
    requires clkTck > 0
    ensures var prevTotal := WrapU64(prev.prevUtime + prev.prevStime);
      var currTotal := WrapU64(t.utime + t.stime);
      var cpu := CpuSince(prev, t, now, clkTck, cores);
      (prev.prevMonoMs == 0 || currTotal < prevTotal || now <= prev.prevMonoMs ==> cpu == 0.0) &&
      (prev.prevMonoMs != 0 && prevTotal <= currTotal && prev.prevMonoMs < now ==>
         cpu * (clkTck * (now - prev.prevMonoMs) * cores) as real == ((currTotal - prevTotal) * 100_000) as real)
  {
    var prevTotal := WrapU64(prev.prevUtime + prev.prevStime);
    var currTotal := WrapU64(t.utime + t.stime);
    if prev.prevMonoMs != 0 && prevTotal <= currTotal && prev.prevMonoMs < now {
      CpuPercentMeaning(currTotal - prevTotal, clkTck, now - prev.prevMonoMs, cores);
    }
  }

  /** The snapshot frame samples against the sampler's monotonic time, so
      a second read at the same instant after a successful one reports 0. */
  lemma SameInstantReportsZero(name: string, st: MonitorState, fs: ProcFs, now: nat, clkTck: int, cores: CoreCount)
    requires Consistent(st)
    requires ProcessStats(name, st, fs, now, clkTck, cores).ok
    ensures var again := ProcessStats(name, ProcessStats(name, st, fs, now, clkTck, cores).state, fs, now, clkTck, cores);
      again.ok && again.sample.cpu == 0.0
  {
    ProcessStatsOnSuccess(name, st, fs, now, clkTck, cores);
  }
}
