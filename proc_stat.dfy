/** proc.c: the parsers read_process_stats applies to a process's own
    /proc files: the stat line (parse_proc_stat_times), the VmRSS line of
    status, and the Pss / Private_* lines of smaps_rollup. */
module ProcStat {
  import opened Text
  import opened Limits

  /** One of the task-state letters "RSDZTtWXxKPI" the kernel writes
      after the name field. */
  predicate IsTaskState(c: char)
  {
    c == 'R' || c == 'S' || c == 'D' || c == 'Z' || c == 'T' || c == 't' ||
    c == 'W' || c == 'X' || c == 'x' || c == 'K' || c == 'P' || c == 'I'
  }

  /** Position q of the stat line closes the name field: `) <state> `. */
  predicate IsNameEnd(line: string, q: nat)
  {
    q + 3 < |line| && line[q] == ')' && line[q + 1] == ' ' && line[q + 3] == ' ' &&
    IsTaskState(line[q + 2])
  }

  /** The first name end at or after i, or |line| when there is none. */
  function NameEndFrom(line: string, i: nat): (r: nat)
    requires i <= |line|
    ensures i <= r <= |line|
    ensures r < |line| ==> IsNameEnd(line, r)
    ensures forall q :: i <= q < r ==> !IsNameEnd(line, q)
    decreases |line| - i
  {
    if i == |line| then i
    else if IsNameEnd(line, i) then i
    else NameEndFrom(line, i + 1)
  }

  /** The numbers parse_proc_stat_times reads after the state character:
      fields 4 to 15 of the stat line, the last two being utime and stime. */
  const STAT_NUMBERS: nat := 12

  /** CPU time of a process in clock ticks, as read from its stat line. */
  datatype CpuTimes = CpuTimes(utime: nat, stime: nat)

  /** Where parse_proc_stat_times finds the end of the name field: the
      first `) <state> ` after the first '(' of the line; None when the line
      has no '(' or no such position after it. */
  function NameEnd(line: string): (r: Option<nat>)
    ensures r.Some? ==> r.value < |line| && IsNameEnd(line, r.value)
  {
    var open := IndexOf(line, '(');
    if open == |line| then None
    else
      var end := NameEndFrom(line, open + 1);
      if end == |line| then None else Some(end)
  }

  /** What parse_proc_stat_times extracts from a stat line: after the end
      of the name it reads the state character and twelve %llu numbers;
      utime and stime are the last two. A line without a name end, or with
      fewer numbers, gives None. */
  function StatTimes(line: string): (r: Option<CpuTimes>)
    ensures r.Some? ==> r.value.utime <= U64_MAX && r.value.stime <= U64_MAX
    ensures r.Some? ==> NameEnd(line).Some?
  {
    match NameEnd(line)
    case None => None
    case Some(end) =>
      match ScanU64List(line, end + 3, STAT_NUMBERS)
      case None => None
      case Some(nums) => Some(CpuTimes(nums[10], nums[11]))
  }

  /** The scan for the end of the name field: it starts just after the
      first '(' and stops at the first `) <state> `. */
  method FindNameEnd(line: string, start: nat) returns (end: nat)
    requires start <= |line|
    ensures end == NameEndFrom(line, start)
  {
    end := |line|;
    var q := start;
    while q < |line|
      invariant start <= q <= |line|
      invariant NameEndFrom(line, q) == NameEndFrom(line, start)
    {
      if line[q] == ')' && q + 1 < |line| && line[q + 1] == ' ' && q + 3 < |line| && line[q + 3] == ' ' {
        if IsTaskState(line[q + 2]) {
          end := q;
          return;
        }
      }
      q := q + 1;
    }
  }

  /** parse_proc_stat_times: on success the outputs hold the line's utime
      and stime; on any failure they keep the values they had. */
  method ParseProcStatTimes(line: string, utimeIn: nat, stimeIn: nat)
    returns (ok: bool, utime: nat, stime: nat)
    ensures ok <==> StatTimes(line).Some?
    ensures ok ==> CpuTimes(utime, stime) == StatTimes(line).value
    ensures !ok ==> utime == utimeIn && stime == stimeIn
  {
    utime, stime := utimeIn, stimeIn;
    var p := IndexOf(line, '(');
    if p == |line| {
      return false, utime, stime;
    }
    var end := FindNameEnd(line, p + 1);
    if end == |line| {
      return false, utime, stime;
    }
    var nums := ScanU64List(line, end + 3, STAT_NUMBERS);
    if nums.None? {
      return false, utime, stime;
    }
    utime, stime := nums.value[10], nums.value[11];
    assert StatTimes(line) == Some(CpuTimes(utime, stime));
    return true, utime, stime;
  }

  /** A ')' inside the process name is not taken for the end of the name:
      in the stat line of the process "a) b" the name ends at the second
      ')', the one followed by " S ". */
  lemma NameEndSkipsParenInName()
    ensures NameEndFrom("7 (a) b) S 0", 3) == 7
  {
    var line := "7 (a) b) S 0";
    assert line[4] == ')' && line[5] == ' ' && line[6] == 'b' && line[7] == ')' && line[9] == 'S';
    assert !IsNameEnd(line, 3) && !IsNameEnd(line, 4) && !IsNameEnd(line, 5) && !IsNameEnd(line, 6);
    assert IsNameEnd(line, 7);
  }

  /** In a line that starts with digits and " (", the first '(' is the
      one after the digits. */
  lemma FirstParenAfterDigits(line: string, ds: string)
    requires AllDigits(ds)
    requires |ds| + 2 <= |line| && line[..|ds| + 2] == ds + " ("
    ensures IndexOf(line, '(') == |ds| + 1
  {
    forall k | 0 <= k < |ds| + 1
      ensures line[k] != '('
    {
      assert line[k] == line[..|ds| + 2][k] == (ds + " (")[k];
    }
    assert line[|ds| + 1] == line[..|ds| + 2][|ds| + 1] == '(';
  }

  /** The name comm, followed by `) `, the state letter and a space, holds
      no name end before the one right after comm. */
  predicate PlainName(comm: string, state: char)
  {
    forall q :: 0 <= q < |comm| ==> !IsNameEnd(comm + ") " + [state] + " ", q)
  }

  /** Where the name, `) `, a state letter and a space are written from a on,
      and the name does not itself contain `) <state> ` before its own end,
      the name end found from a is the one after the name. */
  lemma NameEndAfterName(line: string, a: nat, comm: string, state: char)
    requires IsTaskState(state)
    requires PlainName(comm, state)
    requires a + |comm| + 4 <= |line| && line[a..a + |comm| + 3] == comm + ") " + [state]
    requires line[a + |comm| + 3] == ' '
    ensures NameEndFrom(line, a) == a + |comm|
  {
    var name := comm + ") " + [state] + " ";
    assert forall j :: 0 <= j < |name| - 1 ==> line[a + j] == line[a..a + |comm| + 3][j] == name[j];
    assert IsNameEnd(name, |comm|);
    assert IsNameEnd(line, a + |comm|);
    forall q | a <= q < a + |comm|
      ensures !IsNameEnd(line, q)
    {
      assert !IsNameEnd(name, q - a);
    }
  }

  /** Once the name end is found, the stat line yields the 11th and 12th
      numbers after the state letter. */
  lemma StatTimesAt(line: string, end: nat, utime: nat, stime: nat)
    requires NameEnd(line) == Some(end)
    requires |U64Run(line, end + 3)| >= STAT_NUMBERS
    requires U64Run(line, end + 3)[10] == utime && U64Run(line, end + 3)[11] == stime
    ensures StatTimes(line) == Some(CpuTimes(utime, stime))
  {
    var run := U64Run(line, end + 3);
    assert ScanU64List(line, end + 3, STAT_NUMBERS) == Some(run[..STAT_NUMBERS]);
  }

  /** Twelve number texts written from p on give a run whose 11th and
      12th numbers are the values of the 11th and 12th texts. */
  lemma StatFieldsRun(line: string, p: nat, fields: seq<string>)
    requires |fields| == STAT_NUMBERS && AllNumberTexts(fields) && FieldsAt(line, p, fields)
    ensures p <= |line| && |U64Run(line, p)| >= STAT_NUMBERS
    ensures U64Run(line, p)[10] == U64Of(NumberValue(fields[10]))
    ensures U64Run(line, p)[11] == U64Of(NumberValue(fields[11]))
  {
    U64RunFields(line, p, fields);
  }

  /** For any line that starts with a pid, a name in parentheses that does
      not itself contain `) <state> ` before its own end, and a state
      letter, and goes on with twelve numbers, each of either sign: the
      line yields as utime and stime the 11th and 12th numbers after the
      state letter, whatever the others are. */
  lemma StatTimesReadsUtimeStime(line: string, pid: string, comm: string, state: char,
                                 fields: seq<string>)
    requires AllDigits(pid) && IsTaskState(state)
    requires PlainName(comm, state)
    requires StartsWith(line, pid + " (" + comm + ") " + [state])
    requires |fields| == STAT_NUMBERS && AllNumberTexts(fields)
    requires FieldsAt(line, |pid| + |comm| + 5, fields)
    ensures StatTimes(line) == Some(CpuTimes(U64Of(NumberValue(fields[10])), U64Of(NumberValue(fields[11]))))
  {
    StatNameEnd(line, pid, comm, state, fields);
    StatTimesFromFields(line, |pid| + |comm| + 2, fields);
  }

  /** The name of a stat line such as StatTimesReadsUtimeStime describes
      ends at the `)` after comm. */
  lemma StatNameEnd(line: string, pid: string, comm: string, state: char, ts: seq<string>)
    requires AllDigits(pid) && IsTaskState(state)
    requires PlainName(comm, state)
    requires StartsWith(line, pid + " (" + comm + ") " + [state])
    requires FieldsAt(line, |pid| + |comm| + 5, ts) && ts != []
    ensures NameEnd(line) == Some(|pid| + |comm| + 2)
  {
    FieldsAtTail(line, |pid| + |comm| + 5, ts);
    StatOpenParen(line, pid, comm, state);
    NameAfterParen(line, pid, comm, state);
    NameEndAfterName(line, |pid| + 2, comm, state);
  }

  /** The first `(` of such a line is the one after the pid. */
  lemma StatOpenParen(line: string, pid: string, comm: string, state: char)
    requires AllDigits(pid)
    requires StartsWith(line, pid + " (" + comm + ") " + [state])
    ensures IndexOf(line, '(') == |pid| + 1
  {
    var pre := pid + " (" + comm + ") " + [state];
    assert line[..|pid| + 2] == line[..|pre|][..|pid| + 2] == pre[..|pid| + 2] == pid + " (";
    FirstParenAfterDigits(line, pid);
  }

  /** What follows the `(` of such a line is comm, `) ` and the state. */
  lemma NameAfterParen(line: string, pid: string, comm: string, state: char)
    requires StartsWith(line, pid + " (" + comm + ") " + [state])
    ensures line[|pid| + 2..|pid| + |comm| + 5] == comm + ") " + [state]
  {
    var pre := pid + " (" + comm + ") " + [state];
    assert pre == (pid + " (") + (comm + ") " + [state]);
    assert line[|pid| + 2..|pid| + |comm| + 5] == pre[|pid| + 2..];
  }

  /** With the name end found, twelve numbers after the state letter give
      utime and stime. */
  lemma StatTimesFromFields(line: string, end: nat, fields: seq<string>)
    requires NameEnd(line) == Some(end)
    requires |fields| == STAT_NUMBERS && AllNumberTexts(fields) && FieldsAt(line, end + 3, fields)
    ensures StatTimes(line) == Some(CpuTimes(U64Of(NumberValue(fields[10])), U64Of(NumberValue(fields[11]))))
  {
    StatFieldsRun(line, end + 3, fields);
    StatTimesAt(line, end, U64Of(NumberValue(fields[10])), U64Of(NumberValue(fields[11])));
  }

  /** sscanf(line, "<key> %ld kB", &v) == 1, with %ld saturating at LONG_MAX. */
  function KeyedLong(line: string, key: string): Option<nat>
  {
    match ScanKeyed(line, key)
    case None => None
    case Some(v) => Some(ClampLong(v))
  }

  /** The value of the first line that parses as "<key> %ld", or 0 when
      none does: the scans of /proc/<pid>/status for VmRSS and of
      /proc/meminfo for MemTotal and MemAvailable. */
  function FirstKeyed(lines: seq<string>, key: string): nat
  {
    if lines == [] then 0
    else
      match KeyedLong(lines[0], key)
      case Some(v) => v
      case None => FirstKeyed(lines[1..], key)
  }

  /** The scan stops at the first line with the key: later lines, even
      other lines with the same key, do not change the result. */
  lemma {:induction false} FirstKeyedIsFirst(lines: seq<string>, key: string, i: nat)
    requires i < |lines| && KeyedLong(lines[i], key).Some?
    requires forall k :: 0 <= k < i ==> KeyedLong(lines[k], key).None?
    ensures FirstKeyed(lines, key) == KeyedLong(lines[i], key).value
  {
    if i > 0 {
      FirstKeyedIsFirst(lines[1..], key, i - 1);
    }
  }

  /** Without a line that has the key the result is 0. */
  lemma {:induction false} FirstKeyedAbsent(lines: seq<string>, key: string)
    requires forall k :: 0 <= k < |lines| ==> KeyedLong(lines[k], key).None?
    ensures FirstKeyed(lines, key) == 0
  {
    if lines != [] {
      FirstKeyedAbsent(lines[1..], key);
    }
  }

  /** The VmRSS value of /proc/<pid>/status. */
  function VmRss(lines: seq<string>): nat
  {
    FirstKeyed(lines, "VmRSS:")
  }

  /** The status loop of read_process_stats. */
  method ReadVmRss(lines: seq<string>) returns (rssKb: nat)
    ensures rssKb == VmRss(lines)
  {
    rssKb := 0;
    var i := 0;
    while i < |lines|
      invariant 0 <= i <= |lines|
      invariant FirstKeyed(lines[i..], "VmRSS:") == FirstKeyed(lines, "VmRSS:")
    {
      assert lines[i..][1..] == lines[i + 1..];
      var v := KeyedLong(lines[i], "VmRSS:");
      if v.Some? {
        rssKb := v.value;
        return;
      }
      i := i + 1;
    }
  }

  /** Running totals of the smaps_rollup scan. */
  datatype MemTotals = MemTotals(pssKb: nat, ussKb: nat)

  /** The value of a "Pss:" line, if the line is one. */
  function PssLine(line: string): Option<nat>
  {
    KeyedLong(line, "Pss:")
  }

  /** The value of a Private_Clean / Private_Dirty / Private_Hugetlb /
      Private_Shmem line, tried in that order. */
  function PrivateLine(line: string): Option<nat>
  {
    match KeyedLong(line, "Private_Clean:")
    case Some(v) => Some(v)
    case None =>
      match KeyedLong(line, "Private_Dirty:")
      case Some(v) => Some(v)
      case None =>
        match KeyedLong(line, "Private_Hugetlb:")
        case Some(v) => Some(v)
        case None => KeyedLong(line, "Private_Shmem:")
  }

  /** One line of the smaps_rollup scan: a Pss line replaces the PSS, a
      Private_* line adds to the USS, any other line changes nothing. */
  function SmapsStep(t: MemTotals, line: string): MemTotals
  {
    match PssLine(line)
    case Some(v) => t.(pssKb := v)
    case None =>
      match PrivateLine(line)
      case Some(v) => t.(ussKb := t.ussKb + v)
      case None => t
  }

  /** The totals after scanning all of `lines`, starting from zero. */
  function Smaps(lines: seq<string>): MemTotals
  {
    if lines == [] then MemTotals(0, 0)
    else SmapsStep(Smaps(lines[..|lines| - 1]), lines[|lines| - 1])
  }

  predicate HasPss(lines: seq<string>)
  {
    exists k :: 0 <= k < |lines| && PssLine(lines[k]).Some?
  }

  lemma HasPssSnoc(s: seq<string>, x: string)
    ensures HasPss(s + [x]) <==> HasPss(s) || PssLine(x).Some?
  {
    if HasPss(s) {
      var k :| 0 <= k < |s| && PssLine(s[k]).Some?;
      assert (s + [x])[k] == s[k];
    }
    if PssLine(x).Some? {
      assert (s + [x])[|s|] == x;
    }
    if HasPss(s + [x]) {
      var k :| 0 <= k < |s + [x]| && PssLine((s + [x])[k]).Some?;
      if k < |s| {
        assert (s + [x])[k] == s[k];
      }
    }
  }

  /** The USS of a file is the sum of the USS of its parts, and its PSS is
      that of the later part when the later part has a Pss line at all. */
  lemma {:induction false} SmapsAppend(a: seq<string>, b: seq<string>)
    ensures Smaps(a + b).ussKb == Smaps(a).ussKb + Smaps(b).ussKb
    ensures Smaps(a + b).pssKb == if HasPss(b) then Smaps(b).pssKb else Smaps(a).pssKb
    decreases |b|
  {
    if b == [] {
      assert a + b == a;
      assert !HasPss(b);
    } else {
      var b', last := b[..|b| - 1], b[|b| - 1];
      assert b == b' + [last];
      assert (a + b)[..|a + b| - 1] == a + b';
      assert (a + b)[|a + b| - 1] == last;
      SmapsAppend(a, b');
      HasPssSnoc(b', last);
    }
  }

  /** PSS is the value of the last Pss line, or 0 when there is none. */
  lemma {:induction false} SmapsPssIsLast(lines: seq<string>, i: nat)
    requires i < |lines| && PssLine(lines[i]).Some?
    requires forall k :: i < k < |lines| ==> PssLine(lines[k]).None?
    ensures Smaps(lines).pssKb == PssLine(lines[i]).value
  {
    var head, tail := lines[..i + 1], lines[i + 1..];
    assert lines == head + tail;
    SmapsAppend(head, tail);
    assert head[..|head| - 1] == lines[..i];
    assert head[|head| - 1] == lines[i];
    assert forall k :: 0 <= k < |tail| ==> tail[k] == lines[i + 1 + k];
  }

  /** Without any Pss line the PSS stays 0; without a Private_* line so
      does the USS. */
  lemma {:induction false} SmapsNoLines(lines: seq<string>)
    ensures !HasPss(lines) ==> Smaps(lines).pssKb == 0
    ensures (forall k :: 0 <= k < |lines| ==> PrivateLine(lines[k]).None? || PssLine(lines[k]).Some?) ==>
              Smaps(lines).ussKb == 0
  {
    if lines != [] {
      var init, last := lines[..|lines| - 1], lines[|lines| - 1];
      assert lines == init + [last];
      SmapsNoLines(init);
      HasPssSnoc(init, last);
      assert forall k :: 0 <= k < |init| ==> init[k] == lines[k];
    }
  }

  /** The smaps_rollup loop of read_process_stats. */
  method ReadSmapsRollup(lines: seq<string>) returns (pssKb: nat, ussKb: nat)
    ensures MemTotals(pssKb, ussKb) == Smaps(lines)
  {
    pssKb, ussKb := 0, 0;
    var i := 0;
    while i < |lines|
      invariant 0 <= i <= |lines|
      invariant MemTotals(pssKb, ussKb) == Smaps(lines[..i])
    {
      assert lines[..i + 1][..i] == lines[..i];
      var line := lines[i];
      var pss := PssLine(line);
      if pss.Some? {
        pssKb := pss.value;
      } else {
        var priv := PrivateLine(line);
        if priv.Some? {
          ussKb := ussKb + priv.value;
        }
      }
      i := i + 1;
    }
    assert lines[..i] == lines;
  }
}
