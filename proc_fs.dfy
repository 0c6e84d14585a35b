/** proc.c: the /proc snapshot the process monitor reads, and the lookup
    of a process id by its command name (find_pid_by_comm,
    pid_matches_comm).

    The filesystem is an input. A `ProcFs` value is what the reader would
    see: the /proc directory listing in readdir() order (`None` when
    opendir() fails) and, per numeric process id, what the reads of the
    comm, stat, status and smaps_rollup files return. A pid absent from a
    map stands for a file fopen() cannot open. */
module ProcFs {
  import opened Text
  import opened Limits

  /** d_type of a directory entry, reduced to what the scanners test. */
  datatype DType = DtDir | DtUnknown | DtOther

  datatype DirEntry = DirEntry(name: string, dtype: DType)

  datatype ProcFs = ProcFs(
    listing: Option<seq<DirEntry>>,
    /** First fgets() of /proc/<pid>/comm. */
    comm: map<nat, FileRead>,
    /** First fgets() of /proc/<pid>/stat. */
    stat: map<nat, FileRead>,
    /** Successive fgets() results of /proc/<pid>/status. */
    status: map<nat, seq<string>>,
    /** Successive fgets() results of /proc/<pid>/smaps_rollup. */
    smapsRollup: map<nat, seq<string>>)

  /** The pid strtol(d_name, &end, 10) yields when the entry is accepted:
      the name is non-empty, entirely consumed by the conversion (leading
      whitespace and a sign allowed), and the value is positive. */
  function PidOfEntry(name: string): (r: Option<nat>)
    ensures r.Some? ==> r.value > 0 && name != []
  {
    if name == [] then None
    else
      var j := SkipSpaces(name, 0);
      var negative := j < |name| && name[j] == '-';
      var d := if j < |name| && (name[j] == '+' || name[j] == '-') then j + 1 else j;
      var k := DigitsEnd(name, d);
      if k == d || k != |name| then None
      else
        var v := ClampLong(DecimalValue(name[d..k]));
        if negative || v == 0 then None else Some(v)
  }

  /** A plain decimal directory name such as "1234" is the pid it spells. */
  lemma PidOfDecimalName(name: string)
    requires name != [] && AllDigits(name) && 0 < DecimalValue(name) <= LONG_MAX
    ensures PidOfEntry(name) == Some(DecimalValue(name))
  {
    assert !IsSpace(name[0]);
    assert DigitsEnd(name, 0) == |name|;
    assert name[0..|name|] == name;
  }

  /** The newline-stripped process name read from /proc/<pid>/comm, or
      `None` when the file cannot be opened or read. */
  function CommName(fs: ProcFs, pid: nat): (r: Option<string>)
    ensures r.Some? ==> '\n' !in r.value
  {
    if pid !in fs.comm then None
    else
      match fs.comm[pid]
      case Line(text) =>
        var n := UpToNewline(text);
        assert forall k :: 0 <= k < |n| ==> n[k] == text[k];
        Some(n)
      case _ => None
  }

  /** A directory d_type both scanners accept. */
  predicate ScannedType(t: DType)
  {
    t == DtDir || t == DtUnknown
  }

  /** The name a /proc entry contributes to a scan: it must be a directory
      (or of unknown type), have a positive numeric name, have a readable
      comm file, and not be a kernel thread (comm starting with '['). */
  function ListedName(fs: ProcFs, e: DirEntry): (r: Option<string>)
    ensures r.Some? ==> (r.value == [] || r.value[0] != '[')
    ensures r.Some? ==> PidOfEntry(e.name).Some? && CommName(fs, PidOfEntry(e.name).value) == r
  {
    if !ScannedType(e.dtype) then None
    else
      match PidOfEntry(e.name)
      case None => None
      case Some(pid) =>
        match CommName(fs, pid)
        case None => None
        case Some(n) => if n != [] && n[0] == '[' then None else Some(n)
  }

  /** pid_matches_comm: the cached pid is positive, the wanted name is
      non-empty, and /proc/<pid>/comm still holds exactly that name. */
  predicate PidMatchesComm(fs: ProcFs, pid: nat, name: string)
  {
    pid > 0 && name != [] && CommName(fs, pid) == Some(name)
  }

  /** Index of the first entry at or after i whose listed name is `name`,
      or |entries| when none is. */
  function FirstMatchFrom(fs: ProcFs, entries: seq<DirEntry>, name: string, i: nat): (r: nat)
    requires i <= |entries|
    ensures i <= r <= |entries|
    ensures forall k :: i <= k < r ==> ListedName(fs, entries[k]) != Some(name)
    ensures r < |entries| ==> ListedName(fs, entries[r]) == Some(name)
    decreases |entries| - i
  {
    if i == |entries| then i
    else if ListedName(fs, entries[i]) == Some(name) then i
    else FirstMatchFrom(fs, entries, name, i + 1)
  }

  /** What find_pid_by_comm returns, as a function of the snapshot. */
  function FirstPidWithComm(fs: ProcFs, name: string): nat
  {
    if name == [] || fs.listing.None? then 0
    else
      var entries := fs.listing.value;
      var i := FirstMatchFrom(fs, entries, name, 0);
      if i == |entries| then 0 else PidOfEntry(entries[i].name).value
  }

  /** find_pid_by_comm: scan /proc in readdir() order and return the pid of
      the first accepted entry whose comm equals the name; 0 when the name
      is empty, /proc cannot be opened, or nothing matches. */
  method FindPidByComm(fs: ProcFs, name: string) returns (pid: nat)
    ensures pid == FirstPidWithComm(fs, name)
  {
    if name == [] {
      return 0;
    }
    if fs.listing.None? {
      return 0;
    }
    var entries := fs.listing.value;
    var i := 0;
    while i < |entries|
      invariant 0 <= i <= |entries|
      invariant FirstMatchFrom(fs, entries, name, i) == FirstMatchFrom(fs, entries, name, 0)
    {
      var e := entries[i];
      i := i + 1;
      if !ScannedType(e.dtype) {
        continue;
      }
      var entryPid := PidOfEntry(e.name);
      if entryPid.None? {
        continue;
      }
      if entryPid.value !in fs.comm || !fs.comm[entryPid.value].Line? {
        continue;
      }
      var buf := UpToNewline(fs.comm[entryPid.value].text);
      if buf != [] && buf[0] == '[' {
        continue;
      }
      if buf == name {
        return entryPid.value;
      }
    }
    return 0;
  }

  /** find_pid_by_comm returns 0 exactly when the name is empty, /proc
      cannot be listed, or no accepted entry carries the name; otherwise it
      returns the pid of the first such entry in scan order. */
  lemma FirstPidWithCommSpec(fs: ProcFs, name: string)
    ensures FirstPidWithComm(fs, name) == 0 <==>
              name == [] || fs.listing.None? ||
              forall k :: 0 <= k < |fs.listing.value| ==> ListedName(fs, fs.listing.value[k]) != Some(name)
    ensures FirstPidWithComm(fs, name) != 0 ==>
              exists i :: 0 <= i < |fs.listing.value| &&
                ListedName(fs, fs.listing.value[i]) == Some(name) &&
                PidOfEntry(fs.listing.value[i].name) == Some(FirstPidWithComm(fs, name)) &&
                forall k :: 0 <= k < i ==> ListedName(fs, fs.listing.value[k]) != Some(name)
  {
    if name != [] && fs.listing.Some? {
      var entries := fs.listing.value;
      var i := FirstMatchFrom(fs, entries, name, 0);
      if i < |entries| {
        assert ListedName(fs, entries[i]) == Some(name);
      }
    }
  }

  /** A pid find_pid_by_comm returns passes the revalidation
      pid_matches_comm performs later on the same snapshot, and never
      belongs to a kernel thread. */
  lemma FoundPidMatchesComm(fs: ProcFs, name: string)
    ensures FirstPidWithComm(fs, name) != 0 ==>
              PidMatchesComm(fs, FirstPidWithComm(fs, name), name) && name[0] != '['
  {
    if name != [] && fs.listing.Some? {
      var entries := fs.listing.value;
      var i := FirstMatchFrom(fs, entries, name, 0);
      if i < |entries| {
        assert ListedName(fs, entries[i]) == Some(name);
      }
    }
  }
}
