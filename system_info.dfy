/** system_info.c: the one-shot description of the host (kernel, machine,
    operating system, hostname) sent to a client when it connects.

    uname(), gethostname() and the os-release files are inputs: a failed
    call is `None`, a file is the sequence of strings its fgets() calls
    return. */
module SystemInfo {
  import opened Text
  import opened Limits
  import opened ProcMonitor

  const NUL: char := '\0'

  /** Bytes a record field keeps before its terminating NUL. */
  const FIELD_TEXT_LENGTH: nat := MAX_SYSINFO_FIELD - 1

  /** A string enclosed in double quotes: at least two bytes, both ends '"'. */
  predicate Quoted(s: string)
  {
    |s| >= 2 && s[0] == '"' && s[|s| - 1] == '"'
  }

  /** strip_quotes on a value: one enclosing pair of quotes removed. */
  function Unquoted(s: string): (r: string)
    ensures Quoted(s) ==> "\"" + r + "\"" == s
    ensures !Quoted(s) ==> r == s
  {
    if Quoted(s) then s[1..|s| - 1] else s
  }

  /** Quoting a value and stripping it again gives the value back. */
  lemma QuoteRoundTrip(v: string)
    ensures Unquoted("\"" + v + "\"") == v
  {
    var q := "\"" + v + "\"";
    assert Quoted(q);
    assert q[1..|q| - 1] == v;
  }

  /** A string is left alone exactly when it is not quoted. */
  lemma UnquotedFixedIff(s: string)
    ensures Unquoted(s) == s <==> !Quoted(s)
  {
    if Quoted(s) {
      assert |Unquoted(s)| == |s| - 2;
    }
  }

  /** The C string stored from index i of a buffer: the bytes up to the
      first NUL. */
  function CString(a: seq<char>, i: nat): string
    requires i <= |a|
  {
    a[i..][..IndexOf(a[i..], NUL)]
  }

  /** A buffer holding a terminated C string from index i on. */
  predicate Terminated(a: seq<char>, i: nat)
  {
    i <= |a| && NUL in a[i..]
  }

  /** The string of a buffer is the bytes before a NUL at offset n when
      no earlier byte is NUL. */
  lemma CStringAt(a: seq<char>, i: nat, n: nat)
    requires i + n < |a| && a[i + n] == NUL
    requires forall k :: i <= k < i + n ==> a[k] != NUL
    ensures Terminated(a, i) && CString(a, i) == a[i..i + n]
  {
    var s := a[i..];
    assert s[n] == NUL;
    assert forall k :: 0 <= k < n ==> s[k] != NUL;
  }

  /** A terminated string is followed by its NUL and holds no NUL. */
  lemma CStringEnds(a: seq<char>, i: nat)
    requires Terminated(a, i)
    ensures var n := |CString(a, i)|;
      i + n < |a| && a[i + n] == NUL && forall k :: i <= k < i + n ==> a[k] != NUL && a[k] == CString(a, i)[k - i]
  {
    var s := a[i..];
    var n := IndexOf(s, NUL);
    assert n < |s|;
    assert s[n] == a[i + n];
    forall k | i <= k < i + n
      ensures a[k] != NUL && a[k] == CString(a, i)[k - i]
    {
      assert s[k - i] == a[k];
    }
  }

  /** memmove(buf + at, buf + at + 1, n): n bytes move one place down. */
  method MoveDown(buf: array<char>, at: nat, n: nat)
    requires at + n < buf.Length
    modifies buf
    ensures forall j :: at <= j < at + n ==> buf[j] == old(buf[j + 1])
    ensures forall j :: 0 <= j < buf.Length && !(at <= j < at + n) ==> buf[j] == old(buf[j])
  {
    var k := 0;
    while k < n
      invariant 0 <= k <= n
      invariant forall j :: at <= j < at + k ==> buf[j] == old(buf[j + 1])
      invariant forall j :: 0 <= j < buf.Length && !(at <= j < at + k) ==> buf[j] == old(buf[j])
    {
      buf[at + k] := buf[at + k + 1];
      k := k + 1;
    }
  }

  /** strip_quotes(s) on the C string that starts at `start` in `buf`:
      when the string is quoted its bytes move one place left over the
      opening quote (memmove) and a NUL replaces the byte before the
      closing quote; otherwise nothing is written. */
  method StripQuotes(buf: array<char>, start: nat)
    requires Terminated(buf[..], start)
    modifies buf
    ensures Terminated(buf[..], start)
    ensures CString(buf[..], start) == Unquoted(old(CString(buf[..], start)))
    ensures forall k :: 0 <= k < buf.Length && !(start <= k < start + |old(CString(buf[..], start))|) ==>
              buf[k] == old(buf[k])
  {
    ghost var s := CString(buf[..], start);
    CStringEnds(buf[..], start);
    var len := |CString(buf[..], start)|;
    if len >= 2 && buf[start] == '"' && buf[start + len - 1] == '"' {
      MoveDown(buf, start, len - 2);
      buf[start + len - 2] := NUL;
      ghost var b := buf[..];
      assert forall k :: start <= k < start + len - 2 ==> b[k] == s[k - start + 1];
      CStringAt(b, start, len - 2);
      ShiftedSlice(b, s, start, len - 2);
    } else {
      assert buf[..] == old(buf[..]);
    }
  }

  /** Bytes moved one place left over an opening byte form the slice that
      follows it. */
  lemma ShiftedSlice(b: seq<char>, s: string, start: nat, n: nat)
    requires start + n <= |b| && n + 1 <= |s|
    requires forall k :: start <= k < start + n ==> b[k] == s[k - start + 1]
    ensures b[start..start + n] == s[1..n + 1]
  {
    var t := b[start..start + n];
    assert forall k :: 0 <= k < n ==> t[k] == b[start + k];
  }

  /** One `KEY=value` assignment of an os-release file. */
  datatype Assignment = Assignment(key: string, value: string)

  /** One fgets() line of read_os_release: comment lines and lines that
      begin with a newline are skipped; otherwise the newline is cut off,
      the key is the text before the first '=', and the value is the rest
      with one pair of enclosing quotes removed. A line without '=' is
      skipped. */
  function ParseOsReleaseLine(line: string): (r: Option<Assignment>)
    ensures r.Some? ==> '=' !in r.value.key && '\n' !in r.value.key && '\n' !in r.value.value
    ensures r.Some? ==> line != [] && line[0] != '#' && line[0] != '\n'
  {
    if line != [] && (line[0] == '#' || line[0] == '\n') then None
    else
      var text := UpToNewline(line);
      var eq := IndexOf(text, '=');
      if eq == |text| then None
      else
        assert forall k :: 0 <= k < |text| ==> text[k] == line[k];
        assert text[eq + 1..] == line[eq + 1..|text|];
        Some(Assignment(text[..eq], Unquoted(text[eq + 1..])))
  }

  /** Writing an assignment as `KEY="value"` and parsing the line gives
      the assignment back. */
  lemma ParseOsReleaseLineRoundTrip(key: string, value: string)
    requires '=' !in key && '\n' !in key && '\n' !in value
    requires key != [] ==> key[0] != '#'
    ensures ParseOsReleaseLine(key + "=\"" + value + "\"\n") == Some(Assignment(key, value))
  {
    var q := "\"" + value + "\"";
    var line := key + "=" + q + "\n";
    assert key + "=\"" + value + "\"\n" == line;
    assert line[|key|] == '=';
    assert forall k :: 0 <= k < |key| ==> line[k] == key[k];
    assert forall k :: |key| < k < |line| - 1 ==> line[k] == q[k - |key| - 1];
    assert forall j :: 0 <= j < |q| ==> q[j] != '\n' by {
      assert forall j :: 0 < j < |q| - 1 ==> q[j] == value[j - 1];
    }
    assert forall k :: 0 <= k < |line| - 1 ==> line[k] != '\n';
    assert line[|line| - 1] == '\n';
    assert IndexOf(line, '\n') == |line| - 1;
    var text := UpToNewline(line);
    assert text == key + "=" + q;
    assert IndexOf(text, '=') == |key|;
    assert text[|key| + 1..] == q && text[..|key|] == key;
    assert line[0] != '#' && line[0] != '\n';
    QuoteRoundTrip(value);
  }

  /** The os-release fields of the record. */
  datatype OsRelease = OsRelease(name: string, version: string, prettyName: string)

  predicate IsOsKey(key: string)
  {
    key == "NAME" || key == "VERSION" || key == "PRETTY_NAME"
  }

  /** The record field an os-release key fills. */
  function OsField(os: OsRelease, key: string): string
    requires IsOsKey(key)
  {
    if key == "NAME" then os.name else if key == "VERSION" then os.version else os.prettyName
  }

  /** Fields that fit their 128-byte buffers. */
  predicate OsFits(os: OsRelease)
  {
    |os.name| <= FIELD_TEXT_LENGTH && |os.version| <= FIELD_TEXT_LENGTH &&
    |os.prettyName| <= FIELD_TEXT_LENGTH
  }

  /** One line's effect: NAME, VERSION and PRETTY_NAME replace their field
      with the value cut to 127 bytes; every other line changes nothing. */
  function ApplyLine(os: OsRelease, line: string): (r: OsRelease)
    ensures forall key | IsOsKey(key) ::
              OsField(r, key) == match ParseOsReleaseLine(line)
                                 case Some(a) => if a.key == key then Truncate(a.value, FIELD_TEXT_LENGTH)
                                                 else OsField(os, key)
                                 case None => OsField(os, key)
  {
    match ParseOsReleaseLine(line)
    case None => os
    case Some(a) =>
      if a.key == "NAME" then os.(name := Truncate(a.value, FIELD_TEXT_LENGTH))
      else if a.key == "VERSION" then os.(version := Truncate(a.value, FIELD_TEXT_LENGTH))
      else if a.key == "PRETTY_NAME" then os.(prettyName := Truncate(a.value, FIELD_TEXT_LENGTH))
      else os
  }

  /** The lines of a file applied in order. */
  function ApplyLines(os: OsRelease, lines: seq<string>): OsRelease
  {
    if lines == [] then os else ApplyLine(ApplyLines(os, lines[..|lines| - 1]), lines[|lines| - 1])
  }

  /** The line assigns the key. */
  predicate Assigns(line: string, key: string)
  {
    ParseOsReleaseLine(line).Some? && ParseOsReleaseLine(line).value.key == key
  }

  /** A field holds the value of the last line that assigns its key. */
  lemma {:induction false} LastAssignmentWins(os: OsRelease, lines: seq<string>, key: string, i: nat)
    requires IsOsKey(key) && i < |lines| && Assigns(lines[i], key)
    requires forall j :: i < j < |lines| ==> !Assigns(lines[j], key)
    ensures OsField(ApplyLines(os, lines), key) == Truncate(ParseOsReleaseLine(lines[i]).value.value, FIELD_TEXT_LENGTH)
    decreases |lines|
  {
    var init := lines[..|lines| - 1];
    if i < |lines| - 1 {
      LastAssignmentWins(os, init, key, i);
    }
  }

  /** A field no line assigns keeps its value. */
  lemma {:induction false} UnassignedFieldKept(os: OsRelease, lines: seq<string>, key: string)
    requires IsOsKey(key)
    requires forall j :: 0 <= j < |lines| ==> !Assigns(lines[j], key)
    ensures OsField(ApplyLines(os, lines), key) == OsField(os, key)
    decreases |lines|
  {
    if lines != [] {
      UnassignedFieldKept(os, lines[..|lines| - 1], key);
    }
  }

  /** Fields that fit their buffers still fit after any number of lines. */
  lemma {:induction false} ApplyLinesFits(os: OsRelease, lines: seq<string>)
    requires OsFits(os)
    ensures OsFits(ApplyLines(os, lines))
    decreases |lines|
  {
    if lines != [] {
      var prev := ApplyLines(os, lines[..|lines| - 1]);
      ApplyLinesFits(os, lines[..|lines| - 1]);
      var r := ApplyLines(os, lines);
      assert OsField(r, "NAME") == r.name && OsField(r, "VERSION") == r.version;
      assert OsField(r, "PRETTY_NAME") == r.prettyName;
    }
  }

  /** The file read_os_release reads: /etc/os-release, or /usr/lib/os-release
      when the first cannot be opened. */
  function OsReleaseFile(etc: Option<seq<string>>, usrLib: Option<seq<string>>): (r: Option<seq<string>>)
    ensures etc.Some? ==> r == etc
    ensures etc.None? ==> r == usrLib
  {
    if etc.Some? then etc else usrLib
  }

  /** The fields after read_os_release: unchanged when neither file opens. */
  function OsReleaseAfter(os: OsRelease, etc: Option<seq<string>>, usrLib: Option<seq<string>>): OsRelease
  {
    match OsReleaseFile(etc, usrLib)
    case None => os
    case Some(lines) => ApplyLines(os, lines)
  }

  /** The uname() fields the record copies. */
  datatype Uname = Uname(release: string, version: string, machine: string)

  /** The whole record, as read_system_info leaves it. */
  datatype Record = Record(kernelRelease: string, kernelVersion: string, machine: string, os: OsRelease,
                           hostname: string, cpuCoreCount: nat)

  const EMPTY_OS: OsRelease := OsRelease("", "", "")

  /** memset(out, 0, sizeof(*out)) */
  const ZEROED: Record := Record("", "", "", EMPTY_OS, "", 0)

  /** gethostname() into the 128-byte field: empty on failure, otherwise
      cut to 127 bytes by the forced NUL. */
  function Hostname(host: Option<string>): (r: string)
    ensures |r| <= FIELD_TEXT_LENGTH
    ensures host.Some? ==> StartsWith(host.value, r)
  {
    if host.None? then "" else Truncate(host.value, FIELD_TEXT_LENGTH)
  }

  /** struct system_info */
  class SystemInfoRecord {
    var kernelRelease: string
    var kernelVersion: string
    var machine: string
    var osName: string
    var osVersion: string
    var osPrettyName: string
    var hostname: string
    var cpuCoreCount: nat

    function OsFields(): OsRelease
      reads this
    {
      OsRelease(osName, osVersion, osPrettyName)
    }

    function Contents(): Record
      reads this
    {
      Record(kernelRelease, kernelVersion, machine, OsFields(), hostname, cpuCoreCount)
    }

    /** Every text field fits its 128-byte buffer. */
    predicate Fits()
      reads this
    {
      |kernelRelease| <= FIELD_TEXT_LENGTH && |kernelVersion| <= FIELD_TEXT_LENGTH &&
      |machine| <= FIELD_TEXT_LENGTH && OsFits(OsFields()) && |hostname| <= FIELD_TEXT_LENGTH
    }

    constructor ()
      ensures Contents() == ZEROED
    {
      kernelRelease, kernelVersion, machine := "", "", "";
      osName, osVersion, osPrettyName := "", "", "";
      hostname, cpuCoreCount := "", 0;
    }

    /** read_os_release: the lines of the file that opens are applied in
        order; the other fields are not touched. */
    method ReadOsRelease(etc: Option<seq<string>>, usrLib: Option<seq<string>>)
      modifies this
      ensures OsFields() == OsReleaseAfter(old(OsFields()), etc, usrLib)
      ensures kernelRelease == old(kernelRelease) && kernelVersion == old(kernelVersion)
      ensures machine == old(machine) && hostname == old(hostname) && cpuCoreCount == old(cpuCoreCount)
    {
      var file := etc;
      if file.None? {
        file := usrLib;
        if file.None? {
          return;
        }
      }
      var lines := file.value;
      var i := 0;
      while i < |lines|
        invariant 0 <= i <= |lines|
        invariant OsFields() == ApplyLines(old(OsFields()), lines[..i])
        invariant kernelRelease == old(kernelRelease) && kernelVersion == old(kernelVersion)
        invariant machine == old(machine) && hostname == old(hostname) && cpuCoreCount == old(cpuCoreCount)
      {
        assert lines[..i + 1][..i] == lines[..i];
        var a := ParseOsReleaseLine(lines[i]);
        if a.Some? {
          if a.value.key == "NAME" {
            osName := Truncate(a.value.value, FIELD_TEXT_LENGTH);
          } else if a.value.key == "VERSION" {
            osVersion := Truncate(a.value.value, FIELD_TEXT_LENGTH);
          } else if a.value.key == "PRETTY_NAME" {
            osPrettyName := Truncate(a.value.value, FIELD_TEXT_LENGTH);
          }
        }
        i := i + 1;
      }
      assert lines[..|lines|] == lines;
    }

    /** read_system_info: the record is cleared, and false is returned
        only when uname() fails; otherwise the uname() fields (cut to 127
        bytes), the hostname, the os-release fields and the core count
        are filled in. */
    method ReadSystemInfo(uts: Option<Uname>, host: Option<string>, etc: Option<seq<string>>,
                          usrLib: Option<seq<string>>, cores: CoreCount) returns (ok: bool)
      modifies this
      ensures ok <==> uts.Some?
      ensures !ok ==> Contents() == ZEROED
      ensures ok ==> Contents() == Record(Truncate(uts.value.release, FIELD_TEXT_LENGTH),
                                          Truncate(uts.value.version, FIELD_TEXT_LENGTH),
                                          Truncate(uts.value.machine, FIELD_TEXT_LENGTH),
                                          OsReleaseAfter(EMPTY_OS, etc, usrLib), Hostname(host), cores)
      ensures Fits()
    {
      kernelRelease, kernelVersion, machine := "", "", "";
      osName, osVersion, osPrettyName := "", "", "";
      hostname, cpuCoreCount := "", 0;
      if uts.None? {
        return false;
      }
      var u := uts.value;
      kernelRelease := Truncate(u.release, FIELD_TEXT_LENGTH);
      kernelVersion := Truncate(u.version, FIELD_TEXT_LENGTH);
      machine := Truncate(u.machine, FIELD_TEXT_LENGTH);
      if host.None? {
        hostname := "";
      } else {
        hostname := Truncate(host.value, FIELD_TEXT_LENGTH);
      }
      ReadOsRelease(etc, usrLib);
      OsReleaseFits(etc, usrLib);
      cpuCoreCount := cores;
      return true;
    }
  }

  /** Whatever the os-release files hold, the fields read_system_info
      fills from them fit their buffers. */
  lemma OsReleaseFits(etc: Option<seq<string>>, usrLib: Option<seq<string>>)
    ensures OsFits(OsReleaseAfter(EMPTY_OS, etc, usrLib))
  {
    var file := OsReleaseFile(etc, usrLib);
    if file.Some? {
      ApplyLinesFits(EMPTY_OS, file.value);
    }
  }
}
