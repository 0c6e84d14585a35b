/** json_out.c: the periodic snapshot frame and the one-shot process-list
    and storage responses, written into fixed-size character buffers.
    jansson's compact serializer is a parameter (`dump`); the formatted
    snapshot header (printf of the system statistics) is an input. */
module JsonOut {
  import opened Text
  import opened Limits
  import opened JsonValue
  import opened Sessions
  import opened ProcFs
  import opened ProcMonitor
  import opened ProcList
  import opened Storage

  const NUL: char := '\0'

  /** snprintf(out + at, out.Length - at, "%s", text): as much of the text
      as fits before a terminating NUL; the return value is the full
      length of the text. */
  method WriteText(out: array<char>, at: nat, text: string) returns (ret: nat)
    requires at < out.Length
    modifies out
    ensures ret == |text|
    ensures var n := Min(|text|, out.Length - at - 1);
      (forall k :: 0 <= k < n ==> out[at + k] == text[k]) && out[at + n] == NUL &&
      (forall k :: 0 <= k < out.Length && (k < at || at + n < k) ==> out[k] == old(out[k]))
  {
    var n := Min(|text|, out.Length - at - 1);
    var i := 0;
    while i < n
      invariant 0 <= i <= n
      invariant forall k :: 0 <= k < i ==> out[at + k] == text[k]
      invariant forall k :: 0 <= k < out.Length && (k < at || at + i <= k) ==> out[k] == old(out[k])
    {
      out[at + i] := text[i];
      i := i + 1;
    }
    out[at + n] := NUL;
    return |text|;
  }

  /** The "proc" object of a snapshot frame. */
  function ProcJson(name: string, p: ProcSample): Json
  {
    JObject([Member("name", JString(name)), Member("cpu", JReal(p.cpu)), Member("rss_kb", JInteger(p.rssKb)),
             Member("pss_kb", JInteger(p.pssKb)), Member("uss_kb", JInteger(p.ussKb)), Member("pid", JInteger(p.pid))])
  }

  /** The error message, formatted into a 128-byte buffer. */
  function NotFoundMessage(name: string): string
  {
    Truncate("Process '" + name + "' not found", ERROR_MESSAGE_LENGTH - 1)
  }

  /** A process name fits its 64-byte buffer, so the message is never cut. */
  lemma NotFoundMessageWhole(name: string)
    requires |name| < MAX_PROC_NAME_LENGTH
    ensures NotFoundMessage(name) == "Process '" + name + "' not found"
  {
  }

  /** The "error" object of a snapshot frame. */
  function ErrorJson(name: string): Json
  {
    JObject([Member("type", JString("process_not_found")), Member("message", JString(NotFoundMessage(name)))])
  }

  /** The text appended after the header when monitoring is enabled: the
      process object when the read succeeded, the error object otherwise;
      None when the object cannot be allocated or its serialization does not
      fit the 256-byte scratch buffer. */
  function ProcFragment(ok: bool, name: string, sample: ProcSample, allocOk: bool, dump: Json -> string): Option<string>
  {
    if !allocOk then None
    else
      var d := if ok then dump(ProcJson(name, sample)) else dump(ErrorJson(name));
      if |d| > FRAGMENT_BUFFER_LENGTH then None
      else if ok then Some(", \"proc\": " + d)
      else Some(", \"error\": " + d)
  }

  /** Closing the object needs room for '}' and the NUL. */
  function CloseFrame(outSize: nat, body: string): Option<string>
  {
    if |body| + 1 >= outSize then None else Some(body + "}")
  }

  /** A snapshot frame (None: dropped) and the session's monitor state after
      building it. */
  datatype Frame = Frame(text: Option<string>, state: MonitorState)

  /** build_stats_json: the header, then for a monitoring session the
      process or error fragment sampled at the snapshot's monotonic time,
      then '}'. Every check that fails drops the whole frame. */
  function StatsFrame(outSize: nat, header: string, enabled: bool, name: string, st: MonitorState, fs: ProcFs,
                      monoMs: nat, clkTck: int, cores: CoreCount, allocOk: bool, dump: Json -> string): Frame
  {
    if |header| >= outSize then Frame(None, st)
    else if !enabled then Frame(CloseFrame(outSize, header), st)
    else
      var o := ProcessStats(name, st, fs, monoMs, clkTck, cores);
      match ProcFragment(o.ok, name, o.sample, allocOk, dump)
      case None => Frame(None, o.state)
      case Some(f) =>
        if |f| >= outSize - |header| then Frame(None, o.state)
        else Frame(CloseFrame(outSize, header + f), o.state)
  }

  /** The fragment a frame carries after its header. */
  function FragmentOf(enabled: bool, name: string, st: MonitorState, fs: ProcFs, monoMs: nat, clkTck: int,
                      cores: CoreCount, allocOk: bool, dump: Json -> string): Option<string>
  {
    if !enabled then Some("")
    else
      var o := ProcessStats(name, st, fs, monoMs, clkTck, cores);
      ProcFragment(o.ok, name, o.sample, allocOk, dump)
  }

  /** A frame is produced exactly when the header, the fragment, '}' and the
      terminating NUL all fit the buffer, and it is their concatenation; so
      a partial frame is never produced. */
  lemma StatsFrameFits(outSize: nat, header: string, enabled: bool, name: string, st: MonitorState, fs: ProcFs,
                       monoMs: nat, clkTck: int, cores: CoreCount, allocOk: bool, dump: Json -> string)
    ensures var t := StatsFrame(outSize, header, enabled, name, st, fs, monoMs, clkTck, cores, allocOk, dump).text;
      var f := FragmentOf(enabled, name, st, fs, monoMs, clkTck, cores, allocOk, dump);
      (t.Some? <==> f.Some? && |header| + |f.value| + 2 <= outSize) &&
      (t.Some? ==> t.value == header + f.value + "}" && |t.value| < outSize && t.value[|t.value| - 1] == '}')
  {
  }

  /** What a produced frame carries after its header: nothing when the
      session does not monitor a process, the process object when the read
      succeeded, the process_not_found error otherwise. */
  lemma StatsFrameContents(outSize: nat, header: string, enabled: bool, name: string, st: MonitorState, fs: ProcFs,
                           monoMs: nat, clkTck: int, cores: CoreCount, allocOk: bool, dump: Json -> string)
    requires |name| < MAX_PROC_NAME_LENGTH
    requires StatsFrame(outSize, header, enabled, name, st, fs, monoMs, clkTck, cores, allocOk, dump).text.Some?
    ensures var t := StatsFrame(outSize, header, enabled, name, st, fs, monoMs, clkTck, cores, allocOk, dump).text.value;
      var o := ProcessStats(name, st, fs, monoMs, clkTck, cores);
      (!enabled ==> t == header + "}") &&
      (enabled && o.ok ==> t == header + ", \"proc\": " + dump(ProcJson(name, o.sample)) + "}") &&
      (enabled && !o.ok ==>
        t == header + ", \"error\": " +
             dump(JObject([Member("type", JString("process_not_found")),
                           Member("message", JString("Process '" + name + "' not found"))])) + "}")
  {
    NotFoundMessageWhole(name);
  }

  /** Two frames built from the same snapshot (no sampler tick in between)
      both sample the process at the snapshot's monotonic time, so the
      second reports 0 % CPU. */
  lemma SameSnapshotReportsZeroCpu(name: string, st: MonitorState, fs: ProcFs, monoMs: nat, clkTck: int,
                                   cores: CoreCount)
    requires Consistent(st)
    requires ProcessStats(name, st, fs, monoMs, clkTck, cores).ok
    ensures var next := StatsFrame(MAX_WS_MESSAGE_LENGTH, "", true, name, st, fs, monoMs, clkTck, cores, true, j => "").state;
      var again := ProcessStats(name, next, fs, monoMs, clkTck, cores);
      again.ok && again.sample.cpu == 0.0
  {
    SameInstantReportsZero(name, st, fs, monoMs, clkTck, cores);
  }

  /** build_stats_json for one session: on success the buffer holds the
      frame followed by a NUL and `truncated` is false; on every failure the
      result is 0 and `truncated` is true. The session's pid cache and CPU
      baseline advance as read_process_stats leaves them. */
  method BuildStatsJson(out: array<char>, header: string, s: Session, fs: ProcFs, monoMs: nat, clkTck: int,
                        cores: CoreCount, allocOk: bool, dump: Json -> string)
    returns (len: nat, truncated: bool)
    requires s.Valid()
    modifies out, s
    ensures var f := StatsFrame(out.Length, header, old(s.procEnabled), old(s.procName), old(s.Monitor()), fs,
                                monoMs, clkTck, cores, allocOk, dump);
      s.Monitor() == f.state &&
      (f.text.Some? ==> len == |f.text.value| && len < out.Length && out[..len] == f.text.value &&
                        out[len] == NUL && !truncated) &&
      (f.text.None? ==> len == 0 && truncated)
    ensures s.counted == old(s.counted) && s.procName == old(s.procName) && s.procEnabled == old(s.procEnabled)
  {
    truncated := false;
    var jsonLen := |header|;
    if out.Length > 0 {
      var _ := WriteText(out, 0, header);
    }
    if jsonLen >= out.Length {
      return 0, true;
    }
    assert out[..jsonLen] == header;
    var body := header;
    if s.procEnabled {
      var ok, sample := ReadProcessStats(s, s.procName, fs, monoMs, clkTck, cores);
      if !allocOk {
        return 0, true;
      }
      var d := if ok then dump(ProcJson(s.procName, sample)) else dump(ErrorJson(s.procName));
      if |d| > FRAGMENT_BUFFER_LENGTH {
        return 0, true;
      }
      var fragment := if ok then ", \"proc\": " + d else ", \"error\": " + d;
      assert ProcFragment(ok, s.procName, sample, allocOk, dump) == Some(fragment);
      var fits := AppendText(out, header, fragment);
      if !fits {
        return 0, true;
      }
      body := header + fragment;
    }
    len, truncated := CloseObject(out, body);
  }

  /** The fragment's snprintf after the body already in the buffer: it fits
      when the return value is below the room left, and the buffer then
      holds body + fragment. */
  method AppendText(out: array<char>, body: string, fragment: string) returns (fits: bool)
    requires |body| < out.Length && out[..|body|] == body
    modifies out
    ensures fits <==> |fragment| < out.Length - |body|
    ensures fits ==> out[..|body| + |fragment|] == body + fragment
  {
    var ret := WriteText(out, |body|, fragment);
    if ret >= out.Length - |body| {
      return false;
    }
    forall k | 0 <= k < |body| + |fragment|
      ensures out[k] == (body + fragment)[k]
    {
      if k >= |body| {
        assert out[|body| + (k - |body|)] == fragment[k - |body|];
      }
    }
    return true;
  }

  /** The closing '}' and NUL after the body: the frame is produced when
      both fit, and dropped otherwise. */
  method CloseObject(out: array<char>, body: string) returns (len: nat, truncated: bool)
    requires |body| <= out.Length && out[..|body|] == body
    modifies out
    ensures var t := CloseFrame(out.Length, body);
      (t.Some? ==> len == |t.value| && len < out.Length && out[..len] == t.value && out[len] == NUL && !truncated) &&
      (t.None? ==> len == 0 && truncated)
  {
    var jsonLen := |body|;
    if jsonLen >= out.Length {
      return 0, true;
    }
    if jsonLen + 1 >= out.Length {
      return 0, true;
    }
    out[jsonLen] := '}';
    jsonLen := jsonLen + 1;
    out[jsonLen] := NUL;
    assert out[..jsonLen] == body + "}";
    return jsonLen, false;
  }

  /** The response document of a list builder: { key: [items] }. */
  function ListDoc(key: string, items: seq<Json>): Json
  {
    JObject([Member(key, JArray(items))])
  }

  /** json_dumpb fits: the serialization is no longer than the buffer. */
  predicate Fits(outSize: nat, key: string, items: seq<Json>, dump: Json -> string)
  {
    |dump(ListDoc(key, items))| <= outSize
  }

  /** The number of items left after dropping tail items one at a time until
      the document fits; None when even the empty array does not fit. */
  function FittingPrefix(outSize: nat, key: string, items: seq<Json>, dump: Json -> string): (r: Option<nat>)
    ensures r.Some? ==> r.value <= |items| && Fits(outSize, key, items[..r.value], dump)
    decreases |items|
  {
    if Fits(outSize, key, items, dump) then
      assert items[..|items|] == items;
      Some(|items|)
    else if items == [] then None
    else
      var r := FittingPrefix(outSize, key, items[..|items| - 1], dump);
      assert r.Some? ==> items[..|items| - 1][..r.value] == items[..r.value];
      r
  }

  /** The prefix kept is the longest one that fits; None means no prefix,
      not even the empty one, fits. */
  lemma {:induction false} FittingPrefixIsLongest(outSize: nat, key: string, items: seq<Json>, dump: Json -> string)
    ensures var r := FittingPrefix(outSize, key, items, dump);
      (r.Some? ==> forall j :: r.value < j <= |items| ==> !Fits(outSize, key, items[..j], dump)) &&
      (r.None? ==> forall j :: 0 <= j <= |items| ==> !Fits(outSize, key, items[..j], dump))
    decreases |items|
  {
    if !Fits(outSize, key, items, dump) {
      assert items[..|items|] == items;
      if items != [] {
        var init := items[..|items| - 1];
        FittingPrefixIsLongest(outSize, key, init, dump);
        assert forall j :: 0 <= j <= |init| ==> init[..j] == items[..j];
      }
    }
  }

  /** A list response: the text placed in the buffer (empty: 0 returned)
      and the `truncated` flag. */
  datatype ListOutcome = ListOutcome(text: string, truncated: bool)

  /** A list builder: allocation failure of the response gives 0 without
      `truncated`; items are appended until the first append that fails
      (index appendFailsAt); then tail items are dropped until the document
      fits. `truncated` reports a failed append or a dropped item. */
  function ListJson(outSize: nat, key: string, items: seq<Json>, allocOk: bool, appendFailsAt: nat,
                    dump: Json -> string): ListOutcome
  {
    if !allocOk then ListOutcome("", false)
    else
      var appended := items[..Min(|items|, appendFailsAt)];
      var appendFailed := appendFailsAt < |items|;
      match FittingPrefix(outSize, key, appended, dump)
      case None => ListOutcome("", appendFailed || appended != [])
      case Some(k) => ListOutcome(dump(ListDoc(key, appended[..k])), appendFailed || k < |appended|)
  }

  /** The emitted array is a prefix of the collected list, the longest one
      that fits among those appended; `truncated` is set exactly when an
      item is missing from the response; when the whole list is appended and
      fits, it is emitted whole; and the result is empty only when the
      response could not be allocated or not even the empty array fits. */
  lemma ListJsonMeaning(outSize: nat, key: string, items: seq<Json>, allocOk: bool, appendFailsAt: nat,
                        dump: Json -> string)
    requires allocOk
    requires forall j :: 0 <= j <= |items| ==> dump(ListDoc(key, items[..j])) != []
    ensures var o := ListJson(outSize, key, items, allocOk, appendFailsAt, dump);
      (o.text != [] ==> exists k :: 0 <= k <= |items| && o.text == dump(ListDoc(key, items[..k])) &&
                                     Fits(outSize, key, items[..k], dump) &&
                                     (o.truncated <==> k < |items|)) &&
      (o.text == [] ==> !Fits(outSize, key, [], dump) && (o.truncated <==> items != []))
    ensures appendFailsAt >= |items| && Fits(outSize, key, items, dump) ==>
              ListJson(outSize, key, items, allocOk, appendFailsAt, dump) == ListOutcome(dump(ListDoc(key, items)), false)
  {
    var appended := items[..Min(|items|, appendFailsAt)];
    FittingPrefixIsLongest(outSize, key, appended, dump);
    assert appended[..0] == [] == items[..0];
    var r := FittingPrefix(outSize, key, appended, dump);
    if r.Some? {
      assert appended[..r.value] == items[..r.value];
    }
    if appendFailsAt >= |items| {
      assert appended == items[..|items|] == items;
    }
  }

  /** The fit loop of the list builders: one serialization attempt per
      pass, one tail item dropped per failed attempt, so at most n + 1
      attempts for n appended items. */
  method FitList(out: array<char>, key: string, appended: seq<Json>, dump: Json -> string)
    returns (len: nat, dropped: bool, ghost attempts: nat)
    modifies out
    ensures var r := FittingPrefix(out.Length, key, appended, dump);
      (r.Some? ==> var d := dump(ListDoc(key, appended[..r.value]));
                   len == |d| && out[..len] == d && (dropped <==> r.value < |appended|)) &&
      (r.None? ==> len == 0 && (dropped <==> appended != []))
    ensures attempts <= |appended| + 1
  {
    var arr := appended;
    dropped := false;
    attempts := 0;
    while true
      invariant |arr| <= |appended| && arr == appended[..|arr|]
      invariant FittingPrefix(out.Length, key, arr, dump) == FittingPrefix(out.Length, key, appended, dump)
      invariant dropped <==> |arr| < |appended|
      invariant attempts == |appended| - |arr|
      decreases |arr|
    {
      attempts := attempts + 1;
      var d := dump(ListDoc(key, arr));
      if |d| <= out.Length {
        forall k | 0 <= k < |d| {
          out[k] := d[k];
        }
        assert arr[..|arr|] == arr;
        return |d|, dropped, attempts;
      }
      if arr == [] {
        return 0, dropped, attempts;
      }
      arr := arr[..|arr| - 1];
      dropped := true;
    }
  }

  /** A list builder over already collected items. */
  method BuildListJson(out: array<char>, key: string, items: seq<Json>, allocOk: bool, appendFailsAt: nat,
                       dump: Json -> string)
    returns (len: nat, truncated: bool)
    modifies out
    ensures var o := ListJson(out.Length, key, items, allocOk, appendFailsAt, dump);
      len == |o.text| && out[..len] == o.text && truncated == o.truncated
  {
    truncated := false;
    if !allocOk {
      return 0, false;
    }
    var arr := [];
    var i := 0;
    while i < |items|
      invariant 0 <= i <= |items| && arr == items[..i]
      invariant i <= appendFailsAt
    {
      if i == appendFailsAt {
        truncated := true;
        break;
      }
      arr := arr + [items[i]];
      i := i + 1;
    }
    assert arr == items[..Min(|items|, appendFailsAt)];
    var dropped;
    ghost var attempts;
    len, dropped, attempts := FitList(out, key, arr, dump);
    truncated := truncated || dropped;
  }

  /** A process name as an array element. */
  function NameItems(names: seq<string>): (r: seq<Json>)
    ensures |r| == |names| && forall k :: 0 <= k < |names| ==> r[k] == JString(names[k])
  {
    if names == [] then [] else [JString(names[0])] + NameItems(names[1..])
  }

  /** build_process_list_json: the unique names of the running processes,
      at most 256 of them, as {"processes": [...]}. */
  method BuildProcessListJson(out: array<char>, fs: ProcFs, allocOk: bool, appendFailsAt: nat, dump: Json -> string)
    returns (len: nat, truncated: bool)
    modifies out
    ensures var o := ListJson(out.Length, "processes", NameItems(CappedNames(fs, MAX_PROCESS_COUNT)), allocOk,
                              appendFailsAt, dump);
      len == |o.text| && out[..len] == o.text && truncated == o.truncated
  {
    var names := new string[MAX_PROCESS_COUNT](_ => []);
    var count := CollectProcessList(names, MAX_PROCESS_COUNT, fs);
    len, truncated := BuildListJson(out, "processes", NameItems(names[..count]), allocOk, appendFailsAt, dump);
  }

  /** One storage entry as an array element. */
  function StorageJson(info: StorageInfo): Json
  {
    JObject([Member("path", JString(info.path)), Member("fs", JString(info.fsType)),
             Member("total_kb", JInteger(info.totalKb)), Member("used_kb", JInteger(info.usedKb)),
             Member("available_kb", JInteger(info.availableKb))])
  }

  function StorageItems(infos: seq<StorageInfo>): (r: seq<Json>)
    ensures |r| == |infos| && forall k :: 0 <= k < |infos| ==> r[k] == StorageJson(infos[k])
  {
    if infos == [] then [] else [StorageJson(infos[0])] + StorageItems(infos[1..])
  }

  /** build_storage_json: the allowlisted mount points that could be
      queried, at most MAX_STORAGE_MOUNTS, as {"storage": [...]}. An object
      that cannot be allocated counts as a failed append. */
  method BuildStorageJson(out: array<char>, env: StorageEnv, allocOk: bool, appendFailsAt: nat, dump: Json -> string)
    returns (len: nat, truncated: bool)
    modifies out
    ensures var o := ListJson(out.Length, "storage", StorageItems(CollectedStorage(env, MAX_STORAGE_MOUNTS)), allocOk,
                              appendFailsAt, dump);
      len == |o.text| && out[..len] == o.text && truncated == o.truncated
  {
    var infos := new StorageInfo[MAX_STORAGE_MOUNTS](_ => StorageInfo([], [], 0, 0, 0));
    var count := CollectStorageInfo(infos, MAX_STORAGE_MOUNTS, env);
    len, truncated := BuildListJson(out, "storage", StorageItems(infos[..count]), allocOk, appendFailsAt, dump);
  }

  /** The fit test as written: json_dumpb returns the serialized length
      whether or not it was written, and the loop accepts any non-negative
      int, so it returns on the first attempt whenever that length fits an
      int. */
  function ListLengthAsWritten(key: string, items: seq<Json>, dump: Json -> string): nat
    decreases |items|
  {
    var n := |dump(ListDoc(key, items))|;
    if n <= INT_MAX then n
    else if items == [] then 0
    else ListLengthAsWritten(key, items[..|items| - 1], dump)
  }

  /** A document longer than the buffer is neither shortened nor rejected:
      the length returned exceeds the buffer, which does not hold the
      document, while the intended loop returns a prefix that fits. */
  lemma ListLengthAsWrittenOverruns(outSize: nat, key: string, items: seq<Json>, dump: Json -> string)
    requires outSize < |dump(ListDoc(key, items))| <= INT_MAX
    ensures ListLengthAsWritten(key, items, dump) > outSize
    ensures !Fits(outSize, key, items, dump)
    ensures FittingPrefix(outSize, key, items, dump).Some? ==>
              FittingPrefix(outSize, key, items, dump).value < |items|
  {
    assert items[..|items|] == items;
  }
}
