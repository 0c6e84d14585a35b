# widget_wizard telemetry server: a Dafny model of its core

widget_wizard is a small C daemon for Axis cameras. It serves live system
telemetry over a WebSocket. A GLib timer samples `/proc` twice a second:
CPU usage from `/proc/stat`, memory from `/proc/meminfo`, uptime and load
averages. Each connected client is sent a JSON snapshot of the latest
sample. A client can ask the server to monitor one process by name, and
the snapshot then carries that process's CPU share, RSS, PSS and USS. A
client can also request a one-shot list of process names or a storage
report for a fixed allowlist of mount points. Next to the server sit
helpers that collect static system information (uname, hostname,
os-release) and discover executable CGI programs.

This project models that core, one Dafny module per C file:

| module | C file | form |
|---|---|---|
| `Text`, `Limits` | C library behaviour shared by all files: `strcspn`, `strchr`, `strstr`, `strncpy`, `sscanf` conversions, 64-bit wrap-around, `strtoull`/`strtol` saturation; constants of `ws_limits.h` and the other headers | functions |
| `Util` | `util.c` | functions |
| `ProcFs`, `ProcStat`, `ProcMonitor`, `ProcList` | `proc.c` | functions that specify the loops, plus methods that run them |
| `Sessions` | `session.h` | a class per connection |
| `WsServer` | `ws_server.c` | step functions for the counters, plus a `Server` class |
| `JsonValue`, `JsonOut` | `json_out.c` | array-writing methods over JSON values |
| `Stats` | `stats.c` | a `Sampler` class holding the sampler's static state |
| `Storage` | `storage.c` | functions, with methods for the loops |
| `SystemInfo` | `system_info.c` | a record class; in-place quote stripping on a `char` array |
| `CgiDiscovery` | `cgi_discovery.c` | a method filling a `string` array |

The operating system is an input everywhere. A `/proc` snapshot, a mount
table, `statvfs` results, a directory tree with `stat` results, file
contents, clock readings and the CPU count are all parameters. Each
operation is stated against that input.

Text is one `char` per byte, and a C string is the text before its first
NUL. A line read with `fgets` is the text of one read, newline included.
C's 64-bit unsigned arithmetic is written out with `WrapU64`. A `%llu`
conversion follows `strtoull`: an optional sign, a magnitude that
saturates at ULLONG_MAX, and a '-' that negates modulo 2^64 (`U64Of`).
`strtol` saturates at LONG_MAX (`ClampLong`). `double` is
modelled as `real`.

## Model

| member | source | states |
|---|---|---|
| Util.GetTimeMs | src/util.c:18-29 | The result is a 64-bit value, and 0 when the clock cannot be read. |
| Util.GetTimeMsExact | src/util.c:27-28 | Below the wrap-around point the result is seconds times 1000 plus whole milliseconds of the nanoseconds, which is the floor of the instant in milliseconds. |
| Util.GetTimeMsMonotone | src/util.c:27-28 | Below the wrap-around point a later instant never gives fewer milliseconds. |
| Util.GetTimeMsWrapsAround | src/util.c:28 | Past 2^64 ms the multiplication wraps: one second later reads as 384 ms. |
| Text.IndexOf | src/system_info.c:54 | `strcspn`/`strchr` for one character: every earlier character differs, and the found one matches. |
| Text.ScanU64 | src/proc.c:193-207 | One `%llu` conversion: it ends after a digit and stores a value within 64 bits. |
| Text.NegateU64IsWrap | src/proc.c:193-207 | A '-' before the digits negates the magnitude modulo 2^64, and the result stays within 64 bits. |
| Text.StoredU64IsU64Of | src/proc.c:193-207 | The value `%llu` stores for a sign and a magnitude is `U64Of` of the signed number: ULLONG_MAX when the magnitude exceeds 64 bits, otherwise the number modulo 2^64. |
| Text.ScanU64At | src/proc.c:193-207 | A space, then a number text (optional '+' or '-', then digits), then a non-digit or the end: the conversion stores `U64Of` of the number and stops right after it. |
| Text.U64RunBounded | src/stats.c:126-135 | Every value of a run of `%llu` conversions is within 64 bits. |
| Text.U64RunFields | src/stats.c:126-135 | Over space-separated number texts, a run of `%llu` conversions reads `U64Of` of each text, in order, whatever its sign. |
| Text.ScanU64List | src/stats.c:126-135 | A run of n `%llu` conversions succeeds with exactly n values, each within 64 bits, or fails. |
| Text.ScanU64ListReadsFields | src/stats.c:126-135 | When at least n number texts follow, the run of n conversions succeeds, and its k-th value is `U64Of` of the k-th text. |
| Text.ScanDecimalList | src/stats.c:202 | A run of `%lf` conversions yields exactly the number of non-negative values asked for, or fails. |
| ProcFs.PidOfEntry | src/proc.c:105-109 | A `/proc` entry name is accepted as a pid only if it is non-empty and the pid is positive. |
| ProcFs.PidOfDecimalName | src/proc.c:105-109 | A non-empty all-digit name whose value is a positive long is accepted with that value. |
| ProcFs.CommName | src/proc.c:114-128 | The comm name, when the file is readable, is cut at the first newline and so contains none. |
| ProcFs.ListedName | src/proc.c:96-133 | A scanned entry yields a name only for a numeric directory whose comm is readable and does not start with '['. |
| ProcFs.FirstMatchFrom | src/proc.c:96-141 | The first entry at or after i whose listed name equals the target, or the end; all entries before it differ. |
| ProcFs.FindPidByComm | src/proc.c:78-145 | The scan loop returns `FirstPidWithComm`. |
| ProcFs.FirstPidWithCommSpec | src/proc.c:78-145 | The result is 0 exactly when the name is empty, `/proc` cannot be opened, or no accepted entry carries the name. Otherwise it is the pid of the first entry, in scan order, that does. |
| ProcFs.FoundPidMatchesComm | src/proc.c:46-71 | A pid found by name passes the `pid_matches_comm` revalidation on the same snapshot and is never a kernel thread. |
| ProcStat.NameEndFrom | src/proc.c:174-182 | The first position from i holding ") X " with X a known state letter; no earlier position qualifies. |
| ProcStat.FindNameEnd | src/proc.c:174-182 | The search loop returns `NameEndFrom`. |
| ProcStat.NameEndSkipsParenInName | src/proc.c:174-182 | Example: in the line "7 (a) b) S 0", the ')' inside the name "a) b" does not end the name. `ProcStat.NameEndAfterName` states the general case. |
| ProcStat.NameEndAfterName | src/proc.c:174-182 | For any name, possibly containing ')', in which no earlier position reads ") X " with X a state letter, the name end found after the '(' is the one right after the name. |
| ProcStat.StatTimesReadsUtimeStime | src/proc.c:168-215 | Take a line "pid (name) X" with X a state letter. Twelve number texts follow, each of either sign, with no earlier ") X " inside the name. Then utime and stime are `U64Of` of the 11th and 12th numbers after the state letter, whatever the other numbers are. For example "1 (init) S 0 1 1 0 -1 4194560 100 0 0 0 5 7 0" gives 5 and 7. |
| ProcStat.StatTimes | src/proc.c:159-220 | A stat line parses only if it has a name end; utime and stime are within 64 bits. |
| ProcStat.ParseProcStatTimes | src/proc.c:159-220 | Succeeds exactly when `StatTimes` does and returns its utime and stime (fields 14 and 15). On failure the outputs are untouched. |
| ProcStat.FirstKeyedIsFirst | src/proc.c:328-332 | The `VmRSS:` scan takes the value of the first line that matches. |
| ProcStat.FirstKeyedAbsent | src/proc.c:328-332 | With no matching line, RSS stays 0. |
| ProcStat.ReadVmRss | src/proc.c:325-334 | The loop returns `VmRss` of the status lines. |
| ProcStat.HasPssSnoc | src/proc.c:359-372 | A log has a `Pss:` line exactly when its prefix or its last line has one. |
| ProcStat.SmapsAppend | src/proc.c:359-372 | Over concatenated lines, USS adds up and PSS is that of the later part when it has a `Pss:` line. |
| ProcStat.SmapsPssIsLast | src/proc.c:361-362 | PSS is the value of the last `Pss:` line. |
| ProcStat.SmapsNoLines | src/proc.c:336-374 | Without `Pss:` lines PSS is 0, and without `Private_*` lines USS is 0. |
| ProcStat.ReadSmapsRollup | src/proc.c:356-374 | The loop returns `Smaps` of the smaps_rollup lines. |
| Sessions.Session.constructor | src/session.h:19-38 | A new session is not counted, monitors nothing and has no pid or baseline. |
| ProcMonitor.ProcInitCpuCount | src/proc.c:21-29 | The core count is the online CPU count, or 1 when that is not positive. |
| ProcMonitor.ReadProcessStats | src/proc.c:232-442 | The method's outputs and the session's new pid and baseline are `ProcessStats` of the old state. Nothing else in the session changes. |
| ProcMonitor.AdvanceBaseline | src/proc.c:376-441 | Reports `CpuSince` against the old baseline and moves the baseline to the current sample. |
| ProcMonitor.CpuPercentMeaning | src/proc.c:403-415 | The CPU figure is non-negative. Multiplied by ticks per second, elapsed ms and cores, it gives jiffies times 100000. |
| ProcMonitor.CpuPercentAtMostFull | src/proc.c:403-415 | When the process used no more CPU time than the cores had, the figure is at most 100. |
| ProcMonitor.CpuSinceNonNegative | src/proc.c:376-415 | The reported CPU share is never negative. |
| ProcMonitor.CpuSinceCases | src/proc.c:376-415 | The share is 0 on a first sample, when utime+stime fell, or when time did not advance. Otherwise it is the jiffy delta as a percentage of the interval over all cores. |
| ProcMonitor.ProcessStatsOnSuccess | src/proc.c:232-442 | On success, the cached pid's comm matches the name and is the reported pid. The baseline is stamped now, CPU is non-negative, and RSS/PSS/USS are those of the pid's files. The state stays consistent. |
| ProcMonitor.ProcessStatsOnFailure | src/proc.c:251-321 | On failure, CPU, RSS, PSS and USS are 0. The reported pid is the one resolution found: 0 when no process carries the name, otherwise the resolved pid, which is kept in the output when the stat file fails. The pid and baseline are cleared, except when the stat file opened but read nothing. |
| ProcMonitor.StalePidNeverMeasured | src/proc.c:264-275 | A cached pid whose comm no longer matches is never measured against its old baseline: CPU is 0 and the pid is re-resolved. |
| ProcMonitor.CachedPidMeasured | src/proc.c:264-441 | A still-valid cached pid is kept and measured against its baseline, which then moves to now. |
| ProcMonitor.SameInstantReportsZero | src/proc.c:391-400 | A second read at the same instant after a successful one reports 0 % CPU. |
| ProcList.CollectedNamesOverrunsZeroCapacity | src/proc.c:537-545 | Code as written: with max_names 0 one name is still stored. |
| ProcList.CollectFromAgreesWithCapped | src/proc.c:487-546 | While capacity remains, the scan as written and the one that tests capacity first agree. |
| ProcList.CollectedNamesAgreeWithCapped | src/proc.c:472-551 | For a capacity of at least 1 the two scans store the same names. |
| ProcList.FirstSeenMembers | src/proc.c:526-536 | Deduplication keeps exactly the names that occur. |
| ProcList.FirstSeenDistinct | src/proc.c:526-536 | The deduplicated list has no repeats. |
| ProcList.FirstSeenPrefix | src/proc.c:487-546 | Deduplicating a longer scan extends the shorter one's result. |
| ProcList.ListedPrefix | src/proc.c:487-524 | Names accepted from a prefix of the listing are a prefix of those from the whole. |
| ProcList.ListedSnoc | src/proc.c:487-524 | One more entry contributes at most its own name. |
| ProcList.CollectFromIsFirstSeen | src/proc.c:487-546 | With short names, the scan stores the first occurrences of accepted names in scan order, up to capacity. |
| ProcList.CollectedNamesAreFirstSeen | src/proc.c:472-551 | The stored list is the capped deduplicated list of accepted names, and it is distinct. |
| ProcList.CappedFromBounded | src/proc.c:543-545 | The corrected scan never exceeds its capacity. |
| ProcList.CappedNamesBounded | src/proc.c:543-545 | Corrected: at most max_names names, for every capacity including 0. |
| ProcList.CollectFromBounds | src/proc.c:537-545 | With capacity at least 1: at most max_names names, each at most 63 bytes and never a kernel thread; stored names never change. |
| ProcList.CollectedNamesBounds | src/proc.c:472-551 | At most max_names names, each a valid slot. |
| ProcList.LongNameStoredTwice | src/proc.c:526-540 | Deduplication compares the truncated stored name with the full one, so a name of 64 or more bytes seen twice is stored twice. |
| ProcList.CollectProcessList | src/proc.c:472-551 | Fills the array's first `count` slots with the collected names, `count` ≤ max_names, and leaves the rest unchanged. |
| WsServer.SatDec | src/ws_server.c:268-270 | A guarded decrement: one less when positive, 0 at 0. |
| WsServer.AfterFilter | src/ws_server.c:280-291 | A connection is refused exactly when pending+connected has reached the limit. Otherwise it takes one pending slot. |
| WsServer.EveryLifecycleReleasesOneSlot | src/ws_server.c:115-350 | An admitted connection that ends gives back exactly the slot it took. This holds both when it is rejected in the handshake and when it is established, closed and destroyed. |
| WsServer.RejectedDestroyOverfills | src/ws_server.c:280-350 | Code as written: nine clients are connected and one handshake is pending. A refused connection is destroyed, and its WSI_DESTROY frees the pending slot. A new connection is admitted, both handshakes complete, and eleven clients are connected against a limit of ten. |
| WsServer.EstablishedNeedsClose | src/ws_server.c:333-350 | Destroy alone does not release a counted session's slot; only CLOSED does. |
| WsServer.TimerAfterStart | src/ws_server.c:80-86 | A timer exists afterwards exactly when one existed or the app is set, and an existing timer is kept. |
| WsServer.TimerStartIdempotent | src/ws_server.c:80-86 | Starting the timer twice equals starting it once. |
| WsServer.ParseCommandIgnores | src/ws_server.c:163-234 | Any command is acted on only for a 1..127-byte message that parses to an object. |
| WsServer.ParseCommandPrecedence | src/ws_server.c:194-259 | `list_processes:true` wins over `storage:true`, which wins over `monitor`. An empty monitor string stops monitoring, and any other string starts it. |
| WsServer.LastDuplicateWins | src/ws_server.c:230-247 | With a repeated "monitor" key the later value is used. |
| WsServer.Receive | src/ws_server.c:158-262 | The session changes as the parsed command says. Stop clears the name and baseline. Start stores the name cut to 63 bytes and clears the baseline. Other commands leave the session alone. |
| WsServer.Server.constructor | src/ws_server.c:392-429 | A started server has no connections and no stats timer. |
| WsServer.Server.StartStatsTimer | src/ws_server.c:80-86 | The timer id becomes `TimerAfterStart`; nothing else changes. |
| WsServer.Server.StopStatsTimer | src/ws_server.c:89-96 | The timer id becomes 0; nothing else changes. |
| WsServer.Server.Filter | src/ws_server.c:280-291 | Returns -1 exactly at the limit, leaving the counters unchanged and recording the session as refused. Otherwise the counters become `AfterFilter`, and the session is admitted holding a pending slot. |
| WsServer.Server.Established | src/ws_server.c:115-136 | A pending slot becomes a connected one and the session is counted. The stats timer starts with the first connection. |
| WsServer.Server.Closed | src/ws_server.c:264-278 | A counted session gives back its connected slot, and the stats timer stops when none remain. |
| WsServer.Server.Destroy | src/ws_server.c:333-350 | Corrected guard: an admitted, uncounted session gives back its pending slot. A closed session and a refused one change no counter. The counters keep counting the sessions holding slots, so the total never exceeds the limit. |
| JsonValue.GetIsLastOccurrence | src/ws_server.c:230-231 | A key lookup finds nothing exactly when no member has the key. Otherwise it returns the value of a member with that key, the last one. |
| JsonOut.WriteText | src/json_out.c:29-52 | `snprintf`: writes as much of the text as fits before a NUL, returns the full length, and touches nothing else. |
| JsonOut.NotFoundMessageWhole | src/json_out.c:119 | A process name always fits the 128-byte message buffer whole. |
| JsonOut.StatsFrameFits | src/json_out.c:12-165 | A frame is produced exactly when the header, the fragment, '}' and the NUL all fit, and it is their concatenation. No partial frame is ever produced. |
| JsonOut.StatsFrameContents | src/json_out.c:60-144 | After the header a frame carries nothing when the session is not monitoring. Otherwise it carries the process object on a successful read and the process_not_found error on a failed one. |
| JsonOut.SameSnapshotReportsZeroCpu | src/json_out.c:68-69 | Two frames from the same snapshot sample at the same instant, so the second reports 0 % CPU. |
| JsonOut.BuildStatsJson | src/json_out.c:12-165 | The buffer holds the frame and a NUL with `truncated` false, or the result is 0 with `truncated` true. The session's baseline advances as `read_process_stats` leaves it. |
| JsonOut.FittingPrefix | src/json_out.c:204-223 | Corrected fit loop: the number of items kept, and the kept prefix fits. |
| JsonOut.FittingPrefixIsLongest | src/json_out.c:204-223 | No longer prefix fits, and None means no prefix fits. |
| JsonOut.ListJsonMeaning | src/json_out.c:167-224 | The array sent is the longest fitting prefix of the collected list. `truncated` is set exactly when an item is missing, and a list that fits is sent whole. |
| JsonOut.FitList | src/json_out.c:204-223 | The loop writes `FittingPrefix`'s document and reports whether items were dropped, in at most n+1 attempts. |
| JsonOut.BuildListJson | src/json_out.c:174-223 | Output and `truncated` equal `ListJson`. |
| JsonOut.NameItems | src/json_out.c:192-200 | One JSON string per name, in order. |
| JsonOut.BuildProcessListJson | src/json_out.c:167-224 | The process list response is `ListJson` of the collected names. |
| JsonOut.StorageItems | src/json_out.c:226-297 | One storage object per entry, in order. |
| JsonOut.BuildStorageJson | src/json_out.c:226-297 | The storage response is `ListJson` of the collected storage entries. |
| JsonOut.ListLengthAsWrittenOverruns | src/json_out.c:206-208 | Code as written: a document longer than the buffer is returned with a length above the buffer size, while the intended loop drops items. |
| Stats.CpuStepBaseline | src/stats.c:112-164 | Without a parsable line usage is 0 and the baseline is kept. Otherwise the baseline becomes the new idle and total sums. |
| Stats.CpuUsageInRange | src/stats.c:150-160 | When all eight counters grew, usage is in [0, 100] and equals 100·(1 − Δidle/Δtotal). |
| Stats.CountersGrow | src/stats.c:138-141 | Growing counters give growing sums, and idle grows no more than total. |
| Stats.CpuStepShare | src/stats.c:150-160 | After initialization, with idle growing no faster than total, usage is that share. |
| Stats.CpuStepMeasures | src/stats.c:142-164 | After initialization, usage is 0 when total did not grow and the share of busy time otherwise. |
| Stats.ShareBounds | src/stats.c:160 | The usage formula lies in [0, 100] when Δidle ≤ Δtotal. |
| Stats.CpuUsageNegativeWhenBusyCounterFalls | src/stats.c:150-160 | If idle grew more than total, the only reset test (line 150) lets it through and usage is negative. |
| Stats.QuotientAboveOne | src/stats.c:160 | The formula is negative when Δidle > Δtotal. |
| Stats.MemKeysExclusive | src/stats.c:33-53 | A line never matches both keys. |
| Stats.ScanMemInfo | src/stats.c:33-53 | The loop finds the first `MemTotal:` and the first `MemAvailable:` value. |
| Stats.Uptime | src/stats.c:192-207 | Uptime is non-negative (0 when missing). |
| Stats.LoadAverages | src/stats.c:192-220 | Load averages are non-negative (0 when missing). |
| Stats.DeltaMsAdds | src/stats.c:249-253 | Consecutive deltas add up over a monotonic clock. |
| Stats.DeltaMsAfterClockFailure | src/stats.c:249-253 | A failed clock read (0), now or before, gives delta 0. |
| Stats.Sampler.constructor | src/stats.c:79-83 | Everything starts at 0, uninitialised. |
| Stats.Sampler.ReadCpuStats | src/stats.c:73-165 | Usage and baseline become `CpuStep` of the old baseline on the reading; nothing else changes. |
| Stats.Sampler.UpdateCpu | src/stats.c:126-164 | The same, for counters already parsed. |
| Stats.Sampler.ReadMemStats | src/stats.c:11-56 | Both fields become the first matching line's value, or 0; nothing else changes. |
| Stats.Sampler.ReadUptimeLoad | src/stats.c:182-221 | Uptime and loads become those of the files, or 0; nothing else changes. |
| Stats.Sampler.TimerTick | src/stats.c:231-259 | One tick updates every statistic as its reader says, stamps both clocks, and sets the delta against the previous monotonic time. |
| Storage.CoversAgreeBelowRoot | src/storage.c:47 | The intended covering test agrees with the code's for every mount point except "/". It accepts whatever the code's accepts, and it lets "/" cover every absolute path. |
| Storage.BestMountBy | src/storage.c:44-54 | Under any covering test, the chosen mount passes the test and has a non-empty mount point. |
| Storage.BestMountByIsFirstLongest | src/storage.c:44-54 | Under any covering test, no mount is chosen exactly when no non-empty mount point passes. Otherwise the choice is the longest passing mount, and among equally long ones the first in file order. |
| Storage.BestMount | src/storage.c:44-54 | With the test of line 47 as written, the chosen mount point passes that test and is non-empty. |
| Storage.BestMountIsFirstLongest | src/storage.c:44-54 | With the test as written, no mount is chosen exactly when no non-empty mount point passes. Otherwise the choice is the first of the longest passing mounts, and a later entry of equal length does not replace it. |
| Storage.GetFsTypeForPath | src/storage.c:29-58 | The scan, with the test of line 47 as written, finds a type exactly when `FsTypeLookup` does and returns it. |
| Storage.RootCoversOnlyRoot | src/storage.c:47 | Code as written: with only "/" mounted, "/var/lib" finds no type although "/" itself does. The intended lookup gives "ext4". |
| Storage.UncoveredPathIsUnknown | src/storage.c:44-105 | Code as written: when "/" is the only mount point, a statvfs-able path other than "/" (second character not '/') is reported with type "unknown". |
| Storage.LookupFindsRoot | src/storage.c:47 | Intended lookup: any absolute path finds a type when "/" is mounted. |
| Storage.ReadStorageForPath | src/storage.c:70-108 | Succeeds exactly when statvfs does, and reports `StorageFor`, whose type comes from the lookup as written. |
| Storage.UsedPlusAvailableAtMostTotal | src/storage.c:83-96 | With consistent counts that fit in 64 bits, used ≤ total and used + available ≤ total. |
| Storage.KbCountsBounded | src/storage.c:90-96 | The 64-bit byte counts divided down to KiB keep used ≤ total and used + available ≤ total. |
| Storage.Successes | src/storage.c:128-138 | At most one result per path. |
| Storage.SuccessesAppend | src/storage.c:128-138 | Results of concatenated path lists concatenate. |
| Storage.SuccessesInOrder | src/storage.c:128-138 | Each result is that of one of the paths, in order. |
| Storage.SuccessesPrefix | src/storage.c:128-138 | A prefix of the paths gives a prefix of the results. |
| Storage.CollectedStorageBounds | src/storage.c:119-140 | At most max_entries and at most one per allowlist path; none for 0. |
| Storage.CollectStorageInfo | src/storage.c:119-140 | Fills the first `count` slots with `CollectedStorage` and leaves the rest alone. |
| SystemInfo.Unquoted | src/system_info.c:19-23 | A quoted value loses exactly its enclosing quotes; any other value is unchanged. |
| SystemInfo.QuoteRoundTrip | src/system_info.c:19-23 | Stripping quotes undoes quoting. |
| SystemInfo.UnquotedFixedIff | src/system_info.c:19-23 | A value is left unchanged exactly when it is not quoted. |
| SystemInfo.CStringAt | src/system_info.c:19 | A NUL at i+n with none before it makes the C string at i those n bytes. |
| SystemInfo.CStringEnds | src/system_info.c:19 | A terminated C string ends at a NUL with no NUL before it. |
| SystemInfo.MoveDown | src/system_info.c:21 | `memmove(s, s+1, n)`: the n bytes shift down by one and the rest is unchanged. |
| SystemInfo.StripQuotes | src/system_info.c:10-24 | In place, the C string becomes `Unquoted` of the old one and stays terminated. Bytes outside it are unchanged. |
| SystemInfo.ParseOsReleaseLine | src/system_info.c:50-64 | Comment and empty lines are skipped. The key has no '=' and neither part has a newline. |
| SystemInfo.ParseOsReleaseLineRoundTrip | src/system_info.c:50-64 | A `KEY="value"` line parses back to its key and value. |
| SystemInfo.ApplyLine | src/system_info.c:66-75 | A line sets the field its key names, cut to 127 bytes; every other field is unchanged. |
| SystemInfo.LastAssignmentWins | src/system_info.c:46-76 | A field holds the value of the last line that assigns it. |
| SystemInfo.UnassignedFieldKept | src/system_info.c:46-76 | A field no line assigns keeps its value. |
| SystemInfo.ApplyLinesFits | src/system_info.c:66-75 | The fields always fit their 128-byte buffers. |
| SystemInfo.OsReleaseFile | src/system_info.c:37-44 | /etc/os-release when it opens, else /usr/lib/os-release. |
| SystemInfo.Hostname | src/system_info.c:101-106 | A prefix of the host name, at most 127 bytes; empty on failure. |
| SystemInfo.SystemInfoRecord.constructor | src/system_info.c:89 | A new record is zeroed. |
| SystemInfo.SystemInfoRecord.ReadOsRelease | src/system_info.c:27-78 | The OS fields become those after applying the file's lines; other fields are unchanged. |
| SystemInfo.SystemInfoRecord.ReadSystemInfo | src/system_info.c:80-115 | Succeeds exactly when uname does, leaving the record zeroed on failure and complete on success. Every field fits its buffer. |
| SystemInfo.OsReleaseFits | src/system_info.c:27-78 | The OS fields read into a zeroed record fit their buffers. |
| CgiDiscovery.Take | src/cgi_discovery.c:57-59 | The first min(n, len) elements. |
| CgiDiscovery.CgiEntry | src/cgi_discovery.c:61-75 | An entry is kept exactly when it is not hidden, is an executable regular file whose name contains ".cgi", and its path fits. The path is dir "/" name. |
| CgiDiscovery.TakeFull | src/cgi_discovery.c:57-59 | Once n are taken, later elements do not matter. |
| CgiDiscovery.TakeSnoc | src/cgi_discovery.c:57-59 | Below the cap, one more element is taken. |
| CgiDiscovery.ScanDirectory | src/cgi_discovery.c:56-79 | The readdir loop appends the directory's accepted entries up to the cap and touches no other slot. |
| CgiDiscovery.CollectCgiList | src/cgi_discovery.c:44-88 | Fills the first `count` ≤ max slots with `CollectedCgis` and leaves the rest unchanged. |
| CgiDiscovery.AcceptedPrefix | src/cgi_discovery.c:56-79 | Earlier entries give a prefix of the accepted list. |
| CgiDiscovery.CandidatesPrefix | src/cgi_discovery.c:49-85 | Earlier directories give a prefix of the candidates. |
| CgiDiscovery.CandidatesAppend | src/cgi_discovery.c:49-85 | Candidates follow the allowlist's directory order. |
| CgiDiscovery.AcceptedIff | src/cgi_discovery.c:56-79 | A path is accepted exactly when some listed name yields it. |
| CgiDiscovery.CandidatesIff | src/cgi_discovery.c:49-85 | A path is a candidate exactly when it comes from a listed entry of an allowlisted directory. |
| CgiDiscovery.CollectedAreExecutableCgis | src/cgi_discovery.c:44-88 | At most max paths, none for 0. Each is under 256 bytes and comes from an allowlisted directory's executable CGI. |
| CgiDiscovery.CollectedIsComplete | src/cgi_discovery.c:44-88 | When the cap is not reached, every eligible program is listed. |
| CgiDiscovery.SubstringNameTest | src/cgi_discovery.c:23-25 | The name test is a substring test: "tool.cgi.bak" passes. |

## Left out

- Input and output are parameters. This covers `/proc`, `/etc`, `/proc/self/mounts`, `statvfs`, `stat`, directory listings, `uname`, `gethostname`, `sysconf` and the clocks. A file that does not open, or a read that returns nothing, is an explicit case of the input.
- Text formatting and parsing of numbers is not modelled. The stats frame header that `snprintf` formats from the sample (`%.2f`, `PRIu64`) is a parameter of `JsonOut.BuildStatsJson`. jansson's `json_dumpb` is a function parameter `dump`, and `json_loads` is replaced by an already parsed document.
- `%lf` accepts plain decimals only (no sign, exponent, `inf` or `nan`). Floating-point rounding is not modelled (`real`).
- Text.ScanKeyed: the `%ld` of the `VmRSS:`, `MemTotal:` and `MemAvailable:` scans accepts digits only; a signed value in those lines is not read. The kernel writes them unsigned.
- UTF-8 and embedded NULs in strings are not modelled; a `string` is the text before the first NUL.
- Transport glue is not modelled: `lws_write`, `lws_callback_on_writable`, `lws_glib_service`, the context creation and teardown of `ws_server_start`/`ws_server_stop`, and the LWS_CALLBACK_SERVER_WRITEABLE and LWS_CALLBACK_TIMER branches. The frame those branches write is modelled by `JsonOut.BuildStatsJson`.
- `update_sys_stats`, which the stats timer callback of ws_server.c calls, is not part of this model. The sampler tick is modelled by stats.c's `stats_timer_cb` (`Stats.Sampler.TimerTick`).
- main.c, the platform directory and scripts/log.py are outside the core.
- WsServer.Server.Destroy: models the corrected guard, which needs a per-session record of the reserved slot (`Sessions.Session.pendingSlot`, absent from session.h). The code as written frees a pending slot for a refused connection too; that behaviour is stated on the counters by `WsServer.RejectedDestroyOverfills` (see Findings). An established session destroyed without CLOSED is not modelled by the class (see `WsServer.EstablishedNeedsClose`).
- ProcMonitor.ReadProcessStats: `clk_tck <= 0` is modelled as a failure that leaves everything at 0. The `pid_t` cast of a pid above INT_MAX is not modelled.
- ProcStat.ReadSmapsRollup: the `long` USS sum is unbounded; signed overflow of the sum is not modelled.
- ProcList.CollectProcessList: requires a capacity of at least one. With 0 the code as written stores a name past the buffer; that case is stated by `ProcList.CollectedNamesOverrunsZeroCapacity` and corrected in `ProcList.CappedNames` (see Findings).
- SystemInfo.SystemInfoRecord.ReadOsRelease: the line buffer's in-place edits (NUL at the newline and at '=') are modelled on values. Only `strip_quotes` is modelled in place on a `char` array (`SystemInfo.StripQuotes`).
- SystemInfo.Hostname: a host name longer than the buffer is cut to 127 bytes; the platform's exact `gethostname` truncation and error behaviour are not modelled.
- `cpu_core_count` is filled by `read_system_info` but is absent from system_info.h's struct as shown. The model follows system_info.c and keeps the field.
- cgi_discovery.h describes CGI names as "ending in .cgi", but the code tests for the substring with `strstr`. The model follows the code (`CgiDiscovery.SubstringNameTest`).
- A "system_info" command is not handled by the RECEIVE branch of ws_server.c, and the model follows the code (`WsServer.ParseCommand`).
- Partial writes by `snprintf`/`json_dumpb` on a failure path are not modelled: the buffer content is unspecified when the result is 0.

## Findings

| source | as written | input that shows it | evidently intended | confidence | as-written member | corrected member |
|---|---|---|---|---|---|---|
| src/json_out.c:206-208 | `json_dumpb` returns the size the document needs even when it did not fit, and the loop accepts any non-negative length. So the list is never shortened, and a length larger than the buffer is returned. The same applies at json_out.c:279-281. | a process list whose serialization is longer than the 8192-byte buffer | drop tail items until the document fits, and return its length | not executed | JsonOut.ListLengthAsWrittenOverruns | JsonOut.FittingPrefix |
| src/proc.c:543-545 | the capacity test runs only after a name has been stored | `collect_process_list(names, 0)` with one user process | store nothing when max_names is 0 | not executed | ProcList.CollectedNamesOverrunsZeroCapacity | ProcList.CappedNamesBounded |
| src/storage.c:47 | a mount point covers a path only if the next character of the path is '/' or NUL. For "/" that character is the path's second one, so "/" covers only "/" itself, and paths under the root file system are reported as "unknown". The storage chain is modelled as written. | path "/var/lib" with "/" as the only mount | "/" covers every absolute path | not executed | Storage.RootCoversOnlyRoot | Storage.LookupFindsRoot |
| src/ws_server.c:344-348 | WSI_DESTROY decrements the pending count for every uncounted session, including one that FILTER refused and that never reserved a slot. Another handshake's slot is freed, and the limit can be passed. | 9 connected and 1 pending; a refused connection is destroyed, a new one is admitted, both handshakes complete: 11 connected | free a pending slot only for a session that reserved one | not executed | WsServer.RejectedDestroyOverfills | WsServer.Server.Destroy |
