/** storage.c: one-shot storage usage for a fixed allowlist of mount
    points. statvfs() results and the parsed /proc/self/mounts table are
    inputs (a StorageEnv). */
module Storage {
  import opened Text
  import opened Limits

  /** The mount points a storage response may report, in order. */
  const STORAGE_PATHS: seq<string> := ["/", "/mnt/flash", "/usr/lib/persistent", "/var/lib", "/var/cache"]

  /** One line of /proc/self/mounts as fscanf splits it: device, mount
      point (at most 255 bytes), filesystem type (at most 31 bytes). */
  datatype MountEntry = MountEntry(device: string, mountPoint: string, fsType: string)

  /** The statvfs fields the server reads. */
  datatype StatVfs = StatVfs(frsize: nat, bsize: nat, blocks: nat, bfree: nat, bavail: nat)

  /** statvfs() results by path (a missing path: statvfs fails) and the
      entries fscanf reads from /proc/self/mounts (None: fopen fails). */
  datatype StorageEnv = StorageEnv(vfs: map<string, StatVfs>, mounts: Option<seq<MountEntry>>)

  /** struct storage_info */
  datatype StorageInfo = StorageInfo(path: string, fsType: string, totalKb: nat, usedKb: nat, availableKb: nat)

  /** The test of get_fs_type_for_path: the mount point is a byte prefix
      of the path and the path continues with '/' or ends right there. */
  predicate MountCoversAsWritten(path: string, mountPoint: string)
  {
    StartsWith(path, mountPoint) && (|mountPoint| == |path| || path[|mountPoint|] == '/')
  }

  /** The test the lookup is meant to apply: a mount point covers the
      paths below it, and "/" is the parent of every absolute path. */
  predicate MountCovers(path: string, mountPoint: string)
  {
    StartsWith(path, mountPoint) && (|mountPoint| == |path| || path[|mountPoint|] == '/' || mountPoint == "/")
  }

  /** The two tests differ only for the mount point "/". */
  lemma CoversAgreeBelowRoot(path: string, mountPoint: string)
    ensures mountPoint != "/" ==> (MountCovers(path, mountPoint) <==> MountCoversAsWritten(path, mountPoint))
    ensures MountCoversAsWritten(path, mountPoint) ==> MountCovers(path, mountPoint)
    ensures StartsWith(path, "/") ==> MountCovers(path, "/")
  {
  }

  /** Index of the entry the scan of get_fs_type_for_path settles on under
      a covering test: in file order, a covering entry replaces the current
      one only when its mount point is strictly longer. */
  function BestMountBy(covers: (string, string) -> bool, path: string, ms: seq<MountEntry>): (r: Option<nat>)
    ensures r.Some? ==> r.value < |ms| && covers(path, ms[r.value].mountPoint) && |ms[r.value].mountPoint| > 0
  {
    if ms == [] then None
    else
      var best := BestMountBy(covers, path, ms[..|ms| - 1]);
      var bestLen := if best.Some? then |ms[best.value].mountPoint| else 0;
      var last := ms[|ms| - 1];
      if |last.mountPoint| > bestLen && covers(path, last.mountPoint) then Some(|ms| - 1)
      else best
  }

  /** Whatever the covering test, the entry chosen is the first of those
      with the longest covering mount point (a later entry of the same
      length does not replace it), and there is one exactly when some
      non-empty mount point covers the path. */
  lemma {:induction false} BestMountByIsFirstLongest(covers: (string, string) -> bool, path: string, ms: seq<MountEntry>)
    ensures BestMountBy(covers, path, ms).None? <==>
              forall j :: 0 <= j < |ms| ==> !covers(path, ms[j].mountPoint) || ms[j].mountPoint == []
    ensures BestMountBy(covers, path, ms).Some? ==>
              var i := BestMountBy(covers, path, ms).value;
              (forall j :: 0 <= j < |ms| && covers(path, ms[j].mountPoint) ==>
                 |ms[j].mountPoint| <= |ms[i].mountPoint|) &&
              (forall j :: 0 <= j < i && covers(path, ms[j].mountPoint) ==>
                 |ms[j].mountPoint| < |ms[i].mountPoint|)
  {
    if ms != [] {
      var init := ms[..|ms| - 1];
      BestMountByIsFirstLongest(covers, path, init);
      assert forall j :: 0 <= j < |init| ==> init[j] == ms[j];
    }
  }

  /** The entry get_fs_type_for_path settles on, with its own test. */
  function BestMount(path: string, ms: seq<MountEntry>): (r: Option<nat>)
    ensures r.Some? ==> r.value < |ms| && MountCoversAsWritten(path, ms[r.value].mountPoint) && |ms[r.value].mountPoint| > 0
  {
    BestMountBy(MountCoversAsWritten, path, ms)
  }

  /** The lookup finds nothing exactly when no mount point passes the test
      of get_fs_type_for_path; otherwise it finds the first longest one, so
      of two entries for the same mount point the earlier one wins. */
  lemma BestMountIsFirstLongest(path: string, ms: seq<MountEntry>)
    ensures BestMount(path, ms).None? <==>
              forall j :: 0 <= j < |ms| ==> !MountCoversAsWritten(path, ms[j].mountPoint) || ms[j].mountPoint == []
    ensures BestMount(path, ms).Some? ==>
              var i := BestMount(path, ms).value;
              (forall j :: 0 <= j < |ms| && MountCoversAsWritten(path, ms[j].mountPoint) ==>
                 |ms[j].mountPoint| <= |ms[i].mountPoint|) &&
              (forall j :: 0 <= j < i && MountCoversAsWritten(path, ms[j].mountPoint) ==>
                 |ms[j].mountPoint| < |ms[i].mountPoint|)
  {
    BestMountByIsFirstLongest(MountCoversAsWritten, path, ms);
  }

  /** The type get_fs_type_for_path finds, or None when it fails. */
  function FsTypeLookup(path: string, mounts: Option<seq<MountEntry>>): Option<string>
  {
    match mounts
    case None => None
    case Some(ms) =>
      match BestMount(path, ms)
      case None => None
      case Some(i) => Some(Truncate(ms[i].fsType, FS_TYPE_LENGTH - 1))
  }

  /** get_fs_type_for_path */
  method GetFsTypeForPath(path: string, mounts: Option<seq<MountEntry>>) returns (found: bool, fsType: string)
    ensures found <==> FsTypeLookup(path, mounts).Some?
    ensures found ==> fsType == FsTypeLookup(path, mounts).value
  {
    fsType := [];
    if mounts.None? {
      return false, fsType;
    }
    var ms := mounts.value;
    var bestLen := 0;
    found := false;
    var k := 0;
    while k < |ms|
      invariant 0 <= k <= |ms|
      invariant found <==> BestMount(path, ms[..k]).Some?
      invariant found ==> bestLen == |ms[BestMount(path, ms[..k]).value].mountPoint| &&
                          fsType == Truncate(ms[BestMount(path, ms[..k]).value].fsType, FS_TYPE_LENGTH - 1)
      invariant !found ==> bestLen == 0
    {
      assert ms[..k + 1][..k] == ms[..k];
      var e := ms[k];
      var len := |e.mountPoint|;
      if len > bestLen && StartsWith(path, e.mountPoint) && (len == |path| || path[len] == '/') {
        fsType := Truncate(e.fsType, FS_TYPE_LENGTH - 1);
        bestLen := len;
        found := true;
      }
      k := k + 1;
    }
    assert ms[..k] == ms;
  }

  /** The lookup with the intended covering test. */
  function FsTypeLookupIntended(path: string, mounts: Option<seq<MountEntry>>): Option<string>
  {
    match mounts
    case None => None
    case Some(ms) =>
      match BestMountBy(MountCovers, path, ms)
      case None => None
      case Some(i) => Some(Truncate(ms[i].fsType, FS_TYPE_LENGTH - 1))
  }

  /** With the intended test and "/" in the mount table, every absolute
      path gets a type. */
  lemma LookupFindsRoot(path: string, ms: seq<MountEntry>, r: nat)
    requires StartsWith(path, "/") && r < |ms| && ms[r].mountPoint == "/"
    ensures FsTypeLookupIntended(path, Some(ms)).Some?
  {
    BestMountByIsFirstLongest(MountCovers, path, ms);
    assert MountCovers(path, ms[r].mountPoint);
  }

  /** As written, the root file system mounted at "/" is found only for the
      path "/": "/var/lib", with no mount of its own, gets no type and its
      storage entry says "unknown", while the intended lookup finds "ext4". */
  lemma RootCoversOnlyRoot()
    ensures FsTypeLookup("/var/lib", Some([MountEntry("/dev/root", "/", "ext4")])).None?
    ensures FsTypeLookup("/", Some([MountEntry("/dev/root", "/", "ext4")])) == Some("ext4")
    ensures FsTypeLookupIntended("/var/lib", Some([MountEntry("/dev/root", "/", "ext4")])) == Some("ext4")
  {
    var ms := [MountEntry("/dev/root", "/", "ext4")];
    assert "/var/lib"[1] == 'v';
    assert !MountCoversAsWritten("/var/lib", "/");
    assert ms[..0] == [];
    assert MountCoversAsWritten("/", "/");
    assert MountCovers("/var/lib", "/");
    assert Truncate("ext4", FS_TYPE_LENGTH - 1) == "ext4";
  }

  /** As written, when "/" is the only mount point in the table, every
      other path statvfs accepts (such as "/var/lib") gets the type
      "unknown" in its storage entry. */
  lemma UncoveredPathIsUnknown(path: string, env: StorageEnv)
    requires path in env.vfs && |path| > 1 && path[1] != '/' && env.mounts.Some?
    requires forall j :: 0 <= j < |env.mounts.value| ==> env.mounts.value[j].mountPoint == "/"
    ensures StorageFor(path, env).Some? && StorageFor(path, env).value.fsType == "unknown"
  {
    var ms := env.mounts.value;
    BestMountIsFirstLongest(path, ms);
    forall j | 0 <= j < |ms|
      ensures !MountCoversAsWritten(path, ms[j].mountPoint)
    {
    }
  }

  /** read_storage_for_path: None when statvfs fails; block counts are
      scaled by f_frsize (f_bsize when f_frsize is 0) in 64-bit unsigned
      arithmetic, then divided down to KiB; the path is cut to 255 bytes and
      the type is "unknown" when the mount table gives none. */
  function StorageFor(path: string, env: StorageEnv): Option<StorageInfo>
  {
    if path !in env.vfs then None
    else
      var v := env.vfs[path];
      var bs := if v.frsize == 0 then v.bsize else v.frsize;
      var total := WrapU64(v.blocks * bs);
      var free := WrapU64(v.bfree * bs);
      var avail := WrapU64(v.bavail * bs);
      var fsType := match FsTypeLookup(path, env.mounts)
        case Some(t) => t
        case None => "unknown";
      Some(StorageInfo(Truncate(path, MAX_PROC_PATH_LENGTH - 1), fsType,
                       total / 1024, WrapU64(total as int - free) / 1024, avail / 1024))
  }

  /** read_storage_for_path */
  method ReadStorageForPath(path: string, env: StorageEnv) returns (ok: bool, info: StorageInfo)
    ensures ok <==> StorageFor(path, env).Some?
    ensures ok ==> info == StorageFor(path, env).value
  {
    info := StorageInfo([], [], 0, 0, 0);
    if path !in env.vfs {
      return false, info;
    }
    var v := env.vfs[path];
    var blockSize := v.frsize;
    if blockSize == 0 {
      blockSize := v.bsize;
    }
    var total := WrapU64(v.blocks * blockSize);
    var free := WrapU64(v.bfree * blockSize);
    var avail := WrapU64(v.bavail * blockSize);
    var found, fsType := GetFsTypeForPath(path, env.mounts);
    if !found {
      fsType := "unknown";
    }
    info := StorageInfo(Truncate(path, MAX_PROC_PATH_LENGTH - 1), fsType,
                        total / 1024, WrapU64(total as int - free) / 1024, avail / 1024);
    return true, info;
  }

  /** When the counts are consistent (available <= free <= total) and the
      byte totals fit in 64 bits, used and available together never exceed
      the total. */
  lemma UsedPlusAvailableAtMostTotal(path: string, env: StorageEnv)
    requires path in env.vfs
    requires var v := env.vfs[path]; var bs := if v.frsize == 0 then v.bsize else v.frsize;
      v.bavail <= v.bfree <= v.blocks && v.blocks * bs < TWO_64
    ensures var info := StorageFor(path, env).value;
      info.usedKb <= info.totalKb && info.usedKb + info.availableKb <= info.totalKb
  {
    var v := env.vfs[path];
    var bs := if v.frsize == 0 then v.bsize else v.frsize;
    KbCountsBounded(v.blocks, v.bfree, v.bavail, bs);
  }

  /** The KiB arithmetic of read_storage_for_path on consistent counts. */
  lemma KbCountsBounded(blocks: nat, bfree: nat, bavail: nat, bs: nat)
    requires bavail <= bfree <= blocks && blocks * bs < TWO_64
    ensures var total, free, avail := WrapU64(blocks * bs), WrapU64(bfree * bs), WrapU64(bavail * bs);
      WrapU64(total as int - free) / 1024 <= total / 1024 &&
      WrapU64(total as int - free) / 1024 + avail / 1024 <= total / 1024
  {
    MulMonotone(bavail, bfree, bs);
    MulMonotone(bfree, blocks, bs);
    var total, free, avail := blocks * bs, bfree * bs, bavail * bs;
    WrapU64Small(total);
    WrapU64Small(free);
    WrapU64Small(avail);
    WrapU64Small(total - free);
    DivAddAtMost(total - free, avail);
    DivMonotone(total - free + avail, total);
    DivMonotone(total - free, total);
  }

  lemma MulMonotone(a: nat, b: nat, c: nat)
    requires a <= b
    ensures a * c <= b * c
  {
  }

  /** floor(x/1024) + floor(y/1024) <= floor((x+y)/1024) */
  lemma DivAddAtMost(x: nat, y: nat)
    ensures x / 1024 + y / 1024 <= (x + y) / 1024
  {
    var qx, qy := x / 1024, y / 1024;
    assert qx * 1024 <= x && qy * 1024 <= y;
    assert (qx + qy) * 1024 <= x + y;
  }

  lemma DivMonotone(x: nat, y: nat)
    requires x <= y
    ensures x / 1024 <= y / 1024
  {
  }

  /** Results of the allowlist paths whose statvfs succeeds, in allowlist
      order. */
  function Successes(paths: seq<string>, env: StorageEnv): (r: seq<StorageInfo>)
    ensures |r| <= |paths|
  {
    if paths == [] then []
    else
      var init := Successes(paths[..|paths| - 1], env);
      match StorageFor(paths[|paths| - 1], env)
      case Some(info) => init + [info]
      case None => init
  }

  /** Results keep the order of their paths: those of an earlier part of
      the allowlist come before those of a later part. */
  lemma {:induction false} SuccessesAppend(a: seq<string>, b: seq<string>, env: StorageEnv)
    ensures Successes(a + b, env) == Successes(a, env) + Successes(b, env)
    decreases |b|
  {
    if b == [] {
      assert a + b == a;
    } else {
      var b' := b[..|b| - 1];
      assert (a + b)[..|a + b| - 1] == a + b';
      assert (a + b)[|a + b| - 1] == b[|b| - 1];
      SuccessesAppend(a, b', env);
    }
  }

  /** Each result is that of one of the paths. */
  lemma {:induction false} SuccessesInOrder(paths: seq<string>, env: StorageEnv)
    ensures forall k :: 0 <= k < |Successes(paths, env)| ==>
              exists j :: 0 <= j < |paths| && StorageFor(paths[j], env) == Some(Successes(paths, env)[k])
  {
    if paths != [] {
      var init := paths[..|paths| - 1];
      SuccessesInOrder(init, env);
      assert forall j :: 0 <= j < |init| ==> init[j] == paths[j];
      var r, ri := Successes(paths, env), Successes(init, env);
      forall k | 0 <= k < |r|
        ensures exists j :: 0 <= j < |paths| && StorageFor(paths[j], env) == Some(r[k])
      {
        var last := StorageFor(paths[|paths| - 1], env);
        assert r == if last.Some? then ri + [last.value] else ri;
        if k < |ri| {
          assert r[k] == ri[k];
          var j :| 0 <= j < |init| && StorageFor(init[j], env) == Some(ri[k]);
          assert StorageFor(paths[j], env) == Some(r[k]);
        } else {
          assert StorageFor(paths[|paths| - 1], env) == Some(r[k]);
        }
      }
    } else {
      assert Successes(paths, env) == [];
    }
  }

  lemma {:induction false} SuccessesPrefix(paths: seq<string>, i: nat, env: StorageEnv)
    requires i <= |paths|
    ensures Successes(paths[..i], env) <= Successes(paths, env)
    decreases |paths| - i
  {
    if i < |paths| {
      SuccessesPrefix(paths, i + 1, env);
      assert paths[..i + 1][..i] == paths[..i];
    } else {
      assert paths[..i] == paths;
    }
  }

  /** What collect_storage_info reports: the first max results. */
  function CollectedStorage(env: StorageEnv, maxEntries: nat): seq<StorageInfo>
  {
    var all := Successes(STORAGE_PATHS, env);
    all[..Min(|all|, maxEntries)]
  }

  /** At most max_entries and at most one per allowlist path; none when
      max_entries is 0. */
  lemma CollectedStorageBounds(env: StorageEnv, maxEntries: nat)
    ensures |CollectedStorage(env, maxEntries)| <= Min(maxEntries, |STORAGE_PATHS|)
    ensures maxEntries == 0 ==> CollectedStorage(env, maxEntries) == []
  {
  }

  /** collect_storage_info */
  method CollectStorageInfo(out: array<StorageInfo>, maxEntries: nat, env: StorageEnv) returns (count: nat)
    requires maxEntries <= out.Length
    modifies out
    ensures count <= maxEntries
    ensures out[..count] == CollectedStorage(env, maxEntries)
    ensures forall k :: count <= k < out.Length ==> out[k] == old(out[k])
  {
    count := 0;
    if maxEntries == 0 {
      return;
    }
    var paths := STORAGE_PATHS;
    var i := 0;
    while i < |paths|
      invariant 0 <= i <= |paths|
      invariant count <= maxEntries
      invariant out[..count] == Successes(paths[..i], env)
      invariant forall k :: count <= k < out.Length ==> out[k] == old(out[k])
    {
      if count >= maxEntries {
        break;
      }
      assert paths[..i + 1][..i] == paths[..i];
      var ok, info := ReadStorageForPath(paths[i], env);
      if ok {
        out[count] := info;
        count := count + 1;
      }
      i := i + 1;
    }
    SuccessesPrefix(paths, i, env);
    if i == |paths| {
      assert paths[..i] == paths;
    }
  }
}
