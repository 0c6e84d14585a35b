/** proc.c: collect_process_list, the deduplicated list of process names
    behind the one-shot `list_processes` request. */
module ProcList {
  import opened Text
  import opened Limits
  import opened ProcFs

  /** Bytes of a name a slot of the output array keeps (strncpy of
      MAX_PROC_NAME_LENGTH - 1, then a forced NUL). */
  const STORED_NAME_LENGTH: nat := MAX_PROC_NAME_LENGTH - 1

  /** The scan of collect_process_list from entry i on, with `acc` the
      names stored so far. A name is skipped when it equals a stored name
      (the stored names are truncated, the candidate is not); otherwise
      its first 63 bytes are stored, and the scan stops once the count
      reaches `maxNames`, a test made after the insertion. */
  function CollectFrom(fs: ProcFs, entries: seq<DirEntry>, i: nat, acc: seq<string>, maxNames: nat): seq<string>
    requires i <= |entries|
    decreases |entries| - i
  {
    if i == |entries| then acc
    else
      match ListedName(fs, entries[i])
      case None => CollectFrom(fs, entries, i + 1, acc, maxNames)
      case Some(n) =>
        if n in acc then CollectFrom(fs, entries, i + 1, acc, maxNames)
        else
          var acc' := acc + [Truncate(n, STORED_NAME_LENGTH)];
          if |acc'| >= maxNames then acc' else CollectFrom(fs, entries, i + 1, acc', maxNames)
  }

  /** What collect_process_list stores, as the code is written. */
  function CollectedNames(fs: ProcFs, maxNames: nat): seq<string>
  {
    if fs.listing.None? then [] else CollectFrom(fs, fs.listing.value, 0, [], maxNames)
  }

  /** The same scan with the capacity tested before a name is stored, so
      that no more than `maxNames` names are ever written. */
  function CappedFrom(fs: ProcFs, entries: seq<DirEntry>, i: nat, acc: seq<string>, maxNames: nat): seq<string>
    requires i <= |entries|
    decreases |entries| - i
  {
    if i == |entries| || |acc| >= maxNames then acc
    else
      match ListedName(fs, entries[i])
      case None => CappedFrom(fs, entries, i + 1, acc, maxNames)
      case Some(n) =>
        if n in acc then CappedFrom(fs, entries, i + 1, acc, maxNames)
        else CappedFrom(fs, entries, i + 1, acc + [Truncate(n, STORED_NAME_LENGTH)], maxNames)
  }

  function CappedNames(fs: ProcFs, maxNames: nat): seq<string>
  {
    if fs.listing.None? then [] else CappedFrom(fs, fs.listing.value, 0, [], maxNames)
  }

  /** As written, a zero capacity still receives one name: the cap test
      only runs after the first insertion. */
  lemma CollectedNamesOverrunsZeroCapacity()
    ensures var fs := ProcFs(Some([DirEntry("1", DtDir)]), map[1 := Line("init\n")], map[], map[], map[]);
      CollectedNames(fs, 0) == ["init"] && CappedNames(fs, 0) == []
  {
    var fs := ProcFs(Some([DirEntry("1", DtDir)]), map[1 := Line("init\n")], map[], map[], map[]);
    PidOfDecimalName("1");
    assert UpToNewline("init\n") == "init" by {
      assert IndexOf("init\n", '\n') == 4;
    }
    assert ListedName(fs, DirEntry("1", DtDir)) == Some("init");
    assert Truncate("init", STORED_NAME_LENGTH) == "init";
    assert CollectFrom(fs, [DirEntry("1", DtDir)], 0, [], 0) == ["init"];
  }

  /** With a capacity of at least one, the code as written and the scan
      that tests capacity first store the same names. */
  lemma {:induction false} CollectFromAgreesWithCapped(fs: ProcFs, entries: seq<DirEntry>, i: nat, acc: seq<string>, maxNames: nat)
    requires i <= |entries| && |acc| < maxNames
    ensures CollectFrom(fs, entries, i, acc, maxNames) == CappedFrom(fs, entries, i, acc, maxNames)
    decreases |entries| - i
  {
    if i < |entries| {
      match ListedName(fs, entries[i])
      case None => CollectFromAgreesWithCapped(fs, entries, i + 1, acc, maxNames);
      case Some(n) =>
        if n in acc {
          CollectFromAgreesWithCapped(fs, entries, i + 1, acc, maxNames);
        } else {
          var acc' := acc + [Truncate(n, STORED_NAME_LENGTH)];
          if |acc'| < maxNames {
            CollectFromAgreesWithCapped(fs, entries, i + 1, acc', maxNames);
          } else if i + 1 < |entries| {
            assert CappedFrom(fs, entries, i + 1, acc', maxNames) == acc';
          }
        }
    }
  }

  lemma CollectedNamesAgreeWithCapped(fs: ProcFs, maxNames: nat)
    requires maxNames >= 1
    ensures CollectedNames(fs, maxNames) == CappedNames(fs, maxNames)
  {
    if fs.listing.Some? {
      CollectFromAgreesWithCapped(fs, fs.listing.value, 0, [], maxNames);
    }
  }

  /** Every listed name of a prefix of the entries, in scan order. */
  function Listed(fs: ProcFs, entries: seq<DirEntry>): seq<string>
  {
    if entries == [] then [] else Listed(fs, entries[..|entries| - 1]) + ListedOne(fs, entries[|entries| - 1])
  }

  /** The distinct names of a sequence, each at its first occurrence. */
  function FirstSeen(names: seq<string>): seq<string>
  {
    if names == [] then []
    else
      var init := FirstSeen(names[..|names| - 1]);
      var last := names[|names| - 1];
      if last in init then init else init + [last]
  }

  /** FirstSeen keeps every name and adds none. */
  lemma {:induction false} FirstSeenMembers(names: seq<string>)
    ensures forall x :: x in FirstSeen(names) <==> x in names
  {
    if names != [] {
      var last := names[|names| - 1];
      FirstSeenMembers(names[..|names| - 1]);
      assert names == names[..|names| - 1] + [last];
    }
  }

  predicate Distinct(names: seq<string>)
  {
    forall j, k :: 0 <= j < k < |names| ==> names[j] != names[k]
  }

  lemma {:induction false} FirstSeenDistinct(names: seq<string>)
    ensures Distinct(FirstSeen(names))
  {
    if names != [] {
      FirstSeenDistinct(names[..|names| - 1]);
    }
  }

  lemma {:induction false} FirstSeenPrefix(s: seq<string>, t: seq<string>)
    requires s <= t
    ensures FirstSeen(s) <= FirstSeen(t)
    decreases |t|
  {
    if |s| < |t| {
      FirstSeenPrefix(s, t[..|t| - 1]);
    } else {
      assert s == t;
    }
  }

  lemma {:induction false} ListedPrefix(fs: ProcFs, entries: seq<DirEntry>, i: nat)
    requires i <= |entries|
    ensures Listed(fs, entries[..i]) <= Listed(fs, entries)
    decreases |entries| - i
  {
    if i < |entries| {
      ListedPrefix(fs, entries[..|entries| - 1], i);
      assert entries[..|entries| - 1][..i] == entries[..i];
    } else {
      assert entries[..i] == entries;
    }
  }

  /** No listed name is longer than a slot keeps (Linux limits comm to
      15 bytes, so this holds of a real /proc). */
  predicate ShortNames(fs: ProcFs, entries: seq<DirEntry>)
  {
    forall k :: 0 <= k < |entries| && ListedName(fs, entries[k]).Some? ==>
      |ListedName(fs, entries[k]).value| <= STORED_NAME_LENGTH
  }

  function Cap(names: seq<string>, maxNames: nat): seq<string>
  {
    names[..Min(|names|, maxNames)]
  }

  function ListedOne(fs: ProcFs, e: DirEntry): seq<string>
  {
    match ListedName(fs, e)
    case None => []
    case Some(n) => [n]
  }

  lemma ListedSnoc(fs: ProcFs, entries: seq<DirEntry>, i: nat)
    requires i < |entries|
    ensures Listed(fs, entries[..i + 1]) == Listed(fs, entries[..i]) + ListedOne(fs, entries[i])
  {
    assert entries[..i + 1][..i] == entries[..i];
  }

  /** The names stored once the first i entries are scanned, while the
      capacity has not been reached. */
  lemma {:induction false} CollectFromIsFirstSeen(fs: ProcFs, entries: seq<DirEntry>, i: nat, maxNames: nat)
    requires i <= |entries| && ShortNames(fs, entries)
    requires |FirstSeen(Listed(fs, entries[..i]))| < maxNames
    ensures CollectFrom(fs, entries, i, FirstSeen(Listed(fs, entries[..i])), maxNames)
            == Cap(FirstSeen(Listed(fs, entries)), maxNames)
    decreases |entries| - i
  {
    if i == |entries| {
      assert entries[..i] == entries;
    } else {
      if |FirstSeen(Listed(fs, entries[..i + 1]))| < maxNames {
        CollectStep(fs, entries, i, maxNames);
        CollectFromIsFirstSeen(fs, entries, i + 1, maxNames);
      } else {
        CollectStepFull(fs, entries, i, maxNames);
      }
    }
  }

  /** One entry scanned with the capacity not yet reached: the scan goes
      on with the first-seen names of one more entry. */
  lemma CollectStep(fs: ProcFs, entries: seq<DirEntry>, i: nat, maxNames: nat)
    requires i < |entries| && ShortNames(fs, entries)
    requires |FirstSeen(Listed(fs, entries[..i + 1]))| < maxNames
    ensures CollectFrom(fs, entries, i, FirstSeen(Listed(fs, entries[..i])), maxNames)
            == CollectFrom(fs, entries, i + 1, FirstSeen(Listed(fs, entries[..i + 1])), maxNames)
  {
    NextFirstSeen(fs, entries, i);
    CollectFromAt(fs, entries, i, FirstSeen(Listed(fs, entries[..i])), maxNames);
  }

  /** One entry scanned that reaches the capacity: the stored names are the
      first-seen names cut there. */
  lemma CollectStepFull(fs: ProcFs, entries: seq<DirEntry>, i: nat, maxNames: nat)
    requires i < |entries| && ShortNames(fs, entries)
    requires |FirstSeen(Listed(fs, entries[..i]))| < maxNames <= |FirstSeen(Listed(fs, entries[..i + 1]))|
    ensures CollectFrom(fs, entries, i, FirstSeen(Listed(fs, entries[..i])), maxNames)
            == Cap(FirstSeen(Listed(fs, entries)), maxNames)
  {
    var acc := FirstSeen(Listed(fs, entries[..i]));
    var next := FirstSeen(Listed(fs, entries[..i + 1]));
    CollectReachesCap(fs, entries, i, maxNames);
    ListedPrefix(fs, entries, i + 1);
    FirstSeenPrefix(Listed(fs, entries[..i + 1]), Listed(fs, entries));
    CapOfPrefix(next, FirstSeen(Listed(fs, entries)), maxNames);
  }

  lemma CapOfPrefix(p: seq<string>, names: seq<string>, maxNames: nat)
    requires p <= names && |p| == maxNames
    ensures Cap(names, maxNames) == p
  {
  }

  /** The entry that reaches the capacity adds one new name, and the scan
      stops with it. */
  lemma CollectReachesCap(fs: ProcFs, entries: seq<DirEntry>, i: nat, maxNames: nat)
    requires i < |entries| && ShortNames(fs, entries)
    requires |FirstSeen(Listed(fs, entries[..i]))| < maxNames <= |FirstSeen(Listed(fs, entries[..i + 1]))|
    ensures CollectFrom(fs, entries, i, FirstSeen(Listed(fs, entries[..i])), maxNames)
            == FirstSeen(Listed(fs, entries[..i + 1]))
    ensures |FirstSeen(Listed(fs, entries[..i + 1]))| == maxNames
  {
    NextFirstSeen(fs, entries, i);
    CollectFromAt(fs, entries, i, FirstSeen(Listed(fs, entries[..i])), maxNames);
  }

  /** The first-seen names after one more entry: unchanged when it lists
      nothing or an earlier name, one longer otherwise. */
  lemma NextFirstSeen(fs: ProcFs, entries: seq<DirEntry>, i: nat)
    requires i < |entries|
    ensures var acc := FirstSeen(Listed(fs, entries[..i]));
            FirstSeen(Listed(fs, entries[..i + 1])) ==
              match ListedName(fs, entries[i])
              case None => acc
              case Some(n) => if n in acc then acc else acc + [n]
  {
    ListedSnoc(fs, entries, i);
    if ListedName(fs, entries[i]).Some? {
      var l := Listed(fs, entries[..i]);
      var n := ListedName(fs, entries[i]).value;
      assert (l + [n])[..|l + [n]| - 1] == l;
    } else {
      assert Listed(fs, entries[..i + 1]) == Listed(fs, entries[..i]);
    }
  }

  /** One step of the scan when the listed names are short: a new name is
      stored whole. */
  lemma CollectFromAt(fs: ProcFs, entries: seq<DirEntry>, i: nat, acc: seq<string>, maxNames: nat)
    requires i < |entries| && ShortNames(fs, entries)
    ensures CollectFrom(fs, entries, i, acc, maxNames) ==
              match ListedName(fs, entries[i])
              case None => CollectFrom(fs, entries, i + 1, acc, maxNames)
              case Some(n) =>
                if n in acc then CollectFrom(fs, entries, i + 1, acc, maxNames)
                else if |acc + [n]| >= maxNames then acc + [n]
                else CollectFrom(fs, entries, i + 1, acc + [n], maxNames)
  {
    if ListedName(fs, entries[i]).Some? {
      var n := ListedName(fs, entries[i]).value;
      assert Truncate(n, STORED_NAME_LENGTH) == n;
    }
  }

  /** When no listed name is longer than a slot, the stored names are
      the distinct listed names in first-seen order, cut at the capacity;
      they are pairwise distinct. */
  lemma CollectedNamesAreFirstSeen(fs: ProcFs, maxNames: nat)
    requires maxNames >= 1 && fs.listing.Some? && ShortNames(fs, fs.listing.value)
    ensures CollectedNames(fs, maxNames) == Cap(FirstSeen(Listed(fs, fs.listing.value)), maxNames)
    ensures Distinct(CollectedNames(fs, maxNames))
  {
    var entries := fs.listing.value;
    assert entries[..0] == [];
    CollectFromIsFirstSeen(fs, entries, 0, maxNames);
    FirstSeenDistinct(Listed(fs, entries));
  }

  /** The capacity-first scan never stores more than `maxNames` names,
      whatever the capacity, zero included. */
  lemma {:induction false} CappedFromBounded(fs: ProcFs, entries: seq<DirEntry>, i: nat, acc: seq<string>, maxNames: nat)
    requires i <= |entries| && |acc| <= maxNames
    ensures |CappedFrom(fs, entries, i, acc, maxNames)| <= maxNames
    decreases |entries| - i
  {
    if i < |entries| && |acc| < maxNames {
      match ListedName(fs, entries[i])
      case None => CappedFromBounded(fs, entries, i + 1, acc, maxNames);
      case Some(n) =>
        if n in acc {
          CappedFromBounded(fs, entries, i + 1, acc, maxNames);
        } else {
          CappedFromBounded(fs, entries, i + 1, acc + [Truncate(n, STORED_NAME_LENGTH)], maxNames);
        }
    }
  }

  lemma CappedNamesBounded(fs: ProcFs, maxNames: nat)
    ensures |CappedNames(fs, maxNames)| <= maxNames
  {
    if fs.listing.Some? {
      CappedFromBounded(fs, fs.listing.value, 0, [], maxNames);
    }
  }

  /** What a slot may hold: at most 63 bytes, never a kernel-thread name. */
  predicate StoredName(n: string)
  {
    |n| <= STORED_NAME_LENGTH && (n == [] || n[0] != '[')
  }

  /** Whatever the names' lengths: with a capacity of at least one the
      scan stores at most `maxNames` names, every one a valid slot, and
      names once stored are never changed. */
  lemma {:induction false} CollectFromBounds(fs: ProcFs, entries: seq<DirEntry>, i: nat, acc: seq<string>, maxNames: nat)
    requires i <= |entries| && |acc| < maxNames
    requires forall k :: 0 <= k < |acc| ==> StoredName(acc[k])
    ensures var r := CollectFrom(fs, entries, i, acc, maxNames);
      |r| <= maxNames && acc <= r && forall k :: 0 <= k < |r| ==> StoredName(r[k])
    decreases |entries| - i
  {
    if i < |entries| {
      match ListedName(fs, entries[i])
      case None => CollectFromBounds(fs, entries, i + 1, acc, maxNames);
      case Some(n) =>
        if n in acc {
          CollectFromBounds(fs, entries, i + 1, acc, maxNames);
        } else {
          var stored := Truncate(n, STORED_NAME_LENGTH);
          assert StoredName(stored);
          var acc' := acc + [stored];
          assert forall k :: 0 <= k < |acc'| ==> StoredName(acc'[k]);
          if |acc'| < maxNames {
            CollectFromBounds(fs, entries, i + 1, acc', maxNames);
          }
        }
    }
  }

  lemma CollectedNamesBounds(fs: ProcFs, maxNames: nat)
    requires maxNames >= 1
    ensures |CollectedNames(fs, maxNames)| <= maxNames
    ensures forall k :: 0 <= k < |CollectedNames(fs, maxNames)| ==> StoredName(CollectedNames(fs, maxNames)[k])
  {
    if fs.listing.Some? {
      CollectFromBounds(fs, fs.listing.value, 0, [], maxNames);
    }
  }

  /** Deduplication compares the stored, truncated names with the full
      candidate, so a name of 64 bytes or more seen twice is stored twice. */
  lemma LongNameStoredTwice(n: string)
    requires |n| >= MAX_PROC_NAME_LENGTH && n[0] != '[' && '\n' !in n
    ensures var fs := ProcFs(Some([DirEntry("1", DtDir), DirEntry("2", DtDir)]),
                             map[1 := Line(n), 2 := Line(n)], map[], map[], map[]);
      CollectedNames(fs, MAX_PROCESS_COUNT) == [Truncate(n, STORED_NAME_LENGTH), Truncate(n, STORED_NAME_LENGTH)]
  {
    var e1, e2 := DirEntry("1", DtDir), DirEntry("2", DtDir);
    var fs := ProcFs(Some([e1, e2]), map[1 := Line(n), 2 := Line(n)], map[], map[], map[]);
    PidOfDecimalName("1");
    PidOfDecimalName("2");
    assert IndexOf(n, '\n') == |n|;
    assert UpToNewline(n) == n;
    assert ListedName(fs, e1) == Some(n) && ListedName(fs, e2) == Some(n);
    var t := Truncate(n, STORED_NAME_LENGTH);
    assert |t| < |n|;
    assert n !in [t];
    assert CollectFrom(fs, [e1, e2], 2, [t, t], MAX_PROCESS_COUNT) == [t, t];
    assert CollectFrom(fs, [e1, e2], 1, [t], MAX_PROCESS_COUNT) == [t, t];
  }

  /** collect_process_list: fills `names` with the distinct listed names
      in scan order and returns how many it stored. */
  method CollectProcessList(names: array<string>, maxNames: nat, fs: ProcFs) returns (count: nat)
    requires 1 <= maxNames <= names.Length
    modifies names
    ensures count <= maxNames
    ensures names[..count] == CollectedNames(fs, maxNames) == CappedNames(fs, maxNames)
    ensures names[count..] == old(names[count..])
  {
    CollectedNamesAgreeWithCapped(fs, maxNames);
    if fs.listing.None? {
      return 0;
    }
    var entries := fs.listing.value;
    count := 0;
    var idx := 0;
    while idx < |entries|
      invariant 0 <= idx <= |entries| && count < maxNames
      invariant CollectFrom(fs, entries, idx, names[..count], maxNames) == CollectedNames(fs, maxNames)
      invariant forall k :: count <= k < names.Length ==> names[k] == old(names[k])
    {
      var e := entries[idx];
      idx := idx + 1;
      if !ScannedType(e.dtype) {
        continue;
      }
      var pid := PidOfEntry(e.name);
      if pid.None? {
        continue;
      }
      if pid.value !in fs.comm || !fs.comm[pid.value].Line? {
        continue;
      }
      var buf := UpToNewline(fs.comm[pid.value].text);
      if buf != [] && buf[0] == '[' {
        continue;
      }
      assert ListedName(fs, e) == Some(buf);

      var found := false;
      var j := 0;
      while j < count && !found
        invariant 0 <= j <= count
        invariant found ==> buf in names[..count]
        invariant !found ==> buf !in names[..j]
        decreases count - j, if found then 0 else 1
      {
        if names[j] == buf {
          found := true;
        } else {
          assert names[..j + 1] == names[..j] + [names[j]];
          j := j + 1;
        }
      }
      if found {
        continue;
      }
      ghost var before := names[..count];
      names[count] := Truncate(buf, STORED_NAME_LENGTH);
      count := count + 1;
      assert names[..count] == before + [Truncate(buf, STORED_NAME_LENGTH)];
      if count >= maxNames {
        return;
      }
    }
  }
}
