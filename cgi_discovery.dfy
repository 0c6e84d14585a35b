/** cgi_discovery.c: the list of CGI executables found in a fixed
    allowlist of directories.

    The directory listings (readdir() order) and the stat() results are
    inputs: a directory missing from `dirs` cannot be opened, a path
    missing from `stats` cannot be stat()ed. */
module CgiDiscovery {
  import opened Text
  import opened Limits

  /** What stat() reports about a path: S_ISREG and the S_IXUSR bit. */
  datatype FileStat = FileStat(regular: bool, ownerExec: bool)

  datatype CgiFs = CgiFs(dirs: map<string, seq<string>>, stats: map<string, FileStat>)

  /** The directories scanned, in order. */
  const CGI_PATHS: seq<string> := ["/usr/html/axis-cgi", "/usr/html/onvif-cgi", "/usr/bin", "/usr/sbin"]

  /** The entries the scan ignores: names starting with '.'. */
  predicate Hidden(name: string)
  {
    name != [] && name[0] == '.'
  }

  /** The first n elements, or all of them when there are fewer. */
  function Take<T>(s: seq<T>, n: nat): (r: seq<T>)
    ensures |r| == Min(|s|, n) && r <= s
  {
    s[..Min(|s|, n)]
  }

  /** is_executable_cgi: the name contains ".cgi" anywhere (a substring
      test), and "dir/name", formatted into a 256-byte buffer, stats as a
      regular file with the owner-execute bit. */
  predicate IsExecutableCgi(fs: CgiFs, dir: string, name: string)
  {
    var full := Truncate(dir + "/" + name, MAX_PROC_PATH_LENGTH - 1);
    Contains(name, ".cgi") && full in fs.stats && fs.stats[full].regular && fs.stats[full].ownerExec
  }

  /** The path collect_cgi_list stores for one directory entry, if any:
      hidden names, names that are not executable CGIs, and paths that
      would not fit a 256-byte buffer with their NUL are skipped. */
  function CgiEntry(fs: CgiFs, dir: string, name: string): (r: Option<string>)
    ensures r.Some? <==> !Hidden(name) && IsExecutableCgi(fs, dir, name) && |dir| + 1 + |name| < MAX_PROC_PATH_LENGTH
    ensures r.Some? ==> r.value == dir + "/" + name && |r.value| < MAX_PROC_PATH_LENGTH
  {
    if Hidden(name) then None
    else if !IsExecutableCgi(fs, dir, name) then None
    else if |dir| + 1 + |name| + 1 > MAX_PROC_PATH_LENGTH then None
    else Some(dir + "/" + name)
  }

  function EntryPaths(fs: CgiFs, dir: string, name: string): seq<string>
  {
    match CgiEntry(fs, dir, name)
    case Some(p) => [p]
    case None => []
  }

  /** The paths the entries of one directory yield, in readdir() order. */
  function Accepted(fs: CgiFs, dir: string, names: seq<string>): seq<string>
  {
    if names == [] then []
    else Accepted(fs, dir, names[..|names| - 1]) + EntryPaths(fs, dir, names[|names| - 1])
  }

  /** The paths one directory yields; none when it cannot be opened. */
  function DirCandidates(fs: CgiFs, dir: string): seq<string>
  {
    if dir in fs.dirs then Accepted(fs, dir, fs.dirs[dir]) else []
  }

  /** The paths a list of directories yields, directory by directory. */
  function Candidates(fs: CgiFs, dirs: seq<string>): seq<string>
  {
    if dirs == [] then [] else Candidates(fs, dirs[..|dirs| - 1]) + DirCandidates(fs, dirs[|dirs| - 1])
  }

  /** What collect_cgi_list stores: the first maxEntries paths of the scan. */
  function CollectedCgis(fs: CgiFs, maxEntries: nat): seq<string>
  {
    Take(Candidates(fs, CGI_PATHS), maxEntries)
  }

  /** Once n elements are taken, later elements do not matter. */
  lemma TakeFull<T>(a: seq<T>, b: seq<T>, n: nat)
    requires |a| >= n
    ensures Take(a + b, n) == Take(a, n)
  {
    assert (a + b)[..n] == a[..n];
  }

  /** Below the cap, one more element is taken. */
  lemma TakeSnoc<T>(a: seq<T>, x: T, n: nat)
    requires |a| < n
    ensures Take(a + [x], n) == Take(a, n) + [x]
  {
  }

  /** The readdir() loop of collect_cgi_list for one opened directory:
      entries are stored after the paths already there until maxEntries
      paths are stored. */
  method ScanDirectory(paths: array<string>, count0: nat, maxEntries: nat, fs: CgiFs, dir: string,
                       names: seq<string>, ghost done: seq<string>) returns (count: nat)
    requires count0 <= maxEntries <= paths.Length
    requires paths[..count0] == Take(done, maxEntries)
    modifies paths
    ensures count0 <= count <= maxEntries
    ensures paths[..count] == Take(done + Accepted(fs, dir, names), maxEntries)
    ensures forall k :: 0 <= k < paths.Length && !(count0 <= k < count) ==> paths[k] == old(paths[k])
  {
    count := count0;
    var j := 0;
    assert done + Accepted(fs, dir, names[..0]) == done;
    while j < |names|
      invariant 0 <= j <= |names| && count0 <= count <= maxEntries
      invariant paths[..count] == Take(done + Accepted(fs, dir, names[..j]), maxEntries)
      invariant forall k :: 0 <= k < paths.Length && !(count0 <= k < count) ==> paths[k] == old(paths[k])
    {
      if count >= maxEntries {
        AcceptedCapped(done, fs, dir, names, j, maxEntries);
        return;
      }
      var name := names[j];
      ghost var before := done + Accepted(fs, dir, names[..j]);
      AcceptedStep(done, fs, dir, names, j);
      if Hidden(name) || !IsExecutableCgi(fs, dir, name) || |dir| + 1 + |name| + 1 > MAX_PROC_PATH_LENGTH {
        assert EntryPaths(fs, dir, name) == [];
        j := j + 1;
        continue;
      }
      TakeSnoc(before, dir + "/" + name, maxEntries);
      paths[count] := dir + "/" + name;
      count := count + 1;
      j := j + 1;
    }
    assert names[..j] == names;
  }

  /** One more directory entry appends its path, if any. */
  lemma AcceptedStep(done: seq<string>, fs: CgiFs, dir: string, names: seq<string>, j: nat)
    requires j < |names|
    ensures done + Accepted(fs, dir, names[..j + 1]) == done + Accepted(fs, dir, names[..j]) + EntryPaths(fs, dir, names[j])
  {
    assert names[..j + 1][..j] == names[..j];
  }

  /** Once the cap is reached, the rest of the directory does not change
      what is stored. */
  lemma AcceptedCapped(done: seq<string>, fs: CgiFs, dir: string, names: seq<string>, j: nat, maxEntries: nat)
    requires j <= |names| && |done + Accepted(fs, dir, names[..j])| >= maxEntries
    ensures Take(done + Accepted(fs, dir, names[..j]), maxEntries) == Take(done + Accepted(fs, dir, names), maxEntries)
  {
    AcceptedPrefix(fs, dir, names, j);
    var head, all := Accepted(fs, dir, names[..j]), Accepted(fs, dir, names);
    TakeFull(done + head, all[|head|..], maxEntries);
    assert done + head + all[|head|..] == done + all;
  }

  /** collect_cgi_list: the allowlisted directories are scanned in order
      and each entry in readdir() order; the scan stops once maxEntries
      paths are stored. */
  method CollectCgiList(paths: array<string>, maxEntries: nat, fs: CgiFs) returns (count: nat)
    requires maxEntries <= paths.Length
    modifies paths
    ensures count <= maxEntries
    ensures paths[..count] == CollectedCgis(fs, maxEntries)
    ensures forall k :: count <= k < paths.Length ==> paths[k] == old(paths[k])
  {
    count := 0;
    var i := 0;
    while i < |CGI_PATHS|
      invariant 0 <= i <= |CGI_PATHS| && count <= maxEntries
      invariant paths[..count] == Take(Candidates(fs, CGI_PATHS[..i]), maxEntries)
      invariant forall k :: count <= k < paths.Length ==> paths[k] == old(paths[k])
    {
      var dir := CGI_PATHS[i];
      ghost var done := Candidates(fs, CGI_PATHS[..i]);
      CandidatesStep(fs, CGI_PATHS, i);
      if dir !in fs.dirs {
        i := i + 1;
        continue;
      }
      count := ScanDirectory(paths, count, maxEntries, fs, dir, fs.dirs[dir], done);
      if count >= maxEntries {
        CandidatesCapped(fs, CGI_PATHS, i + 1, maxEntries);
        return;
      }
      i := i + 1;
    }
    assert CGI_PATHS[..i] == CGI_PATHS;
  }

  /** One more directory appends the paths it yields. */
  lemma CandidatesStep(fs: CgiFs, dirs: seq<string>, i: nat)
    requires i < |dirs|
    ensures Candidates(fs, dirs[..i + 1]) == Candidates(fs, dirs[..i]) + DirCandidates(fs, dirs[i])
  {
    assert dirs[..i + 1][..i] == dirs[..i];
  }

  /** Once the cap is reached, the remaining directories do not change
      what is stored. */
  lemma CandidatesCapped(fs: CgiFs, dirs: seq<string>, i: nat, maxEntries: nat)
    requires i <= |dirs| && |Candidates(fs, dirs[..i])| >= maxEntries
    ensures Take(Candidates(fs, dirs[..i]), maxEntries) == Take(Candidates(fs, dirs), maxEntries)
  {
    var upTo := Candidates(fs, dirs[..i]);
    CandidatesPrefix(fs, dirs, i);
    TakeFull(upTo, Candidates(fs, dirs)[|upTo|..], maxEntries);
    assert upTo + Candidates(fs, dirs)[|upTo|..] == Candidates(fs, dirs);
  }

  /** The paths of a prefix of the entries are a prefix of the paths. */
  lemma {:induction false} AcceptedPrefix(fs: CgiFs, dir: string, names: seq<string>, j: nat)
    requires j <= |names|
    ensures Accepted(fs, dir, names[..j]) <= Accepted(fs, dir, names)
    decreases |names|
  {
    if j < |names| {
      assert names[..|names| - 1][..j] == names[..j];
      AcceptedPrefix(fs, dir, names[..|names| - 1], j);
    } else {
      assert names[..j] == names;
    }
  }

  /** The paths of a prefix of the directories are a prefix of the paths. */
  lemma {:induction false} CandidatesPrefix(fs: CgiFs, dirs: seq<string>, i: nat)
    requires i <= |dirs|
    ensures Candidates(fs, dirs[..i]) <= Candidates(fs, dirs)
    decreases |dirs|
  {
    if i < |dirs| {
      assert dirs[..|dirs| - 1][..i] == dirs[..i];
      CandidatesPrefix(fs, dirs[..|dirs| - 1], i);
    } else {
      assert dirs[..i] == dirs;
    }
  }

  /** Directories contribute in allowlist order: the paths of two runs of
      directories are those of the first followed by those of the second. */
  lemma {:induction false} CandidatesAppend(fs: CgiFs, d1: seq<string>, d2: seq<string>)
    ensures Candidates(fs, d1 + d2) == Candidates(fs, d1) + Candidates(fs, d2)
    decreases |d2|
  {
    if d2 == [] {
      assert d1 + d2 == d1;
    } else {
      var init := d2[..|d2| - 1];
      assert (d1 + d2)[..|d1 + d2| - 1] == d1 + init;
      CandidatesAppend(fs, d1, init);
    }
  }

  /** A path is stored for an entry of a directory in the list. */
  predicate FromListed(fs: CgiFs, dirs: seq<string>, p: string)
  {
    exists d, name :: d in dirs && d in fs.dirs && name in fs.dirs[d] && CgiEntry(fs, d, name) == Some(p)
  }

  /** A path is a directory's candidate exactly when one of its entries
      yields it. */
  lemma {:induction false} AcceptedIff(fs: CgiFs, dir: string, names: seq<string>, p: string)
    ensures p in Accepted(fs, dir, names) <==> exists name :: name in names && CgiEntry(fs, dir, name) == Some(p)
    decreases |names|
  {
    if names != [] {
      var init, last := names[..|names| - 1], names[|names| - 1];
      AcceptedIff(fs, dir, init, p);
      if p in Accepted(fs, dir, names) && p !in Accepted(fs, dir, init) {
        assert CgiEntry(fs, dir, last) == Some(p);
      }
      if exists name :: name in names && CgiEntry(fs, dir, name) == Some(p) {
        var name :| name in names && CgiEntry(fs, dir, name) == Some(p);
        if name != last {
          assert name in init by {
            var k :| 0 <= k < |names| && names[k] == name;
            assert k < |names| - 1 && init[k] == name;
          }
        }
      }
    }
  }

  /** The scan yields exactly the paths of the executable CGIs found in the
      listed directories: nothing else, and none of them is missed. */
  lemma {:induction false} CandidatesIff(fs: CgiFs, dirs: seq<string>, p: string)
    ensures p in Candidates(fs, dirs) <==> FromListed(fs, dirs, p)
    decreases |dirs|
  {
    if dirs != [] {
      var init, last := dirs[..|dirs| - 1], dirs[|dirs| - 1];
      CandidatesIff(fs, init, p);
      if last in fs.dirs {
        AcceptedIff(fs, last, fs.dirs[last], p);
      }
      if p in Candidates(fs, dirs) && p !in Candidates(fs, init) {
        assert p in DirCandidates(fs, last);
        var name :| name in fs.dirs[last] && CgiEntry(fs, last, name) == Some(p);
        assert FromListed(fs, dirs, p);
      }
      if FromListed(fs, init, p) {
        var d, name :| d in init && d in fs.dirs && name in fs.dirs[d] && CgiEntry(fs, d, name) == Some(p);
        assert d in dirs;
      }
      if FromListed(fs, dirs, p) {
        var d, name :| d in dirs && d in fs.dirs && name in fs.dirs[d] && CgiEntry(fs, d, name) == Some(p);
        if d == last {
          assert p in DirCandidates(fs, last);
        } else {
          var k :| 0 <= k < |dirs| && dirs[k] == d;
          assert k < |dirs| - 1 && init[k] == d;
          assert FromListed(fs, init, p);
        }
      }
    }
  }

  /** Every stored path is "dir/name" for an allowlisted directory and a
      visible entry of it whose name contains ".cgi" and which stats as an
      owner-executable regular file; it fits a 256-byte buffer; and no
      more than maxEntries paths are stored, none for a capacity of 0. */
  lemma CollectedAreExecutableCgis(fs: CgiFs, maxEntries: nat)
    ensures |CollectedCgis(fs, maxEntries)| <= maxEntries
    ensures maxEntries == 0 ==> CollectedCgis(fs, maxEntries) == []
    ensures forall p :: p in CollectedCgis(fs, maxEntries) ==>
              |p| < MAX_PROC_PATH_LENGTH && FromListed(fs, CGI_PATHS, p)
  {
    forall p | p in CollectedCgis(fs, maxEntries)
      ensures |p| < MAX_PROC_PATH_LENGTH && FromListed(fs, CGI_PATHS, p)
    {
      assert p in Candidates(fs, CGI_PATHS);
      CandidatesIff(fs, CGI_PATHS, p);
    }
  }

  /** With room for them all, every executable CGI of an allowlisted
      directory is stored. */
  lemma CollectedIsComplete(fs: CgiFs, maxEntries: nat, p: string)
    requires |Candidates(fs, CGI_PATHS)| <= maxEntries && FromListed(fs, CGI_PATHS, p)
    ensures p in CollectedCgis(fs, maxEntries)
  {
    CandidatesIff(fs, CGI_PATHS, p);
  }

  /** The name test is a substring test, not the suffix test the header
      describes: "tool.cgi.bak" passes it. */
  lemma SubstringNameTest()
    ensures Contains("tool.cgi.bak", ".cgi")
  {
    assert OccursAt("tool.cgi.bak", ".cgi", 4);
  }
}
