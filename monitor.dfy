/**
 * `DataMonitor` of `backend/claims/data_monitor.py`: it fingerprints the
 * CSV files of the data folder, compares the fingerprints with the ones it
 * stored last time, reports the paths that changed, appeared or
 * disappeared, and stores the new fingerprints. Reading, hashing and
 * `stat` are inputs here: a folder listing gives, for each CSV file, its
 * hash (or `None` when reading it failed), its modified time and its size.
 */
module Monitor {
  import opened Wrappers

  /** The `{'hash', 'modified', 'size'}` dictionary of one file. */
  datatype Fingerprint = Fingerprint(hash: string, modified: int, size: nat)

  /** One key of a fingerprint dictionary, with its value. */
  datatype Entry = Entry(path: string, info: Fingerprint)

  /** A fingerprint dictionary, in Python's insertion order. */
  type Snapshot = seq<Entry>

  /** What the monitor finds for one file of `glob('*.csv')`. */
  datatype Probe = Probe(path: string, hash: Option<string>, modified: int, size: nat)

  /** The data folder: absent, or its CSV files in `glob` order. */
  datatype Listing = NoFolder | Folder(probes: seq<Probe>)

  /** Each path at most once, as in a dictionary. */
  ghost predicate Distinct(s: Snapshot)
  {
    forall i, j :: 0 <= i < j < |s| ==> s[i].path != s[j].path
  }

  /** No string twice. */
  ghost predicate NoDuplicates(s: seq<string>)
  {
    forall i, j :: 0 <= i < j < |s| ==> s[i] != s[j]
  }

  /** `s.get(p)`. */
  function Lookup(s: Snapshot, p: string): (r: Option<Fingerprint>)
    ensures r.None? ==> forall i :: 0 <= i < |s| ==> s[i].path != p
  {
    if |s| == 0 then None
    else if s[|s| - 1].path == p then Some(s[|s| - 1].info)
    else Lookup(s[..|s| - 1], p)
  }

  /** A path no entry has is not found. */
  lemma {:induction false} LookupAbsent(s: Snapshot, p: string)
    requires forall i :: 0 <= i < |s| ==> s[i].path != p
    ensures Lookup(s, p).None?
  {
    if |s| > 0 {
      LookupAbsent(s[..|s| - 1], p);
    }
  }

  /** Where `p` is held. */
  function IndexOf(s: Snapshot, p: string): (i: nat)
    requires Lookup(s, p).Some?
    ensures i < |s| && s[i] == Entry(p, Lookup(s, p).value)
    ensures forall j :: i < j < |s| ==> s[j].path != p
  {
    if s[|s| - 1].path == p then |s| - 1 else IndexOf(s[..|s| - 1], p)
  }

  /** In a dictionary, every entry is what a lookup of its path finds. */
  lemma {:induction false} LookupFound(s: Snapshot, i: nat)
    requires Distinct(s) && i < |s|
    ensures Lookup(s, s[i].path) == Some(s[i].info)
  {
    if i < |s| - 1 {
      LookupFound(s[..|s| - 1], i);
    }
  }

  /** `s[p] = x`: an existing key keeps its place and takes the new value; a new key goes last. */
  function Put(s: Snapshot, p: string, x: Fingerprint): (r: Snapshot)
    ensures forall q :: Lookup(r, q) == if q == p then Some(x) else Lookup(s, q)
    ensures Distinct(s) ==> Distinct(r)
    ensures |r| == if Lookup(s, p).Some? then |s| else |s| + 1
  {
    if Lookup(s, p).Some? then
      var i := IndexOf(s, p);
      LookupUpdateAll(s, i, Entry(p, x));
      s[i := Entry(p, x)]
    else
      assert (s + [Entry(p, x)])[..|s|] == s;
      s + [Entry(p, x)]
  }

  lemma {:induction false} LookupUpdateAll(s: Snapshot, i: nat, e: Entry)
    requires i < |s| && s[i].path == e.path
    requires forall j :: i < j < |s| ==> s[j].path != e.path
    ensures Lookup(s[i := e], e.path) == Some(e.info)
    ensures forall q :: q != e.path ==> Lookup(s[i := e], q) == Lookup(s, q)
  {
    var n := |s| - 1;
    if i < n {
      assert s[i := e][..n] == s[..n][i := e];
      LookupUpdateAll(s[..n], i, e);
    } else {
      assert s[i := e][..n] == s[..n];
    }
  }

  /** A file is recorded only when reading it gave a (non-empty) hash. */
  predicate Readable(pr: Probe)
  {
    pr.hash.Some? && pr.hash.value != ""
  }

  /** `get_all_csv_hashes` over the probes of the folder. */
  function HashesOf(probes: seq<Probe>): (r: Snapshot)
    ensures Distinct(r)
  {
    if |probes| == 0 then []
    else
      var last := probes[|probes| - 1];
      var front := HashesOf(probes[..|probes| - 1]);
      if Readable(last) then Put(front, last.path, Fingerprint(last.hash.value, last.modified, last.size))
      else front
  }

  /** `get_all_csv_hashes`: a missing folder gives the empty dictionary. */
  function Hashes(listing: Listing): (r: Snapshot)
    ensures Distinct(r)
  {
    match listing
    case NoFolder => []
    case Folder(probes) => HashesOf(probes)
  }

  /** A file that could be read is recorded under its path with the probe's fingerprint, unless a later probe of the same path replaces it. */
  lemma {:induction false} ReadableRecorded(probes: seq<Probe>, i: nat)
    requires i < |probes| && Readable(probes[i])
    requires forall j :: i < j < |probes| ==> probes[j].path != probes[i].path
    ensures Lookup(HashesOf(probes), probes[i].path) == Some(Fingerprint(probes[i].hash.value, probes[i].modified, probes[i].size))
  {
    if i < |probes| - 1 {
      ReadableRecorded(probes[..|probes| - 1], i);
    }
  }

  /** A path none of whose probes could be read is not recorded. */
  lemma {:induction false} UnreadableOmitted(probes: seq<Probe>, p: string)
    requires forall i :: 0 <= i < |probes| && probes[i].path == p ==> !Readable(probes[i])
    ensures Lookup(HashesOf(probes), p).None?
  {
    if |probes| > 0 {
      UnreadableOmitted(probes[..|probes| - 1], p);
    }
  }

  /** The loop of `get_all_csv_hashes`. */
  method GetAllCsvHashes(listing: Listing) returns (hashes: Snapshot)
    ensures hashes == Hashes(listing)
  {
    hashes := [];
    if listing.Folder? {
      var probes := listing.probes;
      var i := 0;
      while i < |probes|
        invariant 0 <= i <= |probes|
        invariant hashes == HashesOf(probes[..i])
      {
        assert probes[..i + 1][..i] == probes[..i];
        var pr := probes[i];
        if pr.hash.Some? && pr.hash.value != "" {
          hashes := Put(hashes, pr.path, Fingerprint(pr.hash.value, pr.modified, pr.size));
        }
        i := i + 1;
      }
      assert probes[..|probes|] == probes;
    }
  }

  /** The first loop of `check_for_changes`: current paths whose fingerprint is new or differs from the stored one. */
  function ChangedOrNew(current: Snapshot, cached: Snapshot): seq<string>
  {
    if |current| == 0 then []
    else
      var e := current[|current| - 1];
      ChangedOrNew(current[..|current| - 1], cached) + (if Lookup(cached, e.path) != Some(e.info) then [e.path] else [])
  }

  /** The second loop: stored paths that are no longer there. */
  function Deleted(cached: Snapshot, current: Snapshot): seq<string>
  {
    if |cached| == 0 then []
    else
      var e := cached[|cached| - 1];
      Deleted(cached[..|cached| - 1], current) + (if Lookup(current, e.path).None? then [e.path] else [])
  }

  /** The change list `check_for_changes` returns. */
  function Changes(cached: Snapshot, current: Snapshot): seq<string>
  {
    ChangedOrNew(current, cached) + Deleted(cached, current)
  }

  /** The paths of a dictionary, in order. */
  function Paths(s: Snapshot): (r: seq<string>)
    ensures |r| == |s| && forall i :: 0 <= i < |s| ==> r[i] == s[i].path
  {
    if |s| == 0 then [] else Paths(s[..|s| - 1]) + [s[|s| - 1].path]
  }

  /** The first loop reports a current path exactly when it is new or its hash, time or size differs. */
  lemma {:induction false} ChangedOrNewIff(current: Snapshot, cached: Snapshot, p: string)
    requires Distinct(current)
    ensures p in ChangedOrNew(current, cached) <==> Lookup(current, p).Some? && Lookup(current, p) != Lookup(cached, p)
  {
    if |current| > 0 {
      var n := |current| - 1;
      var e := current[n];
      ChangedOrNewIff(current[..n], cached, p);
      if p == e.path {
        LookupAbsent(current[..n], p);
      }
    }
  }

  /** The second loop reports a stored path exactly when it is not current. */
  lemma {:induction false} DeletedIff(cached: Snapshot, current: Snapshot, p: string)
    ensures p in Deleted(cached, current) <==> Lookup(cached, p).Some? && Lookup(current, p).None?
  {
    if |cached| > 0 {
      DeletedIff(cached[..|cached| - 1], current, p);
    }
  }

  /**
   * A path is reported exactly when its fingerprint changed, when it is new,
   * or when it was deleted: when the stored and the current dictionary
   * disagree about it.
   */
  lemma ChangesIff(cached: Snapshot, current: Snapshot, p: string)
    requires Distinct(current)
    ensures p in Changes(cached, current) <==> Lookup(current, p) != Lookup(cached, p)
    ensures p in ChangedOrNew(current, cached) ==> Lookup(current, p).Some? && Lookup(cached, p) != Lookup(current, p)
    ensures p in Deleted(cached, current) <==> Lookup(cached, p).Some? && Lookup(current, p).None?
  {
    ChangedOrNewIff(current, cached, p);
    DeletedIff(cached, current, p);
  }

  lemma {:induction false} ChangedOrNewDistinct(current: Snapshot, cached: Snapshot)
    requires Distinct(current)
    ensures NoDuplicates(ChangedOrNew(current, cached))
  {
    if |current| > 0 {
      var n := |current| - 1;
      var e := current[n];
      ChangedOrNewDistinct(current[..n], cached);
      LookupAbsent(current[..n], e.path);
      ChangedOrNewIff(current[..n], cached, e.path);
    }
  }

  lemma {:induction false} DeletedDistinct(cached: Snapshot, current: Snapshot)
    requires Distinct(cached)
    ensures NoDuplicates(Deleted(cached, current))
  {
    if |cached| > 0 {
      var n := |cached| - 1;
      var e := cached[n];
      DeletedDistinct(cached[..n], current);
      LookupAbsent(cached[..n], e.path);
      DeletedIff(cached[..n], current, e.path);
    }
  }

  /**
   * Each path is reported at most once: the changed and new paths come
   * first, then the deleted ones, and no path is in both groups.
   */
  lemma ChangesDistinct(cached: Snapshot, current: Snapshot)
    requires Distinct(cached) && Distinct(current)
    ensures NoDuplicates(Changes(cached, current))
    ensures forall p :: p in ChangedOrNew(current, cached) ==> p !in Deleted(cached, current)
  {
    var a, b := ChangedOrNew(current, cached), Deleted(cached, current);
    ChangedOrNewDistinct(current, cached);
    DeletedDistinct(cached, current);
    forall p | p in a ensures p !in b {
      ChangesIff(cached, current, p);
    }
    NoDuplicatesConcat(a, b);
  }

  lemma NoDuplicatesConcat(a: seq<string>, b: seq<string>)
    requires NoDuplicates(a) && NoDuplicates(b)
    requires forall p :: p in a ==> p !in b
    ensures NoDuplicates(a + b)
  {
    forall i, j | 0 <= i < j < |a + b| ensures (a + b)[i] != (a + b)[j] {
      if j < |a| {
      } else if i < |a| {
        assert (a + b)[i] in a && (a + b)[j] in b;
      } else {
        assert (a + b)[i] == b[i - |a|] && (a + b)[j] == b[j - |a|];
      }
    }
  }

  /** Checking twice against the same fingerprints reports nothing the second time. */
  lemma NothingChanged(s: Snapshot)
    requires Distinct(s)
    ensures Changes(s, s) == []
  {
    var c := Changes(s, s);
    if |c| > 0 {
      ChangesIff(s, s, c[0]);
    }
  }

  /** Without the data folder every stored path is reported deleted, in stored order. */
  lemma {:induction false} MissingFolderDeletesAll(cached: Snapshot)
    ensures Changes(cached, Hashes(NoFolder)) == Paths(cached)
  {
    if |cached| > 0 {
      MissingFolderDeletesAll(cached[..|cached| - 1]);
    }
  }

  /** A stored file that can no longer be read is reported deleted. */
  lemma UnreadableReportedDeleted(cached: Snapshot, probes: seq<Probe>, p: string)
    requires Lookup(cached, p).Some?
    requires forall i :: 0 <= i < |probes| && probes[i].path == p ==> !Readable(probes[i])
    ensures p in Deleted(cached, Hashes(Folder(probes)))
  {
    UnreadableOmitted(probes, p);
    DeletedIff(cached, Hashes(Folder(probes)), p);
  }

  /** `max(info['modified'] ...)`, or `None` for no files. */
  function LatestModified(s: Snapshot): (r: Option<int>)
    ensures r.None? <==> |s| == 0
    ensures r.Some? ==> forall i :: 0 <= i < |s| ==> s[i].info.modified <= r.value
    ensures r.Some? ==> exists i :: 0 <= i < |s| && s[i].info.modified == r.value
  {
    if |s| == 0 then None
    else
      var m := s[|s| - 1].info.modified;
      match LatestModified(s[..|s| - 1])
      case None => Some(m)
      case Some(x) => Some(if x < m then m else x)
  }

  /** `get_last_modified_time`: it lists the folder itself. */
  function GetLastModifiedTime(listing: Listing): Option<int>
  {
    LatestModified(Hashes(listing))
  }

  /** `Path(p).name`: what follows the last `/`. */
  function BaseName(p: string): (r: string)
    ensures '/' !in r
    ensures |r| <= |p| && p[|p| - |r|..] == r
    ensures |r| < |p| ==> p[|p| - |r| - 1] == '/'
  {
    if |p| == 0 || p[|p| - 1] == '/' then ""
    else BaseName(p[..|p| - 1]) + [p[|p| - 1]]
  }

  /** The name of a file in a folder is the name it was given. */
  lemma {:induction false} BaseNameJoin(dir: string, name: string)
    requires '/' !in name
    ensures BaseName(dir + "/" + name) == name
  {
    var p := dir + "/" + name;
    if |name| > 0 {
      var front := name[..|name| - 1];
      assert p[..|p| - 1] == dir + "/" + front;
      BaseNameJoin(dir, front);
      assert front + [name[|name| - 1]] == name;
    }
  }

  /** One entry of the `files` list of `get_data_status`. */
  datatype FileStatus = FileStatus(name: string, size: nat, modified: int)

  datatype DataStatus = DataStatus(totalFiles: nat, lastModified: Option<int>, files: seq<FileStatus>)

  function StatusOf(e: Entry): FileStatus
  {
    FileStatus(BaseName(e.path), e.info.size, e.info.modified)
  }

  function FileStatuses(s: Snapshot): (r: seq<FileStatus>)
    ensures |r| == |s|
    ensures forall i :: 0 <= i < |s| ==> r[i] == StatusOf(s[i])
  {
    if |s| == 0 then [] else FileStatuses(s[..|s| - 1]) + [StatusOf(s[|s| - 1])]
  }

  /**
   * `get_data_status`: the folder is listed once for the files and once
   * more, inside `get_last_modified_time`, for the latest time.
   */
  function GetDataStatus(first: Listing, second: Listing): (r: DataStatus)
    ensures r.totalFiles == |r.files| == |Hashes(first)|
    ensures forall i :: 0 <= i < |r.files| ==> r.files[i] == StatusOf(Hashes(first)[i])
    ensures r.lastModified.None? <==> |Hashes(second)| == 0
    ensures r.lastModified.Some? ==> forall i :: 0 <= i < |Hashes(second)| ==> Hashes(second)[i].info.modified <= r.lastModified.value
    ensures r.lastModified.Some? ==> exists i :: 0 <= i < |Hashes(second)| && Hashes(second)[i].info.modified == r.lastModified.value
    ensures first == second && r.lastModified.Some? ==> forall i :: 0 <= i < |r.files| ==> r.files[i].modified <= r.lastModified.value
  {
    var hashes := Hashes(first);
    DataStatus(|hashes|, GetLastModifiedTime(second), FileStatuses(hashes))
  }

  /** The monitor, with the fingerprints the cache holds. */
  class DataMonitor {
    var cached: Snapshot

    ghost predicate Valid()
      reads this
    {
      Distinct(cached)
    }

    /** A fresh cache: `cache.get(key, {})` gives the empty dictionary. */
    constructor ()
      ensures Valid() && cached == []
    {
      cached := [];
    }

    /** `check_for_changes`: returns the change list and the new fingerprints, which replace the stored ones. */
    method CheckForChanges(listing: Listing) returns (changes: seq<string>, current: Snapshot)
      requires Valid()
      modifies this
      ensures current == Hashes(listing) && cached == current && Valid()
      ensures changes == Changes(old(cached), current)
    {
      current := GetAllCsvHashes(listing);
      var stored := cached;
      changes := [];
      var i := 0;
      while i < |current|
        invariant 0 <= i <= |current|
        invariant changes == ChangedOrNew(current[..i], stored)
      {
        assert current[..i + 1][..i] == current[..i];
        var e := current[i];
        var c := Lookup(stored, e.path);
        if c.Some? {
          if e.info.hash != c.value.hash || e.info.modified != c.value.modified || e.info.size != c.value.size {
            changes := changes + [e.path];
          }
        } else {
          changes := changes + [e.path];
        }
        i := i + 1;
      }
      assert current[..|current|] == current;
      ghost var firstGroup := changes;
      var j := 0;
      while j < |stored|
        invariant 0 <= j <= |stored|
        invariant changes == firstGroup + Deleted(stored[..j], current)
      {
        assert stored[..j + 1][..j] == stored[..j];
        if Lookup(current, stored[j].path).None? {
          changes := changes + [stored[j].path];
        }
        j := j + 1;
      }
      assert stored[..|stored|] == stored;
      cached := current;
    }
  }
}
