/**
  The per-key synchronisation rule shared by `check_and_update_files`
  (updater.py) and `UpdateWorker.run` (app.py). Network and filesystem
  effects are an `Oracle`; `Sync` is the specification of the per-key loop,
  against which both loops are proved.
 */
module PatchSync {
  import opened Wrappers
  import opened Config
  import opened Storage
  import opened ManifestSource
  import opened Staging

  /** Everything the cycle learns from the network and the filesystem. */
  datatype Oracle = Oracle(
    fetch: FetchOutcome,                // GET of the manifest URL
    cacheWrite: WriteOutcome,           // rewriting patches_local.json
    makeDirOk: bool,                    // data_dir.mkdir(parents=True, exist_ok=True)
    probe: string -> Option<int>,       // get_remote_timestamp(url), in epoch seconds
    download: string -> bool,           // download_file(url, ...) transfers the body
    extract: (string, string) -> bool,  // extract_7z of the archive from url into a directory
    versionSave: string -> WriteOutcome // save_version_map after committing a key
  )

  /** The files a cycle reads and writes. */
  datatype Disk = Disk(config: ConfigSource, versions: VersionFile, cache: CacheFile)

  /** An exception that escapes the setup of a cycle. */
  datatype Crash =
    | MakeDirFailed              // mkdir raised
    | NotAMapping                // the cached manifest has no `.items()`
    | MissingSetting(name: string) // KeyError on a configuration lookup
    | VersionsNotMapping         // `version_map.get` on a version document that is not an object

  /** `version_map.get(key, 0)`. */
  function Stored(vm: VersionMap, key: string): int {
    if key in vm then vm[key] else 0
  }

  function Lookup(vm: VersionMap, key: string): Option<int> {
    if key in vm then Some(vm[key]) else None
  }

  /** What happened to one manifest entry. */
  datatype KeyOutcome =
    | NoTimestamp                                  // probe gave None: skipped
    | Current(remote: int)                         // remote <= stored
    | DownloadFailed(fileName: string, remote: int)
    | ExtractFailed(fileName: string, remote: int)
    | Installed(fileName: string, remote: int)     // downloaded, extracted, committed

  /** The outcomes for which a download was started. */
  predicate Attempted(out: KeyOutcome) {
    out.DownloadFailed? || out.ExtractFailed? || out.Installed?
  }

  /** The download and the extraction into `target` both succeed. */
  predicate Installable(e: Entry, o: Oracle, target: string) {
    o.download(e.url) && !NamesDirectory(FileName(e.url)) && o.extract(e.url, target)
  }

  /**
    The decision for one entry against the stored map `vm`: skip without a
    timestamp, download only when the remote timestamp is strictly newer than
    the stored one (0 when absent), commit only when the download and the
    extraction into `target` both succeed.
   */
  function Outcome(vm: VersionMap, e: Entry, o: Oracle, target: string): (out: KeyOutcome)
    ensures out.NoTimestamp? <==> o.probe(e.url).None?
    ensures !out.NoTimestamp? ==> out.remote == o.probe(e.url).value
    ensures Attempted(out) <==> o.probe(e.url).Some? && o.probe(e.url).value > Stored(vm, e.key)
    ensures out.Installed? <==> Attempted(out) && Installable(e, o, target)
    ensures Attempted(out) ==> out.fileName == FileName(e.url)
  {
    match o.probe(e.url)
    case None => NoTimestamp
    case Some(remote) =>
      if remote > Stored(vm, e.key) then
        var name := FileName(e.url);
        if !o.download(e.url) || NamesDirectory(name) then DownloadFailed(name, remote)
        else if !o.extract(e.url, target) then ExtractFailed(name, remote)
        else Installed(name, remote)
      else Current(remote)
  }

  /** The in-memory map, the version file, and the logs of outcomes and saved snapshots. */
  datatype Progress = Progress(
    vm: VersionMap,
    versions: VersionFile,
    outcomes: seq<KeyOutcome>,
    saves: seq<VersionMap>)

  /**
    One iteration of the loop: on success set the key and save the whole map
    at once. `Worker.CheckKey` and `Worker.InstallKey` implement it, and the
    body of the loop in `Updater.ProcessPatches`.
   */
  function Step(p: Progress, e: Entry, o: Oracle, target: string): Progress {
    var out := Outcome(p.vm, e, o, target);
    if out.Installed? then
      var vm := p.vm[e.key := out.remote];
      Progress(vm, SaveVersionMap(vm, p.versions, o.versionSave(e.key)), p.outcomes + [out], p.saves + [vm])
    else
      p.(outcomes := p.outcomes + [out])
  }

  /**
    The loop over `entries` in manifest order, from the stored map `vm0`;
    `Updater.ProcessPatches` and `Worker.ProcessPatches` implement it.
   */
  function Sync(entries: seq<Entry>, vm0: VersionMap, versions0: VersionFile, o: Oracle, target: string): (p: Progress)
    ensures |p.outcomes| == |entries|
    decreases |entries|
  {
    if entries == [] then Progress(vm0, versions0, [], [])
    else
      var prev := Sync(entries[..|entries| - 1], vm0, versions0, o, target);
      StepExtends(prev, entries[|entries| - 1], o, target);
      Step(prev, entries[|entries| - 1], o, target)
  }

  /** When no entry is installed, the map, the version file and the saves are as they were. */
  lemma {:induction false} NothingInstalled(entries: seq<Entry>, vm0: VersionMap, versions0: VersionFile, o: Oracle, target: string)
    requires forall j :: 0 <= j < |entries| ==> !Sync(entries, vm0, versions0, o, target).outcomes[j].Installed?
    ensures var p := Sync(entries, vm0, versions0, o, target);
      p.vm == vm0 && p.versions == versions0 && p.saves == []
    decreases |entries|
  {
    if entries != [] {
      var prefix, last := entries[..|entries| - 1], entries[|entries| - 1];
      var prev := Sync(prefix, vm0, versions0, o, target);
      var p := Sync(entries, vm0, versions0, o, target);
      assert p == Step(prev, last, o, target);
      StepExtends(prev, last, o, target);
      assert !p.outcomes[|entries| - 1].Installed?;
      assert forall j :: 0 <= j < |prefix| ==> prev.outcomes[j] == p.outcomes[j];
      NothingInstalled(prefix, vm0, versions0, o, target);
    }
  }

  /** A step appends one outcome, and at most the new map to the saves. */
  lemma StepExtends(p: Progress, e: Entry, o: Oracle, target: string)
    ensures var q := Step(p, e, o, target);
      && q.outcomes == p.outcomes + [Outcome(p.vm, e, o, target)]
      && (if Outcome(p.vm, e, o, target).Installed? then q.saves == p.saves + [q.vm] else q == p.(outcomes := q.outcomes))
  {
  }

  /** The value a key has after the cycle, decided against the initial map alone. */
  function Committed(vm0: VersionMap, e: Entry, o: Oracle, target: string): Option<int> {
    var out := Outcome(vm0, e, o, target);
    if out.Installed? then Some(out.remote) else Lookup(vm0, e.key)
  }

  /** Every prefix of the loop is the loop over the prefix. */
  lemma {:induction false} SyncPrefix(entries: seq<Entry>, vm0: VersionMap, versions0: VersionFile, o: Oracle, target: string, i: nat)
    requires i <= |entries|
    ensures Sync(entries[..i], vm0, versions0, o, target).outcomes == Sync(entries, vm0, versions0, o, target).outcomes[..i]
    ensures Sync(entries[..i], vm0, versions0, o, target).saves <= Sync(entries, vm0, versions0, o, target).saves
    decreases |entries|
  {
    if i < |entries| {
      var prefix := entries[..|entries| - 1];
      var prev := Sync(prefix, vm0, versions0, o, target);
      SyncPrefix(prefix, vm0, versions0, o, target, i);
      assert prefix[..i] == entries[..i];
      StepExtends(prev, entries[|entries| - 1], o, target);
      assert prev.outcomes == Sync(entries, vm0, versions0, o, target).outcomes[..|prefix|];
    } else {
      assert entries[..i] == entries;
    }
  }

  /** Iterations over other keys leave a key's entry as it was. */
  lemma {:induction false} Untouched(entries: seq<Entry>, vm0: VersionMap, versions0: VersionFile, o: Oracle, target: string, j: nat, k: string)
    requires j <= |entries|
    requires forall m :: j <= m < |entries| ==> entries[m].key != k
    ensures Lookup(Sync(entries, vm0, versions0, o, target).vm, k) == Lookup(Sync(entries[..j], vm0, versions0, o, target).vm, k)
    decreases |entries|
  {
    if j < |entries| {
      var prefix := entries[..|entries| - 1];
      Untouched(prefix, vm0, versions0, o, target, j, k);
      assert prefix[..j] == entries[..j];
    } else {
      assert entries[..j] == entries;
    }
  }

  /** The loop runs over exactly the first `j` entries before it reaches entry `j`. */
  lemma SyncAt(entries: seq<Entry>, vm0: VersionMap, versions0: VersionFile, o: Oracle, target: string, j: nat)
    requires j < |entries|
    ensures Sync(entries[..j + 1], vm0, versions0, o, target) == Step(Sync(entries[..j], vm0, versions0, o, target), entries[j], o, target)
  {
    assert entries[..j + 1][..j] == entries[..j];
  }

  /**
    Isolation: with distinct keys, the outcome of every entry is the one it
    would have alone against the initial map; a skip or a failure of one key
    changes nothing in how the others are evaluated.
   */
  lemma OutcomeIsolated(entries: seq<Entry>, vm0: VersionMap, versions0: VersionFile, o: Oracle, target: string, j: nat)
    requires DistinctKeys(entries) && j < |entries|
    ensures Sync(entries, vm0, versions0, o, target).outcomes[j] == Outcome(vm0, entries[j], o, target)
  {
    SyncPrefix(entries, vm0, versions0, o, target, j + 1);
    SyncAt(entries, vm0, versions0, o, target, j);
    Untouched(entries[..j], vm0, versions0, o, target, 0, entries[j].key);
    assert entries[..j][..0] == [];
  }

  /**
    Commit rule and isolation: each manifest key ends with the remote value if
    its probe, staleness test, download and extraction all succeed, and with
    its initial entry (or none) otherwise.
   */
  lemma FinalValue(entries: seq<Entry>, vm0: VersionMap, versions0: VersionFile, o: Oracle, target: string, j: nat)
    requires DistinctKeys(entries) && j < |entries|
    ensures Lookup(Sync(entries, vm0, versions0, o, target).vm, entries[j].key) == Committed(vm0, entries[j], o, target)
  {
    var k := entries[j].key;
    Untouched(entries, vm0, versions0, o, target, j + 1, k);
    SyncAt(entries, vm0, versions0, o, target, j);
    Untouched(entries[..j], vm0, versions0, o, target, 0, k);
    assert entries[..j][..0] == [];
  }

  /** Keys outside the manifest keep their entries. */
  lemma OutsideManifest(entries: seq<Entry>, vm0: VersionMap, versions0: VersionFile, o: Oracle, target: string, k: string)
    requires forall m :: 0 <= m < |entries| ==> entries[m].key != k
    ensures Lookup(Sync(entries, vm0, versions0, o, target).vm, k) == Lookup(vm0, k)
  {
    Untouched(entries, vm0, versions0, o, target, 0, k);
    assert entries[..0] == [];
  }

  /**
    Monotonicity: no stored key disappears, no stored value decreases, and a
    value that changed is strictly greater than the one stored before.
   */
  lemma {:induction false} Monotone(entries: seq<Entry>, vm0: VersionMap, versions0: VersionFile, o: Oracle, target: string)
    ensures var vm := Sync(entries, vm0, versions0, o, target).vm;
      && (forall k :: k in vm0 ==> k in vm)
      && (forall k :: Stored(vm, k) >= Stored(vm0, k))
      && (forall k :: Lookup(vm, k) != Lookup(vm0, k) ==> k in vm && vm[k] > Stored(vm0, k))
    decreases |entries|
  {
    if entries != [] {
      Monotone(entries[..|entries| - 1], vm0, versions0, o, target);
    }
  }

  /** Entry `j`'s outcome and the map after it, read off the loop over the prefix. */
  lemma OutcomeAt(entries: seq<Entry>, vm0: VersionMap, versions0: VersionFile, o: Oracle, target: string, j: nat)
    requires j < |entries|
    ensures var before := Sync(entries[..j], vm0, versions0, o, target);
      && Sync(entries, vm0, versions0, o, target).outcomes[j] == Outcome(before.vm, entries[j], o, target)
      && Sync(entries[..j + 1], vm0, versions0, o, target).vm == Step(before, entries[j], o, target).vm
  {
    SyncPrefix(entries, vm0, versions0, o, target, j + 1);
    SyncAt(entries, vm0, versions0, o, target, j);
    StepExtends(Sync(entries[..j], vm0, versions0, o, target), entries[j], o, target);
  }

  /** A key's value changes exactly when it is installed. */
  lemma ChangedIffInstalled(vm0: VersionMap, e: Entry, o: Oracle, target: string)
    ensures Committed(vm0, e, o, target) != Lookup(vm0, e.key) <==> Outcome(vm0, e, o, target).Installed?
  {
  }

  /** The map is saved right after each commit, whole, before the next key is looked at. */
  lemma SavedRightAfterCommit(entries: seq<Entry>, vm0: VersionMap, versions0: VersionFile, o: Oracle, target: string, j: nat)
    requires j < |entries|
    requires Sync(entries, vm0, versions0, o, target).outcomes[j].Installed?
    ensures var upTo := Sync(entries[..j + 1], vm0, versions0, o, target);
      && |upTo.saves| > 0
      && upTo.saves <= Sync(entries, vm0, versions0, o, target).saves
      && upTo.saves[|upTo.saves| - 1] == upTo.vm
      && Lookup(upTo.vm, entries[j].key) == Some(Sync(entries, vm0, versions0, o, target).outcomes[j].remote)
  {
    var e, before := entries[j], Sync(entries[..j], vm0, versions0, o, target);
    var out := Outcome(before.vm, e, o, target);
    OutcomeAt(entries, vm0, versions0, o, target, j);
    SyncAt(entries, vm0, versions0, o, target, j);
    var upTo := Sync(entries[..j + 1], vm0, versions0, o, target);
    assert upTo.vm == before.vm[e.key := out.remote] && upTo.saves == before.saves + [upTo.vm];
    SyncPrefix(entries, vm0, versions0, o, target, j + 1);
  }

  /**
    When every save succeeds, the version file read back is the in-memory map,
    provided it was so at the start.
   */
  lemma {:induction false} PersistedMatchesMemory(entries: seq<Entry>, vm0: VersionMap, versions0: VersionFile, o: Oracle, target: string)
    requires LoadVersionMap(versions0) == Some(vm0)
    requires forall m :: 0 <= m < |entries| ==> o.versionSave(entries[m].key) == Written
    ensures var p := Sync(entries, vm0, versions0, o, target); LoadVersionMap(p.versions) == Some(p.vm)
    decreases |entries|
  {
    if entries != [] {
      PersistedMatchesMemory(entries[..|entries| - 1], vm0, versions0, o, target);
    }
  }

  /** The outcomes after which a later pass tries the key again. */
  predicate Failed(out: KeyOutcome) {
    out.DownloadFailed? || out.ExtractFailed?
  }

  /** Two oracles that report the same remote timestamps for the manifest's archives. */
  predicate SameProbes(entries: seq<Entry>, o: Oracle, o2: Oracle) {
    forall m :: 0 <= m < |entries| ==> o2.probe(entries[m].url) == o.probe(entries[m].url)
  }

  /**
    Entry `j` in a second pass from the first pass's map, with the same remote
    timestamps but any download and extraction answers: a download is
    attempted exactly when the first pass's download or extraction of that
    entry failed; otherwise the entry keeps the value the first pass left.
   */
  lemma SecondPassAt(entries: seq<Entry>, vm0: VersionMap, versions0: VersionFile, versions1: VersionFile,
                     o: Oracle, o2: Oracle, target: string, j: nat)
    requires DistinctKeys(entries) && j < |entries| && SameProbes(entries, o, o2)
    ensures var p1 := Sync(entries, vm0, versions0, o, target);
      var p2 := Sync(entries, p1.vm, versions1, o2, target);
      && (Attempted(p2.outcomes[j]) <==> Failed(p1.outcomes[j]))
      && (!Failed(p1.outcomes[j]) ==> Lookup(p2.vm, entries[j].key) == Lookup(p1.vm, entries[j].key))
  {
    var p1 := Sync(entries, vm0, versions0, o, target);
    OutcomeIsolated(entries, vm0, versions0, o, target, j);
    OutcomeIsolated(entries, p1.vm, versions1, o2, target, j);
    FinalValue(entries, vm0, versions0, o, target, j);
    FinalValue(entries, p1.vm, versions1, o2, target, j);
  }

  /**
    Idempotence: a second pass over the same manifest from the map the first
    pass produced, with the same remote timestamps, attempts a download only
    for the entries whose download or extraction failed the first time, and
    changes the map only at their keys. After a first pass without such
    failures it downloads nothing and leaves the map, the version file and the
    saves as they were, whatever downloads and extractions would answer.
   */
  lemma Idempotent(entries: seq<Entry>, vm0: VersionMap, versions0: VersionFile, versions1: VersionFile,
                   o: Oracle, o2: Oracle, target: string)
    requires DistinctKeys(entries) && SameProbes(entries, o, o2)
    ensures var p1 := Sync(entries, vm0, versions0, o, target);
      var p2 := Sync(entries, p1.vm, versions1, o2, target);
      && (forall j :: 0 <= j < |entries| ==> (Attempted(p2.outcomes[j]) <==> Failed(p1.outcomes[j])))
      && (forall j :: 0 <= j < |entries| && !Failed(p1.outcomes[j]) ==>
            Lookup(p2.vm, entries[j].key) == Lookup(p1.vm, entries[j].key))
      && ((forall j :: 0 <= j < |entries| ==> !Failed(p1.outcomes[j])) ==>
            p2.vm == p1.vm && p2.versions == versions1 && p2.saves == [])
  {
    var p1 := Sync(entries, vm0, versions0, o, target);
    var p2 := Sync(entries, p1.vm, versions1, o2, target);
    forall j | 0 <= j < |entries|
      ensures Attempted(p2.outcomes[j]) <==> Failed(p1.outcomes[j])
      ensures !Failed(p1.outcomes[j]) ==> Lookup(p2.vm, entries[j].key) == Lookup(p1.vm, entries[j].key)
    {
      SecondPassAt(entries, vm0, versions0, versions1, o, o2, target, j);
    }
    if forall j :: 0 <= j < |entries| ==> !Failed(p1.outcomes[j]) {
      CleanSecondPass(entries, vm0, versions0, versions1, o, o2, target);
    }
  }

  /** After a first pass without failures, the second pass changes nothing. */
  lemma CleanSecondPass(entries: seq<Entry>, vm0: VersionMap, versions0: VersionFile, versions1: VersionFile,
                        o: Oracle, o2: Oracle, target: string)
    requires DistinctKeys(entries) && SameProbes(entries, o, o2)
    requires forall j :: 0 <= j < |entries| ==> !Failed(Sync(entries, vm0, versions0, o, target).outcomes[j])
    ensures var p1 := Sync(entries, vm0, versions0, o, target);
      var p2 := Sync(entries, p1.vm, versions1, o2, target);
      p2.vm == p1.vm && p2.versions == versions1 && p2.saves == []
  {
    var p1 := Sync(entries, vm0, versions0, o, target);
    forall j | 0 <= j < |entries|
      ensures !Sync(entries, p1.vm, versions1, o2, target).outcomes[j].Installed?
    {
      SecondPassAt(entries, vm0, versions0, versions1, o, o2, target, j);
    }
    NothingInstalled(entries, p1.vm, versions1, o2, target);
  }

  /** The extraction target matters only through the extraction outcomes. */
  lemma {:induction false} TargetOnlyThroughExtraction(entries: seq<Entry>, vm0: VersionMap, versions0: VersionFile, o: Oracle, t1: string, t2: string)
    requires forall m :: 0 <= m < |entries| ==> o.extract(entries[m].url, t1) == o.extract(entries[m].url, t2)
    ensures Sync(entries, vm0, versions0, o, t1) == Sync(entries, vm0, versions0, o, t2)
    decreases |entries|
  {
    if entries != [] {
      TargetOnlyThroughExtraction(entries[..|entries| - 1], vm0, versions0, o, t1, t2);
    }
  }
}
