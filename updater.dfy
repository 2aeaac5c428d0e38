/**
  The headless cycle of updater.py: `check_and_update_files` and the
  `__main__` block that turns its ending into an exit status.
 */
module Updater {
  import opened Wrappers
  import opened Config
  import opened Storage
  import opened ManifestSource
  import opened Staging
  import opened PatchSync

  /** How a cycle ends. */
  datatype CycleEnd =
    | Completed           // every entry processed
    | NoManifest          // neither the live nor the cached manifest: sys.exit(1)
    | Crashed(reason: Crash) // an exception reached the `__main__` handler
    | Interrupted         // KeyboardInterrupt, taken at a key boundary

  /** The ending, the files afterwards, and the loop's progress if it was reached. */
  datatype UpdaterRun = UpdaterRun(end: CycleEnd, disk: Disk, progress: Option<Progress>)

  /** A KeyboardInterrupt arriving before entry `interrupt.value` (or after the last one). */
  predicate InterruptsWithin(interrupt: Option<nat>, n: nat) {
    interrupt.Some? && interrupt.value <= n
  }

  /** The number of entries processed before an interrupt. */
  function StopAt(interrupt: Option<nat>, n: nat): nat {
    if InterruptsWithin(interrupt, n) then interrupt.value else n
  }

  /** The process exit status of the `__main__` block. */
  function ExitStatus(end: CycleEnd): int {
    match end
    case Completed => 0
    case Interrupted => 0     // the handler prints and falls off the end
    case NoManifest => 1
    case Crashed(_) => 1
  }

  /**
    The specification of one headless cycle, which `CheckAndUpdateFiles`
    implements. When the version document is not an object, every key that
    has a timestamp raises on `version_map.get` inside the per-key handler,
    so the loop runs through without installing anything.
   */
  function UpdaterCycle(disk: Disk, o: Oracle, interrupt: Option<nat>): UpdaterRun {
    var config := ConfigFrom(disk.config);
    if !o.makeDirOk then UpdaterRun(Crashed(MakeDirFailed), disk, None)
    else
      var got := AcquireManifest(o.fetch, o.cacheWrite, disk.cache);
      var disk1 := disk.(cache := got.cache);
      match got.patches
      case None => UpdaterRun(NoManifest, disk1, None)
      case Some(doc) =>
        if !doc.Mapping? then UpdaterRun(Crashed(NotAMapping), disk1, None)
        else
          var end := if InterruptsWithin(interrupt, |doc.entries|) then Interrupted else Completed;
          match LoadVersionMap(disk.versions)
          case None => UpdaterRun(end, disk1, None)
          case Some(vm0) =>
            var p := Sync(doc.entries[..StopAt(interrupt, |doc.entries|)], vm0, disk.versions, o, config[DataDirKey]);
            UpdaterRun(end, disk1.(versions := p.versions), Some(p))
  }

  /**
    `check_and_update_files` with the handlers of `__main__`: load the
    configuration and the version map, create the data directory, acquire the
    manifest, then walk it in order, committing and saving each key whose
    archive was downloaded and extracted into the data directory.
   */
  method CheckAndUpdateFiles(disk: Disk, o: Oracle, interrupt: Option<nat>) returns (r: UpdaterRun)
    ensures r == UpdaterCycle(disk, o, interrupt)
  {
    var config := LoadConfig(disk.config);
    var dataDir := config[DataDirKey];
    var versionMap := LoadVersionMap(disk.versions);
    if !o.makeDirOk {
      return UpdaterRun(Crashed(MakeDirFailed), disk, None);
    }
    var live := DownloadPatches(o.fetch, o.cacheWrite, disk.cache);
    var patches := live.patches;
    if patches.None? {
      patches := LoadLocalPatches(live.cache);
      if patches.None? {
        return UpdaterRun(NoManifest, disk.(cache := live.cache), None);
      }
    }
    if !patches.value.Mapping? {
      return UpdaterRun(Crashed(NotAMapping), disk.(cache := live.cache), None);
    }
    var entries := patches.value.entries;
    var end := if InterruptsWithin(interrupt, |entries|) then Interrupted else Completed;
    if versionMap.None? {
      return UpdaterRun(end, disk.(cache := live.cache), None);
    }
    var progress := ProcessPatches(entries[..StopAt(interrupt, |entries|)], versionMap.value, disk.versions, o, dataDir);
    r := UpdaterRun(end, disk.(cache := live.cache, versions := progress.versions), Some(progress));
  }

  /**
    The loop of `check_and_update_files` over the manifest entries, in order:
    probe, compare with the stored timestamp (0 when absent), download and
    extract into the data directory, then set the key and save the whole map.
   */
  method ProcessPatches(entries: seq<Entry>, vm0: VersionMap, versions0: VersionFile, o: Oracle, dataDir: string)
    returns (p: Progress)
    ensures p == Sync(entries, vm0, versions0, o, dataDir)
  {
    var versionMap, versions := vm0, versions0;
    var outcomes: seq<KeyOutcome> := [];
    var saves: seq<VersionMap> := [];
    var i := 0;
    while i < |entries|
      invariant 0 <= i <= |entries|
      invariant Progress(versionMap, versions, outcomes, saves) == Sync(entries[..i], vm0, versions0, o, dataDir)
    {
      var fileKey, url := entries[i].key, entries[i].url;
      var remoteTimestamp := o.probe(url);
      if remoteTimestamp.None? {
        outcomes := outcomes + [NoTimestamp];
      } else {
        var localTimestamp := Stored(versionMap, fileKey);
        if remoteTimestamp.value > localTimestamp {
          var fileName := FileName(url);
          if !o.download(url) || NamesDirectory(fileName) {
            outcomes := outcomes + [DownloadFailed(fileName, remoteTimestamp.value)];
          } else if !o.extract(url, dataDir) {
            outcomes := outcomes + [ExtractFailed(fileName, remoteTimestamp.value)];
          } else {
            versionMap := versionMap[fileKey := remoteTimestamp.value];
            versions := SaveVersionMap(versionMap, versions, o.versionSave(fileKey));
            saves := saves + [versionMap];
            outcomes := outcomes + [Installed(fileName, remoteTimestamp.value)];
          }
        } else {
          outcomes := outcomes + [Current(remoteTimestamp.value)];
        }
      }
      SyncAt(entries, vm0, versions0, o, dataDir, i);
      i := i + 1;
    }
    assert entries[..i] == entries;
    p := Progress(versionMap, versions, outcomes, saves);
  }

  /**
    The exit status is non-zero exactly when no manifest could be obtained or
    setup raised; a cycle with failed keys, or an interrupted one, exits 0.
   */
  lemma HeadlessExitStatus(disk: Disk, o: Oracle, interrupt: Option<nat>)
    ensures var r := UpdaterCycle(disk, o, interrupt);
      var got := AcquireManifest(o.fetch, o.cacheWrite, disk.cache);
      (ExitStatus(r.end) != 0 <==> !o.makeDirOk || got.patches.None? || !got.patches.value.Mapping?)
  {
  }

  /**
    Without a manifest the cycle ends before any key is probed: nothing was
    processed and the version file is untouched; when the live fetch itself
    failed, no file at all was changed.
   */
  lemma NoManifestTouchesNothing(disk: Disk, o: Oracle, interrupt: Option<nat>)
    requires UpdaterCycle(disk, o, interrupt).end == NoManifest
    ensures var r := UpdaterCycle(disk, o, interrupt);
      && r.progress == None
      && r.disk.versions == disk.versions
      && (!(o.fetch.Fetched? && ValidPayload(o.fetch.doc)) ==> r.disk == disk)
  {
  }

  /** Live fetch failed and no usable cache: the cycle is fatal (exit status 1) and no file changes. */
  lemma NoLiveNoCacheIsFatal(disk: Disk, o: Oracle, interrupt: Option<nat>)
    requires o.makeDirOk && o.fetch.FetchFailed?
    requires disk.cache.NoCache? || disk.cache.CacheCorrupt? || disk.cache == CacheHolds(Null)
    ensures UpdaterCycle(disk, o, interrupt).end == NoManifest
    ensures UpdaterCycle(disk, o, interrupt).disk == disk
    ensures ExitStatus(UpdaterCycle(disk, o, interrupt).end) == 1
  {
  }

  /** Live fetch failed but the cache holds a mapping: the cycle proceeds over the cached entries. */
  lemma CachedManifestUsed(disk: Disk, o: Oracle, entries: seq<Entry>)
    requires o.makeDirOk && !(o.fetch.Fetched? && ValidPayload(o.fetch.doc))
    requires disk.cache == CacheHolds(Mapping(entries))
    ensures var r := UpdaterCycle(disk, o, None);
      && r.end == Completed
      && r.disk.cache == disk.cache
      && (LoadVersionMap(disk.versions).Some? ==>
            r.progress == Some(Sync(entries, LoadVersionMap(disk.versions).value, disk.versions, o, ConfigFrom(disk.config)[DataDirKey])))
  {
    assert entries[..|entries|] == entries;
  }

  /**
    A version document that is not an object: the loop makes no change, so
    the version file is as it was and the cycle still ends normally when a
    mapping manifest was obtained.
   */
  lemma VersionsNotMappingHeadless(disk: Disk, o: Oracle, interrupt: Option<nat>)
    requires disk.versions.VersionNotMapping?
    ensures var r := UpdaterCycle(disk, o, interrupt);
      var got := AcquireManifest(o.fetch, o.cacheWrite, disk.cache);
      && r.progress.None?
      && r.disk.versions == disk.versions
      && (o.makeDirOk && got.patches.Some? && got.patches.value.Mapping? ==>
            r.end != NoManifest && !r.end.Crashed? && ExitStatus(r.end) == 0)
  {
  }

  /** An interrupted cycle did exactly the first keys of the uninterrupted one. */
  lemma InterruptedIsPrefix(disk: Disk, o: Oracle, i: nat)
    requires UpdaterCycle(disk, o, None).end == Completed
    requires var got := AcquireManifest(o.fetch, o.cacheWrite, disk.cache).patches;
      i <= |got.value.entries|
    ensures var full, cut := UpdaterCycle(disk, o, None), UpdaterCycle(disk, o, Some(i));
      && cut.end == Interrupted
      && cut.progress.Some? == full.progress.Some?
      && (full.progress.Some? ==>
            && cut.progress.value.outcomes == full.progress.value.outcomes[..i]
            && cut.progress.value.saves <= full.progress.value.saves)
  {
    var entries := AcquireManifest(o.fetch, o.cacheWrite, disk.cache).patches.value.entries;
    assert entries[..|entries|] == entries;
    if LoadVersionMap(disk.versions).Some? {
      SyncPrefix(entries, LoadVersionMap(disk.versions).value, disk.versions, o, ConfigFrom(disk.config)[DataDirKey], i);
    }
  }

  /**
    Idempotence of whole cycles. The second cycle runs on the files the first
    left, with an unchanged manifest (the same fetch and cache-write answers)
    and the same remote timestamps, but any download and extraction answers.
    It retries a download exactly for the keys whose download or extraction
    failed the first time. When every first-cycle save completed and no key
    failed, it downloads nothing and leaves every file and the map as they were.
   */
  lemma CycleIdempotent(disk: Disk, o: Oracle, o2: Oracle)
    requires o.fetch.Fetched? ==> Parsed(o.fetch.doc)
    requires disk.cache.CacheHolds? ==> Parsed(disk.cache.doc)
    requires forall k :: o.versionSave(k) == Written
    requires UpdaterCycle(disk, o, None).end == Completed
    requires o2.fetch == o.fetch && o2.cacheWrite == o.cacheWrite && o2.makeDirOk
    requires forall url :: o2.probe(url) == o.probe(url)
    ensures var r1 := UpdaterCycle(disk, o, None);
      var r2 := UpdaterCycle(r1.disk, o2, None);
      && r2.end == Completed
      && r2.progress.Some? == r1.progress.Some?
      && (r1.progress.None? ==> r2.disk == r1.disk)
      && (r1.progress.Some? ==>
            && (forall j :: 0 <= j < |r2.progress.value.outcomes| ==>
                  (Attempted(r2.progress.value.outcomes[j]) <==> Failed(r1.progress.value.outcomes[j])))
            && ((forall j :: 0 <= j < |r1.progress.value.outcomes| ==> !Failed(r1.progress.value.outcomes[j])) ==>
                  r2.disk == r1.disk && r2.progress.value.vm == r1.progress.value.vm))
  {
    var r1 := UpdaterCycle(disk, o, None);
    var got := AcquireManifest(o.fetch, o.cacheWrite, disk.cache);
    AcquireStable(o.fetch, o.cacheWrite, disk.cache);
    var entries := got.patches.value.entries;
    assert entries[..|entries|] == entries;
    if LoadVersionMap(disk.versions).Some? {
      assert DistinctKeys(entries);
      var vm0, target := LoadVersionMap(disk.versions).value, ConfigFrom(disk.config)[DataDirKey];
      PersistedMatchesMemory(entries, vm0, disk.versions, o, target);
      Idempotent(entries, vm0, disk.versions, r1.disk.versions, o, o2, target);
    }
  }
}
