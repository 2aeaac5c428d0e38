/**
  `UpdateWorker.run` of app.py: the same cycle as updater.py, run off the
  interface thread, reporting through `update_signal`. The signals, and the
  saves of the version map among them, form one ordered trace.
 */
module Worker {
  import opened Wrappers
  import opened Config
  import opened Storage
  import opened ManifestSource
  import opened Staging
  import opened PatchSync
  import Updater

  /** The worker reads this key, which the default configuration lacks. */
  const UnpackDirKey: string := "unpack_dir"

  datatype Stage = DownloadStage | ExtractStage

  /** The status lines `update_signal` carries. */
  datatype Signal =
    | LoadingConfig                   // "Konfiguration wird geladen..."
    | FetchingManifest(url: string)   // "Lade Patch-Informationen von <url>..."
    | TryingCache                     // "Versuche lokal zwischengespeicherte Patches zu verwenden..."
    | ManifestUnavailable             // "Fehler: Patches konnten nicht geladen werden..."
    | Checking(key: string)           // "Überprüfe: <key>"
    | TimestampMissing(url: string)   // "Zeitstempel für <url> konnte nicht abgerufen werden"
    | Downloading(key: string)        // "Neuere Version für '<key>' gefunden..."
    | Downloaded(fileName: string)    // "'<name>' heruntergeladen"
    | Unpacked(fileName: string)      // "'<name>' entpackt"
    | VersionUpdated(key: string)     // "Version aktualisiert: '<key>'"
    | KeyFailed(key: string, stage: Stage) // "Fehler bei '<key>': <exception>"
    | IsCurrent(key: string)          // "'<key>' ist aktuell."
    | AllDone                         // "Alle Aufgaben abgeschlossen!"
    | RunFailed(reason: Crash)        // "Fehler während des Update-Prozesses: <exception>"

  /** One item of the worker's ordered trace. */
  datatype TraceItem = Emit(signal: Signal) | Saved(snapshot: VersionMap)

  /** The items one entry contributes, given its outcome and the map after it. */
  function KeyTrace(e: Entry, out: KeyOutcome, after: VersionMap): seq<TraceItem> {
    [Emit(Checking(e.key))] + Report(e, out, after)
  }

  /**
    What follows "Checking" for an entry: exactly one of the outcome paths.
    `Worker.CheckKey` and `Worker.InstallKey` emit it.
   */
  function Report(e: Entry, out: KeyOutcome, after: VersionMap): seq<TraceItem> {
    match out
    case NoTimestamp => [Emit(TimestampMissing(e.url))]
    case Current(_) => [Emit(IsCurrent(e.key))]
    case DownloadFailed(_, _) => [Emit(Downloading(e.key)), Emit(KeyFailed(e.key, DownloadStage))]
    case ExtractFailed(name, _) => [Emit(Downloading(e.key)), Emit(Downloaded(name)), Emit(KeyFailed(e.key, ExtractStage))]
    case Installed(name, _) =>
      [Emit(Downloading(e.key)), Emit(Downloaded(name)), Emit(Unpacked(name)), Saved(after), Emit(VersionUpdated(e.key))]
  }

  /** The trace of the per-key loop, which `Worker.ProcessPatches` emits: the entries' items in manifest order. */
  function LoopTrace(entries: seq<Entry>, vm0: VersionMap, versions0: VersionFile, o: Oracle, target: string): seq<TraceItem>
    decreases |entries|
  {
    if entries == [] then []
    else
      var prefix, last := entries[..|entries| - 1], entries[|entries| - 1];
      var before := Sync(prefix, vm0, versions0, o, target);
      LoopTrace(prefix, vm0, versions0, o, target)
        + KeyTrace(last, Outcome(before.vm, last, o, target), Step(before, last, o, target).vm)
  }

  /** The trace, the files afterwards, and the loop's progress if it was reached. */
  datatype WorkerRun = WorkerRun(trace: seq<TraceItem>, disk: Disk, progress: Option<Progress>)

  /**
    The worker's loop over a version document that is not an object: keys
    without a timestamp are reported and skipped, and the first key with one
    raises on `version_map.get` outside the per-key handler, which ends the
    run with the outer error line. Only a run that never reaches such a key
    reports completion.
   */
  function NoMapTrace(entries: seq<Entry>, o: Oracle): seq<TraceItem>
    decreases |entries|
  {
    if entries == [] then [Emit(AllDone)]
    else
      var e := entries[0];
      [Emit(Checking(e.key))]
        + (if o.probe(e.url).None? then [Emit(TimestampMissing(e.url))] + NoMapTrace(entries[1..], o)
           else [Emit(RunFailed(VersionsNotMapping))])
  }

  /** The specification of one run of the worker, which `Run` implements. */
  function WorkerCycle(disk: Disk, o: Oracle): WorkerRun {
    var config := ConfigFrom(disk.config);
    var setup := [Emit(LoadingConfig)];
    if UnpackDirKey !in config then
      WorkerRun(setup + [Emit(RunFailed(MissingSetting(UnpackDirKey)))], disk, None)
    else if !o.makeDirOk then
      WorkerRun(setup + [Emit(RunFailed(MakeDirFailed))], disk, None)
    else
      var got := AcquireManifest(o.fetch, o.cacheWrite, disk.cache);
      var disk1 := disk.(cache := got.cache);
      var acquiring := setup + [Emit(FetchingManifest(config[PatchesUrlKey]))]
        + (if got.usedCache then [Emit(TryingCache)] else []);
      match got.patches
      case None => WorkerRun(acquiring + [Emit(ManifestUnavailable)], disk1, None)
      case Some(doc) =>
        if !doc.Mapping? then WorkerRun(acquiring + [Emit(RunFailed(NotAMapping))], disk1, None)
        else
          match LoadVersionMap(disk.versions)
          case None => WorkerRun(acquiring + NoMapTrace(doc.entries, o), disk1, None)
          case Some(vm0) =>
            var target := config[UnpackDirKey];
            var p := Sync(doc.entries, vm0, disk.versions, o, target);
            WorkerRun(
              acquiring + LoopTrace(doc.entries, vm0, disk.versions, o, target) + [Emit(AllDone)],
              disk1.(versions := p.versions),
              Some(p))
  }

  /**
    `UpdateWorker.run`: the cycle of updater.py extracting into `unpack_dir`,
    with each step reported in order and the outer handler turning an escaping
    exception into a final error signal.
   */
  method Run(disk: Disk, o: Oracle) returns (r: WorkerRun)
    ensures r == WorkerCycle(disk, o)
  {
    var trace := [Emit(LoadingConfig)];
    var config := LoadConfig(disk.config);
    if UnpackDirKey !in config {
      return WorkerRun(trace + [Emit(RunFailed(MissingSetting(UnpackDirKey)))], disk, None);
    }
    var unpackDir := config[UnpackDirKey];
    var versionMap := LoadVersionMap(disk.versions);
    if !o.makeDirOk {
      return WorkerRun(trace + [Emit(RunFailed(MakeDirFailed))], disk, None);
    }
    trace := trace + [Emit(FetchingManifest(config[PatchesUrlKey]))];
    var live := DownloadPatches(o.fetch, o.cacheWrite, disk.cache);
    var patches := live.patches;
    if patches.None? {
      trace := trace + [Emit(TryingCache)];
      patches := LoadLocalPatches(live.cache);
      if patches.None? {
        return WorkerRun(trace + [Emit(ManifestUnavailable)], disk.(cache := live.cache), None);
      }
    }
    if !patches.value.Mapping? {
      return WorkerRun(trace + [Emit(RunFailed(NotAMapping))], disk.(cache := live.cache), None);
    }
    var entries := patches.value.entries;
    if versionMap.None? {
      var keysTrace := ReportWithoutMap(entries, o);
      return WorkerRun(trace + keysTrace, disk.(cache := live.cache), None);
    }
    var keysTrace, progress := ProcessPatches(entries, versionMap.value, disk.versions, o, unpackDir);
    r := WorkerRun(trace + keysTrace + [Emit(AllDone)], disk.(cache := live.cache, versions := progress.versions), Some(progress));
  }

  /** The loop of `UpdateWorker.run` (app.py lines 55-83), reporting as it goes. */
  method ProcessPatches(entries: seq<Entry>, vm0: VersionMap, versions0: VersionFile, o: Oracle, unpackDir: string)
    returns (trace: seq<TraceItem>, p: Progress)
    ensures trace == LoopTrace(entries, vm0, versions0, o, unpackDir)
    ensures p == Sync(entries, vm0, versions0, o, unpackDir)
  {
    p := Progress(vm0, versions0, [], []);
    trace := [];
    var i := 0;
    while i < |entries|
      invariant 0 <= i <= |entries|
      invariant p == Sync(entries[..i], vm0, versions0, o, unpackDir)
      invariant trace == LoopTrace(entries[..i], vm0, versions0, o, unpackDir)
    {
      var block, next := CheckKey(p, entries[i], o, unpackDir);
      SyncAt(entries, vm0, versions0, o, unpackDir, i);
      LoopTraceAt(entries, vm0, versions0, o, unpackDir, i);
      trace, p := trace + block, next;
      i := i + 1;
    }
    assert entries[..i] == entries;
  }

  /** The loop of `UpdateWorker.run` when the version document is not an object. */
  method ReportWithoutMap(entries: seq<Entry>, o: Oracle) returns (trace: seq<TraceItem>)
    ensures trace == NoMapTrace(entries, o)
  {
    trace := [];
    var i := 0;
    while i < |entries|
      invariant 0 <= i <= |entries|
      invariant trace + NoMapTrace(entries[i..], o) == NoMapTrace(entries, o)
    {
      var e := entries[i];
      assert entries[i..][0] == e && entries[i..][1..] == entries[i + 1..];
      if o.probe(e.url).Some? {
        return trace + [Emit(Checking(e.key)), Emit(RunFailed(VersionsNotMapping))];
      }
      trace := trace + [Emit(Checking(e.key)), Emit(TimestampMissing(e.url))];
      i := i + 1;
    }
    trace := trace + [Emit(AllDone)];
  }

  /**
    One iteration of the worker's loop: report the key, probe it, and
    install it when the remote archive is newer than the stored timestamp.
   */
  method CheckKey(p: Progress, e: Entry, o: Oracle, unpackDir: string) returns (block: seq<TraceItem>, next: Progress)
    ensures next == Step(p, e, o, unpackDir)
    ensures block == KeyTrace(e, Outcome(p.vm, e, o, unpackDir), next.vm)
  {
    block := [Emit(Checking(e.key))];
    var remoteTimestamp := o.probe(e.url);
    if remoteTimestamp.None? {
      block := block + [Emit(TimestampMissing(e.url))];
      next := p.(outcomes := p.outcomes + [NoTimestamp]);
    } else {
      var localTimestamp := Stored(p.vm, e.key);
      if remoteTimestamp.value > localTimestamp {
        var rest;
        rest, next := InstallKey(p, e, remoteTimestamp.value, o, unpackDir);
        block := block + rest;
      } else {
        block := block + [Emit(IsCurrent(e.key))];
        next := p.(outcomes := p.outcomes + [Current(remoteTimestamp.value)]);
      }
    }
  }

  /**
    A stale key: download its archive, extract it into `unpackDir`, then set
    the key to the remote timestamp and save the whole map; a failure at any
    stage is reported and leaves the map as it was.
   */
  method InstallKey(p: Progress, e: Entry, remote: int, o: Oracle, unpackDir: string)
    returns (report: seq<TraceItem>, next: Progress)
    requires o.probe(e.url) == Some(remote) && remote > Stored(p.vm, e.key)
    ensures next == Step(p, e, o, unpackDir)
    ensures report == Report(e, Outcome(p.vm, e, o, unpackDir), next.vm)
  {
    report := [Emit(Downloading(e.key))];
    var fileName := FileName(e.url);
    if !o.download(e.url) || NamesDirectory(fileName) {
      assert Outcome(p.vm, e, o, unpackDir) == DownloadFailed(fileName, remote);
      report := report + [Emit(KeyFailed(e.key, DownloadStage))];
      next := p.(outcomes := p.outcomes + [DownloadFailed(fileName, remote)]);
      return;
    }
    report := report + [Emit(Downloaded(fileName))];
    if !o.extract(e.url, unpackDir) {
      assert Outcome(p.vm, e, o, unpackDir) == ExtractFailed(fileName, remote);
      report := report + [Emit(KeyFailed(e.key, ExtractStage))];
      next := p.(outcomes := p.outcomes + [ExtractFailed(fileName, remote)]);
      return;
    }
    report := report + [Emit(Unpacked(fileName))];
    assert Outcome(p.vm, e, o, unpackDir) == Installed(fileName, remote);
    var versionMap := p.vm[e.key := remote];
    var versions := SaveVersionMap(versionMap, p.versions, o.versionSave(e.key));
    report := report + [Saved(versionMap), Emit(VersionUpdated(e.key))];
    next := Progress(versionMap, versions, p.outcomes + [Installed(fileName, remote)], p.saves + [versionMap]);
  }

  /** The loop's trace grows by one entry's items per iteration. */
  lemma LoopTraceAt(entries: seq<Entry>, vm0: VersionMap, versions0: VersionFile, o: Oracle, target: string, j: nat)
    requires j < |entries|
    ensures var before := Sync(entries[..j], vm0, versions0, o, target);
      LoopTrace(entries[..j + 1], vm0, versions0, o, target)
        == LoopTrace(entries[..j], vm0, versions0, o, target)
           + KeyTrace(entries[j], Outcome(before.vm, entries[j], o, target), Step(before, entries[j], o, target).vm)
  {
    assert entries[..j + 1][..j] == entries[..j];
  }

  /** Every prefix of the loop reports a prefix of the loop's trace. */
  lemma {:induction false} LoopTracePrefix(entries: seq<Entry>, vm0: VersionMap, versions0: VersionFile, o: Oracle, target: string, i: nat)
    requires i <= |entries|
    ensures LoopTrace(entries[..i], vm0, versions0, o, target) <= LoopTrace(entries, vm0, versions0, o, target)
    decreases |entries|
  {
    if i < |entries| {
      var prefix := entries[..|entries| - 1];
      LoopTracePrefix(prefix, vm0, versions0, o, target, i);
      assert prefix[..i] == entries[..i];
    } else {
      assert entries[..i] == entries;
    }
  }

  /** The loop itself never reports completion or a setup failure. */
  lemma {:induction false} LoopNeverEnds(entries: seq<Entry>, vm0: VersionMap, versions0: VersionFile, o: Oracle, target: string)
    ensures forall x | x in LoopTrace(entries, vm0, versions0, o, target) :: x != Emit(AllDone) && !(x.Emit? && x.signal.RunFailed?)
    decreases |entries|
  {
    if entries != [] {
      var prefix, last := entries[..|entries| - 1], entries[|entries| - 1];
      var before := Sync(prefix, vm0, versions0, o, target);
      LoopNeverEnds(prefix, vm0, versions0, o, target);
      BlockNeverEnds(last, Outcome(before.vm, last, o, target), Step(before, last, o, target).vm);
    }
  }

  lemma BlockNeverEnds(e: Entry, out: KeyOutcome, after: VersionMap)
    ensures forall x | x in KeyTrace(e, out, after) :: x != Emit(AllDone) && !(x.Emit? && x.signal.RunFailed?)
  {
  }

  /** Which signals a block carries, by outcome. */
  lemma ReportFacts(e: Entry, out: KeyOutcome, after: VersionMap)
    ensures KeyTrace(e, out, after)[0] == Emit(Checking(e.key))
    ensures Emit(Downloading(e.key)) in KeyTrace(e, out, after) <==> Attempted(out)
    ensures Emit(VersionUpdated(e.key)) in KeyTrace(e, out, after) <==> out.Installed?
    ensures Emit(KeyFailed(e.key, DownloadStage)) in KeyTrace(e, out, after) ==> !out.Installed?
    ensures Emit(KeyFailed(e.key, ExtractStage)) in KeyTrace(e, out, after) ==> !out.Installed?
  {
  }

  /**
    The block of entry `j` sits in the trace right after the blocks of the
    entries before it. With distinct keys it reports a download exactly when
    the key was stale against the stored map, and "version updated" exactly
    when the key's stored timestamp changed; a block ending in an error leaves
    the key's timestamp as it was.
   */
  lemma BlockOfKey(entries: seq<Entry>, vm0: VersionMap, versions0: VersionFile, o: Oracle, target: string, j: nat)
    requires DistinctKeys(entries) && j < |entries|
    ensures var e, p := entries[j], Sync(entries, vm0, versions0, o, target);
      var block := KeyTrace(e, p.outcomes[j], Sync(entries[..j + 1], vm0, versions0, o, target).vm);
      && LoopTrace(entries[..j], vm0, versions0, o, target) + block <= LoopTrace(entries, vm0, versions0, o, target)
      && block[0] == Emit(Checking(e.key))
      && (Emit(Downloading(e.key)) in block <==> o.probe(e.url).Some? && o.probe(e.url).value > Stored(vm0, e.key))
      && (Emit(VersionUpdated(e.key)) in block <==> Lookup(p.vm, e.key) != Lookup(vm0, e.key))
      && (Emit(KeyFailed(e.key, DownloadStage)) in block || Emit(KeyFailed(e.key, ExtractStage)) in block ==>
            Lookup(p.vm, e.key) == Lookup(vm0, e.key))
  {
    var e := entries[j];
    var before := Sync(entries[..j], vm0, versions0, o, target);
    var out := Outcome(before.vm, e, o, target);
    var after := Step(before, e, o, target).vm;
    OutcomeAt(entries, vm0, versions0, o, target, j);
    LoopTracePrefix(entries, vm0, versions0, o, target, j + 1);
    LoopTraceAt(entries, vm0, versions0, o, target, j);
    OutcomeIsolated(entries, vm0, versions0, o, target, j);
    FinalValue(entries, vm0, versions0, o, target, j);
    ReportFacts(e, out, after);
    ChangedIffInstalled(vm0, e, o, target);
  }

  /** A successful key's block ends with the save and the "version updated" signal. */
  lemma InstalledBlock(e: Entry, out: KeyOutcome, after: VersionMap)
    requires out.Installed?
    ensures var block := KeyTrace(e, out, after);
      |block| == 6 && block[4..] == [Saved(after), Emit(VersionUpdated(e.key))]
  {
  }

  lemma EndsWith<T>(a: seq<T>, b: seq<T>, n: nat)
    requires n <= |b|
    ensures (a + b)[|a + b| - n..] == b[|b| - n..]
  {
  }

  /**
    Save timing: a successful key's items end with the save of the whole
    updated map and then "version updated"; with `NextKeyFollows`, nothing of
    the next key comes before them.
   */
  lemma SavedBeforeNextKey(entries: seq<Entry>, vm0: VersionMap, versions0: VersionFile, o: Oracle, target: string, j: nat)
    requires j < |entries|
    requires Sync(entries, vm0, versions0, o, target).outcomes[j].Installed?
    ensures var upTo := LoopTrace(entries[..j + 1], vm0, versions0, o, target);
      var after := Sync(entries[..j + 1], vm0, versions0, o, target).vm;
      && |upTo| >= 2
      && upTo[|upTo| - 2..] == [Saved(after), Emit(VersionUpdated(entries[j].key))]
      && upTo <= LoopTrace(entries, vm0, versions0, o, target)
      && Lookup(after, entries[j].key) == Some(Sync(entries, vm0, versions0, o, target).outcomes[j].remote)
  {
    var e := entries[j];
    var before := Sync(entries[..j], vm0, versions0, o, target);
    var out := Outcome(before.vm, e, o, target);
    OutcomeAt(entries, vm0, versions0, o, target, j);
    LoopTracePrefix(entries, vm0, versions0, o, target, j + 1);
    LoopTraceAt(entries, vm0, versions0, o, target, j);
    InstalledBlock(e, out, Step(before, e, o, target).vm);
    EndsWith(LoopTrace(entries[..j], vm0, versions0, o, target), KeyTrace(e, out, Step(before, e, o, target).vm), 2);
  }

  /** Right after the items of the first `j` entries comes the check of entry `j`. */
  lemma NextKeyFollows(entries: seq<Entry>, vm0: VersionMap, versions0: VersionFile, o: Oracle, target: string, j: nat)
    requires j < |entries|
    ensures var upTo, next := LoopTrace(entries[..j], vm0, versions0, o, target), LoopTrace(entries[..j + 1], vm0, versions0, o, target);
      |next| > |upTo| && next[|upTo|] == Emit(Checking(entries[j].key))
  {
    LoopTraceAt(entries, vm0, versions0, o, target, j);
  }

  /**
    The loop over a version document that is not an object ends with "all
    done" or the outer error line, and "all done" appears nowhere before.
   */
  lemma {:induction false} NoMapTraceEnds(entries: seq<Entry>, o: Oracle)
    ensures var t := NoMapTrace(entries, o);
      && |t| > 0
      && Emit(AllDone) !in t[..|t| - 1]
      && (t[|t| - 1] == Emit(AllDone) || t[|t| - 1] == Emit(RunFailed(VersionsNotMapping)))
    decreases |entries|
  {
    if entries != [] && o.probe(entries[0].url).None? {
      var e := entries[0];
      NoMapTraceEnds(entries[1..], o);
      FrontOfConcat([Emit(Checking(e.key)), Emit(TimestampMissing(e.url))], NoMapTrace(entries[1..], o));
    }
  }

  /** It reports completion exactly when no archive had a timestamp. */
  lemma {:induction false} NoMapTraceCompletes(entries: seq<Entry>, o: Oracle)
    ensures var t := NoMapTrace(entries, o);
      |t| > 0 && (t[|t| - 1] == Emit(AllDone) <==> forall m :: 0 <= m < |entries| ==> o.probe(entries[m].url).None?)
    decreases |entries|
  {
    if entries != [] && o.probe(entries[0].url).None? {
      var e, rest := entries[0], entries[1..];
      NoMapTraceCompletes(rest, o);
      FrontOfConcat([Emit(Checking(e.key)), Emit(TimestampMissing(e.url))], NoMapTrace(rest, o));
      assert forall m :: 0 <= m < |rest| ==> rest[m] == entries[m + 1];
    }
  }

  /** It never downloads and never saves. */
  lemma {:induction false} NoMapTraceQuiet(entries: seq<Entry>, o: Oracle)
    ensures forall x | x in NoMapTrace(entries, o) :: !x.Saved? && !(x.Emit? && x.signal.Downloading?)
    decreases |entries|
  {
    if entries != [] && o.probe(entries[0].url).None? {
      NoMapTraceQuiet(entries[1..], o);
    }
  }

  /** The front and the last item of `a + t` for a non-empty `t`. */
  lemma FrontOfConcat(a: seq<TraceItem>, t: seq<TraceItem>)
    requires |t| > 0
    ensures (a + t)[..|a + t| - 1] == a + t[..|t| - 1]
    ensures (a + t)[|a + t| - 1] == t[|t| - 1]
  {
    assert (a + t)[..|a + t| - 1] == a + t[..|t| - 1];
  }

  /**
    A version document that is not an object, in the worker: keys are checked
    in order, nothing is downloaded or saved and the version file is left as
    it was; the run reports completion only when no archive had a timestamp,
    and otherwise stops with the outer error at the first key that had one.
   */
  lemma VersionsNotMappingInWorker(disk: Disk, o: Oracle)
    requires disk.versions.VersionNotMapping?
    requires UnpackDirKey in ConfigFrom(disk.config) && o.makeDirOk
    requires var got := AcquireManifest(o.fetch, o.cacheWrite, disk.cache).patches;
      got.Some? && got.value.Mapping?
    ensures var r := WorkerCycle(disk, o);
      var entries := AcquireManifest(o.fetch, o.cacheWrite, disk.cache).patches.value.entries;
      && r.progress.None?
      && r.disk.versions == disk.versions
      && |r.trace| > 0
      && Emit(AllDone) !in r.trace[..|r.trace| - 1]
      && (forall x | x in r.trace :: !x.Saved? && !(x.Emit? && x.signal.Downloading?))
      && (r.trace[|r.trace| - 1] == Emit(AllDone) <==> forall m :: 0 <= m < |entries| ==> o.probe(entries[m].url).None?)
      && (r.trace[|r.trace| - 1] != Emit(AllDone) ==> r.trace[|r.trace| - 1] == Emit(RunFailed(VersionsNotMapping)))
  {
    var config := ConfigFrom(disk.config);
    var got := AcquireManifest(o.fetch, o.cacheWrite, disk.cache);
    var entries := got.patches.value.entries;
    var acquiring := [Emit(LoadingConfig), Emit(FetchingManifest(config[PatchesUrlKey]))]
      + (if got.usedCache then [Emit(TryingCache)] else []);
    NoMapRun(disk, o);
    AfterManifestLines(acquiring, entries, o);
  }

  /** The facts about `NoMapTrace`, after manifest lines that neither download, save nor complete. */
  lemma AfterManifestLines(a: seq<TraceItem>, entries: seq<Entry>, o: Oracle)
    requires forall x | x in a :: x.Emit? && !x.signal.Downloading? && x != Emit(AllDone)
    ensures var t := a + NoMapTrace(entries, o);
      && |t| > 0
      && Emit(AllDone) !in t[..|t| - 1]
      && (forall x | x in t :: !x.Saved? && !(x.Emit? && x.signal.Downloading?))
      && (t[|t| - 1] == Emit(AllDone) <==> forall m :: 0 <= m < |entries| ==> o.probe(entries[m].url).None?)
      && (t[|t| - 1] != Emit(AllDone) ==> t[|t| - 1] == Emit(RunFailed(VersionsNotMapping)))
  {
    NoMapTraceEnds(entries, o);
    NoMapTraceCompletes(entries, o);
    NoMapTraceQuiet(entries, o);
    FrontOfConcat(a, NoMapTrace(entries, o));
  }

  /** The run over a version document that is not an object: the manifest lines, then `NoMapTrace`. */
  lemma NoMapRun(disk: Disk, o: Oracle)
    requires disk.versions.VersionNotMapping?
    requires UnpackDirKey in ConfigFrom(disk.config) && o.makeDirOk
    requires var got := AcquireManifest(o.fetch, o.cacheWrite, disk.cache).patches;
      got.Some? && got.value.Mapping?
    ensures var config, got := ConfigFrom(disk.config), AcquireManifest(o.fetch, o.cacheWrite, disk.cache);
      WorkerCycle(disk, o) == WorkerRun(
        [Emit(LoadingConfig), Emit(FetchingManifest(config[PatchesUrlKey]))]
          + (if got.usedCache then [Emit(TryingCache)] else [])
          + NoMapTrace(got.patches.value.entries, o),
        disk.(cache := got.cache), None)
  {
  }

  /**
    Completion: the "all done" signal appears at most once, as the last item,
    and always ends a run whose loop worked on a version map; a run ends with
    it, the manifest error line or the outer error line. When the version
    document is an object, "all done" is emitted exactly when the loop ran.
   */
  lemma CompletionSignal(disk: Disk, o: Oracle)
    ensures var r := WorkerCycle(disk, o);
      && |r.trace| > 0
      && Emit(AllDone) !in r.trace[..|r.trace| - 1]
      && (r.progress.Some? ==> r.trace[|r.trace| - 1] == Emit(AllDone))
      && (!disk.versions.VersionNotMapping? ==> (r.progress.Some? <==> r.trace[|r.trace| - 1] == Emit(AllDone)))
      && (r.trace[|r.trace| - 1] == Emit(AllDone) || r.trace[|r.trace| - 1] == Emit(ManifestUnavailable)
          || (r.trace[|r.trace| - 1].Emit? && r.trace[|r.trace| - 1].signal.RunFailed?))
  {
    var r := WorkerCycle(disk, o);
    var config := ConfigFrom(disk.config);
    var setup := [Emit(LoadingConfig)];
    if UnpackDirKey !in config || !o.makeDirOk {
      LastItem(setup, r.trace[|r.trace| - 1]);
    } else {
      var got := AcquireManifest(o.fetch, o.cacheWrite, disk.cache);
      var acquiring := setup + [Emit(FetchingManifest(config[PatchesUrlKey]))]
        + (if got.usedCache then [Emit(TryingCache)] else []);
      if got.patches.Some? && got.patches.value.Mapping? {
        var entries := got.patches.value.entries;
        if disk.versions.VersionNotMapping? {
          VersionsNotMappingInWorker(disk, o);
        } else {
          var vm0, target := LoadVersionMap(disk.versions).value, config[UnpackDirKey];
          var loop := LoopTrace(entries, vm0, disk.versions, o, target);
          LoopNeverEnds(entries, vm0, disk.versions, o, target);
          assert r.trace == (acquiring + loop) + [Emit(AllDone)];
          LastItem(acquiring + loop, Emit(AllDone));
        }
      } else {
        LastItem(acquiring, r.trace[|r.trace| - 1]);
      }
    }
  }

  /** The items before the last one of `front + [last]` are `front`. */
  lemma LastItem(front: seq<TraceItem>, last: TraceItem)
    ensures (front + [last])[..|front|] == front
    ensures (front + [last])[|front|] == last
  {
  }

  /**
    Without any manifest the worker reports the error and returns: no key is
    checked, no completion is reported and the version file is untouched.
   */
  lemma NoManifestInWorker(disk: Disk, o: Oracle)
    requires UnpackDirKey in ConfigFrom(disk.config) && o.makeDirOk
    requires AcquireManifest(o.fetch, o.cacheWrite, disk.cache).patches.None?
    ensures var r := WorkerCycle(disk, o);
      && r.trace[|r.trace| - 1] == Emit(ManifestUnavailable)
      && r.trace[|r.trace| - 2] == Emit(TryingCache)
      && (forall x | x in r.trace :: !(x.Emit? && (x.signal.Checking? || x.signal == AllDone)))
      && r.progress.None?
      && r.disk.versions == disk.versions
  {
  }

  /**
    `load_config` supplies no "unpack_dir", so the worker stops with the outer
    error right after "loading configuration", touching nothing, whenever the
    configuration file lacks it; in particular whenever it is missing.
   */
  lemma MissingUnpackDir(disk: Disk, o: Oracle)
    requires !disk.config.ConfigObject? || UnpackDirKey !in disk.config.fields
    ensures WorkerCycle(disk, o) == WorkerRun([Emit(LoadingConfig), Emit(RunFailed(MissingSetting(UnpackDirKey)))], disk, None)
  {
    assert UnpackDirKey !in DefaultConfig;
  }

  /**
    Same rule, different target: the worker reaches the loop exactly when the
    headless cycle completes, applies the same per-key rule to the same
    entries from the same stored map, and differs only in extracting into
    "unpack_dir" instead of "data_dir"; when extraction succeeds or fails
    alike in both directories, the two cycles leave the same files and maps.
   */
  lemma SameRuleAsUpdater(disk: Disk, o: Oracle)
    requires UnpackDirKey in ConfigFrom(disk.config)
    ensures var w, u := WorkerCycle(disk, o), Updater.UpdaterCycle(disk, o, None);
      var config := ConfigFrom(disk.config);
      && (w.progress.Some? <==> u.progress.Some?)
      && (u.progress.Some? ==> u.end == Updater.Completed)
      && (w.progress.Some? ==>
            var entries := AcquireManifest(o.fetch, o.cacheWrite, disk.cache).patches.value.entries;
            var vm0 := LoadVersionMap(disk.versions).value;
            && w.progress.value == Sync(entries, vm0, disk.versions, o, config[UnpackDirKey])
            && u.progress.value == Sync(entries, vm0, disk.versions, o, config[DataDirKey])
            && ((forall m :: 0 <= m < |entries| ==>
                  o.extract(entries[m].url, config[UnpackDirKey]) == o.extract(entries[m].url, config[DataDirKey]))
                ==> w.progress == u.progress && w.disk == u.disk))
  {
    var config := ConfigFrom(disk.config);
    var got := AcquireManifest(o.fetch, o.cacheWrite, disk.cache);
    if o.makeDirOk && got.patches.Some? && got.patches.value.Mapping? && LoadVersionMap(disk.versions).Some? {
      var entries := got.patches.value.entries;
      assert entries[..|entries|] == entries;
      if forall m :: 0 <= m < |entries| ==>
          o.extract(entries[m].url, config[UnpackDirKey]) == o.extract(entries[m].url, config[DataDirKey]) {
        TargetOnlyThroughExtraction(entries, LoadVersionMap(disk.versions).value, disk.versions, o, config[UnpackDirKey], config[DataDirKey]);
      }
    }
  }
}
