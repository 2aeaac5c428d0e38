/**
  Small cycles worked through by hand: a fresh key with a newer archive, a key
  whose remote timestamp equals the stored one, and a key without a timestamp
  followed by another key. The cached fallback and the fatal case without any
  manifest are `Updater.CachedManifestUsed` and `Updater.NoLiveNoCacheIsFatal`.
 */
module Scenarios {
  import opened Wrappers
  import opened Storage
  import opened ManifestSource
  import opened Staging
  import opened PatchSync

  const ArchiveA: string := "http://x/a.7z"

  /** A fresh key with a newer remote archive is downloaded, extracted and stored. */
  lemma FreshKeyInstalled(o: Oracle, versions0: VersionFile, target: string)
    requires o.probe(ArchiveA) == Some(1000)
    requires o.download(ArchiveA) && o.extract(ArchiveA, target)
    ensures var p := Sync([Entry("a", ArchiveA)], map[], versions0, o, target);
      && p.outcomes == [Installed("a.7z", 1000)]
      && p.vm == map["a" := 1000]
      && p.saves == [map["a" := 1000]]
  {
    var e := Entry("a", ArchiveA);
    ArchiveAName();
    assert !NamesDirectory("a.7z");
    assert Outcome(map[], e, o, target) == Installed("a.7z", 1000);
    assert [e][..0] == [];
  }

  /** The staging file of the example archive. */
  lemma ArchiveAName()
    ensures FileName(ArchiveA) == "a.7z"
  {
    assert IsLastSegment(ArchiveA, "a.7z") by {
      assert ArchiveA == "http://x" + "/" + "a.7z";
    }
    LastSegmentUnique(ArchiveA, FileName(ArchiveA), "a.7z");
  }

  /** A key whose remote timestamp equals the stored one is left alone. */
  lemma EqualTimestampIsCurrent(o: Oracle, versions0: VersionFile, target: string)
    requires o.probe(ArchiveA) == Some(1000)
    ensures var p := Sync([Entry("a", ArchiveA)], map["a" := 1000], versions0, o, target);
      && p.outcomes == [Current(1000)]
      && p.vm == map["a" := 1000]
      && p.versions == versions0
      && p.saves == []
  {
    var entries := [Entry("a", ArchiveA)];
    assert entries[..0] == [];
  }

  /** A key without a timestamp is skipped, and the next key is still decided on its own. */
  lemma MissingTimestampSkipped(a: Entry, b: Entry, vm0: VersionMap, versions0: VersionFile, o: Oracle, target: string)
    requires a.key != b.key && o.probe(a.url).None?
    ensures var p := Sync([a, b], vm0, versions0, o, target);
      && p.outcomes == [NoTimestamp, Outcome(vm0, b, o, target)]
      && Lookup(p.vm, a.key) == Lookup(vm0, a.key)
      && Lookup(p.vm, b.key) == Committed(vm0, b, o, target)
  {
    var entries := [a, b];
    assert DistinctKeys(entries);
    OutcomeIsolated(entries, vm0, versions0, o, target, 0);
    OutcomeIsolated(entries, vm0, versions0, o, target, 1);
    FinalValue(entries, vm0, versions0, o, target, 0);
    FinalValue(entries, vm0, versions0, o, target, 1);
  }
}
