/**
  The version store (`load_version_map` and `save_version_map` in
  updater.py): the file that records, per file key, the remote timestamp
  last applied.
 */
module Storage {
  import opened Wrappers

  /** File key to epoch seconds. */
  type VersionMap = map<string, int>

  /** How an attempt to rewrite a file with `open(path, "w")` and `json.dump` ends. */
  datatype WriteOutcome =
    | Written               // the whole document was written
    | OpenFailed            // opening for writing failed: the old file is untouched
    | FailedAfterTruncate   // opened (and so truncated), then writing failed: the file is left invalid

  /** What the version file holds, as `load_version_map` sees it. */
  datatype VersionFile =
    | NoVersionFile
    | VersionCorrupt                 // unreadable or not valid JSON
    | VersionNotMapping              // valid JSON that is not an object: an array, null, a string or a number
    | VersionHolds(versions: VersionMap)

  /**
    `load_version_map` never raises: a missing or unreadable file yields the
    empty map, and any valid JSON is returned as it is. `None` stands for a
    returned document that is not an object, which has no `.get` for the
    loops to call.
   */
  function LoadVersionMap(f: VersionFile): (vm: Option<VersionMap>)
    ensures f.VersionHolds? ==> vm == Some(f.versions)
    ensures f.NoVersionFile? || f.VersionCorrupt? ==> vm == Some(map[])
    ensures vm.None? <==> f.VersionNotMapping?
  {
    match f
    case VersionHolds(versions) => Some(versions)
    case VersionNotMapping => None
    case _ => Some(map[])
  }

  /**
    `save_version_map` writes the whole map and swallows any error. A write
    that succeeds reads back as the map that was saved; one that fails to open
    leaves the previous file; one that fails after truncating loses every
    stored timestamp.
   */
  function SaveVersionMap(vm: VersionMap, f: VersionFile, w: WriteOutcome): (f': VersionFile)
    ensures w == Written ==> LoadVersionMap(f') == Some(vm)
    ensures w == OpenFailed ==> f' == f
    ensures w == FailedAfterTruncate ==> LoadVersionMap(f') == Some(map[])
  {
    match w
    case Written => VersionHolds(vm)
    case OpenFailed => f
    case FailedAfterTruncate => VersionCorrupt
  }
}
