# ElaUpdater patch synchronisation, modelled in Dafny

ElaUpdater keeps a game client's data files current. It runs one cycle per invocation:
1. Read `config.json`, merged over built-in defaults.
2. Read the version map: for each file key, the timestamp of the archive last installed.
3. Fetch the patch manifest, which maps each file key to the URL of a 7z archive. When the fetch fails, fall back to the cached copy `patches_local.json`.
4. Walk the manifest in order, probing each archive's remote timestamp.
5. For each key whose remote timestamp is strictly newer than the stored one (0 when absent), download the archive into the data directory and extract it. Only when both succeed, set the key to the remote timestamp and save the whole map.

The cycle exists twice:
- headless, as `check_and_update_files` in `updater.py`;
- in the launcher's background thread, as `UpdateWorker.run` in `app.py`, which reports each step as a status line and extracts into `unpack_dir` instead of `data_dir`.

The model has these modules:
- `Config`: `load_config` and its merge loop.
- `Storage`: the version-map file.
- `ManifestSource`: the live fetch, its validation and cache write, the cached copy, and the fallback between them.
- `Staging`: the staging file name `url.split("/")[-1]`.
- `PatchSync`: the per-key rule.
  - Every network and filesystem answer is an `Oracle` input. Probe and download results are keyed by URL, extraction by URL and target directory, and version-map saves by file key.
  - The function `Sync` is the specification of the loop.
  - The lemmas prove the commit rule, isolation, monotonicity and idempotence.
- `Updater`: `check_and_update_files` and the exit status of `__main__`. The loop is an imperative method proved equal to `Sync`.
- `Worker`: `UpdateWorker.run`. Its output is one ordered trace that interleaves the emitted status lines with the version-map saves.
- `Scenarios`: small cycles worked by hand: a fresh key, an equal timestamp, and a missing timestamp followed by another key.

Timestamps are whole epoch seconds.

The model follows the code, including these behaviours:
- A fetched manifest is accepted when it is a non-empty JSON object. The values are not checked to be strings.
- The cached manifest is not validated when it is read. A cached JSON array reaches `patches.items()` and raises: the headless cycle exits 1 (`Crashed(NotAMapping)`), and the worker emits its outer error line.
- The cache is rewritten in place. A write that fails after truncating leaves the cache unusable, and the same cycle's fallback then finds no manifest.
- The version map is also rewritten in place, not written to a new file and then swapped in. A save that fails after truncating reads back as an empty map on the next cycle.
- The staging file is never deleted.
- An archive URL whose last segment is empty or `.` gives a staging path that is the data directory itself, and `..` gives its parent. Either way the path is a directory, so opening it for writing fails and the download fails.
- A version file that parses as JSON but is not an object (an array, a number) is loaded as is. The headless cycle then fails every key that has a timestamp inside its per-key handler: nothing is installed, the file is untouched, and the exit status is 0. The worker stops at the first key with a timestamp with its outer error line.
- The worker reads `unpack_dir`, which has no default. It therefore stops with its outer error line whenever `config.json` lacks that key, including when the file is missing.
- A KeyboardInterrupt ends the headless cycle with exit status 0.

## Model

| member | source | states |
|---|---|---|
| Config.DefaultKeysAreTheDefaults | updater.py:14-18 | the keys the merge loop walks are exactly the keys of the default configuration |
| Config.ConfigFrom | updater.py:20-41 | the merged configuration always holds every default key |
| Config.LoadConfig | updater.py:20-41 | a missing, unreadable, non-JSON or non-object file yields exactly the defaults; otherwise every loaded key keeps its value, every absent default key gets its default, the key set is the loaded keys plus the default keys, and the result equals `ConfigFrom` |
| Storage.LoadVersionMap | updater.py:88-97 | a stored map is read back as is; a missing or unreadable file reads as the empty map; a JSON document that is not an object gives no map, and it is the only case that does |
| Storage.SaveVersionMap | updater.py:99-105 | a completed write reads back as the saved map; a write that fails on opening leaves the file unchanged; one that fails after truncating reads back as empty |
| ManifestSource.LoadLocalPatches | updater.py:70-86 | a cached document other than JSON null is returned unvalidated; a missing or corrupt cache gives none |
| ManifestSource.DownloadPatches | updater.py:43-68 | the payload is returned iff it was fetched, is a non-empty mapping and the cache write completed; a returned payload reads back from the new cache; an invalid payload or a failed fetch leaves the cache untouched; a write failing on open leaves it unchanged, one failing after truncation leaves a cache that reads as nothing |
| ManifestSource.AcquireManifest | updater.py:152-162 | the cache is consulted iff the live fetch gave nothing; a live result is used and cached; with an invalid fetch the outcome is whatever the untouched cache yields; a valid payload whose cache write fails on opening falls back to the old cache, left as it was; a truncated cache write leaves no manifest; the cache afterwards is always the one the live attempt left, and a manifest taken from the cache is the one read from that file |
| ManifestSource.AcquireStable | updater.py:152-162 | acquiring again with the same answers from the cache a successful acquisition left gives the same manifest and cache |
| Staging.Split | updater.py:178 | Python's `str.split` on one character: at least one part, no part contains the separator, and joining the parts restores the string |
| Staging.FileName | updater.py:178 | the staging name is the last `/`-segment of the URL: it has no `/`, it is a suffix of the URL, and it is preceded by `/` unless it is the whole URL |
| Staging.LastSegmentUnique | updater.py:178 | that description determines the name uniquely |
| Staging.NamesDirectory | updater.py:179 | the staging names for which `data_dir / name` is a directory (no contract; used by `Outcome`) |
| Staging.FileNameEdges | updater.py:178 | a URL without `/` is its own file name; a URL ending in `/` gives the empty name |
| PatchSync.Stored | updater.py:174 | `version_map.get(key, 0)`: the stored value, 0 when absent (no contract; its properties are stated by `Outcome` and `Monotone`) |
| PatchSync.Outcome | updater.py:169-197 | a key is skipped iff the probe gives nothing; a download is attempted iff the remote timestamp is strictly greater than the stored one (0 when absent); it is installed iff it was attempted and the download and the extraction into the target both succeed; the staging name is `FileName(url)` |
| PatchSync.Step | updater.py:169-191 | one iteration: on success the key is set and the whole map saved at once (no contract; stated by `OutcomeAt`, `SavedRightAfterCommit` and `ChangedIffInstalled`) |
| PatchSync.Sync | updater.py:165-201 | the loop records exactly one outcome per manifest entry |
| PatchSync.NothingInstalled | updater.py:165-201 | when no entry is installed, the map, the version file and the log of saves are all as they were |
| PatchSync.SyncPrefix | updater.py:165-201 | the loop over a prefix of the manifest gives a prefix of the outcomes and of the saves |
| PatchSync.Untouched | updater.py:165-201 | a key not among the entries processed after a point keeps the value it had at that point |
| PatchSync.OutcomeIsolated | updater.py:165-201 | with distinct keys, each entry's outcome is decided against the initial map, whatever happened to the other entries |
| PatchSync.Committed | updater.py:174-191 | the value an entry commits, if any (no contract; stated by `FinalValue`) |
| PatchSync.FinalValue | updater.py:174-191 | a manifest key ends at the remote timestamp if it was installed, and at its initial value in every other case |
| PatchSync.OutsideManifest | updater.py:165-201 | a key not in the manifest is never changed |
| PatchSync.ChangedIffInstalled | updater.py:189-190 | a key's value changes exactly when it is installed |
| PatchSync.Monotone | updater.py:176 | no stored key disappears, no stored value (0 when absent) decreases, and any value that changed is strictly greater than the one stored before |
| PatchSync.SavedRightAfterCommit | updater.py:189-191 | after each installed entry the log of saves ends with the whole updated map, which holds the entry's remote timestamp |
| PatchSync.PersistedMatchesMemory | updater.py:99-105 | when every save completes, the version file read back equals the in-memory map |
| PatchSync.SecondPassAt | updater.py:174-176 | in a second pass from the first pass's map and version file, with any download, extraction and save answers but the same timestamps, entry `j` is attempted exactly when its download or extraction failed in the first pass, and an entry that did not fail keeps its value |
| PatchSync.Idempotent | updater.py:174-176 | for every entry of such a second pass: it is retried exactly when it failed in the first pass, and the map changes only at retried keys; when no entry failed, the second pass saves nothing and leaves the map and the version file as the first pass left them |
| PatchSync.CleanSecondPass | updater.py:174-176 | a second pass after a first pass without failures installs nothing and saves nothing, so the map and the version file stay as the first pass left them |
| PatchSync.TargetOnlyThroughExtraction | app.py:74 | the target directory matters only through the extraction outcome |
| Updater.UpdaterCycle | updater.py:137-201 | the specification of one headless cycle (no contract; `CheckAndUpdateFiles` is proved equal to it and the `Updater` lemmas state its properties) |
| Updater.ExitStatus | updater.py:203-211 | the exit status of `__main__`: 0 after completion or an interrupt, 1 otherwise (no contract; stated by `HeadlessExitStatus`) |
| Updater.CheckAndUpdateFiles | updater.py:137-211 | the imperative cycle equals `UpdaterCycle`: a failed data-dir creation crashes; no manifest ends the cycle; a non-mapping manifest crashes; a version document that is not an object runs the loop without installing; otherwise the loop over the entries, up to an interrupt, extracts into `data_dir` |
| Updater.ProcessPatches | updater.py:165-201 | the loop that updates the map in place and saves after each success computes exactly `Sync` |
| Updater.HeadlessExitStatus | updater.py:155-162 | the exit status is non-zero exactly when directory creation failed, no manifest was available, or the manifest is not a mapping |
| Updater.NoManifestTouchesNothing | updater.py:155-162 | without a manifest no key is processed and the version file is untouched; when the live fetch failed, no file at all changes |
| Updater.NoLiveNoCacheIsFatal | updater.py:155-162 | a failed fetch with no usable cache ends fatally, with exit status 1 and every file as it was |
| Updater.CachedManifestUsed | updater.py:155-158 | a failed fetch with a cached mapping completes and leaves the cache as it was; when the version file holds a map, the loop runs over the cached entries |
| Updater.VersionsNotMappingHeadless | updater.py:165-201 | with a version document that is not an object the cycle installs nothing and leaves the version file untouched; with a manifest mapping it completes or is interrupted, with exit status 0 |
| Updater.InterruptedIsPrefix | updater.py:203-208 | an interrupt before key `i` reaches the loop exactly when the uninterrupted cycle does, and then processes exactly its first `i` keys and saves a prefix of its saves |
| Updater.CycleIdempotent | updater.py:137-201 | when the first cycle completes with every save written, a second cycle from the files it left, with the same manifest answers and timestamps but any download and extraction answers, completes as well and reaches the commit loop exactly when the first did; a cycle that did not reach it leaves every file as it was; in one that did, the second cycle retries exactly the keys that failed the first time, and when none failed, every file and the map stay as the first cycle left them |
| Worker.WorkerCycle | app.py:24-87 | the specification of one worker run (no contract; `Run` is proved equal to it and the `Worker` lemmas state its properties) |
| Worker.KeyTrace | app.py:56-83 | one entry's items: "Checking" and then `Report` (no contract; stated by `BlockOfKey`) |
| Worker.Report | app.py:56-83 | the items for one outcome path (no contract; stated by `ReportFacts` and `BlockOfKey`) |
| Worker.LoopTrace | app.py:55-83 | the per-key blocks in manifest order (no contract; stated by `LoopTracePrefix`, `BlockOfKey` and `NextKeyFollows`) |
| Worker.NoMapTrace | app.py:55-87 | the loop over a version document that is not an object (no contract; stated by `NoMapTraceEnds`, `NoMapTraceCompletes` and `NoMapTraceQuiet`) |
| Worker.Run | app.py:24-87 | the worker equals `WorkerCycle`: a missing `unpack_dir` or a failed mkdir gives the outer error line; then the manifest lines; no manifest gives the error line and returns; a version document that is not an object gives `NoMapTrace`; then one block per entry and the completion line |
| Worker.ProcessPatches | app.py:55-83 | the reporting loop gives exactly the per-key trace `LoopTrace` and the progress `Sync` over `unpack_dir` |
| Worker.CheckKey | app.py:56-83 | one iteration takes exactly the step `Step` and reports "Checking" followed by the block for its outcome |
| Worker.InstallKey | app.py:65-81 | a stale key's download, extraction, map update and save take exactly the step `Step` and report the block for its outcome |
| Worker.ReportWithoutMap | app.py:55-87 | the loop over a version document that is not an object gives exactly `NoMapTrace` |
| Worker.NoMapTraceEnds | app.py:55-87 | that trace is never empty and has no completion line before its last item |
| Worker.NoMapTraceCompletes | app.py:55-87 | it ends with the completion line exactly when no entry has a timestamp, and otherwise with the outer error line |
| Worker.NoMapTraceQuiet | app.py:55-63 | it has no download and no save |
| Worker.VersionsNotMappingInWorker | app.py:35-87 | with a version document that is not an object and a mapping manifest, the run never reaches the commit loop, leaves the version file untouched, downloads and saves nothing, and ends with the completion line exactly when no entry has a timestamp, otherwise with the outer error line |
| Worker.LoopTracePrefix | app.py:55-83 | the trace of a prefix of the manifest is a prefix of the trace |
| Worker.LoopNeverEnds | app.py:55-83 | no per-key block contains the completion line or the outer error line |
| Worker.BlockOfKey | app.py:56-83 | entry `j`'s block follows the blocks of the entries before it and starts with "Checking"; with distinct keys, it reports a download iff the remote timestamp beat the stored one, reports "version updated" iff the key's value changed, and a block with an error leaves the key's value unchanged |
| Worker.SavedBeforeNextKey | app.py:77-79 | after a successful key the trace so far ends with the save of the whole updated map, which holds the remote timestamp, and then "version updated" |
| Worker.NextKeyFollows | app.py:55-56 | right after the blocks of the first `j` entries comes "Checking" for entry `j` |
| Worker.CompletionSignal | app.py:85-87 | the trace is never empty and has no completion line before its last item; a run that reaches the commit loop ends with it, and, unless the version file holds valid JSON that is not an object, only such runs do; any other run ends with the manifest error line or the outer error line |
| Worker.NoManifestInWorker | app.py:45-52 | without a manifest the trace ends with trying the cache and then the error line; no key is checked, there is no completion line, and the version file is untouched |
| Worker.MissingUnpackDir | app.py:28-30 | a configuration without `unpack_dir`, including a missing file, gives exactly the "loading" line then the outer error line, and changes nothing |
| Worker.SameRuleAsUpdater | app.py:63-78 | the worker reaches its commit loop exactly when the headless cycle does, and then the headless cycle completes; both run `Sync` over the same entries and map, one into `unpack_dir`, the other into `data_dir`; if extraction fares the same in both directories, they leave the same files |
| Scenarios.FreshKeyInstalled | updater.py:174-191 | manifest `a -> http://x/a.7z`, empty map, remote 1000, download and extraction succeed: `a.7z` is installed, the map becomes `{a: 1000}` and is saved once |
| Scenarios.EqualTimestampIsCurrent | updater.py:176 | stored 1000 and remote 1000: no download, nothing saved, map and file unchanged |
| Scenarios.MissingTimestampSkipped | updater.py:169-172 | the first key has no timestamp and is skipped with its value kept; the second key is still decided on its own |

## Left out

- HTTP transport (`requests.get` and `requests.head`, status codes, timeouts, streaming) is not modelled. Probe, download and fetch results are oracle inputs.
- Last-Modified parsing is not modelled. The source turns the HTTP-date of section 5.6.7 of RFC 9110 into a float with `parsedate_to_datetime(...).timestamp()`. The model takes whole epoch seconds from the oracle.
- 7z extraction with `py7zr` is a foreign library. It is a success/failure oracle per archive and target directory.
- JSON encoding, file reads and writes, and `mkdir` are abstract outcomes. Documents are already parsed: a manifest is a list of key/URL pairs, whose keys are distinct when it comes from a JSON object.
- Console output (`print`) is not modelled. The worker's emitted status lines are modelled as typed signals, without their text.
- Qt and the launcher are not modelled: the window, `resource_path`, `launch_client` and the `QThread`/`Signal` machinery. The worker's signals are an ordered trace.
- A KeyboardInterrupt in the headless cycle is modelled only between keys. An interrupt in the middle of a download or a save is not.
- Config.LoadConfig: non-string values are not modelled. A loaded JSON array or string that happens to contain all three default keys passes the merge loop unchanged in the source; the cycle then fails at `config["data_dir"]`, so the headless cycle exits 1 (updater.py:141, caught at updater.py:209-211) and the worker emits its outer error line (app.py:29, app.py:86-87). The model treats every non-object configuration as giving the defaults and runs a full cycle with them.
- Non-string manifest URLs and non-integer values inside a version object are not modelled. A manifest value that is not a string cannot be probed: `get_remote_timestamp` catches the error and returns None (updater.py:117-122), so the key is skipped like one without a timestamp; in the model that is a URL whose probe gives None.
- Updater.VersionsNotMappingHeadless: the per-key error messages the headless cycle prints for a version document that is not an object are console output; the model records only the ending and the untouched files.
- The staging file in the data directory is never cleaned up by the source, so the model has no cleanup.
- Concurrent cycles and file locking are not modelled; one cycle runs at a time.
