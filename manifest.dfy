/**
  Manifest acquisition (`download_patches`, `load_local_patches` and the
  fallback between them in updater.py and app.py). The HTTP request and JSON
  parsing are abstracted into a `FetchOutcome`; the cache file
  patches_local.json into a `CacheFile`.
 */
module ManifestSource {
  import opened Wrappers
  import opened Storage

  /** One manifest entry: a file key and the URL of its archive. */
  datatype Entry = Entry(key: string, url: string)

  /** JSON objects have one value per key. */
  predicate DistinctKeys(entries: seq<Entry>) {
    forall i, j :: 0 <= i < j < |entries| ==> entries[i].key != entries[j].key
  }

  /** A parsed JSON document, as far as the manifest logic distinguishes it. */
  datatype Doc =
    | Mapping(entries: seq<Entry>)   // an object, in its key order
    | Null                           // JSON null, which Python reads as None
    | NotMapping                     // an array, string, number or boolean

  /** A JSON parser never yields an object with a repeated key. */
  predicate Parsed(d: Doc) {
    d.Mapping? ==> DistinctKeys(d.entries)
  }

  /** The live request for the manifest URL. */
  datatype FetchOutcome =
    | FetchFailed      // connection error, timeout, non-2xx status or a body that is not JSON
    | Fetched(doc: Doc)

  /** The cache file patches_local.json, as `load_local_patches` sees it. */
  datatype CacheFile =
    | NoCache
    | CacheCorrupt     // unreadable or not valid JSON
    | CacheHolds(doc: Doc)

  /** `download_patches` accepts only a non-empty object. */
  predicate ValidPayload(doc: Doc) {
    doc.Mapping? && |doc.entries| > 0
  }

  /** What `download_patches` returns, and the cache file afterwards. */
  datatype Download = Download(patches: Option<Doc>, cache: CacheFile)

  /**
    `load_local_patches`: whatever valid JSON the cache holds, without any
    validation, except that a JSON null reads as None.
   */
  function LoadLocalPatches(cache: CacheFile): (r: Option<Doc>)
    ensures r.Some? ==> cache == CacheHolds(r.value) && !r.value.Null?
    ensures cache.CacheHolds? && !cache.doc.Null? ==> r == Some(cache.doc)
  {
    match cache
    case CacheHolds(doc) => if doc.Null? then None else Some(doc)
    case _ => None
  }

  /**
    `download_patches`: the payload is returned, and written to the cache, only
    when it is a non-empty object and the cache write succeeds; the check comes
    before the write, so an invalid payload leaves the cache as it was, and a
    write that fails after truncating the cache destroys it.
   */
  function DownloadPatches(fetch: FetchOutcome, write: WriteOutcome, cache: CacheFile): (r: Download)
    ensures r.patches.Some? <==> fetch.Fetched? && ValidPayload(fetch.doc) && write == Written
    ensures r.patches.Some? ==> r.patches.value == fetch.doc && LoadLocalPatches(r.cache) == r.patches
    ensures !(fetch.Fetched? && ValidPayload(fetch.doc)) ==> r.cache == cache
    ensures fetch.Fetched? && ValidPayload(fetch.doc) && write == OpenFailed ==> r.cache == cache
    ensures fetch.Fetched? && ValidPayload(fetch.doc) && write == FailedAfterTruncate ==>
      LoadLocalPatches(r.cache) == None
  {
    if fetch.FetchFailed? || !ValidPayload(fetch.doc) then Download(None, cache)
    else
      match write
      case Written => Download(Some(fetch.doc), CacheHolds(fetch.doc))
      case OpenFailed => Download(None, cache)
      case FailedAfterTruncate => Download(None, CacheCorrupt)
  }

  /** The manifest a cycle works on, and whether the cache had to be consulted. */
  datatype Acquisition = Acquisition(patches: Option<Doc>, cache: CacheFile, usedCache: bool)

  /**
    The live manifest if `download_patches` returns one, otherwise whatever
    `load_local_patches` reads from the cache as it is after the attempt.
   */
  function AcquireManifest(fetch: FetchOutcome, write: WriteOutcome, cache: CacheFile): (r: Acquisition)
    ensures r.usedCache <==> !(fetch.Fetched? && ValidPayload(fetch.doc) && write == Written)
    ensures !r.usedCache ==> r.patches == Some(fetch.doc) && r.cache == CacheHolds(fetch.doc)
    ensures !(fetch.Fetched? && ValidPayload(fetch.doc)) ==>
      r.cache == cache && r.patches == LoadLocalPatches(cache)
    ensures fetch.Fetched? && ValidPayload(fetch.doc) && write == OpenFailed ==>
      r.cache == cache && r.patches == LoadLocalPatches(cache)
    ensures fetch.Fetched? && ValidPayload(fetch.doc) && write == FailedAfterTruncate ==> r.patches == None
    ensures r.cache == DownloadPatches(fetch, write, cache).cache
    ensures r.usedCache ==> r.patches == LoadLocalPatches(r.cache)
    ensures r.patches.Some? ==> !r.patches.value.Null?
  {
    var live := DownloadPatches(fetch, write, cache);
    if live.patches.Some? then Acquisition(live.patches, live.cache, false)
    else Acquisition(LoadLocalPatches(live.cache), live.cache, true)
  }

  /**
    Acquiring again from the cache a successful acquisition left behind, with
    the same fetch and write outcomes, gives the same manifest and cache.
   */
  lemma AcquireStable(fetch: FetchOutcome, write: WriteOutcome, cache: CacheFile)
    requires AcquireManifest(fetch, write, cache).patches.Some?
    ensures var a := AcquireManifest(fetch, write, cache);
      AcquireManifest(fetch, write, a.cache) == a
  {
  }
}
