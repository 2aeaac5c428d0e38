/**
  Configuration loading (`load_config` and `DEFAULT_CONFIG` in updater.py).
  Reading and parsing config.json is abstracted into a `ConfigSource`; the
  merge of missing keys is the loop of the source.
 */
module Config {
  const PatchesUrlKey: string := "patches_url"
  const DataDirKey: string := "data_dir"
  const VersionMapFileKey: string := "version_map_file"

  /** The keys of the default configuration, in the order the source visits them. */
  const DefaultKeys: seq<string> := [PatchesUrlKey, DataDirKey, VersionMapFileKey]

  const DefaultConfig: map<string, string> := map[
    PatchesUrlKey := "http://uo-elantharil.de:8080/patcher/patches.json",
    DataDirKey := "./data",
    VersionMapFileKey := "./versions.json"]

  /** What reading config.json produces. */
  datatype ConfigSource =
    | ConfigMissing                              // the file does not exist
    | ConfigNotJson                              // json.JSONDecodeError
    | ConfigUnreadable                           // any other error while opening or reading
    | ConfigNotObject                            // valid JSON whose top level is not an object
    | ConfigObject(fields: map<string, string>)  // a JSON object

  lemma DefaultKeysAreTheDefaults()
    ensures forall k :: k in DefaultConfig <==> k in DefaultKeys
  {
  }

  /** The configuration `load_config` returns: the file's fields over the defaults. */
  function ConfigFrom(src: ConfigSource): (config: map<string, string>)
    ensures forall k :: k in DefaultConfig ==> k in config
  {
    if src.ConfigObject? then DefaultConfig + src.fields else DefaultConfig
  }

  /**
    `load_config`: a missing, malformed or unreadable file, or one that is not
    an object, yields exactly the defaults; otherwise each default key the file
    lacks is added, and everything the file has is kept.
   */
  method LoadConfig(src: ConfigSource) returns (config: map<string, string>)
    ensures forall k :: k in DefaultConfig ==> k in config
    ensures !src.ConfigObject? ==> config == DefaultConfig
    ensures src.ConfigObject? ==> config.Keys == src.fields.Keys + DefaultConfig.Keys
    ensures src.ConfigObject? ==> forall k :: k in src.fields ==> config[k] == src.fields[k]
    ensures src.ConfigObject? ==>
      forall k :: k in DefaultConfig && k !in src.fields ==> config[k] == DefaultConfig[k]
    ensures config == ConfigFrom(src)
  {
    if !src.ConfigObject? {
      return DefaultConfig;
    }
    config := src.fields;
    DefaultKeysAreTheDefaults();
    var i := 0;
    while i < |DefaultKeys|
      invariant 0 <= i <= |DefaultKeys|
      invariant config.Keys == src.fields.Keys + set j | 0 <= j < i :: DefaultKeys[j]
      invariant forall k :: k in src.fields ==> config[k] == src.fields[k]
      invariant forall k :: k in config && k !in src.fields ==> config[k] == DefaultConfig[k]
    {
      var key := DefaultKeys[i];
      if key !in config {
        config := config[key := DefaultConfig[key]];
      }
      i := i + 1;
    }
    assert (set j | 0 <= j < |DefaultKeys| :: DefaultKeys[j]) == DefaultConfig.Keys;
  }
}
