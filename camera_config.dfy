/** The camera service's configuration: the built-in defaults, the shallow
    merge `load_config` performs with a configuration file, and the
    `cfg.get(section, {}).get(key, default)` lookups the main loop makes. */
module CameraConfig {
  import opened Wrappers

  /** A value inside a configuration section. */
  datatype Scalar =
    | Int(i: int)
    | Str(s: string)
    | Bool(b: bool)
    | Strs(items: seq<string>)
    | Null

  /** A top-level section such as `upload` or `thresholds`. */
  type Section = map<string, Scalar>

  /** A loaded configuration: section name to section. */
  type Config = map<string, Section>

  const DefaultConfig: Config := map[
    "upload" := map["method" := Str("rsync"), "host" := Str("192.168.1.203"), "port" := Int(22)],
    "camera" := map["hub_location" := Str("1-1"), "port_number" := Int(1), "mount_base" := Str("/mnt/cam")],
    "paths" := map["local_staging" := Str("/var/lib/camera_service/staging"),
                   "log_path" := Str("/var/log/camera_service.log")],
    "thresholds" := map["disconnect_percent" := Int(50), "shutdown_percent" := Int(25)],
    "poll" := map["interval_seconds" := Int(30), "mount_timeout_seconds" := Int(20), "upload_retries" := Int(3)]
  ]

  /** `{**DEFAULT_CONFIG, **cfg}`: every section the file names replaces the
      default section of that name as a whole; the others stay. */
  function Merge(file: Config): (c: Config)
    ensures c.Keys == DefaultConfig.Keys + file.Keys
    ensures forall k :: k in file ==> c[k] == file[k]
    ensures forall k :: k in DefaultConfig && k !in file ==> c[k] == DefaultConfig[k]
  {
    DefaultConfig + file
  }

  /** What `yaml.safe_load` gave: a document (`None` for an empty or null
      one), or an exception (no PyYAML, unreadable file, parse error). */
  datatype YamlRead = YamlDoc(doc: Option<Config>) | YamlFailed

  /** What the JSON fallback `json.load` gave. */
  datatype JsonRead = JsonDoc(doc: Config) | JsonFailed

  /** `load_config`: no path gives the defaults; a YAML document that is
      empty (or an empty mapping) gives the defaults; any other YAML
      document is merged; when YAML fails the same file is read as JSON and
      merged, and when that fails too the defaults are used. */
  function LoadConfig(path: string, yaml: YamlRead, json: JsonRead): Config {
    if path == "" then DefaultConfig
    else
      match yaml
      case YamlDoc(doc) =>
        if doc.None? || doc.value == map[] then DefaultConfig else Merge(doc.value)
      case YamlFailed =>
        match json
        case JsonDoc(doc) => Merge(doc)
        case JsonFailed => DefaultConfig
  }

  /** The cases in which the defaults are returned unchanged. */
  lemma LoadConfigFallsBack(path: string, yaml: YamlRead, json: JsonRead)
    ensures path == "" ==> LoadConfig(path, yaml, json) == DefaultConfig
    ensures yaml == YamlDoc(None) || yaml == YamlDoc(Some(map[])) ==> LoadConfig(path, yaml, json) == DefaultConfig
    ensures yaml.YamlFailed? && json.JsonFailed? ==> LoadConfig(path, yaml, json) == DefaultConfig
  {
  }

  /** Otherwise the file that was read is merged over the defaults: YAML
      first, JSON only when YAML failed. */
  lemma LoadConfigMergesFile(path: string, yaml: YamlRead, json: JsonRead)
    ensures path != "" && yaml.YamlDoc? && yaml.doc.Some? ==> LoadConfig(path, yaml, json) == Merge(yaml.doc.value)
    ensures path != "" && yaml.YamlFailed? && json.JsonDoc? ==> LoadConfig(path, yaml, json) == Merge(json.doc)
    ensures LoadConfig(path, yaml, json).Keys >= DefaultConfig.Keys
  {
  }

  /** `cfg.get(section, {}).get(key, default)`. */
  function Lookup(c: Config, section: string, key: string, default: Scalar): (v: Scalar)
    ensures section !in c || key !in c[section] ==> v == default
    ensures section in c && key in c[section] ==> v == c[section][key]
  {
    if section in c && key in c[section] then c[section][key] else default
  }

  /** A lookup that is absent or not an integer reads as the default. */
  function IntSetting(c: Config, section: string, key: string, default: int): (n: int)
    ensures Lookup(c, section, key, Int(default)).Int? ==> n == Lookup(c, section, key, Int(default)).i
  {
    match Lookup(c, section, key, Int(default))
    case Int(i) => i
    case _ => default
  }

  /** A lookup that is a string, or `None` for an absent key and any other
      kind of value. */
  function StrSetting(c: Config, section: string, key: string): (s: Option<string>)
    ensures s.Some? <==> section in c && key in c[section] && c[section][key].Str?
    ensures s.Some? ==> s.value == c[section][key].s
  {
    match Lookup(c, section, key, Null)
    case Str(s) => Some(s)
    case _ => None
  }

  /** Because the merge is shallow, a file that names a section without one
      of its keys loses that key's default: the later lookup falls back to
      the default written at the call site, not to the default section. */
  lemma ShallowMergeDropsSectionDefaults(path: string, host: string)
    requires path != ""
    ensures var c := LoadConfig(path, YamlDoc(Some(map["upload" := map["host" := Str(host)]])), JsonFailed);
      && c["upload"] == map["host" := Str(host)]
      && "port" !in c["upload"]
      && Lookup(c, "upload", "port", Int(2222)) == Int(2222)
      && c["poll"] == DefaultConfig["poll"]
  {
    var file: Config := map["upload" := map["host" := Str(host)]];
    assert LoadConfig(path, YamlDoc(Some(file)), JsonFailed) == Merge(file) by {
      assert file != map[] by { assert "upload" in file; }
    }
  }
}
