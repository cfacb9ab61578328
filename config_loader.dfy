/**
 * The configuration loader of the Weibo crawler (config_loader.py): a
 * JSON configuration held in memory, read from a file at start-up with a
 * built-in default when the file is missing or cannot be read, section
 * getters with defaults, and a shallow update that is written back.
 *
 * The file is modelled by its state: missing, unreadable (an I/O or JSON
 * error), or holding a parsed JSON value, which need not be an object.
 * Whether a write succeeds is a parameter.
 */
module ConfigLoader {
  import opened Base

  /** A JSON value as `json.load` returns it. */
  datatype Json = Null | Bool(b: bool) | Int(i: int) | Real(r: real) | Str(s: string)
                | Array(items: seq<Json>) | Object(fields: map<string, Json>)

  /** The configuration file, as far as `load_config` can tell: missing, unreadable, or holding one JSON value. */
  datatype ConfigFile = Missing | Unreadable | Parsed(doc: Json)

  const CookieKey := "cookie"
  /** The keys the section getters look up, in the order the getters are declared. */
  const SectionKeys: seq<string> := ["user_crawl", "topic_crawl", "proxy", "crawler_settings", "data_analysis", "output"]

  /** `get_default_config()`. */
  function DefaultConfig(): map<string, Json> {
    map[
      "cookie" := Str(""),
      "user_crawl" := Object(map[
        "enabled" := Bool(true), "user_ids" := Array([Str("1669879400")]),
        "weibo_count" := Int(20), "comment_count" := Int(30), "include_replies" := Bool(true)]),
      "topic_crawl" := Object(map[
        "enabled" := Bool(true), "topics" := Array([Str("热门话题")]),
        "weibo_count" := Int(20), "comment_count" := Int(30), "include_replies" := Bool(true)]),
      "proxy" := Object(map["enabled" := Bool(false), "proxy_list" := Array([])]),
      "crawler_settings" := Object(map[
        "max_concurrency" := Int(5), "delay_min" := Real(0.5), "delay_max" := Real(1.5),
        "retry_times" := Int(3), "timeout" := Int(10)]),
      "data_analysis" := Object(map[
        "sentiment_analysis" := Bool(true), "keyword_extraction" := Bool(true), "word_cloud" := Bool(true),
        "interaction_analysis" := Bool(true), "time_distribution" := Bool(true)]),
      "output" := Object(map[
        "json" := Bool(true), "csv" := Bool(true), "charts" := Bool(true), "data_dir" := Str("weibo_data")])
    ]
  }

  /**
   * `load_config()`: whatever JSON value the file holds (not necessarily
   * an object), or the default for a missing or unreadable file.
   */
  function LoadConfig(file: ConfigFile): (c: Json)
    ensures file.Parsed? ==> c == file.doc
    ensures !file.Parsed? ==> c == Object(DefaultConfig())
  {
    if file.Parsed? then file.doc else Object(DefaultConfig())
  }

  class ConfigLoader {
    const configFile: string
    /** `self.config`: a dict when the file held an object, any other JSON value otherwise. */
    var config: Json
    /** What the configuration file holds. */
    var file: ConfigFile

    /** `ConfigLoader(config_file)`: loads the configuration at once. */
    constructor(configFile: string, file: ConfigFile)
      ensures this.configFile == configFile && this.file == file
      ensures config == LoadConfig(file)
    {
      this.configFile := configFile;
      this.file := file;
      config := LoadConfig(file);
    }

    /**
     * `save_config(config=None)`: writes the given configuration, or the
     * current one when the argument is None (JSON null); the in-memory
     * configuration is untouched either way. An empty object is a given
     * configuration.
     */
    method SaveConfig(given: Json, writable: bool) returns (ok: bool)
      modifies this
      ensures ok == writable && config == old(config)
      ensures writable ==> file == Parsed(if given.Null? then old(config) else given)
      ensures !writable ==> file == old(file)
    {
      var toSave := if given.Null? then config else given;
      if writable {
        file := Parsed(toSave);
        ok := true;
      } else {
        ok := false;
      }
    }

    /**
     * `get_cookie()`: the stored cookie value, "" when the key is absent;
     * None when the configuration is not an object, where `.get` raises
     * AttributeError.
     */
    function Cookie(): (c: Option<Json>)
      reads this
      ensures c.None? <==> !config.Object?
      ensures config.Object? && CookieKey in config.fields ==> c == Some(config.fields[CookieKey])
      ensures config.Object? && CookieKey !in config.fields ==> c == Some(Str(""))
    {
      if !config.Object? then None
      else if CookieKey in config.fields then Some(config.fields[CookieKey])
      else Some(Str(""))
    }

    /**
     * The getter for one section: the stored value, `{}` when the key is
     * absent; None when the configuration is not an object, where `.get`
     * raises AttributeError.
     */
    function Section(key: string): (s: Option<Json>)
      reads this
      ensures s.None? <==> !config.Object?
      ensures config.Object? && key in config.fields ==> s == Some(config.fields[key])
      ensures config.Object? && key !in config.fields ==> s == Some(Object(map[]))
    {
      if !config.Object? then None
      else if key in config.fields then Some(config.fields[key])
      else Some(Object(map[]))
    }

    function UserCrawlConfig(): Option<Json> reads this { Section("user_crawl") }
    function TopicCrawlConfig(): Option<Json> reads this { Section("topic_crawl") }
    function ProxyConfig(): Option<Json> reads this { Section("proxy") }
    function CrawlerSettings(): Option<Json> reads this { Section("crawler_settings") }
    function DataAnalysisConfig(): Option<Json> reads this { Section("data_analysis") }
    function OutputConfig(): Option<Json> reads this { Section("output") }

    /**
     * `update_config(new_config)`: a shallow merge (each top-level key of
     * the update replaces the stored value, nested sections are not merged),
     * then a save of the whole configuration. The merge stays in memory
     * even when the save fails. When the configuration is not an object,
     * `.update` raises AttributeError before anything changes and the
     * result is False.
     */
    method UpdateConfig(update: map<string, Json>, writable: bool) returns (ok: bool)
      modifies this
      ensures !old(config).Object? ==> !ok && config == old(config) && file == old(file)
      ensures old(config).Object? ==> config.Object? && ok == writable
      ensures old(config).Object? ==> config.fields.Keys == old(config).fields.Keys + update.Keys
      ensures old(config).Object? ==> forall k :: k in update ==> config.fields[k] == update[k]
      ensures old(config).Object? ==>
                forall k :: k in old(config).fields && k !in update ==> config.fields[k] == old(config).fields[k]
      ensures old(config).Object? && writable ==> file == Parsed(config)
      ensures old(config).Object? && !writable ==> file == old(file)
    {
      if !config.Object? {
        return false;
      }
      config := Object(config.fields + update);
      ok := SaveConfig(Null, writable);
    }
  }

  // ------------------------------------------------------------ lemmas

  /**
   * With a missing or unreadable file every getter finds its section in
   * the default configuration: an object, never the `{}` fallback, and the
   * cookie is "".
   */
  lemma DefaultSectionsPresent(file: ConfigFile)
    requires !file.Parsed?
    ensures LoadConfig(file).Object?
    ensures var c := LoadConfig(file).fields; CookieKey in c && c[CookieKey] == Str("")
    ensures var c := LoadConfig(file).fields;
            forall i :: 0 <= i < |SectionKeys| ==>
              SectionKeys[i] in c && c[SectionKeys[i]].Object? && c[SectionKeys[i]].fields != map[]
  {
    var d := DefaultConfig();
    forall i | 0 <= i < |SectionKeys|
      ensures SectionKeys[i] in d && d[SectionKeys[i]].Object? && d[SectionKeys[i]].fields != map[]
    {
      var k := SectionKeys[i];
      assert k in {"user_crawl", "topic_crawl", "proxy", "crawler_settings", "data_analysis", "output"};
      if k == "proxy" {
        assert "enabled" in d[k].fields;
      } else if k == "output" {
        assert "json" in d[k].fields;
      } else if k == "data_analysis" {
        assert "word_cloud" in d[k].fields;
      } else if k == "crawler_settings" {
        assert "timeout" in d[k].fields;
      } else {
        assert "enabled" in d[k].fields;
      }
    }
  }
}
