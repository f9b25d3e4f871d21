/**
 * The two pieces of the bundle's container extension that compute values: the
 * metadata entries for the messages listed in the configuration, and the HTTP
 * client options for the schema registry.
 */
module Extension {
  import opened Wrappers
  import opened Php
  import opened Types
  import CompilerPass

  /** The `InvalidArgumentException`s for a malformed `messages` section. */
  datatype ConfigError = ClassNameNotString | OptionsNotArray(className: string)

  /** `isset($options[$name]) && '' !== $options[$name] ? (string) $options[$name] : null` */
  function OptionalString(options: map<Key, Raw>, name: string): (r: Raw)
    ensures r == Null <==> Field(options, name) == Null || Field(options, name) == Str("")
    ensures r != Null ==> r == Str(ToStr(Field(options, name)))
  {
    var v := Field(options, name);
    if v == Null || v == Str("") then Null else Str(ToStr(v))
  }

  /** The metadata entry for a configured message class. */
  function ConfiguredEntry(className: string, options: map<Key, Raw>): map<Key, Raw> {
    map[
      StrKey("service_id") := Str(SerializerClass),
      StrKey("class") := Str(className),
      StrKey("key_subject") := OptionalString(options, "key_subject"),
      StrKey("value_subject") := OptionalString(options, "value_subject"),
      StrKey("header_provider") := OptionalString(options, "header_provider")]
  }

  /** The configured messages in order: each key must be a non-empty class name and each value an array. */
  function NormalizeConfigured(out: seq<(Key, Raw)>, messages: seq<(Key, Raw)>): Result<seq<(Key, Raw)>, ConfigError>
    decreases |messages|
  {
    if messages == [] then Ok(out)
    else
      var (k, options) := messages[0];
      if !k.StrKey? || k.s == "" then Err(ClassNameNotString)
      else if !options.Arr? then Err(OptionsNotArray(k.s))
      else NormalizeConfigured(Put(out, k, Arr(ConfiguredEntry(k.s, options.entries))), messages[1..])
  }

  /** A `messages` entry the extension accepts. */
  predicate Acceptable(entry: (Key, Raw)) {
    entry.0.StrKey? && entry.0.s != "" && entry.1.Arr?
  }

  /** `normalizeConfiguredMessages`: one entry per configured message, or the first complaint. */
  method NormalizeConfiguredMessages(messages: seq<(Key, Raw)>) returns (r: Result<seq<(Key, Raw)>, ConfigError>)
    ensures r == NormalizeConfigured([], messages)
  {
    var normalized: seq<(Key, Raw)> := [];
    for i := 0 to |messages|
      invariant NormalizeConfigured([], messages) == NormalizeConfigured(normalized, messages[i..])
    {
      assert messages[i..][1..] == messages[i + 1..];
      var (className, options) := messages[i];
      if !className.StrKey? || className.s == "" {
        return Err(ClassNameNotString);
      }
      if !options.Arr? {
        return Err(OptionsNotArray(className.s));
      }
      normalized := Put(normalized, className, Arr(ConfiguredEntry(className.s, options.entries)));
    }
    return Ok(normalized);
  }

  /** The configuration is accepted exactly when every entry is acceptable. */
  lemma {:induction false} NormalizeSucceeds(out: seq<(Key, Raw)>, messages: seq<(Key, Raw)>)
    ensures NormalizeConfigured(out, messages).Ok? <==> forall i :: 0 <= i < |messages| ==> Acceptable(messages[i])
    decreases |messages|
  {
    if messages != [] {
      var (k, options) := messages[0];
      if k.StrKey? && k.s != "" && options.Arr? {
        NormalizeSucceeds(Put(out, k, Arr(ConfiguredEntry(k.s, options.entries))), messages[1..]);
        assert forall i :: 0 <= i < |messages[1..]| ==> messages[1..][i] == messages[i + 1];
      } else {
        assert !Acceptable(messages[0]);
      }
    }
  }

  /** An accepted configuration yields one entry per configured class and no other. */
  lemma {:induction false} NormalizeKeys(out: seq<(Key, Raw)>, messages: seq<(Key, Raw)>)
    requires NormalizeConfigured(out, messages).Ok?
    ensures KeysOf(NormalizeConfigured(out, messages).value) == KeysOf(out) + KeysOf(messages)
    decreases |messages|
  {
    if messages == [] {
      assert KeysOf(messages) == {};
    } else {
      var (k, options) := messages[0];
      KeysOfCons(messages[0], messages[1..]);
      assert messages == [messages[0]] + messages[1..];
      NormalizeKeys(Put(out, k, Arr(ConfiguredEntry(k.s, options.entries))), messages[1..]);
    }
  }

  /** Classes not configured keep whatever entry they had. */
  lemma {:induction false} NormalizeKeepsOthers(out: seq<(Key, Raw)>, messages: seq<(Key, Raw)>, k: Key)
    requires NormalizeConfigured(out, messages).Ok? && k !in KeysOf(messages)
    ensures Lookup(NormalizeConfigured(out, messages).value, k) == Lookup(out, k)
    decreases |messages|
  {
    if messages != [] {
      var (first, options) := messages[0];
      KeysOfCons(messages[0], messages[1..]);
      assert messages == [messages[0]] + messages[1..];
      NormalizeKeepsOthers(Put(out, first, Arr(ConfiguredEntry(first.s, options.entries))), messages[1..], k);
    }
  }

  /**
   * In an accepted configuration, each configured class gets the entry for its own
   * options: the serializer as service, the class itself, and its optional fields.
   */
  lemma {:induction false} NormalizeEntry(out: seq<(Key, Raw)>, messages: seq<(Key, Raw)>, i: nat)
    requires NormalizeConfigured(out, messages).Ok? && DistinctKeys(messages) && i < |messages|
    ensures Acceptable(messages[i])
    ensures Lookup(NormalizeConfigured(out, messages).value, messages[i].0)
         == Some(Arr(ConfiguredEntry(messages[i].0.s, messages[i].1.entries)))
    decreases i
  {
    var (first, options) := messages[0];
    var next := Put(out, first, Arr(ConfiguredEntry(first.s, options.entries)));
    var rest := messages[1..];
    assert DistinctKeys(rest) by {
      forall a, b | 0 <= a < b < |rest| ensures rest[a].0 != rest[b].0 {
        assert rest[a] == messages[a + 1] && rest[b] == messages[b + 1];
      }
    }
    if i == 0 {
      assert first !in KeysOf(rest) by {
        forall j | 0 <= j < |rest| ensures rest[j].0 != first {
          assert rest[j] == messages[j + 1];
        }
      }
      NormalizeKeepsOthers(next, rest, first);
    } else {
      assert rest[i - 1] == messages[i];
      NormalizeEntry(next, rest, i - 1);
    }
  }

  /**
   * A configured entry already has its class and service id, so the compiler pass
   * completes it to itself.
   */
  lemma ConfiguredEntryComplete(className: string, options: map<Key, Raw>)
    requires className != ""
    ensures CompilerPass.WithDefaults(StrKey(className), ConfiguredEntry(className, options)) == ConfiguredEntry(className, options)
    ensures var provider := Field(ConfiguredEntry(className, options), "header_provider");
      provider == Null || provider.Str?
  {
    var entry := ConfiguredEntry(className, options);
    var completed := CompilerPass.WithDefaults(StrKey(className), entry);
    assert completed.Keys == entry.Keys;
  }

  /** The schema-registry options the HTTP client needs, as the configuration tree has them. */
  datatype RegistryConfig = RegistryConfig(
    baseUri: Raw,
    timeout: Raw,
    connectTimeout: Raw,
    verify: Raw,
    username: Raw,
    password: Raw)

  /** `createHttpClientConfig`: the four connection options, and the credentials when both are given. */
  method CreateHttpClientConfig(config: RegistryConfig) returns (r: map<string, Raw>)
    ensures r.Keys == {"base_uri", "timeout", "connect_timeout", "verify"}
                      + (if config.username != Null && config.password != Null then {"auth"} else {})
    ensures r["base_uri"] == config.baseUri && r["timeout"] == config.timeout
    ensures r["connect_timeout"] == config.connectTimeout && r["verify"] == config.verify
    ensures "auth" in r ==> r["auth"] == Arr(map[IntKey(0) := config.username, IntKey(1) := config.password])
  {
    r := map[
      "base_uri" := config.baseUri,
      "timeout" := config.timeout,
      "connect_timeout" := config.connectTimeout,
      "verify" := config.verify];
    if config.username != Null && config.password != Null {
      r := r["auth" := Arr(map[IntKey(0) := config.username, IntKey(1) := config.password])];
    }
  }
}
