/**
 * The compiler pass that settles the message metadata parameter: it checks the
 * services tagged as header providers, normalises the configured entries, lets
 * services tagged as message serializers add or replace entries, writes the result
 * back and hands the serializer a locator over the header providers it saw.
 */
module CompilerPass {
  import opened Wrappers
  import opened Php
  import opened Types

  /** What `is_a($class, ..., true)` answers for the two interfaces the pass asks about. */
  datatype ClassTable = ClassTable(headerProviders: set<string>, serializers: set<string>)

  /**
   * The container's services: `has($id)` holds for the ids in `definitions`, and
   * `findDefinition($id)->getClass()` gives the class, or null.
   */
  datatype Services = Services(definitions: map<string, Option<string>>, classes: ClassTable)

  /** A service tagged as a message serializer: its id, its class and the attributes of each of its tags. */
  datatype TaggedService = TaggedService(id: string, cls: Option<string>, tags: seq<map<Key, Raw>>)

  /** The metadata parameter: absent, some value that is not an array, or an array. */
  datatype MetadataParameter = Missing | NotAnArray(value: Raw) | Entries(entries: seq<(Key, Raw)>)

  /** The serializer's `$headerProviderLocator` argument: null, or a service locator over the given providers. */
  datatype LocatorArgument = NullLocator | LocatorOf(providers: set<string>)

  /** The `InvalidArgumentException`s the pass throws. */
  datatype PassError =
    | TaggedProviderInvalid(serviceId: string)
    | ProviderNotNonEmptyString(className: string)
    | ProviderNotFound(provider: string, className: string)
    | ProviderInvalid(provider: string)
    | TagWithoutClass
    | TagProviderNotString

  /** What the pass writes back: the metadata entries and the ids of the header providers it saw. */
  datatype Processed = Processed(metadata: seq<(Key, Raw)>, providers: set<string>)

  /** A service whose class implements the header-provider interface. */
  predicate ValidProvider(id: string, s: Services) {
    id in s.definitions && s.definitions[id].Some? && s.definitions[id].value in s.classes.headerProviders
  }

  /** A provider named for a message must be a service whose class implements the header-provider interface. */
  function CheckProvider(provider: string, className: string, s: Services): (r: Result<(), PassError>)
    ensures r.Ok? <==> ValidProvider(provider, s)
  {
    if provider !in s.definitions then Err(ProviderNotFound(provider, className))
    else
      var cls := s.definitions[provider];
      if cls.None? || cls.value !in s.classes.headerProviders then Err(ProviderInvalid(provider))
      else Ok(())
  }

  /** The first loop: every service tagged as a header provider must implement the interface. */
  function CollectTaggedProviders(providers: set<string>, tagged: seq<(string, Option<string>)>, s: Services): Result<set<string>, PassError>
    decreases |tagged|
  {
    if tagged == [] then Ok(providers)
    else
      var (id, cls) := tagged[0];
      if cls.None? || cls.value !in s.classes.headerProviders then Err(TaggedProviderInvalid(id))
      else CollectTaggedProviders(providers + {id}, tagged[1..], s)
  }

  /** A configured entry with its defaults: the key as class, the serializer as service. */
  function WithDefaults(k: Key, definition: map<Key, Raw>): (r: map<Key, Raw>)
    ensures Field(r, "class").Str? && IsNonEmptyString(Field(r, "service_id"))
    ensures Field(r, "class") == if IsNonEmptyString(Field(definition, "class")) then Field(definition, "class")
                                 else Str(if k.StrKey? then k.s else "")
    ensures Field(r, "service_id") == if IsNonEmptyString(Field(definition, "service_id")) then Field(definition, "service_id")
                                      else Str(SerializerClass)
    ensures forall other :: other != StrKey("class") && other != StrKey("service_id") ==>
      (other in r <==> other in definition) && (other in r ==> r[other] == definition[other])
    ensures Field(r, "header_provider") == Field(definition, "header_provider")
  {
    var withClass :=
      if IsNonEmptyString(Field(definition, "class")) then definition
      else definition[StrKey("class") := Str(if k.StrKey? then k.s else "")];
    if IsNonEmptyString(Field(withClass, "service_id")) then withClass
    else withClass[StrKey("service_id") := Str(SerializerClass)]
  }

  /** The second loop: entries that are not arrays are dropped, the others get their defaults and have their provider checked. */
  function NormalizeMetadata(out: seq<(Key, Raw)>, providers: set<string>, entries: seq<(Key, Raw)>, s: Services)
    : Result<(seq<(Key, Raw)>, set<string>), PassError>
    decreases |entries|
  {
    if entries == [] then Ok((out, providers))
    else
      var (k, v) := entries[0];
      if !v.Arr? then NormalizeMetadata(out, providers, entries[1..], s)
      else
        var definition := WithDefaults(k, v.entries);
        var provider := Field(definition, "header_provider");
        if provider == Null then NormalizeMetadata(out + [(k, Arr(definition))], providers, entries[1..], s)
        else if !IsNonEmptyString(provider) then Err(ProviderNotNonEmptyString(Field(definition, "class").s))
        else
          var checked :- CheckProvider(provider.s, Field(definition, "class").s, s);
          NormalizeMetadata(out + [(k, Arr(definition))], providers + {provider.s}, entries[1..], s)
  }

  /** `null !== $v ? (string) $v : null` */
  function Stringified(v: Raw): (r: Raw)
    ensures r == Null <==> v == Null
    ensures r != Null ==> r.Str?
  {
    if v == Null then Null else Str(ToStr(v))
  }

  /** The entry one serializer tag stands for: its message class, its definition and its provider. */
  function TagEntry(serviceId: string, attributes: map<Key, Raw>, s: Services): (r: Result<(string, map<Key, Raw>, Option<string>), PassError>)
    ensures r.Ok? ==>
      && r.value.0 != ""
      && Field(r.value.1, "class") == Str(r.value.0)
      && Field(r.value.1, "service_id") == Str(serviceId)
    ensures r.Ok? && r.value.2.Some? ==> CheckProvider(r.value.2.value, r.value.0, s).Ok?
  {
    var messageClass := FieldOr(attributes, "class_name", Field(attributes, "class"));
    if !IsNonEmptyString(messageClass) then Err(TagWithoutClass)
    else
      var provider := Field(attributes, "header_provider");
      if provider != Null && !provider.Str? then Err(TagProviderNotString)
      else
        var checked :- if provider == Null then Ok(()) else CheckProvider(provider.s, messageClass.s, s);
        var definition := map[
          StrKey("service_id") := Str(serviceId),
          StrKey("class") := messageClass,
          StrKey("key_subject") := Stringified(Field(attributes, "key_subject")),
          StrKey("value_subject") := Stringified(Field(attributes, "value_subject")),
          StrKey("header_provider") := provider];
        Ok((messageClass.s, definition, if provider == Null then None else Some(provider.s)))
  }

  /**
   * A tag needs a non-empty `class_name` (or `class`) and a `header_provider` that is
   * absent, null or a string naming a valid provider; the entry it stands for holds
   * exactly the five fields, with the subjects cast to strings and the provider as given.
   */
  lemma TagEntryOutcome(serviceId: string, attributes: map<Key, Raw>, s: Services)
    ensures var r := TagEntry(serviceId, attributes, s);
      var messageClass := FieldOr(attributes, "class_name", Field(attributes, "class"));
      var provider := Field(attributes, "header_provider");
      && (r == Err(TagWithoutClass) <==> !IsNonEmptyString(messageClass))
      && (r == Err(TagProviderNotString) <==> IsNonEmptyString(messageClass) && provider != Null && !provider.Str?)
      && (r.Ok? <==> IsNonEmptyString(messageClass) && (provider == Null || (provider.Str? && ValidProvider(provider.s, s))))
      && (IsNonEmptyString(messageClass) && provider.Str? && r.Err? ==> r.error == CheckProvider(provider.s, messageClass.s, s).error)
    ensures var r := TagEntry(serviceId, attributes, s);
      r.Ok? ==>
      && r.value.0 == FieldOr(attributes, "class_name", Field(attributes, "class")).s
      && r.value.1.Keys == {StrKey("service_id"), StrKey("class"), StrKey("key_subject"), StrKey("value_subject"), StrKey("header_provider")}
      && Field(r.value.1, "key_subject") == Stringified(Field(attributes, "key_subject"))
      && Field(r.value.1, "value_subject") == Stringified(Field(attributes, "value_subject"))
      && Field(r.value.1, "header_provider") == Field(attributes, "header_provider")
      && (r.value.2.Some? <==> Field(attributes, "header_provider") != Null)
      && (r.value.2.Some? ==> Field(attributes, "header_provider") == Str(r.value.2.value))
  {
  }

  /** The tags of one serializer service, in order: each sets the entry of its message class. */
  function ApplyServiceTags(metadata: seq<(Key, Raw)>, providers: set<string>, serviceId: string, tags: seq<map<Key, Raw>>, s: Services)
    : Result<(seq<(Key, Raw)>, set<string>), PassError>
    decreases |tags|
  {
    if tags == [] then Ok((metadata, providers))
    else
      var entry :- TagEntry(serviceId, tags[0], s);
      var (messageClass, definition, provider) := entry;
      ApplyServiceTags(
        Put(metadata, StrKey(messageClass), Arr(definition)),
        if provider.Some? then providers + {provider.value} else providers,
        serviceId, tags[1..], s)
  }

  /** The third loop: serializer services without a class, or whose class is no serializer, are skipped. */
  function ApplyTags(metadata: seq<(Key, Raw)>, providers: set<string>, services: seq<TaggedService>, s: Services)
    : Result<(seq<(Key, Raw)>, set<string>), PassError>
    decreases |services|
  {
    if services == [] then Ok((metadata, providers))
    else
      var service := services[0];
      if service.cls.None? || service.cls.value !in s.classes.serializers then ApplyTags(metadata, providers, services[1..], s)
      else
        var applied :- ApplyServiceTags(metadata, providers, service.id, service.tags, s);
        ApplyTags(applied.0, applied.1, services[1..], s)
  }

  /** `process`: nothing without the parameter; otherwise the three loops in turn, a non-array parameter read as empty. */
  function Processing(parameter: MetadataParameter, tagged: seq<(string, Option<string>)>, services: seq<TaggedService>, s: Services)
    : Result<Option<Processed>, PassError>
  {
    if parameter.Missing? then Ok(None)
    else
      var entries := if parameter.Entries? then parameter.entries else [];
      var providers :- CollectTaggedProviders({}, tagged, s);
      var normalized :- NormalizeMetadata([], providers, entries, s);
      var applied :- ApplyTags(normalized.0, normalized.1, services, s);
      Ok(Some(Processed(applied.0, applied.1)))
  }

  /** The locator argument for the providers seen: null exactly when there are none. */
  function LocatorFor(providers: set<string>): (r: LocatorArgument)
    ensures r == NullLocator <==> providers == {}
    ensures r.LocatorOf? ==> r.providers == providers
  {
    if providers == {} then NullLocator else LocatorOf(providers)
  }

  // ---------------------------------------------------------------- properties

  /** A service tagged as a header provider whose class implements the interface. */
  predicate TaggedValid(tagged: (string, Option<string>), s: Services) {
    tagged.1.Some? && tagged.1.value in s.classes.headerProviders
  }

  /** The ids of the services tagged as header providers. */
  function TaggedIds(tagged: seq<(string, Option<string>)>): set<string> {
    set j | 0 <= j < |tagged| :: tagged[j].0
  }

  /** A provider the pass may hand to the locator: a valid service, or a tagged one whose class implements the interface. */
  predicate Approved(id: string, tagged: seq<(string, Option<string>)>, s: Services) {
    || ValidProvider(id, s)
    || exists j :: 0 <= j < |tagged| && tagged[j].0 == id && TaggedValid(tagged[j], s)
  }

  /** A configured entry whose header provider the second loop accepts: none, or a non-empty string naming a valid provider. */
  predicate EntryAccepted(entry: (Key, Raw), s: Services) {
    entry.1.Arr? ==>
      var provider := Field(entry.1.entries, "header_provider");
      provider == Null || (IsNonEmptyString(provider) && ValidProvider(provider.s, s))
  }

  /** The header providers the configured entries that are arrays name. */
  function EntryProviders(entries: seq<(Key, Raw)>): set<string> {
    set i | 0 <= i < |entries| && entries[i].1.Arr? && Field(entries[i].1.entries, "header_provider").Str?
      :: Field(entries[i].1.entries, "header_provider").s
  }

  /** The exception the second loop throws for an entry whose provider it rejects; it names the entry's class after defaults. */
  function Rejection(k: Key, definition: map<Key, Raw>, s: Services): PassError {
    var messageClass := Field(WithDefaults(k, definition), "class").s;
    var provider := Field(definition, "header_provider");
    if !IsNonEmptyString(provider) then ProviderNotNonEmptyString(messageClass)
    else if provider.s !in s.definitions then ProviderNotFound(provider.s, messageClass)
    else ProviderInvalid(provider.s)
  }

  /** The configured entries that are arrays, each completed with its defaults, in order. */
  function Completed(entries: seq<(Key, Raw)>): seq<(Key, Raw)> {
    if entries == [] then []
    else
      (if entries[0].1.Arr? then [(entries[0].0, Arr(WithDefaults(entries[0].0, entries[0].1.entries)))] else [])
      + Completed(entries[1..])
  }

  /** The header providers the tags of one serializer service name. */
  function TagProviders(tags: seq<map<Key, Raw>>): set<string> {
    set j | 0 <= j < |tags| && Field(tags[j], "header_provider").Str? :: Field(tags[j], "header_provider").s
  }

  /** The header providers the tags of the serializer services name. */
  function SerializerTagProviders(services: seq<TaggedService>, s: Services): set<string> {
    set i, j | 0 <= i < |services| && SerializerService(services[i], s) && 0 <= j < |services[i].tags|
      && Field(services[i].tags[j], "header_provider").Str?
      :: Field(services[i].tags[j], "header_provider").s
  }

  /** A service tagged as a message serializer whose class is a serializer: the third loop reads its tags. */
  predicate SerializerService(service: TaggedService, s: Services) {
    service.cls.Some? && service.cls.value in s.classes.serializers
  }

  /**
   * The first loop succeeds exactly when every tagged service implements the interface,
   * and then adds the id of every one of them, and nothing else, to the provider map.
   */
  lemma {:induction false} CollectApproved(providers: set<string>, tagged: seq<(string, Option<string>)>, s: Services)
    ensures var r := CollectTaggedProviders(providers, tagged, s);
      && (r.Ok? <==> forall j :: 0 <= j < |tagged| ==> TaggedValid(tagged[j], s))
      && (r.Ok? ==> r.value == providers + TaggedIds(tagged))
      && (r.Ok? ==> forall id :: id in r.value ==> id in providers || Approved(id, tagged, s))
    decreases |tagged|
  {
    if tagged == [] {
      assert TaggedIds(tagged) == {};
    } else {
      var rest := tagged[1..];
      assert forall j :: 0 <= j < |rest| ==> rest[j] == tagged[j + 1];
      if TaggedValid(tagged[0], s) {
        CollectApproved(providers + {tagged[0].0}, rest, s);
        assert TaggedIds(tagged) == {tagged[0].0} + TaggedIds(rest) by {
          forall id | id in TaggedIds(tagged) ensures id in {tagged[0].0} + TaggedIds(rest) {
            var j :| 0 <= j < |tagged| && tagged[j].0 == id;
            if j > 0 {
              assert rest[j - 1] == tagged[j];
            }
          }
        }
        var r := CollectTaggedProviders(providers, tagged, s);
        if r.Ok? {
          forall id | id in r.value && id !in providers ensures Approved(id, tagged, s) {
            var j :| 0 <= j < |tagged| && tagged[j].0 == id;
          }
        }
      } else {
        assert !(forall j :: 0 <= j < |tagged| ==> TaggedValid(tagged[j], s));
      }
    }
  }

  /** When the first loop throws, it names the first tagged service that does not implement the interface. */
  lemma {:induction false} CollectRejects(providers: set<string>, tagged: seq<(string, Option<string>)>, s: Services)
    requires CollectTaggedProviders(providers, tagged, s).Err?
    ensures exists j ::
      && 0 <= j < |tagged| && !TaggedValid(tagged[j], s)
      && (forall i :: 0 <= i < j ==> TaggedValid(tagged[i], s))
      && CollectTaggedProviders(providers, tagged, s).error == TaggedProviderInvalid(tagged[j].0)
    decreases |tagged|
  {
    if TaggedValid(tagged[0], s) {
      var rest := tagged[1..];
      CollectRejects(providers + {tagged[0].0}, rest, s);
      var j :| 0 <= j < |rest| && !TaggedValid(rest[j], s)
        && (forall i :: 0 <= i < j ==> TaggedValid(rest[i], s))
        && CollectTaggedProviders(providers + {tagged[0].0}, rest, s).error == TaggedProviderInvalid(rest[j].0);
      assert rest[j] == tagged[j + 1];
      forall i | 0 <= i < j + 1 ensures TaggedValid(tagged[i], s) {
        if i > 0 {
          assert tagged[i] == rest[i - 1];
        }
      }
    }
  }

  /**
   * The second loop succeeds exactly when every configured entry that is an array names
   * no header provider or a valid one, and then adds every provider named to the map.
   */
  lemma {:induction false} NormalizeApproved(out: seq<(Key, Raw)>, providers: set<string>, entries: seq<(Key, Raw)>, s: Services)
    ensures var r := NormalizeMetadata(out, providers, entries, s);
      && (r.Ok? <==> forall i :: 0 <= i < |entries| ==> EntryAccepted(entries[i], s))
      && (r.Ok? ==> r.value.1 == providers + EntryProviders(entries))
      && (r.Ok? ==> forall id :: id in r.value.1 ==> id in providers || ValidProvider(id, s))
    decreases |entries|
  {
    if entries == [] {
      assert EntryProviders(entries) == {};
    } else {
      var (k, v) := entries[0];
      var rest := entries[1..];
      assert forall i :: 0 <= i < |rest| ==> rest[i] == entries[i + 1];
      var named := if v.Arr? && Field(v.entries, "header_provider").Str? then {Field(v.entries, "header_provider").s} else {};
      assert EntryProviders(entries) == named + EntryProviders(rest) by {
        forall id | id in EntryProviders(entries) ensures id in named + EntryProviders(rest) {
          var i :| 0 <= i < |entries| && entries[i].1.Arr? && Field(entries[i].1.entries, "header_provider").Str?
            && Field(entries[i].1.entries, "header_provider").s == id;
          if i > 0 {
            assert rest[i - 1] == entries[i];
          }
        }
      }
      if !v.Arr? {
        NormalizeApproved(out, providers, rest, s);
      } else if !EntryAccepted(entries[0], s) {
        assert !(forall i :: 0 <= i < |entries| ==> EntryAccepted(entries[i], s));
      } else {
        var definition := WithDefaults(k, v.entries);
        var provider := Field(definition, "header_provider");
        if provider == Null {
          NormalizeApproved(out + [(k, Arr(definition))], providers, rest, s);
        } else {
          NormalizeApproved(out + [(k, Arr(definition))], providers + {provider.s}, rest, s);
        }
      }
    }
  }

  /** When the second loop throws, it is for the first array entry whose header provider it rejects. */
  lemma {:induction false} NormalizeRejects(out: seq<(Key, Raw)>, providers: set<string>, entries: seq<(Key, Raw)>, s: Services)
    requires NormalizeMetadata(out, providers, entries, s).Err?
    ensures exists i ::
      && 0 <= i < |entries| && entries[i].1.Arr? && !EntryAccepted(entries[i], s)
      && (forall j :: 0 <= j < i ==> EntryAccepted(entries[j], s))
      && NormalizeMetadata(out, providers, entries, s).error == Rejection(entries[i].0, entries[i].1.entries, s)
    decreases |entries|
  {
    var (k, v) := entries[0];
    var rest := entries[1..];
    if !v.Arr? || EntryAccepted(entries[0], s) {
      var provider := if v.Arr? then Field(v.entries, "header_provider") else Null;
      var out' := if v.Arr? then out + [(k, Arr(WithDefaults(k, v.entries)))] else out;
      var providers' := if !v.Arr? || provider == Null then providers else providers + {provider.s};
      assert NormalizeMetadata(out, providers, entries, s) == NormalizeMetadata(out', providers', rest, s);
      NormalizeRejects(out', providers', rest, s);
      var i :| 0 <= i < |rest| && rest[i].1.Arr? && !EntryAccepted(rest[i], s)
        && (forall j :: 0 <= j < i ==> EntryAccepted(rest[j], s))
        && NormalizeMetadata(out', providers', rest, s).error == Rejection(rest[i].0, rest[i].1.entries, s);
      assert rest[i] == entries[i + 1];
      forall j | 0 <= j < i + 1 ensures EntryAccepted(entries[j], s) {
        if j > 0 {
          assert entries[j] == rest[j - 1];
        }
      }
    }
  }

  lemma {:induction false} ServiceTagsApproved(metadata: seq<(Key, Raw)>, providers: set<string>, serviceId: string, tags: seq<map<Key, Raw>>, s: Services)
    requires ApplyServiceTags(metadata, providers, serviceId, tags, s).Ok?
    ensures forall id :: id in ApplyServiceTags(metadata, providers, serviceId, tags, s).value.1 ==> id in providers || ValidProvider(id, s)
    decreases |tags|
  {
    if tags != [] {
      var (messageClass, definition, provider) := TagEntry(serviceId, tags[0], s).value;
      ServiceTagsApproved(
        Put(metadata, StrKey(messageClass), Arr(definition)),
        if provider.Some? then providers + {provider.value} else providers,
        serviceId, tags[1..], s);
    }
  }

  lemma {:induction false} ApplyTagsApproved(metadata: seq<(Key, Raw)>, providers: set<string>, services: seq<TaggedService>, s: Services)
    requires ApplyTags(metadata, providers, services, s).Ok?
    ensures forall id :: id in ApplyTags(metadata, providers, services, s).value.1 ==> id in providers || ValidProvider(id, s)
    decreases |services|
  {
    if services != [] {
      var service := services[0];
      if service.cls.None? || service.cls.value !in s.classes.serializers {
        ApplyTagsApproved(metadata, providers, services[1..], s);
      } else {
        ServiceTagsApproved(metadata, providers, service.id, service.tags, s);
        var applied := ApplyServiceTags(metadata, providers, service.id, service.tags, s).value;
        ApplyTagsApproved(applied.0, applied.1, services[1..], s);
      }
    }
  }

  /**
   * The tags of one serializer service are applied exactly when every one of them is
   * accepted, and then every provider they name is added to the map; otherwise the first
   * tag that is not accepted decides the exception.
   */
  lemma {:induction false} ServiceTagsSucceed(metadata: seq<(Key, Raw)>, providers: set<string>, serviceId: string, tags: seq<map<Key, Raw>>, s: Services)
    ensures var r := ApplyServiceTags(metadata, providers, serviceId, tags, s);
      && (r.Ok? <==> forall j :: 0 <= j < |tags| ==> TagEntry(serviceId, tags[j], s).Ok?)
      && (r.Ok? ==> r.value.1 == providers + TagProviders(tags))
    decreases |tags|
  {
    if tags == [] {
      assert TagProviders(tags) == {};
    } else {
      var rest := tags[1..];
      if TagEntry(serviceId, tags[0], s).Ok? {
        var next, nextProviders := ServiceTagsStep(metadata, providers, serviceId, tags, s);
        ServiceTagsSucceed(next, nextProviders, serviceId, rest, s);
        TagProvidersCons(serviceId, tags, s);
        assert forall j :: 0 <= j < |rest| ==> rest[j] == tags[j + 1];
      }
    }
  }

  /** Applying an accepted first tag, then the rest. */
  lemma ServiceTagsStep(metadata: seq<(Key, Raw)>, providers: set<string>, serviceId: string, tags: seq<map<Key, Raw>>, s: Services)
    returns (next: seq<(Key, Raw)>, nextProviders: set<string>)
    requires tags != [] && TagEntry(serviceId, tags[0], s).Ok?
    ensures var entry := TagEntry(serviceId, tags[0], s).value;
      && next == Put(metadata, StrKey(entry.0), Arr(entry.1))
      && nextProviders == if entry.2.Some? then providers + {entry.2.value} else providers
    ensures ApplyServiceTags(metadata, providers, serviceId, tags, s) == ApplyServiceTags(next, nextProviders, serviceId, tags[1..], s)
  {
    var entry := TagEntry(serviceId, tags[0], s).value;
    next := Put(metadata, StrKey(entry.0), Arr(entry.1));
    nextProviders := if entry.2.Some? then providers + {entry.2.value} else providers;
  }

  /** The providers a service's tags name: the first tag's, if any, and the rest's. */
  lemma TagProvidersCons(serviceId: string, tags: seq<map<Key, Raw>>, s: Services)
    requires tags != [] && TagEntry(serviceId, tags[0], s).Ok?
    ensures var provider := TagEntry(serviceId, tags[0], s).value.2;
      TagProviders(tags) == (if provider.Some? then {provider.value} else {}) + TagProviders(tags[1..])
  {
    TagEntryOutcome(serviceId, tags[0], s);
    var rest := tags[1..];
    var provider := TagEntry(serviceId, tags[0], s).value.2;
    var named := if provider.Some? then {provider.value} else {};
    forall id | id in TagProviders(tags) ensures id in named + TagProviders(rest) {
      var j :| 0 <= j < |tags| && Field(tags[j], "header_provider").Str? && Field(tags[j], "header_provider").s == id;
      if j > 0 {
        assert rest[j - 1] == tags[j];
      }
    }
    forall id | id in TagProviders(rest) ensures id in TagProviders(tags) {
      var j :| 0 <= j < |rest| && Field(rest[j], "header_provider").Str? && Field(rest[j], "header_provider").s == id;
      assert tags[j + 1] == rest[j];
    }
    if provider.Some? {
      assert Field(tags[0], "header_provider") == Str(provider.value);
    }
  }

  /** When a serializer service's tags are rejected, the first tag that is not accepted decides the exception. */
  lemma {:induction false} ServiceTagsReject(metadata: seq<(Key, Raw)>, providers: set<string>, serviceId: string, tags: seq<map<Key, Raw>>, s: Services)
    requires ApplyServiceTags(metadata, providers, serviceId, tags, s).Err?
    ensures exists j ::
      && 0 <= j < |tags| && TagEntry(serviceId, tags[j], s).Err?
      && (forall i :: 0 <= i < j ==> TagEntry(serviceId, tags[i], s).Ok?)
      && ApplyServiceTags(metadata, providers, serviceId, tags, s).error == TagEntry(serviceId, tags[j], s).error
    decreases |tags|
  {
    if TagEntry(serviceId, tags[0], s).Ok? {
      var rest := tags[1..];
      var next, nextProviders := ServiceTagsStep(metadata, providers, serviceId, tags, s);
      ServiceTagsReject(next, nextProviders, serviceId, rest, s);
      var j :| 0 <= j < |rest| && TagEntry(serviceId, rest[j], s).Err?
        && (forall i :: 0 <= i < j ==> TagEntry(serviceId, rest[i], s).Ok?)
        && ApplyServiceTags(next, nextProviders, serviceId, rest, s).error == TagEntry(serviceId, rest[j], s).error;
      assert rest[j] == tags[j + 1];
      forall i | 0 <= i < j + 1 ensures TagEntry(serviceId, tags[i], s).Ok? {
        if i > 0 {
          assert tags[i] == rest[i - 1];
        }
      }
      assert ApplyServiceTags(metadata, providers, serviceId, tags, s).error == TagEntry(serviceId, tags[j + 1], s).error;
    } else {
      assert ApplyServiceTags(metadata, providers, serviceId, tags, s).error == TagEntry(serviceId, tags[0], s).error;
    }
  }

  /**
   * The third loop succeeds exactly when every tag of every serializer service is
   * accepted, and then the map holds every provider such a tag names.
   */
  lemma {:induction false} ApplyTagsSucceed(metadata: seq<(Key, Raw)>, providers: set<string>, services: seq<TaggedService>, s: Services)
    ensures var r := ApplyTags(metadata, providers, services, s);
      && (r.Ok? <==> forall i, j :: 0 <= i < |services| && SerializerService(services[i], s) && 0 <= j < |services[i].tags| ==>
            TagEntry(services[i].id, services[i].tags[j], s).Ok?)
      && (r.Ok? ==> providers <= r.value.1)
      && (r.Ok? ==> forall i, j ::
            0 <= i < |services| && SerializerService(services[i], s) && 0 <= j < |services[i].tags|
            && Field(services[i].tags[j], "header_provider").Str? ==>
              Field(services[i].tags[j], "header_provider").s in r.value.1)
    decreases |services|
  {
    if services != [] {
      var rest := services[1..];
      assert forall i :: 0 <= i < |rest| ==> rest[i] == services[i + 1];
      var service := services[0];
      if !SerializerService(service, s) {
        ApplyTagsSucceed(metadata, providers, rest, s);
      } else {
        ServiceTagsSucceed(metadata, providers, service.id, service.tags, s);
        var applied := ApplyServiceTags(metadata, providers, service.id, service.tags, s);
        if applied.Ok? {
          ApplyTagsSucceed(applied.value.0, applied.value.1, rest, s);
          var r := ApplyTags(metadata, providers, services, s);
          if r.Ok? {
            forall i, j | 0 <= i < |services| && SerializerService(services[i], s) && 0 <= j < |services[i].tags|
              && Field(services[i].tags[j], "header_provider").Str?
              ensures Field(services[i].tags[j], "header_provider").s in r.value.1
            {
              if i == 0 {
                assert Field(service.tags[j], "header_provider").s in TagProviders(service.tags);
              }
            }
          }
        } else {
          var j :| 0 <= j < |service.tags| && TagEntry(service.id, service.tags[j], s).Err?;
          assert services[0].tags[j] == service.tags[j];
        }
      }
    }
  }

  /** The providers the serializer services' tags name: the first service's, when it is a serializer, and the rest's. */
  lemma SerializerTagProvidersCons(services: seq<TaggedService>, s: Services)
    requires services != []
    ensures SerializerTagProviders(services, s) ==
      (if SerializerService(services[0], s) then TagProviders(services[0].tags) else {}) + SerializerTagProviders(services[1..], s)
  {
    var rest := services[1..];
    var head := if SerializerService(services[0], s) then TagProviders(services[0].tags) else {};
    forall id | id in SerializerTagProviders(services, s) ensures id in head + SerializerTagProviders(rest, s) {
      var i, j :| 0 <= i < |services| && SerializerService(services[i], s) && 0 <= j < |services[i].tags|
        && Field(services[i].tags[j], "header_provider").Str? && Field(services[i].tags[j], "header_provider").s == id;
      if i == 0 {
        assert id in TagProviders(services[0].tags);
      } else {
        assert rest[i - 1] == services[i];
      }
    }
    forall id | id in head + SerializerTagProviders(rest, s) ensures id in SerializerTagProviders(services, s) {
      if id in head {
        var j :| 0 <= j < |services[0].tags| && Field(services[0].tags[j], "header_provider").Str?
          && Field(services[0].tags[j], "header_provider").s == id;
      } else {
        var i, j :| 0 <= i < |rest| && SerializerService(rest[i], s) && 0 <= j < |rest[i].tags|
          && Field(rest[i].tags[j], "header_provider").Str? && Field(rest[i].tags[j], "header_provider").s == id;
        assert services[i + 1] == rest[i];
      }
    }
  }

  /** When the third loop succeeds, the map gains exactly the providers the serializer services' tags name. */
  lemma {:induction false} ApplyTagsProviders(metadata: seq<(Key, Raw)>, providers: set<string>, services: seq<TaggedService>, s: Services)
    requires ApplyTags(metadata, providers, services, s).Ok?
    ensures ApplyTags(metadata, providers, services, s).value.1 == providers + SerializerTagProviders(services, s)
    decreases |services|
  {
    if services == [] {
      assert SerializerTagProviders(services, s) == {};
    } else {
      SerializerTagProvidersCons(services, s);
      var service := services[0];
      if !SerializerService(service, s) {
        ApplyTagsProviders(metadata, providers, services[1..], s);
      } else {
        ServiceTagsSucceed(metadata, providers, service.id, service.tags, s);
        var applied := ApplyServiceTags(metadata, providers, service.id, service.tags, s).value;
        ApplyTagsProviders(applied.0, applied.1, services[1..], s);
      }
    }
  }

  /**
   * `process` succeeds exactly when the parameter is absent, or every tagged provider
   * implements the interface, every configured provider is accepted and every tag of
   * every serializer service is accepted.
   */
  lemma ProcessingSucceeds(parameter: MetadataParameter, tagged: seq<(string, Option<string>)>, services: seq<TaggedService>, s: Services)
    ensures Processing(parameter, tagged, services, s).Ok? <==>
      || parameter.Missing?
      || (&& (forall j :: 0 <= j < |tagged| ==> TaggedValid(tagged[j], s))
          && (parameter.Entries? ==> forall i :: 0 <= i < |parameter.entries| ==> EntryAccepted(parameter.entries[i], s))
          && (forall i, j :: 0 <= i < |services| && SerializerService(services[i], s) && 0 <= j < |services[i].tags| ==>
                TagEntry(services[i].id, services[i].tags[j], s).Ok?))
  {
    if !parameter.Missing? {
      var entries := if parameter.Entries? then parameter.entries else [];
      CollectApproved({}, tagged, s);
      var collected := CollectTaggedProviders({}, tagged, s);
      if collected.Ok? {
        NormalizeApproved([], collected.value, entries, s);
        var normalized := NormalizeMetadata([], collected.value, entries, s);
        if normalized.Ok? {
          ApplyTagsSucceed(normalized.value.0, normalized.value.1, services, s);
        }
      }
    }
  }

  /**
   * The locator gets exactly the providers the three loops met: the tagged providers,
   * those the configured entries name and those the serializer tags name; every one of
   * them was approved.
   */
  lemma ProvidersApproved(parameter: MetadataParameter, tagged: seq<(string, Option<string>)>, services: seq<TaggedService>, s: Services)
    requires Processing(parameter, tagged, services, s).Ok? && Processing(parameter, tagged, services, s).value.Some?
    ensures var p := Processing(parameter, tagged, services, s).value.value;
      p.providers == TaggedIds(tagged)
        + EntryProviders(if parameter.Entries? then parameter.entries else [])
        + SerializerTagProviders(services, s)
    ensures var p := Processing(parameter, tagged, services, s).value.value;
      && (forall id :: id in p.providers ==> Approved(id, tagged, s))
      && TaggedIds(tagged) <= p.providers
      && (parameter.Entries? ==> EntryProviders(parameter.entries) <= p.providers)
      && (forall i, j ::
            0 <= i < |services| && SerializerService(services[i], s) && 0 <= j < |services[i].tags|
            && Field(services[i].tags[j], "header_provider").Str? ==>
              Field(services[i].tags[j], "header_provider").s in p.providers)
  {
    var entries := if parameter.Entries? then parameter.entries else [];
    CollectApproved({}, tagged, s);
    var providers := CollectTaggedProviders({}, tagged, s).value;
    NormalizeApproved([], providers, entries, s);
    var normalized := NormalizeMetadata([], providers, entries, s).value;
    ApplyTagsApproved(normalized.0, normalized.1, services, s);
    ApplyTagsSucceed(normalized.0, normalized.1, services, s);
    ApplyTagsProviders(normalized.0, normalized.1, services, s);
  }

  /** An entry the registry can read: an array with a string class and a string service id. */
  predicate WellFormed(entry: (Key, Raw)) {
    entry.1.Arr? && Field(entry.1.entries, "class").Str? && Field(entry.1.entries, "service_id").Str?
  }

  /** The keys of the entries that are arrays. */
  function ArrayKeys(entries: seq<(Key, Raw)>): set<Key> {
    set i | 0 <= i < |entries| && entries[i].1.Arr? :: entries[i].0
  }

  /**
   * Normalising keeps exactly the entries that are arrays, in order, each with its
   * defaults; so every entry it leaves is well formed.
   */
  lemma {:induction false} NormalizeKeepsArrays(out: seq<(Key, Raw)>, providers: set<string>, entries: seq<(Key, Raw)>, s: Services)
    requires NormalizeMetadata(out, providers, entries, s).Ok?
    requires forall e :: e in out ==> WellFormed(e)
    ensures KeysOf(NormalizeMetadata(out, providers, entries, s).value.0) == KeysOf(out) + ArrayKeys(entries)
    ensures forall e :: e in NormalizeMetadata(out, providers, entries, s).value.0 ==> WellFormed(e)
    ensures NormalizeMetadata(out, providers, entries, s).value.0 == out + Completed(entries)
    decreases |entries|
  {
    NormalizeCompletes(out, providers, entries, s);
    if entries == [] {
      assert ArrayKeys(entries) == {};
    } else {
      var (k, v) := entries[0];
      assert ArrayKeys(entries) == (if v.Arr? then {k} else {}) + ArrayKeys(entries[1..]) by {
        forall key | key in ArrayKeys(entries) ensures key in (if v.Arr? then {k} else {}) + ArrayKeys(entries[1..]) {
          var i :| 0 <= i < |entries| && entries[i].1.Arr? && entries[i].0 == key;
          if i > 0 {
            assert entries[1..][i - 1] == entries[i];
          }
        }
        forall key | key in ArrayKeys(entries[1..]) ensures key in ArrayKeys(entries) {
          var i :| 0 <= i < |entries[1..]| && entries[1..][i].1.Arr? && entries[1..][i].0 == key;
          assert entries[i + 1] == entries[1..][i];
        }
      }
      if v.Arr? {
        var definition := WithDefaults(k, v.entries);
        var provider := Field(definition, "header_provider");
        var next := out + [(k, Arr(definition))];
        assert KeysOf(next) == KeysOf(out) + {k} by {
          forall key | key in KeysOf(next) ensures key in KeysOf(out) + {k} {
            var i :| 0 <= i < |next| && next[i].0 == key;
            if i < |out| {
              assert out[i] == next[i];
            }
          }
          forall key | key in KeysOf(out) ensures key in KeysOf(next) {
            var i :| 0 <= i < |out| && out[i].0 == key;
            assert next[i] == out[i];
          }
          assert next[|out|].0 == k;
        }
        if provider == Null {
          NormalizeKeepsArrays(next, providers, entries[1..], s);
        } else {
          NormalizeKeepsArrays(next, providers + {provider.s}, entries[1..], s);
        }
      } else {
        NormalizeKeepsArrays(out, providers, entries[1..], s);
      }
    }
  }

  lemma {:induction false} NormalizeCompletes(out: seq<(Key, Raw)>, providers: set<string>, entries: seq<(Key, Raw)>, s: Services)
    requires NormalizeMetadata(out, providers, entries, s).Ok?
    ensures NormalizeMetadata(out, providers, entries, s).value.0 == out + Completed(entries)
    decreases |entries|
  {
    if entries != [] {
      var (k, v) := entries[0];
      if v.Arr? {
        var definition := WithDefaults(k, v.entries);
        var provider := Field(definition, "header_provider");
        var next := out + [(k, Arr(definition))];
        NormalizeCompletes(next, if provider == Null then providers else providers + {provider.s}, entries[1..], s);
        assert next + Completed(entries[1..]) == out + Completed(entries);
      } else {
        NormalizeCompletes(out, providers, entries[1..], s);
      }
    }
  }

  /**
   * Once normalised, reading the parameter under the key of an entry that is an array
   * gives that entry completed with its defaults (PHP keys are distinct, so no earlier
   * entry has the key).
   */
  lemma {:induction false} NormalizedLookup(providers: set<string>, entries: seq<(Key, Raw)>, s: Services, i: nat)
    requires NormalizeMetadata([], providers, entries, s).Ok?
    requires i < |entries| && entries[i].1.Arr?
    requires forall j :: 0 <= j < i ==> entries[j].0 != entries[i].0
    ensures Lookup(NormalizeMetadata([], providers, entries, s).value.0, entries[i].0)
      == Some(Arr(WithDefaults(entries[i].0, entries[i].1.entries)))
  {
    NormalizeCompletes([], providers, entries, s);
    assert [] + Completed(entries) == Completed(entries);
    CompletedLookup(entries, i);
  }

  lemma {:induction false} CompletedLookup(entries: seq<(Key, Raw)>, i: nat)
    requires i < |entries| && entries[i].1.Arr?
    requires forall j :: 0 <= j < i ==> entries[j].0 != entries[i].0
    ensures Lookup(Completed(entries), entries[i].0) == Some(Arr(WithDefaults(entries[i].0, entries[i].1.entries)))
    decreases i
  {
    var k := entries[i].0;
    var rest := entries[1..];
    var head := if entries[0].1.Arr? then [(entries[0].0, Arr(WithDefaults(entries[0].0, entries[0].1.entries)))] else [];
    var all := head + Completed(rest);
    assert Completed(entries) == all;
    if i == 0 {
      assert all[0] == (k, Arr(WithDefaults(k, entries[0].1.entries)));
    } else {
      assert rest[i - 1] == entries[i];
      assert forall j :: 0 <= j < i - 1 ==> rest[j] == entries[j + 1];
      CompletedLookup(rest, i - 1);
      if head != [] {
        assert all[0].0 == entries[0].0 != k;
        assert all[1..] == Completed(rest);
      } else {
        assert all == Completed(rest);
      }
    }
  }

  /** Tags only ever write well-formed entries. */
  lemma {:induction false} ServiceTagsWellFormed(metadata: seq<(Key, Raw)>, providers: set<string>, serviceId: string, tags: seq<map<Key, Raw>>, s: Services)
    requires ApplyServiceTags(metadata, providers, serviceId, tags, s).Ok?
    requires forall e :: e in metadata ==> WellFormed(e)
    ensures forall e :: e in ApplyServiceTags(metadata, providers, serviceId, tags, s).value.0 ==> WellFormed(e)
    decreases |tags|
  {
    if tags != [] {
      var (messageClass, definition, provider) := TagEntry(serviceId, tags[0], s).value;
      ServiceTagsWellFormed(
        Put(metadata, StrKey(messageClass), Arr(definition)),
        if provider.Some? then providers + {provider.value} else providers,
        serviceId, tags[1..], s);
    }
  }

  lemma {:induction false} ApplyTagsWellFormed(metadata: seq<(Key, Raw)>, providers: set<string>, services: seq<TaggedService>, s: Services)
    requires ApplyTags(metadata, providers, services, s).Ok?
    requires forall e :: e in metadata ==> WellFormed(e)
    ensures forall e :: e in ApplyTags(metadata, providers, services, s).value.0 ==> WellFormed(e)
    decreases |services|
  {
    if services != [] {
      var service := services[0];
      if service.cls.None? || service.cls.value !in s.classes.serializers {
        ApplyTagsWellFormed(metadata, providers, services[1..], s);
      } else {
        ServiceTagsWellFormed(metadata, providers, service.id, service.tags, s);
        var applied := ApplyServiceTags(metadata, providers, service.id, service.tags, s).value;
        ApplyTagsWellFormed(applied.0, applied.1, services[1..], s);
      }
    }
  }

  /** Everything the pass writes back is an array with a string class and a string service id. */
  lemma WrittenBackWellFormed(parameter: MetadataParameter, tagged: seq<(string, Option<string>)>, services: seq<TaggedService>, s: Services)
    requires Processing(parameter, tagged, services, s).Ok? && Processing(parameter, tagged, services, s).value.Some?
    ensures forall e :: e in Processing(parameter, tagged, services, s).value.value.metadata ==> WellFormed(e)
  {
    var entries := if parameter.Entries? then parameter.entries else [];
    var providers := CollectTaggedProviders({}, tagged, s).value;
    NormalizeKeepsArrays([], providers, entries, s);
    var normalized := NormalizeMetadata([], providers, entries, s).value;
    ApplyTagsWellFormed(normalized.0, normalized.1, services, s);
  }

  /** Tags whose class differs from `key` leave the entry under `key` alone. */
  lemma {:induction false} OtherTagsKeep(metadata: seq<(Key, Raw)>, providers: set<string>, serviceId: string, tags: seq<map<Key, Raw>>, s: Services, key: Key)
    requires ApplyServiceTags(metadata, providers, serviceId, tags, s).Ok?
    requires forall j :: 0 <= j < |tags| ==> TagEntry(serviceId, tags[j], s).Ok? ==> StrKey(TagEntry(serviceId, tags[j], s).value.0) != key
    ensures Lookup(ApplyServiceTags(metadata, providers, serviceId, tags, s).value.0, key) == Lookup(metadata, key)
    decreases |tags|
  {
    if tags != [] {
      var (messageClass, definition, provider) := TagEntry(serviceId, tags[0], s).value;
      assert forall j :: 0 <= j < |tags[1..]| ==> tags[1..][j] == tags[j + 1];
      OtherTagsKeep(
        Put(metadata, StrKey(messageClass), Arr(definition)),
        if provider.Some? then providers + {provider.value} else providers,
        serviceId, tags[1..], s, key);
    }
  }

  /** The last of a service's tags naming a message class sets that class's entry, with the tagged service as service id. */
  lemma {:induction false} LastTagWins(metadata: seq<(Key, Raw)>, providers: set<string>, serviceId: string, tags: seq<map<Key, Raw>>, s: Services, k: nat)
    requires ApplyServiceTags(metadata, providers, serviceId, tags, s).Ok?
    requires k < |tags| && TagEntry(serviceId, tags[k], s).Ok?
    requires forall j :: k < j < |tags| ==> TagEntry(serviceId, tags[j], s).Ok? ==>
      TagEntry(serviceId, tags[j], s).value.0 != TagEntry(serviceId, tags[k], s).value.0
    ensures var entry := TagEntry(serviceId, tags[k], s).value;
      Lookup(ApplyServiceTags(metadata, providers, serviceId, tags, s).value.0, StrKey(entry.0)) == Some(Arr(entry.1))
      && Field(entry.1, "service_id") == Str(serviceId)
    decreases k
  {
    var (messageClass, definition, provider) := TagEntry(serviceId, tags[0], s).value;
    var next := Put(metadata, StrKey(messageClass), Arr(definition));
    var nextProviders := if provider.Some? then providers + {provider.value} else providers;
    assert forall j :: 0 <= j < |tags[1..]| ==> tags[1..][j] == tags[j + 1];
    if k == 0 {
      OtherTagsKeep(next, nextProviders, serviceId, tags[1..], s, StrKey(messageClass));
    } else {
      LastTagWins(next, nextProviders, serviceId, tags[1..], s, k - 1);
    }
  }

  // ---------------------------------------------------------------- the pass

  /** The part of the container the pass reads and the two things it writes. */
  class ContainerBuilder {
    const services: Services
    /** The services tagged as header providers, with their classes, in the container's order. */
    const headerProviderServices: seq<(string, Option<string>)>
    /** The services tagged as message serializers, in the container's order. */
    const serializerServices: seq<TaggedService>
    /** `hasDefinition(AvroMessengerSerializer::class)` */
    const serializerDefined: bool
    var metadata: MetadataParameter
    var headerProviderLocator: LocatorArgument

    constructor (
      services: Services, headerProviderServices: seq<(string, Option<string>)>, serializerServices: seq<TaggedService>,
      serializerDefined: bool, metadata: MetadataParameter, headerProviderLocator: LocatorArgument)
      ensures this.services == services && this.headerProviderServices == headerProviderServices
      ensures this.serializerServices == serializerServices && this.serializerDefined == serializerDefined
      ensures this.metadata == metadata && this.headerProviderLocator == headerProviderLocator
    {
      this.services := services;
      this.headerProviderServices := headerProviderServices;
      this.serializerServices := serializerServices;
      this.serializerDefined := serializerDefined;
      this.metadata := metadata;
      this.headerProviderLocator := headerProviderLocator;
    }
  }

  /** Checks every service tagged as a header provider, in order. */
  method CheckTaggedProviders(tagged: seq<(string, Option<string>)>, s: Services) returns (r: Result<set<string>, PassError>)
    ensures r == CollectTaggedProviders({}, tagged, s)
  {
    var providers: set<string> := {};
    for i := 0 to |tagged|
      invariant CollectTaggedProviders({}, tagged, s) == CollectTaggedProviders(providers, tagged[i..], s)
    {
      assert tagged[i..][1..] == tagged[i + 1..];
      var (id, cls) := tagged[i];
      if cls.None? || cls.value !in s.classes.headerProviders {
        return Err(TaggedProviderInvalid(id));
      }
      providers := providers + {id};
    }
    return Ok(providers);
  }

  /** Walks the configured entries, dropping those that are not arrays and completing the others. */
  method NormalizeEntries(providers: set<string>, entries: seq<(Key, Raw)>, s: Services)
    returns (r: Result<(seq<(Key, Raw)>, set<string>), PassError>)
    ensures r == NormalizeMetadata([], providers, entries, s)
  {
    var out: seq<(Key, Raw)> := [];
    var seen := providers;
    for i := 0 to |entries|
      invariant NormalizeMetadata([], providers, entries, s) == NormalizeMetadata(out, seen, entries[i..], s)
    {
      assert entries[i..][1..] == entries[i + 1..];
      var (k, v) := entries[i];
      if !v.Arr? {
        continue;
      }
      var definition := WithDefaults(k, v.entries);
      var provider := Field(definition, "header_provider");
      if provider != Null {
        if !IsNonEmptyString(provider) {
          return Err(ProviderNotNonEmptyString(Field(definition, "class").s));
        }
        var checked := CheckProvider(provider.s, Field(definition, "class").s, s);
        if checked.Err? {
          return Err(checked.error);
        }
        seen := seen + {provider.s};
      }
      out := out + [(k, Arr(definition))];
    }
    return Ok((out, seen));
  }

  /** Applies the tags of one serializer service, in order. */
  method ApplyTagsOf(metadata: seq<(Key, Raw)>, providers: set<string>, serviceId: string, tags: seq<map<Key, Raw>>, s: Services)
    returns (r: Result<(seq<(Key, Raw)>, set<string>), PassError>)
    ensures r == ApplyServiceTags(metadata, providers, serviceId, tags, s)
  {
    var current := metadata;
    var seen := providers;
    for i := 0 to |tags|
      invariant ApplyServiceTags(metadata, providers, serviceId, tags, s) == ApplyServiceTags(current, seen, serviceId, tags[i..], s)
    {
      assert tags[i..][1..] == tags[i + 1..];
      var entry := TagEntry(serviceId, tags[i], s);
      if entry.Err? {
        return Err(entry.error);
      }
      var (messageClass, definition, provider) := entry.value;
      if provider.Some? {
        seen := seen + {provider.value};
      }
      current := Put(current, StrKey(messageClass), Arr(definition));
    }
    return Ok((current, seen));
  }

  /** Applies the tags of every serializer service whose class is a serializer. */
  method ApplySerializerTags(metadata: seq<(Key, Raw)>, providers: set<string>, services: seq<TaggedService>, s: Services)
    returns (r: Result<(seq<(Key, Raw)>, set<string>), PassError>)
    ensures r == ApplyTags(metadata, providers, services, s)
  {
    var current := metadata;
    var seen := providers;
    for i := 0 to |services|
      invariant ApplyTags(metadata, providers, services, s) == ApplyTags(current, seen, services[i..], s)
    {
      assert services[i..][1..] == services[i + 1..];
      var service := services[i];
      if service.cls.None? {
        continue;
      }
      if service.cls.value !in s.classes.serializers {
        continue;
      }
      var applied := ApplyTagsOf(current, seen, service.id, service.tags, s);
      if applied.Err? {
        return Err(applied.error);
      }
      current, seen := applied.value.0, applied.value.1;
    }
    return Ok((current, seen));
  }

  /**
   * `process`: without the parameter nothing changes; an error changes nothing either;
   * otherwise the settled metadata is written back and, when the serializer is defined,
   * it gets a locator over the providers seen, or null when there are none.
   */
  method Process(container: ContainerBuilder) returns (r: Result<(), PassError>)
    modifies container
    ensures match Processing(old(container.metadata), container.headerProviderServices, container.serializerServices, container.services)
      case Err(e) => r == Err(e) && unchanged(container)
      case Ok(None) => r == Ok(()) && unchanged(container)
      case Ok(Some(p)) =>
        && r == Ok(())
        && container.metadata == Entries(p.metadata)
        && container.headerProviderLocator ==
             if container.serializerDefined then LocatorFor(p.providers) else old(container.headerProviderLocator)
  {
    if container.metadata.Missing? {
      return Ok(());
    }
    var entries := if container.metadata.Entries? then container.metadata.entries else [];
    var providers := CheckTaggedProviders(container.headerProviderServices, container.services);
    if providers.Err? {
      return Err(providers.error);
    }
    var normalized := NormalizeEntries(providers.value, entries, container.services);
    if normalized.Err? {
      return Err(normalized.error);
    }
    var applied := ApplySerializerTags(normalized.value.0, normalized.value.1, container.serializerServices, container.services);
    if applied.Err? {
      return Err(applied.error);
    }
    container.metadata := Entries(applied.value.0);
    if container.serializerDefined {
      container.headerProviderLocator := if applied.value.1 == {} then NullLocator else LocatorOf(applied.value.1);
    }
    return Ok(());
  }
}
