# Avro Messenger serializer bundle, modelled in Dafny

The bundle lets Symfony Messenger send messages as Avro records. A message class
implements the Avro message contract and gets its **message metadata** in one of two
ways: from the bundle configuration, or from an `#[AsAvroMessage]` attribute on the
class. The metadata holds the serializer service, the class name, an optional key
subject, an optional value subject and an optional header-provider service.

- **Encoding.** The serializer looks the metadata up in the **metadata registry**. It
  writes the class into the `x-chargecloud-avro-class` and `type` headers. The key
  record goes, Avro-encoded and then base64-encoded, into the
  `x-chargecloud-avro-key` header. The value record goes into the body. When there is
  no value, it marks a tombstone. Last, the message's **header provider** adds its own
  headers.
- **Decoding.** The serializer reverses each of these steps.
- **Schemas.** The **schema loader** reads the `*.avsc` files under the configured
  directories. It registers each schema under every subject the file yields: the
  basename, an explicit `subject`, `namespace.name` and `name`. The **schema
  repository** serves these schemas by subject.
- **Wiring.** A **compiler pass** normalises the metadata in the container and checks
  the header providers. It lets services tagged as serializers add entries, and hands
  the serializer a locator over the providers. The **container extension** turns the
  configured messages into metadata entries and builds the HTTP options for the
  schema registry.
- **Test fixture.** The **in-memory registry** stands in for the schema registry in
  the tests.

The model is in these modules, one file each:

- `Wrappers`: `Option` and `Result`.
- `Php`: PHP values and the PHP operations the code relies on.
  - Array keys are integers or strings. The model covers `??`, `isset`,
    `is_scalar` and the `(string)` cast.
  - Binary strings are seen as octets.
  - An ordered array is a sequence of pairs: writing a key it already has keeps that
    key's place, and a new key goes last.
- `Base64`: the base64 encoding of section 4 of RFC 4648, with a strict decoder.
- `Types`: the runtime type system the code asks through reflection, as an explicit
  table. The table lists:
  - which classes exist;
  - which carry the attribute;
  - which implement the message contract;
  - each type's parents and interfaces, in order.
- `Metadata`: the metadata record.
- `MetadataRegistry`: the registry. It is a class whose methods change its cache and
  its set of inspected classes. It is proved against the function `Resolve`.
- `Envelope`: the serializer's header construction, the provider merge and the
  locator scan as loops, and decoding. The Avro record codec is a parameter. The
  round trip is proved under the assumption that the codec round-trips.
- `Schema`: the loader, as a fold over the listed files, and the repository, as a
  class.
- `SchemaRegistry`: the in-memory registry, as a class.
- `CompilerPass`: the pass, with each of its loops a method proved against a fold.
- `Extension`: the two computing functions of the container extension.

## Model

| member | source | states |
|---|---|---|
| Php.Field | src/Messenger/AvroMessengerSerializer.php:101 | `$a[$name] ?? null`: the value stored under the string key, or null when there is none |
| Php.FieldOr | src/Messenger/AvroMessengerSerializer.php:95 | `$a[$name] ?? $default`: the stored value when there is one and it is not null, the default otherwise |
| Php.Put | src/DependencyInjection/Compiler/MessageMetadataCompilerPass.php:123-129 | writing `$array[$k] = $v` into an ordered array: afterwards `$k` maps to `$v`, every other key keeps its value, the key set gains exactly `$k`, and no other entry appears |
| Php.Lookup | src/DependencyInjection/Compiler/MessageMetadataCompilerPass.php:123 | reading an ordered array finds a value exactly when the key is one of the array's keys |
| Php.Text | src/Messenger/AvroMessengerSerializer.php:73 | the binary string the codec returns, as body text, has one character per octet with the octet's code |
| Php.OctetsOfText | src/Messenger/AvroMessengerSerializer.php:133-147 | reading the octets back from such a body gives the octets that were written |
| Base64.ValueOf | src/Messenger/AvroMessengerSerializer.php:119 | a character the strict decoder accepts has a 6-bit value, and that value's alphabet character is the character itself |
| Base64.Encode | src/Messenger/AvroMessengerSerializer.php:60 | `base64_encode` output always has a length that is a multiple of four |
| Base64.DecodeEncode | src/Messenger/AvroMessengerSerializer.php:57-61 | decoding the key header `encode` writes gives back the encoded key's octets, for every octet string |
| Base64.EncodeDecode | src/Messenger/AvroMessengerSerializer.php:117-124 | every string the strict decoder accepts is the encoding of what it decodes to, so encoding and decoding are inverse in both directions |
| Base64.QuantumCanonical | src/Messenger/AvroMessengerSerializer.php:119 | an accepted four-character group is the encoding of its octets, and only the last group may be padded |
| Envelope.BuildHeaders | src/Messenger/AvroMessengerSerializer.php:48-79 | class and `type` headers equal the metadata's class name. The key-subject and key-payload headers are present exactly when both the key subject and the key payload are non-null, and the payload header is the base64 of the encoded key. The tombstone header is present exactly when the value subject or the value is null; then it is `"1"`, the body is `""` and no value-subject header is set. Otherwise the value-subject header is set and the body is the encoded value. No other header is set. It fails exactly when one of the codec calls fails |
| Envelope.TombstoneMetadataEncodesTombstones | src/Messenger/MessageMetadata.php:38-41 | metadata that allows tombstones (no value subject) always encodes a tombstone with an empty body, whatever the message's value |
| Envelope.EncodeNeedsSchemas | src/Messenger/AvroMessengerSerializer.php:57-75 | encoding fails when the key or value that would be encoded has a subject with no schema in the repository |
| Envelope.Present | src/Messenger/AvroMessengerSerializer.php:191-194 | `array_filter` over optional locators keeps exactly the locators that are set, never more than there were, and the first one comes first when it is set |
| Envelope.DedicatedLocatorFirst | src/Messenger/AvroMessengerSerializer.php:191-194 | of the serializer's two locators, the dedicated header-provider locator is asked first when it is set, then the container |
| Envelope.MergeKeepsUnprovided | src/Messenger/AvroMessengerSerializer.php:174-184 | a header that no provided entry names, with a non-empty string name and a scalar value, keeps its value and is not added |
| Envelope.MergeTakesProvided | src/Messenger/AvroMessengerSerializer.php:174-184 | each provided entry with a non-empty string name and a scalar value overwrites that header with the value cast to string |
| Envelope.FirstLocatorDecides | src/Messenger/AvroMessengerSerializer.php:196-211 | the first locator that has the id decides the outcome: the provider it yields, or the error that the failed `get` or a non-provider service raises |
| Envelope.NoLocatorHas | src/Messenger/AvroMessengerSerializer.php:214 | when no locator has the id, the provider cannot be located |
| Envelope.ReadClass | src/Messenger/AvroMessengerSerializer.php:95-109 | decoding fails when the headers are not an array. It also fails when the class header, or else the `type` header, is not a non-empty string. It also fails when that class is neither the message contract nor a subtype of it. Otherwise it yields the headers and that class |
| Envelope.DecodeKey | src/Messenger/AvroMessengerSerializer.php:117-129 | fails with a decoding error exactly when the key header is a string that is not strict base64. A key comes back only when the key header is a string and the metadata has a key subject |
| Envelope.DecodeValue | src/Messenger/AvroMessengerSerializer.php:131-149 | the value is null exactly when the tombstone header is `"1"`, or the body is a string and either there is no value subject or the body is `""`. A body that is not a string fails exactly when there is no tombstone header `"1"` |
| Envelope.RawHeaders | src/Messenger/AvroMessengerSerializer.php:84-87 | the encoded headers as the transport hands them back: each header name reads back its value, and every other name reads null |
| Envelope.MergeKeepsReserved | src/Messenger/AvroMessengerSerializer.php:174-184 | a provider that leaves the class, `type`, key-payload and tombstone headers alone does not change what `decode` reads from them |
| Envelope.ReservedAfterProvider | src/Messenger/AvroMessengerSerializer.php:81 | after the provider merge, those four headers read as `encode` built them |
| Envelope.ClassRoundTrip | src/Messenger/AvroMessengerSerializer.php:48-51 | the class header `encode` writes reads back, in `decode`, as the metadata's class, when that is a message class or the contract itself and the provider leaves the header alone |
| Envelope.KeyRoundTrip | src/Messenger/AvroMessengerSerializer.php:53-61 | the key header `encode` writes decodes to the key payload, whenever the metadata has a key subject |
| Envelope.ValueRoundTrip | src/Messenger/AvroMessengerSerializer.php:63-79 | the body and tombstone header `encode` writes decode to the value payload. The value is null for a tombstone, and also when the value's Avro encoding is empty |
| Envelope.RoundTrip | tests/Messenger/AvroMessengerSerializerTest.php:46-67 | assume the codec round-trips and the provider leaves the reserved headers alone. Then decoding what `encode` produced, with the metadata `encode` used, reads back the class and gives back the key and value payloads |
| Envelope.SerializerRoundTrip | src/Messenger/AvroMessengerSerializer.php:34-155 | the serializer's own round trip, with `decode` resolving the metadata again from the class header. Assume, besides the two assumptions above, that every cached entry is filed under its own class name. Then the lookup `decode` makes for the class header returns the very metadata `encode` found, with no change to the cache, and `decode` yields `fromAvroPayload` of the original key and value payloads (an error when that class is the contract itself) |
| Envelope.AvroMessengerSerializer.Encode | src/Messenger/AvroMessengerSerializer.php:34-88 | a message that is not an Avro message fails and leaves the registry alone. Otherwise the registry's cache moves as the lookup of the class moves it. The result is the lookup's exception, the missing-metadata error, or the encoding by that metadata |
| Envelope.AvroMessengerSerializer.Decode | src/Messenger/AvroMessengerSerializer.php:93-155 | the header checks fail before the registry is asked. Otherwise the cache moves as the lookup of the class moves it. The result is the lookup's exception, the missing-metadata error, a key or body decoding error, or `fromAvroPayload` of the decoded payloads |
| Envelope.AvroMessengerSerializer.MergeHeadersWithProvider | src/Messenger/AvroMessengerSerializer.php:162-187 | without a provider id, the headers come back unchanged. Otherwise the located provider's entries are laid over them one at a time, in order, as the merge fold does |
| Envelope.AvroMessengerSerializer.LocateHeaderProvider | src/Messenger/AvroMessengerSerializer.php:189-215 | the scan over the locators that are set, in order, returns what the locate function returns |
| MetadataRegistry.MessageMetadataRegistry.constructor | src/Messenger/MessageMetadataRegistry.php:24-37 | one cache entry per configured class, holding the five configured fields unchanged; no class is marked inspected. When every configured `class` equals its key, every entry is filed under its own class name |
| MetadataRegistry.InspectMarker | src/Messenger/MessageMetadataRegistry.php:79-123 | the attribute inspection records at most the class itself and forgets nothing. An existing class is recorded as inspected on every path that does not throw, with or without the attribute. It throws exactly for an existing class not inspected before whose attribute sits on a class that is no message class, and then records nothing. It yields metadata exactly for such a class that is a message class: the serializer as service and the class itself as class name |
| MetadataRegistry.MessageMetadataRegistry.ResolveFromAttribute | src/Messenger/MessageMetadataRegistry.php:79-123 | the method's result and its new set of inspected classes are those of the inspection function above |
| MetadataRegistry.MessageMetadataRegistry.Get | src/Messenger/MessageMetadataRegistry.php:39-69 | the result and the new cache are those of `Resolve` (cache, attribute, parents, interfaces). The cache only grows, and `all()` only gains records |
| MetadataRegistry.MessageMetadataRegistry.FirstFound | src/Messenger/MessageMetadataRegistry.php:52-66 | the scan over parents or interfaces returns the first non-null result or exception, as `FirstOf` does |
| MetadataRegistry.ResolveSound | src/Messenger/MessageMetadataRegistry.php:39-77 | a lookup never forgets an entry or an inspection and never changes an entry. The only entries it adds are attribute metadata of message classes inspected by this lookup. What it returns is a record in the cache, and so in `all()` |
| MetadataRegistry.FirstOfSound | src/Messenger/MessageMetadataRegistry.php:52-66 | the same for the scan over parents or interfaces |
| MetadataRegistry.GrowsTransitive | src/Messenger/MessageMetadataRegistry.php:52-66 | two lookups in a row let the cache grow only as one lookup may |
| MetadataRegistry.FoundIsFiledUnderItsClass | src/Messenger/MessageMetadataRegistry.php:39-69 | when every cached entry is filed under its own class name, a lookup keeps it so, and the record it returns is the cached entry for that record's class |
| MetadataRegistry.CachedEntryWins | src/Messenger/MessageMetadataRegistry.php:41-43 | a configured or cached entry is returned as it is, with no inspection and no change |
| MetadataRegistry.MarkerEntryIsCached | src/Messenger/MessageMetadataRegistry.php:45-50 | a message class whose attribute was not inspected yet gets the serializer as service id, itself as class name and the attribute's subjects and provider. The record is cached, and the next lookup returns it again without any further change |
| MetadataRegistry.MarkerWithoutContractThrows | src/Messenger/MessageMetadataRegistry.php:108-110 | a class with the attribute that is not a message class throws, and is not recorded as inspected |
| MetadataRegistry.InspectedOnce | src/Messenger/MessageMetadataRegistry.php:81-87 | an inspected class, or a name that is no class, never yields attribute metadata again and changes nothing |
| MetadataRegistry.InheritsFromFirstParent | src/Messenger/MessageMetadataRegistry.php:52-58 | a class without entry or attribute takes its first parent's entry, and that entry is not cached under the subclass |
| MetadataRegistry.NothingToFindMonotone | src/Messenger/MessageMetadataRegistry.php:85-87 | inspecting more classes never makes something to find |
| MetadataRegistry.NothingFoundIsNull | src/Messenger/MessageMetadataRegistry.php:68 | with no entry and no attribute left to inspect, on the class and every type above it, the lookup yields null and adds no entry |
| MetadataRegistry.NothingListedIsNull | src/Messenger/MessageMetadataRegistry.php:52-66 | the same for the scan over parents or interfaces |
| Schema.FilterExistingDirectories | src/Schema/SchemaLoader.php:67-73 | a directory is kept exactly when it is configured and exists |
| Schema.Basename | src/Schema/SchemaLoader.php:48 | the basename of a schema file is non-empty and is the name without `.avsc` |
| Schema.Only | src/Schema/SchemaLoader.php:31-32 | the finder lists exactly the files named `*.avsc` that are not dot files |
| Schema.Found | src/Schema/SchemaLoader.php:31-34 | every listed file is a schema file below one of the given directories |
| Schema.FoundSchemaFiles | src/Schema/SchemaLoader.php:31-34 | every file the finder lists carries a schema file name |
| Schema.DecodeSchemaJson | src/Schema/SchemaLoader.php:78-91 | succeeds exactly when the JSON is valid and an array at the top, and yields that array. Invalid JSON gives the invalid-JSON error and anything else the unexpected-structure error, each naming the file |
| Schema.DeriveSubjects | src/Schema/SchemaLoader.php:98-120 | the first subject is the basename. An explicit non-empty `subject` comes second. With a non-empty `name`, `namespace.name` comes next when `namespace` is a non-empty string, and `name` comes last. There are no other subjects |
| Schema.Unique | src/Schema/SchemaLoader.php:50 | `array_unique` keeps exactly the subjects it was given, each once |
| Schema.RegisterLookup | src/Schema/SchemaLoader.php:50-56 | after the inner loop, a subject names a schema exactly when it did before or is a non-empty one of the file's subjects; those name the file's schema and the others keep theirs |
| Schema.RegisterSubjects | src/Schema/SchemaLoader.php:50-56 | the inner loop computes the register fold |
| Schema.ErrorSticks | src/Schema/SchemaLoader.php:41-47 | once a file has aborted the load, later files change nothing |
| Schema.LoadSucceeds | src/Schema/SchemaLoader.php:34-57 | the load succeeds exactly when no non-empty file fails to parse or decode |
| Schema.FirstBadFileAborts | src/Schema/SchemaLoader.php:41-47 | the first bad file decides the error, which names that file |
| Schema.LoadedSubjects | src/Schema/SchemaLoader.php:34-57 | after a successful load, a subject has a schema exactly when some non-empty, well-formed file yields it, and `""` never has one |
| Schema.LoadedSubjectsOf | src/Schema/SchemaLoader.php:22-60 | the same for `load` over the configured directories; with no existing directory, nothing is loaded |
| Schema.LastFileWins | src/Schema/SchemaLoader.php:55 | a subject names the schema of the last file that yields it |
| Schema.LoadStep | src/Schema/SchemaLoader.php:34-57 | one more file extends the load by that file's step |
| Schema.SchemaLoader.Load | src/Schema/SchemaLoader.php:22-60 | the nested loops compute `Loaded` over the configured directories |
| Schema.RefreshAsWrittenAlwaysThrows | src/Schema/SchemaRepository.php:29-34 | as written, every refresh throws; after a successful load, the schemas are replaced but references and full names stay stale |
| Schema.ConstructionAsWrittenThrows | src/Schema/SchemaRepository.php:24-27 | as written, constructing a repository throws for every file system and every configured directory list. When the load succeeds, it throws for the undefined call. The load does succeed at least when no directory exists |
| Schema.SchemaRepository.Create | src/Schema/SchemaRepository.php:24-27 | construction refreshes once. A failed load is the constructor's exception. Otherwise the repository holds the loaded schemas and the loader's references and full names |
| Schema.SchemaRepository.Refresh | src/Schema/SchemaRepository.php:29-34 | the schemas, references and full names are replaced wholesale by the loader's outputs; a failed load changes nothing |
| Schema.SchemaRepository.Get | src/Schema/SchemaRepository.php:41-48 | succeeds exactly when `has` holds, with the schema `all()` holds under the subject; otherwise fails with not-found for that subject |
| Schema.SchemaRepository.All | src/Schema/SchemaRepository.php:36-56 | `all()` has exactly the subjects `has` holds for |
| Schema.SchemaRepository.References | src/Schema/SchemaRepository.php:61-64 | the stored references, or `[]` for a subject without an entry |
| Schema.SchemaRepository.FullName | src/Schema/SchemaRepository.php:66-69 | the stored full name, or null exactly when the subject has no entry |
| Schema.SchemaRepository.HasLoadedSubject | src/Schema/SchemaRepository.php:36-39 | after a refresh, `has` holds exactly for the subjects some schema file yields |
| SchemaRegistry.InMemoryRegistry.constructor | tests/Fixtures/Schema/InMemoryRegistry.php:15-20 | empty maps, next id 1, and the registry invariant holds |
| SchemaRegistry.InMemoryRegistry.Register | tests/Fixtures/Schema/InMemoryRegistry.php:22-39 | keeps the invariant: ids below the next id, distinct per subject, version 1. Afterwards `schemaId` gives the returned id and `schemaForId` of it gives the schema. For the same schema key as stored, it returns the stored id and changes nothing. Otherwise it returns the old next id, which exceeds every id handed out before; the next id grows by one, and the subject and id maps gain exactly the new entry |
| SchemaRegistry.InMemoryRegistry.SchemaVersion | tests/Fixtures/Schema/InMemoryRegistry.php:41-48 | subject-not-found exactly for an unknown subject; otherwise version 1 |
| SchemaRegistry.InMemoryRegistry.LatestVersion | tests/Fixtures/Schema/InMemoryRegistry.php:50-57 | subject-not-found exactly for an unknown subject; otherwise the schema stored under the subject's id |
| SchemaRegistry.InMemoryRegistry.SchemaId | tests/Fixtures/Schema/InMemoryRegistry.php:59-71 | subject-not-found for an unknown subject, and schema-not-found when the stored schema's key differs. An id comes back only for the stored schema, and that id maps back to it |
| SchemaRegistry.InMemoryRegistry.SchemaForId | tests/Fixtures/Schema/InMemoryRegistry.php:73-80 | schema-not-found exactly for an id never handed out; every id found lies below the next id |
| SchemaRegistry.InMemoryRegistry.SchemaForSubjectAndVersion | tests/Fixtures/Schema/InMemoryRegistry.php:82-89 | the requested version is ignored: the answer is the latest version's |
| CompilerPass.CheckProvider | src/DependencyInjection/Compiler/MessageMetadataCompilerPass.php:65-74 | a provider passes exactly when it is a service whose class implements the header-provider interface |
| CompilerPass.WithDefaults | src/DependencyInjection/Compiler/MessageMetadataCompilerPass.php:50-56 | a missing or empty `class` becomes the entry's key, or `''` for an integer key. A missing or empty `service_id` becomes the serializer class. Every other field stays as it was |
| CompilerPass.Stringified | src/DependencyInjection/Compiler/MessageMetadataCompilerPass.php:126-127 | a tag subject stays null when null and otherwise becomes a string |
| CompilerPass.TagEntry | src/DependencyInjection/Compiler/MessageMetadataCompilerPass.php:123-125 | an accepted tag's entry has a non-empty class name as `class` and the tagged service as `service_id`, and any provider it names passed the provider check |
| CompilerPass.TagEntryOutcome | src/DependencyInjection/Compiler/MessageMetadataCompilerPass.php:93-129 | a tag fails for want of a class exactly when `class_name`, if set and not null, or else `class`, is not a non-empty string; an empty or non-string `class_name` does not fall back to `class`. With a class, it fails for a non-string provider exactly when `header_provider` is set and not a string. It is accepted exactly when it has a class and its provider is absent or a string naming a valid provider; otherwise the provider check's error is thrown. The entry has exactly the five fields: the class, the tagged service, both subjects cast to strings when set, and the provider as given. A provider is reported exactly when `header_provider` is set |
| CompilerPass.LocatorFor | src/DependencyInjection/Compiler/MessageMetadataCompilerPass.php:138-148 | the locator argument is null exactly when no provider was seen, and otherwise covers exactly the providers seen |
| CompilerPass.CollectApproved | src/DependencyInjection/Compiler/MessageMetadataCompilerPass.php:33-42 | the first loop succeeds exactly when every tagged service has a class that implements the interface. Then the map gains exactly the ids of the tagged services, each approved |
| CompilerPass.CollectRejects | src/DependencyInjection/Compiler/MessageMetadataCompilerPass.php:37-39 | when the first loop throws, the exception names the first tagged service without such a class |
| CompilerPass.NormalizeApproved | src/DependencyInjection/Compiler/MessageMetadataCompilerPass.php:58-77 | the second loop succeeds exactly when every entry that is an array has no header provider, or a non-empty string naming a valid provider. Then the map gains exactly the providers these entries name, each passed the provider check |
| CompilerPass.NormalizeRejects | src/DependencyInjection/Compiler/MessageMetadataCompilerPass.php:60-74 | when the second loop throws, it is for the first array entry it rejects. A provider that is no non-empty string gives the non-empty-string exception naming the class after defaults. An unknown service gives not-found, and a service without a provider class gives the must-implement exception |
| CompilerPass.ServiceTagsApproved | src/DependencyInjection/Compiler/MessageMetadataCompilerPass.php:108-121 | every provider a serializer's tags add passed the provider check |
| CompilerPass.ApplyTagsApproved | src/DependencyInjection/Compiler/MessageMetadataCompilerPass.php:81-131 | the same across all tagged serializer services |
| CompilerPass.ServiceTagsSucceed | src/DependencyInjection/Compiler/MessageMetadataCompilerPass.php:93-130 | a serializer service's tags are applied exactly when every one of them is accepted, and then the map gains exactly the providers they name |
| CompilerPass.ServiceTagsReject | src/DependencyInjection/Compiler/MessageMetadataCompilerPass.php:93-121 | when a serializer service's tags are rejected, the first tag that is not accepted decides the exception |
| CompilerPass.ApplyTagsSucceed | src/DependencyInjection/Compiler/MessageMetadataCompilerPass.php:81-131 | the third loop succeeds exactly when every tag of every serializer service is accepted. Then the map keeps what it had and gains every provider such a tag names |
| CompilerPass.SerializerTagProvidersCons | src/DependencyInjection/Compiler/MessageMetadataCompilerPass.php:81-131 | the providers the serializer tags name are those of the first service, when its class is a serializer, together with those of the rest |
| CompilerPass.ApplyTagsProviders | src/DependencyInjection/Compiler/MessageMetadataCompilerPass.php:81-131 | when the third loop succeeds, the map ends as what it had plus exactly the providers the serializer services' tags name, nothing else |
| CompilerPass.ProcessingSucceeds | src/DependencyInjection/Compiler/MessageMetadataCompilerPass.php:19-131 | `process` succeeds exactly when the parameter is absent, or when the three checks all pass: every tagged provider implements the interface, every configured provider is accepted, and every tag of every serializer service is accepted |
| CompilerPass.ProvidersApproved | src/DependencyInjection/Compiler/MessageMetadataCompilerPass.php:19-149 | the providers handed to the locator are exactly the tagged providers, the providers the configured entries name and the providers the serializer tags name, and nothing else. Every one of them was approved |
| CompilerPass.NormalizeKeepsArrays | src/DependencyInjection/Compiler/MessageMetadataCompilerPass.php:44-78 | the normalised parameter is exactly the entries that are arrays, in order, each completed with its defaults. So exactly the array keys stay, each entry with a string `class` and `service_id` |
| CompilerPass.NormalizedLookup | src/DependencyInjection/Compiler/MessageMetadataCompilerPass.php:44-78 | after normalisation, the parameter read under an array entry's key is that entry with its defaults |
| CompilerPass.ServiceTagsWellFormed | src/DependencyInjection/Compiler/MessageMetadataCompilerPass.php:123-129 | entries written by tags are well formed too |
| CompilerPass.ApplyTagsWellFormed | src/DependencyInjection/Compiler/MessageMetadataCompilerPass.php:81-131 | the same across all tagged serializer services |
| CompilerPass.WrittenBackWellFormed | src/DependencyInjection/Compiler/MessageMetadataCompilerPass.php:133 | every entry written back is an array with a string `class` and `service_id` |
| CompilerPass.OtherTagsKeep | src/DependencyInjection/Compiler/MessageMetadataCompilerPass.php:123 | tags for other classes leave an entry as it was |
| CompilerPass.LastTagWins | src/DependencyInjection/Compiler/MessageMetadataCompilerPass.php:123-129 | the last tag naming a class overwrites that class's entry, with the tagged service as `service_id` |
| CompilerPass.CheckTaggedProviders | src/DependencyInjection/Compiler/MessageMetadataCompilerPass.php:33-42 | the first loop computes the provider-collection fold |
| CompilerPass.NormalizeEntries | src/DependencyInjection/Compiler/MessageMetadataCompilerPass.php:44-79 | the second loop computes the normalisation fold |
| CompilerPass.ApplyTagsOf | src/DependencyInjection/Compiler/MessageMetadataCompilerPass.php:93-130 | the loop over one service's tags computes the tag fold |
| CompilerPass.ApplySerializerTags | src/DependencyInjection/Compiler/MessageMetadataCompilerPass.php:81-131 | the loop over tagged serializer services computes the service fold, skipping those without a serializer class |
| CompilerPass.Process | src/DependencyInjection/Compiler/MessageMetadataCompilerPass.php:19-150 | without the parameter, nothing changes; on an error, nothing changes. Otherwise the processed metadata is written back and, when the serializer is defined, its locator argument is set from the providers seen |
| Extension.OptionalString | src/DependencyInjection/ChargecloudAvroMessengerSerializerExtension.php:155-157 | an optional field is null exactly when it is absent, null or `""`, and otherwise its string cast |
| Extension.NormalizeConfiguredMessages | src/DependencyInjection/ChargecloudAvroMessengerSerializerExtension.php:139-162 | the loop computes the normalisation fold, with its two invalid-argument errors |
| Extension.NormalizeSucceeds | src/DependencyInjection/ChargecloudAvroMessengerSerializerExtension.php:143-150 | normalisation succeeds exactly when every key is a non-empty string and every value an array |
| Extension.NormalizeKeys | src/DependencyInjection/ChargecloudAvroMessengerSerializerExtension.php:143-152 | the output has exactly the configured keys |
| Extension.NormalizeKeepsOthers | src/DependencyInjection/ChargecloudAvroMessengerSerializerExtension.php:152 | a key not configured keeps what it had |
| Extension.NormalizeEntry | src/DependencyInjection/ChargecloudAvroMessengerSerializerExtension.php:152-158 | each configured class gets the serializer as `service_id`, itself as `class` and its three optional fields |
| Extension.ConfiguredEntryComplete | src/DependencyInjection/Compiler/MessageMetadataCompilerPass.php:50-56 | the compiler pass's defaults leave a configured entry as it is, and its provider is null or a string |
| Extension.CreateHttpClientConfig | src/DependencyInjection/ChargecloudAvroMessengerSerializerExtension.php:54-71 | the four connection options are copied, and `auth` is `[username, password]`, present exactly when both are non-null |

## Left out

- Avro itself is not modelled: the binary encoding, `AvroSchema::parse` and the FlixTech record serializer. The record encoder of src/Messenger/RecordEncoder.php is an abstract pair of functions. The round trip assumes `decode(s, encode(s, p)) == p`. `Envelope.EncodeNeedsSchemas` assumes that encoding fails for a subject without a schema. A schema is known by its JSON form. Whether a file parses is part of the file record.
- The record encoder's normalisation of decoded objects through `json_encode`/`json_decode` is not modelled; the codec returns arrays.
- Base64.Decode: PHP's strict `base64_decode` also skips whitespace, accepts missing padding and ignores non-zero pad bits. The model accepts only canonical encodings. `encode` only writes canonical encodings.
- Reflection and the runtime type system are an explicit type table. This covers `class_exists`, the attribute, `implementsInterface`, `is_subclass_of`, `class_parents`, `class_implements` and `is_a`. PHP class names are case-insensitive; the model compares them exactly. The hierarchy is assumed acyclic, as PHP guarantees. A `ReflectionException` (line 91 of src/Messenger/MessageMetadataRegistry.php) cannot happen for an existing class and is not modelled.
- The message contract's own name has no concrete class, so `fromAvroPayload` cannot be called on it. `Envelope.AvroMessengerSerializer.Decode` models that call as an error. Each class's `fromAvroPayload` is a parameter, and exceptions it may throw are not modelled.
- Header order is not modelled: encoded headers are a map. `all()` of the metadata registry is a set, so it has no order and no duplicates.
- PHP turns numeric-string array keys into integers. The model keeps subject and class keys as strings.
- Floats are kept as their text, and the `(string)` cast of a float uses that text.
- The file system is a given map from existing directories to the files below them, in the finder's order.
- Of the finder's filters, only the name pattern and dot files are modelled. Its ignoring of VCS and hidden directories is not.
- `is_dir`, `getContents` and `getRealPath` are fields of the file record.
- Error messages are modelled as the path they name, not their text.
- The compiler pass's `foreach` by reference is modelled as building a new ordered array; the unset entries are left out of it.
- `ServiceLocatorTagPass::register` is collapsed into the locator argument `LocatorOf(providers)`.
- `findDefinition` alias resolution is folded into the service table.
- The container plumbing is not modelled: the extension's `load`/`register*` methods, the configuration tree, both bundle classes and the test kernel. The configuration's registry options are the typed record `RegistryConfig`.
- The HTTP transport, the promising/blocking/cached registry chain, and the in-memory registry's `*Async` methods (which only throw) are not modelled.
- SchemaRegistry.InMemoryRegistry.Register: PHP's integer overflow of the next id is not modelled; ids are unbounded. The registry's `$references` argument is ignored, as in the source.
- Two test assertions contradict the code, and the model follows the code. tests/Messenger/AvroMessengerSerializerTest.php:77 expects a null body for a tombstone, but `encode` returns `""`. Lines 124-130 of that test expect a top-level `key` entry that `encode` never produces.
- TagEntry: its own contract gives only the class, the service id and the provider check. The full outcome of a tag (each exception, each field of its entry) is stated by `CompilerPass.TagEntryOutcome` about it. This keeps that larger statement out of the proofs about the tag loops.
- Envelope.SerializerRoundTrip: the round trip through the serializer holds only when each cached entry is filed under its own class name. The compiler pass's default makes a missing `class` the entry's key, and attribute metadata always names its own class. A configured entry whose `class` differs from its key breaks the premise: then `decode` resolves the class header to another entry, or to none.
- Extension.ConfiguredEntryComplete: the provider field is stated as null or a string, not a non-empty string. `(string) false` is `""`, so a configured `false` yields an empty provider. The compiler pass then rejects that provider.
- MessageMetadata: the accessors are the datatype's fields, so they need no members of their own. A value of the datatype cannot be changed. `serviceId` and `className` are plain strings; the three other fields are optional.

## Findings

| source | as written | input that shows it | evidently intended | confidence | as-written member | corrected member |
|---|---|---|---|---|---|---|
| src/Schema/SchemaRepository.php:29-34 | `refresh` calls `references()` and `fullNames()` on the schema loader, which defines neither; the schemas are assigned first, so the call throws with the schemas replaced and the other two maps stale, and since the constructor refreshes, no repository can be constructed | any repository construction, e.g. over a loader whose directories do not exist (the load yields `[]`, then the call throws) | `refresh` replaces schemas, references and full names together with what the loader reports | not executed | Schema.RefreshAsWrittenAlwaysThrows | Schema.SchemaRepository.Refresh |
