/**
 * The Messenger serializer: turns a message into a transport envelope
 * (`body` plus `headers`) and back, using the message's metadata, an Avro record
 * codec for the key and value payloads, base64 for the key in a header, and an
 * optional header provider found through an ordered chain of service locators.
 */
module Envelope {
  import opened Wrappers
  import opened Php
  import opened Types
  import opened Metadata
  import Base64
  import MetadataRegistry

  const HeaderType: string := "type"
  const HeaderKeySubject: string := "x-chargecloud-avro-key-subject"
  const HeaderValueSubject: string := "x-chargecloud-avro-value-subject"
  const HeaderClass: string := "x-chargecloud-avro-class"
  const HeaderKeyPayload: string := "x-chargecloud-avro-key"
  const HeaderTombstone: string := "x-chargecloud-avro-tombstone"

  /** A key or value record: `array<string, mixed>`. */
  type Payload = map<string, Raw>

  /** A message object: its class and what `avroKeyPayload()` and `avroValuePayload()` return. */
  datatype Message = Message(cls: string, key: Option<Payload>, value: Option<Payload>)

  /** Why `decode` throws `MessageDecodingFailedException`. */
  datatype DecodeFailure =
    | HeadersNotArray
    | MissingClass
    | NotAMessageClass(cls: string)
    | NoMetadataFor(cls: string)
    | BadKeyPayload
    | BodyNotString

  /** What `encode` and `decode` throw. */
  datatype Error =
    | NotAMessage(cls: string)                        // LogicException
    | NoMetadata(cls: string)                         // LogicException
    | MetadataFailed(cause: MetadataRegistry.Error)   // LogicException from the registry
    | CodecFailed(reason: string)                     // from the record encoder
    | ProviderNotResolved(id: string)                 // LogicException: the locator's get() threw
    | NotAProvider(id: string)                        // LogicException
    | ProviderNotLocated(id: string)                  // LogicException
    | DecodingFailed(failure: DecodeFailure)          // MessageDecodingFailedException
    | AbstractFactory(cls: string)                    // Error: fromAvroPayload called on the interface

  /**
   * The record encoder: Avro-encodes a payload under a subject, and decodes it back.
   * Either may fail, for one when the subject has no schema in the repository.
   */
  datatype RecordCodec = RecordCodec(
    encode: (string, Payload) -> Result<seq<byte>, string>,
    decode: (string, seq<byte>) -> Result<Payload, string>)
  {
    /** Decoding what was encoded under the same subject gives the payload back. */
    ghost predicate RoundTrips() {
      forall subject, p :: encode(subject, p).Ok? ==> decode(subject, encode(subject, p).value) == Ok(p)
    }

    /** Encoding fails under a subject that has no schema in the repository. */
    ghost predicate NeedsSchema(subjects: set<string>) {
      forall subject, p :: subject !in subjects ==> encode(subject, p).Err?
    }

  }

  /** A header provider: `headersForMessage($message)`, an array that may hold any key and value. */
  datatype HeaderProvider = HeaderProvider(headersFor: Message -> seq<(Key, Raw)>)

  /** What a locator's `get($id)` returns: a header provider or some other service. */
  datatype Service = Provider(provider: HeaderProvider) | OtherService

  /**
   * A PSR container: `has($id)` holds for the ids in `services`; `get($id)` then
   * returns the service, or throws where the entry is `None`.
   */
  datatype Locator = Locator(services: map<string, Option<Service>>)

  /** What `encode` returns: the body and the headers. */
  datatype Encoded = Encoded(body: string, headers: map<string, string>)

  // ---------------------------------------------------------------- encode

  /**
   * The headers and body `encode` builds before the header provider runs: the class
   * under both class headers, the key when there is a key subject and a key, and the
   * value, or a tombstone when there is no value subject or no value.
   */
  function BuildHeaders(md: MessageMetadata, m: Message, codec: RecordCodec): (r: Result<Encoded, Error>)
    ensures r.Ok? ==> var h := r.value.headers;
      && HeaderClass in h && h[HeaderClass] == md.className
      && HeaderType in h && h[HeaderType] == md.className
      && (HeaderKeySubject in h <==> md.keySubject.Some? && m.key.Some?)
      && (HeaderKeyPayload in h <==> md.keySubject.Some? && m.key.Some?)
      && (HeaderKeySubject in h ==>
            h[HeaderKeySubject] == md.keySubject.value
            && codec.encode(md.keySubject.value, m.key.value).Ok?
            && h[HeaderKeyPayload] == Base64.Encode(codec.encode(md.keySubject.value, m.key.value).value))
      && (HeaderTombstone in h <==> md.valueSubject.None? || m.value.None?)
      && (HeaderTombstone in h ==> h[HeaderTombstone] == "1" && r.value.body == "" && HeaderValueSubject !in h)
      && (HeaderTombstone !in h ==>
            && HeaderValueSubject in h && h[HeaderValueSubject] == md.valueSubject.value
            && codec.encode(md.valueSubject.value, m.value.value).Ok?
            && r.value.body == Text(codec.encode(md.valueSubject.value, m.value.value).value))
      && h.Keys <= {HeaderClass, HeaderType, HeaderKeySubject, HeaderKeyPayload, HeaderValueSubject, HeaderTombstone}
    ensures r.Err? <==>
      || (md.keySubject.Some? && m.key.Some? && codec.encode(md.keySubject.value, m.key.value).Err?)
      || (md.valueSubject.Some? && m.value.Some? && codec.encode(md.valueSubject.value, m.value.value).Err?)
  {
    var base := map[HeaderClass := md.className, HeaderType := md.className];
    var keyed :-
      if md.keySubject.Some? && m.key.Some? then
        match codec.encode(md.keySubject.value, m.key.value)
        case Err(reason) => Err(CodecFailed(reason))
        case Ok(encodedKey) =>
          Ok(base[HeaderKeySubject := md.keySubject.value][HeaderKeyPayload := Base64.Encode(encodedKey)])
      else Ok(base);
    if md.valueSubject.None? || m.value.None? then
      Ok(Encoded("", keyed[HeaderTombstone := "1"]))
    else
      match codec.encode(md.valueSubject.value, m.value.value)
      case Err(reason) => Err(CodecFailed(reason))
      case Ok(body) => Ok(Encoded(Text(body), keyed[HeaderValueSubject := md.valueSubject.value]))
  }

  /** Metadata without a value subject always encodes a tombstone: an empty body, whatever the message's value. */
  lemma TombstoneMetadataEncodesTombstones(md: MessageMetadata, m: Message, codec: RecordCodec)
    requires md.AllowsTombstone() && BuildHeaders(md, m, codec).Ok?
    ensures BuildHeaders(md, m, codec).value.body == ""
    ensures BuildHeaders(md, m, codec).value.headers[HeaderTombstone] == "1"
    ensures HeaderValueSubject !in BuildHeaders(md, m, codec).value.headers
  {
  }

  /** A message whose key or value subject has no schema cannot be encoded. */
  lemma EncodeNeedsSchemas(md: MessageMetadata, m: Message, codec: RecordCodec, locators: seq<Locator>, subjects: set<string>)
    requires codec.NeedsSchema(subjects)
    requires || (md.keySubject.Some? && m.key.Some? && md.keySubject.value !in subjects)
             || (md.valueSubject.Some? && m.value.Some? && md.valueSubject.value !in subjects)
    ensures EncodeWith(md, m, codec, locators).Err?
  {
    if md.keySubject.Some? && m.key.Some? && md.keySubject.value !in subjects {
      assert codec.encode(md.keySubject.value, m.key.value).Err?;
    } else {
      assert codec.encode(md.valueSubject.value, m.value.value).Err?;
    }
  }

  /** One provided header, kept when its name is a non-empty string and its value a scalar. */
  function Accept(headers: map<string, string>, entry: (Key, Raw)): map<string, string> {
    if entry.0.StrKey? && entry.0.s != "" && IsScalar(entry.1) then headers[entry.0.s := ToStr(entry.1)]
    else headers
  }

  /** The provided headers laid over `headers`, in the provider's order. */
  function Merge(headers: map<string, string>, provided: seq<(Key, Raw)>): map<string, string>
    decreases |provided|
  {
    if provided == [] then headers
    else Accept(Merge(headers, provided[..|provided| - 1]), provided[|provided| - 1])
  }

  /** What a locator that has `id` makes of it: its provider, or the reason it has none. */
  function Obtain(entry: Option<Service>, id: string): Result<HeaderProvider, Error> {
    match entry
    case None => Err(ProviderNotResolved(id))
    case Some(Provider(p)) => Ok(p)
    case Some(OtherService) => Err(NotAProvider(id))
  }

  /** The provider that the first locator knowing `id` yields. */
  function Locate(locators: seq<Locator>, id: string): Result<HeaderProvider, Error> {
    if locators == [] then Err(ProviderNotLocated(id))
    else if id !in locators[0].services then Locate(locators[1..], id)
    else Obtain(locators[0].services[id], id)
  }

  /** `array_filter([$headerProviderLocator, $container])`: the locators that are set, in order. */
  function Present(locators: seq<Option<Locator>>): (r: seq<Locator>)
    ensures |r| <= |locators|
    ensures forall l :: l in r <==> Some(l) in locators
    ensures |locators| > 0 && locators[0].Some? ==> |r| > 0 && r[0] == locators[0].value
  {
    if locators == [] then []
    else
      assert locators == [locators[0]] + locators[1..];
      (if locators[0].Some? then [locators[0].value] else []) + Present(locators[1..])
  }

  /** Of the two locators the serializer holds, the dedicated one comes first when it is set, then the container. */
  lemma DedicatedLocatorFirst(dedicated: Option<Locator>, container: Option<Locator>)
    ensures Present([dedicated, container]) ==
      (if dedicated.Some? then [dedicated.value] else []) + (if container.Some? then [container.value] else [])
  {
    assert [dedicated, container][1..] == [container];
    assert [container][1..] == [];
  }

  /** `mergeHeadersWithProvider`: the headers unchanged without a provider, else with the provider's laid over them. */
  function WithProvider(headers: map<string, string>, md: MessageMetadata, m: Message, locators: seq<Locator>): Result<map<string, string>, Error> {
    match md.headerProviderServiceId
    case None => Ok(headers)
    case Some(id) =>
      var provider :- Locate(locators, id);
      Ok(Merge(headers, provider.headersFor(m)))
  }

  /** `encode` once the metadata is known. */
  function EncodeWith(md: MessageMetadata, m: Message, codec: RecordCodec, locators: seq<Locator>): Result<Encoded, Error> {
    var built :- BuildHeaders(md, m, codec);
    var headers :- WithProvider(built.headers, md, m, locators);
    Ok(Encoded(built.body, headers))
  }

  // ---------------------------------------------------------------- decode

  /**
   * The first checks of `decode`: the headers must be an array, the class header (or
   * else the `type` header) a non-empty string naming the message contract or one of
   * its subtypes. Yields the headers and the class name.
   */
  function ReadClass(envelope: map<Key, Raw>, t: TypeTable): (r: Result<(map<Key, Raw>, string), Error>)
    ensures r.Ok? ==> r.value.1 != "" && (r.value.1 in t.messageTypes || r.value.1 == MessageInterface)
    ensures r == Err(DecodingFailed(HeadersNotArray)) <==> !FieldOr(envelope, "headers", Arr(map[])).Arr?
    ensures FieldOr(envelope, "headers", Arr(map[])).Arr? ==>
      var headers := FieldOr(envelope, "headers", Arr(map[])).entries;
      var className := FieldOr(headers, HeaderClass, Field(headers, HeaderType));
      && (r == Err(DecodingFailed(MissingClass)) <==> !IsNonEmptyString(className))
      && (r.Ok? <==> IsNonEmptyString(className) && (className.s in t.messageTypes || className.s == MessageInterface))
      && (r.Ok? ==> r.value == (headers, className.s))
  {
    var headers := FieldOr(envelope, "headers", Arr(map[]));
    if !headers.Arr? then Err(DecodingFailed(HeadersNotArray))
    else
      var className := FieldOr(headers.entries, HeaderClass, Field(headers.entries, HeaderType));
      if !IsNonEmptyString(className) then Err(DecodingFailed(MissingClass))
      else if className.s !in t.messageTypes && className.s != MessageInterface then
        Err(DecodingFailed(NotAMessageClass(className.s)))
      else Ok((headers.entries, className.s))
  }

  /** The key payload `decode` reads: base64 in its header, Avro under the metadata's key subject. */
  function DecodeKey(headers: map<Key, Raw>, md: MessageMetadata, codec: RecordCodec): (r: Result<Option<Payload>, Error>)
    ensures r == Err(DecodingFailed(BadKeyPayload)) <==>
      Field(headers, HeaderKeyPayload).Str? && Base64.Decode(Field(headers, HeaderKeyPayload).s).None?
    ensures r.Ok? && r.value.Some? ==> Field(headers, HeaderKeyPayload).Str? && md.keySubject.Some?
  {
    var header := Field(headers, HeaderKeyPayload);
    if !header.Str? then Ok(None)
    else match Base64.Decode(header.s)
      case None => Err(DecodingFailed(BadKeyPayload))
      case Some(binaryKey) =>
        if md.keySubject.None? then Ok(None)
        else match codec.decode(md.keySubject.value, binaryKey)
          case Err(reason) => Err(CodecFailed(reason))
          case Ok(key) => Ok(Some(key))
  }

  /** The value payload `decode` reads from the body: null for a tombstone. */
  function DecodeValue(envelope: map<Key, Raw>, headers: map<Key, Raw>, md: MessageMetadata, codec: RecordCodec): (r: Result<Option<Payload>, Error>)
    ensures r.Ok? && r.value.None? <==>
      || Field(headers, HeaderTombstone) == Str("1")
      || (FieldOr(envelope, "body", Str("")).Str? && (md.valueSubject.None? || FieldOr(envelope, "body", Str("")).s == ""))
    ensures r == Err(DecodingFailed(BodyNotString)) <==>
      Field(headers, HeaderTombstone) != Str("1") && !FieldOr(envelope, "body", Str("")).Str?
  {
    var body := FieldOr(envelope, "body", Str(""));
    if Field(headers, HeaderTombstone) == Str("1") then Ok(None)
    else if !body.Str? then Err(DecodingFailed(BodyNotString))
    else if md.valueSubject.None? || body.s == "" then Ok(None)
    else match codec.decode(md.valueSubject.value, Octets(body.s))
      case Err(reason) => Err(CodecFailed(reason))
      case Ok(value) => Ok(Some(value))
  }

  /** The payloads `decode` hands to the class's `fromAvroPayload`, once the metadata is known. */
  function DecodeWith(envelope: map<Key, Raw>, headers: map<Key, Raw>, md: MessageMetadata, codec: RecordCodec): Result<(Option<Payload>, Option<Payload>), Error> {
    var key :- DecodeKey(headers, md, codec);
    var value :- DecodeValue(envelope, headers, md, codec);
    Ok((key, value))
  }

  /** The array the transport hands back to `decode` for an encoded envelope. */
  function Transported(e: Encoded): map<Key, Raw> {
    map[StrKey("body") := Str(e.body), StrKey("headers") := Arr(RawHeaders(e.headers))]
  }

  function RawHeaders(headers: map<string, string>): (r: map<Key, Raw>)
    ensures forall name :: Field(r, name) == if name in headers then Str(headers[name]) else Null
  {
    map name | name in headers :: StrKey(name) := Str(headers[name])
  }

  // ---------------------------------------------------------------- properties

  /** An accepted provided header named `name`. */
  predicate Provides(entry: (Key, Raw), name: string) {
    entry.0 == StrKey(name) && name != "" && IsScalar(entry.1)
  }

  /** A header the provider does not supply keeps its value, and is not added. */
  lemma {:induction false} MergeKeepsUnprovided(headers: map<string, string>, provided: seq<(Key, Raw)>, name: string)
    requires forall i :: 0 <= i < |provided| ==> !Provides(provided[i], name)
    ensures name in Merge(headers, provided) <==> name in headers
    ensures name in headers ==> Merge(headers, provided)[name] == headers[name]
    decreases |provided|
  {
    if provided != [] {
      var n := |provided| - 1;
      assert !Provides(provided[n], name);
      MergeKeepsUnprovided(headers, provided[..n], name);
    }
  }

  /** A header the provider supplies with a non-empty string name and a scalar value takes that value as a string. */
  lemma {:induction false} MergeTakesProvided(headers: map<string, string>, provided: seq<(Key, Raw)>, i: nat)
    requires DistinctKeys(provided)
    requires i < |provided| && provided[i].0.StrKey? && Provides(provided[i], provided[i].0.s)
    ensures provided[i].0.s in Merge(headers, provided)
    ensures Merge(headers, provided)[provided[i].0.s] == ToStr(provided[i].1)
    decreases |provided|
  {
    var n := |provided| - 1;
    var prefix := provided[..n];
    if i < n {
      assert DistinctKeys(prefix) by {
        forall a, b | 0 <= a < b < |prefix| ensures prefix[a].0 != prefix[b].0 {
          assert prefix[a] == provided[a] && prefix[b] == provided[b];
        }
      }
      assert prefix[i] == provided[i];
      MergeTakesProvided(headers, prefix, i);
      assert provided[n].0 != provided[i].0;
    }
  }

  /** The first locator that has `id` decides: its provider, or the error it leads to. */
  lemma {:induction false} FirstLocatorDecides(locators: seq<Locator>, id: string, k: nat)
    requires k < |locators| && id in locators[k].services
    requires forall j :: 0 <= j < k ==> id !in locators[j].services
    ensures Locate(locators, id) == Obtain(locators[k].services[id], id)
    decreases k
  {
    if k > 0 {
      assert id !in locators[0].services;
      FirstLocatorDecides(locators[1..], id, k - 1);
    }
  }

  /** No locator has `id`: the provider cannot be located. */
  lemma {:induction false} NoLocatorHas(locators: seq<Locator>, id: string)
    requires forall j :: 0 <= j < |locators| ==> id !in locators[j].services
    ensures Locate(locators, id) == Err(ProviderNotLocated(id))
    decreases |locators|
  {
    if locators != [] {
      assert id !in locators[0].services;
      NoLocatorHas(locators[1..], id);
    }
  }

  /** The headers `decode` reads back; a provider that leaves them alone keeps the round trip. */
  predicate LeavesReserved(provided: seq<(Key, Raw)>) {
    forall i :: 0 <= i < |provided| ==>
      provided[i].0 != StrKey(HeaderClass) && provided[i].0 != StrKey(HeaderType)
      && provided[i].0 != StrKey(HeaderKeyPayload) && provided[i].0 != StrKey(HeaderTombstone)
  }

  /**
   * The payloads that come back from an encoded message: the key when the metadata has a
   * key subject, the value when it has a value subject and its Avro encoding is not empty.
   */
  ghost function Expected(md: MessageMetadata, m: Message, codec: RecordCodec): (Option<Payload>, Option<Payload>) {
    ( if md.keySubject.Some? then m.key else None,
      if md.valueSubject.Some? && m.value.Some? && codec.encode(md.valueSubject.value, m.value.value) != Ok([])
      then m.value else None )
  }

  /** The provided headers do not touch the headers `decode` reads. */
  lemma MergeKeepsReserved(headers: map<string, string>, provided: seq<(Key, Raw)>, name: string)
    requires LeavesReserved(provided)
    requires name in {HeaderClass, HeaderType, HeaderKeyPayload, HeaderTombstone}
    ensures Field(RawHeaders(Merge(headers, provided)), name) == Field(RawHeaders(headers), name)
  {
    MergeKeepsUnprovided(headers, provided, name);
  }

  /** `encode` leaves a reserved header as it was built before the provider ran. */
  lemma ReservedAfterProvider(md: MessageMetadata, m: Message, codec: RecordCodec, locators: seq<Locator>, name: string)
    requires EncodeWith(md, m, codec, locators).Ok?
    requires md.headerProviderServiceId.Some? && Locate(locators, md.headerProviderServiceId.value).Ok? ==>
      LeavesReserved(Locate(locators, md.headerProviderServiceId.value).value.headersFor(m))
    requires name in {HeaderClass, HeaderType, HeaderKeyPayload, HeaderTombstone}
    ensures Field(RawHeaders(EncodeWith(md, m, codec, locators).value.headers), name)
         == Field(RawHeaders(BuildHeaders(md, m, codec).value.headers), name)
  {
    var built := BuildHeaders(md, m, codec).value;
    if md.headerProviderServiceId.Some? {
      MergeKeepsReserved(built.headers, Locate(locators, md.headerProviderServiceId.value).value.headersFor(m), name);
    }
  }

  /** The key header as `encode` builds it decodes to the key payload. */
  lemma KeyRoundTrip(headers: map<Key, Raw>, md: MessageMetadata, m: Message, codec: RecordCodec)
    requires codec.RoundTrips()
    requires BuildHeaders(md, m, codec).Ok?
    requires Field(headers, HeaderKeyPayload) == Field(RawHeaders(BuildHeaders(md, m, codec).value.headers), HeaderKeyPayload)
    ensures DecodeKey(headers, md, codec) == Ok(Expected(md, m, codec).0)
  {
    if md.keySubject.Some? && m.key.Some? {
      Base64.DecodeEncode(codec.encode(md.keySubject.value, m.key.value).value);
    }
  }

  /** The body and tombstone header as `encode` builds them decode to the value payload. */
  lemma ValueRoundTrip(envelope: map<Key, Raw>, headers: map<Key, Raw>, md: MessageMetadata, m: Message, codec: RecordCodec)
    requires codec.RoundTrips()
    requires BuildHeaders(md, m, codec).Ok?
    requires Field(headers, HeaderTombstone) == Field(RawHeaders(BuildHeaders(md, m, codec).value.headers), HeaderTombstone)
    requires Field(envelope, "body") == Str(BuildHeaders(md, m, codec).value.body)
    ensures DecodeValue(envelope, headers, md, codec) == Ok(Expected(md, m, codec).1)
  {
    if md.valueSubject.Some? && m.value.Some? {
      OctetsOfText(codec.encode(md.valueSubject.value, m.value.value).value);
    }
  }

  /**
   * Decoding what `encode` produced, as the transport hands it back, finds the class and
   * returns the payloads the message had, given a codec that round-trips and a header
   * provider that leaves the reserved headers alone.
   */
  lemma RoundTrip(md: MessageMetadata, m: Message, codec: RecordCodec, locators: seq<Locator>, t: TypeTable)
    requires codec.RoundTrips()
    requires md.className != "" && (md.className in t.messageTypes || md.className == MessageInterface)
    requires EncodeWith(md, m, codec, locators).Ok?
    requires md.headerProviderServiceId.Some? && Locate(locators, md.headerProviderServiceId.value).Ok? ==>
      LeavesReserved(Locate(locators, md.headerProviderServiceId.value).value.headersFor(m))
    ensures var e := Transported(EncodeWith(md, m, codec, locators).value);
      && ReadClass(e, t) == Ok((e[StrKey("headers")].entries, md.className))
      && DecodeWith(e, e[StrKey("headers")].entries, md, codec) == Ok(Expected(md, m, codec))
  {
    var encoded := EncodeWith(md, m, codec, locators).value;
    var e := Transported(encoded);
    var h := e[StrKey("headers")].entries;
    assert h == RawHeaders(encoded.headers);
    ClassRoundTrip(md, m, codec, locators, t);
    ReservedAfterProvider(md, m, codec, locators, HeaderKeyPayload);
    ReservedAfterProvider(md, m, codec, locators, HeaderTombstone);
    KeyRoundTrip(h, md, m, codec);
    ValueRoundTrip(e, h, md, m, codec);
  }

  /** The class header `encode` writes reads back as the message's class. */
  lemma ClassRoundTrip(md: MessageMetadata, m: Message, codec: RecordCodec, locators: seq<Locator>, t: TypeTable)
    requires md.className != "" && (md.className in t.messageTypes || md.className == MessageInterface)
    requires EncodeWith(md, m, codec, locators).Ok?
    requires md.headerProviderServiceId.Some? && Locate(locators, md.headerProviderServiceId.value).Ok? ==>
      LeavesReserved(Locate(locators, md.headerProviderServiceId.value).value.headersFor(m))
    ensures var e := Transported(EncodeWith(md, m, codec, locators).value);
      ReadClass(e, t) == Ok((e[StrKey("headers")].entries, md.className))
  {
    var encoded := EncodeWith(md, m, codec, locators).value;
    var h := RawHeaders(encoded.headers);
    ReservedAfterProvider(md, m, codec, locators, HeaderClass);
    assert Field(h, HeaderClass) == Str(md.className);
  }

  // ---------------------------------------------------------------- the serializer

  /** `encode` once the registry has answered for the message's class. */
  function Encoding(found: Result<Option<MessageMetadata>, MetadataRegistry.Error>, m: Message, codec: RecordCodec, locators: seq<Locator>): Result<Encoded, Error> {
    match found
    case Err(e) => Err(MetadataFailed(e))
    case Ok(None) => Err(NoMetadata(m.cls))
    case Ok(Some(md)) => EncodeWith(md, m, codec, locators)
  }

  /** `decode` once the registry has answered for the class named in the headers. */
  function Decoding(
    found: Result<Option<MessageMetadata>, MetadataRegistry.Error>, envelope: map<Key, Raw>, headers: map<Key, Raw>,
    className: string, codec: RecordCodec, fromAvroPayload: (string, Option<Payload>, Option<Payload>) -> Message
  ): Result<Message, Error> {
    match found
    case Err(e) => Err(MetadataFailed(e))
    case Ok(None) => Err(DecodingFailed(NoMetadataFor(className)))
    case Ok(Some(md)) =>
      var payloads :- DecodeWith(envelope, headers, md, codec);
      if className == MessageInterface then Err(AbstractFactory(className))
      else Ok(fromAvroPayload(className, payloads.0, payloads.1))
  }

  /**
   * The serializer's own round trip: when every cached entry is filed under its own
   * class name, the metadata `encode` finds for a message is found again by `decode`
   * from the class header, and decoding returns the message built from the payloads
   * the original had.
   */
  lemma SerializerRoundTrip(
    t: TypeTable, st: MetadataRegistry.Cache, m: Message, md: MessageMetadata, codec: RecordCodec,
    locators: seq<Locator>, fromAvroPayload: (string, Option<Payload>, Option<Payload>) -> Message)
    requires t.Acyclic() && MetadataRegistry.FiledUnderOwnClass(st)
    requires MetadataRegistry.Resolve(t, st, m.cls).result == Ok(Some(md))
    requires codec.RoundTrips()
    requires md.className != "" && (md.className in t.messageTypes || md.className == MessageInterface)
    requires Encoding(Ok(Some(md)), m, codec, locators).Ok?
    requires md.headerProviderServiceId.Some? && Locate(locators, md.headerProviderServiceId.value).Ok? ==>
      LeavesReserved(Locate(locators, md.headerProviderServiceId.value).value.headersFor(m))
    ensures var e := Transported(Encoding(Ok(Some(md)), m, codec, locators).value);
      var after := MetadataRegistry.Resolve(t, st, m.cls).cache;
      && ReadClass(e, t) == Ok((e[StrKey("headers")].entries, md.className))
      && MetadataRegistry.Resolve(t, after, md.className) == MetadataRegistry.Lookup(Ok(Some(md)), after)
      && Decoding(MetadataRegistry.Resolve(t, after, md.className).result, e, e[StrKey("headers")].entries, md.className, codec, fromAvroPayload) ==
           if md.className == MessageInterface then Err(AbstractFactory(md.className))
           else Ok(fromAvroPayload(md.className, Expected(md, m, codec).0, Expected(md, m, codec).1))
  {
    RoundTrip(md, m, codec, locators, t);
    MetadataRegistry.FoundIsFiledUnderItsClass(t, st, m.cls);
    MetadataRegistry.CachedEntryWins(t, MetadataRegistry.Resolve(t, st, m.cls).cache, md.className);
  }

  class AvroMessengerSerializer {
    const metadataRegistry: MetadataRegistry.MessageMetadataRegistry
    const recordEncoder: RecordCodec
    const headerProviderLocator: Option<Locator>
    const container: Option<Locator>
    /** `$className::fromAvroPayload($key, $value)` of each message class. */
    const fromAvroPayload: (string, Option<Payload>, Option<Payload>) -> Message

    constructor (
      metadataRegistry: MetadataRegistry.MessageMetadataRegistry, recordEncoder: RecordCodec,
      headerProviderLocator: Option<Locator>, container: Option<Locator>,
      fromAvroPayload: (string, Option<Payload>, Option<Payload>) -> Message)
      ensures this.metadataRegistry == metadataRegistry && this.recordEncoder == recordEncoder
      ensures this.headerProviderLocator == headerProviderLocator && this.container == container
      ensures this.fromAvroPayload == fromAvroPayload
    {
      this.metadataRegistry := metadataRegistry;
      this.recordEncoder := recordEncoder;
      this.headerProviderLocator := headerProviderLocator;
      this.container := container;
      this.fromAvroPayload := fromAvroPayload;
    }

    /** The locators that are set, the dedicated one first. */
    function Locators(): seq<Locator> {
      Present([headerProviderLocator, container])
    }

    /**
     * Encodes a message: it must implement the message contract and have metadata;
     * the registry caches what it resolves on the way.
     */
    method Encode(m: Message) returns (r: Result<Encoded, Error>)
      requires metadataRegistry.types.Acyclic()
      modifies metadataRegistry
      ensures m.cls !in metadataRegistry.types.messageTypes ==>
        r == Err(NotAMessage(m.cls)) && metadataRegistry.State() == old(metadataRegistry.State())
      ensures m.cls in metadataRegistry.types.messageTypes ==>
        var l := MetadataRegistry.Resolve(metadataRegistry.types, old(metadataRegistry.State()), m.cls);
        metadataRegistry.State() == l.cache && r == Encoding(l.result, m, recordEncoder, Locators())
    {
      if m.cls !in metadataRegistry.types.messageTypes {
        return Err(NotAMessage(m.cls));
      }
      var found := metadataRegistry.Get(m.cls);
      if found.Err? {
        return Err(MetadataFailed(found.error));
      }
      if found.value.None? {
        return Err(NoMetadata(m.cls));
      }
      var md := found.value.value;
      var built := BuildHeaders(md, m, recordEncoder);
      if built.Err? {
        return Err(built.error);
      }
      var headers := MergeHeadersWithProvider(built.value.headers, md, m);
      if headers.Err? {
        return Err(headers.error);
      }
      return Ok(Encoded(built.value.body, headers.value));
    }

    /**
     * Decodes an envelope as the transport hands it over: the class comes from the
     * headers, its metadata from the registry, which caches what it resolves on the way.
     */
    method Decode(envelope: map<Key, Raw>) returns (r: Result<Message, Error>)
      requires metadataRegistry.types.Acyclic()
      modifies metadataRegistry
      ensures ReadClass(envelope, metadataRegistry.types).Err? ==>
        r == Err(ReadClass(envelope, metadataRegistry.types).error)
        && metadataRegistry.State() == old(metadataRegistry.State())
      ensures ReadClass(envelope, metadataRegistry.types).Ok? ==>
        var (headers, className) := ReadClass(envelope, metadataRegistry.types).value;
        var l := MetadataRegistry.Resolve(metadataRegistry.types, old(metadataRegistry.State()), className);
        metadataRegistry.State() == l.cache
        && r == Decoding(l.result, envelope, headers, className, recordEncoder, fromAvroPayload)
    {
      var read := ReadClass(envelope, metadataRegistry.types);
      if read.Err? {
        return Err(read.error);
      }
      var (headers, className) := read.value;
      var found := metadataRegistry.Get(className);
      if found.Err? {
        return Err(MetadataFailed(found.error));
      }
      if found.value.None? {
        return Err(DecodingFailed(NoMetadataFor(className)));
      }
      var md := found.value.value;
      var key := DecodeKey(headers, md, recordEncoder);
      if key.Err? {
        return Err(key.error);
      }
      var value := DecodeValue(envelope, headers, md, recordEncoder);
      if value.Err? {
        return Err(value.error);
      }
      if className == MessageInterface {
        return Err(AbstractFactory(className));
      }
      return Ok(fromAvroPayload(className, key.value, value.value));
    }

    /** The headers with the message's header provider's headers laid over them, one entry at a time. */
    method MergeHeadersWithProvider(headers: map<string, string>, md: MessageMetadata, m: Message)
      returns (r: Result<map<string, string>, Error>)
      ensures r == WithProvider(headers, md, m, Locators())
    {
      if md.headerProviderServiceId.None? {
        return Ok(headers);
      }
      var located := LocateHeaderProvider(md.headerProviderServiceId.value);
      if located.Err? {
        return Err(located.error);
      }
      var provided := located.value.headersFor(m);
      var merged := headers;
      for i := 0 to |provided|
        invariant merged == Merge(headers, provided[..i])
      {
        var (name, value) := provided[i];
        assert provided[..i + 1][..i] == provided[..i];
        if !name.StrKey? || name.s == "" {
          continue;
        }
        if !IsScalar(value) {
          continue;
        }
        merged := merged[name.s := ToStr(value)];
      }
      assert provided[..|provided|] == provided;
      return Ok(merged);
    }

    /** Asks each locator that is set, in order, for the provider `id`. */
    method LocateHeaderProvider(id: string) returns (r: Result<HeaderProvider, Error>)
      ensures r == Locate(Locators(), id)
    {
      var locators := Present([headerProviderLocator, container]);
      for i := 0 to |locators|
        invariant Locate(locators, id) == Locate(locators[i..], id)
      {
        assert locators[i..][1..] == locators[i + 1..];
        if id !in locators[i].services {
          continue;
        }
        match locators[i].services[id] {
          case None =>
            return Err(ProviderNotResolved(id));
          case Some(OtherService) =>
            return Err(NotAProvider(id));
          case Some(Provider(p)) =>
            return Ok(p);
        }
      }
      return Err(ProviderNotLocated(id));
    }
  }
}
