/**
 * The registry of message metadata: a cache filled first from configuration, then
 * from each class's `#[AsAvroMessage]` attribute (inspected at most once per class),
 * and otherwise resolved through the class's parents and then its interfaces.
 */
module MetadataRegistry {
  import opened Wrappers
  import opened Types
  import opened Metadata

  /** One configured entry, as the container parameter holds it. */
  datatype RawMetadata = RawMetadata(
    serviceId: string,
    className: string,
    keySubject: Option<string>,
    valueSubject: Option<string>,
    headerProvider: Option<string>)

  /** The `LogicException` thrown for a class with the attribute that is not a message. */
  datatype Error = MarkerWithoutContract(className: string)

  /** The registry's two mutable fields: the metadata cache and the classes whose attribute was inspected. */
  datatype Cache = Cache(metadata: map<string, MessageMetadata>, attempts: set<string>)

  /** What a lookup returns (metadata, null, or the exception) together with the cache it leaves. */
  datatype Lookup = Lookup(result: Result<Option<MessageMetadata>, Error>, cache: Cache)

  function FromRaw(raw: RawMetadata): MessageMetadata {
    MessageMetadata(raw.serviceId, raw.className, raw.keySubject, raw.valueSubject, raw.headerProvider)
  }

  /** The metadata the attribute of class `c` stands for. */
  function FromMarker(c: string, m: Marker): MessageMetadata {
    MessageMetadata(SerializerClass, c, m.keySubject, m.valueSubject, m.headerProvider)
  }

  /** `resolveFromAttribute`: the metadata the attribute gives, and the new set of inspected classes. */
  function InspectMarker(t: TypeTable, attempts: set<string>, c: string): (r: (Result<Option<MessageMetadata>, Error>, set<string>))
    ensures attempts <= r.1 <= attempts + {c}
    ensures c in t.classes && r.0.Ok? ==> c in r.1
    ensures r.0.Err? <==> c in t.classes && c !in attempts && c in t.markers && c !in t.messageTypes
    ensures r.0.Err? ==> r.1 == attempts
    ensures r.0.Ok? && r.0.value.Some? <==> c in t.classes && c !in attempts && c in t.markers && c in t.messageTypes
    ensures r.0.Ok? && r.0.value.Some? ==> r.0.value.value.className == c && r.0.value.value.serviceId == SerializerClass
  {
    if c !in t.classes || c in attempts then (Ok(None), attempts)
    else if c !in t.markers then (Ok(None), attempts + {c})
    else if c !in t.messageTypes then (Err(MarkerWithoutContract(c)), attempts)
    else (Ok(Some(FromMarker(c, t.markers[c]))), attempts + {c})
  }

  /** `get`: the cache, then the attribute, then the parents, then the interfaces. */
  function Resolve(t: TypeTable, st: Cache, c: string): Lookup
    requires t.Acyclic()
    decreases t.Rank(c), 1
  {
    if c in st.metadata then Lookup(Ok(Some(st.metadata[c])), st)
    else
      var (r, attempts) := InspectMarker(t, st.attempts, c);
      if r.Err? then Lookup(r, st.(attempts := attempts))
      else if r.value.Some? then Lookup(r, Cache(st.metadata[c := r.value.value], attempts))
      else
        var fromParents := FirstOf(t, st.(attempts := attempts), t.Parents(c), t.Rank(c));
        if fromParents.result.Err? || fromParents.result.value.Some? then fromParents
        else FirstOf(t, fromParents.cache, t.Interfaces(c), t.Rank(c))
  }

  /** Resolves the names of `cs` in turn and stops at the first metadata or exception. */
  function FirstOf(t: TypeTable, st: Cache, cs: seq<string>, bound: nat): Lookup
    requires t.Acyclic()
    requires forall i :: 0 <= i < |cs| ==> t.Rank(cs[i]) < bound
    decreases bound, 0, |cs|
  {
    if cs == [] then Lookup(Ok(None), st)
    else
      var first := Resolve(t, st, cs[0]);
      if first.result.Err? || first.result.value.Some? then first
      else FirstOf(t, first.cache, cs[1..], bound)
  }

  /**
   * How a lookup may change the cache: it never forgets an inspection or an entry and
   * never changes an entry; the only entries it adds are attribute metadata of message
   * classes whose attribute had not been inspected before and is inspected now.
   */
  ghost predicate Grows(t: TypeTable, before: Cache, after: Cache) {
    && before.attempts <= after.attempts
    && (forall k :: k in after.attempts - before.attempts ==> k in t.classes)
    && before.metadata.Keys <= after.metadata.Keys
    && (forall k :: k in before.metadata ==> after.metadata[k] == before.metadata[k])
    && (forall k :: k in after.metadata && k !in before.metadata ==>
          && k in t.markers && k in t.messageTypes
          && k !in before.attempts && k in after.attempts
          && after.metadata[k] == FromMarker(k, t.markers[k]))
  }

  lemma GrowsTransitive(t: TypeTable, a: Cache, b: Cache, c: Cache)
    requires Grows(t, a, b) && Grows(t, b, c)
    ensures Grows(t, a, c)
  {
  }

  /**
   * Every lookup lets the cache grow only as `Grows` allows, and whatever metadata
   * it returns is an entry of the cache it leaves (a configured entry, an attribute
   * entry, or an ancestor's entry, never a record made up on the way).
   */
  lemma {:induction false} ResolveSound(t: TypeTable, st: Cache, c: string)
    requires t.Acyclic()
    ensures var l := Resolve(t, st, c);
      && Grows(t, st, l.cache)
      && (l.result.Ok? && l.result.value.Some? ==> l.result.value.value in l.cache.metadata.Values)
    decreases t.Rank(c), 1
  {
    if c !in st.metadata {
      var (r, attempts) := InspectMarker(t, st.attempts, c);
      if r.Ok? && r.value.None? {
        var st1 := st.(attempts := attempts);
        assert Grows(t, st, st1);
        var fromParents := FirstOf(t, st1, t.Parents(c), t.Rank(c));
        FirstOfSound(t, st1, t.Parents(c), t.Rank(c));
        GrowsTransitive(t, st, st1, fromParents.cache);
        if fromParents.result.Ok? && fromParents.result.value.None? {
          FirstOfSound(t, fromParents.cache, t.Interfaces(c), t.Rank(c));
          GrowsTransitive(t, st, fromParents.cache, Resolve(t, st, c).cache);
        }
      }
    }
  }

  lemma {:induction false} FirstOfSound(t: TypeTable, st: Cache, cs: seq<string>, bound: nat)
    requires t.Acyclic()
    requires forall i :: 0 <= i < |cs| ==> t.Rank(cs[i]) < bound
    ensures var l := FirstOf(t, st, cs, bound);
      && Grows(t, st, l.cache)
      && (l.result.Ok? && l.result.value.Some? ==> l.result.value.value in l.cache.metadata.Values)
    decreases bound, 0, |cs|
  {
    if cs != [] {
      var first := Resolve(t, st, cs[0]);
      ResolveSound(t, st, cs[0]);
      if first.result.Ok? && first.result.value.None? {
        FirstOfSound(t, first.cache, cs[1..], bound);
        GrowsTransitive(t, st, first.cache, FirstOf(t, st, cs, bound).cache);
      }
    }
  }

  /** Every entry of the cache is filed under its own class name. */
  ghost predicate FiledUnderOwnClass(st: Cache) {
    forall k :: k in st.metadata ==> st.metadata[k].className == k
  }

  /**
   * A lookup keeps every entry filed under its own class name; so the record it returns
   * is then the cached entry for that record's class.
   */
  lemma FoundIsFiledUnderItsClass(t: TypeTable, st: Cache, c: string)
    requires t.Acyclic() && FiledUnderOwnClass(st)
    ensures var l := Resolve(t, st, c);
      && FiledUnderOwnClass(l.cache)
      && (l.result.Ok? && l.result.value.Some? ==>
            l.result.value.value.className in l.cache.metadata
            && l.cache.metadata[l.result.value.value.className] == l.result.value.value)
  {
    ResolveSound(t, st, c);
    var l := Resolve(t, st, c);
    if l.result.Ok? && l.result.value.Some? {
      var k :| k in l.cache.metadata && l.cache.metadata[k] == l.result.value.value;
    }
  }

  /** A configured or cached entry is returned as it is, and nothing is inspected. */
  lemma CachedEntryWins(t: TypeTable, st: Cache, c: string)
    requires t.Acyclic() && c in st.metadata
    ensures Resolve(t, st, c) == Lookup(Ok(Some(st.metadata[c])), st)
  {
  }

  /**
   * A message class with an attribute not inspected yet gets the attribute's metadata
   * (the serializer as service, the class itself as class name), which is cached, so
   * that the next lookup returns the same record without inspecting anything.
   */
  lemma MarkerEntryIsCached(t: TypeTable, st: Cache, c: string)
    requires t.Acyclic()
    requires c !in st.metadata && c in t.classes && c !in st.attempts && c in t.markers && c in t.messageTypes
    ensures var l := Resolve(t, st, c);
      var m := FromMarker(c, t.markers[c]);
      && m.serviceId == SerializerClass && m.className == c
      && m.keySubject == t.markers[c].keySubject && m.valueSubject == t.markers[c].valueSubject
      && m.headerProviderServiceId == t.markers[c].headerProvider
      && l == Lookup(Ok(Some(m)), Cache(st.metadata[c := m], st.attempts + {c}))
      && Resolve(t, l.cache, c) == l
  {
  }

  /** A class with the attribute that is not a message makes the lookup throw, and is not recorded as inspected. */
  lemma MarkerWithoutContractThrows(t: TypeTable, st: Cache, c: string)
    requires t.Acyclic()
    requires c !in st.metadata && c in t.classes && c !in st.attempts && c in t.markers && c !in t.messageTypes
    ensures Resolve(t, st, c) == Lookup(Err(MarkerWithoutContract(c)), st)
  {
  }

  /** An inspected class (and a name that is not a class) never yields attribute metadata again. */
  lemma InspectedOnce(t: TypeTable, attempts: set<string>, c: string)
    requires c in attempts || c !in t.classes
    ensures InspectMarker(t, attempts, c) == (Ok(None), attempts)
  {
  }

  /**
   * A class that has neither an entry nor an attribute of its own takes the entry
   * of its first parent, when that parent has one; the inherited record is not
   * cached under the subclass.
   */
  lemma InheritsFromFirstParent(t: TypeTable, st: Cache, c: string)
    requires t.Acyclic()
    requires c !in st.metadata && c !in t.markers
    requires |t.Parents(c)| > 0 && t.Parents(c)[0] in st.metadata
    ensures var l := Resolve(t, st, c);
      l.result == Ok(Some(st.metadata[t.Parents(c)[0]])) && c !in l.cache.metadata
  {
    var st1 := Cache(st.metadata, InspectMarker(t, st.attempts, c).1);
    assert Resolve(t, st, c) == FirstOf(t, st1, t.Parents(c), t.Rank(c));
    ResolveSound(t, st, c);
  }

  /**
   * Nothing to find from `c`: no entry and no attribute still to inspect, on `c` and on
   * every type above it.
   */
  ghost predicate NothingToFind(t: TypeTable, st: Cache, c: string)
    requires t.Acyclic()
    decreases t.Rank(c)
  {
    && c !in st.metadata
    && (c !in t.markers || c !in t.classes || c in st.attempts)
    && (forall i :: 0 <= i < |t.Parents(c)| ==> NothingToFind(t, st, t.Parents(c)[i]))
    && (forall i :: 0 <= i < |t.Interfaces(c)| ==> NothingToFind(t, st, t.Interfaces(c)[i]))
  }

  /** Inspecting more classes leaves nothing more to find. */
  lemma {:induction false} NothingToFindMonotone(t: TypeTable, st: Cache, attempts: set<string>, c: string)
    requires t.Acyclic() && st.attempts <= attempts
    requires NothingToFind(t, st, c)
    ensures NothingToFind(t, st.(attempts := attempts), c)
    decreases t.Rank(c)
  {
    forall i | 0 <= i < |t.Parents(c)|
      ensures NothingToFind(t, st.(attempts := attempts), t.Parents(c)[i])
    {
      NothingToFindMonotone(t, st, attempts, t.Parents(c)[i]);
    }
    forall i | 0 <= i < |t.Interfaces(c)|
      ensures NothingToFind(t, st.(attempts := attempts), t.Interfaces(c)[i])
    {
      NothingToFindMonotone(t, st, attempts, t.Interfaces(c)[i]);
    }
  }

  /** With nothing to find, the lookup returns null and adds no entry. */
  lemma {:induction false} NothingFoundIsNull(t: TypeTable, st: Cache, c: string)
    requires t.Acyclic() && NothingToFind(t, st, c)
    ensures var l := Resolve(t, st, c);
      l.result == Ok(None) && l.cache.metadata == st.metadata && st.attempts <= l.cache.attempts
    decreases t.Rank(c), 1
  {
    var attempts := InspectMarker(t, st.attempts, c).1;
    var st1 := st.(attempts := attempts);
    NothingToFindMonotone(t, st, attempts, c);
    NothingListedIsNull(t, st1, t.Parents(c), t.Rank(c));
    var st2 := FirstOf(t, st1, t.Parents(c), t.Rank(c)).cache;
    NothingToFindMonotone(t, st1, st2.attempts, c);
    NothingListedIsNull(t, st2, t.Interfaces(c), t.Rank(c));
  }

  lemma {:induction false} NothingListedIsNull(t: TypeTable, st: Cache, cs: seq<string>, bound: nat)
    requires t.Acyclic()
    requires forall i :: 0 <= i < |cs| ==> t.Rank(cs[i]) < bound && NothingToFind(t, st, cs[i])
    ensures var l := FirstOf(t, st, cs, bound);
      l.result == Ok(None) && l.cache.metadata == st.metadata && st.attempts <= l.cache.attempts
    decreases bound, 0, |cs|
  {
    if cs != [] {
      NothingFoundIsNull(t, st, cs[0]);
      var st1 := Resolve(t, st, cs[0]).cache;
      forall i | 0 <= i < |cs[1..]|
        ensures NothingToFind(t, st1, cs[1..][i])
      {
        assert cs[1..][i] == cs[i + 1];
        NothingToFindMonotone(t, st, st1.attempts, cs[i + 1]);
        assert st1 == st.(attempts := st1.attempts);
      }
      NothingListedIsNull(t, st1, cs[1..], bound);
    }
  }

  class MessageMetadataRegistry {
    const types: TypeTable
    var metadata: map<string, MessageMetadata>
    var attributeAttempts: set<string>

    function State(): Cache
      reads this
    {
      Cache(metadata, attributeAttempts)
    }

    /** One cache entry per configured class, holding the five configured fields; nothing inspected yet. */
    constructor (types: TypeTable, rawMetadata: map<string, RawMetadata>)
      ensures this.types == types && attributeAttempts == {}
      ensures metadata.Keys == rawMetadata.Keys
      ensures forall c :: c in rawMetadata ==>
        var m := metadata[c];
        var raw := rawMetadata[c];
        m.serviceId == raw.serviceId && m.className == raw.className && m.keySubject == raw.keySubject
        && m.valueSubject == raw.valueSubject && m.headerProviderServiceId == raw.headerProvider
      ensures (forall c :: c in rawMetadata ==> rawMetadata[c].className == c) ==> FiledUnderOwnClass(State())
    {
      this.types := types;
      metadata := map c | c in rawMetadata :: FromRaw(rawMetadata[c]);
      attributeAttempts := {};
    }

    /** Inspects the attribute of `c` unless it was inspected before; records every inspection that does not throw. */
    method ResolveFromAttribute(c: string) returns (r: Result<Option<MessageMetadata>, Error>)
      modifies this`attributeAttempts
      ensures (r, attributeAttempts) == InspectMarker(types, old(attributeAttempts), c)
    {
      if c !in types.classes {
        return Ok(None);
      }
      if c in attributeAttempts {
        return Ok(None);
      }
      if c !in types.markers {
        attributeAttempts := attributeAttempts + {c};
        return Ok(None);
      }
      if c !in types.messageTypes {
        return Err(MarkerWithoutContract(c));
      }
      r := Ok(Some(FromMarker(c, types.markers[c])));
      attributeAttempts := attributeAttempts + {c};
    }

    /** The metadata of class `c`, or null; caches what the attribute yields. */
    method Get(c: string) returns (r: Result<Option<MessageMetadata>, Error>)
      requires types.Acyclic()
      modifies this
      decreases types.Rank(c), 1
      ensures Lookup(r, State()) == Resolve(types, old(State()), c)
      ensures Grows(types, old(State()), State()) && old(All()) <= All()
    {
      ResolveSound(types, State(), c);
      if c in metadata {
        return Ok(Some(metadata[c]));
      }
      r := ResolveFromAttribute(c);
      if r.Err? {
        return;
      }
      if r.value.Some? {
        metadata := metadata[c := r.value.value];
        return;
      }
      r := FirstFound(c, types.Parents(c));
      if r.Err? || r.value.Some? {
        return;
      }
      r := FirstFound(c, types.Interfaces(c));
    }

    /** The `foreach` over the parents or the interfaces of `c` in `get`, with its early return. */
    method FirstFound(c: string, cs: seq<string>) returns (r: Result<Option<MessageMetadata>, Error>)
      requires types.Acyclic()
      requires forall i :: 0 <= i < |cs| ==> types.Rank(cs[i]) < types.Rank(c)
      modifies this
      decreases types.Rank(c), 0
      ensures Lookup(r, State()) == FirstOf(types, old(State()), cs, types.Rank(c))
    {
      var i := 0;
      while i < |cs|
        invariant 0 <= i <= |cs|
        invariant FirstOf(types, old(State()), cs, types.Rank(c)) == FirstOf(types, State(), cs[i..], types.Rank(c))
      {
        assert cs[i..][1..] == cs[i + 1..];
        r := Get(cs[i]);
        if r.Err? || r.value.Some? {
          return;
        }
        i := i + 1;
      }
      return Ok(None);
    }

    /** `all()`: every metadata record cached so far. */
    function All(): set<MessageMetadata>
      reads this
    {
      metadata.Values
    }
  }
}
