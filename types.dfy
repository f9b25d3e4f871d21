/**
 * What the bundle learns about classes at run time through reflection
 * (`class_exists`, `class_parents`, `class_implements`, `is_subclass_of`,
 * attribute lookup), given here as an explicit table.
 */
module Types {
  import opened Wrappers

  /** `AvroMessengerSerializer::class` as the registry, the compiler pass and the extension spell it. */
  const SerializerClass: string := "Chargecloud\\AvroMessengerSerializerBundle\\Messenger\\AvroMessengerSerializer"

  /** `AvroMessageInterface::class` as the serializer spells it. */
  const MessageInterface: string := "ChargeCloud\\AvroMessengerSerializerBundle\\Messenger\\AvroMessageInterface"

  /** The `#[AsAvroMessage]` class attribute and its three optional arguments. */
  datatype Marker = Marker(keySubject: Option<string>, valueSubject: Option<string>, headerProvider: Option<string>)

  /**
   * The loaded classes and interfaces.
   * - `classes`: the names for which `class_exists` holds (interfaces are not classes);
   * - `markers`: the classes that carry the attribute (the first one, when repeated);
   * - `messageTypes`: the names that are subtypes of the message contract, that is,
   *   that implement or extend it;
   * - `parents` / `interfaces`: what `class_parents` / `class_implements` list, in
   *   their order (a name missing from the map lists nothing);
   * - `rank`: a depth that every ancestor has strictly below its descendants, which is
   *   what makes the type hierarchy acyclic.
   */
  datatype TypeTable = TypeTable(
    classes: set<string>,
    markers: map<string, Marker>,
    messageTypes: set<string>,
    parents: map<string, seq<string>>,
    interfaces: map<string, seq<string>>,
    rank: map<string, nat>)
  {
    function Parents(c: string): seq<string> {
      if c in parents then parents[c] else []
    }

    function Interfaces(c: string): seq<string> {
      if c in interfaces then interfaces[c] else []
    }

    function Rank(c: string): nat {
      if c in rank then rank[c] else 0
    }

    /** Every parent and every interface of a type sits strictly below it. */
    ghost predicate Acyclic() {
      && (forall c, i :: 0 <= i < |Parents(c)| ==> Rank(Parents(c)[i]) < Rank(c))
      && (forall c, i :: 0 <= i < |Interfaces(c)| ==> Rank(Interfaces(c)[i]) < Rank(c))
    }
  }
}
