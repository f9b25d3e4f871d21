/**
 * The few PHP values the bundle handles without knowing their type in advance:
 * configuration arrays, decoded JSON documents, transport headers and the values
 * a header provider returns. PHP strings are byte strings; the model writes names
 * and header values as `string` and binary payloads as `seq<byte>`.
 */
module Php {
  import opened Wrappers

  /** One octet of a PHP binary string. */
  newtype byte = x: int | 0 <= x < 256

  /** An array key: PHP arrays are keyed by integers or by strings. */
  datatype Key = IntKey(i: int) | StrKey(s: string)

  /**
   * A PHP value of unknown type. A float is kept by the text PHP prints for it,
   * which is all the model ever does with one. An array that the model only reads
   * by key is a map; an array that is iterated is a sequence of entries instead.
   */
  datatype Raw =
    | Null
    | Bool(b: bool)
    | Int(i: int)
    | Float(text: string)
    | Str(s: string)
    | Arr(entries: map<Key, Raw>)

  /** `is_scalar($v)`: integers, floats, strings and booleans. */
  predicate IsScalar(v: Raw) {
    v.Bool? || v.Int? || v.Float? || v.Str?
  }

  /** `\is_string($v) && '' !== $v` */
  predicate IsNonEmptyString(v: Raw) {
    v.Str? && v.s != ""
  }

  /** `$array[$name] ?? null` for a string key. */
  function Field(entries: map<Key, Raw>, name: string): (v: Raw)
    ensures v != Null <==> StrKey(name) in entries && entries[StrKey(name)] != Null
  {
    if StrKey(name) in entries then entries[StrKey(name)] else Null
  }

  /** The decimal digits of a natural number, most significant first. */
  function Digits(n: nat): (r: string)
    ensures |r| > 0
    ensures forall i :: 0 <= i < |r| ==> '0' <= r[i] <= '9'
  {
    var d := ['0' + (n % 10) as char];
    if n < 10 then d else Digits(n / 10) + d
  }

  /** `(string) $v`: the conversion PHP applies when a value is used as a string. */
  function ToStr(v: Raw): string {
    match v
    case Null => ""
    case Bool(b) => if b then "1" else ""
    case Int(i) => if i < 0 then "-" + Digits(-i) else Digits(i)
    case Float(text) => text
    case Str(s) => s
    case Arr(_) => "Array"
  }

  /** A binary string seen as PHP text: every octet becomes the character with that code. */
  function Text(b: seq<byte>): (s: string)
    ensures |s| == |b|
    ensures forall i :: 0 <= i < |b| ==> s[i] as int == b[i] as int
  {
    seq(|b|, i requires 0 <= i < |b| => b[i] as int as char)
  }

  /** A PHP string seen as its octets (a PHP character never has a code above 255). */
  function Octets(s: string): (b: seq<byte>)
    ensures |b| == |s|
    ensures forall i :: 0 <= i < |s| ==> b[i] as int == s[i] as int % 256
  {
    seq(|s|, i requires 0 <= i < |s| => (s[i] as int % 256) as byte)
  }

  /** Reading back the octets of a binary string gives the octets that were written. */
  lemma OctetsOfText(b: seq<byte>)
    ensures Octets(Text(b)) == b
  {
    var t := Text(b);
    assert forall i :: 0 <= i < |b| ==> Octets(t)[i] == b[i];
  }

  /** `$array[$name] ?? $default` for a string key. */
  function FieldOr(entries: map<Key, Raw>, name: string, default: Raw): (v: Raw)
    ensures v == if Field(entries, name) != Null then Field(entries, name) else default
  {
    var found := Field(entries, name);
    if found == Null then default else found
  }

  /** The entries of a PHP array have distinct keys. */
  predicate DistinctKeys<V>(entries: seq<(Key, V)>) {
    forall i, j :: 0 <= i < j < |entries| ==> entries[i].0 != entries[j].0
  }

  /** The keys of an ordered array. */
  function KeysOf<V>(entries: seq<(Key, V)>): set<Key> {
    set i | 0 <= i < |entries| :: entries[i].0
  }

  /** The keys of an array with one more entry in front. */
  lemma KeysOfCons<V>(e: (Key, V), rest: seq<(Key, V)>)
    ensures KeysOf([e] + rest) == {e.0} + KeysOf(rest)
  {
    var r := [e] + rest;
    forall k | k in KeysOf(r) ensures k in {e.0} + KeysOf(rest) {
      var i :| 0 <= i < |r| && r[i].0 == k;
      if i > 0 {
        assert rest[i - 1] == r[i];
      }
    }
    forall k | k in KeysOf(rest) ensures k in KeysOf(r) {
      var i :| 0 <= i < |rest| && rest[i].0 == k;
      assert r[i + 1] == rest[i];
    }
    assert r[0].0 == e.0;
  }

  /** `$array[$key]` on an ordered array: the value of the first entry with that key. */
  function Lookup<V>(entries: seq<(Key, V)>, k: Key): (r: Option<V>)
    ensures r.Some? <==> k in KeysOf(entries)
  {
    if entries == [] then None
    else
      KeysOfCons(entries[0], entries[1..]);
      assert entries == [entries[0]] + entries[1..];
      if entries[0].0 == k then Some(entries[0].1)
      else Lookup(entries[1..], k)
  }

  /** `$array[$key] = $value` on an ordered array: an existing key keeps its place, a new key goes last. */
  function Put<V>(entries: seq<(Key, V)>, k: Key, v: V): (r: seq<(Key, V)>)
    ensures Lookup(r, k) == Some(v)
    ensures forall other :: other != k ==> Lookup(r, other) == Lookup(entries, other)
    ensures KeysOf(r) == KeysOf(entries) + {k}
    ensures forall e :: e in r ==> e in entries || e == (k, v)
  {
    if entries == [] then
      KeysOfCons((k, v), []);
      [(k, v)]
    else
      KeysOfCons(entries[0], entries[1..]);
      assert entries == [entries[0]] + entries[1..];
      if entries[0].0 == k then
        KeysOfCons((k, v), entries[1..]);
        var r := [(k, v)] + entries[1..];
        assert r[1..] == entries[1..];
        r
      else
        var rest := Put(entries[1..], k, v);
        KeysOfCons(entries[0], rest);
        var r := [entries[0]] + rest;
        assert r[1..] == rest;
        r
  }
}
