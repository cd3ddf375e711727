/**
 * `storage.get`, `storage.set` and `storage.remove` over the host's
 * `localStorage`, given here as the map of stored strings each operation
 * reads or produces. The host's JSON codec is a parameter: `stringify`
 * yields `None` where `JSON.stringify` returns undefined, and `parse` yields
 * `None` where `JSON.parse` throws.
 */
module Storage {
  import opened JsValue

  datatype Codec = Codec(stringify: Value -> Option<string>, parse: string -> Option<Value>)

  type Store = map<string, string>

  /** `storage.get`'s default when the caller gives none. */
  const DefaultValue := Null

  /** `defaultValue = null`: a default left out, or passed as undefined, is null. */
  function Fallback(defaultValue: Value): (d: Value)
    ensures defaultValue.Undefined? ==> d == DefaultValue
    ensures !defaultValue.Undefined? ==> d == defaultValue
  {
    if defaultValue.Undefined? then DefaultValue else defaultValue
  }

  /** `localStorage.getItem(key)`: the stored string, or null when there is none. */
  function GetItem(items: Store, key: string): Option<string> {
    if key in items then Some(items[key]) else None
  }

  /**
   * `item ? JSON.parse(item) : defaultValue`, with a failed parse also giving
   * the default; `defaultValue` is `Undefined` when the caller leaves it out.
   */
  function Get(items: Store, key: string, defaultValue: Value, codec: Codec): (r: Value)
    ensures (key !in items || items[key] == "") ==> r == Fallback(defaultValue)
    ensures key in items && items[key] != "" && codec.parse(items[key]).None? ==> r == Fallback(defaultValue)
    ensures key in items && items[key] != "" && codec.parse(items[key]).Some? ==> r == codec.parse(items[key]).value
  {
    var item := GetItem(items, key);
    if item.Some? && item.value != "" then
      var parsed := codec.parse(item.value);
      if parsed.Some? then parsed.value else Fallback(defaultValue)
    else Fallback(defaultValue)
  }

  /** The string `setItem` stores for `JSON.stringify(value)`; undefined is stored as "undefined". */
  function Encoded(codec: Codec, value: Value): string {
    var text := codec.stringify(value);
    if text.Some? then text.value else "undefined"
  }

  /** `storage.set`; `accepted` is false when the host's `setItem` throws (a full store), which is swallowed. */
  function Set(items: Store, key: string, value: Value, codec: Codec, accepted: bool): (r: Store)
    ensures accepted ==> r.Keys == items.Keys + {key} && r[key] == Encoded(codec, value)
    ensures forall k :: k in items && k != key ==> k in r && r[k] == items[k]
    ensures !accepted ==> r == items
  {
    if accepted then items[key := Encoded(codec, value)] else items
  }

  /** `storage.remove` */
  function Remove(items: Store, key: string): (r: Store)
    ensures r.Keys == items.Keys - {key}
    ensures forall k :: k in r ==> r[k] == items[k]
  {
    items - {key}
  }

  /** The codec gives `v` back from its own non-empty text. */
  predicate RoundTrips(codec: Codec, v: Value) {
    && codec.stringify(v).Some?
    && codec.stringify(v).value != ""
    && codec.parse(codec.stringify(v).value) == Some(v)
  }

  /** A stored value the codec round-trips is read back as stored. */
  lemma SetThenGet(items: Store, key: string, v: Value, defaultValue: Value, codec: Codec)
    requires RoundTrips(codec, v)
    ensures Get(Set(items, key, v, codec, true), key, defaultValue, codec) == v
  {
  }

  /** Setting undefined stores "undefined", which does not parse, so the default comes back. */
  lemma SetUndefinedThenGet(items: Store, key: string, defaultValue: Value, codec: Codec)
    requires codec.stringify(Undefined).None? && codec.parse("undefined").None?
    ensures Get(Set(items, key, Undefined, codec, true), key, defaultValue, codec) == Fallback(defaultValue)
  {
  }

  /** After a remove, the default comes back: null when the caller gives none. */
  lemma RemoveThenGet(items: Store, key: string, defaultValue: Value, codec: Codec)
    ensures Get(Remove(items, key), key, defaultValue, codec) == Fallback(defaultValue)
    ensures Get(Remove(items, key), key, Undefined, codec) == Null
  {
  }

  /** Writing or removing one key does not change what another key reads. */
  lemma OtherKeysUnaffected(items: Store, key: string, other: string, v: Value, d: Value, codec: Codec, accepted: bool)
    requires key != other
    ensures Get(Set(items, key, v, codec, accepted), other, d, codec) == Get(items, other, d, codec)
    ensures Get(Remove(items, key), other, d, codec) == Get(items, other, d, codec)
  {
  }
}
