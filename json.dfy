/** The JSON tree the transforms walk: serde_json's `Value`. */
module JsonValue {
  import opened Wrappers
  import opened Assoc

  /**
   * `serde_json::Value`. A number is kept as its literal text and never inspected; an
   * object is its entries in iteration order.
   */
  datatype Value =
    | Null
    | Bool(b: bool)
    | Number(literal: string)
    | String(s: string)
    | Array(items: seq<Value>)
    | Object(fields: seq<(string, Value)>)

  /** The entries of an object. */
  type Fields = seq<(string, Value)>

  /** `Value::get(key)`: the entry under `key` of an object, and `None` for every other kind of value. */
  function Get(v: Value, key: string): (r: Option<Value>)
    ensures r.Some? <==> v.Object? && key in Keys(v.fields)
    ensures r.Some? ==> exists i :: 0 <= i < |v.fields| && v.fields[i] == (key, r.value)
  {
    if v.Object? then Lookup(v.fields, key) else None
  }

  /** `.and_then(|v| v.as_str())` */
  function StrOf(o: Option<Value>): Option<string>
  {
    if o.Some? && o.value.String? then Some(o.value.s) else None
  }

  /** `.and_then(|v| v.as_bool())` */
  function BoolOf(o: Option<Value>): Option<bool>
  {
    if o.Some? && o.value.Bool? then Some(o.value.b) else None
  }

  /** `.and_then(|v| v.as_array())` */
  function ArrOf(o: Option<Value>): Option<seq<Value>>
  {
    if o.Some? && o.value.Array? then Some(o.value.items) else None
  }

  /** `.and_then(|v| v.as_object())` */
  function ObjOf(o: Option<Value>): Option<Fields>
  {
    if o.Some? && o.value.Object? then Some(o.value.fields) else None
  }
}
