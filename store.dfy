/**
  The shared key-value store (a Redis server) as the program uses it: GET
  and SET on string keys. A stored value is either the text of a JSON
  object, kept decoded as its members in document order (what
  json.dumps(dict) writes), or any other byte string, kept as text.
 */
module KeyValue {
  import opened Wrappers
  import opened JsonValues

  datatype Value =
    | Raw(text: string)                     // bytes that are not a JSON object's text
    | Record(fields: seq<(string, Json)>)   // the text of a JSON object

  /** Python truthiness of the bytes GET returns: only b'' is false. */
  predicate Truthy(v: Value) { v.Record? || v.text != "" }

  function Get<K, V>(data: map<K, V>, key: K): (r: Option<V>)
    ensures r.Some? <==> key in data
    ensures r.Some? ==> r.value == data[key]
  {
    if key in data then Some(data[key]) else None
  }

  class Store {
    var data: map<string, Value>

    constructor (initial: map<string, Value>)
      ensures data == initial
    {
      data := initial;
    }

    /** GET key: the stored value, or None (Python's None) when absent. */
    function Lookup(key: string): (r: Option<Value>)
      reads this
      ensures r.Some? <==> key in data
      ensures r.Some? ==> r.value == data[key]
    {
      Get(data, key)
    }

    /** SET key value: overwrites that key and no other. */
    method Set(key: string, v: Value)
      modifies this
      ensures data == old(data)[key := v]
    {
      data := data[key := v];
    }
  }
}
