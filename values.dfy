/** Untyped input data, as the validators receive it: the JSON-like values a
    JavaScript caller can hand in. Absence of an object key is absence of an
    entry; there is no `undefined` value. */
module Values {
  import opened Wrappers

  /** `Num` holds a JavaScript number as an exact `real`. */
  datatype Value =
    | Null
    | Bool(b: bool)
    | Num(n: real)
    | Str(s: string)
    | Arr(items: seq<Value>)
    | Obj(entries: seq<Entry>)

  /** One own property of an object. An object's entries come in its
      property-enumeration order: integer-like keys first, ascending, then
      the other keys in insertion order. */
  datatype Entry = Entry(key: string, val: Value)

  /** The value stored under `key`, the first entry with that key winning. */
  function Lookup(entries: seq<Entry>, key: string): (r: Option<Value>)
    ensures r.Some? <==> exists i :: 0 <= i < |entries| && entries[i].key == key
    ensures r.Some? ==> exists i :: 0 <= i < |entries| && entries[i] == Entry(key, r.value)
  {
    if entries == [] then None
    else if entries[0].key == key then Some(entries[0].val)
    else
      var r := Lookup(entries[1..], key);
      assert forall i :: 1 <= i < |entries| ==> entries[i] == entries[1..][i - 1];
      r
  }

  /** The entries without the property `key`: the object with that key
      deleted. */
  function Without(entries: seq<Entry>, key: string): (r: seq<Entry>)
    ensures Lookup(r, key) == None
    ensures forall k :: k != key ==> Lookup(r, k) == Lookup(entries, k)
  {
    if entries == [] then []
    else
      var rest := Without(entries[1..], key);
      if entries[0].key == key then rest
      else
        assert ([entries[0]] + rest)[1..] == rest;
        [entries[0]] + rest
  }

  /** True when integral: what `Number.isInteger` decides for a finite number. */
  predicate IsInteger(x: real) {
    x.Floor as real == x
  }

  lemma {:induction false} LookupAppend(entries: seq<Entry>, e: Entry, key: string)
    ensures Lookup(entries + [e], key) ==
            if Lookup(entries, key).Some? then Lookup(entries, key)
            else if e.key == key then Some(e.val) else None
  {
    if entries != [] {
      assert (entries + [e])[1..] == entries[1..] + [e];
      LookupAppend(entries[1..], e, key);
    }
  }

  /** The entries with `key` set to `val`: the object after the assignment
      `obj[key] = val`. */
  function Put(entries: seq<Entry>, key: string, val: Value): (r: seq<Entry>)
    ensures Lookup(r, key) == Some(val)
    ensures forall k :: k != key ==> Lookup(r, k) == Lookup(entries, k)
  {
    var rest := Without(entries, key);
    LookupAppend(rest, Entry(key, val), key);
    forall k | k != key ensures Lookup(rest + [Entry(key, val)], k) == Lookup(entries, k) {
      LookupAppend(rest, Entry(key, val), k);
    }
    rest + [Entry(key, val)]
  }
}
