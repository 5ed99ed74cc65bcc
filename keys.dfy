/** `getKeys`: the field names of a mapping, split into unit fields and the rest. */
module Keys {
  import opened Payload
  import opened Tables

  /** Iterates over the keys in an unspecified order (as Go map iteration does),
      appending unit fields to `units` and every other key to `keys`. Together
      the two lists hold each key of `input` exactly once. */
  method GetKeys(input: map<string, Value>) returns (keys: seq<string>, units: seq<string>)
    ensures multiset(keys) + multiset(units) == multiset(input.Keys)
    ensures forall i :: 0 <= i < |keys| ==> !IsUnitField(keys[i])
    ensures forall i :: 0 <= i < |units| ==> IsUnitField(units[i])
  {
    keys, units := [], [];
    var rest := input.Keys;
    while rest != {}
      invariant rest <= input.Keys
      invariant multiset(keys) + multiset(units) + multiset(rest) == multiset(input.Keys)
      invariant forall i :: 0 <= i < |keys| ==> !IsUnitField(keys[i])
      invariant forall i :: 0 <= i < |units| ==> IsUnitField(units[i])
      decreases rest
    {
      var k :| k in rest;
      if IsUnitField(k) {
        units := units + [k];
      } else {
        keys := keys + [k];
      }
      assert multiset(rest) == multiset(rest - {k}) + multiset{k};
      rest := rest - {k};
    }
  }

  /** The partition read pointwise: a key is listed in `units` exactly when it is
      a unit field of the input, and in `keys` exactly when it is any other key
      of the input; none is listed twice. */
  lemma PartitionMembership(input: map<string, Value>, keys: seq<string>, units: seq<string>, k: string)
    requires multiset(keys) + multiset(units) == multiset(input.Keys)
    requires forall i :: 0 <= i < |keys| ==> !IsUnitField(keys[i])
    requires forall i :: 0 <= i < |units| ==> IsUnitField(units[i])
    ensures k in units <==> k in input && IsUnitField(k)
    ensures k in keys <==> k in input && !IsUnitField(k)
    ensures multiset(keys)[k] + multiset(units)[k] == (if k in input then 1 else 0)
  {
    assert multiset(keys)[k] + multiset(units)[k] == multiset(input.Keys)[k];
    if k in units {
      var i :| 0 <= i < |units| && units[i] == k;
    }
    if k in keys {
      var i :| 0 <= i < |keys| && keys[i] == k;
    }
  }
}
