/** A JavaScript plain object as the aggregation uses it: own properties in
    insertion order (every key here is a non-numeric string, so
    `Object.keys` and `Object.values` list them in the order they were
    created), read with `o[k]`, written with `o[k] = v` and `o[k] += d`. */
module JsObject {
  import opened Wrappers

  datatype Field<V> = Field(key: string, value: V)

  /** `Object.keys(o)`. */
  function Keys<V>(o: seq<Field<V>>): (keys: seq<string>)
    ensures |keys| == |o|
    ensures forall i :: 0 <= i < |o| ==> keys[i] == o[i].key
  {
    if o == [] then [] else [o[0].key] + Keys(o[1..])
  }

  /** `Object.values(o)`. */
  function Values<V>(o: seq<Field<V>>): (values: seq<V>)
    ensures |values| == |o|
    ensures forall i :: 0 <= i < |o| ==> values[i] == o[i].value
  {
    if o == [] then [] else [o[0].value] + Values(o[1..])
  }

  predicate Distinct(s: seq<string>) {
    forall i, j :: 0 <= i < j < |s| ==> s[i] != s[j]
  }

  /** A real object never holds the same property twice. */
  type JsObject<V> = o: seq<Field<V>> | Distinct(Keys(o)) witness []

  /** `o.hasOwnProperty(k)`. */
  predicate Has<V>(o: seq<Field<V>>, k: string) {
    k in Keys(o)
  }

  /** `o[k]`: the value of property `k`, `None` for `undefined`. */
  function Get<V>(o: seq<Field<V>>, k: string): (r: Option<V>)
    ensures r.Some? <==> Has(o, k)
  {
    if o == [] then None
    else if o[0].key == k then Some(o[0].value)
    else Get(o[1..], k)
  }

  /** `o[k] = v`: overwrites an own property in place, or appends a new one. */
  function Put<V>(o: seq<Field<V>>, k: string, v: V): (r: seq<Field<V>>)
    ensures Get(r, k) == Some(v)
    ensures forall k' :: k' != k ==> Get(r, k') == Get(o, k')
    ensures Has(o, k) ==> Keys(r) == Keys(o)
    ensures !Has(o, k) ==> Keys(r) == Keys(o) + [k]
  {
    if o == [] then [Field(k, v)]
    else if o[0].key == k then
      assert ([Field(k, v)] + o[1..])[1..] == o[1..];
      [Field(k, v)] + o[1..]
    else
      var rest := Put(o[1..], k, v);
      assert ([o[0]] + rest)[1..] == rest;
      assert Has(o, k) <==> Has(o[1..], k);
      [o[0]] + rest
  }

  /** `o[k] += d` on an own numeric property. */
  function AddTo(o: seq<Field<int>>, k: string, d: int): (r: seq<Field<int>>)
    requires Has(o, k)
    ensures Keys(r) == Keys(o)
    ensures Get(r, k) == Some(Get(o, k).value + d)
    ensures forall k' :: k' != k ==> Get(r, k') == Get(o, k')
  {
    if o[0].key == k then
      assert ([Field(k, o[0].value + d)] + o[1..])[1..] == o[1..];
      [Field(k, o[0].value + d)] + o[1..]
    else
      assert Keys(o) == [o[0].key] + Keys(o[1..]);
      var rest := AddTo(o[1..], k, d);
      assert ([o[0]] + rest)[1..] == rest;
      [o[0]] + rest
  }

  /** In an object without repeated keys, reading the key at position `i`
      gives the value at position `i`. */
  lemma {:induction false} GetAt<V>(o: seq<Field<V>>, i: nat)
    requires Distinct(Keys(o))
    requires i < |o|
    ensures Get(o, o[i].key) == Some(o[i].value)
  {
    if i > 0 {
      assert o[0].key == Keys(o)[0] != Keys(o)[i] == o[i].key;
      assert o[1..][i - 1] == o[i];
      GetAt(o[1..], i - 1);
    }
  }

  /** `Object.values(o)` lists, position by position, the values that
      `o[k]` reads for the keys `Object.keys(o)` lists. */
  lemma ValuesByKey<V>(o: seq<Field<V>>, i: nat)
    requires Distinct(Keys(o))
    requires i < |o|
    ensures Get(o, Keys(o)[i]) == Some(Values(o)[i])
  {
    GetAt(o, i);
  }

  /** Appending an own property to an object leaves reads of other keys as
      they were. */
  lemma {:induction false} GetAppend<V>(o: seq<Field<V>>, f: Field<V>, k: string)
    requires f.key != k
    ensures Get(o + [f], k) == Get(o, k)
  {
    if o != [] {
      assert (o + [f])[1..] == o[1..] + [f];
      GetAppend(o[1..], f, k);
    }
  }
}
