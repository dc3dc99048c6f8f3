/**
  A JavaScript plain object used as a dictionary with string keys.

  `keys` is the order in which `for...in` visits the keys: the order in which
  they were first assigned (assigning an existing key again keeps its place).
  `entries` holds the key/value pairs.
 */
module Dicts {
  import opened Wrappers

  datatype Dict<V(==)> = Dict(keys: seq<string>, entries: map<string, V>)
  {
    /** Each key is listed once, and exactly the stored keys are listed. */
    ghost predicate Valid() {
      && (forall i, j :: 0 <= i < j < |keys| ==> keys[i] != keys[j])
      && (forall k :: k in entries <==> k in keys)
    }

    /** `obj[k]`: the stored value, or `undefined`. */
    function Get(k: string): Option<V> {
      if k in entries then Some(entries[k]) else None
    }

    /** `obj[k] = v`. */
    function Set(k: string, v: V): (d: Dict<V>)
      ensures d.Get(k) == Some(v)
      ensures forall k' :: k' != k ==> d.Get(k') == Get(k')
      ensures keys <= d.keys
      ensures |d.keys| == |keys| + (if k in entries then 0 else 1)
    {
      Dict(if k in entries then keys else keys + [k], entries[k := v])
    }

    /** The values in `for...in` order: every stored value, and nothing else. */
    function Values(): (vs: seq<V>)
      requires Valid()
      ensures |vs| == |keys|
      ensures forall k :: k in entries ==> entries[k] in vs
      ensures forall i :: 0 <= i < |vs| ==> vs[i] in entries.Values
    {
      var vs := seq(|keys|, i requires 0 <= i < |keys| => entries[keys[i]]);
      assert forall k :: k in entries ==> entries[k] in vs by {
        forall k | k in entries ensures entries[k] in vs {
          var i :| 0 <= i < |keys| && keys[i] == k;
          assert vs[i] == entries[k];
        }
      }
      vs
    }
  }

  /** Assigning a key keeps every key listed once and only stored keys listed. */
  lemma SetKeepsValid<V>(d: Dict<V>, k: string, v: V)
    requires d.Valid()
    ensures d.Set(k, v).Valid()
  {
    var e := d.Set(k, v);
    if k !in d.entries {
      assert forall i :: 0 <= i < |d.keys| ==> e.keys[i] == d.keys[i] && d.keys[i] != k;
    }
  }

  /** Assigning the same key twice leaves what the second assignment leaves. */
  lemma SetTwice<V>(d: Dict<V>, k: string, v: V, w: V)
    ensures d.Set(k, v).Set(k, w) == d.Set(k, w)
  {
  }

  /** `{}` */
  function EmptyDict<V(==)>(): (d: Dict<V>)
    ensures d.Valid() && forall k :: d.Get(k) == None
  {
    Dict([], map[])
  }
}
