/**
 * A JavaScript object used as a dictionary (`Record<string, V>`), kept as its
 * `Object.entries` list: insertion order, at most one entry per key.
 * Assigning an existing key keeps its position; a new key goes to the end.
 */
module Records {
  import opened Wrappers

  type Entries<V> = seq<(string, V)>

  /** `Object.keys(o)`, in order. */
  function Keys<V>(e: Entries<V>): (ks: seq<string>)
    ensures |ks| == |e|
    ensures forall i :: 0 <= i < |e| ==> ks[i] == e[i].0
  {
    if |e| == 0 then [] else [e[0].0] + Keys(e[1..])
  }

  /** No key occurs twice, as in an object. */
  predicate DistinctKeys<V>(e: Entries<V>) {
    forall i, j :: 0 <= i < j < |e| ==> e[i].0 != e[j].0
  }

  /** `o[k]`: `None` when the key is absent. */
  function Get<V>(e: Entries<V>, k: string): (r: Option<V>)
    ensures r.None? <==> forall i :: 0 <= i < |e| ==> e[i].0 != k
    ensures r.Some? ==> exists i :: 0 <= i < |e| && e[i] == (k, r.value)
  {
    if |e| == 0 then None
    else if e[0].0 == k then Some(e[0].1)
    else Get(e[1..], k)
  }

  /** The value stored at entry `i` is what lookup of its key returns, when keys are distinct. */
  lemma {:induction false} GetAt<V>(e: Entries<V>, i: nat)
    requires DistinctKeys(e) && i < |e|
    ensures Get(e, e[i].0) == Some(e[i].1)
  {
    if i > 0 {
      GetAt(e[1..], i - 1);
    }
  }

  /** Lookup in a keyed list with distinct keys splits into its last entry and the rest. */
  lemma GetPrefix<V>(e: Entries<V>, k: string)
    requires DistinctKeys(e) && |e| > 0
    ensures var init := e[..|e| - 1];
            Get(e, k) == (if k == e[|e| - 1].0 then Some(e[|e| - 1].1) else Get(init, k))
  {
    var init := e[..|e| - 1];
    if k == e[|e| - 1].0 {
      GetAt(e, |e| - 1);
    } else if Get(e, k).Some? {
      var i :| 0 <= i < |e| && e[i] == (k, Get(e, k).value);
      GetAt(e, i);
      assert init[i] == e[i];
      GetAt(init, i);
    }
  }

  /** The assignment itself, walking to the key's position. */
  function Assign<V>(e: Entries<V>, k: string, v: V): Entries<V> {
    if |e| == 0 then [(k, v)]
    else if e[0].0 == k then [(k, v)] + e[1..]
    else [e[0]] + Assign(e[1..], k, v)
  }

  lemma {:induction false} AssignGet<V>(e: Entries<V>, k: string, v: V)
    ensures forall k' :: Get(Assign(e, k, v), k') == if k' == k then Some(v) else Get(e, k')
  {
    if |e| > 0 {
      ConsGet(e[0], e[1..]);
      assert e == [e[0]] + e[1..];
      if e[0].0 == k {
        ConsGet((k, v), e[1..]);
      } else {
        AssignGet(e[1..], k, v);
        ConsGet(e[0], Assign(e[1..], k, v));
      }
    }
  }

  lemma {:induction false} AssignAppends<V>(e: Entries<V>, k: string, v: V)
    ensures Get(e, k).None? ==> Assign(e, k, v) == e + [(k, v)]
  {
    if |e| > 0 && Get(e, k).None? {
      AssignAppends(e[1..], k, v);
      assert e == [e[0]] + e[1..];
    }
  }

  lemma {:induction false} AssignDistinct<V>(e: Entries<V>, k: string, v: V)
    ensures DistinctKeys(e) ==> DistinctKeys(Assign(e, k, v))
  {
    if |e| > 0 && DistinctKeys(e) {
      assert DistinctKeys(e[1..]);
      ConsGet(e[0], e[1..]);
      assert e == [e[0]] + e[1..];
      assert Get(e[1..], e[0].0).None?;
      if e[0].0 == k {
        ConsDistinct((k, v), e[1..]);
      } else {
        AssignDistinct(e[1..], k, v);
        AssignGet(e[1..], k, v);
        ConsDistinct(e[0], Assign(e[1..], k, v));
      }
    }
  }

  /** `o[k] = v`. */
  function Put<V>(e: Entries<V>, k: string, v: V): (r: Entries<V>)
    ensures Get(r, k) == Some(v)
    ensures forall k' :: k' != k ==> Get(r, k') == Get(e, k')
    ensures Get(e, k).None? ==> r == e + [(k, v)]
    ensures DistinctKeys(e) ==> DistinctKeys(r)
  {
    AssignGet(e, k, v);
    AssignAppends(e, k, v);
    AssignDistinct(e, k, v);
    Assign(e, k, v)
  }

  /** Assigning an existing key keeps every key in its position. */
  lemma {:induction false} PutKeepsKeys<V>(e: Entries<V>, k: string, v: V)
    requires Get(e, k).Some?
    ensures Keys(Put(e, k, v)) == Keys(e)
  {
    if e[0].0 != k {
      PutKeepsKeys(e[1..], k, v);
      assert Keys(Assign(e, k, v)) == [e[0].0] + Keys(Assign(e[1..], k, v));
    }
  }

  /** Lookup in a list with a first entry: that entry, or lookup in the rest. */
  lemma ConsGet<V>(x: (string, V), t: Entries<V>)
    ensures forall k :: Get([x] + t, k) == if x.0 == k then Some(x.1) else Get(t, k)
  {
    assert ([x] + t)[1..] == t;
  }

  /** A first entry whose key the rest lacks keeps the keys distinct. */
  lemma ConsDistinct<V>(x: (string, V), t: Entries<V>)
    ensures DistinctKeys(t) && Get(t, x.0).None? ==> DistinctKeys([x] + t)
  {
    if DistinctKeys(t) && Get(t, x.0).None? {
      forall i, j | 0 <= i < j < |[x] + t| ensures ([x] + t)[i].0 != ([x] + t)[j].0 {
        if i > 0 {
          assert ([x] + t)[i] == t[i - 1] && ([x] + t)[j] == t[j - 1];
        } else {
          assert ([x] + t)[j] == t[j - 1];
        }
      }
    }
  }

  /** `delete o[k]`. */
  function Remove<V>(e: Entries<V>, k: string): (r: Entries<V>)
    ensures Get(r, k).None?
    ensures forall k' :: k' != k ==> Get(r, k') == Get(e, k')
    ensures DistinctKeys(e) ==> DistinctKeys(r)
    ensures |r| <= |e|
  {
    if |e| == 0 then []
    else if e[0].0 == k then Remove(e[1..], k)
    else
      var tail := Remove(e[1..], k);
      assert DistinctKeys(e) ==> Get(e[1..], e[0].0).None?;
      [e[0]] + tail
  }
}
