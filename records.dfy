/**
 * A JavaScript object used as a dictionary (`Record<string, V>`): its entries in
 * insertion order. `Object.keys`, `Object.values` and `Object.entries` list them in
 * that order, and assigning `o[k] = v` replaces the value of an existing key where it
 * stands or appends a new key at the end.
 */
module Records {
  import opened Wrappers

  type Record<V> = seq<(string, V)>

  /** `Object.keys(r)`. */
  function Keys<V>(r: Record<V>): (ks: seq<string>)
    ensures |ks| == |r|
    ensures forall i | 0 <= i < |r| :: ks[i] == r[i].0
  {
    seq(|r|, i requires 0 <= i < |r| => r[i].0)
  }

  /** `Object.values(r)`. */
  function Values<V>(r: Record<V>): (vs: seq<V>)
    ensures |vs| == |r|
    ensures forall i | 0 <= i < |r| :: vs[i] == r[i].1
  {
    seq(|r|, i requires 0 <= i < |r| => r[i].1)
  }

  /** No key occurs twice, as in every JavaScript object. */
  predicate UniqueKeys<V>(r: Record<V>) {
    forall i, j | 0 <= i < j < |r| :: r[i].0 != r[j].0
  }

  /** `r[k]`, with `None` for a missing key. */
  function Get<V>(r: Record<V>, k: string): (v: Option<V>)
    ensures v.Some? <==> k in Keys(r)
    decreases |r|
  {
    if |r| == 0 then None
    else if r[0].0 == k then Some(r[0].1)
    else Get(r[1..], k)
  }

  /** A value found under a key is one of `Object.values(r)`. */
  lemma {:induction false} GetInValues<V>(r: Record<V>, k: string)
    requires Get(r, k).Some?
    ensures Get(r, k).value in Values(r)
    decreases |r|
  {
    if r[0].0 != k {
      GetInValues(r[1..], k);
      assert Values(r[1..]) == Values(r)[1..];
    } else {
      assert Values(r)[0] == r[0].1;
    }
  }

  /**
   * `r[k] = v`: the entry for `k` gets the new value in its own position, or,
   * when `k` is new, is added last.
   */
  function Set<V>(r: Record<V>, k: string, v: V): (r': Record<V>)
    ensures |r'| == if k in Keys(r) then |r| else |r| + 1
    decreases |r|
  {
    if |r| == 0 then [(k, v)]
    else if r[0].0 == k then [(k, v)] + r[1..]
    else [r[0]] + Set(r[1..], k, v)
  }

  /** After `r[k] = v`, `r[k]` is `v` and every other key keeps its value. */
  lemma {:induction false} SetGet<V>(r: Record<V>, k: string, v: V)
    ensures Get(Set(r, k, v), k) == Some(v)
    ensures forall k' | k' != k :: Get(Set(r, k, v), k') == Get(r, k')
    decreases |r|
  {
    if |r| > 0 && r[0].0 != k {
      SetGet(r[1..], k, v);
    }
  }

  /** `r[k] = v` keeps the keys and their order, adding `k` last when it is new. */
  lemma {:induction false} SetKeys<V>(r: Record<V>, k: string, v: V)
    ensures Keys(Set(r, k, v)) == if k in Keys(r) then Keys(r) else Keys(r) + [k]
    decreases |r|
  {
    if |r| > 0 && r[0].0 != k {
      SetKeys(r[1..], k, v);
      var s := Set(r, k, v);
      assert s[0] == r[0] && s[1..] == Set(r[1..], k, v);
      KeysCons(r);
      KeysCons(s);
    } else if |r| > 0 {
      assert Keys(Set(r, k, v)) == Keys(r);
    }
  }

  /** The keys of a non-empty record: its first key, then the keys of the rest. */
  lemma KeysCons<V>(r: Record<V>)
    requires |r| > 0
    ensures Keys(r) == [r[0].0] + Keys(r[1..])
  {
    assert forall i | 1 <= i < |r| :: r[1..][i - 1] == r[i];
  }

  /** An assignment never duplicates a key. */
  lemma SetKeepsKeysUnique<V>(r: Record<V>, k: string, v: V)
    requires UniqueKeys(r)
    ensures UniqueKeys(Set(r, k, v))
  {
    var r' := Set(r, k, v);
    SetKeys(r, k, v);
    var ks, ks' := Keys(r), Keys(r');
    forall i, j | 0 <= i < j < |r'| ensures r'[i].0 != r'[j].0 {
      assert ks'[i] == r'[i].0 && ks'[j] == r'[j].0;
      if k !in ks && j == |r| {
        assert ks'[i] == ks[i];
      } else {
        assert ks'[i] == ks[i] && ks'[j] == ks[j];
      }
    }
  }

  /** Assigning the same key twice leaves only the second value. */
  lemma {:induction false} SetSet<V>(r: Record<V>, k: string, a: V, b: V)
    ensures Set(Set(r, k, a), k, b) == Set(r, k, b)
    decreases |r|
  {
    if |r| > 0 && r[0].0 != k {
      SetSet(r[1..], k, a, b);
    }
  }
}
