// Python dictionaries whose insertion order is observable, as association lists.
// `d[k] = v` replaces the value of an existing key in place and appends a new key
// at the end; lookups find the key's entry.

module Dicts {
  import opened Common

  type Dict<V> = seq<(string, V)>

  function Keys<V>(d: Dict<V>): (ks: seq<string>)
    ensures |ks| == |d|
    ensures forall i | 0 <= i < |d| :: ks[i] == d[i].0
  {
    if |d| == 0 then [] else [d[0].0] + Keys(d[1..])
  }

  predicate HasKey<V>(d: Dict<V>, k: string)
  {
    k in Keys(d)
  }

  /** `d.get(k)`: the value under k, or None. */
  function Get<V>(d: Dict<V>, k: string): (r: Option<V>)
    ensures r.Some? <==> HasKey(d, k)
  {
    if |d| == 0 then None
    else if d[0].0 == k then Some(d[0].1)
    else Get(d[1..], k)
  }

  /** `d[k] = v`. */
  function Put<V>(d: Dict<V>, k: string, v: V): (r: Dict<V>)
    ensures Get(r, k) == Some(v)
    ensures forall k' | k' != k :: Get(r, k') == Get(d, k')
    ensures |r| == if HasKey(d, k) then |d| else |d| + 1
  {
    if |d| == 0 then [(k, v)]
    else if d[0].0 == k then [(k, v)] + d[1..]
    else [d[0]] + Put(d[1..], k, v)
  }

  lemma KeysCons<V>(x: (string, V), d: Dict<V>)
    ensures Keys([x] + d) == [x.0] + Keys(d)
  {
  }

  lemma PutKeys<V>(d: Dict<V>, k: string, v: V)
    ensures Keys(Put(d, k, v)) == if HasKey(d, k) then Keys(d) else Keys(d) + [k]
  {
    if |d| > 0 {
      var tail := d[1..];
      assert Keys(d) == [d[0].0] + Keys(tail);
      if d[0].0 == k {
        KeysCons((k, v), tail);
      } else {
        var pt := Put(tail, k, v);
        assert Put(d, k, v) == [d[0]] + pt;
        KeysCons(d[0], pt);
        PutKeys(tail, k, v);
        if HasKey(tail, k) {
          assert HasKey(d, k);
        } else {
          assert !HasKey(d, k);
          calc {
            [d[0].0] + Keys(pt);
            [d[0].0] + (Keys(tail) + [k]);
            ([d[0].0] + Keys(tail)) + [k];
          }
        }
      }
    }
  }

  /** Writing a key twice leaves the second value, in the first write's position. */
  lemma {:induction false} PutPut<V>(d: Dict<V>, k: string, v: V, w: V)
    ensures Put(Put(d, k, v), k, w) == Put(d, k, w)
  {
    if |d| > 0 && d[0].0 != k {
      PutPut(d[1..], k, v, w);
    }
  }

  predicate DistinctKeys<V>(d: Dict<V>)
  {
    NoDup(Keys(d))
  }

  lemma PutDistinct<V>(d: Dict<V>, k: string, v: V)
    requires DistinctKeys(d)
    ensures DistinctKeys(Put(d, k, v))
  {
    PutKeys(d, k, v);
    if !HasKey(d, k) {
      var ks := Keys(d) + [k];
      assert forall i, j | 0 <= i < j < |ks| :: ks[i] != ks[j] by {
        forall i, j | 0 <= i < j < |ks| ensures ks[i] != ks[j] {
          if j == |ks| - 1 {
            assert ks[i] in Keys(d);
          }
        }
      }
    }
  }

  lemma GetAt<V>(d: Dict<V>, i: nat)
    requires i < |d| && DistinctKeys(d)
    ensures Get(d, d[i].0) == Some(d[i].1)
  {
    if i > 0 {
      assert Keys(d)[0] != Keys(d)[i];
      assert DistinctKeys(d[1..]) by {
        var ks := Keys(d[1..]);
        forall a, b | 0 <= a < b < |ks| ensures ks[a] != ks[b] {
          assert Keys(d)[a + 1] != Keys(d)[b + 1];
        }
      }
      GetAt(d[1..], i - 1);
    }
  }

  /** The values of d, in order. */
  function Values<V>(d: Dict<V>): (vs: seq<V>)
    ensures |vs| == |d|
    ensures forall i | 0 <= i < |d| :: vs[i] == d[i].1
  {
    seq(|d|, i requires 0 <= i < |d| => d[i].1)
  }
}
