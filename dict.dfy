/**
 * A Python dict with string keys: entries kept in insertion order,
 * assignment to an existing key replaces its value in place.
 */
module Dict {
  import opened Wrappers

  type Entries<V> = seq<(string, V)>

  /** `list(d.keys())`, in iteration order. */
  function Keys<V>(d: Entries<V>): (ks: seq<string>)
    ensures |ks| == |d|
    ensures forall i :: 0 <= i < |d| ==> ks[i] == d[i].0
  {
    if d == [] then [] else [d[0].0] + Keys(d[1..])
  }

  predicate NoDuplicates(ks: seq<string>) {
    forall i, j :: 0 <= i < j < |ks| ==> ks[i] != ks[j]
  }

  /** No key occurs twice. */
  predicate Distinct<V>(d: Entries<V>) {
    NoDuplicates(Keys(d))
  }

  /** `d.get(k)`. */
  function Lookup<V>(d: Entries<V>, k: string): (r: Option<V>)
    ensures r == None <==> k !in Keys(d)
    ensures r.Some? ==> exists i :: 0 <= i < |d| && d[i] == (k, r.value)
  {
    if d == [] then None
    else if d[0].0 == k then Some(d[0].1)
    else Lookup(d[1..], k)
  }

  /** `d[k] = v`. */
  function Put<V>(d: Entries<V>, k: string, v: V): (r: Entries<V>)
    ensures Keys(r) == if k in Keys(d) then Keys(d) else Keys(d) + [k]
  {
    if d == [] then [(k, v)]
    else if d[0].0 == k then [(k, v)] + d[1..]
    else [d[0]] + Put(d[1..], k, v)
  }

  /** Assignment never makes a key occur twice. */
  lemma PutDistinct<V>(d: Entries<V>, k: string, v: V)
    requires Distinct(d)
    ensures Distinct(Put(d, k, v))
  {
    var ks, rs := Keys(d), Keys(Put(d, k, v));
    if k !in ks {
      forall i, j | 0 <= i < j < |rs| ensures rs[i] != rs[j] {
        if j == |ks| {
          assert rs[i] == ks[i];
        }
      }
    }
  }

  /** After `d[k] = v`, `d.get(k)` is v and every other key reads as before. */
  lemma {:induction false} PutLookup<V>(d: Entries<V>, k: string, v: V, k': string)
    decreases |d|
    ensures Lookup(Put(d, k, v), k') == if k' == k then Some(v) else Lookup(d, k')
  {
    if d != [] && d[0].0 != k {
      PutLookup(d[1..], k, v, k');
      assert ([d[0]] + Put(d[1..], k, v))[1..] == Put(d[1..], k, v);
    }
  }
}
