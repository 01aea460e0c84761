/** Python's `dict`, which remembers insertion order: a sequence of key/value
    pairs (every dictionary of the scraper is keyed by strings). Assigning to
    a key that is present replaces its value in place; assigning to a new key
    appends it. Iteration (`items()`, `keys()`,
    `values()`) follows that order. */
module ODict {
  import opened Wrappers

  type Dict<V> = seq<(string, V)>

  function Keys<V>(d: Dict<V>): (ks: seq<string>)
    ensures |ks| == |d|
    ensures forall i :: 0 <= i < |d| ==> ks[i] == d[i].0
  {
    seq(|d|, i requires 0 <= i < |d| => d[i].0)
  }

  function Values<V>(d: Dict<V>): (vs: seq<V>)
    ensures |vs| == |d|
    ensures forall i :: 0 <= i < |d| ==> vs[i] == d[i].1
  {
    seq(|d|, i requires 0 <= i < |d| => d[i].1)
  }

  ghost predicate DistinctKeys<V>(d: Dict<V>)
  {
    forall i, j :: 0 <= i < j < |d| ==> d[i].0 != d[j].0
  }

  /** The position of key `k`, or `|d|` when `k` is not a key. */
  function IndexOf<V>(d: Dict<V>, k: string): (i: nat)
    ensures i <= |d|
    ensures i < |d| ==> d[i].0 == k
    ensures forall j :: 0 <= j < i ==> d[j].0 != k
  {
    if d == [] then 0
    else if d[0].0 == k then 0
    else 1 + IndexOf(d[1..], k)
  }

  /** `d.get(k)`: `None` models a missing key. */
  function Get<V>(d: Dict<V>, k: string): (r: Option<V>)
    ensures r.Some? <==> k in Keys(d)
  {
    var i := IndexOf(d, k);
    if i < |d| then Some(d[i].1) else None
  }

  /** `d[k] = v` */
  function Put<V>(d: Dict<V>, k: string, v: V): Dict<V>
  {
    var i := IndexOf(d, k);
    if i < |d| then d[i := (k, v)] else d + [(k, v)]
  }

  /** After `d[k] = v` the key holds `v`, every other key keeps its value,
      a present key keeps its place and a new key goes last. */
  lemma PutSpec<V>(d: Dict<V>, k: string, v: V)
    ensures Get(Put(d, k, v), k) == Some(v)
    ensures forall k' :: k' != k ==> Get(Put(d, k, v), k') == Get(d, k')
    ensures Keys(Put(d, k, v)) == if k in Keys(d) then Keys(d) else Keys(d) + [k]
    ensures DistinctKeys(d) ==> DistinctKeys(Put(d, k, v))
  {
    var i := IndexOf(d, k);
    var r := Put(d, k, v);
    assert Keys(r) == if k in Keys(d) then Keys(d) else Keys(d) + [k];
    forall k' | k' != k
      ensures Get(r, k') == Get(d, k')
    {
      var a, b := IndexOf(r, k'), IndexOf(d, k');
      forall j | 0 <= j < |d|
        ensures d[j].0 == k' <==> r[j].0 == k'
      {
        assert i < |d| && j == i ==> d[j].0 == k;
      }
      if a < |r| {
        assert a < |d|;
        assert r[a] == d[a];
      } else {
        assert forall j :: 0 <= j < |d| ==> d[j].0 != k';
      }
    }
  }

  /** Successive `d[k] = v` for the pairs in order. */
  function PutAll<V>(d: Dict<V>, pairs: seq<(string, V)>): Dict<V>
    decreases |pairs|
  {
    if pairs == [] then d
    else
      var n := |pairs| - 1;
      Put(PutAll(d, pairs[..n]), pairs[n].0, pairs[n].1)
  }

  /** The value the last pair with key `k` carries. */
  function LastFor<V>(pairs: seq<(string, V)>, k: string): Option<V>
    decreases |pairs|
  {
    if pairs == [] then None
    else if pairs[|pairs| - 1].0 == k then Some(pairs[|pairs| - 1].1)
    else LastFor(pairs[..|pairs| - 1], k)
  }

  /** After successive assignments, a key holds the value of its last
      assignment, or its old value when none of the pairs assigns it. */
  lemma {:induction false} GetPutAll<V>(d: Dict<V>, pairs: seq<(string, V)>, k: string)
    ensures Get(PutAll(d, pairs), k) ==
      if LastFor(pairs, k).Some? then LastFor(pairs, k) else Get(d, k)
    decreases |pairs|
  {
    if pairs != [] {
      var n := |pairs| - 1;
      GetPutAll(d, pairs[..n], k);
      PutSpec(PutAll(d, pairs[..n]), pairs[n].0, pairs[n].1);
    }
  }

  /** Looking a key up in a dictionary with one more pair at the end: the
      first occurrence wins. */
  lemma GetSnoc<V>(d: Dict<V>, x: (string, V), k: string)
    ensures Get(d + [x], k) == if k in Keys(d) then Get(d, k) else if x.0 == k then Some(x.1) else None
  {
    var e := d + [x];
    var i, j := IndexOf(e, k), IndexOf(d, k);
    if j < |d| {
      assert e[j] == d[j];
      assert forall j' | 0 <= j' < j :: e[j'] == d[j'];
    } else {
      assert forall j' | 0 <= j' < |d| :: e[j'] == d[j'] && d[j'].0 != k;
      assert k !in Keys(d);
      assert e[|d|] == x;
    }
  }

  /** With distinct keys, the last pair for a key is its only one. */
  lemma {:induction false} LastForDistinct<V>(d: Dict<V>, k: string)
    requires DistinctKeys(d)
    ensures LastFor(d, k) == Get(d, k)
    decreases |d|
  {
    if d != [] {
      var n := |d| - 1;
      var pre, x := d[..n], d[n];
      assert d == pre + [x];
      assert DistinctKeys(pre) by {
        forall i, j | 0 <= i < j < |pre| ensures pre[i].0 != pre[j].0 {
          assert pre[i] == d[i] && pre[j] == d[j];
        }
      }
      LastForDistinct(pre, k);
      GetSnoc(pre, x, k);
    }
  }

  /** Assignments never reorder or drop keys: the old keys stay a prefix, and
      the keys are the old ones plus the assigned ones. */
  lemma {:induction false} KeysPutAll<V>(d: Dict<V>, pairs: seq<(string, V)>)
    ensures Keys(d) <= Keys(PutAll(d, pairs))
    ensures forall k :: k in Keys(PutAll(d, pairs)) <==> k in Keys(d) || k in Keys(pairs)
    ensures DistinctKeys(d) ==> DistinctKeys(PutAll(d, pairs))
    decreases |pairs|
  {
    if pairs != [] {
      var n := |pairs| - 1;
      KeysPutAll(d, pairs[..n]);
      PutSpec(PutAll(d, pairs[..n]), pairs[n].0, pairs[n].1);
      assert Keys(pairs) == Keys(pairs[..n]) + [pairs[n].0];
    }
  }
}
