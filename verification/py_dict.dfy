/** A Python dict as the scripts use it: an insertion-ordered table in which
    assigning to an existing key replaces the value in place and assigning to
    a new key appends it. Iterating `d.items()` walks the entries in order. */
module PyDict {

  datatype Option<T> = None | Some(value: T)

  type Dict<K, V> = seq<(K, V)>

  /** The keys present in `d`. */
  function Keys<K(==,!new), V>(d: Dict<K, V>): set<K>
  {
    set p | 0 <= p < |d| :: d[p].0
  }

  /** No key occurs twice, which every dict built by `Put` satisfies. */
  predicate DistinctKeys<K(==,!new), V>(d: Dict<K, V>)
  {
    forall p, q :: 0 <= p < q < |d| ==> d[p].0 != d[q].0
  }

  /** The position of `k` in `d`, or -1 when `k` is absent. */
  function IndexOf<K(==,!new), V>(d: Dict<K, V>, k: K): (r: int)
    ensures -1 <= r < |d|
    ensures r >= 0 ==> d[r].0 == k
    ensures r >= 0 ==> forall p :: 0 <= p < r ==> d[p].0 != k
    ensures r == -1 <==> k !in Keys(d)
  {
    if d == [] then -1
    else if d[0].0 == k then 0
    else
      var r := IndexOf(d[1..], k);
      assert forall p :: 0 < p < |d| ==> d[p] == d[1..][p - 1];
      assert forall q :: 0 <= q < |d| - 1 ==> d[1..][q] == d[q + 1];
      if r == -1 then -1 else r + 1
  }

  /** `d[k]` when present. */
  function Lookup<K(==,!new), V>(d: Dict<K, V>, k: K): (r: Option<V>)
    ensures r.Some? <==> k in Keys(d)
    ensures r.Some? ==> exists p :: 0 <= p < |d| && d[p] == (k, r.value)
  {
    var p := IndexOf(d, k);
    if p < 0 then None else Some(d[p].1)
  }

  /** `d.get(k, default)`. */
  function Get<K(==,!new), V>(d: Dict<K, V>, k: K, default: V): V
  {
    match Lookup(d, k)
    case Some(v) => v
    case None => default
  }

  /** `d[k] = v`: the value of an existing key is replaced where it stands,
      a new key is appended at the end. */
  function Put<K(==,!new), V>(d: Dict<K, V>, k: K, v: V): (r: Dict<K, V>)
    ensures Keys(r) == Keys(d) + {k}
    ensures Lookup(r, k) == Some(v)
    ensures forall k' :: k' != k ==> Lookup(r, k') == Lookup(d, k')
    ensures DistinctKeys(d) ==> DistinctKeys(r)
    ensures |r| == if k in Keys(d) then |d| else |d| + 1
  {
    var p := IndexOf(d, k);
    if p < 0 then
      var r := d + [(k, v)];
      assert forall q :: 0 <= q < |d| ==> r[q] == d[q];
      assert Keys(r) == Keys(d) + {k} by {
        forall x | x in Keys(r) ensures x in Keys(d) + {k} {
          var q :| 0 <= q < |r| && r[q].0 == x;
          if q < |d| { assert d[q].0 == x; }
        }
        assert r[|d|].0 == k;
      }
      forall k' | k' != k ensures Lookup(r, k') == Lookup(d, k') {
        PrefixIndex(d, r, k');
      }
      PrefixIndex(d, r, k);
      r
    else
      var r := d[p := (k, v)];
      assert Keys(r) == Keys(d) by {
        forall x | x in Keys(d) ensures x in Keys(r) {
          var q :| 0 <= q < |d| && d[q].0 == x;
          assert r[q].0 == x;
        }
        forall x | x in Keys(r) ensures x in Keys(d) {
          var q :| 0 <= q < |r| && r[q].0 == x;
          assert d[q].0 == x;
        }
      }
      forall k' ensures IndexOf(r, k') == IndexOf(d, k') {
        SameKeysIndex(d, r, k');
      }
      r
  }

  /** Appending an entry for `k` does not move the entries before it. */
  lemma {:induction false} PrefixIndex<K(!new), V>(d: Dict<K, V>, r: Dict<K, V>, k: K)
    requires |r| == |d| + 1
    requires forall q :: 0 <= q < |d| ==> r[q] == d[q]
    ensures k in Keys(d) ==> IndexOf(r, k) == IndexOf(d, k)
    ensures k !in Keys(d) && r[|d|].0 == k ==> IndexOf(r, k) == |d|
  {
    var i, j := IndexOf(r, k), IndexOf(d, k);
    assert forall q :: 0 <= q < |d| ==> d[q].0 in Keys(d);
    assert forall q :: 0 <= q < |r| ==> r[q].0 in Keys(r);
    if j >= 0 {
      assert r[j].0 == k;
    }
  }

  /** Overwriting a value in place keeps every key at its position. */
  lemma {:induction false} SameKeysIndex<K(!new), V>(d: Dict<K, V>, r: Dict<K, V>, k: K)
    requires |r| == |d|
    requires forall q :: 0 <= q < |d| ==> r[q].0 == d[q].0
    ensures IndexOf(r, k) == IndexOf(d, k)
  {
    var i, j := IndexOf(r, k), IndexOf(d, k);
    assert forall q :: 0 <= q < |d| ==> d[q].0 in Keys(d);
    assert forall q :: 0 <= q < |r| ==> r[q].0 in Keys(r);
  }

  /** A value read with `get` is either a stored value or the default. */
  lemma GetFrom<K(!new), V>(d: Dict<K, V>, k: K, default: V)
    ensures Get(d, k, default) == default || exists p :: 0 <= p < |d| && d[p] == (k, Get(d, k, default))
  {
  }

  /** Assigning to a new key appends exactly one entry. */
  lemma PutNew<K(!new), V>(d: Dict<K, V>, k: K, v: V)
    requires k !in Keys(d)
    ensures Put(d, k, v) == d + [(k, v)]
  {
  }

  /** `d[k1] = v1; d[k2] = v2; ...` in order; a dict display
      `{k1: v1, k2: v2, ...}` is `PutAll([], items)`. */
  function PutAll<K(==,!new), V>(d: Dict<K, V>, items: seq<(K, V)>): (r: Dict<K, V>)
    ensures DistinctKeys(d) ==> DistinctKeys(r)
  {
    if items == [] then d
    else
      var last := items[|items| - 1];
      Put(PutAll(d, items[..|items| - 1]), last.0, last.1)
  }

  /** The keys after `PutAll` are the old keys and the assigned ones. */
  lemma PutAllKeys<K(!new), V>(d: Dict<K, V>, items: seq<(K, V)>)
    ensures forall k :: k in Keys(PutAll(d, items)) <==> k in Keys(d) || exists p :: 0 <= p < |items| && items[p].0 == k
  {
    forall k ensures k in Keys(PutAll(d, items)) <==> k in Keys(d) || exists p :: 0 <= p < |items| && items[p].0 == k {
      PutAllKey(d, items, k);
    }
  }

  /** One key at a time: `k` is present after `PutAll` exactly when it was
      present before or some item assigns it. */
  lemma {:induction false} PutAllKey<K(!new), V>(d: Dict<K, V>, items: seq<(K, V)>, k: K)
    ensures k in Keys(PutAll(d, items)) <==> k in Keys(d) || exists p :: 0 <= p < |items| && items[p].0 == k
  {
    if items != [] {
      var init := items[..|items| - 1];
      var last := items[|items| - 1];
      PutAllKey(d, init, k);
      assert Keys(PutAll(d, items)) == Keys(PutAll(d, init)) + {last.0};
      AssignedSplit(items, init, k);
    }
  }

  /** Some item assigns `k` exactly when an earlier item or the last one does. */
  lemma AssignedSplit<K, V>(items: seq<(K, V)>, init: seq<(K, V)>, k: K)
    requires items != [] && init == items[..|items| - 1]
    ensures (exists p :: 0 <= p < |items| && items[p].0 == k) <==>
            (exists p :: 0 <= p < |init| && init[p].0 == k) || items[|items| - 1].0 == k
  {
    if exists p :: 0 <= p < |items| && items[p].0 == k {
      var p :| 0 <= p < |items| && items[p].0 == k;
      if p < |init| {
        assert init[p] == items[p];
      }
    }
    if exists p :: 0 <= p < |init| && init[p].0 == k {
      var p :| 0 <= p < |init| && init[p].0 == k;
      assert items[p] == init[p];
    }
  }

  /** When every assigned key is new and none repeats, `PutAll` only
      appends. */
  lemma {:induction false} PutAllFresh<K(!new), V>(d: Dict<K, V>, items: seq<(K, V)>)
    requires DistinctKeys(d + items)
    ensures PutAll(d, items) == d + items
  {
    if items != [] {
      var init := items[..|items| - 1];
      var last := items[|items| - 1];
      var all := d + items;
      assert all[..|all| - 1] == d + init;
      assert all[|all| - 1] == last;
      assert DistinctKeys(d + init) by {
        forall a, b | 0 <= a < b < |d + init| ensures (d + init)[a].0 != (d + init)[b].0 {
          assert (d + init)[a] == all[a] && (d + init)[b] == all[b];
        }
      }
      PutAllFresh(d, init);
      LastFresh(all);
      PutNew(d + init, last.0, last.1);
      assert items == init + [last];
    }
  }

  /** The last key of a table without repeats is not among the earlier ones. */
  lemma LastFresh<K(!new), V>(items: Dict<K, V>)
    requires items != [] && DistinctKeys(items)
    ensures items[|items| - 1].0 !in Keys(items[..|items| - 1])
  {
    var init := items[..|items| - 1];
    forall q | 0 <= q < |init| ensures init[q].0 != items[|items| - 1].0 {
      assert init[q] == items[q];
    }
  }

  /** Assigning one more item. */
  lemma PutAllAppend<K(!new), V>(d: Dict<K, V>, items: seq<(K, V)>, item: (K, V))
    ensures PutAll(d, items + [item]) == Put(PutAll(d, items), item.0, item.1)
  {
    assert (items + [item])[..|items|] == items;
  }
}
