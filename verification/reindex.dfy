/** Loading the network for the solver (solve_adaptive.py:25-57): the sparse
    station ids are sorted and mapped onto dense indices 0..N-1, OD entries that
    name unknown stations are dropped, demand is summed per destination and the
    adjacency lists are rewritten in dense indices. The JSON parsing that
    produces `edges` and the OD entries is not part of this model. */
module Reindex {
  import opened PyDict
  import opened Sums

  /** Strictly increasing, hence sorted and free of duplicates. */
  predicate Increasing(s: seq<int>)
  {
    forall a, b :: 0 <= a < b < |s| ==> s[a] < s[b]
  }

  /** No element occurs twice. */
  predicate NoDuplicates(s: seq<int>)
  {
    forall a, b :: 0 <= a < b < |s| ==> s[a] != s[b]
  }

  /** Some element of a non-empty set. */
  lemma PickOne(s: set<int>) returns (x: int)
    requires s != {}
    ensures x in s
  {
    assert (forall y :: y !in s) ==> s == {};
    x :| x in s;
  }

  /** A non-empty finite set of integers has a least element. */
  lemma {:induction false} MinExists(keys: set<int>)
    requires keys != {}
    ensures exists m :: m in keys && forall y :: y in keys ==> m <= y
    decreases |keys|
  {
    var x := PickOne(keys);
    var rest := keys - {x};
    assert forall y :: y in keys ==> y == x || y in rest;
    if rest == {} {
      assert forall y :: y in keys ==> x <= y;
    } else {
      MinExists(rest);
      var m :| m in rest && forall y :: y in rest ==> m <= y;
      if x < m {
        assert forall y :: y in keys ==> x <= y;
      } else {
        assert forall y :: y in keys ==> m <= y;
      }
    }
  }

  /** The least station id. */
  function MinOf(keys: set<int>): (m: int)
    requires keys != {}
    ensures m in keys
    ensures forall y :: y in keys ==> m <= y
  {
    MinExists(keys);
    var m :| m in keys && forall y :: y in keys ==> m <= y;
    m
  }

  /** `sorted(edges.keys())`: the station ids in increasing order. */
  function SortedStations(keys: set<int>): (r: seq<int>)
    ensures Increasing(r)
    ensures forall s :: s in r <==> s in keys
    ensures |r| == |keys|
    decreases |keys|
  {
    if keys == {} then []
    else
      var m := MinOf(keys);
      var rest := SortedStations(keys - {m});
      var r := [m] + rest;
      assert forall b :: 0 <= b < |rest| ==> rest[b] in keys - {m};
      assert forall b :: 0 < b < |r| ==> r[b] == rest[b - 1];
      r
  }

  /** `{s: i for i, s in enumerate(all_stations)}`. */
  function StationToIdx(stations: seq<int>): (m: map<int, int>)
    requires Increasing(stations)
    ensures forall s :: s in m <==> s in stations
    ensures forall s :: s in m ==> 0 <= m[s] < |stations| && stations[m[s]] == s
    ensures forall i :: 0 <= i < |stations| ==> stations[i] in m && m[stations[i]] == i
  {
    var m := map i | 0 <= i < |stations| :: stations[i] := i;
    assert forall i :: 0 <= i < |stations| ==> stations[i] in m;
    m
  }

  /** No two stations share an index. */
  predicate Injective(m: map<int, int>)
  {
    forall s, t :: s in m && t in m && s != t ==> m[s] != m[t]
  }

  /** `{i: s for s, i in station_to_idx.items()}`: the inverse table. */
  function IdxToStation(toIdx: map<int, int>): (m: map<int, int>)
    requires Injective(toIdx)
    ensures forall i :: i in m <==> exists s :: s in toIdx && toIdx[s] == i
    ensures forall s :: s in toIdx ==> toIdx[s] in m && m[toIdx[s]] == s
  {
    var m := map s | s in toIdx :: toIdx[s] := s;
    assert forall s :: s in toIdx ==> toIdx[s] in m;
    m
  }

  /** The station tables of one network. */
  datatype Indexing = Indexing(stations: seq<int>, toIdx: map<int, int>, toStation: map<int, int>)

  /** Lines 26-29 of the loader. */
  function BuildIndexing(keys: set<int>): Indexing
  {
    var stations := SortedStations(keys);
    var toIdx := StationToIdx(stations);
    Indexing(stations, toIdx, IdxToStation(toIdx))
  }

  /** `station_to_idx` maps the known stations bijectively onto 0..N-1 and
      keeps their order; `idx_to_station` is its exact inverse. */
  ghost predicate IsBijection(keys: set<int>, ix: Indexing)
  {
    && |ix.stations| == |keys|
    && ix.toIdx.Keys == keys
    && (forall s :: s in keys ==> 0 <= ix.toIdx[s] < |keys|)
    && (forall s, t :: s in keys && t in keys && s < t ==> ix.toIdx[s] < ix.toIdx[t])
    && (forall i :: i in ix.toStation <==> 0 <= i < |keys|)
    && (forall s :: s in keys ==> ix.toStation[ix.toIdx[s]] == s)
    && (forall i :: 0 <= i < |keys| ==> ix.toStation[i] in keys && ix.toIdx[ix.toStation[i]] == i)
  }

  /** The tables of lines 26-29 form that bijection. */
  lemma IndexingIsBijection(keys: set<int>)
    ensures IsBijection(keys, BuildIndexing(keys))
  {
    var ix := BuildIndexing(keys);
    var st, toIdx, toStation := ix.stations, ix.toIdx, ix.toStation;
    assert toIdx.Keys == keys;
    TablesAreInverse(st, toIdx, toStation);
  }

  /** The three tables built from a sorted station list agree. */
  lemma TablesAreInverse(st: seq<int>, toIdx: map<int, int>, toStation: map<int, int>)
    requires Increasing(st)
    requires toIdx == StationToIdx(st)
    requires Injective(toIdx)
    requires toStation == IdxToStation(toIdx)
    ensures forall s, t :: s in toIdx && t in toIdx && s < t ==> toIdx[s] < toIdx[t]
    ensures forall i :: i in toStation <==> 0 <= i < |st|
    ensures forall i :: 0 <= i < |st| ==> toStation[i] == st[i]
  {
    forall s, t | s in toIdx && t in toIdx && s < t ensures toIdx[s] < toIdx[t] {
      var i, j := toIdx[s], toIdx[t];
      assert st[i] == s && st[j] == t;
    }
    forall i | 0 <= i < |st| ensures i in toStation && toStation[i] == st[i] {
      assert toIdx[st[i]] == i;
    }
  }

  /** One entry of the `od_data` object, with its "o,d" key already split. */
  datatype OdEntry = OdEntry(o: int, d: int, count: int)

  /** `od_data_raw`: dense (origin, destination) pairs to wagon counts. */
  type OdTable = Dict<(int, int), int>

  /** Both stations of the entry are known to the network. */
  predicate Known(e: OdEntry, toIdx: map<int, int>)
  {
    e.o in toIdx && e.d in toIdx
  }

  /** The dense key an OD entry is stored under. */
  function DenseKey(e: OdEntry, toIdx: map<int, int>): (int, int)
    requires Known(e, toIdx)
  {
    (toIdx[e.o], toIdx[e.d])
  }

  /** The table lines 32-36 build from the first `|entries|` entries. */
  function KeptOd(entries: seq<OdEntry>, toIdx: map<int, int>): OdTable
  {
    if entries == [] then []
    else
      var prev := KeptOd(entries[..|entries| - 1], toIdx);
      var e := entries[|entries| - 1];
      if Known(e, toIdx) then Put(prev, DenseKey(e, toIdx), e.count) else prev
  }

  /** Lenient OD ingestion: entries naming an unknown station are skipped. */
  method IngestOd(entries: seq<OdEntry>, toIdx: map<int, int>) returns (od: OdTable)
    ensures od == KeptOd(entries, toIdx)
  {
    od := [];
    var k := 0;
    while k < |entries|
      invariant 0 <= k <= |entries|
      invariant od == KeptOd(entries[..k], toIdx)
    {
      var e := entries[k];
      assert entries[..k + 1][..k] == entries[..k];
      if e.o in toIdx && e.d in toIdx {
        od := Put(od, (toIdx[e.o], toIdx[e.d]), e.count);
      }
      k := k + 1;
    }
    assert entries[..k] == entries;
  }

  /** An entry is the last one stored under its dense key. */
  predicate LastFor(entries: seq<OdEntry>, toIdx: map<int, int>, p: int)
  {
    0 <= p < |entries| && Known(entries[p], toIdx) &&
    forall q :: p < q < |entries| && Known(entries[q], toIdx) ==>
      DenseKey(entries[q], toIdx) != DenseKey(entries[p], toIdx)
  }

  /** A key is kept iff some entry with two known stations maps to it, and it
      holds the count of the last such entry (a later duplicate overwrites). */
  lemma KeptOdSpec(entries: seq<OdEntry>, toIdx: map<int, int>)
    ensures DistinctKeys(KeptOd(entries, toIdx))
    ensures forall k :: k in Keys(KeptOd(entries, toIdx)) <==>
      exists p :: 0 <= p < |entries| && Known(entries[p], toIdx) && DenseKey(entries[p], toIdx) == k
    ensures forall p :: LastFor(entries, toIdx, p) ==>
      Lookup(KeptOd(entries, toIdx), DenseKey(entries[p], toIdx)) == Some(entries[p].count)
  {
    KeptOdDistinct(entries, toIdx);
    forall k ensures k in Keys(KeptOd(entries, toIdx)) <==>
      exists p :: 0 <= p < |entries| && Known(entries[p], toIdx) && DenseKey(entries[p], toIdx) == k
    {
      KeptOdKey(entries, toIdx, k);
    }
    forall p | LastFor(entries, toIdx, p)
      ensures Lookup(KeptOd(entries, toIdx), DenseKey(entries[p], toIdx)) == Some(entries[p].count)
    {
      KeptOdLast(entries, toIdx, p);
    }
  }

  lemma {:induction false} KeptOdDistinct(entries: seq<OdEntry>, toIdx: map<int, int>)
    ensures DistinctKeys(KeptOd(entries, toIdx))
  {
    if entries != [] {
      KeptOdDistinct(entries[..|entries| - 1], toIdx);
    }
  }

  lemma {:induction false} KeptOdKey(entries: seq<OdEntry>, toIdx: map<int, int>, k: (int, int))
    ensures k in Keys(KeptOd(entries, toIdx)) <==>
      exists p :: 0 <= p < |entries| && Known(entries[p], toIdx) && DenseKey(entries[p], toIdx) == k
  {
    if entries != [] {
      var init := entries[..|entries| - 1];
      var e := entries[|entries| - 1];
      KeptOdKey(init, toIdx, k);
      var od := KeptOd(entries, toIdx);
      if exists p :: 0 <= p < |init| && Known(init[p], toIdx) && DenseKey(init[p], toIdx) == k {
        var p :| 0 <= p < |init| && Known(init[p], toIdx) && DenseKey(init[p], toIdx) == k;
        assert entries[p] == init[p];
      }
      if exists p :: 0 <= p < |entries| && Known(entries[p], toIdx) && DenseKey(entries[p], toIdx) == k {
        var p :| 0 <= p < |entries| && Known(entries[p], toIdx) && DenseKey(entries[p], toIdx) == k;
        if p < |init| {
          assert init[p] == entries[p];
        }
      }
    }
  }

  lemma {:induction false} KeptOdLast(entries: seq<OdEntry>, toIdx: map<int, int>, p: int)
    requires LastFor(entries, toIdx, p)
    ensures Lookup(KeptOd(entries, toIdx), DenseKey(entries[p], toIdx)) == Some(entries[p].count)
  {
    var init := entries[..|entries| - 1];
    var last := |entries| - 1;
    if p < last {
      assert init[p] == entries[p];
      assert LastFor(init, toIdx, p) by {
        forall q | p < q < |init| && Known(init[q], toIdx)
          ensures DenseKey(init[q], toIdx) != DenseKey(init[p], toIdx)
        {
          assert init[q] == entries[q];
        }
      }
      KeptOdLast(init, toIdx, p);
    }
  }

  /** Every kept key is a pair of dense indices. */
  lemma {:induction false} KeptOdInRange(entries: seq<OdEntry>, toIdx: map<int, int>, n: int)
    requires forall s :: s in toIdx ==> 0 <= toIdx[s] < n
    ensures forall k :: k in Keys(KeptOd(entries, toIdx)) ==> 0 <= k.0 < n && 0 <= k.1 < n
  {
    KeptOdSpec(entries, toIdx);
  }

  /** `sum(od_data_raw.values())`. */
  function TotalWagons(od: OdTable): int
  {
    if od == [] then 0 else TotalWagons(od[..|od| - 1]) + od[|od| - 1].1
  }

  /** What `demand[d]` accumulates: the counts of the entries bound for `d`. */
  function DestTotal(od: OdTable, d: int): int
  {
    if od == [] then 0
    else DestTotal(od[..|od| - 1], d) + (if od[|od| - 1].0.1 == d then od[|od| - 1].1 else 0)
  }

  /** Demand aggregation, lines 45-47: one pass over the items of the table. */
  method AggregateDemand(od: OdTable, n: nat) returns (demand: seq<int>)
    requires forall p :: 0 <= p < |od| ==> 0 <= od[p].0.1 < n
    ensures |demand| == n
    ensures forall d :: 0 <= d < n ==> demand[d] == DestTotal(od, d)
  {
    demand := seq(n, _ => 0);
    var k := 0;
    while k < |od|
      invariant 0 <= k <= |od|
      invariant |demand| == n
      invariant forall d :: 0 <= d < n ==> demand[d] == DestTotal(od[..k], d)
    {
      var key, cnt := od[k].0, od[k].1;
      assert od[..k + 1][..k] == od[..k];
      demand := demand[key.1 := demand[key.1] + cnt];
      k := k + 1;
    }
    assert od[..k] == od;
  }

  /** The per-destination demands add up to `total_wagons`. */
  lemma {:induction false} DemandSumsToTotal(od: OdTable, n: int)
    requires forall p :: 0 <= p < |od| ==> 0 <= od[p].0.1 < n
    ensures SumRange(0, n, d => DestTotal(od, d)) == TotalWagons(od)
  {
    if od == [] {
      SumRangeExt(0, n, d => DestTotal(od, d), _ => 0);
      SumRangeZero(0, n);
    } else {
      var init := od[..|od| - 1];
      var last := od[|od| - 1];
      assert forall p :: 0 <= p < |init| ==> init[p] == od[p];
      DemandSumsToTotal(init, n);
      SumRangePoint(0, n, d => DestTotal(init, d), d => DestTotal(od, d), last.0.1, last.1);
    }
  }

  /** Reading a table after a new key was appended. */
  lemma GetAppend(init: OdTable, k: (int, int), v: int, key: (int, int))
    requires k !in Keys(init)
    ensures Get(init + [(k, v)], key, 0) == Get(init, key, 0) + (if key == k then v else 0)
  {
    var od := init + [(k, v)];
    PrefixIndex(init, od, key);
  }

  /** With distinct dense keys, the demand of `d` is the column sum
      `sum(od_data_raw.get((i, d), 0) for i in range(N))` of the OD matrix. */
  lemma {:induction false} DestTotalIsColumnSum(od: OdTable, n: int, d: int)
    requires DistinctKeys(od)
    requires forall p :: 0 <= p < |od| ==> 0 <= od[p].0.0 < n
    ensures DestTotal(od, d) == SumRange(0, n, i => Get(od, (i, d), 0))
  {
    if od == [] {
      SumRangeExt(0, n, i => Get(od, (i, d), 0), _ => 0);
      SumRangeZero(0, n);
    } else {
      var init := od[..|od| - 1];
      var last := od[|od| - 1];
      assert od == init + [last];
      assert forall p :: 0 <= p < |init| ==> init[p] == od[p];
      assert last.0 !in Keys(init) by {
        forall p | 0 <= p < |init| ensures init[p].0 != last.0 {
          assert od[p].0 != od[|od| - 1].0;
        }
      }
      DestTotalIsColumnSum(init, n, d);
      var f := i => Get(init, (i, d), 0);
      var g := i => Get(od, (i, d), 0);
      forall i ensures g(i) == f(i) + (if i == last.0.0 then (if d == last.0.1 then last.1 else 0) else 0) {
        GetAppend(init, last.0, last.1, (i, d));
      }
      SumRangePoint(0, n, f, g, last.0.0, if d == last.0.1 then last.1 else 0);
    }
  }

  /** `[station_to_idx[neigh] for neigh in edges[s] if neigh in station_to_idx]`. */
  function ReindexRow(ns: seq<int>, toIdx: map<int, int>): (r: seq<int>)
    ensures |r| <= |ns|
    ensures forall j :: j in r <==> exists s :: s in ns && s in toIdx && toIdx[s] == j
  {
    if ns == [] then []
    else
      var rest := ReindexRow(ns[1..], toIdx);
      assert forall s :: s in ns <==> s == ns[0] || s in ns[1..];
      if ns[0] in toIdx then [toIdx[ns[0]]] + rest else rest
  }

  /** An injective table keeps a duplicate-free list duplicate-free. */
  lemma {:induction false} ReindexRowNoDuplicates(ns: seq<int>, toIdx: map<int, int>)
    requires Injective(toIdx)
    requires NoDuplicates(ns)
    ensures NoDuplicates(ReindexRow(ns, toIdx))
  {
    if ns != [] {
      var tail := ns[1..];
      assert forall a, b :: 0 <= a < b < |tail| ==> tail[a] == ns[a + 1] && tail[b] == ns[b + 1];
      ReindexRowNoDuplicates(tail, toIdx);
      var rest := ReindexRow(tail, toIdx);
      if ns[0] in toIdx {
        assert forall s :: s in tail ==> s != ns[0] by {
          forall b | 0 <= b < |tail| ensures tail[b] != ns[0] {
            assert tail[b] == ns[b + 1];
          }
        }
        assert toIdx[ns[0]] !in rest;
        var r := [toIdx[ns[0]]] + rest;
        forall a, b | 0 <= a < b < |r| ensures r[a] != r[b] {
          if a == 0 {
            assert r[b] == rest[b - 1];
          } else {
            assert r[a] == rest[a - 1] && r[b] == rest[b - 1];
          }
        }
      }
    }
  }

  /** Adjacency re-indexing, lines 54-57: row `i` is the re-indexed neighbour
      list of the `i`-th station. */
  method ReindexEdges(edges: map<int, seq<int>>, stations: seq<int>, toIdx: map<int, int>)
    returns (adj: seq<seq<int>>)
    requires Increasing(stations)
    requires toIdx == StationToIdx(stations)
    requires forall s :: s in stations ==> s in edges
    ensures |adj| == |stations|
    ensures forall i :: 0 <= i < |stations| ==> adj[i] == ReindexRow(edges[stations[i]], toIdx)
    ensures forall i, j :: 0 <= i < |adj| && j in adj[i] ==> 0 <= j < |stations|
  {
    adj := [];
    var k := 0;
    while k < |stations|
      invariant 0 <= k <= |stations|
      invariant |adj| == k
      invariant forall i :: 0 <= i < k ==> adj[i] == ReindexRow(edges[stations[i]], toIdx)
    {
      var s := stations[k];
      var i := toIdx[s];
      assert i == |adj|;
      adj := adj + [ReindexRow(edges[s], toIdx)];
      k := k + 1;
    }
  }

  /** Every stored neighbour list is symmetric over the known stations. */
  predicate SymmetricOn(edges: map<int, seq<int>>)
  {
    forall s, t :: s in edges && t in edges && t in edges[s] ==> s in edges[t]
  }

  /** Row `i` of `adj` is the re-indexed neighbour list of the `i`-th station. */
  ghost predicate ReindexedFrom(adj: seq<seq<int>>, edges: map<int, seq<int>>, ix: Indexing)
  {
    ix == BuildIndexing(edges.Keys) &&
    |adj| == |ix.stations| &&
    forall i :: 0 <= i < |adj| ==> adj[i] == ReindexRow(edges[ix.stations[i]], ix.toIdx)
  }

  /** Re-indexing keeps an undirected graph undirected. */
  lemma ReindexKeepsSymmetry(edges: map<int, seq<int>>, ix: Indexing, adj: seq<seq<int>>)
    requires ReindexedFrom(adj, edges, ix)
    requires SymmetricOn(edges)
    ensures forall i, j :: 0 <= i < |adj| && 0 <= j < |adj| ==> (j in adj[i] <==> i in adj[j])
  {
    forall i, j | 0 <= i < |adj| && 0 <= j < |adj| && j in adj[i] ensures i in adj[j] {
      SymmetricAt(edges, ix, adj, i, j);
    }
  }

  /** One re-indexed edge and its reverse. */
  lemma SymmetricAt(edges: map<int, seq<int>>, ix: Indexing, adj: seq<seq<int>>, i: int, j: int)
    requires ReindexedFrom(adj, edges, ix)
    requires SymmetricOn(edges)
    requires 0 <= i < |adj| && 0 <= j < |adj| && j in adj[i]
    ensures i in adj[j]
  {
    var st, toIdx := ix.stations, ix.toIdx;
    assert toIdx == StationToIdx(st);
    assert adj[i] == ReindexRow(edges[st[i]], toIdx);
    var t :| t in edges[st[i]] && t in toIdx && toIdx[t] == j;
    assert st[toIdx[t]] == t;
    assert st[i] in toIdx && st[j] in toIdx && toIdx[st[i]] == i;
    assert st[i] in edges && st[j] in edges;
    assert st[i] in edges[st[j]];
    assert adj[j] == ReindexRow(edges[st[j]], toIdx);
  }

  /** Re-indexing introduces no self-loop. */
  lemma ReindexKeepsLoopFree(edges: map<int, seq<int>>, ix: Indexing, adj: seq<seq<int>>)
    requires ReindexedFrom(adj, edges, ix)
    requires forall s :: s in edges ==> s !in edges[s]
    ensures forall i :: 0 <= i < |adj| ==> i !in adj[i]
  {
    IndexingIsBijection(edges.Keys);
    var st := ix.stations;
    forall i | 0 <= i < |adj| ensures i !in adj[i] {
      assert ix.toIdx[st[i]] == i;
      assert forall t :: t in ix.toIdx && ix.toIdx[t] == i ==> t == st[i];
    }
  }

  /** Re-indexing introduces no repeated neighbour. */
  lemma ReindexKeepsNoDuplicates(edges: map<int, seq<int>>, ix: Indexing, adj: seq<seq<int>>)
    requires ReindexedFrom(adj, edges, ix)
    requires forall s :: s in edges ==> NoDuplicates(edges[s])
    ensures forall i :: 0 <= i < |adj| ==> NoDuplicates(adj[i])
  {
    IndexingIsBijection(edges.Keys);
    assert Injective(ix.toIdx);
    forall i | 0 <= i < |adj| ensures NoDuplicates(adj[i]) {
      ReindexRowNoDuplicates(edges[ix.stations[i]], ix.toIdx);
    }
  }

  /** Everything the solver works on, in dense indices. */
  datatype Instance = Instance(ix: Indexing, od: OdTable, totalWagons: int, demand: seq<int>, adj: seq<seq<int>>)
  {
    /** `N`, the number of known stations. */
    function N(): nat { |ix.stations| }
  }

  /** The shape every loaded instance has and the flow model relies on. */
  ghost predicate WellFormed(inst: Instance)
  {
    var n := inst.N();
    && |inst.adj| == n
    && |inst.demand| == n
    && (forall i, j :: 0 <= i < n && j in inst.adj[i] ==> 0 <= j < n)
    && DistinctKeys(inst.od)
    && (forall p :: 0 <= p < |inst.od| ==> 0 <= inst.od[p].0.0 < n && 0 <= inst.od[p].0.1 < n)
    && (forall d :: 0 <= d < n ==> inst.demand[d] == DestTotal(inst.od, d))
    && inst.totalWagons == TotalWagons(inst.od)
    && (forall i :: 0 <= i < n ==> i in inst.ix.toStation)
    && (forall i, k :: 0 <= i < n && 0 <= k < n && i != k ==> inst.ix.toStation[i] != inst.ix.toStation[k])
  }

  /** Lines 25-57 in order: station tables, OD table, total, demand, adjacency. */
  method LoadInstance(edges: map<int, seq<int>>, entries: seq<OdEntry>) returns (inst: Instance)
    ensures inst.ix == BuildIndexing(edges.Keys)
    ensures inst.od == KeptOd(entries, inst.ix.toIdx)
    ensures ReindexedFrom(inst.adj, edges, inst.ix)
    ensures WellFormed(inst)
  {
    var ix := BuildIndexing(edges.Keys);
    var od := IngestOd(entries, ix.toIdx);
    var n := |ix.stations|;
    OdInRange(entries, ix, n);
    var total := TotalWagons(od);
    var demand := AggregateDemand(od, n);
    var adj := ReindexEdges(edges, ix.stations, ix.toIdx);
    inst := Instance(ix, od, total, demand, adj);
    LoadedWellFormed(edges, entries, inst);
  }

  /** The parts the loader computes fit together into a well-formed
      instance. */
  lemma LoadedWellFormed(edges: map<int, seq<int>>, entries: seq<OdEntry>, inst: Instance)
    requires inst.ix == BuildIndexing(edges.Keys)
    requires inst.od == KeptOd(entries, inst.ix.toIdx)
    requires |inst.adj| == inst.N() && |inst.demand| == inst.N()
    requires forall i, j :: 0 <= i < |inst.adj| && j in inst.adj[i] ==> 0 <= j < inst.N()
    requires forall d :: 0 <= d < inst.N() ==> inst.demand[d] == DestTotal(inst.od, d)
    requires inst.totalWagons == TotalWagons(inst.od)
    ensures WellFormed(inst)
  {
    var ix := inst.ix;
    var n := inst.N();
    KeptOdDistinct(entries, ix.toIdx);
    OdInRange(entries, ix, n);
    StationTableInjective(edges.Keys, ix);
  }

  /** Every entry of the kept table joins two dense indices. */
  lemma OdInRange(entries: seq<OdEntry>, ix: Indexing, n: int)
    requires n == |ix.stations| && forall s :: s in ix.toIdx ==> 0 <= ix.toIdx[s] < n
    ensures var od := KeptOd(entries, ix.toIdx);
      forall p :: 0 <= p < |od| ==> 0 <= od[p].0.0 < n && 0 <= od[p].0.1 < n
  {
    var od := KeptOd(entries, ix.toIdx);
    KeptOdInRange(entries, ix.toIdx, n);
    forall p | 0 <= p < |od| ensures 0 <= od[p].0.0 < n && 0 <= od[p].0.1 < n {
      assert od[p].0 in Keys(od);
    }
  }

  /** `idx_to_station` names a different station at every index. */
  lemma StationTableInjective(keys: set<int>, ix: Indexing)
    requires ix == BuildIndexing(keys)
    ensures forall i :: 0 <= i < |ix.stations| ==> i in ix.toStation
    ensures forall i, k :: 0 <= i < |ix.stations| && 0 <= k < |ix.stations| && i != k ==>
      ix.toStation[i] != ix.toStation[k]
  {
    TablesAreInverse(ix.stations, ix.toIdx, ix.toStation);
    forall i, k | 0 <= i < |ix.stations| && 0 <= k < |ix.stations| && i != k
      ensures ix.toStation[i] != ix.toStation[k]
    {
      assert ix.toStation[i] == ix.stations[i] && ix.toStation[k] == ix.stations[k];
      assert ix.toIdx[ix.stations[i]] == i && ix.toIdx[ix.stations[k]] == k;
    }
  }
}
