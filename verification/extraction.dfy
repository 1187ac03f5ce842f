/** Reading the plan out of a solver answer (solve_adaptive.py:127-137): the
    variables are visited in creation order (day, origin, neighbour,
    destination), every positive value becomes one shipment, and the dense
    indices are translated back to the station ids of the input. */
module Extraction {
  import opened Reindex
  import opened FlowModel

  /** One entry of `best_solution`: `count` wagons bound for `dest` leave
      `from` for `to` on `day`. */
  datatype Shipment = Shipment(day: int, from: int, to: int, dest: int, count: int)

  /** Every dense index the loop meets can be translated back. */
  ghost predicate Decodable(inst: Instance)
  {
    (forall i :: 0 <= i < inst.N() ==> i in inst.ix.toStation)
    && (forall i, j :: 0 <= i < inst.N() && j in Row(inst, i) ==> 0 <= j < inst.N())
  }

  /** The tuple appended for the dense key `(t, i, j, d)`, line 137. */
  function Record(inst: Instance, x: map<XKey, int>, t: int, i: int, j: int, d: int): Shipment
    requires Decodable(inst)
    requires 0 <= i < inst.N() && 0 <= j < inst.N() && 0 <= d < inst.N()
  {
    Shipment(t, inst.ix.toStation[i], inst.ix.toStation[j], inst.ix.toStation[d], XVal(x, t, i, j, d))
  }

  /** The records of the train `(t, i, j)` for destinations `0..d-1`. */
  function ForDests(inst: Instance, x: map<XKey, int>, t: int, i: int, j: int, d: int): seq<Shipment>
    requires Decodable(inst)
    requires 0 <= i < inst.N() && 0 <= j < inst.N() && 0 <= d <= inst.N()
  {
    if d == 0 then []
    else ForDests(inst, x, t, i, j, d - 1) + (if XVal(x, t, i, j, d - 1) > 0 then [Record(inst, x, t, i, j, d - 1)] else [])
  }

  /** The records of day `t` leaving `i` towards its first `p` neighbours. */
  function ForNeighbours(inst: Instance, x: map<XKey, int>, t: int, i: int, p: int): seq<Shipment>
    requires Decodable(inst)
    requires 0 <= i < inst.N() && 0 <= p <= |Row(inst, i)|
  {
    if p == 0 then []
    else
      var j := Row(inst, i)[p - 1];
      assert j in Row(inst, i);
      ForNeighbours(inst, x, t, i, p - 1) + ForDests(inst, x, t, i, j, inst.N())
  }

  /** The records of day `t` leaving stations `0..i-1`. */
  function ForStations(inst: Instance, x: map<XKey, int>, t: int, i: int): seq<Shipment>
    requires Decodable(inst)
    requires 0 <= i <= inst.N()
  {
    if i == 0 then []
    else ForStations(inst, x, t, i - 1) + ForNeighbours(inst, x, t, i - 1, |Row(inst, i - 1)|)
  }

  /** The records of days `0..T-1`: `best_solution`. */
  function Plan(inst: Instance, x: map<XKey, int>, T: int): seq<Shipment>
    requires Decodable(inst)
    decreases T
  {
    if T <= 0 then [] else Plan(inst, x, T - 1) + ForStations(inst, x, T - 1, inst.N())
  }

  /** The innermost loop of lines 130-137: the records of one train. */
  method ExtractTrain(inst: Instance, x: map<XKey, int>, t: int, i: int, j: int) returns (recs: seq<Shipment>)
    requires Decodable(inst)
    requires 0 <= i < inst.N() && 0 <= j < inst.N()
    ensures recs == ForDests(inst, x, t, i, j, inst.N())
  {
    recs := [];
    var d := 0;
    while d < inst.N()
      invariant 0 <= d <= inst.N()
      invariant recs == ForDests(inst, x, t, i, j, d)
    {
      var val := XVal(x, t, i, j, d);
      if val > 0 {
        recs := recs + [Shipment(t, inst.ix.toStation[i], inst.ix.toStation[j], inst.ix.toStation[d], val)];
      }
      d := d + 1;
    }
  }

  /** Lines 128-137 for one day: origins in index order, neighbours in list order. */
  method ExtractDay(inst: Instance, x: map<XKey, int>, t: int) returns (recs: seq<Shipment>)
    requires Decodable(inst)
    ensures recs == ForStations(inst, x, t, inst.N())
  {
    recs := [];
    var i := 0;
    while i < inst.N()
      invariant 0 <= i <= inst.N()
      invariant recs == ForStations(inst, x, t, i)
    {
      var out := ExtractStation(inst, x, t, i);
      recs := recs + out;
      i := i + 1;
    }
  }

  /** Lines 129-137 for day `t` and origin `i`: its neighbours in list order. */
  method ExtractStation(inst: Instance, x: map<XKey, int>, t: int, i: int) returns (recs: seq<Shipment>)
    requires Decodable(inst)
    requires 0 <= i < inst.N()
    ensures recs == ForNeighbours(inst, x, t, i, |Row(inst, i)|)
  {
    recs := [];
    var row := Row(inst, i);
    var p := 0;
    while p < |row|
      invariant 0 <= p <= |row|
      invariant recs == ForNeighbours(inst, x, t, i, p)
    {
      var j := row[p];
      assert j in row;
      var train := ExtractTrain(inst, x, t, i, j);
      recs := recs + train;
      p := p + 1;
    }
  }

  /** The extraction loop of lines 126-137: days in increasing order. */
  method ExtractPlan(inst: Instance, x: map<XKey, int>, T: int) returns (plan: seq<Shipment>)
    requires Decodable(inst)
    ensures plan == Plan(inst, x, T)
  {
    plan := [];
    var t := 0;
    while t < T
      invariant 0 <= t && (t <= T || t == 0)
      invariant plan == Plan(inst, x, t)
    {
      var day := ExtractDay(inst, x, t);
      plan := plan + day;
      t := t + 1;
    }
  }

  /** `s` is the record of the positive variable `(t, i, j, d)`. */
  ghost predicate RecordOf(inst: Instance, x: map<XKey, int>, s: Shipment, t: int, i: int, j: int, d: int)
    requires Decodable(inst)
  {
    0 <= i < inst.N() && j in Row(inst, i) && 0 <= d < inst.N()
    && XVal(x, t, i, j, d) > 0 && s == Record(inst, x, t, i, j, d)
  }

  lemma {:induction false} ForDestsMembers(inst: Instance, x: map<XKey, int>, t: int, i: int, j: int, d: int)
    requires Decodable(inst)
    requires 0 <= i < inst.N() && j in Row(inst, i) && 0 <= d <= inst.N()
    ensures forall s :: s in ForDests(inst, x, t, i, j, d) <==> exists e :: 0 <= e < d && RecordOf(inst, x, s, t, i, j, e)
  {
    if d > 0 {
      ForDestsMembers(inst, x, t, i, j, d - 1);
      forall s ensures s in ForDests(inst, x, t, i, j, d) <==> exists e :: 0 <= e < d && RecordOf(inst, x, s, t, i, j, e) {
        if RecordOf(inst, x, s, t, i, j, d - 1) {
          assert s in ForDests(inst, x, t, i, j, d);
        }
      }
    }
  }

  lemma {:induction false} ForNeighboursMembers(inst: Instance, x: map<XKey, int>, t: int, i: int, p: int)
    requires Decodable(inst)
    requires 0 <= i < inst.N() && 0 <= p <= |Row(inst, i)|
    ensures forall s :: s in ForNeighbours(inst, x, t, i, p) <==>
      exists j, e :: j in Row(inst, i)[..p] && RecordOf(inst, x, s, t, i, j, e)
  {
    if p > 0 {
      var row := Row(inst, i);
      var j := row[p - 1];
      assert j in row;
      ForNeighboursMembers(inst, x, t, i, p - 1);
      ForDestsMembers(inst, x, t, i, j, inst.N());
      assert forall j' :: j' in row[..p] <==> j' in row[..p - 1] || j' == j;
      forall s ensures s in ForNeighbours(inst, x, t, i, p) <==>
        exists j', e :: j' in row[..p] && RecordOf(inst, x, s, t, i, j', e)
      {
        if exists j', e :: j' in row[..p] && RecordOf(inst, x, s, t, i, j', e) {
          var j', e :| j' in row[..p] && RecordOf(inst, x, s, t, i, j', e);
          if j' != j {
            assert j' in row[..p - 1];
          }
        }
      }
    }
  }

  lemma {:induction false} ForStationsMembers(inst: Instance, x: map<XKey, int>, t: int, i: int)
    requires Decodable(inst)
    requires 0 <= i <= inst.N()
    ensures forall s :: s in ForStations(inst, x, t, i) <==>
      exists i', j, e :: 0 <= i' < i && RecordOf(inst, x, s, t, i', j, e)
  {
    if i > 0 {
      var row := Row(inst, i - 1);
      ForStationsMembers(inst, x, t, i - 1);
      ForNeighboursMembers(inst, x, t, i - 1, |row|);
      assert row[..|row|] == row;
    }
  }

  /** Every shipment of the plan is the record of a positive variable of a
      day before the horizon, and every positive variable has its record. */
  lemma {:induction false} PlanMembers(inst: Instance, x: map<XKey, int>, T: int)
    requires Decodable(inst)
    ensures forall s :: s in Plan(inst, x, T) <==>
      exists t, i, j, d :: 0 <= t < T && RecordOf(inst, x, s, t, i, j, d)
    decreases T
  {
    if T > 0 {
      PlanMembers(inst, x, T - 1);
      ForStationsMembers(inst, x, T - 1, inst.N());
    }
  }

  /** The plan lists its shipments day by day, all before the horizon. */
  lemma PlanChronological(inst: Instance, x: map<XKey, int>, T: int)
    requires Decodable(inst)
    ensures forall s :: s in Plan(inst, x, T) ==> 0 <= s.day < T
    ensures forall a, b :: 0 <= a < b < |Plan(inst, x, T)| ==> Plan(inst, x, T)[a].day <= Plan(inst, x, T)[b].day
  {
    PlanOrder(inst, x, T);
    var plan, keys := Plan(inst, x, T), PlanKeys(inst, x, T);
    forall k | 0 <= k < |plan| ensures plan[k].day == keys[k].t {
      assert LocatedAt(inst, x, plan[k], keys[k]);
    }
    forall s | s in plan ensures 0 <= s.day < T {
      var k :| 0 <= k < |plan| && plan[k] == s;
    }
  }

  /** Where a record comes from in the loops of lines 127-130: day `t`,
      origin `i`, position `p` of the neighbour in `edges_idx[i]`, and
      destination `d`. */
  datatype Pos = Pos(t: int, i: int, p: int, d: int)

  /** Loop order: `a` is visited before `b`. */
  predicate Before(a: Pos, b: Pos)
  {
    a.t < b.t || (a.t == b.t && (a.i < b.i || (a.i == b.i && (a.p < b.p || (a.p == b.p && a.d < b.d)))))
  }

  predicate Ascending(keys: seq<Pos>)
  {
    forall a, b :: 0 <= a < b < |keys| ==> Before(keys[a], keys[b])
  }

  /** `s` is the record of the positive variable found at `key`. */
  ghost predicate LocatedAt(inst: Instance, x: map<XKey, int>, s: Shipment, key: Pos)
    requires Decodable(inst)
  {
    && 0 <= key.i < inst.N() && 0 <= key.p < |Row(inst, key.i)| && 0 <= key.d < inst.N()
    && var j := Row(inst, key.i)[key.p];
    assert j in Row(inst, key.i);
    XVal(x, key.t, key.i, j, key.d) > 0 && s == Record(inst, x, key.t, key.i, j, key.d)
  }

  /** Each record of `recs` is the one found at the matching key. */
  ghost predicate Locates(inst: Instance, x: map<XKey, int>, recs: seq<Shipment>, keys: seq<Pos>)
    requires Decodable(inst)
  {
    |recs| == |keys| && forall k :: 0 <= k < |keys| ==> LocatedAt(inst, x, recs[k], keys[k])
  }

  /** The positions the loop over `d` visits with a positive value. */
  function DestKeys(inst: Instance, x: map<XKey, int>, t: int, i: int, p: int, d: int): seq<Pos>
    requires 0 <= i < inst.N() && 0 <= p < |Row(inst, i)| && 0 <= d
  {
    if d == 0 then []
    else DestKeys(inst, x, t, i, p, d - 1) + (if XVal(x, t, i, Row(inst, i)[p], d - 1) > 0 then [Pos(t, i, p, d - 1)] else [])
  }

  /** The positions of the first `p` neighbours of `i` on day `t`. */
  function NeighbourKeys(inst: Instance, x: map<XKey, int>, t: int, i: int, p: int): seq<Pos>
    requires 0 <= i < inst.N() && 0 <= p <= |Row(inst, i)|
  {
    if p == 0 then [] else NeighbourKeys(inst, x, t, i, p - 1) + DestKeys(inst, x, t, i, p - 1, inst.N())
  }

  /** The positions of origins `0..i-1` on day `t`. */
  function StationKeys(inst: Instance, x: map<XKey, int>, t: int, i: int): seq<Pos>
    requires 0 <= i <= inst.N()
  {
    if i == 0 then [] else StationKeys(inst, x, t, i - 1) + NeighbourKeys(inst, x, t, i - 1, |Row(inst, i - 1)|)
  }

  /** The positions of days `0..T-1`. */
  function PlanKeys(inst: Instance, x: map<XKey, int>, T: int): seq<Pos>
    decreases T
  {
    if T <= 0 then [] else PlanKeys(inst, x, T - 1) + StationKeys(inst, x, T - 1, inst.N())
  }

  /** Two located, ascending runs joined, every key of the first before every
      key of the second, are located and ascending. */
  lemma JoinAscending(inst: Instance, x: map<XKey, int>, r1: seq<Shipment>, k1: seq<Pos>, r2: seq<Shipment>, k2: seq<Pos>)
    requires Decodable(inst)
    requires Locates(inst, x, r1, k1) && Ascending(k1)
    requires Locates(inst, x, r2, k2) && Ascending(k2)
    requires forall a, b :: 0 <= a < |k1| && 0 <= b < |k2| ==> Before(k1[a], k2[b])
    ensures Locates(inst, x, r1 + r2, k1 + k2) && Ascending(k1 + k2)
  {
    var r, k := r1 + r2, k1 + k2;
    forall q | 0 <= q < |k| ensures LocatedAt(inst, x, r[q], k[q]) {
      if q < |k1| {
        assert r[q] == r1[q] && k[q] == k1[q];
      } else {
        assert r[q] == r2[q - |k1|] && k[q] == k2[q - |k1|];
      }
    }
    forall a, b | 0 <= a < b < |k| ensures Before(k[a], k[b]) {
      if b < |k1| {
        assert k[a] == k1[a] && k[b] == k1[b];
      } else if a < |k1| {
        assert k[a] == k1[a] && k[b] == k2[b - |k1|];
      } else {
        assert k[a] == k2[a - |k1|] && k[b] == k2[b - |k1|];
      }
    }
  }

  lemma {:induction false} DestKeysOrder(inst: Instance, x: map<XKey, int>, t: int, i: int, p: int, d: int)
    requires Decodable(inst)
    requires 0 <= i < inst.N() && 0 <= p < |Row(inst, i)| && 0 <= d <= inst.N()
    ensures Row(inst, i)[p] in Row(inst, i)
    ensures Locates(inst, x, ForDests(inst, x, t, i, Row(inst, i)[p], d), DestKeys(inst, x, t, i, p, d))
    ensures Ascending(DestKeys(inst, x, t, i, p, d))
    ensures forall k :: 0 <= k < |DestKeys(inst, x, t, i, p, d)| ==>
      var key := DestKeys(inst, x, t, i, p, d)[k];
      key.t == t && key.i == i && key.p == p && key.d < d
  {
    var j := Row(inst, i)[p];
    assert j in Row(inst, i);
    if d > 0 {
      DestKeysOrder(inst, x, t, i, p, d - 1);
      var k1 := DestKeys(inst, x, t, i, p, d - 1);
      if XVal(x, t, i, j, d - 1) > 0 {
        var last := [Pos(t, i, p, d - 1)];
        assert LocatedAt(inst, x, Record(inst, x, t, i, j, d - 1), last[0]);
        JoinAscending(inst, x, ForDests(inst, x, t, i, j, d - 1), k1, [Record(inst, x, t, i, j, d - 1)], last);
      }
    }
  }

  lemma {:induction false} NeighbourKeysOrder(inst: Instance, x: map<XKey, int>, t: int, i: int, p: int)
    requires Decodable(inst)
    requires 0 <= i < inst.N() && 0 <= p <= |Row(inst, i)|
    ensures Locates(inst, x, ForNeighbours(inst, x, t, i, p), NeighbourKeys(inst, x, t, i, p))
    ensures Ascending(NeighbourKeys(inst, x, t, i, p))
    ensures forall k :: 0 <= k < |NeighbourKeys(inst, x, t, i, p)| ==>
      var key := NeighbourKeys(inst, x, t, i, p)[k];
      key.t == t && key.i == i && key.p < p
  {
    if p > 0 {
      NeighbourKeysOrder(inst, x, t, i, p - 1);
      DestKeysOrder(inst, x, t, i, p - 1, inst.N());
      JoinAscending(inst, x, ForNeighbours(inst, x, t, i, p - 1), NeighbourKeys(inst, x, t, i, p - 1),
        ForDests(inst, x, t, i, Row(inst, i)[p - 1], inst.N()), DestKeys(inst, x, t, i, p - 1, inst.N()));
    }
  }

  lemma {:induction false} StationKeysOrder(inst: Instance, x: map<XKey, int>, t: int, i: int)
    requires Decodable(inst)
    requires 0 <= i <= inst.N()
    ensures Locates(inst, x, ForStations(inst, x, t, i), StationKeys(inst, x, t, i))
    ensures Ascending(StationKeys(inst, x, t, i))
    ensures forall k :: 0 <= k < |StationKeys(inst, x, t, i)| ==>
      var key := StationKeys(inst, x, t, i)[k];
      key.t == t && key.i < i
  {
    if i > 0 {
      StationKeysOrder(inst, x, t, i - 1);
      NeighbourKeysOrder(inst, x, t, i - 1, |Row(inst, i - 1)|);
      JoinAscending(inst, x, ForStations(inst, x, t, i - 1), StationKeys(inst, x, t, i - 1),
        ForNeighbours(inst, x, t, i - 1, |Row(inst, i - 1)|), NeighbourKeys(inst, x, t, i - 1, |Row(inst, i - 1)|));
    }
  }

  /** The plan lists the records of the positive variables in loop order:
      entry `k` is the record found at `PlanKeys(..)[k]`, and those positions
      strictly increase by day, then origin, then the neighbour's place in
      `edges_idx[i]`, then destination. */
  lemma {:induction false} PlanOrder(inst: Instance, x: map<XKey, int>, T: int)
    requires Decodable(inst)
    ensures Locates(inst, x, Plan(inst, x, T), PlanKeys(inst, x, T))
    ensures Ascending(PlanKeys(inst, x, T))
    ensures forall k :: 0 <= k < |PlanKeys(inst, x, T)| ==> 0 <= PlanKeys(inst, x, T)[k].t < T
    decreases T
  {
    if T > 0 {
      PlanOrder(inst, x, T - 1);
      StationKeysOrder(inst, x, T - 1, inst.N());
      JoinAscending(inst, x, Plan(inst, x, T - 1), PlanKeys(inst, x, T - 1),
        ForStations(inst, x, T - 1, inst.N()), StationKeys(inst, x, T - 1, inst.N()));
    }
  }

  /** With duplicate-free neighbour lists no shipment appears twice, so
      (with `PlanMembers`) each positive variable is read out exactly once. */
  lemma PlanOnce(inst: Instance, x: map<XKey, int>, T: int)
    requires WellFormed(inst) && SimpleRows(inst)
    ensures Decodable(inst)
    ensures forall a, b :: 0 <= a < b < |Plan(inst, x, T)| ==> Plan(inst, x, T)[a] != Plan(inst, x, T)[b]
  {
    LoadedIsDecodable(inst);
    PlanOrder(inst, x, T);
    var plan, keys := Plan(inst, x, T), PlanKeys(inst, x, T);
    forall a, b | 0 <= a < b < |plan| ensures plan[a] != plan[b] {
      var ka, kb := keys[a], keys[b];
      assert LocatedAt(inst, x, plan[a], ka) && LocatedAt(inst, x, plan[b], kb);
      assert Before(ka, kb);
      if ka.t == kb.t && ka.i == kb.i && ka.p != kb.p {
        var row := Row(inst, ka.i);
        assert NoDuplicates(row);
        assert row[ka.p] != row[kb.p];
        assert row[ka.p] in row && row[kb.p] in row;
      }
    }
  }

  /** The loaded instance can always be translated back. */
  lemma LoadedIsDecodable(inst: Instance)
    requires WellFormed(inst)
    ensures Decodable(inst)
  {
  }

  /** In the plan read from a valid answer every shipment moves between 1 and
      30 wagons, and none leaves the station its wagons are bound for. */
  lemma ValidPlanShipments(inst: Instance, T: int, x: map<XKey, int>, w: map<WKey, int>)
    requires WellFormed(inst)
    requires Valid(inst, T, x, w)
    ensures Decodable(inst)
    ensures forall s :: s in Plan(inst, x, T) ==> 0 < s.count <= MaxTrain && s.from != s.dest
  {
    LoadedIsDecodable(inst);
    PlanMembers(inst, x, T);
    NothingLeavesItsDestination(inst, T, x, w);
    forall s | s in Plan(inst, x, T) ensures 0 < s.count <= MaxTrain && s.from != s.dest {
      var t, i, j, d :| 0 <= t < T && RecordOf(inst, x, s, t, i, j, d);
      assert (t, i, j, d) in x;
      assert i != d;
    }
  }
}
