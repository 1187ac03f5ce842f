/** The time-expanded flow model that solve_adaptive.py hands to CP-SAT for a
    horizon `T` (lines 65-114). `x[(t, i, j, d)]` is the number of wagons bound
    for `d` that leave `i` for its neighbour `j` on day `t`; `w[(t, i, d)]` is
    the number of wagons bound for `d` standing at `i` at the start of day `t`.
    A solver answer is a pair of maps from variable keys to values; the
    constraints are stated as the predicates they impose on such a pair. */
module FlowModel {
  import opened PyDict
  import opened Sums
  import opened Reindex

  /** Upper bound of every `x` variable and of a train's total load. */
  const MaxTrain := 30
  /** Least load of a train that runs. */
  const MinTrain := 5

  type XKey = (int, int, int, int)
  type WKey = (int, int, int)

  /** `edges_idx.get(i, [])`. */
  function Row(inst: Instance, i: int): seq<int>
  {
    if 0 <= i < |inst.adj| then inst.adj[i] else []
  }

  /** `od_data_raw.get((i, d), 0)`. */
  function OdAt(inst: Instance, i: int, d: int): int
  {
    Get(inst.od, (i, d), 0)
  }

  /** Some origin sends wagons to `d`. */
  predicate HasDemandTo(inst: Instance, d: int)
  {
    exists orig :: 0 <= orig < inst.N() && OdAt(inst, orig, d) > 0
  }

  /** The guard of line 73 under which the variables `x[(t, i, j, d)]` are created. */
  predicate Declares(inst: Instance, i: int, d: int)
  {
    OdAt(inst, i, d) > 0 || HasDemandTo(inst, d)
  }

  /** The first half of the guard adds nothing: for a station `i` of the
      network, variables for `d` exist exactly when someone ships to `d`. */
  lemma DeclaresIffDemand(inst: Instance, i: int, d: int)
    requires 0 <= i < inst.N()
    ensures Declares(inst, i, d) <==> HasDemandTo(inst, d)
  {
    if OdAt(inst, i, d) > 0 {
      assert 0 <= i < inst.N() && OdAt(inst, i, d) > 0;
    }
  }

  /** `demand[d]` is the column sum of the OD matrix. */
  lemma DemandIsColumnSum(inst: Instance, d: int)
    requires WellFormed(inst)
    requires 0 <= d < inst.N()
    ensures inst.demand[d] == SumRange(0, inst.N(), i => OdAt(inst, i, d))
  {
    DestTotalIsColumnSum(inst.od, inst.N(), d);
    SumRangeExt(0, inst.N(), i => Get(inst.od, (i, d), 0), i => OdAt(inst, i, d));
  }

  /** Non-negative counts give a non-negative OD matrix. */
  lemma OdAtNonNeg(inst: Instance)
    requires forall p :: 0 <= p < |inst.od| ==> inst.od[p].1 >= 0
    ensures forall i, d :: OdAt(inst, i, d) >= 0
  {
    forall i, d ensures OdAt(inst, i, d) >= 0 {
      GetFrom(inst.od, (i, d), 0);
    }
  }

  /** With non-negative counts, someone ships to `d` exactly when `demand[d]` is positive. */
  lemma HasDemandIffPositive(inst: Instance, d: int)
    requires WellFormed(inst)
    requires 0 <= d < inst.N()
    requires forall p :: 0 <= p < |inst.od| ==> inst.od[p].1 >= 0
    ensures HasDemandTo(inst, d) <==> inst.demand[d] > 0
  {
    DemandIsColumnSum(inst, d);
    OdAtNonNeg(inst);
    ColumnPositive(inst, d);
  }

  /** A column of a non-negative OD matrix is positive exactly when one of its entries is. */
  lemma ColumnPositive(inst: Instance, d: int)
    requires forall i, d :: OdAt(inst, i, d) >= 0
    ensures HasDemandTo(inst, d) <==> SumRange(0, inst.N(), i => OdAt(inst, i, d)) > 0
  {
    var col := i => OdAt(inst, i, d);
    assert forall k :: col(k) == OdAt(inst, k, d);
    SumRangePositive(0, inst.N(), col);
    if HasDemandTo(inst, d) {
      var k :| 0 <= k < inst.N() && OdAt(inst, k, d) > 0;
      assert col(k) > 0;
    }
    if exists k :: 0 <= k < inst.N() && col(k) > 0 {
      var k :| 0 <= k < inst.N() && col(k) > 0;
      assert OdAt(inst, k, d) > 0;
    }
  }

  /** The keys of the `x` dict built by lines 68-74. */
  predicate IsXVar(inst: Instance, T: int, k: XKey)
  {
    0 <= k.0 < T && 0 <= k.1 < inst.N() && k.2 in Row(inst, k.1) && 0 <= k.3 < inst.N()
    && Declares(inst, k.1, k.3)
  }

  /** The keys of the `w` dict built by lines 77-81. */
  predicate IsWVar(inst: Instance, T: int, k: WKey)
  {
    0 <= k.0 <= T && 0 <= k.1 < inst.N() && 0 <= k.2 < inst.N()
  }

  /** `k` comes before position (t, i, the row entries `done`, then `j` with
      destinations below `d`) in the creation order of lines 69-72. */
  predicate XBefore(k: XKey, t: int, i: int, done: seq<int>, j: int, d: int)
  {
    k.0 < t || (k.0 == t && (k.1 < i || (k.1 == i && (k.2 in done || (k.2 == j && k.3 < d)))))
  }

  /** Variable creation, lines 68-74: the keys of `x` for horizon `T`. */
  method DeclareX(inst: Instance, T: int) returns (keys: set<XKey>)
    ensures forall k :: k in keys <==> IsXVar(inst, T, k)
  {
    var n := inst.N();
    keys := {};
    var t := 0;
    while t < T
      invariant 0 <= t && (t <= T || t == 0)
      invariant forall k :: k in keys <==> (IsXVar(inst, T, k) && XBefore(k, t, 0, [], 0, 0))
    {
      var i := 0;
      while i < n
        invariant 0 <= i <= n
        invariant forall k :: k in keys <==> (IsXVar(inst, T, k) && XBefore(k, t, i, [], 0, 0))
      {
        keys := DeclareXFrom(inst, T, t, i, keys);
        i := i + 1;
      }
      assert forall k :: IsXVar(inst, T, k) ==>
        (XBefore(k, t, n, [], 0, 0) <==> XBefore(k, t + 1, 0, [], 0, 0));
      t := t + 1;
    }
  }

  /** Lines 70-74 for day `t` and station `i`: the keys for every edge out
      of `i`. */
  method DeclareXFrom(inst: Instance, T: int, t: int, i: int, keys: set<XKey>) returns (keys': set<XKey>)
    requires 0 <= t < T && 0 <= i < inst.N()
    requires forall k :: k in keys <==> (IsXVar(inst, T, k) && XBefore(k, t, i, [], 0, 0))
    ensures forall k :: k in keys' <==> (IsXVar(inst, T, k) && XBefore(k, t, i + 1, [], 0, 0))
  {
    keys' := keys;
    var row := Row(inst, i);
    var p := 0;
    while p < |row|
      invariant 0 <= p <= |row|
      invariant forall k :: k in keys' <==> (IsXVar(inst, T, k) && XBefore(k, t, i, row[..p], 0, 0))
    {
      keys' := DeclareXTo(inst, T, t, i, row[..p], row[p], keys');
      assert forall j' :: j' in row[..p + 1] <==> j' in row[..p] || j' == row[p];
      assert forall k :: IsXVar(inst, T, k) ==>
        (XBefore(k, t, i, row[..p], row[p], inst.N()) <==> XBefore(k, t, i, row[..p + 1], 0, 0));
      p := p + 1;
    }
    assert row[..p] == row;
    assert forall k :: IsXVar(inst, T, k) ==>
      (XBefore(k, t, i, row, 0, 0) <==> XBefore(k, t, i + 1, [], 0, 0));
  }

  /** Lines 72-74 for day `t` and the edge `(i, j)`: one key per destination
      the guard admits. */
  method DeclareXTo(inst: Instance, T: int, t: int, i: int, done: seq<int>, j: int, keys: set<XKey>)
    returns (keys': set<XKey>)
    requires 0 <= t < T && 0 <= i < inst.N() && j in Row(inst, i)
    requires forall k :: k in keys <==> (IsXVar(inst, T, k) && XBefore(k, t, i, done, 0, 0))
    ensures forall k :: k in keys' <==> (IsXVar(inst, T, k) && XBefore(k, t, i, done, j, inst.N()))
  {
    keys' := keys;
    var n := inst.N();
    var d := 0;
    while d < n
      invariant 0 <= d <= n
      invariant forall k :: k in keys' <==> (IsXVar(inst, T, k) && XBefore(k, t, i, done, j, d))
    {
      if OdAt(inst, i, d) > 0 || HasDemandTo(inst, d) {
        keys' := keys' + {(t, i, j, d)};
      }
      d := d + 1;
    }
  }

  /** `k` comes before position (t, i, d) in the creation order of lines 78-80. */
  predicate WBefore(k: WKey, t: int, i: int, d: int)
  {
    k.0 < t || (k.0 == t && (k.1 < i || (k.1 == i && k.2 < d)))
  }

  /** Variable creation, lines 77-81: the keys of `w` for horizon `T`. */
  method DeclareW(inst: Instance, T: int) returns (keys: set<WKey>)
    ensures forall k :: k in keys <==> IsWVar(inst, T, k)
  {
    var n := inst.N();
    keys := {};
    var t := 0;
    while t < T + 1
      invariant 0 <= t && (t <= T + 1 || t == 0)
      invariant forall k :: k in keys <==> (IsWVar(inst, T, k) && WBefore(k, t, 0, 0))
    {
      var i := 0;
      while i < n
        invariant 0 <= i <= n
        invariant forall k :: k in keys <==> (IsWVar(inst, T, k) && WBefore(k, t, i, 0))
      {
        var d := 0;
        while d < n
          invariant 0 <= d <= n
          invariant forall k :: k in keys <==> (IsWVar(inst, T, k) && WBefore(k, t, i, d))
        {
          keys := keys + {(t, i, d)};
          d := d + 1;
        }
        assert forall k :: IsWVar(inst, T, k) ==> (WBefore(k, t, i, n) <==> WBefore(k, t, i + 1, 0));
        i := i + 1;
      }
      assert forall k :: IsWVar(inst, T, k) ==> (WBefore(k, t, n, 0) <==> WBefore(k, t + 1, 0, 0));
      t := t + 1;
    }
  }

  /** `x.get((t, i, j, d), 0)` in the solver's answer. */
  function XVal(x: map<XKey, int>, t: int, i: int, j: int, d: int): int
  {
    if (t, i, j, d) in x then x[(t, i, j, d)] else 0
  }

  /** `w[(t, i, d)]` in the solver's answer; every key the constraints read
      is declared, so the default is never used by a valid answer. */
  function WVal(w: map<WKey, int>, t: int, i: int, d: int): int
  {
    if (t, i, d) in w then w[(t, i, d)] else 0
  }

  /** `outbound` of line 93: the wagons for `d` leaving `i` on day `t`, one
      term per entry of the neighbour list. */
  function Outbound(inst: Instance, x: map<XKey, int>, t: int, i: int, d: int): int
  {
    SumList(Row(inst, i), j => XVal(x, t, i, j, d))
  }

  /** `inbound` of line 92: the wagons for `d` that left a station listing `i`
      as neighbour on day `t - 1`. */
  function Inbound(inst: Instance, x: map<XKey, int>, t: int, i: int, d: int): int
  {
    if t > 0 then SumRange(0, inst.N(), k => if i in Row(inst, k) then XVal(x, t - 1, k, i, d) else 0)
    else 0
  }

  /** `total` of line 100: the load of the train from `i` to `j` on day `t`. */
  function TrainLoad(inst: Instance, x: map<XKey, int>, t: int, i: int, j: int): int
  {
    SumRange(0, inst.N(), d => XVal(x, t, i, j, d))
  }

  /** The sum of line 110: wagons for `d` leaving `d` itself on day `t`. */
  function LeavingDestination(inst: Instance, x: map<XKey, int>, t: int, d: int): int
  {
    SumList(Row(inst, d), j => XVal(x, t, d, j, d))
  }

  /** Variable domains: `x` in 0..30 (line 74), `w` in 0..total_wagons (line 81). */
  ghost predicate Domains(inst: Instance, T: int, x: map<XKey, int>, w: map<WKey, int>)
  {
    && (forall k :: k in x <==> IsXVar(inst, T, k))
    && (forall k :: k in x ==> 0 <= x[k] <= MaxTrain)
    && (forall k :: k in w <==> IsWVar(inst, T, k))
    && (forall k :: k in w ==> 0 <= w[k] <= inst.totalWagons)
  }

  /** Lines 84-86: day 0 holds the OD matrix. */
  ghost predicate Initial(inst: Instance, w: map<WKey, int>)
  {
    forall i, d :: 0 <= i < inst.N() && 0 <= d < inst.N() ==> WVal(w, 0, i, d) == OdAt(inst, i, d)
  }

  /** Lines 89-94: stock tomorrow is stock today plus arrivals minus departures. */
  ghost predicate Balanced(inst: Instance, T: int, x: map<XKey, int>, w: map<WKey, int>)
  {
    forall t, i, d :: 0 <= t < T && 0 <= i < inst.N() && 0 <= d < inst.N() ==> BalancedAt(inst, x, w, t, i, d)
  }

  /** The balance constraint of line 94 for one `(t, i, d)`. */
  predicate BalancedAt(inst: Instance, x: map<XKey, int>, w: map<WKey, int>, t: int, i: int, d: int)
  {
    WVal(w, t + 1, i, d) == WVal(w, t, i, d) + Inbound(inst, x, t, i, d) - Outbound(inst, x, t, i, d)
  }

  /** Lines 97-104: a train either does not run or carries 5 to 30 wagons.
      The Boolean `sent` of line 101 exists exactly when the load is 0 or at least 5. */
  ghost predicate TrainsOk(inst: Instance, T: int, x: map<XKey, int>)
  {
    forall t, i, j :: 0 <= t < T && 0 <= i < inst.N() && j in Row(inst, i) ==> TrainOkAt(inst, x, t, i, j)
  }

  /** The train constraints of lines 102-104 for one `(t, i, j)`. */
  predicate TrainOkAt(inst: Instance, x: map<XKey, int>, t: int, i: int, j: int)
  {
    var load := TrainLoad(inst, x, t, i, j);
    (load == 0 || load >= MinTrain) && load <= MaxTrain
  }

  /** Lines 107-110: nothing bound for `d` leaves `d`. The constraint is posted
      once per neighbour of `d`, so it is absent when `d` has no neighbour. */
  ghost predicate Absorbing(inst: Instance, T: int, x: map<XKey, int>)
  {
    forall t, d :: 0 <= t < T && 0 <= d < inst.N() && Row(inst, d) != [] ==>
      LeavingDestination(inst, x, t, d) == 0
  }

  /** Lines 113-114: on day `T` each destination holds its whole demand. */
  ghost predicate Delivered(inst: Instance, T: int, w: map<WKey, int>)
    requires |inst.demand| == inst.N()
  {
    forall d :: 0 <= d < inst.N() ==> WVal(w, T, d, d) == inst.demand[d]
  }

  /** An answer that satisfies every constraint of the model for horizon `T`. */
  ghost predicate Valid(inst: Instance, T: int, x: map<XKey, int>, w: map<WKey, int>)
    requires |inst.demand| == inst.N()
  {
    Domains(inst, T, x, w) && Initial(inst, w) && Balanced(inst, T, x, w)
    && TrainsOk(inst, T, x) && Absorbing(inst, T, x) && Delivered(inst, T, w)
  }

  /** Every neighbour list is free of repeats and inside 0..N-1. */
  ghost predicate SimpleRows(inst: Instance)
  {
    forall k :: 0 <= k < inst.N() ==>
      NoDuplicates(Row(inst, k)) && forall j :: j in Row(inst, k) ==> 0 <= j < inst.N()
  }

  /** In a valid answer no value read by the constraints is negative. */
  lemma ValuesNonNeg(inst: Instance, T: int, x: map<XKey, int>, w: map<WKey, int>)
    requires Domains(inst, T, x, w)
    ensures forall t, i, j, d :: XVal(x, t, i, j, d) >= 0
    ensures forall t, i, d :: WVal(w, t, i, d) >= 0
  {
  }

  /** Nothing bound for `d` ever leaves `d`: each term of the absorbing sum is zero. */
  lemma NothingLeavesItsDestination(inst: Instance, T: int, x: map<XKey, int>, w: map<WKey, int>)
    requires |inst.demand| == inst.N()
    requires Valid(inst, T, x, w)
    ensures forall t, d, j :: 0 <= t < T && 0 <= d < inst.N() && j in Row(inst, d) ==> XVal(x, t, d, j, d) == 0
  {
    ValuesNonNeg(inst, T, x, w);
    forall t, d, j | 0 <= t < T && 0 <= d < inst.N() && j in Row(inst, d)
      ensures XVal(x, t, d, j, d) == 0
    {
      assert LeavingDestination(inst, x, t, d) == 0;
      SumListBoundsTerm(Row(inst, d), j' => XVal(x, t, d, j', d), j);
    }
  }

  /** Wagons for `d` standing anywhere on day `t`. */
  function Stock(inst: Instance, w: map<WKey, int>, t: int, d: int): int
  {
    SumRange(0, inst.N(), i => WVal(w, t, i, d))
  }

  /** Wagons for `d` put on trains on day `t`, counted as `outbound` counts them. */
  function Departures(inst: Instance, x: map<XKey, int>, t: int, d: int): int
  {
    SumRange(0, inst.N(), i => Outbound(inst, x, t, i, d))
  }

  /** Wagons for `d` received on day `t`, counted as `inbound` counts them. */
  function Arrivals(inst: Instance, x: map<XKey, int>, t: int, d: int): int
  {
    SumRange(0, inst.N(), i => Inbound(inst, x, t, i, d))
  }

  /** Wagons for `d` on the move at the start of day `t`. */
  function InTransit(inst: Instance, x: map<XKey, int>, t: int, d: int): int
  {
    if t > 0 then Departures(inst, x, t - 1, d) else 0
  }

  /** Every wagon that leaves on day `t - 1` arrives on day `t`: summed over
      all stations, `inbound` and `outbound` count the same trains. This needs
      neighbour lists without repeats, since `outbound` counts a repeated
      neighbour once per occurrence and `inbound` only once. */
  lemma ArrivalsAreDepartures(inst: Instance, x: map<XKey, int>, t: int, d: int)
    requires SimpleRows(inst)
    ensures Arrivals(inst, x, t, d) == InTransit(inst, x, t, d)
  {
    var n := inst.N();
    if t > 0 {
      var s := t - 1;
      var F := (i, k) => if i in Row(inst, k) then XVal(x, s, k, i, d) else 0;
      forall i ensures Inbound(inst, x, t, i, d) == SumRange(0, n, k => F(i, k)) {
        SumRangeExt(0, n, k => if i in Row(inst, k) then XVal(x, t - 1, k, i, d) else 0, k => F(i, k));
      }
      SumRangeExt(0, n, i => Inbound(inst, x, t, i, d), i => SumRange(0, n, k => F(i, k)));
      SumRangeSwap(n, n, F);
      forall k | 0 <= k < n ensures SumRange(0, n, i => F(i, k)) == Outbound(inst, x, s, k, d) {
        SumRangeMembers(0, n, Row(inst, k), j => XVal(x, s, k, j, d), i => F(i, k));
      }
      SumRangeExt(0, n, k => SumRange(0, n, i => F(i, k)), k => Outbound(inst, x, s, k, d));
    } else {
      SumRangeExt(0, n, i => Inbound(inst, x, t, i, d), _ => 0);
      SumRangeZero(0, n);
    }
  }

  /** One day of the balance constraints, summed over all stations. */
  lemma StockStep(inst: Instance, T: int, x: map<XKey, int>, w: map<WKey, int>, t: int, d: int)
    requires Balanced(inst, T, x, w)
    requires SimpleRows(inst)
    requires 0 <= t < T && 0 <= d < inst.N()
    ensures Stock(inst, w, t + 1, d) + InTransit(inst, x, t + 1, d) == Stock(inst, w, t, d) + InTransit(inst, x, t, d)
  {
    var n := inst.N();
    forall i | 0 <= i < n
      ensures WVal(w, t + 1, i, d) == WVal(w, t, i, d) + Inbound(inst, x, t, i, d) - Outbound(inst, x, t, i, d)
    {
      assert BalancedAt(inst, x, w, t, i, d);
    }
    SumRangeAddSub(0, n, i => WVal(w, t, i, d), i => Inbound(inst, x, t, i, d),
      i => Outbound(inst, x, t, i, d), i => WVal(w, t + 1, i, d));
    ArrivalsAreDepartures(inst, x, t, d);
  }

  /** Conservation of wagons: on every day up to the horizon, the wagons for
      `d` standing somewhere plus those on the move are exactly `demand[d]`. */
  lemma {:induction false} MassBalance(inst: Instance, T: int, x: map<XKey, int>, w: map<WKey, int>, t: int, d: int)
    requires WellFormed(inst)
    requires SimpleRows(inst)
    requires Valid(inst, T, x, w)
    requires 0 <= t <= T && 0 <= d < inst.N()
    ensures Stock(inst, w, t, d) + InTransit(inst, x, t, d) == inst.demand[d]
    decreases t
  {
    if t == 0 {
      DemandIsColumnSum(inst, d);
      SumRangeExt(0, inst.N(), i => WVal(w, 0, i, d), i => OdAt(inst, i, d));
    } else {
      MassBalance(inst, T, x, w, t - 1, d);
      StockStep(inst, T, x, w, t - 1, d);
    }
  }

  /** No station ever holds more wagons for `d` than `demand[d]`. */
  lemma StockNeverExceedsDemand(inst: Instance, T: int, x: map<XKey, int>, w: map<WKey, int>, t: int, i: int, d: int)
    requires WellFormed(inst)
    requires SimpleRows(inst)
    requires Valid(inst, T, x, w)
    requires 0 <= t <= T && 0 <= i < inst.N() && 0 <= d < inst.N()
    ensures WVal(w, t, i, d) <= inst.demand[d]
  {
    MassBalance(inst, T, x, w, t, d);
    ValuesNonNeg(inst, T, x, w);
    SumRangeBoundsTerm(0, inst.N(), k => WVal(w, t, k, d), i);
    DeparturesNonNeg(inst, T, x, w, t - 1, d);
  }

  /** Departures are never negative. */
  lemma DeparturesNonNeg(inst: Instance, T: int, x: map<XKey, int>, w: map<WKey, int>, t: int, d: int)
    requires Domains(inst, T, x, w)
    ensures forall i :: Outbound(inst, x, t, i, d) >= 0
    ensures Departures(inst, x, t, d) >= 0
  {
    ValuesNonNeg(inst, T, x, w);
    forall i ensures Outbound(inst, x, t, i, d) >= 0 {
      SumListNonNeg(Row(inst, i), j => XVal(x, t, i, j, d));
    }
    SumRangeNonNeg(0, inst.N(), i => Outbound(inst, x, t, i, d));
  }

  /** At the horizon every wagon has reached its destination: none for `d`
      stands anywhere else and none is still on a train. */
  lemma DeliveryComplete(inst: Instance, T: int, x: map<XKey, int>, w: map<WKey, int>, d: int)
    requires WellFormed(inst)
    requires SimpleRows(inst)
    requires Valid(inst, T, x, w)
    requires 0 <= T && 0 <= d < inst.N()
    ensures forall i :: 0 <= i < inst.N() && i != d ==> WVal(w, T, i, d) == 0
    ensures InTransit(inst, x, T, d) == 0
    ensures T > 0 ==> forall i, j :: 0 <= i < inst.N() && j in Row(inst, i) ==> XVal(x, T - 1, i, j, d) == 0
  {
    var n := inst.N();
    MassBalance(inst, T, x, w, T, d);
    ValuesNonNeg(inst, T, x, w);
    DeparturesNonNeg(inst, T, x, w, T - 1, d);
    var g := i => WVal(w, T, i, d);
    var f := i => if i == d then 0 else WVal(w, T, i, d);
    SumRangePoint(0, n, f, g, d, g(d));
    SumRangeNonNeg(0, n, f);
    forall i | 0 <= i < n && i != d ensures WVal(w, T, i, d) == 0 {
      SumRangeBoundsTerm(0, n, f, i);
    }
    if T > 0 {
      forall i, j | 0 <= i < n && j in Row(inst, i) ensures XVal(x, T - 1, i, j, d) == 0 {
        SumRangeBoundsTerm(0, n, i' => Outbound(inst, x, T - 1, i', d), i);
        SumListBoundsTerm(Row(inst, i), j' => XVal(x, T - 1, i, j', d), j);
      }
    }
  }
}
