/** Checking a candidate answer against the model of horizon `T`: one method
    per constraint family of solve_adaptive.py:68-114, each walking the
    family in the order the script posts it and stopping at the first
    violated constraint. */
module AnswerCheck {
  import opened Reindex
  import opened FlowModel

  /** Lines 68-81: `x` and `w` have exactly the declared keys, with values in
      their domains. */
  method CheckDomains(inst: Instance, T: int, x: map<XKey, int>, w: map<WKey, int>) returns (ok: bool)
    ensures ok == Domains(inst, T, x, w)
  {
    var xKeys := DeclareX(inst, T);
    var wKeys := DeclareW(inst, T);
    var xOk := InRange(x, MaxTrain);
    var wOk := InRange(w, inst.totalWagons);
    ok := x.Keys == xKeys && w.Keys == wKeys && xOk && wOk;
  }

  /** Every value of `m` lies in `0..hi`. */
  method InRange<K>(m: map<K, int>, hi: int) returns (ok: bool)
    ensures ok <==> forall k :: k in m ==> 0 <= m[k] <= hi
  {
    var rest := m.Keys;
    while rest != {}
      invariant rest <= m.Keys
      invariant forall k :: k in m && k !in rest ==> 0 <= m[k] <= hi
      decreases |rest|
    {
      var k :| k in rest;
      if !(0 <= m[k] <= hi) {
        return false;
      }
      rest := rest - {k};
    }
    return true;
  }

  /** Lines 84-86. */
  method CheckInitial(inst: Instance, w: map<WKey, int>) returns (ok: bool)
    ensures ok == Initial(inst, w)
  {
    var n := inst.N();
    var i := 0;
    while i < n
      invariant 0 <= i <= n
      invariant forall i', d' :: 0 <= i' < i && 0 <= d' < n ==> WVal(w, 0, i', d') == OdAt(inst, i', d')
    {
      var d := 0;
      while d < n
        invariant 0 <= d <= n
        invariant forall i', d' :: 0 <= i' < n && 0 <= d' < n && (i' < i || (i' == i && d' < d)) ==>
          WVal(w, 0, i', d') == OdAt(inst, i', d')
      {
        if WVal(w, 0, i, d) != OdAt(inst, i, d) {
          return false;
        }
        d := d + 1;
      }
      i := i + 1;
    }
    return true;
  }

  /** Lines 89-94. */
  method CheckBalanced(inst: Instance, T: int, x: map<XKey, int>, w: map<WKey, int>) returns (ok: bool)
    ensures ok == Balanced(inst, T, x, w)
  {
    var t := 0;
    while t < T
      invariant 0 <= t && (t <= T || t == 0)
      invariant forall t' :: 0 <= t' < t ==> BalancedDay(inst, x, w, t')
    {
      var dayOk := CheckBalancedDay(inst, x, w, t);
      if !dayOk {
        assert !BalancedDay(inst, x, w, t);
        return false;
      }
      t := t + 1;
    }
    forall t', i, d | 0 <= t' < T && 0 <= i < inst.N() && 0 <= d < inst.N()
      ensures BalancedAt(inst, x, w, t', i, d)
    {
      assert BalancedDay(inst, x, w, t');
    }
    return true;
  }

  /** The balance constraints of one period `t`. */
  ghost predicate BalancedDay(inst: Instance, x: map<XKey, int>, w: map<WKey, int>, t: int)
  {
    forall i, d :: 0 <= i < inst.N() && 0 <= d < inst.N() ==> BalancedAt(inst, x, w, t, i, d)
  }

  /** The balance constraints of period `t` at station `i`. */
  ghost predicate BalancedRow(inst: Instance, x: map<XKey, int>, w: map<WKey, int>, t: int, i: int)
  {
    forall d :: 0 <= d < inst.N() ==> BalancedAt(inst, x, w, t, i, d)
  }

  /** Lines 89-94 for one period, station by station. */
  method CheckBalancedDay(inst: Instance, x: map<XKey, int>, w: map<WKey, int>, t: int) returns (ok: bool)
    ensures ok == BalancedDay(inst, x, w, t)
  {
    var n := inst.N();
    var i := 0;
    while i < n
      invariant 0 <= i <= n
      invariant forall i' :: 0 <= i' < i ==> BalancedRow(inst, x, w, t, i')
    {
      var rowOk := CheckBalancedRow(inst, x, w, t, i);
      if !rowOk {
        assert !BalancedRow(inst, x, w, t, i);
        return false;
      }
      i := i + 1;
    }
    forall i, d | 0 <= i < n && 0 <= d < n
      ensures BalancedAt(inst, x, w, t, i, d)
    {
      assert BalancedRow(inst, x, w, t, i);
    }
    return true;
  }

  /** Lines 90-94 for one period and one station, destination by destination. */
  method CheckBalancedRow(inst: Instance, x: map<XKey, int>, w: map<WKey, int>, t: int, i: int) returns (ok: bool)
    ensures ok == BalancedRow(inst, x, w, t, i)
  {
    var n := inst.N();
    var d := 0;
    while d < n
      invariant 0 <= d <= n
      invariant forall d' :: 0 <= d' < d ==> BalancedAt(inst, x, w, t, i, d')
    {
      var inbound := Inbound(inst, x, t, i, d);
      var outbound := Outbound(inst, x, t, i, d);
      if WVal(w, t + 1, i, d) != WVal(w, t, i, d) + inbound - outbound {
        assert !BalancedAt(inst, x, w, t, i, d);
        return false;
      }
      d := d + 1;
    }
    return true;
  }

  /** Lines 97-104. */
  method CheckTrains(inst: Instance, T: int, x: map<XKey, int>) returns (ok: bool)
    ensures ok == TrainsOk(inst, T, x)
  {
    var n := inst.N();
    var t := 0;
    while t < T
      invariant 0 <= t && (t <= T || t == 0)
      invariant forall t', i', j' :: 0 <= t' < t && 0 <= i' < n && j' in Row(inst, i') ==> TrainOkAt(inst, x, t', i', j')
    {
      var i := 0;
      while i < n
        invariant 0 <= i <= n
        invariant forall t', i', j' ::
          (0 <= t' < T && 0 <= i' < n && j' in Row(inst, i') && (t' < t || (t' == t && i' < i))) ==>
          TrainOkAt(inst, x, t', i', j')
      {
        var row := Row(inst, i);
        var p := 0;
        while p < |row|
          invariant 0 <= p <= |row|
          invariant forall t', i', j' ::
            (0 <= t' < T && 0 <= i' < n && j' in Row(inst, i') && (t' < t || (t' == t && (i' < i || (i' == i && j' in row[..p]))))) ==>
            TrainOkAt(inst, x, t', i', j')
        {
          var j := row[p];
          var total := TrainLoad(inst, x, t, i, j);
          if !((total == 0 || total >= MinTrain) && total <= MaxTrain) {
            assert j in Row(inst, i) && !TrainOkAt(inst, x, t, i, j);
            return false;
          }
          assert forall j' :: j' in row[..p + 1] <==> j' in row[..p] || j' == j;
          p := p + 1;
        }
        assert row[..p] == row;
        i := i + 1;
      }
      t := t + 1;
    }
    return true;
  }

  /** Lines 107-110. */
  method CheckAbsorbing(inst: Instance, T: int, x: map<XKey, int>) returns (ok: bool)
    ensures ok == Absorbing(inst, T, x)
  {
    var n := inst.N();
    var t := 0;
    while t < T
      invariant 0 <= t && (t <= T || t == 0)
      invariant forall t', d' :: 0 <= t' < t && 0 <= d' < n && Row(inst, d') != [] ==> LeavingDestination(inst, x, t', d') == 0
    {
      var d := 0;
      while d < n
        invariant 0 <= d <= n
        invariant forall t', d' :: 0 <= t' < T && 0 <= d' < n && Row(inst, d') != [] && (t' < t || (t' == t && d' < d)) ==>
          LeavingDestination(inst, x, t', d') == 0
      {
        if Row(inst, d) != [] && LeavingDestination(inst, x, t, d) != 0 {
          return false;
        }
        d := d + 1;
      }
      t := t + 1;
    }
    return true;
  }

  /** Lines 113-114. */
  method CheckDelivered(inst: Instance, T: int, w: map<WKey, int>) returns (ok: bool)
    requires |inst.demand| == inst.N()
    ensures ok == Delivered(inst, T, w)
  {
    var d := 0;
    while d < inst.N()
      invariant 0 <= d <= inst.N()
      invariant forall d' :: 0 <= d' < d ==> WVal(w, T, d', d') == inst.demand[d']
    {
      if WVal(w, T, d, d) != inst.demand[d] {
        return false;
      }
      d := d + 1;
    }
    return true;
  }

  /** The whole model of horizon `T`: the answer is accepted exactly when it
      satisfies every constraint. */
  method CheckAnswer(inst: Instance, T: int, x: map<XKey, int>, w: map<WKey, int>) returns (ok: bool)
    requires |inst.demand| == inst.N()
    ensures ok == Valid(inst, T, x, w)
  {
    ok := CheckDomains(inst, T, x, w);
    if ok {
      ok := CheckInitial(inst, w);
    }
    if ok {
      ok := CheckBalanced(inst, T, x, w);
    }
    if ok {
      ok := CheckTrains(inst, T, x);
    }
    if ok {
      ok := CheckAbsorbing(inst, T, x);
    }
    if ok {
      ok := CheckDelivered(inst, T, w);
    }
  }
}
