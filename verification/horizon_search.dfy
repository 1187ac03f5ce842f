/** The search for the shortest horizon (solve_adaptive.py:59-138): horizons
    8, 9, ..., 49 are tried in turn, each with the solver's time budget set to
    what is left of the overall limit; the first horizon for which the solver
    reports an optimal or feasible answer wins and its plan is read out. The
    wall clock and CP-SAT are outside the model: `clock(T)` is the elapsed time
    measured before horizon `T` is tried, and `solve(T, budget, workers)` is the
    solver's answer for the model of horizon `T`. */
module HorizonSearch {
  import opened Reindex
  import opened FlowModel
  import opened Extraction

  /** `TIME_LIMIT_SEC`. */
  const TimeLimit: real := 1200.0
  /** `MAX_WORKERS`. */
  const MaxWorkers := 28
  /** Headroom below the time limit under which no further horizon is tried. */
  const Headroom: real := 5.0
  /** `range(8, 50)`. */
  const FirstHorizon := 8
  const HorizonEnd := 50

  /** The statuses CP-SAT reports. */
  datatype Status = Optimal | Feasible | Infeasible | ModelInvalid | Unknown

  /** A solver answer: its status and the values of `x` and `w`. */
  datatype Answer = Answer(status: Status, x: map<XKey, int>, w: map<WKey, int>)

  /** What the search leaves behind in `best_T` and `best_solution`. */
  datatype Outcome = NotFound | Found(T: int, plan: seq<Shipment>)

  /** `max(1.0, TIME_LIMIT_SEC - elapsed)`, line 118. */
  function Budget(elapsed: real): (b: real)
    ensures b >= 1.0
    ensures b == TimeLimit - elapsed || (b == 1.0 && TimeLimit - elapsed <= 1.0)
  {
    if 1.0 >= TimeLimit - elapsed then 1.0 else TimeLimit - elapsed
  }

  /** `min(MAX_WORKERS, 8)`, line 119. */
  function Workers(): (k: int)
    ensures k <= MaxWorkers && k <= 8 && (k == MaxWorkers || k == 8)
  {
    if MaxWorkers < 8 then MaxWorkers else 8
  }

  /** The guard of line 62. */
  predicate OutOfTime(elapsed: real)
  {
    elapsed > TimeLimit - Headroom
  }

  /** The check of line 124. */
  predicate Solved(a: Answer)
  {
    a.status == Optimal || a.status == Feasible
  }

  /** The answer obtained for horizon `T`. */
  function AnswerAt(clock: int -> real, solve: (int, real, int) -> Answer, T: int): Answer
  {
    solve(T, Budget(clock(T)), Workers())
  }

  /** The outcome of the search started at horizon `T`. */
  function SearchFrom(inst: Instance, clock: int -> real, solve: (int, real, int) -> Answer, T: int): Outcome
    requires Decodable(inst)
    decreases HorizonEnd - T
  {
    if T >= HorizonEnd || OutOfTime(clock(T)) then NotFound
    else if Solved(AnswerAt(clock, solve, T)) then Found(T, Plan(inst, AnswerAt(clock, solve, T).x, T))
    else SearchFrom(inst, clock, solve, T + 1)
  }

  /** The loop of lines 60-138. */
  method Search(inst: Instance, clock: int -> real, solve: (int, real, int) -> Answer) returns (out: Outcome)
    requires Decodable(inst)
    ensures out == SearchFrom(inst, clock, solve, FirstHorizon)
  {
    ghost var target := SearchFrom(inst, clock, solve, FirstHorizon);
    out := NotFound;
    var T := FirstHorizon;
    while T < HorizonEnd
      invariant FirstHorizon <= T <= HorizonEnd
      invariant SearchFrom(inst, clock, solve, T) == target
      invariant out == NotFound
    {
      ghost var rest := SearchFrom(inst, clock, solve, T);
      var elapsed := clock(T);
      if elapsed > TimeLimit - Headroom {
        assert rest == NotFound;
        return;
      }
      var answer := solve(T, Budget(elapsed), Workers());
      assert answer == AnswerAt(clock, solve, T);
      if answer.status == Optimal || answer.status == Feasible {
        var plan := ExtractPlan(inst, answer.x, T);
        assert rest == Found(T, plan);
        return Found(T, plan);
      }
      assert rest == SearchFrom(inst, clock, solve, T + 1);
      T := T + 1;
    }
  }

  /** Every horizon from `lo` to `T` was reached before the time ran out. */
  ghost predicate ReachedFrom(clock: int -> real, lo: int, T: int)
  {
    forall T' :: lo <= T' <= T ==> !OutOfTime(clock(T'))
  }

  /** The search returns the first horizon that was reached in time and
      solved, with the plan of that horizon's answer; when it returns nothing,
      no horizon it reached was solved. */
  lemma {:induction false} SearchFromSpec(inst: Instance, clock: int -> real, solve: (int, real, int) -> Answer, lo: int)
    requires Decodable(inst)
    ensures var out := SearchFrom(inst, clock, solve, lo);
      out.Found? ==>
        && lo <= out.T < HorizonEnd
        && ReachedFrom(clock, lo, out.T)
        && Solved(AnswerAt(clock, solve, out.T))
        && (forall T' :: lo <= T' < out.T ==> !Solved(AnswerAt(clock, solve, T')))
        && out.plan == Plan(inst, AnswerAt(clock, solve, out.T).x, out.T)
    ensures SearchFrom(inst, clock, solve, lo).NotFound? ==>
      forall T' :: lo <= T' < HorizonEnd && ReachedFrom(clock, lo, T') ==> !Solved(AnswerAt(clock, solve, T'))
    decreases HorizonEnd - lo
  {
    if lo < HorizonEnd && !OutOfTime(clock(lo)) && !Solved(AnswerAt(clock, solve, lo)) {
      SearchFromSpec(inst, clock, solve, lo + 1);
    }
  }

  /** Whenever a horizon is tried, at least the 5 seconds of headroom remain
      for the solver, so the `max(1.0, ...)` of line 118 never takes its floor. */
  lemma BudgetWhenTried(elapsed: real)
    requires !OutOfTime(elapsed)
    ensures Budget(elapsed) == TimeLimit - elapsed >= Headroom
  {
  }

  /** What a correct solver promises: an optimal or feasible answer satisfies
      every constraint of the model it was given. */
  ghost predicate SoundSolver(inst: Instance, solve: (int, real, int) -> Answer)
    requires |inst.demand| == inst.N()
  {
    forall T, b, k :: Solved(solve(T, b, k)) ==> Valid(inst, T, solve(T, b, k).x, solve(T, b, k).w)
  }

  /** With a sound solver, a found plan is the plan of a valid answer for the
      least horizon solved: every wagon stands at its destination on day `T`,
      and each shipment moves 1 to 30 wagons and never leaves its destination. */
  lemma FoundPlanDelivers(inst: Instance, clock: int -> real, solve: (int, real, int) -> Answer)
    requires WellFormed(inst)
    requires SimpleRows(inst)
    requires SoundSolver(inst, solve)
    ensures Decodable(inst)
    ensures var out := SearchFrom(inst, clock, solve, FirstHorizon);
      out.Found? ==>
        var a := AnswerAt(clock, solve, out.T);
        && Valid(inst, out.T, a.x, a.w)
        && (forall d, i :: 0 <= d < inst.N() && 0 <= i < inst.N() && i != d ==> WVal(a.w, out.T, i, d) == 0)
        && (forall s :: s in out.plan ==> 0 < s.count <= MaxTrain && s.from != s.dest)
  {
    LoadedIsDecodable(inst);
    SearchFromSpec(inst, clock, solve, FirstHorizon);
    var out := SearchFrom(inst, clock, solve, FirstHorizon);
    if out.Found? {
      var a := AnswerAt(clock, solve, out.T);
      assert Valid(inst, out.T, a.x, a.w);
      ValidPlanShipments(inst, out.T, a.x, a.w);
      forall d, i | 0 <= d < inst.N() && 0 <= i < inst.N() && i != d
        ensures WVal(a.w, out.T, i, d) == 0
      {
        DeliveryComplete(inst, out.T, a.x, a.w, d);
      }
    }
  }
}
