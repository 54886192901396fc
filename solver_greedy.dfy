/** The greedy value-to-weight heuristic of src/solvers/solver_greedy.py. */
module GreedySolver {
  import opened Common
  import opened Knapsack

  /** greedy_ratio: visit the items by non-increasing value/weight (ties in
      index order) and take each one that still fits. `runtime` is the
      elapsed wall-clock time the caller measured. */
  method GreedyRatio(values: seq<real>, weights: seq<real>, capacity: real, runtime: real)
    returns (r: Result<SolverOut, SolveError>)
    ensures r.Err? <==> !KeysDefined(values, weights)
    ensures r.Err? ==> Some(r.error) == KeyFailure(values, weights)
    ensures r.Ok? ==>
      var p := Scan(values, weights, capacity, RatioOrder(values, weights));
      r.value == SolverOut(p.chosen, p.value, p.weight, p.weight <= capacity + Eps, runtime, |values|)
    ensures r.Ok? ==>
      var out := r.value;
      |out.chosen| == |values|
      && (forall i :: 0 <= i < |values| ==> out.chosen[i] == 0 || out.chosen[i] == 1)
      && out.totalWeight == SumSel(out.chosen, weights)
      && out.bestValue == SumSel(out.chosen, values)
      && (capacity >= 0.0 ==> out.feasible)
    ensures r.Ok? && (forall i :: 0 <= i < |values| ==> weights[i] >= 0.0) ==>
      forall i :: 0 <= i < |values| && r.value.chosen[i] == 0 ==> r.value.totalWeight + weights[i] > capacity
  {
    var failure := KeyFailure(values, weights);
    if failure.Some? {
      return Err(failure.value);
    }
    var items := RatioOrder(values, weights);
    var totalW := 0.0;
    var totalV := 0.0;
    var chosen: seq<int> := seq(|values|, _ => 0);
    for k := 0 to |items|
      invariant Pack(chosen, totalW, totalV) == Scan(values, weights, capacity, items[..k])
    {
      var i := items[k];
      assert items[..k + 1][..k] == items[..k];
      if totalW + weights[i] <= capacity {
        chosen := chosen[i := 1];
        totalW := totalW + weights[i];
        totalV := totalV + values[i];
      }
    }
    assert items[..|items|] == items;
    GreedyPassFacts(values, weights, capacity);
    r := Ok(SolverOut(chosen, totalV, totalW, totalW <= capacity + Eps, runtime, |values|));
  }

  /** solve: run greedy_ratio and fill in the result record. */
  method Solve(values: seq<real>, weights: seq<real>, capacity: real, instanceId: string, runtime: real)
    returns (r: Result<KnapsackResult, SolveError>)
    ensures r.Err? <==> !KeysDefined(values, weights)
    ensures r.Ok? ==>
      var p := Scan(values, weights, capacity, RatioOrder(values, weights));
      r.value == KnapsackResult("greedy", instanceId, |values|, TruncToInt(capacity),
                                p.value, p.weight, p.weight <= capacity + Eps, runtime, |values|)
    ensures r.Ok? && capacity >= 0.0 ==> r.value.feasible && r.value.totalWeight <= capacity
  {
    var out := GreedyRatio(values, weights, capacity, runtime);
    match out
    case Err(e) =>
      r := Err(e);
    case Ok(o) =>
      GreedyPassFacts(values, weights, capacity);
      r := Ok(KnapsackResult("greedy", instanceId, |values|, TruncToInt(capacity),
                             o.bestValue, o.totalWeight, o.feasible, o.runtime, o.iterations));
  }
}
