/** The hill-climbing heuristic of src/solvers/solver_new1.py: start from the
    greedy selection, then try random one- or two-item flips and keep a
    neighbour only when it is feasible and strictly more valuable.
    The pseudo-random generator is replaced by the sequence of index pairs it
    draws (`draws[k]` is the (i, j) of iteration k + 1). */
module LocalSearchSolver {
  import opened Common
  import opened Knapsack

  /** The (value, weight, feasible) triple _score returns. */
  datatype Scored = Scored(value: real, weight: real, feasible: bool)

  /** _score: the value and weight of a selection, and whether the weight is
      within the capacity up to the 1e-9 slack. */
  function Score(chosen: seq<int>, values: seq<real>, weights: seq<real>, capacity: real): Scored
  {
    var w := SumSel(chosen, weights);
    Scored(SumSel(chosen, values), w, w <= capacity + Eps)
  }

  /** Flipping one flag of a 0/1 selection adds or removes exactly that item. */
  lemma {:induction false} ScoreFlip(chosen: seq<int>, values: seq<real>, weights: seq<real>, capacity: real, i: nat)
    requires i < |chosen| && i < |values| && i < |weights|
    requires chosen[i] == 0 || chosen[i] == 1
    ensures var before := Score(chosen, values, weights, capacity);
      var after := Score(chosen[i := 1 - chosen[i]], values, weights, capacity);
      if chosen[i] == 0 then after.value == before.value + values[i] && after.weight == before.weight + weights[i]
      else after.value == before.value - values[i] && after.weight == before.weight - weights[i]
  {
    SumSelUpdate(chosen, values, i, 1 - chosen[i]);
    SumSelUpdate(chosen, weights, i, 1 - chosen[i]);
  }

  /** The neighbour of iteration (i, j): both flags flipped when i != j, else flag i. */
  function Neighbour(best: seq<int>, i: nat, j: nat): (r: seq<int>)
    requires i < |best| && j < |best|
    ensures |r| == |best|
    ensures forall k :: 0 <= k < |best| ==> (r[k] != best[k] <==> k == i || k == j)
    ensures forall k :: 0 <= k < |best| && (k == i || k == j) ==> r[k] == 1 - best[k]
    ensures (forall k :: 0 <= k < |best| ==> best[k] == 0 || best[k] == 1) ==>
            (forall k :: 0 <= k < |best| ==> r[k] == 0 || r[k] == 1)
  {
    if i != j then
      var once := best[i := 1 - best[i]];
      once[j := 1 - once[j]]
    else best[i := 1 - best[i]]
  }

  /** The incumbent: best, best_v, best_w. */
  datatype Incumbent = Incumbent(chosen: seq<int>, value: real, weight: real)

  predicate InRange(draws: seq<(nat, nat)>, n: nat)
  {
    forall k :: 0 <= k < |draws| ==> draws[k].0 < n && draws[k].1 < n
  }

  /** One iteration: the neighbour replaces the incumbent iff it is feasible
      and strictly more valuable. */
  function Step(values: seq<real>, weights: seq<real>, capacity: real, inc: Incumbent, draw: (nat, nat)): (r: Incumbent)
    requires draw.0 < |inc.chosen| && draw.1 < |inc.chosen|
    ensures |r.chosen| == |inc.chosen|
    ensures r == inc || (r.value > inc.value && r.weight <= capacity + Eps)
  {
    var neighbour := Neighbour(inc.chosen, draw.0, draw.1);
    var s := Score(neighbour, values, weights, capacity);
    if s.feasible && s.value > inc.value then Incumbent(neighbour, s.value, s.weight) else inc
  }

  /** The incumbent after the iterations drawing `draws`, in order. */
  function Climb(values: seq<real>, weights: seq<real>, capacity: real, start: Incumbent, draws: seq<(nat, nat)>): (r: Incumbent)
    requires InRange(draws, |start.chosen|)
    ensures |r.chosen| == |start.chosen|
  {
    if draws == [] then start
    else
      var before := Climb(values, weights, capacity, start, draws[..|draws| - 1]);
      Step(values, weights, capacity, before, draws[|draws| - 1])
  }

  /** The incumbent's value and weight are those of its selection. */
  predicate Consistent(values: seq<real>, weights: seq<real>, inc: Incumbent)
  {
    inc.value == SumSel(inc.chosen, values) && inc.weight == SumSel(inc.chosen, weights)
    && forall k :: 0 <= k < |inc.chosen| ==> inc.chosen[k] == 0 || inc.chosen[k] == 1
  }

  /** Hill climbing never loses value, keeps a 0/1 selection whose totals are
      its sums, and once feasible stays feasible. */
  lemma {:induction false} ClimbFacts(values: seq<real>, weights: seq<real>, capacity: real, start: Incumbent, draws: seq<(nat, nat)>)
    requires InRange(draws, |start.chosen|)
    requires Consistent(values, weights, start)
    ensures var r := Climb(values, weights, capacity, start, draws);
      r.value >= start.value
      && Consistent(values, weights, r)
      && (start.weight <= capacity + Eps ==> r.weight <= capacity + Eps)
  {
    if draws != [] {
      var before := Climb(values, weights, capacity, start, draws[..|draws| - 1]);
      ClimbFacts(values, weights, capacity, start, draws[..|draws| - 1]);
    }
  }

  /** The starting incumbent: the greedy selection and its score. */
  function GreedyStart(values: seq<real>, weights: seq<real>, capacity: real): Incumbent
    requires KeysDefined(values, weights)
  {
    var p := Scan(values, weights, capacity, RatioOrder(values, weights));
    var s := Score(p.chosen, values, weights, capacity);
    Incumbent(p.chosen, s.value, s.weight)
  }

  /** The starting incumbent is the greedy pass's selection with its totals. */
  lemma {:induction false} GreedyStartFacts(values: seq<real>, weights: seq<real>, capacity: real)
    requires KeysDefined(values, weights)
    ensures var p := Scan(values, weights, capacity, RatioOrder(values, weights));
      GreedyStart(values, weights, capacity) == Incumbent(p.chosen, p.value, p.weight)
      && Consistent(values, weights, GreedyStart(values, weights, capacity))
  {
    GreedyPassFacts(values, weights, capacity);
  }

  /** The first loop of local_search: visit the ratio order and set chosen[i]
      when the weight of the current selection plus weights[i] fits. It
      recomputes the selection's weight each time instead of keeping a total,
      and makes the same selection as the greedy pass. */
  method InitialSelection(values: seq<real>, weights: seq<real>, capacity: real) returns (chosen: seq<int>)
    requires KeysDefined(values, weights)
    ensures chosen == GreedyStart(values, weights, capacity).chosen
  {
    chosen := seq(|values|, _ => 0);
    var order := RatioOrder(values, weights);
    RatioOrderDistinct(values, weights);
    for k := 0 to |order|
      invariant chosen == Scan(values, weights, capacity, order[..k]).chosen
    {
      var i := order[k];
      ScanStep(values, weights, capacity, order, k);
      if SumSel(chosen, weights) + weights[i] <= capacity {
        chosen := chosen[i := 1];
      }
    }
    assert order[..|order|] == order;
  }

  /** The visiting order holds each item once. */
  lemma {:induction false} RatioOrderDistinct(values: seq<real>, weights: seq<real>)
    requires KeysDefined(values, weights)
    ensures Distinct(RatioOrder(values, weights))
  {
    RatioOrderSpec(values, weights);
  }

  /** One step of the first loop: the recomputed weight of the selection so
      far is the pass's running weight, so the test admits the same item. */
  lemma {:induction false} ScanStep(values: seq<real>, weights: seq<real>, capacity: real, order: seq<nat>, k: nat)
    requires |values| <= |weights| && k < |order|
    requires forall m :: 0 <= m < |order| ==> order[m] < |values|
    requires Distinct(order)
    ensures var before := Scan(values, weights, capacity, order[..k]);
      var i := order[k];
      Scan(values, weights, capacity, order[..k + 1]).chosen
        == if SumSel(before.chosen, weights) + weights[i] <= capacity then before.chosen[i := 1] else before.chosen
  {
    assert order[..k + 1][..k] == order[..k];
    assert Distinct(order[..k]);
    ScanWeight(values, weights, capacity, order[..k]);
  }

  /** Whatever the draws, the search ends with a 0/1 selection whose totals
      are its sums, worth at least the greedy selection, and feasible when
      the capacity is non-negative. */
  lemma {:induction false} ClimbFromGreedy(values: seq<real>, weights: seq<real>, capacity: real, draws: seq<(nat, nat)>)
    requires KeysDefined(values, weights)
    requires InRange(draws, |values|)
    ensures var fin := Climb(values, weights, capacity, GreedyStart(values, weights, capacity), draws);
      fin.value >= Scan(values, weights, capacity, RatioOrder(values, weights)).value
      && |fin.chosen| == |values|
      && Consistent(values, weights, fin)
      && (capacity >= 0.0 ==> fin.weight <= capacity + Eps)
  {
    GreedyPassFacts(values, weights, capacity);
    GreedyStartFacts(values, weights, capacity);
    ClimbFacts(values, weights, capacity, GreedyStart(values, weights, capacity), draws);
  }

  /** max_iters iterations run when there is one; none when max_iters <= 0. */
  function Iterations(maxIters: int): nat
  {
    if maxIters > 0 then maxIters else 0
  }

  /** The while loop of local_search: max(0, max_iters) iterations, each
      drawing (i, j), building the neighbour and keeping it when it is
      feasible and strictly better. */
  method Iterate(values: seq<real>, weights: seq<real>, capacity: real,
                 best0: seq<int>, bestV0: real, bestW0: real, maxIters: int, draws: seq<(nat, nat)>)
    returns (best: seq<int>, bestV: real, bestW: real, iters: nat)
    requires InRange(draws, |best0|)
    requires Iterations(maxIters) <= |draws|
    ensures iters == Iterations(maxIters)
    ensures Incumbent(best, bestV, bestW) == Climb(values, weights, capacity, Incumbent(best0, bestV0, bestW0), draws[..iters])
  {
    ghost var start := Incumbent(best0, bestV0, bestW0);
    best, bestV, bestW := best0, bestV0, bestW0;
    iters := 0;
    while iters < maxIters
      invariant 0 <= iters <= Iterations(maxIters)
      invariant Incumbent(best, bestV, bestW) == Climb(values, weights, capacity, start, draws[..iters])
    {
      iters := iters + 1;
      assert draws[..iters][..iters - 1] == draws[..iters - 1];
      best, bestV, bestW := TryFlip(values, weights, capacity, best, bestV, bestW, draws[iters - 1]);
    }
  }

  /** One iteration: flip the flags of the drawn (i, j) (one flag when
      i == j) and keep the neighbour when it is feasible and strictly better. */
  method TryFlip(values: seq<real>, weights: seq<real>, capacity: real,
                 best0: seq<int>, bestV0: real, bestW0: real, draw: (nat, nat))
    returns (best: seq<int>, bestV: real, bestW: real)
    requires draw.0 < |best0| && draw.1 < |best0|
    ensures Incumbent(best, bestV, bestW) == Step(values, weights, capacity, Incumbent(best0, bestV0, bestW0), draw)
  {
    var (i, j) := draw;
    best, bestV, bestW := best0, bestV0, bestW0;
    var neighbour := best;
    if i != j {
      neighbour := neighbour[i := 1 - neighbour[i]];
      neighbour := neighbour[j := 1 - neighbour[j]];
    } else {
      neighbour := neighbour[i := 1 - neighbour[i]];
    }
    var sc := Score(neighbour, values, weights, capacity);
    if sc.feasible && sc.value > bestV {
      best, bestV, bestW := neighbour, sc.value, sc.weight;
    }
  }

  /** local_search: the greedy start, then max(0, max_iters) flip attempts.
      Raises when a ratio key cannot be computed, and on the first draw when
      there are no items (randrange(0)). */
  method LocalSearch(values: seq<real>, weights: seq<real>, capacity: real, maxIters: int,
                     draws: seq<(nat, nat)>, runtime: real)
    returns (r: Result<SolverOut, SolveError>)
    requires InRange(draws, |values|)
    requires |values| > 0 ==> |draws| >= maxIters
    ensures r.Err? <==> !KeysDefined(values, weights) || (|values| == 0 && maxIters > 0)
    ensures r.Err? && !KeysDefined(values, weights) ==> Some(r.error) == KeyFailure(values, weights)
    ensures r.Err? && KeysDefined(values, weights) ==> r.error == EmptyRange
    ensures r.Ok? ==>
      var fin := Climb(values, weights, capacity, GreedyStart(values, weights, capacity), draws[..Iterations(maxIters)]);
      r.value == SolverOut(fin.chosen, fin.value, fin.weight, fin.weight <= capacity + Eps, runtime, Iterations(maxIters))
    ensures r.Ok? ==>
      var out := r.value;
      out.bestValue >= Scan(values, weights, capacity, RatioOrder(values, weights)).value
      && |out.chosen| == |values|
      && (forall k :: 0 <= k < |values| ==> out.chosen[k] == 0 || out.chosen[k] == 1)
      && out.bestValue == SumSel(out.chosen, values)
      && out.totalWeight == SumSel(out.chosen, weights)
      && (capacity >= 0.0 ==> out.feasible)
  {
    var failure := KeyFailure(values, weights);
    if failure.Some? {
      return Err(failure.value);
    }
    var n := |values|;
    var chosen := InitialSelection(values, weights, capacity);
    var best := chosen;
    var s := Score(best, values, weights, capacity);
    var bestV, bestW := s.value, s.weight;
    assert Incumbent(best, bestV, bestW) == GreedyStart(values, weights, capacity);
    if n == 0 && maxIters > 0 {
      return Err(EmptyRange);
    }
    var iters;
    best, bestV, bestW, iters := Iterate(values, weights, capacity, best, bestV, bestW, maxIters, draws);
    ClimbFromGreedy(values, weights, capacity, draws[..iters]);
    r := Ok(SolverOut(best, bestV, bestW, bestW <= capacity + Eps, runtime, iters));
  }

  /** solve: local search with max_iters = 6000 (the seed 123 fixes `draws`). */
  method Solve(values: seq<real>, weights: seq<real>, capacity: real, instanceId: string,
               draws: seq<(nat, nat)>, runtime: real)
    returns (r: Result<KnapsackResult, SolveError>)
    requires InRange(draws, |values|)
    requires |values| > 0 ==> |draws| >= 6000
    ensures r.Err? <==> !KeysDefined(values, weights) || |values| == 0
    ensures r.Ok? ==>
      var fin := Climb(values, weights, capacity, GreedyStart(values, weights, capacity), draws[..6000]);
      r.value == KnapsackResult("new_solver1", instanceId, |values|, TruncToInt(capacity),
                                fin.value, fin.weight, fin.weight <= capacity + Eps, runtime, 6000)
    ensures r.Ok? ==> r.value.bestValue >= Scan(values, weights, capacity, RatioOrder(values, weights)).value
  {
    var out := LocalSearch(values, weights, capacity, 6000, draws, runtime);
    match out
    case Err(e) =>
      r := Err(e);
    case Ok(o) =>
      r := Ok(KnapsackResult("new_solver1", instanceId, |values|, TruncToInt(capacity),
                             o.bestValue, o.totalWeight, o.feasible, o.runtime, o.iterations));
  }

  /** On the worked example the greedy start takes items 0 and 1 (value 160);
      the draw (0, 2) swaps item 0 for item 2, reaching weight 50 and value
      220, which is accepted; the draw (2, 2) would add item 2 to the greedy
      start (weight 60) and is rejected. */
  lemma ClimbExample()
    ensures var values := [60.0, 100.0, 120.0];
      var weights := [10.0, 20.0, 30.0];
      var start := GreedyStart(values, weights, 50.0);
      start == Incumbent([1, 1, 0], 160.0, 30.0)
      && Climb(values, weights, 50.0, start, [(0, 2)]) == Incumbent([0, 1, 1], 220.0, 50.0)
      && Climb(values, weights, 50.0, start, [(2, 2)]) == start
  {
    var values := [60.0, 100.0, 120.0];
    var weights := [10.0, 20.0, 30.0];
    WorkedExample();
    GreedyStartFacts(values, weights, 50.0);
    SwapAccepted();
    AddRejected();
  }

  /** The first of the two draws of the example above, from the greedy start. */
  lemma SwapAccepted()
    ensures Climb([60.0, 100.0, 120.0], [10.0, 20.0, 30.0], 50.0, Incumbent([1, 1, 0], 160.0, 30.0), [(0, 2)])
         == Incumbent([0, 1, 1], 220.0, 50.0)
  {
    assert [(0, 2)][..0] == [];
    assert Neighbour([1, 1, 0], 0, 2) == [0, 1, 1];
  }

  /** The second of the two draws of the example above, from the greedy start. */
  lemma AddRejected()
    ensures var start := Incumbent([1, 1, 0], 160.0, 30.0);
      Climb([60.0, 100.0, 120.0], [10.0, 20.0, 30.0], 50.0, start, [(2, 2)]) == start
  {
    assert [(2, 2)][..0] == [];
    assert Neighbour([1, 1, 0], 2, 2) == [1, 1, 1];
  }
}
