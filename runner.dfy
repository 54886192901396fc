/** The step-1 budget-filling baseline of step_1/runner.py: take assets
    cheapest first while the running spend stays within the budget. */
module Step1Runner {
  import opened Common
  import opened JsonValue
  import StableOrder

  /** Why greedy_fill raises. */
  datatype FillError =
    | ProblemNotObject        // problem.get on something that is not a dict
    | BadBudget               // float(budget) fails
    | AssetsNotIterable       // list(assets) on None or a number
    | AssetNotObject(index: nat)  // a.get on an element that is not a dict
    | BadPrice(index: nat)        // float(price) fails

  datatype ChosenAsset = ChosenAsset(id: Json, price: real)

  /** The solution dictionary (the rounding to 4 places is not modelled). */
  datatype FillSolution = FillSolution(
    budget: real,
    totalSpend: real,
    leftover: real,
    chosenCount: nat,
    chosen: seq<ChosenAsset>)

  /** list(x): the elements of a list, the keys of a dict, the characters of a string. */
  function ListOf(j: Json): Result<seq<Json>, FillError>
  {
    match j
    case JArr(a) => Ok(a)
    case JObj(f) => Ok(seq(|f|, i requires 0 <= i < |f| => JStr(f[i].0)))
    case JStr(s) => Ok(seq(|s|, i requires 0 <= i < |s| => JStr([s[i]])))
    case _ => Err(AssetsNotIterable)
  }

  /** float(a.get("price", 0.0)) for the asset at position `index`. */
  function PriceOf(a: Json, index: nat): Result<real, FillError>
  {
    match a
    case JObj(f) =>
      (match PyFloat(GetOr(f, "price", JReal(0.0)))
       case Some(p) => Ok(p)
       case None => Err(BadPrice(index)))
    case _ => Err(AssetNotObject(index))
  }

  /** The sort keys are computed for the assets in list order, so the first
      asset whose key fails decides the error; `price` is PriceOf. */
  function PriceFailure(assets: seq<Json>, i: nat, price: (Json, nat) -> Result<real, FillError>): (r: Option<FillError>)
    requires i <= |assets|
    ensures r.None? <==> forall k :: i <= k < |assets| ==> price(assets[k], k).Ok?
    ensures r.Some? ==> exists k :: i <= k < |assets| && price(assets[k], k) == Err(r.value)
                                  && forall j :: i <= j < k ==> price(assets[j], j).Ok?
    decreases |assets| - i
  {
    if i == |assets| then None
    else
      var p := price(assets[i], i);
      if p.Err? then Some(p.error) else PriceFailure(assets, i + 1, price)
  }

  /** The sort key of every asset. */
  function Prices(assets: seq<Json>): (prices: seq<real>)
    requires PriceFailure(assets, 0, PriceOf).None?
    ensures |prices| == |assets|
    ensures forall k :: 0 <= k < |assets| ==> PriceOf(assets[k], k) == Ok(prices[k])
  {
    seq(|assets|, k requires 0 <= k < |assets| => PriceOf(assets[k], k).value)
  }

  /** What greedy_fill reads before its loop: the budget, the asset list and their prices. */
  datatype FillInput = FillInput(budget: real, assets: seq<Json>, prices: seq<real>)

  function ReadInput(problem: Json): (r: Result<FillInput, FillError>)
    ensures r.Ok? ==> |r.value.prices| == |r.value.assets|
  {
    match problem
    case JObj(f) =>
      (match PyFloat(GetOr(f, "budget", JReal(0.0)))
       case None => Err(BadBudget)
       case Some(budget) =>
         match ListOf(GetOr(f, "assets", JArr([])))
         case Err(e) => Err(e)
         case Ok(assets) =>
           match PriceFailure(assets, 0, PriceOf)
           case Some(e) => Err(e)
           case None => Ok(FillInput(budget, assets, Prices(assets))))
    case _ => Err(ProblemNotObject)
  }

  /** a.get("id"): None when absent. */
  function IdOf(a: Json): Json
  {
    match a
    case JObj(f) => GetOr(f, "id", JNull)
    case _ => JNull
  }

  /** The total price of a list of chosen assets. */
  function Spend(chosen: seq<ChosenAsset>): real
  {
    if chosen == [] then 0.0 else Spend(chosen[..|chosen| - 1]) + chosen[|chosen| - 1].price
  }

  function Max0(x: real): real
  {
    if x >= 0.0 then x else 0.0
  }

  /** Every asset fitted next to the ones before it. */
  predicate EachFits(chosen: seq<ChosenAsset>, budget: real)
  {
    forall m :: 0 <= m < |chosen| ==> Spend(chosen[..m]) + chosen[m].price <= budget
  }

  lemma EachFitsSnoc(chosen: seq<ChosenAsset>, x: ChosenAsset, budget: real)
    requires EachFits(chosen, budget)
    requires Spend(chosen) + x.price <= budget
    ensures EachFits(chosen + [x], budget)
    ensures Spend(chosen + [x]) == Spend(chosen) + x.price
  {
    var next := chosen + [x];
    assert next[..|chosen|] == chosen;
    forall m | 0 <= m < |chosen| ensures Spend(next[..m]) + next[m].price <= budget {
      assert next[..m] == chosen[..m];
    }
  }

  lemma FitsAt(chosen: seq<ChosenAsset>, budget: real, m: nat)
    requires EachFits(chosen, budget)
    requires m < |chosen|
    ensures Spend(chosen[..m]) + chosen[m].price <= budget
  {
  }

  /** What greedy_fill promises about its solution for the input it read. */
  predicate FillsGreedily(input: FillInput, sol: FillSolution)
    requires |input.prices| == |input.assets|
  {
    var order := StableOrder.Order(input.prices);
    sol.budget == input.budget
    && sol.chosenCount == |sol.chosen| <= |input.assets|
    && sol.totalSpend == Spend(sol.chosen)
    && sol.leftover == Max0(input.budget - sol.totalSpend) >= 0.0
    && (input.budget >= 0.0 ==> sol.totalSpend <= input.budget)
    // the chosen assets are the cheapest ones, a prefix of the sorted list
    && (forall m :: 0 <= m < |sol.chosen| ==>
          sol.chosen[m] == ChosenAsset(IdOf(input.assets[order[m]]), input.prices[order[m]]))
    // each chosen asset fitted next to the assets chosen before it
    && EachFits(sol.chosen, input.budget)
    // every asset after that prefix is rejected
    && (forall m :: |sol.chosen| <= m < |input.assets| ==>
          sol.totalSpend + input.prices[order[m]] > input.budget)
  }

  /** The characterisation pins the solution down: two solutions that both
      fill greedily for the same input are the same solution. */
  lemma {:induction false} FillUnique(input: FillInput, s1: FillSolution, s2: FillSolution)
    requires |input.prices| == |input.assets|
    requires FillsGreedily(input, s1) && FillsGreedily(input, s2)
    ensures s1 == s2
  {
    var m: nat := if |s1.chosen| < |s2.chosen| then |s1.chosen| else |s2.chosen|;
    SamePrefix(input, s1, s2, m);
    assert s1.chosen[..|s1.chosen|] == s1.chosen && s2.chosen[..|s2.chosen|] == s2.chosen;
    if |s1.chosen| < |s2.chosen| {
      FitsAt(s2.chosen, input.budget, m);
      assert false;
    } else if |s2.chosen| < |s1.chosen| {
      FitsAt(s1.chosen, input.budget, m);
      assert false;
    }
    assert s1.chosen == s2.chosen;
  }

  /** Two greedy solutions agree on the assets both of them choose. */
  lemma SamePrefix(input: FillInput, s: FillSolution, t: FillSolution, m: nat)
    requires |input.prices| == |input.assets|
    requires FillsGreedily(input, s) && FillsGreedily(input, t)
    requires m <= |s.chosen| && m <= |t.chosen|
    ensures s.chosen[..m] == t.chosen[..m]
  {
  }

  /** greedy_fill: read the budget and the assets, sort the assets by price
      (stable), then take each asset whose price still fits next to the
      running total. */
  method GreedyFill(problem: Json) returns (r: Result<FillSolution, FillError>)
    ensures r.Err? <==> ReadInput(problem).Err?
    ensures r.Err? ==> r.error == ReadInput(problem).error
    ensures r.Ok? ==> FillsGreedily(ReadInput(problem).value, r.value)
  {
    var read := ReadInput(problem);
    if read.Err? {
      return Err(read.error);
    }
    var sol := Fill(read.value);
    r := Ok(sol);
  }

  /** The state of the admission loop after the first k assets of the
      sorted order: the chosen prefix, its total, and the rejections so far. */
  predicate Scanned(input: FillInput, k: nat, chosen: seq<ChosenAsset>, total: real)
    requires |input.prices| == |input.assets|
    requires k <= |input.assets|
  {
    var order := StableOrder.Order(input.prices);
    |chosen| <= k
    && (forall m :: 0 <= m < |chosen| ==>
          chosen[m] == ChosenAsset(IdOf(input.assets[order[m]]), input.prices[order[m]]))
    && total == Spend(chosen)
    && EachFits(chosen, input.budget)
    && (forall m :: |chosen| <= m < k ==> total + input.prices[order[m]] > input.budget)
    && ((input.budget >= 0.0 || chosen != []) ==> total <= input.budget)
  }

  /** Taking the k-th asset of the order keeps the loop state. */
  lemma ScanAdmit(input: FillInput, k: nat, chosen: seq<ChosenAsset>, total: real)
    requires |input.prices| == |input.assets|
    requires k < |input.assets|
    requires Scanned(input, k, chosen, total)
    requires var order := StableOrder.Order(input.prices);
      total + input.prices[order[k]] <= input.budget
    ensures var order := StableOrder.Order(input.prices);
      var x := ChosenAsset(IdOf(input.assets[order[k]]), input.prices[order[k]]);
      Scanned(input, k + 1, chosen + [x], total + x.price)
  {
    var order := StableOrder.Order(input.prices);
    var x := ChosenAsset(IdOf(input.assets[order[k]]), input.prices[order[k]]);
    if |chosen| < k {
      StableOrder.OrderMonotone(input.prices, |chosen|, k);
    }
    EachFitsSnoc(chosen, x, input.budget);
  }

  /** Passing over the k-th asset of the order keeps the loop state. */
  lemma ScanReject(input: FillInput, k: nat, chosen: seq<ChosenAsset>, total: real)
    requires |input.prices| == |input.assets|
    requires k < |input.assets|
    requires Scanned(input, k, chosen, total)
    requires var order := StableOrder.Order(input.prices);
      total + input.prices[order[k]] > input.budget
    ensures Scanned(input, k + 1, chosen, total)
  {
  }

  /** After the whole order, the loop state is a greedy solution. */
  lemma ScanDone(input: FillInput, chosen: seq<ChosenAsset>, total: real)
    requires |input.prices| == |input.assets|
    requires Scanned(input, |input.assets|, chosen, total)
    ensures FillsGreedily(input, FillSolution(input.budget, total, Max0(input.budget - total), |chosen|, chosen))
  {
  }

  /** The sort and the admission loop of greedy_fill. */
  method Fill(input: FillInput) returns (sol: FillSolution)
    requires |input.prices| == |input.assets|
    ensures FillsGreedily(input, sol)
  {
    var budget, assets, prices := input.budget, input.assets, input.prices;
    var order := StableOrder.Order(prices);
    var chosen: seq<ChosenAsset> := [];
    var total := 0.0;
    for k := 0 to |order|
      invariant Scanned(input, k, chosen, total)
    {
      var a := assets[order[k]];
      var p := prices[order[k]];
      if total + p <= budget {
        ScanAdmit(input, k, chosen, total);
        chosen := chosen + [ChosenAsset(IdOf(a), p)];
        total := total + p;
      } else {
        ScanReject(input, k, chosen, total);
      }
    }
    ScanDone(input, chosen, total);
    sol := FillSolution(budget, total, Max0(budget - total), |chosen|, chosen);
  }

  /** The metrics dictionary the runner writes next to the solution; its
      best_cost is the solution's leftover. `runtime`, `timestamp`, `sha`,
      `python`, `inputFile` and `outdir` come from the clock, git and the
      command line. */
  function Metrics(sol: FillSolution, runtime: real, timestamp: string, sha: string,
                   python: string, inputFile: string, outdir: string): (m: Fields)
    ensures Get(m, "best_cost") == Some(JReal(sol.leftover))
    ensures !HasKey(m, "allocations") && !HasKey(m, "total_cost")
  {
    var m := [("step", JStr("step_1_static_solver")),
     ("status", JStr("success")),
     ("objective", JStr("min leftover budget (greedy baseline)")),
     ("best_cost", JReal(sol.leftover)),
     ("runtime_s", JReal(runtime)),
     ("timestamp_local", JStr(timestamp)),
     ("git_sha", JStr(sha)),
     ("python", JStr(python)),
     ("input_file", JStr(inputFile)),
     ("outdir", JStr(outdir))];
    assert forall i :: 0 <= i < |m| ==> m[i].0 != "allocations" && m[i].0 != "total_cost";
    GetFirst(m, "best_cost", 3);
    m
  }
}
