/** scripts/post_step1_validate.py: check the step-1 metrics dictionary
    (allocations that form a distribution, a positive cost), and either
    report the errors and exit with status 1, leaving the file as it was, or
    rewrite the file as a five-key summary. Reading and writing the file is
    not modelled: the dictionary json.loads returns is the input and the
    outcome says what happens to the file. */
module PostStep1Validate {
  import opened Common
  import opened JsonValue
  import Step1Runner

  /** The messages the validator collects, in the order it appends them. */
  datatype Issue =
    | MissingAllocations          // "Allocations missing or empty"
    | BadSum(sum: real)           // "Allocations do not sum to 1.0 (sum=...)"
    | NegativeAllocation          // "Negative allocation detected"
    | NonPositiveCost             // "Total cost is non-positive"

  /** Where the script raises instead of reporting. */
  datatype Crash =
    | NotObject                          // data.get on a value that is not a dict
    | NonNumericAllocation(index: nat)   // sum() meets an element that is no number
    | BadRuntime                         // float() of the runtime fails

  datatype Outcome =
    | Crashed(crash: Crash)
    | Failed(errors: seq<Issue>)         // exit status 1, the file is left alone
    | Rewritten(pretty: Fields)          // the file now holds `pretty`

  /** The tolerance of the sum check. */
  const Tolerance: real := 0.000001

  function Abs(x: real): real
  {
    if x < 0.0 then -x else x
  }

  /** data.get("allocations", []). */
  function Allocations(f: Fields): Json
  {
    GetOr(f, "allocations", JArr([]))
  }

  /** data.get(k1, data.get(k2, default)): a present key wins even when its
      value is null, and the default only stands in for two missing keys. */
  function GetOrElse(f: Fields, k1: string, k2: string, default: Json): (v: Json)
    ensures HasKey(f, k1) ==> Get(f, k1) == Some(v)
    ensures !HasKey(f, k1) && HasKey(f, k2) ==> Get(f, k2) == Some(v)
    ensures !HasKey(f, k1) && !HasKey(f, k2) ==> v == default
  {
    GetOr(f, k1, GetOr(f, k2, default))
  }

  /** The cost read on line 10. */
  function TotalCost(f: Fields): Json
  {
    GetOrElse(f, "total_cost", "best_cost", JInt(0))
  }

  /** The runtime read on line 31. */
  function Runtime(f: Fields): Json
  {
    GetOrElse(f, "runtime", "runtime_sec", JInt(0))
  }

  /** The value of every allocation, or the position of the first one that
      sum() cannot add. */
  function Numbers(a: seq<Json>): (r: Result<seq<real>, Crash>)
    ensures r.Ok? <==> forall k :: 0 <= k < |a| ==> AsNumber(a[k]).Some?
    ensures r.Ok? ==> |r.value| == |a| && forall k :: 0 <= k < |a| ==> Some(r.value[k]) == AsNumber(a[k])
    ensures r.Err? ==> (r.error.NonNumericAllocation? && r.error.index < |a|
      && AsNumber(a[r.error.index]).None?
      && forall k :: 0 <= k < r.error.index ==> AsNumber(a[k]).Some?)
  {
    if a == [] then Ok([])
    else match AsNumber(a[0])
      case None => Err(NonNumericAllocation(0))
      case Some(x) =>
        match Numbers(a[1..])
        case Err(e) => Err(NonNumericAllocation(e.index + 1))
        case Ok(xs) => Ok([x] + xs)
  }

  /** The errors lines 13-21 collect, with the allocation values they read
      (none when the allocations are missing), or the crash on the way. */
  datatype Checked = Checked(errors: seq<Issue>, values: seq<real>)

  function Issues(f: Fields): Result<Checked, Crash>
  {
    match AllocationIssues(Allocations(f))
    case Err(e) => Err(e)
    case Ok(c) => Ok(Checked(c.errors + CostIssue(TotalCost(f)), c.values))
  }

  /** The allocation checks on their own: the "missing or empty" error, or
      the sum and sign errors of a list of numbers. */
  function AllocationIssues(allocs: Json): Result<Checked, Crash>
  {
    if !allocs.JArr? || allocs.elems == [] then Ok(Checked([MissingAllocations], []))
    else match Numbers(allocs.elems)
      case Err(e) => Err(e)
      case Ok(xs) =>
        var sumIssue := if Abs(Sum(xs) - 1.0) > Tolerance then [BadSum(Sum(xs))] else [];
        var minIssue := if exists k :: 0 <= k < |xs| && xs[k] < 0.0 then [NegativeAllocation] else [];
        Ok(Checked(sumIssue + minIssue, xs))
  }

  /** The cost check on its own. */
  function CostIssue(cost: Json): (e: seq<Issue>)
    ensures e == [] <==> PositiveNumber(cost)
    ensures e != [] ==> e == [NonPositiveCost]
  {
    var c := AsNumber(cost);
    if c.Some? && c.value > 0.0 then [] else [NonPositiveCost]
  }

  /** The dictionary of lines 28-34 (the rounding to three places is not modelled). */
  function Pretty(f: Fields, cost: real, allocs: seq<real>, runtime: real): Fields
  {
    [("best_cost", JReal(cost)),
     ("allocations", JArr(seq(|allocs|, k requires 0 <= k < |allocs| => JReal(allocs[k])))),
     ("runtime_sec", JReal(runtime)),
     ("budget", GetOr(f, "budget", JNull)),
     ("constraints", GetOr(f, "constraints", JObj([])))]
  }

  /** What the script does with the dictionary it read. */
  function Check(data: Json): Outcome
  {
    match data
    case JObj(f) =>
      (match Issues(f)
       case Err(c) => Crashed(c)
       case Ok(checked) =>
         if checked.errors != [] then Failed(checked.errors)
         else
           assert CostIssue(TotalCost(f)) == [];
           match PyFloat(Runtime(f))
           case None => Crashed(BadRuntime)
           case Some(rt) => Rewritten(Pretty(f, AsNumber(TotalCost(f)).value, checked.values, rt)))
    case _ => Crashed(NotObject)
  }

  /** The script body: append an error per failed check, then exit or
      rewrite the file. */
  method Validate(data: Json) returns (o: Outcome)
    ensures o == Check(data)
  {
    if !data.JObj? {
      return Crashed(NotObject);
    }
    var f := data.fields;
    var checked := CollectIssues(f);
    if checked.Err? {
      return Crashed(checked.error);
    }
    if checked.value.errors != [] {
      return Failed(checked.value.errors);
    }
    var cost := AsNumber(TotalCost(f));
    assert CostIssue(TotalCost(f)) == [];
    var runtime := PyFloat(Runtime(f));
    if runtime.None? {
      return Crashed(BadRuntime);
    }
    o := Rewritten(Pretty(f, cost.value, checked.value.values, runtime.value));
  }

  /** Lines 13-21: the allocation checks, then the cost check. */
  method CollectIssues(f: Fields) returns (r: Result<Checked, Crash>)
    ensures r == Issues(f)
  {
    var checked := CheckAllocations(Allocations(f));
    if checked.Err? {
      return Err(checked.error);
    }
    var errors := checked.value.errors;
    var cost := AsNumber(TotalCost(f));
    if !(cost.Some? && cost.value > 0.0) {
      errors := errors + [NonPositiveCost];
    } else {
      assert errors + CostIssue(TotalCost(f)) == errors;
    }
    r := Ok(Checked(errors, checked.value.values));
  }

  /** Lines 13-19: the allocation errors, appended in order. */
  method CheckAllocations(allocs: Json) returns (r: Result<Checked, Crash>)
    ensures r == AllocationIssues(allocs)
  {
    var errors: seq<Issue> := [];
    var values: seq<real> := [];
    if !allocs.JArr? || allocs.elems == [] {
      errors := [MissingAllocations];
    } else {
      var numbers := Numbers(allocs.elems);
      if numbers.Err? {
        return Err(numbers.error);
      }
      values := numbers.value;
      var total := Sum(values);
      if Abs(total - 1.0) > Tolerance {
        errors := errors + [BadSum(total)];
      }
      var least := Least(values);
      if least < 0.0 {
        errors := errors + [NegativeAllocation];
      } else {
        assert !exists k :: 0 <= k < |values| && values[k] < 0.0;
      }
      assert errors == (if Abs(total - 1.0) > Tolerance then [BadSum(total)] else [])
        + (if exists k :: 0 <= k < |values| && values[k] < 0.0 then [NegativeAllocation] else []);
    }
    r := Ok(Checked(errors, values));
  }

  /** min(xs) of a non-empty list. */
  function Least(xs: seq<real>): (m: real)
    requires xs != []
    ensures exists k :: 0 <= k < |xs| && xs[k] == m
    ensures forall k :: 0 <= k < |xs| ==> m <= xs[k]
  {
    if |xs| == 1 then xs[0]
    else
      var rest := Least(xs[1..]);
      assert forall k :: 1 <= k < |xs| ==> xs[k] == xs[1..][k - 1];
      if xs[0] <= rest then xs[0] else rest
  }

  /** The keys of a dictionary, in order. */
  function Keys(f: Fields): (ks: seq<string>)
    ensures |ks| == |f| && forall k :: 0 <= k < |f| ==> ks[k] == f[k].0
  {
    seq(|f|, k requires 0 <= k < |f| => f[k].0)
  }

  // ---------------------------------------------------------------------
  // What the checks promise

  /** A number greater than zero. */
  predicate PositiveNumber(j: Json)
  {
    AsNumber(j).Some? && AsNumber(j).value > 0.0
  }

  /** Allocations that are not a list, or an empty one, give the one
      "missing or empty" error and no sum or sign error. */
  lemma {:induction false} MissingAllocationsAlone(f: Fields)
    requires Issues(f).Ok?
    ensures var e := Issues(f).value.errors; var a := Allocations(f);
      (MissingAllocations in e <==> !a.JArr? || a.elems == [])
      && (MissingAllocations in e ==>
            e[0] == MissingAllocations && NegativeAllocation !in e
            && forall i :: 0 <= i < |e| ==> !e[i].BadSum?)
  {
  }

  /** sum() raises exactly when the allocations are a non-empty list
      holding something that is no number. */
  lemma {:induction false} NonNumericCrashes(f: Fields)
    ensures var a := Allocations(f);
      Issues(f).Err? <==> a.JArr? && a.elems != [] && exists k :: 0 <= k < |a.elems| && AsNumber(a.elems[k]).None?
  {
    var a := Allocations(f);
    if a.JArr? && a.elems != [] && exists k :: 0 <= k < |a.elems| && AsNumber(a.elems[k]).None? {
      assert Numbers(a.elems).Err?;
    }
  }

  /** For a non-empty list of numbers: the sum error is reported exactly when
      the sum is more than the tolerance away from 1, and the sign error
      exactly when some allocation is negative. */
  lemma {:induction false} DistributionChecks(f: Fields)
    requires Allocations(f).JArr? && Allocations(f).elems != [] && Issues(f).Ok?
    ensures var e := Issues(f).value.errors; var xs := Issues(f).value.values; var a := Allocations(f).elems;
      |xs| == |a| && (forall k :: 0 <= k < |a| ==> AsNumber(a[k]) == Some(xs[k]))
      && MissingAllocations !in e
      && (BadSum(Sum(xs)) in e <==> Abs(Sum(xs) - 1.0) > Tolerance)
      && (forall i :: 0 <= i < |e| && e[i].BadSum? ==> e[i].sum == Sum(xs))
      && (NegativeAllocation in e <==> exists k :: 0 <= k < |a| && xs[k] < 0.0)
  {
    var a := Allocations(f).elems;
    ListChecks(a);
    var c := AllocationIssues(JArr(a)).value;
    var cost := CostIssue(TotalCost(f));
    assert Issues(f).value == Checked(c.errors + cost, c.values);
    assert BadSum(Sum(c.values)) !in cost && NegativeAllocation !in cost && MissingAllocations !in cost;
    assert forall i :: 0 <= i < |cost| ==> !cost[i].BadSum?;
  }

  /** The allocation checks of a non-empty list of numbers. */
  lemma {:induction false} ListChecks(a: seq<Json>)
    requires a != [] && AllocationIssues(JArr(a)).Ok?
    ensures var e := AllocationIssues(JArr(a)).value.errors; var xs := AllocationIssues(JArr(a)).value.values;
      |xs| == |a| && (forall k :: 0 <= k < |a| ==> AsNumber(a[k]) == Some(xs[k]))
      && MissingAllocations !in e
      && (BadSum(Sum(xs)) in e <==> Abs(Sum(xs) - 1.0) > Tolerance)
      && (forall i :: 0 <= i < |e| && e[i].BadSum? ==> e[i].sum == Sum(xs))
      && (NegativeAllocation in e <==> exists k :: 0 <= k < |a| && xs[k] < 0.0)
  {
    var e := AllocationIssues(JArr(a)).value.errors;
    var xs := AllocationIssues(JArr(a)).value.values;
    assert Numbers(a).Ok? && xs == Numbers(a).value;
    if NegativeAllocation in e {
      assert exists k :: 0 <= k < |xs| && xs[k] < 0.0;
    }
  }

  /** The cost error is reported exactly when the cost is not a number
      greater than zero (a bool counts as a number). */
  lemma {:induction false} CostCheck(f: Fields)
    requires Issues(f).Ok?
    ensures NonPositiveCost in Issues(f).value.errors <==> !PositiveNumber(TotalCost(f))
  {
  }

  /** The file is rewritten only when no check failed, and then it holds
      exactly the five keys, a positive cost, the allocations (non-negative
      and summing to 1 within the tolerance) and the runtime read from
      `runtime`, else `runtime_sec`, else 0. */
  lemma {:induction false} RewrittenShape(data: Json)
    requires Check(data).Rewritten?
    ensures data.JObj? && Issues(data.fields).Ok? && Issues(data.fields).value.errors == []
    ensures var p := Check(data).pretty; var f := data.fields; var xs := Issues(f).value.values;
      Keys(p) == PrettyKeys
      && PositiveNumber(TotalCost(f)) && p[0].1 == JReal(AsNumber(TotalCost(f)).value)
      && Allocations(f).JArr? && |xs| == |Allocations(f).elems| > 0
      && p[1].1.JArr? && |p[1].1.elems| == |xs| && (forall k :: 0 <= k < |xs| ==> p[1].1.elems[k] == JReal(xs[k]))
      && Distribution(xs)
      && PyFloat(Runtime(f)) == Some(p[2].1.r)
  {
    var f := data.fields;
    RewrittenFrom(data);
    var xs := Issues(f).value.values;
    PrettyHasKeys(f, AsNumber(TotalCost(f)).value, xs, PyFloat(Runtime(f)).value);
    NoErrorsDistribution(f);
  }

  /** A rewrite comes from a dictionary without errors, a numeric cost and a
      runtime float() accepts. */
  lemma {:induction false} RewrittenFrom(data: Json)
    requires Check(data).Rewritten?
    ensures data.JObj? && Issues(data.fields).Ok? && Issues(data.fields).value.errors == []
    ensures var f := data.fields;
      PositiveNumber(TotalCost(f)) && PyFloat(Runtime(f)).Some?
      && Check(data).pretty == Pretty(f, AsNumber(TotalCost(f)).value, Issues(f).value.values, PyFloat(Runtime(f)).value)
  {
    CostCheck(data.fields);
  }

  /** Non-negative values that sum to 1 within the tolerance. */
  predicate Distribution(xs: seq<real>)
  {
    Abs(Sum(xs) - 1.0) <= Tolerance && forall k :: 0 <= k < |xs| ==> xs[k] >= 0.0
  }

  /** With no error, the allocations are a distribution. */
  lemma {:induction false} NoErrorsDistribution(f: Fields)
    requires Issues(f).Ok? && Issues(f).value.errors == []
    ensures var xs := Issues(f).value.values;
      Allocations(f).JArr? && |xs| == |Allocations(f).elems| > 0
      && Distribution(xs)
  {
    MissingAllocationsAlone(f);
    DistributionChecks(f);
    var xs := Issues(f).value.values;
    var total := Sum(xs);
    assert BadSum(total) !in Issues(f).value.errors;
    assert NegativeAllocation !in Issues(f).value.errors;
  }

  lemma {:induction false} PrettyHasKeys(f: Fields, cost: real, xs: seq<real>, rt: real)
    ensures Keys(Pretty(f, cost, xs, rt)) == PrettyKeys
    ensures var p := Pretty(f, cost, xs, rt);
      p[1].1.JArr? && |p[1].1.elems| == |xs| && forall k :: 0 <= k < |xs| ==> p[1].1.elems[k] == JReal(xs[k])
  {
  }

  /** The keys of the rewritten file, in order. */
  const PrettyKeys: seq<string> := ["best_cost", "allocations", "runtime_sec", "budget", "constraints"]

  /** Any error leaves the file as it was: the outcome is the list of errors. */
  lemma {:induction false} FailedIffErrors(data: Json)
    ensures Check(data).Failed? <==> data.JObj? && Issues(data.fields).Ok? && Issues(data.fields).value.errors != []
    ensures Check(data).Failed? ==> Check(data).errors == Issues(data.fields).value.errors
  {
  }

  /** The metrics the step-1 runner writes have no allocations, so the
      validator always fails on them with the missing-allocations error; the
      cost error joins it when the runner left nothing of the budget. */
  lemma {:induction false} Step1MetricsAlwaysFail(sol: Step1Runner.FillSolution, runtime: real, timestamp: string, sha: string,
                               python: string, inputFile: string, outdir: string)
    ensures var o := Check(JObj(Step1Runner.Metrics(sol, runtime, timestamp, sha, python, inputFile, outdir)));
      o.Failed? && o.errors[0] == MissingAllocations
      && (NonPositiveCost in o.errors <==> sol.leftover <= 0.0)
  {
    var m := Step1Runner.Metrics(sol, runtime, timestamp, sha, python, inputFile, outdir);
    assert Allocations(m) == JArr([]);
    assert TotalCost(m) == JReal(sol.leftover);
    MissingAllocationsAlone(m);
    CostCheck(m);
  }
}
