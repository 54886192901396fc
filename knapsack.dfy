/** What the two knapsack heuristics share: the value-to-weight order they
    visit items in, the greedy admission pass over that order, the sums of a
    0/1 selection, and the result record both solvers fill in. */
module Knapsack {
  import opened Common
  import StableOrder

  /** The feasibility slack both solvers allow (1e-9). */
  const Eps: real := 0.000000001

  /** Why a solver raises instead of returning a result. */
  datatype SolveError =
    | ZeroWeight(index: nat)     // values[i] / weights[i] divides by zero
    | MissingWeight(index: nat)  // weights[i] is out of range
    | EmptyRange                 // randrange(0) with no items to draw from

  /** Every ratio values[i] / weights[i] for i < len(values) can be computed. */
  predicate KeysDefined(values: seq<real>, weights: seq<real>)
  {
    |values| <= |weights| && forall i :: 0 <= i < |values| ==> weights[i] != 0.0
  }

  /** The error raised by the first item (in index order) whose ratio key fails. */
  function KeyFailureFrom(values: seq<real>, weights: seq<real>, i: nat): (r: Option<SolveError>)
    requires i <= |values| && i <= |weights|
    ensures r.None? <==> (|values| <= |weights| && forall j :: i <= j < |values| ==> weights[j] != 0.0)
    ensures r.Some? ==> match r.value
      case ZeroWeight(j) => i <= j < |values| && j < |weights| && weights[j] == 0.0
                            && forall k :: i <= k < j ==> k < |weights| && weights[k] != 0.0
      case MissingWeight(j) => i <= j < |values| && j == |weights|
                               && forall k :: i <= k < j ==> weights[k] != 0.0
      case EmptyRange => false
    decreases |values| - i
  {
    if i == |values| then None
    else if i >= |weights| then Some(MissingWeight(i))
    else if weights[i] == 0.0 then Some(ZeroWeight(i))
    else KeyFailureFrom(values, weights, i + 1)
  }

  function KeyFailure(values: seq<real>, weights: seq<real>): (r: Option<SolveError>)
    ensures r.None? <==> KeysDefined(values, weights)
  {
    KeyFailureFrom(values, weights, 0)
  }

  /** The sort key -(values[i] / weights[i]): ascending on it is descending by ratio. */
  function RatioKeys(values: seq<real>, weights: seq<real>): (keys: seq<real>)
    requires KeysDefined(values, weights)
    ensures |keys| == |values|
  {
    seq(|values|, i requires 0 <= i < |values| => -(values[i] / weights[i]))
  }

  /** items.sort(key=ratio, reverse=True) on range(len(values)). */
  function RatioOrder(values: seq<real>, weights: seq<real>): (order: seq<nat>)
    requires KeysDefined(values, weights)
    ensures |order| == |values|
    ensures forall k :: 0 <= k < |order| ==> order[k] < |values|
  {
    StableOrder.Order(RatioKeys(values, weights))
  }

  /** The visiting order is a permutation of the items, by non-increasing
      ratio, and items of equal ratio keep their index order. */
  lemma {:induction false} RatioOrderSpec(values: seq<real>, weights: seq<real>)
    requires KeysDefined(values, weights)
    ensures var order := RatioOrder(values, weights);
      (forall i: nat :: i in order <==> i < |values|)
      && (forall p, q :: 0 <= p < q < |order| ==> order[p] != order[q])
      && (forall p, q :: 0 <= p < q < |order| ==>
            values[order[p]] / weights[order[p]] > values[order[q]] / weights[order[q]]
            || (values[order[p]] / weights[order[p]] == values[order[q]] / weights[order[q]] && order[p] < order[q]))
  {
    var keys := RatioKeys(values, weights);
    var order := RatioOrder(values, weights);
    forall p, q | 0 <= p < q < |order|
      ensures order[p] != order[q]
      ensures values[order[p]] / weights[order[p]] > values[order[q]] / weights[order[q]]
              || (values[order[p]] / weights[order[p]] == values[order[q]] / weights[order[q]] && order[p] < order[q])
    {
      assert StableOrder.Before(keys, order[p], order[q]);
    }
  }

  /** What one selected flag contributes: Python's `if ci` keeps x when ci is non-zero. */
  function Sel(c: int, x: real): real
  {
    if c != 0 then x else 0.0
  }

  /** sum(x for c, x in zip(chosen, xs) if c). */
  function SumSel(chosen: seq<int>, xs: seq<real>): real
  {
    if chosen == [] || xs == [] then 0.0 else Sel(chosen[0], xs[0]) + SumSel(chosen[1..], xs[1..])
  }

  /** Changing one flag changes the sum by exactly that item's contribution. */
  lemma {:induction false} SumSelUpdate(c: seq<int>, xs: seq<real>, i: nat, b: int)
    requires i < |c| && i < |xs|
    ensures SumSel(c[i := b], xs) == SumSel(c, xs) - Sel(c[i], xs[i]) + Sel(b, xs[i])
  {
    if i == 0 {
      assert c[i := b][1..] == c[1..];
    } else {
      assert c[i := b][1..] == c[1..][i - 1 := b];
      SumSelUpdate(c[1..], xs[1..], i - 1, b);
    }
  }

  lemma {:induction false} SumSelZeros(n: nat, xs: seq<real>)
    ensures SumSel(seq(n, _ => 0), xs) == 0.0
  {
    if n > 0 && xs != [] {
      assert seq(n, _ => 0)[1..] == seq(n - 1, _ => 0);
      SumSelZeros(n - 1, xs[1..]);
    }
  }

  /** A selection with its running weight and value. */
  datatype Pack = Pack(chosen: seq<int>, weight: real, value: real)

  /** Admit item i when it still fits: total_w + weights[i] <= capacity. */
  function Admit(values: seq<real>, weights: seq<real>, capacity: real, p: Pack, i: nat): Pack
    requires i < |p.chosen| && i < |values| && i < |weights|
  {
    if p.weight + weights[i] <= capacity
    then Pack(p.chosen[i := 1], p.weight + weights[i], p.value + values[i])
    else p
  }

  /** The greedy pass: starting from nothing chosen, admit the items of
      `order` one after the other. */
  function Scan(values: seq<real>, weights: seq<real>, capacity: real, order: seq<nat>): (p: Pack)
    requires |values| <= |weights|
    requires forall k :: 0 <= k < |order| ==> order[k] < |values|
    ensures |p.chosen| == |values|
  {
    if order == [] then Pack(seq(|values|, _ => 0), 0.0, 0.0)
    else Admit(values, weights, capacity, Scan(values, weights, capacity, order[..|order| - 1]), order[|order| - 1])
  }

  predicate Distinct(order: seq<nat>)
  {
    forall p, q :: 0 <= p < q < |order| ==> order[p] != order[q]
  }

  /** Over an order that visits each item at most once, the pass builds a 0/1
      selection of visited items, its running totals are the sums over that
      selection, and the weight stays within a non-negative capacity. */
  lemma {:induction false} ScanFacts(values: seq<real>, weights: seq<real>, capacity: real, order: seq<nat>)
    requires |values| <= |weights|
    requires forall k :: 0 <= k < |order| ==> order[k] < |values|
    requires Distinct(order)
    ensures var p := Scan(values, weights, capacity, order);
      (forall j :: 0 <= j < |values| ==> p.chosen[j] == 0 || p.chosen[j] == 1)
      && (forall j :: 0 <= j < |values| && p.chosen[j] == 1 ==> j in order)
      && p.weight == SumSel(p.chosen, weights)
      && p.value == SumSel(p.chosen, values)
      && (capacity >= 0.0 ==> p.weight <= capacity)
  {
    var n := |values|;
    if order == [] {
      SumSelZeros(n, weights);
      SumSelZeros(n, values);
    } else {
      var prefix := order[..|order| - 1];
      var i := order[|order| - 1];
      ScanFacts(values, weights, capacity, prefix);
      var p := Scan(values, weights, capacity, prefix);
      assert i !in prefix by {
        forall q | 0 <= q < |prefix| ensures prefix[q] != i {
          assert prefix[q] == order[q];
        }
      }
      assert p.chosen[i] == 0;
      if p.weight + weights[i] <= capacity {
        AdmitSums(values, weights, p, i);
        forall j | 0 <= j < n && p.chosen[i := 1][j] == 1 ensures j in order {
          if j != i { assert j in prefix; }
        }
      }
    }
  }

  /** Admitting an unselected item adds its weight and value to the sums. */
  lemma {:induction false} AdmitSums(values: seq<real>, weights: seq<real>, p: Pack, i: nat)
    requires i < |p.chosen| && i < |values| && i < |weights| && p.chosen[i] == 0
    requires p.weight == SumSel(p.chosen, weights) && p.value == SumSel(p.chosen, values)
    ensures p.weight + weights[i] == SumSel(p.chosen[i := 1], weights)
    ensures p.value + values[i] == SumSel(p.chosen[i := 1], values)
  {
    SumSelUpdate(p.chosen, weights, i, 1);
    SumSelUpdate(p.chosen, values, i, 1);
  }

  /** The running weight of the pass is the weight of its selection. */
  lemma {:induction false} ScanWeight(values: seq<real>, weights: seq<real>, capacity: real, order: seq<nat>)
    requires |values| <= |weights|
    requires forall k :: 0 <= k < |order| ==> order[k] < |values|
    requires Distinct(order)
    ensures Scan(values, weights, capacity, order).weight == SumSel(Scan(values, weights, capacity, order).chosen, weights)
  {
    ScanFacts(values, weights, capacity, order);
  }

  /** With non-negative weights, every item the pass visited but left out
      does not fit next to the final selection. */
  lemma {:induction false} ScanMaximal(values: seq<real>, weights: seq<real>, capacity: real, order: seq<nat>)
    requires |values| <= |weights|
    requires forall k :: 0 <= k < |order| ==> order[k] < |values|
    requires Distinct(order)
    requires forall j :: 0 <= j < |values| ==> weights[j] >= 0.0
    ensures var p := Scan(values, weights, capacity, order);
      forall k :: 0 <= k < |order| && p.chosen[order[k]] == 0 ==> p.weight + weights[order[k]] > capacity
  {
    if order != [] {
      var prefix := order[..|order| - 1];
      var i := order[|order| - 1];
      ScanMaximal(values, weights, capacity, prefix);
      var p := Scan(values, weights, capacity, prefix);
      var r := Scan(values, weights, capacity, order);
      forall k | 0 <= k < |order| && r.chosen[order[k]] == 0
        ensures r.weight + weights[order[k]] > capacity
      {
        if k < |order| - 1 {
          assert order[k] == prefix[k];
          assert order[k] != i;
          assert p.chosen[order[k]] == 0;
        }
      }
    }
  }

  /** The greedy pass over the ratio order: a 0/1 selection whose totals are
      its sums, within a non-negative capacity, and (with non-negative
      weights) no left-out item fits next to it. */
  lemma {:induction false} GreedyPassFacts(values: seq<real>, weights: seq<real>, capacity: real)
    requires KeysDefined(values, weights)
    ensures var p := Scan(values, weights, capacity, RatioOrder(values, weights));
      (forall i :: 0 <= i < |values| ==> p.chosen[i] == 0 || p.chosen[i] == 1)
      && p.weight == SumSel(p.chosen, weights)
      && p.value == SumSel(p.chosen, values)
      && (capacity >= 0.0 ==> p.weight <= capacity)
      && ((forall i :: 0 <= i < |values| ==> weights[i] >= 0.0) ==>
            forall i :: 0 <= i < |values| && p.chosen[i] == 0 ==> p.weight + weights[i] > capacity)
  {
    var order := RatioOrder(values, weights);
    var p := Scan(values, weights, capacity, order);
    RatioOrderSpec(values, weights);
    ScanFacts(values, weights, capacity, order);
    if forall i :: 0 <= i < |values| ==> weights[i] >= 0.0 {
      ScanMaximal(values, weights, capacity, order);
      forall i | 0 <= i < |values| && p.chosen[i] == 0 ensures p.weight + weights[i] > capacity {
        assert i in order;
        var k :| 0 <= k < |order| && order[k] == i;
      }
    }
  }

  /** The worked example: values 60, 100, 120 with weights 10, 20, 30 and
      capacity 50 give ratios 6, 5, 4; the first two items fit (weight 30,
      value 160) and the third does not. */
  lemma WorkedExample()
    ensures Scan([60.0, 100.0, 120.0], [10.0, 20.0, 30.0], 50.0, RatioOrder([60.0, 100.0, 120.0], [10.0, 20.0, 30.0]))
            == Pack([1, 1, 0], 30.0, 160.0)
  {
    var values := [60.0, 100.0, 120.0];
    var weights := [10.0, 20.0, 30.0];
    var keys := RatioKeys(values, weights);
    assert keys == [-6.0, -5.0, -4.0];
    var order := RatioOrder(values, weights);
    assert StableOrder.OrderOf(keys, 1) == [0];
    assert StableOrder.OrderOf(keys, 2) == [0, 1];
    assert order == [0, 1, 2];
    assert order[..2] == [0, 1] && order[..1] == [0] && order[..0] == [];
  }

  /** The dictionary greedy_ratio and local_search return. */
  datatype SolverOut = SolverOut(
    chosen: seq<int>,
    bestValue: real,
    totalWeight: real,
    feasible: bool,
    runtime: real,
    iterations: int)

  /** The record solve() returns. */
  datatype KnapsackResult = KnapsackResult(
    solver: string,
    instanceId: string,
    nItems: nat,
    capacity: int,
    bestValue: real,
    totalWeight: real,
    feasible: bool,
    runtime: real,
    iterations: int)

  /** Python's int(x) on a float: truncation toward zero. */
  function TruncToInt(x: real): (r: int)
    ensures x >= 0.0 ==> r as real <= x < r as real + 1.0
    ensures x < 0.0 ==> r as real - 1.0 < x <= r as real
  {
    if x >= 0.0 then x.Floor else -((-x).Floor)
  }
}
