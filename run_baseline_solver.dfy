/** The exact-solver runner of src/run_baseline_solver.py: instance loading
    and item normalisation, the post-processing of the solver's answer, and
    the name of the result file. The solver call itself is a parameter: its
    answer is a status, an objective value and one value per variable. */
module BaselineRunner {
  import opened Common
  import opened JsonValue
  import SolverVsBaseline

  /** Why load_instance raises. */
  datatype LoadError =
    | TypeErr                            // `in` or `[]` on a value that does not support it
    | AttrErr                            // it.get on an item that is not a dict
    | MissingRequired                    // no "items" or no "capacity"
    | MissingField(item: Json, key: string)  // an item without "value" or "weight"

  /** `k in j`: a key of a dict, a substring of a str, an element of a list;
      None where Python raises TypeError. */
  function Member(k: string, j: Json): (r: Option<bool>)
    ensures j.JObj? ==> r == Some(HasKey(j.fields, k))
  {
    match j
    case JObj(f) => Some(HasKey(f, k))
    case JStr(s) => Some(Contains(s, k))
    case JArr(a) => Some(JStr(k) in a)
    case _ => None
  }

  /** What `for i, it in enumerate(x)` visits; None where iteration raises. */
  function Elements(j: Json): Option<seq<Json>>
  {
    match j
    case JArr(a) => Some(a)
    case JObj(f) => Some(seq(|f|, i requires 0 <= i < |f| => JStr(f[i].0)))
    case JStr(s) => Some(seq(|s|, i requires 0 <= i < |s| => JStr([s[i]])))
    case _ => None
  }

  /** The id given to the item at position i that has none. */
  function DefaultId(i: nat): string
  {
    "item_" + NatToString(i)
  }

  /** The item at position i after `it["id"] = f"item_{i}"` ran, if it did:
      only a dict without an "id" key is changed. */
  function Labelled(it: Json, i: nat): (r: Json)
    ensures it.JObj? && HasKey(it.fields, "id") ==> r == it
    ensures it.JObj? && !HasKey(it.fields, "id") ==>
      r.JObj? && Get(r.fields, "id") == Some(JStr(DefaultId(i)))
      && forall k :: k != "id" ==> Get(r.fields, k) == Get(it.fields, k)
    ensures !it.JObj? ==> r == it
  {
    if it.JObj? && !HasKey(it.fields, "id") then JObj(SetField(it.fields, "id", JStr(DefaultId(i))))
    else it
  }

  /** The error the loop body raises on the item at position i, if any. On
      a dict the "id" written first does not change whether "value" and
      "weight" are present; the error names the item by its (new) id. */
  function ItemError(it: Json, i: nat): (r: Option<LoadError>)
    ensures it.JObj? ==>
      (r.None? <==> HasKey(it.fields, "value") && HasKey(it.fields, "weight"))
  {
    match it
    case JObj(f) =>
      var id := GetOr(Labelled(it, i).fields, "id", JInt(i));
      if !HasKey(f, "value") then Some(MissingField(id, "value"))
      else if !HasKey(f, "weight") then Some(MissingField(id, "weight"))
      else None
    case _ =>
      // `"id" not in it` raises, or `it["id"] = ...` does, or it.get does
      if Member("id", it) != Some(true) then Some(TypeErr)
      else if Member("value", it) != Some(true) || Member("weight", it) != Some(true) then Some(AttrErr)
      else None
  }

  /** The position of the first item the loop raises on, from position i on;
      |items| when there is none. */
  function FirstBad(items: seq<Json>, i: nat): (k: nat)
    requires i <= |items|
    ensures i <= k <= |items|
    ensures k < |items| ==> ItemError(items[k], k).Some?
    ensures forall j :: i <= j < k ==> ItemError(items[j], j).None?
    decreases |items| - i
  {
    if i == |items| then i
    else if ItemError(items[i], i).Some? then i
    else FirstBad(items, i + 1)
  }

  /** The error the loop stops with, if any. */
  function FirstError(items: seq<Json>): (e: Option<LoadError>)
  {
    var k := FirstBad(items, 0);
    if k < |items| then ItemError(items[k], k) else None
  }

  /** How many items the loop has seen when it stops: all of them, or the
      failing one and those before it. */
  function Visited(items: seq<Json>): (n: nat)
    ensures n <= |items|
    ensures FirstError(items).None? ==> n == |items|
  {
    var k := FirstBad(items, 0);
    if k < |items| then k + 1 else k
  }

  /** `if "id" not in it: it["id"] = f"item_{i}"` on the item at position i. */
  method LabelAt(items: array<Json>, i: nat)
    requires i < items.Length
    modifies items
    ensures items[i] == Labelled(old(items[i]), i)
    ensures forall j :: 0 <= j < items.Length && j != i ==> items[j] == old(items[j])
  {
    var it := items[i];
    if it.JObj? && !HasKey(it.fields, "id") {
      items[i] := JObj(SetField(it.fields, "id", JStr(DefaultId(i))));
    }
  }

  /** An item that passes does not stop the search for the first failure. */
  lemma {:induction false} FirstBadStep(items: seq<Json>, i: nat)
    requires i < |items| && ItemError(items[i], i).None?
    ensures FirstBad(items, i) == FirstBad(items, i + 1)
  {
  }

  /** The normalisation loop of load_instance over the item list: give every
      dict without an "id" the id item_<position>, in place, and stop with the
      error of the first item that lacks "value" or "weight". The ids of the
      items visited before the failure (and of the failing item itself) are
      already written when the error is raised. */
  method NormalizeItems(items: array<Json>) returns (err: Option<LoadError>)
    modifies items
    ensures err == FirstError(old(items[..]))
    ensures forall j :: 0 <= j < Visited(old(items[..])) ==> items[j] == Labelled(old(items[j]), j)
    ensures forall j :: Visited(old(items[..])) <= j < items.Length ==> items[j] == old(items[j])
  {
    ghost var before := items[..];
    var i := 0;
    while i < items.Length
      invariant 0 <= i <= items.Length
      invariant FirstBad(before, 0) == FirstBad(before, i)
      invariant forall j :: 0 <= j < i ==> items[j] == Labelled(before[j], j)
      invariant forall j :: i <= j < items.Length ==> items[j] == before[j]
    {
      var it := items[i];
      assert it == before[i];
      LabelAt(items, i);
      var e := ItemError(it, i);
      if e.Some? {
        assert FirstBad(before, 0) == i;
        return e;
      }
      FirstBadStep(before, i);
      i := i + 1;
    }
    err := None;
  }

  /** load_instance on the parsed JSON: the outcome, or the instance with its
      items labelled and its instance_id set (the stem is that of the file
      name the data came from). */
  function Load(data: Json, stem: string): (r: Result<Json, LoadError>)
    ensures data.JObj? && (!HasKey(data.fields, "items") || !HasKey(data.fields, "capacity"))
      ==> r == Err(MissingRequired)
    ensures r.Ok? ==> data.JObj? && r.value.JObj?
    ensures r.Ok? ==>
      (Get(r.value.fields, "instance_id")
         == Some(if HasKey(data.fields, "instance_id") then Get(data.fields, "instance_id").value else JStr(stem))
       && Get(r.value.fields, "capacity") == Get(data.fields, "capacity"))
  {
    match Member("items", data)
    case None => Err(TypeErr)
    case Some(hasItems) =>
      if !hasItems then Err(MissingRequired)
      else if Member("capacity", data) != Some(true) then Err(MissingRequired)
      else if !data.JObj? then Err(TypeErr)   // data["items"] on a str or list
      else
        var f := data.fields;
        var items := Get(f, "items").value;
        match Elements(items)
        case None => Err(TypeErr)
        case Some(xs) =>
          if FirstError(xs).Some? then Err(FirstError(xs).value)
          else
            var items' := if items.JArr? then JArr(seq(|xs|, j requires 0 <= j < |xs| => Labelled(xs[j], j))) else items;
            var id := GetOr(f, "instance_id", JStr(stem));
            Ok(JObj(SetField(SetField(f, "items", items'), "instance_id", id)))
  }

  /** load_instance, with the item list held in an array that the
      normalisation loop updates in place. */
  method LoadInstance(data: Json, stem: string) returns (r: Result<Json, LoadError>)
    ensures r == Load(data, stem)
  {
    var hasItems := Member("items", data);
    if hasItems.None? {
      return Err(TypeErr);
    }
    if !hasItems.value || Member("capacity", data) != Some(true) {
      return Err(MissingRequired);
    }
    if !data.JObj? {
      return Err(TypeErr);
    }
    var f := data.fields;
    var items := Get(f, "items").value;
    var xs := Elements(items);
    if xs.None? {
      return Err(TypeErr);
    }
    var a := new Json[|xs.value|](j requires 0 <= j < |xs.value| => xs.value[j]);
    assert a[..] == xs.value;
    var e := NormalizeItems(a);
    if e.Some? {
      return Err(e.value);
    }
    var items' := if items.JArr? then JArr(a[..]) else items;
    assert items.JArr? ==> a[..] == seq(|xs.value|, j requires 0 <= j < |xs.value| => Labelled(xs.value[j], j));
    r := Ok(JObj(SetField(SetField(f, "items", items'), "instance_id", GetOr(f, "instance_id", JStr(stem)))));
  }

  /** An item the loop passes over without error is, if a dict, complete. */
  lemma {:induction false} LabelledComplete(it: Json, i: nat)
    requires ItemError(it, i).None? && it.JObj?
    ensures var l := Labelled(it, i);
      l.JObj? && HasKey(l.fields, "id") && HasKey(l.fields, "value") && HasKey(l.fields, "weight")
  {
    var l := Labelled(it, i);
    if !HasKey(it.fields, "id") {
      assert Get(l.fields, "value") == Get(it.fields, "value");
      assert Get(l.fields, "weight") == Get(it.fields, "weight");
    }
  }

  /** The fields Load returns for a dict whose items are a list. */
  lemma {:induction false} LoadedFields(data: Json, stem: string, xs: seq<Json>)
    requires data.JObj? && Get(data.fields, "items") == Some(JArr(xs))
    requires Load(data, stem).Ok?
    ensures FirstError(xs).None?
    ensures var ys := seq(|xs|, j requires 0 <= j < |xs| => Labelled(xs[j], j));
      Load(data, stem).value
        == JObj(SetField(SetField(data.fields, "items", JArr(ys)), "instance_id", GetOr(data.fields, "instance_id", JStr(stem))))
  {
    assert Elements(JArr(xs)) == Some(xs);
  }

  /** The loaded instance holds the labelled item list, and every item of it
      that is a dict has an id, a value and a weight. */
  lemma {:induction false} LoadedItemsComplete(data: Json, stem: string, xs: seq<Json>)
    requires data.JObj? && Get(data.fields, "items") == Some(JArr(xs))
    requires Load(data, stem).Ok?
    ensures var ys := seq(|xs|, j requires 0 <= j < |xs| => Labelled(xs[j], j));
      Get(Load(data, stem).value.fields, "items") == Some(JArr(ys))
      && forall it :: it in ys && it.JObj? ==>
           HasKey(it.fields, "id") && HasKey(it.fields, "value") && HasKey(it.fields, "weight")
  {
    var ys := seq(|xs|, j requires 0 <= j < |xs| => Labelled(xs[j], j));
    LoadedFields(data, stem, xs);
    assert Get(SetField(data.fields, "items", JArr(ys)), "items") == Some(JArr(ys));
    LabelledItemsComplete(xs);
  }

  /** When the loop runs through, every labelled item that is a dict is complete. */
  lemma {:induction false} LabelledItemsComplete(xs: seq<Json>)
    requires FirstError(xs).None?
    ensures var ys := seq(|xs|, j requires 0 <= j < |xs| => Labelled(xs[j], j));
      forall it :: it in ys && it.JObj? ==>
        HasKey(it.fields, "id") && HasKey(it.fields, "value") && HasKey(it.fields, "weight")
  {
    var ys := seq(|xs|, j requires 0 <= j < |xs| => Labelled(xs[j], j));
    assert FirstBad(xs, 0) == |xs|;
    forall it | it in ys && it.JObj?
      ensures HasKey(it.fields, "id") && HasKey(it.fields, "value") && HasKey(it.fields, "weight")
    {
      var j :| 0 <= j < |ys| && ys[j] == it;
      assert ItemError(xs[j], j).None?;
      LabelledComplete(xs[j], j);
    }
  }

  // ---------------------------------------------------------------------
  // Post-processing of the solver's answer (solve_knapsack_pulp)
  // ---------------------------------------------------------------------

  /** PuLP's solution statuses. */
  datatype LpStatus = NotSolved | Optimal | Infeasible | Unbounded | Undefined

  /** pulp.LpStatus[status]. */
  function StatusName(s: LpStatus): string
  {
    match s
    case NotSolved => "Not Solved"
    case Optimal => "Optimal"
    case Infeasible => "Infeasible"
    case Unbounded => "Unbounded"
    case Undefined => "Undefined"
  }

  /** An item as the model builder reads it: its id and its weight. */
  datatype Item = Item(id: Json, weight: real)

  /** The solver's answer: a status, the objective value and the value of the
      variable of each key of x, in the order of x's keys. */
  datatype Answer = Answer(status: LpStatus, objective: real, values: seq<real>)

  /** The dictionary solve_knapsack_pulp returns. */
  datatype Report = Report(
    status: string,
    objective: Option<real>,
    runtime: real,
    selected: seq<Json>,
    selectedCount: nat,
    totalWeight: real)

  function Ids(items: seq<Item>): (ids: seq<Json>)
    ensures |ids| == |items|
    ensures forall k :: 0 <= k < |items| ==> ids[k] == items[k].id
  {
    seq(|items|, k requires 0 <= k < |items| => items[k].id)
  }

  predicate Distinct(xs: seq<Json>)
  {
    forall p, q :: 0 <= p < q < |xs| ==> xs[p] != xs[q]
  }

  /** The keys of {it["id"]: ... for it in items}: the distinct ids in the
      order of their first occurrence. */
  function Keys(ids: seq<Json>): (ks: seq<Json>)
    ensures Distinct(ks)
    ensures forall y :: y in ks <==> y in ids
  {
    if ids == [] then []
    else
      var p := Keys(ids[..|ids| - 1]);
      var last := ids[|ids| - 1];
      assert ids == ids[..|ids| - 1] + [last];
      if last in p then p else p + [last]
  }

  /** Without repeated ids every item has a variable of its own, in item order. */
  lemma {:induction false} KeysOfDistinct(ids: seq<Json>)
    requires Distinct(ids)
    ensures Keys(ids) == ids
  {
    if ids != [] {
      var init := ids[..|ids| - 1];
      KeysOfDistinct(init);
      assert ids[|ids| - 1] !in init;
      assert ids == init + [ids[|ids| - 1]];
    }
  }

  /** The positions whose variable the solver set above 0.5, ascending. */
  function Picked(values: seq<real>): (idx: seq<nat>)
    ensures forall p :: 0 <= p < |idx| ==> idx[p] < |values| && values[idx[p]] > 0.5
    ensures forall p, q :: 0 <= p < q < |idx| ==> idx[p] < idx[q]
    ensures forall k :: 0 <= k < |values| && values[k] > 0.5 ==> k in idx
  {
    if values == [] then []
    else
      var n := |values| - 1;
      Picked(values[..n]) + (if values[n] > 0.5 then [n] else [])
  }

  /** [i for i in x if value(x[i]) > 0.5]: the keys at the picked positions,
      in the order of the keys. */
  function Chosen(ks: seq<Json>, values: seq<real>): (r: seq<Json>)
    requires |values| == |ks|
    ensures forall y :: y in r ==> y in ks
    ensures |r| <= |ks|
  {
    if ks == [] then []
    else
      var n := |ks| - 1;
      Chosen(ks[..n], values[..n]) + (if values[n] > 0.5 then [ks[n]] else [])
  }

  /** The chosen keys are the keys at the picked positions, in key order. */
  lemma {:induction false} ChosenAt(ks: seq<Json>, values: seq<real>)
    requires |values| == |ks|
    ensures |Chosen(ks, values)| == |Picked(values)|
    ensures forall p :: 0 <= p < |Picked(values)| ==> Chosen(ks, values)[p] == ks[Picked(values)[p]]
  {
    if ks != [] {
      var n := |ks| - 1;
      ChosenAt(ks[..n], values[..n]);
      var r0, i0 := Chosen(ks[..n], values[..n]), Picked(values[..n]);
      assert values[..n] == values[..|values| - 1];
      var r, idx := Chosen(ks, values), Picked(values);
      assert r == r0 + (if values[n] > 0.5 then [ks[n]] else []);
      assert idx == i0 + (if values[n] > 0.5 then [n] else []);
      forall p | 0 <= p < |idx|
        ensures r[p] == ks[idx[p]]
      {
        if p < |i0| {
          assert r[p] == r0[p] == ks[..n][i0[p]];
        }
      }
    }
  }

  /** A key is chosen when its value exceeds 0.5, and only then. */
  lemma ChosenPicked(ks: seq<Json>, values: seq<real>)
    requires |values| == |ks|
    ensures forall k :: 0 <= k < |ks| && values[k] > 0.5 ==> ks[k] in Chosen(ks, values)
    ensures forall y :: y in Chosen(ks, values) ==> exists k :: 0 <= k < |ks| && ks[k] == y && values[k] > 0.5
  {
    ChosenAt(ks, values);
    var r, idx := Chosen(ks, values), Picked(values);
    forall k | 0 <= k < |ks| && values[k] > 0.5
      ensures ks[k] in r
    {
      var p :| 0 <= p < |idx| && idx[p] == k;
      assert r[p] == ks[k];
    }
    forall y | y in r
      ensures exists k :: 0 <= k < |ks| && ks[k] == y && values[k] > 0.5
    {
      var p :| 0 <= p < |r| && r[p] == y;
      assert ks[idx[p]] == y && values[idx[p]] > 0.5;
    }
  }

  /** next(it["weight"] for it in items if it["id"] == id): the weight of the first item with that id. */
  function FirstWeight(items: seq<Item>, id: Json): real
    requires id in Ids(items)
  {
    if items[0].id == id then items[0].weight
    else
      assert Ids(items) == [items[0].id] + Ids(items[1..]);
      FirstWeight(items[1..], id)
  }

  /** sum(next(...) for i in chosen), adding from the left. */
  function ChosenWeight(items: seq<Item>, chosen: seq<Json>): real
    requires forall y :: y in chosen ==> y in Ids(items)
  {
    if chosen == [] then 0.0
    else ChosenWeight(items, chosen[..|chosen| - 1]) + FirstWeight(items, chosen[|chosen| - 1])
  }

  /** The post-processing of solve_knapsack_pulp (lines 37-56); the runtime
      is the measured time, whose rounding is not modelled. */
  function PostProcess(items: seq<Item>, answer: Answer, runtime: real): (rep: Report)
    requires |answer.values| == |Keys(Ids(items))|
    ensures rep.status == StatusName(answer.status)
    ensures rep.runtime == runtime
    ensures rep.objective.Some? <==> answer.status == Optimal
    ensures answer.status == Optimal ==>
      rep.objective == Some(answer.objective) && rep.selected == Chosen(Keys(Ids(items)), answer.values)
    ensures answer.status != Optimal ==> rep.selected == [] && rep.totalWeight == 0.0
    ensures rep.selectedCount == |rep.selected|
    ensures forall y :: y in rep.selected ==> y in Ids(items)
  {
    var ks := Keys(Ids(items));
    var obj := if answer.status == Optimal then Some(answer.objective) else None;
    var chosen := if answer.status == Optimal then Chosen(ks, answer.values) else [];
    var total := if chosen != [] then ChosenWeight(items, chosen) else 0.0;
    Report(StatusName(answer.status), obj, runtime, chosen, |chosen|, total)
  }

  /** The weight of the items whose variable the solver set, item by item. */
  function SelectedWeight(items: seq<Item>, values: seq<real>): real
    requires |values| == |items|
  {
    if items == [] then 0.0
    else
      var n := |items| - 1;
      SelectedWeight(items[..n], values[..n]) + (if values[n] > 0.5 then items[n].weight else 0.0)
  }

  /** Extending the item list at the end does not change the first match. */
  lemma {:induction false} FirstWeightExtend(items: seq<Item>, x: Item, id: Json)
    requires id in Ids(items)
    ensures id in Ids(items + [x])
    ensures FirstWeight(items + [x], id) == FirstWeight(items, id)
  {
    assert Ids(items + [x]) == Ids(items) + [x.id];
    if items[0].id != id {
      assert (items + [x])[1..] == items[1..] + [x];
      assert Ids(items) == [items[0].id] + Ids(items[1..]);
      FirstWeightExtend(items[1..], x, id);
    }
  }

  lemma {:induction false} ChosenWeightExtend(items: seq<Item>, x: Item, chosen: seq<Json>)
    requires forall y :: y in chosen ==> y in Ids(items)
    ensures forall y :: y in chosen ==> y in Ids(items + [x])
    ensures ChosenWeight(items + [x], chosen) == ChosenWeight(items, chosen)
  {
    assert Ids(items + [x]) == Ids(items) + [x.id];
    if chosen != [] {
      var n := |chosen| - 1;
      assert forall y :: y in chosen[..n] ==> y in chosen;
      ChosenWeightExtend(items, x, chosen[..n]);
      FirstWeightExtend(items, x, chosen[n]);
    }
  }

  lemma {:induction false} FirstWeightOfLast(items: seq<Item>, x: Item)
    requires x.id !in Ids(items)
    ensures x.id in Ids(items + [x])
    ensures FirstWeight(items + [x], x.id) == x.weight
    decreases |items|
  {
    assert Ids(items + [x]) == Ids(items) + [x.id];
    if items != [] {
      assert (items + [x])[1..] == items[1..] + [x];
      assert Ids(items) == [items[0].id] + Ids(items[1..]);
      FirstWeightOfLast(items[1..], x);
    }
  }

  lemma {:induction false} ChosenSnoc(ks: seq<Json>, values: seq<real>)
    requires |values| == |ks| && ks != []
    ensures var n := |ks| - 1;
      Chosen(ks, values) == Chosen(ks[..n], values[..n]) + (if values[n] > 0.5 then [ks[n]] else [])
  {
  }

  lemma {:induction false} ChosenWeightSnoc(items: seq<Item>, c: seq<Json>, y: Json)
    requires forall z :: z in c ==> z in Ids(items)
    requires y in Ids(items)
    ensures forall z :: z in c + [y] ==> z in Ids(items)
    ensures ChosenWeight(items, c + [y]) == ChosenWeight(items, c) + FirstWeight(items, y)
  {
    assert (c + [y])[..|c|] == c;
  }

  /** With distinct ids the reported total_weight is the weight of exactly the
      items the solver selected. */
  lemma {:induction false} TotalWeightOfDistinct(items: seq<Item>, values: seq<real>)
    requires Distinct(Ids(items)) && |values| == |items|
    ensures Keys(Ids(items)) == Ids(items)
    ensures ChosenWeight(items, Chosen(Ids(items), values)) == SelectedWeight(items, values)
  {
    KeysOfDistinct(Ids(items));
    if items != [] {
      var n := |items| - 1;
      var init := items[..n];
      assert Ids(items)[..n] == Ids(init);
      assert Distinct(Ids(init));
      TotalWeightOfDistinct(init, values[..n]);
      assert items == init + [items[n]];
      DistinctStep(init, items[n], values);
    }
  }

  /** The step of the induction above: the last item adds its weight to both
      sides exactly when the solver selected it. */
  lemma {:induction false} DistinctStep(init: seq<Item>, x: Item, values: seq<real>)
    requires Distinct(Ids(init + [x])) && |values| == |init| + 1
    requires ChosenWeight(init, Chosen(Ids(init), values[..|init|])) == SelectedWeight(init, values[..|init|])
    ensures ChosenWeight(init + [x], Chosen(Ids(init + [x]), values)) == SelectedWeight(init + [x], values)
  {
    var n, items := |init|, init + [x];
    var ids := Ids(items);
    assert items[..n] == init;
    assert ids == Ids(init) + [x.id];
    assert ids[..n] == Ids(init);
    var c := Chosen(Ids(init), values[..n]);
    ChosenSnoc(ids, values);
    assert SelectedWeight(items, values)
      == SelectedWeight(init, values[..n]) + (if values[n] > 0.5 then x.weight else 0.0);
    ChosenWeightExtend(init, x, c);
    if values[n] > 0.5 {
      forall p | 0 <= p < n
        ensures Ids(init)[p] != x.id
      {
        assert ids[p] != ids[n];
      }
      FirstWeightOfLast(init, x);
      assert Chosen(ids, values) == c + [x.id];
      ChosenWeightSnoc(items, c, x.id);
    } else {
      assert Chosen(ids, values) == c;
    }
  }

  /** An optimal answer over items with distinct ids reports as total_weight
      the weight of the selected items. */
  lemma {:induction false} ReportedWeight(items: seq<Item>, answer: Answer, runtime: real)
    requires Distinct(Ids(items)) && |answer.values| == |items| && answer.status == Optimal
    ensures |answer.values| == |Keys(Ids(items))|
    ensures PostProcess(items, answer, runtime).totalWeight == SelectedWeight(items, answer.values)
  {
    TotalWeightOfDistinct(items, answer.values);
    var c := Chosen(Ids(items), answer.values);
    if c == [] {
      assert ChosenWeight(items, c) == 0.0;
    }
  }

  /** Two items sharing an id share one variable, but total_weight counts
      the weight of the first one only. */
  lemma {:induction false} DuplicateIdCountsOnce(a: Item, b: Item, runtime: real)
    requires a.id == b.id && b.weight != 0.0
    ensures Keys(Ids([a, b])) == [a.id]
    ensures PostProcess([a, b], Answer(Optimal, 0.0, [1.0]), runtime).totalWeight == a.weight
    ensures SelectedWeight([a, b], [1.0, 1.0]) == a.weight + b.weight != a.weight
  {
    var items, one := [a, b], [a.id];
    assert Ids(items) == [a.id, a.id];
    assert Ids(items)[..1] == one && one[..0] == [];
    assert Keys(one) == one;
    assert Keys(Ids(items)) == one;
    ChosenSnoc(one, [1.0]);
    assert [1.0][..0] == [];
    assert Chosen(one, [1.0]) == one;
    ChosenWeightSnoc(items, [], a.id);
    assert [] + [a.id] == one;
    assert ChosenWeight(items, one) == FirstWeight(items, a.id) == a.weight;
    assert items[..1] == [a] && [a][..0] == [];
    assert [1.0, 1.0][..1] == [1.0] && [1.0][..0] == [];
    assert SelectedWeight([a], [1.0]) == a.weight;
  }

  // ---------------------------------------------------------------------
  // The result file name (lines 78-79)
  // ---------------------------------------------------------------------

  /** strftime("%Y%m%dT%H%M%SZ") for a four-digit year. */
  predicate IsStamp(ts: string)
  {
    |ts| == 16 && AllDigits(ts[..8]) && ts[8] == 'T' && AllDigits(ts[9..15]) && ts[15] == 'Z'
  }

  /** f"{ts}_{instance_id}_{tag}.json". */
  function OutputName(ts: string, id: string, tag: string): string
  {
    ts + "_" + id + "_" + tag + ".json"
  }

  /** The result file name is a stamp, the id, a tag and an extension. */
  lemma {:induction false} OutputNameParts(ts: string, id: string, tag: string)
    requires IsStamp(ts)
    ensures SolverVsBaseline.HasTimestampPrefix(ts + "_") && |ts + "_"| == 17
    ensures OutputName(ts, id, tag) == (ts + "_") + id + ("_" + tag) + "." + "json"
  {
    var stamp := ts + "_";
    assert stamp[..8] == ts[..8] && stamp[9..15] == ts[9..15];
    var ext := "." + "json";
    assert ext == ".json";
    calc {
      OutputName(ts, id, tag);
      ts + "_" + id + "_" + tag + ext;
      stamp + id + ("_" + tag) + ext;
      stamp + id + ("_" + tag) + "." + "json";
    }
  }

  /** The name of a result file written with the tag pulp, solver or
      baseline (in any case) canonicalises back to the instance id. */
  lemma {:induction false} OutputNameRoundTrip(ts: string, id: string, tag: string)
    requires IsStamp(ts) && '/' !in id
    requires SolverVsBaseline.IsTag("_" + tag) && '/' !in tag && '.' !in tag
    ensures SolverVsBaseline.NormInstanceFromName(OutputName(ts, id, tag)) == id
  {
    OutputNameParts(ts, id, tag);
    assert '/' !in "_" + tag && '.' !in "_" + tag;
    SolverVsBaseline.NormStampedName(ts + "_", id, "_" + tag, "json");
  }
}
