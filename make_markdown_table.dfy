/** The comparison table of src/make_markdown_table.py: our own result
    payloads, the optional baseline file in any of its shapes, and the
    Markdown lines built from both. */
module MarkdownTable {
  import opened Common
  import opened JsonValue

  // ---------------------------------------------------------------------
  // Own results

  /** One of our own results as load_our_results records it. */
  datatype OurRow = OurRow(
    instanceId: Json,
    solver: Json,
    objective: Json,
    runtime: Json,
    status: Json,
    selected: Json,
    totalWeight: Json,
    source: string)

  /** The mapping of one payload: each field present in the payload (or in
      its `metrics`) is carried over, each missing one takes its default;
      None where payload.get or m.get raises (the file is then skipped with
      a warning). */
  function PayloadRow(payload: Json, source: string): (r: Option<OurRow>)
    ensures r.Some? <==> payload.JObj? && GetOr(payload.fields, "metrics", JObj([])).JObj?
    ensures r.Some? ==>
      var p := payload.fields;
      var m := GetOr(p, "metrics", JObj([])).fields;
      (!HasKey(p, "instance_id") ==> r.value.instanceId == JStr("unknown"))
      && (!HasKey(p, "solver") ==> r.value.solver == JStr("unknown"))
      && (!HasKey(m, "status") ==> r.value.status == JStr("unknown"))
      && (!HasKey(m, "objective_value") ==> r.value.objective == JNull)
      && (!HasKey(m, "runtime_seconds") ==> r.value.runtime == JNull)
      && (!HasKey(m, "selected_count") ==> r.value.selected == JNull)
      && (!HasKey(m, "total_weight") ==> r.value.totalWeight == JNull)
      && r.value.source == source
    ensures r.Some? ==>
      var p := payload.fields;
      var m := GetOr(p, "metrics", JObj([])).fields;
      (HasKey(p, "instance_id") ==> r.value.instanceId == Get(p, "instance_id").value)
      && (HasKey(p, "solver") ==> r.value.solver == Get(p, "solver").value)
      && (HasKey(m, "status") ==> r.value.status == Get(m, "status").value)
      && (HasKey(m, "objective_value") ==> r.value.objective == Get(m, "objective_value").value)
      && (HasKey(m, "runtime_seconds") ==> r.value.runtime == Get(m, "runtime_seconds").value)
      && (HasKey(m, "selected_count") ==> r.value.selected == Get(m, "selected_count").value)
      && (HasKey(m, "total_weight") ==> r.value.totalWeight == Get(m, "total_weight").value)
  {
    match payload
    case JObj(p) =>
      (match GetOr(p, "metrics", JObj([]))
       case JObj(m) =>
         Some(OurRow(
           GetOr(p, "instance_id", JStr("unknown")),
           GetOr(p, "solver", JStr("unknown")),
           GetOr(m, "objective_value", JNull),
           GetOr(m, "runtime_seconds", JNull),
           GetOr(m, "status", JStr("unknown")),
           GetOr(m, "selected_count", JNull),
           GetOr(m, "total_weight", JNull),
           source))
       case _ => None)
    case _ => None
  }

  // ---------------------------------------------------------------------
  // Baseline

  datatype BaselineEntry = BaselineEntry(objective: Json, runtime: Json)

  /** normalize_baseline_entry: the two figures from a nested `metrics`
      dict when there is one, else from the top level; missing ones are None. */
  function NormalizeBaselineEntry(entry: Fields): BaselineEntry
  {
    match Get(entry, "metrics")
    case Some(JObj(m)) =>
      BaselineEntry(GetOr(m, "objective_value", JNull), GetOr(m, "runtime_seconds", JNull))
    case _ =>
      BaselineEntry(GetOr(entry, "objective_value", JNull), GetOr(entry, "runtime_seconds", JNull))
  }

  /** A flat entry and the same figures nested under `metrics` read alike. */
  lemma {:induction false} NestedAndFlatAgree(obj: Json, rt: Json, other: Fields)
    requires !HasKey(other, "metrics")
    ensures NormalizeBaselineEntry([("metrics", JObj([("objective_value", obj), ("runtime_seconds", rt)]))] + other)
         == NormalizeBaselineEntry([("objective_value", obj), ("runtime_seconds", rt)])
  {
    var flat: Fields := [("objective_value", obj), ("runtime_seconds", rt)];
    GetFirst(flat, "objective_value", 0);
    GetFirst(flat, "runtime_seconds", 1);
    assert !HasKey(flat, "metrics");
  }

  /** Why load_baseline raises past its own try block. */
  datatype BaselineCrash =
    | EntryNotObject(index: nat)  // rec.get on a list element that is not a dict
    | UnhashableId                // a list or dict used as a dict key

  type BaselineMap = map<Json, BaselineEntry>

  /** A truthy instance_id, usable as a key. */
  function EntryId(entry: Fields): Result<Option<Json>, BaselineCrash>
  {
    var iid := GetOr(entry, "instance_id", JNull);
    if !Truthy(iid) then Ok(None)
    else if iid.JArr? || iid.JObj? then Err(UnhashableId)
    else Ok(Some(iid))
  }

  predicate AllObjects(f: Fields)
  {
    forall i :: 0 <= i < |f| ==> f[i].1.JObj?
  }

  /** A dict keyed by instance id: one entry per key, in order. */
  function Keyed(f: Fields): BaselineMap
    requires AllObjects(f)
  {
    if f == [] then map[]
    else
      var n := |f| - 1;
      Keyed(f[..n])[JStr(f[n].0) := NormalizeBaselineEntry(f[n].1.fields)]
  }

  /** A list of entries: those with a truthy instance_id, a later one
      overwriting an earlier one with the same id. */
  function Listed(recs: seq<Json>): Result<BaselineMap, BaselineCrash>
  {
    if recs == [] then Ok(map[])
    else
      var n := |recs| - 1;
      match Listed(recs[..n])
      case Err(e) => Err(e)
      case Ok(m) =>
        if !recs[n].JObj? then Err(EntryNotObject(n))
        else match EntryId(recs[n].fields)
          case Err(e) => Err(e)
          case Ok(None) => Ok(m)
          case Ok(Some(iid)) => Ok(m[iid := NormalizeBaselineEntry(recs[n].fields)])
  }

  /** The shape dispatch of load_baseline on the parsed file. */
  function Baseline(data: Json): Result<BaselineMap, BaselineCrash>
  {
    match data
    case JObj(f) =>
      if AllObjects(f) then Ok(Keyed(f))
      else
        (match EntryId(f)
         case Err(e) => Err(e)
         case Ok(None) => Ok(map[])
         case Ok(Some(iid)) => Ok(map[iid := NormalizeBaselineEntry(f)]))
    case JArr(recs) => Listed(recs)
    case _ => Ok(map[])
  }

  /** load_baseline after the file is read: fill the map entry by entry. */
  method LoadBaseline(data: Json) returns (r: Result<BaselineMap, BaselineCrash>)
    ensures r == Baseline(data)
  {
    r := Ok(map[]);
    if data.JObj? {
      var f := data.fields;
      if AllObjects(f) {
        var baseline := LoadKeyed(f);
        r := Ok(baseline);
      } else {
        var iid := EntryId(f);
        if iid.Err? {
          return Err(iid.error);
        }
        if iid.value.Some? {
          r := Ok(map[iid.value.value := NormalizeBaselineEntry(f)]);
        }
      }
    } else if data.JArr? {
      r := LoadListed(data.elems);
    }
  }

  /** A dict of entries, one map update per key. */
  method LoadKeyed(f: Fields) returns (baseline: BaselineMap)
    requires AllObjects(f)
    ensures baseline == Keyed(f)
  {
    baseline := map[];
    for k := 0 to |f|
      invariant baseline == Keyed(f[..k])
    {
      assert f[..k + 1][..k] == f[..k];
      baseline := baseline[JStr(f[k].0) := NormalizeBaselineEntry(f[k].1.fields)];
    }
    assert f[..|f|] == f;
  }

  /** A list of entries, stopping at the first one that crashes. */
  method LoadListed(recs: seq<Json>) returns (r: Result<BaselineMap, BaselineCrash>)
    ensures r == Listed(recs)
  {
    var baseline: BaselineMap := map[];
    for k := 0 to |recs|
      invariant Listed(recs[..k]) == Ok(baseline)
    {
      assert recs[..k + 1][..k] == recs[..k];
      var rec := recs[k];
      if !rec.JObj? {
        ListedCrashStops(recs, k + 1);
        return Err(EntryNotObject(k));
      }
      var iid := EntryId(rec.fields);
      if iid.Err? {
        ListedCrashStops(recs, k + 1);
        return Err(iid.error);
      }
      if iid.value.Some? {
        baseline := baseline[iid.value.value := NormalizeBaselineEntry(rec.fields)];
      }
    }
    assert recs[..|recs|] == recs;
    r := Ok(baseline);
  }

  /** A crash ends the scan of the list. */
  lemma {:induction false} ListedCrashStops(recs: seq<Json>, k: nat)
    requires k <= |recs| && Listed(recs[..k]).Err?
    ensures Listed(recs) == Listed(recs[..k])
    decreases |recs|
  {
    if k == |recs| {
      assert recs[..k] == recs;
    } else {
      var prefix := recs[..|recs| - 1];
      assert prefix[..k] == recs[..k];
      ListedCrashStops(prefix, k);
    }
  }

  /** Keyed by instance id: the keys of the map are exactly the keys of the file. */
  lemma {:induction false} KeyedKeys(f: Fields)
    requires AllObjects(f)
    ensures forall key :: key in Keyed(f) <==> exists i :: 0 <= i < |f| && key == JStr(f[i].0)
  {
    if f != [] {
      var n := |f| - 1;
      var prefix := f[..n];
      KeyedKeys(prefix);
      forall key ensures key in Keyed(f) <==> exists i :: 0 <= i < |f| && key == JStr(f[i].0) {
        if key in Keyed(prefix) {
          var i :| 0 <= i < n && key == JStr(prefix[i].0);
          assert key == JStr(f[i].0);
        }
        if exists i :: 0 <= i < |f| && key == JStr(f[i].0) {
          var i :| 0 <= i < |f| && key == JStr(f[i].0);
          if i < n { assert key == JStr(prefix[i].0); }
        }
      }
    }
  }

  /** Keyed by instance id: the last field with a key decides its entry. */
  lemma {:induction false} KeyedLastWins(f: Fields, i: nat)
    requires AllObjects(f) && i < |f|
    requires forall j :: i < j < |f| ==> f[j].0 != f[i].0
    ensures JStr(f[i].0) in Keyed(f)
    ensures Keyed(f)[JStr(f[i].0)] == NormalizeBaselineEntry(f[i].1.fields)
  {
    var n := |f| - 1;
    if i < n {
      var prefix := f[..n];
      assert prefix[i] == f[i];
      forall j | i < j < n ensures prefix[j].0 != prefix[i].0 {
        assert prefix[j] == f[j];
      }
      KeyedLastWins(prefix, i);
    }
  }

  /** A list of entries: each key is the truthy id of some entry. */
  lemma {:induction false} ListedKeys(recs: seq<Json>)
    requires Listed(recs).Ok?
    ensures forall i :: 0 <= i < |recs| ==> recs[i].JObj?
    ensures forall key :: key in Listed(recs).value ==>
              exists i :: 0 <= i < |recs| && EntryId(recs[i].fields) == Ok(Some(key))
  {
    if recs != [] {
      var n := |recs| - 1;
      var prefix := recs[..n];
      ListedKeys(prefix);
      forall i | 0 <= i < n ensures recs[i].JObj? {
        assert prefix[i] == recs[i];
      }
      forall key | key in Listed(recs).value
        ensures exists i :: 0 <= i < |recs| && EntryId(recs[i].fields) == Ok(Some(key))
      {
        if key in Listed(prefix).value {
          var i :| 0 <= i < n && EntryId(prefix[i].fields) == Ok(Some(key));
          assert prefix[i] == recs[i];
        }
      }
    }
  }

  /** A list of entries: the last entry with an id decides its figures. */
  lemma {:induction false} ListedLastWins(recs: seq<Json>, i: nat)
    requires Listed(recs).Ok? && i < |recs| && recs[i].JObj?
    requires EntryId(recs[i].fields).Ok? && EntryId(recs[i].fields).value.Some?
    requires forall j :: i < j < |recs| && recs[j].JObj? ==> EntryId(recs[j].fields) != EntryId(recs[i].fields)
    ensures EntryId(recs[i].fields).value.value in Listed(recs).value
    ensures Listed(recs).value[EntryId(recs[i].fields).value.value] == NormalizeBaselineEntry(recs[i].fields)
  {
    var n := |recs| - 1;
    var prefix := recs[..n];
    ListedLast(recs);
    if i < n {
      assert prefix[i] == recs[i];
      forall j | i < j < n && prefix[j].JObj? ensures EntryId(prefix[j].fields) != EntryId(prefix[i].fields) {
        assert prefix[j] == recs[j];
      }
      ListedLastWins(prefix, i);
    }
  }

  /** The map of a list is that of the list without its last entry,
      updated under the last entry's id when it has one. */
  lemma {:induction false} ListedLast(recs: seq<Json>)
    requires recs != [] && Listed(recs).Ok?
    ensures var n := |recs| - 1; var m := Listed(recs[..n]);
      m.Ok? && recs[n].JObj? && EntryId(recs[n].fields).Ok?
      && (EntryId(recs[n].fields).value.None? ==> Listed(recs).value == m.value)
      && (EntryId(recs[n].fields).value.Some? ==>
            Listed(recs).value == m.value[EntryId(recs[n].fields).value.value := NormalizeBaselineEntry(recs[n].fields)])
  {
  }

  /** A single entry is kept only under a truthy id; anything that is
      neither a dict nor a list gives an empty map. */
  lemma {:induction false} SingleOrUnsupported(data: Json)
    ensures data.JObj? && !AllObjects(data.fields) && EntryId(data.fields) == Ok(None) ==> Baseline(data) == Ok(map[])
    ensures data.JObj? && !AllObjects(data.fields) && EntryId(data.fields).Ok? && EntryId(data.fields).value.Some? ==>
              Baseline(data) == Ok(map[EntryId(data.fields).value.value := NormalizeBaselineEntry(data.fields)])
    ensures !data.JObj? && !data.JArr? ==> Baseline(data) == Ok(map[])
  {
  }

  // ---------------------------------------------------------------------
  // Cells and lines

  /** A table cell before float formatting: Fixed3 prints with three
      decimals, Delta3 with three decimals after `sign`. */
  datatype Cell =
    | Text(s: string)
    | Dash
    | Fixed3(x: real)
    | Show(j: Json)
    | Delta3(sign: string, d: real)

  /** fmt: `-` for None, three decimals when float() accepts the value, else str(). */
  function Fmt(x: Json): (c: Cell)
    ensures x.JNull? ==> c == Dash
    ensures !x.JNull? && PyFloat(x).Some? ==> c == Fixed3(PyFloat(x).value)
    ensures !x.JNull? && PyFloat(x).None? ==> c == Show(x)
  {
    if x.JNull? then Dash
    else match PyFloat(x)
      case Some(v) => Fixed3(v)
      case None => Show(x)
  }

  /** fmt_delta: our - base with a `+` for a non-negative difference; `-`
      when either side is None or not a number. */
  function FmtDelta(our: Json, base: Json): (c: Cell)
    ensures c.Delta3? <==> !our.JNull? && !base.JNull? && PyFloat(our).Some? && PyFloat(base).Some?
    ensures c.Delta3? ==>
      c.d == PyFloat(our).value - PyFloat(base).value && (c.sign == "+" <==> c.d >= 0.0) && (c.sign == "" <==> c.d < 0.0)
    ensures !c.Delta3? ==> c == Dash
  {
    if our.JNull? || base.JNull? then Dash
    else match (PyFloat(our), PyFloat(base))
      case (Some(o), Some(b)) =>
        var d := o - b;
        Delta3(if d >= 0.0 then "+" else "", d)
      case _ => Dash
  }

  datatype Line = Plain(s: string) | Cells(cells: seq<Cell>)

  const Headers: seq<string> := ["Instance", "Solver", "Objective", "Runtime (s)", "Status",
                                 "Selected", "TotalWeight", "ΔObj vs Base", "ΔTime vs Base", "Source"]

  function TextCells(ss: seq<string>): (cs: seq<Cell>)
    ensures |cs| == |ss| && forall i :: 0 <= i < |ss| ==> cs[i] == Text(ss[i])
  {
    seq(|ss|, i requires 0 <= i < |ss| => Text(ss[i]))
  }

  /** str(x) if x is not None else "-". */
  function ShowOrDash(x: Json): Cell
  {
    if x.JNull? then Dash else Show(x)
  }

  /** The cells of one row; the instance id and the solver must be text,
      since " | ".join needs strings. */
  function RowCells(r: OurRow, baseline: BaselineMap): (cs: seq<Cell>)
    requires r.instanceId.JStr? && r.solver.JStr?
    ensures |cs| == |Headers|
    ensures cs[0] == Text(r.instanceId.s) && cs[9] == Text(r.source)
    ensures r.instanceId !in baseline ==> cs[7] == Dash && cs[8] == Dash
  {
    var base := if r.instanceId in baseline then baseline[r.instanceId] else BaselineEntry(JNull, JNull);
    [Text(r.instanceId.s), Text(r.solver.s), Fmt(r.objective), Fmt(r.runtime),
     Show(r.status), ShowOrDash(r.selected), ShowOrDash(r.totalWeight),
     FmtDelta(r.objective, base.objective), FmtDelta(r.runtime, base.runtime),
     Text(r.source)]
  }

  /** The row at this index cannot be joined (or looked up): its id or its solver is not text. */
  datatype MarkdownCrash = NotText(row: nat)

  /** The first row whose id or solver is not text. */
  function FirstBadRow(ours: seq<OurRow>, i: nat): (r: Option<nat>)
    requires i <= |ours|
    ensures r.None? <==> forall k :: i <= k < |ours| ==> ours[k].instanceId.JStr? && ours[k].solver.JStr?
    ensures r.Some? ==> i <= r.value < |ours| && !(ours[r.value].instanceId.JStr? && ours[r.value].solver.JStr?)
                        && forall k :: i <= k < r.value ==> ours[k].instanceId.JStr? && ours[k].solver.JStr?
    decreases |ours| - i
  {
    if i == |ours| then None
    else if !(ours[i].instanceId.JStr? && ours[i].solver.JStr?) then Some(i)
    else FirstBadRow(ours, i + 1)
  }

  /** The seven lines before the rows; `ts` is the clock reading. */
  function Preamble(ts: string, baselineFound: bool): (ls: seq<Line>)
    ensures |ls| == 7
    ensures ls[5] == Cells(TextCells(Headers)) && ls[6] == Cells(TextCells(seq(10, _ => "---")))
  {
    [Plain("# Solver vs baseline"),
     Plain(""),
     Plain("- **Generated:** " + ts + " UTC"),
     Plain(if baselineFound then "- **Baseline:** misc/baseline_results.json"
           else "- **Baseline:** None detected (deltas shown as '-')"),
     Plain(""),
     Cells(TextCells(Headers)),
     Cells(TextCells(seq(10, _ => "---")))]
  }

  /** build_markdown: the preamble, the header and separator, then one row
      per own result in input order. */
  method BuildMarkdown(ours: seq<OurRow>, baseline: BaselineMap, ts: string)
    returns (r: Result<seq<Line>, MarkdownCrash>)
    ensures r.Err? <==> FirstBadRow(ours, 0).Some?
    ensures r.Err? ==> r.error == NotText(FirstBadRow(ours, 0).value)
    ensures r.Ok? ==>
      var ls := r.value;
      |ls| == 7 + |ours|
      && ls[..7] == Preamble(ts, baseline != map[])
      && forall k :: 0 <= k < |ours| ==> ls[7 + k] == Cells(RowCells(ours[k], baseline))
  {
    var pre := Preamble(ts, baseline != map[]);
    var row := o => RowLine(o, baseline);
    r := AppendRows(pre, ours, row);
    if r.Ok? {
      forall k | 0 <= k < |ours|
        ensures r.value[7 + k] == Cells(RowCells(ours[k], baseline))
      {
        assert r.value[|pre| + k] == row(ours[k]);
      }
    }
  }

  /** The line of one row, for a row whose id and solver are text. */
  function RowLine(o: OurRow, baseline: BaselineMap): Line
  {
    if o.instanceId.JStr? && o.solver.JStr? then Cells(RowCells(o, baseline)) else Plain("")
  }

  /** The loop of build_markdown: one line per own result after the lines so
      far, stopping at the first row whose id or solver is not text. */
  method AppendRows(pre: seq<Line>, ours: seq<OurRow>, row: OurRow -> Line)
    returns (r: Result<seq<Line>, MarkdownCrash>)
    ensures r.Err? <==> FirstBadRow(ours, 0).Some?
    ensures r.Err? ==> r.error == NotText(FirstBadRow(ours, 0).value)
    ensures r.Ok? ==>
      var ls := r.value;
      |ls| == |pre| + |ours|
      && ls[..|pre|] == pre
      && forall k :: 0 <= k < |ours| ==> ls[|pre| + k] == row(ours[k])
  {
    var lines := pre;
    for k := 0 to |ours|
      invariant |lines| == |pre| + k
      invariant lines[..|pre|] == pre
      invariant forall p :: 0 <= p < k ==> ours[p].instanceId.JStr? && ours[p].solver.JStr?
      invariant forall p :: 0 <= p < k ==> lines[|pre| + p] == row(ours[p])
    {
      if !(ours[k].instanceId.JStr? && ours[k].solver.JStr?) {
        return Err(NotText(k));
      }
      lines := lines + [row(ours[k])];
    }
    r := Ok(lines);
  }
}
