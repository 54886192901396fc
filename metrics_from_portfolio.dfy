/** The accuracy metrics of tools/metrics_from_portfolio.py: reading a run's
    targets, achieved characteristics and guardrail counts under several key
    conventions, scoring them, blending the scores, and the three-row
    comparison table it rewrites. Scores are exact reals: rounding to one
    or two places and NaN are not modelled (an absent score is None). */
module PortfolioMetrics {
  import opened Common
  import opened JsonValue

  /** Why extract_struct or compute_guardrail_score raises. */
  datatype Crash =
    | NoGet     // .get on a guardrail entry that is not a dict
    | TypeErr   // a comparison or subtraction with a value that is not a number

  // ---------------------------------------------------------------------
  // extract_struct

  /** `d.get(k1) or d.get(k2) or ... or default`: the first truthy value. */
  function FirstTruthy(d: Fields, keys: seq<string>, default: Json): Json
  {
    if keys == [] then default else Or(GetOr(d, keys[0], JNull), FirstTruthy(d, keys[1..], default))
  }

  /** The first alias with a truthy value decides; the ones before it are passed over. */
  lemma {:induction false} FirstTruthyAt(d: Fields, keys: seq<string>, default: Json, i: nat)
    requires i < |keys| && Truthy(GetOr(d, keys[i], JNull))
    requires forall j :: 0 <= j < i ==> !Truthy(GetOr(d, keys[j], JNull))
    ensures FirstTruthy(d, keys, default) == GetOr(d, keys[i], JNull)
  {
    if i > 0 {
      FirstTruthyAt(d, keys[1..], default, i - 1);
    }
  }

  /** A falsy value (0, 0.0, "", [], {}, False, None) counts as missing. */
  lemma {:induction false} FirstTruthyFalls(d: Fields, keys: seq<string>, default: Json)
    requires forall j :: 0 <= j < |keys| ==> !Truthy(GetOr(d, keys[j], JNull))
    ensures FirstTruthy(d, keys, default) == default
  {
    if keys != [] {
      FirstTruthyFalls(d, keys[1..], default);
    }
  }

  predicate AllDictValues(f: Fields)
  {
    forall i :: 0 <= i < |f| ==> f[i].1.JObj?
  }

  /** nest: a dict of dicts as it is, any other dict as the single bucket
      "ALL", anything else as {}. */
  function Nest(obj: Json): (r: Json)
    ensures r.JObj? && AllDictValues(r.fields)
    ensures obj.JObj? ==> r == obj || r.fields == [("ALL", obj)]
    ensures !obj.JObj? ==> r == JObj([])
  {
    if obj.JObj? && AllDictValues(obj.fields) then obj
    else if obj.JObj? then JObj([("ALL", obj)])
    else JObj([])
  }

  lemma {:induction false} NestIdempotent(obj: Json)
    ensures Nest(Nest(obj)) == Nest(obj)
  {
  }

  /** Guardrail counts; JNull stands for None. */
  datatype Counts = Counts(violations: Json, total: Json)

  /** sum(0 if it.get("satisfied") is True else 1 for it in items). */
  function Unsatisfied(items: seq<Json>): (r: Result<nat, Crash>)
    ensures r.Ok? <==> forall i :: 0 <= i < |items| ==> items[i].JObj?
    ensures r.Ok? ==> r.value <= |items|
  {
    if items == [] then Ok(0)
    else if !items[0].JObj? then Err(NoGet)
    else
      match Unsatisfied(items[1..])
      case Err(e) => Err(e)
      case Ok(n) =>
        assert forall i :: 1 <= i < |items| ==> items[i] == items[1..][i - 1];
        Ok(n + (if GetOr(items[0].fields, "satisfied", JNull) == JBool(true) then 0 else 1))
  }

  /** No violation is counted exactly when every entry says satisfied: True. */
  lemma {:induction false} UnsatisfiedZero(items: seq<Json>)
    requires Unsatisfied(items).Ok?
    ensures Unsatisfied(items).value == 0 <==>
      forall i :: 0 <= i < |items| ==> GetOr(items[i].fields, "satisfied", JNull) == JBool(true)
  {
    if items != [] {
      UnsatisfiedZero(items[1..]);
      assert forall i :: 1 <= i < |items| ==> items[i] == items[1..][i - 1];
    }
  }

  /** The counts from a guardrail list: its length and its unsatisfied entries. */
  function ListCounts(items: seq<Json>): (r: Result<Counts, Crash>)
    ensures r.Ok? ==> r.value.total == JInt(|items|)
  {
    match Unsatisfied(items)
    case Err(e) => Err(e)
    case Ok(n) => Ok(Counts(JInt(n), JInt(|items|)))
  }

  /** The counts of a guardrail dict, the list under "items" recounting when
      either count is missing. */
  function DictCounts(gf: Fields, v: Json, t: Json): (r: Result<Counts, Crash>)
    ensures v != JNull && t != JNull ==> r == Ok(Counts(v, t))
  {
    var items := GetOr(gf, "items", JNull);
    if items.JArr? && items.elems != [] && (v == JNull || t == JNull) then ListCounts(items.elems)
    else Ok(Counts(v, t))
  }

  /** The guardrail part of extract_struct as written: each count is read
      with `or`, so a count of 0 is read as missing. */
  function GuardsAsWritten(d: Fields): Result<Counts, Crash>
  {
    var g := FirstTruthy(d, ["guardrails", "constraints"], JObj([]));
    match g
    case JObj(gf) =>
      var v := FirstTruthy(gf, ["violations", "viol_count"], JNull);
      var t := FirstTruthy(gf, ["total", "count"], JNull);
      DictCounts(gf, v, t)
    case JArr(a) => ListCounts(a)
    case _ => Ok(Counts(JNull, JNull))
  }

  /** The first alias that is present and not None; None when there is none. */
  function FirstPresent(d: Fields, keys: seq<string>): (r: Json)
    ensures r == JNull <==> forall j :: 0 <= j < |keys| ==> GetOr(d, keys[j], JNull) == JNull
    ensures r != JNull ==> exists j :: 0 <= j < |keys| && r == GetOr(d, keys[j], JNull)
  {
    if keys == [] then JNull
    else if GetOr(d, keys[0], JNull) != JNull then GetOr(d, keys[0], JNull)
    else
      var r := FirstPresent(d, keys[1..]);
      assert forall j :: 1 <= j < |keys| ==> keys[j] == keys[1..][j - 1];
      r
  }

  /** The guardrail part of extract_struct as evidently intended: a count
      that is present is taken as it is, 0 included. */
  function Guards(d: Fields): (r: Result<Counts, Crash>)
  {
    var g := FirstTruthy(d, ["guardrails", "constraints"], JObj([]));
    match g
    case JObj(gf) => DictCounts(gf, FirstPresent(gf, ["violations", "viol_count"]), FirstPresent(gf, ["total", "count"]))
    case JArr(a) => ListCounts(a)
    case _ => Ok(Counts(JNull, JNull))
  }

  /** A run whose guardrail dict reports no violations out of five. */
  const CleanRun: Fields := [("guardrails", JObj(CleanGuards))]

  /** As written, that run's violation count is lost and it gets no guardrail score. */
  lemma ZeroViolationsLost()
    ensures GuardsAsWritten(CleanRun) == Ok(Counts(JNull, JInt(5)))
    ensures GuardrailScore(GuardsAsWritten(CleanRun).value) == Ok(None)
  {
    CleanRunCounts();
    assert GuardrailScore(Counts(JNull, JInt(5))) == Ok(None);
  }

  /** The counts read, as written, from the run above. */
  lemma CleanRunCounts()
    ensures GuardsAsWritten(CleanRun) == Ok(Counts(JNull, JInt(5)))
  {
    var gf := CleanGuards;
    CleanRunGuards();
    CleanGuardsCounts();
    assert GuardsAsWritten(CleanRun) == DictCounts(gf, JNull, JInt(5));
  }

  const CleanGuards: Fields := [("violations", JInt(0)), ("total", JInt(5))]

  lemma CleanRunGuards()
    ensures FirstTruthy(CleanRun, ["guardrails", "constraints"], JObj([])) == JObj(CleanGuards)
  {
  }

  lemma CleanGuardsCounts()
    ensures FirstTruthy(CleanGuards, ["violations", "viol_count"], JNull) == JNull
    ensures FirstTruthy(CleanGuards, ["total", "count"], JNull) == JInt(5)
  {
    assert FirstTruthy(CleanGuards, ["violations", "viol_count"], JNull) == JNull;
  }

  /** As intended, a guardrail dict whose violation count is present and not
      positive, with a positive total, scores 100. */
  lemma {:induction false} NoViolationsScoreFull(d: Fields, gf: Fields, v: real, t: real)
    requires FirstTruthy(d, ["guardrails", "constraints"], JObj([])) == JObj(gf)
    requires AsNumber(GetOr(gf, "violations", JNull)) == Some(v) && v <= 0.0
    requires AsNumber(GetOr(gf, "total", JNull)) == Some(t) && t > 0.0
    ensures Guards(d).Ok?
    ensures GuardrailScore(Guards(d).value) == Ok(Some(100.0))
  {
    assert GetOr(gf, "violations", JNull) != JNull;
    assert GetOr(gf, "total", JNull) != JNull;
    assert FirstPresent(gf, ["violations", "viol_count"]) == GetOr(gf, "violations", JNull);
    assert FirstPresent(gf, ["total", "count"]) == GetOr(gf, "total", JNull);
  }

  /** What extract_struct returns. */
  datatype Extracted = Extracted(targets: Json, achieved: Json, objective: Json, runtime: Json, counts: Counts)

  /** extract_struct around a given reading of the guardrail counts. */
  function ExtractWith(d: Fields, counts: Result<Counts, Crash>): (r: Result<Extracted, Crash>)
    ensures r.Ok? <==> counts.Ok?
    ensures r.Ok? ==> r.value.counts == counts.value
    ensures r.Ok? ==> r.value.targets.JObj? && AllDictValues(r.value.targets.fields)
    ensures r.Ok? ==> r.value.achieved.JObj? && AllDictValues(r.value.achieved.fields)
    ensures r.Ok? ==> Truthy(r.value.objective) || r.value.objective == JNull
    ensures r.Ok? ==> Truthy(r.value.runtime) || r.value.runtime == JNull
  {
    var targets := FirstTruthy(d, ["targets", "Ktarget", "target"], JObj([]));
    var achieved := FirstTruthy(d, ["achieved", "characteristics", "portfolio"], JObj([]));
    var objective := FirstTruthy(d, ["objective", "obj"], JNull);
    var runtime := FirstTruthy(d, ["runtime_sec", "runtime"], JNull);
    FirstTruthyIsTruthy(d, ["objective", "obj"]);
    FirstTruthyIsTruthy(d, ["runtime_sec", "runtime"]);
    match counts
    case Err(e) => Err(e)
    case Ok(c) => Ok(Extracted(Nest(targets), Nest(achieved), objective, runtime, c))
  }

  /** extract_struct as written: the counts are read with the `or` chain,
      so a violation count of 0 comes back as None. */
  function ExtractStruct(d: Fields): (r: Result<Extracted, Crash>)
    ensures r.Ok? <==> GuardsAsWritten(d).Ok?
    ensures r.Ok? ==> r.value.counts == GuardsAsWritten(d).value
    ensures r.Ok? ==> r.value.targets.JObj? && AllDictValues(r.value.targets.fields)
    ensures r.Ok? ==> r.value.achieved.JObj? && AllDictValues(r.value.achieved.fields)
    ensures r.Ok? ==> Truthy(r.value.objective) || r.value.objective == JNull
    ensures r.Ok? ==> Truthy(r.value.runtime) || r.value.runtime == JNull
  {
    ExtractWith(d, GuardsAsWritten(d))
  }

  /** extract_struct as evidently intended: present counts are kept, 0 included. */
  function ExtractStructIntended(d: Fields): (r: Result<Extracted, Crash>)
    ensures r.Ok? <==> Guards(d).Ok?
    ensures r.Ok? ==> r.value.counts == Guards(d).value
  {
    ExtractWith(d, Guards(d))
  }

  /** On the clean run the program extracts no violation count, while the
      intended reading extracts 0 violations of 5. */
  lemma CleanRunExtracted()
    ensures ExtractStruct(CleanRun).Ok? && ExtractStruct(CleanRun).value.counts == Counts(JNull, JInt(5))
    ensures ExtractStructIntended(CleanRun).Ok?
    ensures ExtractStructIntended(CleanRun).value.counts == Counts(JInt(0), JInt(5))
  {
    CleanRunCounts();
    CleanRunGuards();
    var gf := CleanGuards;
    assert FirstPresent(gf, ["violations", "viol_count"]) == JInt(0);
    assert FirstPresent(gf, ["total", "count"]) == JInt(5);
  }

  lemma {:induction false} FirstTruthyIsTruthy(d: Fields, keys: seq<string>)
    ensures Truthy(FirstTruthy(d, keys, JNull)) || FirstTruthy(d, keys, JNull) == JNull
  {
    if keys != [] {
      FirstTruthyIsTruthy(d, keys[1..]);
    }
  }

  // ---------------------------------------------------------------------
  // Scores

  function Abs(x: real): real { if x < 0.0 then -x else x }

  const Tiny: real := 0.000000000001

  /** relative_error: |a - t| / |t|, or / 1 when |t| is at most 1e-12. */
  function RelativeError(a: real, t: real): (r: real)
    ensures r >= 0.0
    ensures r == 0.0 <==> a == t
    ensures Abs(t) > Tiny ==> r * Abs(t) == Abs(a - t)
    ensures Abs(t) <= Tiny ==> r == Abs(a - t)
  {
    var denom := if Abs(t) > Tiny then Abs(t) else 1.0;
    Abs(a - t) / denom
  }

  /** The dict a bucket name maps to; {} when absent. */
  function Bucket(f: Fields, name: string): Fields
  {
    match GetOr(f, name, JObj([]))
    case JObj(g) => g
    case _ => []
  }

  /** The pair one characteristic contributes: none unless the achieved
      bucket has it and both values are numbers. */
  function PairOf(achieved: Fields, ch: string, t: Json): seq<(real, real)>
  {
    if HasKey(achieved, ch) && AsNumber(GetOr(achieved, ch, JNull)).Some? && AsNumber(t).Some?
    then [(AsNumber(GetOr(achieved, ch, JNull)).value, AsNumber(t).value)]
    else []
  }

  /** The (achieved, target) pairs one bucket contributes: the characteristics
      whose target and achieved values are both numbers, in target order. */
  function BucketPairs(chars: Fields, achieved: Fields): seq<(real, real)>
  {
    if chars == [] then []
    else
      var n := |chars| - 1;
      BucketPairs(chars[..n], achieved) + PairOf(achieved, chars[n].0, chars[n].1)
  }

  function BucketOf(targets: Fields, achieved: Fields, i: nat): seq<(real, real)>
    requires i < |targets|
  {
    var chars := if targets[i].1.JObj? then targets[i].1.fields else [];
    BucketPairs(chars, Bucket(achieved, targets[i].0))
  }

  /** All compared pairs, bucket by bucket in target order. */
  function MatchPairs(targets: Fields, achieved: Fields): seq<(real, real)>
  {
    if targets == [] then []
    else MatchPairs(targets[..|targets| - 1], achieved) + BucketOf(targets, achieved, |targets| - 1)
  }

  lemma {:induction false} BucketPairsStep(chars: Fields, achieved: Fields, j: nat)
    requires j < |chars|
    ensures BucketPairs(chars[..j + 1], achieved) == BucketPairs(chars[..j], achieved) + PairOf(achieved, chars[j].0, chars[j].1)
  {
    assert chars[..j + 1][..j] == chars[..j];
  }

  lemma {:induction false} MatchPairsStep(targets: Fields, achieved: Fields, i: nat)
    requires i < |targets|
    ensures MatchPairs(targets[..i + 1], achieved) == MatchPairs(targets[..i], achieved) + BucketOf(targets, achieved, i)
  {
    assert targets[..i + 1][..i] == targets[..i];
  }

  lemma {:induction false} ErrorsAppend(pairs: seq<(real, real)>, more: seq<(real, real)>)
    ensures Errors(pairs + more) == Errors(pairs) + Errors(more)
  {
  }

  function Errors(pairs: seq<(real, real)>): (errs: seq<real>)
    ensures |errs| == |pairs|
    ensures forall k :: 0 <= k < |pairs| ==> errs[k] == RelativeError(pairs[k].0, pairs[k].1)
  {
    seq(|pairs|, k requires 0 <= k < |pairs| => RelativeError(pairs[k].0, pairs[k].1))
  }

  function Clamp01(x: real): real
  {
    if x < 0.0 then 0.0 else if x > 1.0 then 1.0 else x
  }

  /** 100 * (1 - mean relative error), clamped to [0, 100]; None when no
      characteristic could be compared. */
  function Score(errs: seq<real>): (r: Option<real>)
    ensures r.None? <==> errs == []
    ensures r.Some? ==> 0.0 <= r.value <= 100.0
  {
    if errs == [] then None
    else Some(Clamp01(1.0 - Sum(errs) / (|errs| as real)) * 100.0)
  }

  /** The inner loop of compute_match_score: the relative errors of one bucket. */
  method BucketErrors(chars: Fields, aChars: Fields) returns (errors: seq<real>)
    ensures errors == Errors(BucketPairs(chars, aChars))
  {
    errors := [];
    for j := 0 to |chars|
      invariant errors == Errors(BucketPairs(chars[..j], aChars))
    {
      var (ch, t) := chars[j];
      BucketPairsStep(chars, aChars, j);
      ErrorsAppend(BucketPairs(chars[..j], aChars), PairOf(aChars, ch, t));
      if HasKey(aChars, ch) && AsNumber(GetOr(aChars, ch, JNull)).Some? && AsNumber(t).Some? {
        var a := AsNumber(GetOr(aChars, ch, JNull)).value;
        errors := errors + [RelativeError(a, AsNumber(t).value)];
      }
    }
    assert chars[..|chars|] == chars;
  }

  /** compute_match_score over the nested targets and achieved dicts. */
  method ComputeMatchScore(targets: Fields, achieved: Fields) returns (score: Option<real>)
    requires AllDictValues(targets) && AllDictValues(achieved)
    ensures score == Score(Errors(MatchPairs(targets, achieved)))
  {
    var errors: seq<real> := [];
    for i := 0 to |targets|
      invariant errors == Errors(MatchPairs(targets[..i], achieved))
    {
      var (bucket, chars) := targets[i];
      var more := BucketErrors(chars.fields, Bucket(achieved, bucket));
      MatchPairsStep(targets, achieved, i);
      ErrorsAppend(MatchPairs(targets[..i], achieved), BucketOf(targets, achieved, i));
      errors := errors + more;
    }
    assert targets[..|targets|] == targets;
    if errors == [] {
      return None;
    }
    var avg := Sum(errors) / (|errors| as real);
    score := Some(Clamp01(1.0 - avg) * 100.0);
  }

  lemma {:induction false} SumNonNegative(xs: seq<real>)
    requires forall k :: 0 <= k < |xs| ==> xs[k] >= 0.0
    ensures Sum(xs) >= 0.0
    ensures Sum(xs) == 0.0 <==> forall k :: 0 <= k < |xs| ==> xs[k] == 0.0
  {
    if xs != [] {
      SumNonNegative(xs[1..]);
      assert forall k :: 1 <= k < |xs| ==> xs[k] == xs[1..][k - 1];
    }
  }

  /** The score is 100 exactly when at least one characteristic was compared
      and every compared achieved value equals its target. */
  lemma {:induction false} PerfectScore(pairs: seq<(real, real)>)
    ensures Score(Errors(pairs)) == Some(100.0) <==>
      pairs != [] && forall k :: 0 <= k < |pairs| ==> pairs[k].0 == pairs[k].1
  {
    var errs := Errors(pairs);
    SumNonNegative(errs);
    if pairs != [] {
      var avg := Sum(errs) / (|errs| as real);
      assert avg >= 0.0;
      assert avg == 0.0 <==> Sum(errs) == 0.0;
    }
  }

  /** The share of satisfied guardrails, in percent, out of a positive total. */
  function SatisfiedPercent(t: real, v: real): (p: real)
    requires t > 0.0
    ensures 0.0 <= p <= 100.0
    ensures v <= 0.0 ==> p == 100.0
    ensures v >= t ==> p == 0.0
  {
    var ok := Max0(t - Max0(v));
    ShareBounds(ok, t);
    ok / t * 100.0
  }

  lemma {:induction false} ShareBounds(ok: real, t: real)
    requires 0.0 <= ok <= t && t > 0.0
    ensures 0.0 <= ok / t <= 1.0
    ensures ok == t ==> ok / t == 1.0
  {
    assert ok / t * t == ok;
  }

  /** compute_guardrail_score: the share of satisfied guardrails in percent;
      None when a count is missing or the total is not positive. */
  function GuardrailScore(c: Counts): (r: Result<Option<real>, Crash>)
    ensures c.violations == JNull || c.total == JNull ==> r == Ok(None)
    ensures r.Ok? && r.value.Some? ==> 0.0 <= r.value.value <= 100.0
    ensures AsNumber(c.total).Some? && AsNumber(c.violations).Some? ==>
      r == Ok(if AsNumber(c.total).value <= 0.0 then None
              else Some(SatisfiedPercent(AsNumber(c.total).value, AsNumber(c.violations).value)))
  {
    if c.violations == JNull || c.total == JNull then Ok(None)
    else match AsNumber(c.total)
      case None => Err(TypeErr)
      case Some(t) =>
        if t <= 0.0 then Ok(None)
        else match AsNumber(c.violations)
          case None => Err(TypeErr)
          case Some(v) => Ok(Some(SatisfiedPercent(t, v)))
  }

  function Max0(x: real): real { if x >= 0.0 then x else 0.0 }

  const MatchWeight: real := 0.7
  const GuardWeight: real := 0.3

  function Products(parts: seq<real>, weights: seq<real>): (r: seq<real>)
    requires |parts| == |weights|
    ensures |r| == |parts|
  {
    seq(|parts|, k requires 0 <= k < |parts| => parts[k] * weights[k])
  }

  /** combine_accuracy: the weighted mean of the scores that are present. */
  function CombineAccuracy(matchScore: Option<real>, guard: Option<real>, wMatch: real, wGuard: real): (r: Option<real>)
    ensures r.None? <==> matchScore.None? && guard.None?
  {
    var parts :=
      if matchScore.Some? && guard.Some? then [matchScore.value, guard.value]
      else if matchScore.Some? then [matchScore.value]
      else if guard.Some? then [guard.value]
      else [];
    var weights :=
      if matchScore.Some? && guard.Some? then [wMatch, wGuard]
      else if matchScore.Some? then [wMatch]
      else if guard.Some? then [wGuard]
      else [];
    if parts == [] then None
    else
      var wsum := Sum(weights);
      Some(Sum(Products(parts, weights)) / (if wsum != 0.0 then wsum else 1.0))
  }

  lemma {:induction false} Sum1(x: real)
    ensures Sum([x]) == x
  {
    assert [x][1..] == [];
  }

  lemma {:induction false} Sum2(x: real, y: real)
    ensures Sum([x, y]) == x + y
  {
    assert [x, y][1..] == [y];
    Sum1(y);
  }

  /** A single score present is returned as it is, whatever its (non-zero) weight. */
  lemma {:induction false} CombineSingle(x: real, w: real)
    requires w != 0.0
    ensures CombineAccuracy(Some(x), None, w, GuardWeight) == Some(x)
    ensures CombineAccuracy(None, Some(x), MatchWeight, w) == Some(x)
  {
    CombineOne(x, w);
  }

  lemma {:induction false} CombineOne(x: real, w: real)
    requires w != 0.0
    ensures Sum([w]) == w && Sum(Products([x], [w])) / w == x
  {
    Sum1(w);
    assert Products([x], [w])[0] == x * w;
    assert Products([x], [w]) == [x * w];
    Sum1(x * w);
  }

  /** Both scores present: 0.7 * match + 0.3 * guard, which lies between them. */
  lemma {:induction false} CombineBoth(m: real, g: real)
    ensures CombineAccuracy(Some(m), Some(g), MatchWeight, GuardWeight) == Some(0.7 * m + 0.3 * g)
    ensures var r := 0.7 * m + 0.3 * g;
      (m <= r <= g) || (g <= r <= m)
  {
    Sum2(MatchWeight, GuardWeight);
    assert Sum([MatchWeight, GuardWeight]) == 1.0;
    assert Products([m, g], [MatchWeight, GuardWeight]) == [m * 0.7, g * 0.3];
    Sum2(m * 0.7, g * 0.3);
    assert Sum(Products([m, g], [MatchWeight, GuardWeight])) / 1.0 == 0.7 * m + 0.3 * g;
  }

  // ---------------------------------------------------------------------
  // Table cells

  /** A value written into the table: a number (printed as Python prints a
      float), a speedup (the number followed by "×") or text. */
  datatype Cell = Num(x: real) | Times(x: real) | Text(s: string)

  predicate IsPlaceholder(s: string)
  {
    s == "None" || s == "pending" || s == "—" || s == "-"
  }

  /** coalesce: the new number if there is one, else the current cell when
      it holds a real value, else "pending". */
  function Coalesce(newVal: Option<real>, current: Option<string>): (r: Cell)
    ensures newVal.Some? ==> r == Num(newVal.value)
    ensures newVal.None? ==> r.Text? && r.s != [] && (IsPlaceholder(r.s) ==> r.s == "pending")
    ensures newVal.None? && current.Some? && current.value != [] && !IsPlaceholder(current.value)
      ==> r == Text(current.value)
  {
    if newVal.Some? then Num(newVal.value)
    else if current.Some? && current.value != [] && !IsPlaceholder(current.value) then Text(current.value)
    else Text("pending")
  }

  /** Coalescing a cell that coalesce produced keeps it. */
  lemma {:induction false} CoalesceStable(current: Option<string>)
    ensures var c := Coalesce(None, current);
      Coalesce(None, Some(c.s)) == c
  {
  }

  /** The runtime a run reports, when it is a number (a bool counts as one). */
  function RuntimeOf(rt: Json): Option<real>
  {
    AsNumber(rt)
  }

  /** The speedup rule: baseline runtime over solver runtime, when both are
      known and the solver's is positive. */
  function Speedup(solverRt: Option<real>, baseRt: Option<real>): (r: Option<real>)
    ensures r.Some? <==> solverRt.Some? && baseRt.Some? && solverRt.value > 0.0
    ensures r.Some? ==> r.value * solverRt.value == baseRt.value
  {
    if solverRt.Some? && baseRt.Some? && solverRt.value > 0.0 then Some(baseRt.value / solverRt.value)
    else None
  }

  /** The speedup cell: the new speedup, else the current cell when it is
      not empty, else "—". */
  function SpeedupCell(speedup: Option<real>, current: Option<string>): (r: Cell)
    ensures speedup.Some? ==> r == Times(speedup.value)
    ensures speedup.None? ==> r.Text? && r.s != []
  {
    if speedup.Some? then Times(speedup.value)
    else if current.Some? && current.value != [] then Text(current.value)
    else Text("—")
  }

  // ---------------------------------------------------------------------
  // The table file

  const RuntimeLabel: string := "Average Runtime (s)"
  const AccuracyLabel: string := "Solution Accuracy (%)"
  const SpeedupLabel: string := "Speedup Factor"

  /** A cell's text between single spaces. */
  function Pad1(a: string): string
  {
    " " + a + " "
  }

  lemma {:induction false} PadKeepsOut(a: string, c: char)
    requires c !in a && c != ' '
    ensures Pad1(a) != [] && c !in Pad1(a)
  {
    assert Pad1(a)[0] == ' ';
    forall k | 0 <= k < |Pad1(a)| ensures Pad1(a)[k] != c {
      if 0 < k <= |a| { assert Pad1(a)[k] == a[k - 1]; }
    }
  }

  /** The two value cells of a row and the pipes that close them. */
  function Cells(a: string, b: string): string
  {
    Pad1(a) + "|" + Pad1(b) + "|"
  }

  /** A table row: "| title<pad> | a | b |". */
  function Row(title: string, pad: string, a: string, b: string): string
  {
    "| " + title + pad + " |" + Cells(a, b)
  }

  // The fixed lines of the table, each literal kept under forty characters
  // so that the verifier can read its characters.
  const Separator: string := "|------------------------|" + ":------:|:--------:|"
  const AccuracyNote: string := Note1 + Note2 + Note3 + Note4 + Note5 + Note6 + Note7
  const RuntimeNote: string := Note8 + Note9 + Note10 + Note11

  // The notes in short pieces, so that facts about their characters stay cheap.
  const Note1: string := "- Accuracy "
  const Note2: string := "derived from "
  const Note3: string := "portfolio–"
  const Note4: string := "target match"
  const Note5: string := " and guardrail "
  const Note6: string := "satisfaction"
  const Note7: string := " (weighted blend)."
  const Note8: string := "- Runtimes may "
  const Note9: string := "come from logs"
  const Note10: string := " or solver "
  const Note11: string := "metadata."

  /** The lines write_table writes (the text ends with a line break, so the
      last piece after splitting is empty). */
  function TableLines(ts: string, solverRt: string, baseRt: string, solverAcc: string, baseAcc: string, speedup: string): seq<string>
  {
    ["# Solver vs baseline", "", "Updated: " + ts, "",
     Row("Metric", "                ", "Solver", "Baseline"),
     Separator,
     Row(RuntimeLabel, "   ", solverRt, baseRt),
     Row(AccuracyLabel, " ", solverAcc, baseAcc),
     Row(SpeedupLabel, "        ", speedup, "—"),
     "",
     "Notes:",
     AccuracyNote,
     RuntimeNote,
     ""]
  }

  /** The text of the table file. */
  function WriteTable(ts: string, solverRt: string, baseRt: string, solverAcc: string, baseAcc: string, speedup: string): string
  {
    Join(TableLines(ts, solverRt, baseRt, solverAcc, baseAcc, speedup), "\n")
  }

  /** The two cells of `\s*([^|]+)\|\s*([^|]+)\|` after a row's title, stripped. */
  function TwoCells(s: string): Option<(string, string)>
  {
    match IndexOf(s, '|')
    case None => None
    case Some(i) =>
      if i == 0 then None
      else
        var rest := s[i + 1..];
        match IndexOf(rest, '|')
        case None => None
        case Some(j) => if j == 0 then None else Some((Strip(s[..i]), Strip(rest[..j])))
  }

  /** The pattern `^\|\s*<title>\s*\|\s*([^|]+)\|\s*([^|]+)\|` matched at
      the start of `s`, the text from a line start on; `\s*` and `[^|]+` do
      not stop at a line break. */
  function MatchRow(s: string, title: string): Option<(string, string)>
  {
    if |s| == 0 || s[0] != '|' then None
    else MatchTitle(LStrip(s[1..]), title)
  }

  /** The rest of the pattern once `^\|\s*` has been read. */
  function MatchTitle(r: string, title: string): Option<(string, string)>
  {
    if !StartsWith(r, title) then None
    else AfterTitle(LStrip(r[|title|..]))
  }

  /** The rest of the pattern once the title and `\s*` have been read. */
  function AfterTitle(r: string): Option<(string, string)>
  {
    if |r| == 0 || r[0] != '|' then None
    else TwoCells(r[1..])
  }

  /** The first match in a list of per-line matches. */
  function FirstMatch(ms: seq<Option<(string, string)>>): Option<(string, string)>
  {
    if ms == [] then None else if ms[0].Some? then ms[0] else FirstMatch(ms[1..])
  }

  /** The text from the start of line k on, where `^` matches under re.M. */
  function FromLine(lines: seq<string>, k: nat): string
    requires k <= |lines|
  {
    Join(lines[k..], "\n")
  }

  /** The text from a line start is that line, then a line break and the
      lines after it, if any. */
  lemma {:induction false} FromLineSplit(lines: seq<string>, k: nat) returns (tail: string)
    requires k < |lines|
    ensures FromLine(lines, k) == lines[k] + tail
    ensures tail == [] || tail[0] == '\n'
  {
    assert lines[k..][1..] == lines[k + 1..];
    if k + 1 == |lines| {
      tail := [];
      assert lines[k..] == [lines[k]];
    } else {
      tail := "\n" + FromLine(lines, k + 1);
      assert FromLine(lines, k) == lines[k] + "\n" + FromLine(lines, k + 1);
    }
  }

  /** re.search with re.M: the match at the first line start where the
      pattern matches the text from there on. */
  function Pick(lines: seq<string>, title: string): Option<(string, string)>
  {
    FirstMatch(seq(|lines|, k requires 0 <= k < |lines| => MatchRow(FromLine(lines, k), title)))
  }

  /** What read_table_values returns; None for a row it did not find. */
  datatype TableValues = TableValues(
    solverRt: Option<string>, baseRt: Option<string>,
    solverAcc: Option<string>, baseAcc: Option<string>,
    speedup: Option<string>)

  function First(p: Option<(string, string)>): Option<string>
  {
    if p.Some? then Some(p.value.0) else None
  }

  function Second(p: Option<(string, string)>): Option<string>
  {
    if p.Some? then Some(p.value.1) else None
  }

  /** read_table_values on the text of an existing table file: each value
      pair comes from one match, so both of its cells are found or neither. */
  function ReadTableValues(text: string): (r: TableValues)
    ensures r.solverRt.Some? <==> r.baseRt.Some?
    ensures r.solverAcc.Some? <==> r.baseAcc.Some?
  {
    var lines := Split(text, '\n');
    var rt := Pick(lines, RuntimeLabel);
    var acc := Pick(lines, AccuracyLabel);
    var sp := Pick(lines, SpeedupLabel);
    TableValues(First(rt), Second(rt), First(acc), Second(acc), First(sp))
  }

  predicate CellText(s: string)
  {
    '|' !in s && '\n' !in s
  }

  lemma {:induction false} IndexOfConcat(x: string, c: char, y: string)
    requires c !in x
    ensures IndexOf(x + [c] + y, c) == Some(|x|)
  {
    if x != [] {
      assert (x + [c] + y)[1..] == x[1..] + [c] + y;
      IndexOfConcat(x[1..], c, y);
    }
  }

  lemma {:induction false} TwoCellsOf(x: string, y: string, tail: string)
    requires x != [] && y != [] && '|' !in x && '|' !in y
    ensures TwoCells(x + "|" + y + "|" + tail) == Some((Strip(x), Strip(y)))
  {
    var s := x + "|" + y + "|" + tail;
    IndexOfConcat(x, '|', y + "|" + tail);
    assert s == x + ['|'] + (y + "|" + tail);
    assert s[..|x|] == x;
    assert s[|x| + 1..] == y + ['|'] + tail;
    IndexOfConcat(y, '|', tail);
    assert (y + ['|'] + tail)[..|y|] == y;
  }

  lemma {:induction false} TitleCellStripped(title: string, pad: string, rest: string)
    requires title != [] && !IsSpace(title[0])
    ensures ("| " + title + pad + " |" + rest)[1..] == " " + (title + (pad + " |" + rest))
    ensures LStrip(" " + (title + (pad + " |" + rest))) == title + (pad + " |" + rest)
  {
    var z := title + (pad + " |" + rest);
    LStripSpaces(" ", z);
    LStripOfStripped(z);
  }

  lemma {:induction false} TitleCellRest(title: string, pad: string, rest: string)
    requires AllSpace(pad)
    ensures MatchTitle(title + (pad + " |" + rest), title) == TwoCells(rest)
  {
    var z := title + (pad + " |" + rest);
    assert z[..|title|] == title;
    assert z[|title|..] == (pad + " ") + ("|" + rest);
    LStripSpaces(pad + " ", "|" + rest);
    LStripOfStripped("|" + rest);
    assert ("|" + rest)[1..] == rest;
  }

  /** A row whose title cell holds the title is matched, and its next two cells taken. */
  lemma {:induction false} MatchRowOf(title: string, pad: string, rest: string)
    requires title != [] && !IsSpace(title[0]) && AllSpace(pad)
    ensures MatchRow("| " + title + pad + " |" + rest, title) == TwoCells(rest)
  {
    TitleCellStripped(title, pad, rest);
    TitleCellRest(title, pad, rest);
  }

  /** A row whose title differs from another title within both lengths is passed over. */
  lemma {:induction false} MatchRowMiss(title: string, pad: string, rest: string, other: string, k: nat)
    requires title != [] && !IsSpace(title[0])
    requires k < |title| && k < |other| && title[k] != other[k]
    ensures MatchRow("| " + title + pad + " |" + rest, other).None?
  {
    var line := "| " + title + pad + " |" + rest;
    var z := title + (pad + " |" + rest);
    assert line[1..] == " " + z;
    LStripSpaces(" ", z);
    LStripOfStripped(z);
    assert z[k] == title[k];
  }

  /** A row written for a title is read back for it, cells stripped,
      whatever text follows the row. */
  lemma {:induction false} RowMatches(title: string, pad: string, a: string, b: string, tail: string)
    requires title != [] && !IsSpace(title[0]) && AllSpace(pad)
    requires CellText(a) && CellText(b)
    ensures MatchRow(Row(title, pad, a, b) + tail, title) == Some((Strip(a), Strip(b)))
  {
    assert Row(title, pad, a, b) + tail == "| " + title + pad + " |" + (Cells(a, b) + tail);
    MatchRowOf(title, pad, Cells(a, b) + tail);
    CellsRead(a, b, tail);
  }

  lemma {:induction false} CellsRead(a: string, b: string, tail: string)
    requires CellText(a) && CellText(b)
    ensures TwoCells(Cells(a, b) + tail) == Some((Strip(a), Strip(b)))
  {
    PadKeepsOut(a, '|');
    PadKeepsOut(b, '|');
    assert Cells(a, b) + tail == Pad1(a) + "|" + Pad1(b) + "|" + tail;
    TwoCellsOf(Pad1(a), Pad1(b), tail);
    PaddedStrip(a);
    PaddedStrip(b);
  }

  lemma {:induction false} PaddedStrip(a: string)
    ensures Strip(Pad1(a)) == Strip(a)
  {
    StripPadded(" ", a, " ");
  }

  /** A row written for a title is passed over for another title that
      differs from it, whatever text follows the row. */
  lemma {:induction false} RowMisses(title: string, pad: string, a: string, b: string, other: string, k: nat, tail: string)
    requires title != [] && !IsSpace(title[0])
    requires k < |title| && k < |other| && title[k] != other[k]
    ensures MatchRow(Row(title, pad, a, b) + tail, other).None?
  {
    assert Row(title, pad, a, b) + tail == "| " + title + pad + " |" + (Cells(a, b) + tail);
    MatchRowMiss(title, pad, Cells(a, b) + tail, other, k);
  }

  /** read_table_values gives back, stripped, the cells write_table wrote,
      as long as no cell holds a "|" or a line break. */
  lemma {:induction false} TableRoundTrip(ts: string, solverRt: string, baseRt: string, solverAcc: string, baseAcc: string, speedup: string)
    requires '\n' !in ts
    requires CellText(solverRt) && CellText(baseRt) && CellText(solverAcc) && CellText(baseAcc) && CellText(speedup)
    ensures ReadTableValues(WriteTable(ts, solverRt, baseRt, solverAcc, baseAcc, speedup))
      == TableValues(Some(Strip(solverRt)), Some(Strip(baseRt)), Some(Strip(solverAcc)), Some(Strip(baseAcc)), Some(Strip(speedup)))
  {
    var lines := TableLines(ts, solverRt, baseRt, solverAcc, baseAcc, speedup);
    LinesHaveNoBreak(ts, solverRt, baseRt, solverAcc, baseAcc, speedup);
    SplitJoin(lines, '\n');
    assert TableShape(lines, ts, solverRt, baseRt, solverAcc, baseAcc, speedup);
    RuntimeRowPicked(lines, ts, solverRt, baseRt, solverAcc, baseAcc, speedup);
    AccuracyRowPicked(lines, ts, solverRt, baseRt, solverAcc, baseAcc, speedup);
    SpeedupRowPicked(lines, ts, solverRt, baseRt, solverAcc, baseAcc, speedup);
  }

  /** The head lines and rows of the table, as a property of a list of lines. */
  predicate TableShape(lines: seq<string>, ts: string, solverRt: string, baseRt: string, solverAcc: string, baseAcc: string, speedup: string)
  {
    |lines| >= 9 && lines[0] == "# Solver vs baseline" && lines[1] == "" && lines[2] == "Updated: " + ts
    && lines[3] == "" && lines[4] == Row("Metric", "                ", "Solver", "Baseline") && lines[5] == Separator
    && lines[6] == Row(RuntimeLabel, "   ", solverRt, baseRt)
    && lines[7] == Row(AccuracyLabel, " ", solverAcc, baseAcc)
    && lines[8] == Row(SpeedupLabel, "        ", speedup, "—")
  }

  lemma {:induction false} RuntimeRowPicked(lines: seq<string>, ts: string, solverRt: string, baseRt: string, solverAcc: string, baseAcc: string, speedup: string)
    requires TableShape(lines, ts, solverRt, baseRt, solverAcc, baseAcc, speedup)
    requires CellText(solverRt) && CellText(baseRt)
    ensures Pick(lines, RuntimeLabel) == Some((Strip(solverRt), Strip(baseRt)))
  {
    HeadLinesMissAll(lines, ts, RuntimeLabel);
    var tail := FromLineSplit(lines, 6);
    RowMatches(RuntimeLabel, "   ", solverRt, baseRt, tail);
    PickAt(lines, RuntimeLabel, 6);
  }

  lemma {:induction false} AccuracyRowPicked(lines: seq<string>, ts: string, solverRt: string, baseRt: string, solverAcc: string, baseAcc: string, speedup: string)
    requires TableShape(lines, ts, solverRt, baseRt, solverAcc, baseAcc, speedup)
    requires CellText(solverAcc) && CellText(baseAcc)
    ensures Pick(lines, AccuracyLabel) == Some((Strip(solverAcc), Strip(baseAcc)))
  {
    HeadLinesMissAll(lines, ts, AccuracyLabel);
    var tail6 := FromLineSplit(lines, 6);
    RowMisses(RuntimeLabel, "   ", solverRt, baseRt, AccuracyLabel, 0, tail6);
    var tail7 := FromLineSplit(lines, 7);
    RowMatches(AccuracyLabel, " ", solverAcc, baseAcc, tail7);
    PickAt(lines, AccuracyLabel, 7);
  }

  lemma {:induction false} SpeedupRowPicked(lines: seq<string>, ts: string, solverRt: string, baseRt: string, solverAcc: string, baseAcc: string, speedup: string)
    requires TableShape(lines, ts, solverRt, baseRt, solverAcc, baseAcc, speedup)
    requires CellText(speedup)
    ensures Pick(lines, SpeedupLabel) == Some((Strip(speedup), Strip("—")))
  {
    SpeedupRowFirst(lines, ts, solverRt, baseRt, solverAcc, baseAcc, speedup);
    var tail := FromLineSplit(lines, 8);
    RowMatches(SpeedupLabel, "        ", speedup, "—", tail);
    PickAt(lines, SpeedupLabel, 8);
  }

  /** No line above the speedup row matches its title. */
  lemma {:induction false} SpeedupRowFirst(lines: seq<string>, ts: string, solverRt: string, baseRt: string, solverAcc: string, baseAcc: string, speedup: string)
    requires TableShape(lines, ts, solverRt, baseRt, solverAcc, baseAcc, speedup)
    ensures forall j :: 0 <= j < 8 ==> MatchRow(FromLine(lines, j), SpeedupLabel).None?
  {
    HeadLinesMissAll(lines, ts, SpeedupLabel);
    assert MatchRow(FromLine(lines, 6), SpeedupLabel).None? by {
      var tail := FromLineSplit(lines, 6);
      RuntimeRowMissesSpeedup(solverRt, baseRt, tail);
    }
    assert MatchRow(FromLine(lines, 7), SpeedupLabel).None? by {
      var tail := FromLineSplit(lines, 7);
      AccuracyRowMissesSpeedup(solverAcc, baseAcc, tail);
    }
  }

  lemma {:induction false} RuntimeRowMissesSpeedup(a: string, b: string, tail: string)
    ensures MatchRow(Row(RuntimeLabel, "   ", a, b) + tail, SpeedupLabel).None?
  {
    RowMisses(RuntimeLabel, "   ", a, b, SpeedupLabel, 0, tail);
  }

  lemma {:induction false} AccuracyRowMissesSpeedup(a: string, b: string, tail: string)
    ensures MatchRow(Row(AccuracyLabel, " ", a, b) + tail, SpeedupLabel).None?
  {
    RowMisses(AccuracyLabel, " ", a, b, SpeedupLabel, 1, tail);
  }

  /** The six head lines of any list that starts like the table match none of the titles. */
  lemma {:induction false} HeadLinesMissAll(lines: seq<string>, ts: string, title: string)
    requires title == RuntimeLabel || title == AccuracyLabel || title == SpeedupLabel
    requires |lines| >= 6 && lines[0] == "# Solver vs baseline" && lines[1] == "" && lines[2] == "Updated: " + ts
    requires lines[3] == "" && lines[4] == Row("Metric", "                ", "Solver", "Baseline") && lines[5] == Separator
    ensures forall j :: 0 <= j < 6 ==> MatchRow(FromLine(lines, j), title).None?
  {
    forall j | 0 <= j < 6 ensures MatchRow(FromLine(lines, j), title).None? {
      var tail := FromLineSplit(lines, j);
      if j == 0 {
        assert (lines[0] + tail)[0] == '#';
      } else if j == 2 {
        assert (lines[2] + tail)[0] == 'U';
      } else if j == 4 {
        RowMisses("Metric", "                ", "Solver", "Baseline", title, 0, tail);
      } else if j == 5 {
        SeparatorMisses(title, tail);
      } else {
        assert lines[j] + tail == tail;
      }
    }
  }

  lemma {:induction false} LinesHaveNoBreak(ts: string, solverRt: string, baseRt: string, solverAcc: string, baseAcc: string, speedup: string)
    requires '\n' !in ts
    requires CellText(solverRt) && CellText(baseRt) && CellText(solverAcc) && CellText(baseAcc) && CellText(speedup)
    ensures var lines := TableLines(ts, solverRt, baseRt, solverAcc, baseAcc, speedup);
      |lines| >= 1 && forall k :: 0 <= k < |lines| ==> '\n' !in lines[k]
  {
    var lines := TableLines(ts, solverRt, baseRt, solverAcc, baseAcc, speedup);
    assert TableShape(lines, ts, solverRt, baseRt, solverAcc, baseAcc, speedup);
    ShapedLinesHaveNoBreak(lines, ts, solverRt, baseRt, solverAcc, baseAcc, speedup);
  }

  lemma {:induction false} ShapedLinesHaveNoBreak(lines: seq<string>, ts: string, solverRt: string, baseRt: string, solverAcc: string, baseAcc: string, speedup: string)
    requires TableShape(lines, ts, solverRt, baseRt, solverAcc, baseAcc, speedup)
    requires |lines| == 14 && lines[9] == "" && lines[10] == "Notes:" && lines[11] == AccuracyNote
    requires lines[12] == RuntimeNote && lines[13] == ""
    requires '\n' !in ts
    requires CellText(solverRt) && CellText(baseRt) && CellText(solverAcc) && CellText(baseAcc) && CellText(speedup)
    ensures forall k :: 0 <= k < |lines| ==> '\n' !in lines[k]
  {
    HeaderHasNoBreak();
    RowHasNoBreak(RuntimeLabel, "   ", solverRt, baseRt);
    RowHasNoBreak(AccuracyLabel, " ", solverAcc, baseAcc);
    SpeedupRowHasNoBreak(speedup);
    NotesHaveNoBreak();
    assert '\n' !in lines[2];
  }

  lemma HeaderHasNoBreak()
    ensures '\n' !in Row("Metric", "                ", "Solver", "Baseline")
    ensures '\n' !in "# Solver vs baseline" && '\n' !in Separator
  {
    HeaderRowHasNoBreak();
    assert '\n' !in "|------------------------|";
    assert '\n' !in ":------:|:--------:|";
  }

  lemma HeaderRowHasNoBreak()
    ensures '\n' !in Row("Metric", "                ", "Solver", "Baseline")
  {
    RowHasNoBreak("Metric", "                ", "Solver", "Baseline");
  }

  lemma {:induction false} SpeedupRowHasNoBreak(speedup: string)
    requires '\n' !in speedup
    ensures '\n' !in Row(SpeedupLabel, "        ", speedup, "—")
  {
    RowHasNoBreak(SpeedupLabel, "        ", speedup, "—");
  }

  lemma NotesHaveNoBreak()
    ensures '\n' !in "Notes:" && '\n' !in AccuracyNote && '\n' !in RuntimeNote
  {
    AccuracyNoteHasNoBreak();
    RuntimeNoteHasNoBreak();
  }

  lemma AccuracyNoteHasNoBreak()
    ensures '\n' !in AccuracyNote
  {
    assert '\n' !in Note1;
    assert '\n' !in Note2;
    assert '\n' !in Note3;
    assert '\n' !in Note4;
    assert '\n' !in Note5;
    assert '\n' !in Note6;
    assert '\n' !in Note7;
  }

  lemma RuntimeNoteHasNoBreak()
    ensures '\n' !in RuntimeNote
  {
    assert '\n' !in Note8;
    assert '\n' !in Note9;
    assert '\n' !in Note10;
    assert '\n' !in Note11;
  }

  lemma {:induction false} RowHasNoBreak(title: string, pad: string, a: string, b: string)
    requires '\n' !in title && '\n' !in pad && '\n' !in a && '\n' !in b
    ensures '\n' !in Row(title, pad, a, b)
  {
  }

  lemma {:induction false} SeparatorMisses(title: string, tail: string)
    requires title != [] && title[0] != '-'
    ensures MatchRow(Separator + tail, title).None?
  {
    var rest := (Separator + tail)[1..];
    assert rest[0] == '-';
    LStripOfStripped(rest);
  }

  lemma {:induction false} PickAt(lines: seq<string>, title: string, i: nat)
    requires i < |lines| && MatchRow(FromLine(lines, i), title).Some?
    requires forall j :: 0 <= j < i ==> MatchRow(FromLine(lines, j), title).None?
    ensures Pick(lines, title) == MatchRow(FromLine(lines, i), title)
  {
    FirstMatchAt(seq(|lines|, k requires 0 <= k < |lines| => MatchRow(FromLine(lines, k), title)), i);
  }

  /** `[^|]+` runs on past a line break: a speedup row with one value cell
      followed by a line that starts with "|" is still matched, with the line
      break as its second cell, so the speedup is read from it. With `a` as
      "1.5" and `next` as "| x |", the text "| Speedup Factor | 1.5 |\n| x |"
      reads a speedup of "1.5". */
  lemma {:induction false} SpeedupAcrossLines(a: string, next: string)
    requires CellText(a) && '\n' !in next && next != [] && next[0] == '|'
    ensures ReadTableValues(OneCellRow(SpeedupLabel, a) + "\n" + next).speedup == Some(Strip(a))
  {
    var first := OneCellRow(SpeedupLabel, a);
    var lines := [first, next];
    var text := first + "\n" + next;
    PadKeepsOut(a, '\n');
    assert '\n' !in SpeedupLabel;
    assert '\n' !in first;
    SplitJoin(lines, '\n');
    assert Join(lines, "\n") == text by {
      assert lines[1..] == [next];
    }
    assert FromLine(lines, 0) == text by {
      assert lines[0..] == lines;
    }
    var rest := Pad1(a) + "|" + "\n" + "|" + next[1..];
    assert text == "| " + SpeedupLabel + "" + " |" + rest by {
      assert next == "|" + next[1..];
    }
    MatchRowOf(SpeedupLabel, "", rest);
    PadKeepsOut(a, '|');
    TwoCellsOf(Pad1(a), "\n", next[1..]);
    PaddedStrip(a);
    PickAt(lines, SpeedupLabel, 0);
  }

  /** A row with a title cell and a single value cell. */
  function OneCellRow(title: string, a: string): string
  {
    "| " + title + " |" + Pad1(a) + "|"
  }

  lemma {:induction false} FirstMatchAt(ms: seq<Option<(string, string)>>, i: nat)
    requires i < |ms| && ms[i].Some?
    requires forall j :: 0 <= j < i ==> ms[j].None?
    ensures FirstMatch(ms) == ms[i]
  {
    if i > 0 {
      FirstMatchAt(ms[1..], i - 1);
    }
  }
}
