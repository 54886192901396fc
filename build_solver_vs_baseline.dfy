/** The solver-versus-baseline comparison of build_solver_vs_baseline.py:
    canonical instance ids, field lookup with aliases, the record read from
    each result file, the per-instance index and the comparison rows. */
module SolverVsBaseline {
  import opened Common
  import opened JsonValue
  import TextOrder

  // ---------------------------------------------------------------------
  // Canonical instance ids

  /** A leading `\d{8}T\d{6}Z_` token: an ISO 8601 basic UTC stamp and '_'. */
  predicate HasTimestampPrefix(s: string)
  {
    |s| >= 17 && AllDigits(s[..8]) && s[8] == 'T' && AllDigits(s[9..15])
    && s[15] == 'Z' && s[16] == '_'
  }

  function StripTimestamp(s: string): (r: string)
    ensures HasTimestampPrefix(s) ==> r == s[17..]
    ensures !HasTimestampPrefix(s) ==> r == s
  {
    if HasTimestampPrefix(s) then s[17..] else s
  }

  /** `_pulp`, `_solver` or `_baseline` in any (ASCII) case. */
  predicate IsTag(t: string)
  {
    var l := Lower(t);
    l == "_pulp" || l == "_solver" || l == "_baseline"
  }

  /** The length of the tag s ends with, if any. */
  function TagAtEnd(s: string): (r: Option<nat>)
    ensures r.Some? ==> r.value <= |s| && IsTag(s[|s| - r.value..])
  {
    if |s| >= 5 && IsTag(s[|s| - 5..]) then Some(5)
    else if |s| >= 7 && IsTag(s[|s| - 7..]) then Some(7)
    else if |s| >= 9 && IsTag(s[|s| - 9..]) then Some(9)
    else None
  }

  /** The tag pattern is anchored with `$`, which also matches just before a
      final line break: the break stays. */
  predicate HasTagSuffix(s: string)
  {
    TagAtEnd(s).Some? || (|s| > 0 && s[|s| - 1] == '\n' && TagAtEnd(s[..|s| - 1]).Some?)
  }

  function StripTag(s: string): (r: string)
    ensures !HasTagSuffix(s) ==> r == s
  {
    match TagAtEnd(s)
    case Some(n) => s[..|s| - n]
    case None =>
      if |s| > 0 && s[|s| - 1] == '\n' then
        match TagAtEnd(s[..|s| - 1])
        case Some(n) => s[..|s| - 1 - n] + "\n"
        case None => s
      else s
  }

  /** norm_instance_from_name: file name without directory and extension,
      then without one timestamp prefix and one tag suffix. */
  function NormInstanceFromName(name: string): (r: string)
    ensures '/' !in r
  {
    var b := Basename(name);
    var stem := Stem(b);
    StemKeepsNoSlash(b);
    var t := StripTimestamp(stem);
    var r := StripTag(t);
    StripTagKeepsNoSlash(t);
    r
  }

  /** The stem of a slash-free base name is slash-free. */
  lemma {:induction false} StemKeepsNoSlash(b: string)
    requires '/' !in b
    ensures '/' !in Stem(b) && '/' !in StripTimestamp(Stem(b))
  {
    var stem := Stem(b);
    assert stem == b[..|stem|];
    forall k | 0 <= k < |stem| ensures stem[k] != '/' { assert stem[k] == b[k]; }
    var t := StripTimestamp(stem);
    if HasTimestampPrefix(stem) {
      forall k | 0 <= k < |t| ensures t[k] != '/' { assert t[k] == stem[k + 17]; }
    }
  }

  /** Dropping a tag adds no '/'. */
  lemma {:induction false} StripTagKeepsNoSlash(t: string)
    requires '/' !in t
    ensures '/' !in StripTag(t)
  {
    var r := StripTag(t);
    if TagAtEnd(t).Some? {
      forall k | 0 <= k < |r| ensures r[k] != '/' { assert r[k] == t[k]; }
    } else if |t| > 0 && t[|t| - 1] == '\n' && TagAtEnd(t[..|t| - 1]).Some? {
      forall k | 0 <= k < |r| ensures r[k] != '/' {
        if k < |r| - 1 { assert r[k] == t[k]; }
      }
    }
  }

  /** A tag is found whole at the end of any text it ends: the shorter tag
      lengths never match a tail of a longer tag. */
  lemma {:induction false} TagAtEndOf(id: string, tag: string)
    requires IsTag(tag)
    ensures TagAtEnd(id + tag) == Some(|tag|)
  {
    var s := id + tag;
    var l := Lower(tag);
    assert |l| == |tag|;
    assert s[|s| - |tag|..] == tag;
    if |tag| > 5 {
      assert s[|s| - 5..] == tag[|tag| - 5..];
      assert Lower(tag[|tag| - 5..])[0] == l[|tag| - 5] != '_';
    }
    if |tag| > 7 {
      assert s[|s| - 7..] == tag[|tag| - 7..];
      assert Lower(tag[|tag| - 7..])[0] == l[|tag| - 7] != '_';
    }
  }

  /** A timestamped, tagged file name comes back as the id between stamp and tag. */
  lemma {:induction false} NormStampedName(stamp: string, id: string, tag: string, ext: string)
    requires |stamp| == 17 && HasTimestampPrefix(stamp)
    requires '/' !in id && IsTag(tag) && '/' !in tag && '.' !in tag
    requires '/' !in ext && '.' !in ext
    ensures NormInstanceFromName(stamp + id + tag + "." + ext) == id
  {
    var stem := stamp + (id + tag);
    StampShape(stamp);
    assert stem[0] == stamp[0];
    assert '/' !in stem;
    assert stem + "." + ext == stamp + id + tag + "." + ext;
    StemOfName(stem, ext);
    StripStamp(stamp, id + tag);
    StripTagOf(id, tag);
    NormSteps(stem + "." + ext);
  }

  /** The steps of norm_instance_from_name, one after the other. */
  lemma {:induction false} NormSteps(name: string)
    ensures NormInstanceFromName(name) == StripTag(StripTimestamp(Stem(Basename(name))))
  {
  }

  /** A stamp holds no '/' and does not start with '.'. */
  lemma {:induction false} StampShape(stamp: string)
    requires |stamp| == 17 && HasTimestampPrefix(stamp)
    ensures '/' !in stamp && stamp[0] != '.'
  {
    assert stamp[..8][0] == stamp[0] && IsDigit(stamp[0]);
    forall k | 0 <= k < 17 ensures stamp[k] != '/' {
      if k < 8 { assert stamp[..8][k] == stamp[k]; }
      else if 9 <= k < 15 { assert stamp[9..15][k - 9] == stamp[k]; }
    }
  }

  /** One stamp is dropped from the front. */
  lemma {:induction false} StripStamp(stamp: string, rest: string)
    requires |stamp| == 17 && HasTimestampPrefix(stamp)
    ensures StripTimestamp(stamp + rest) == rest
  {
    var s := stamp + rest;
    assert s[..8] == stamp[..8] && s[9..15] == stamp[9..15];
    assert s[17..] == rest;
  }

  /** One tag is dropped from the end. */
  lemma {:induction false} StripTagOf(id: string, tag: string)
    requires IsTag(tag)
    ensures StripTag(id + tag) == id
  {
    TagAtEndOf(id, tag);
    assert (id + tag)[..|id + tag| - |tag|] == id;
  }

  /** The worked example: directory-free file name with stamp and tag. */
  lemma NormExample()
    ensures NormInstanceFromName("20240101T000000Z_" + "inst_a" + "_pulp" + "." + "json") == "inst_a"
  {
    var stamp := "20240101T000000Z_";
    assert HasTimestampPrefix(stamp) by {
      assert AllDigits(stamp[..8]) && AllDigits(stamp[9..15]);
    }
    TagWords();
    NormStampedName(stamp, "inst_a", "_pulp", "json");
  }

  /** The tag words are their own lower-case form. */
  lemma TagWords()
    ensures IsTag("_pulp") && IsTag("_solver") && IsTag("_baseline")
  {
    assert Lower("_pulp") == "_pulp" && Lower("_solver") == "_solver" && Lower("_baseline") == "_baseline";
  }

  /** A name without directory, extension, stamp or tag is its own id. */
  lemma {:induction false} NormIdentity(name: string)
    requires '/' !in name && '.' !in name
    requires !HasTimestampPrefix(name) && !HasTagSuffix(name)
    ensures NormInstanceFromName(name) == name
  {
  }

  /** Only one tag is stripped, so normalising twice can change the id again. */
  lemma NormNotIdempotent()
    ensures NormInstanceFromName("x_solver_pulp") == "x_solver"
    ensures NormInstanceFromName("x_solver") == "x"
  {
    NormOnce();
    NormTwice();
  }

  lemma NormOnce()
    ensures NormInstanceFromName("x_solver_pulp") == "x_solver"
  {
    var a := "x_solver_pulp";
    assert '/' !in a && '.' !in a;
    assert Basename(a) == a && Stem(a) == a;
    assert a[8] != 'T';
    assert StripTimestamp(a) == a;
    assert a[8..] == "_pulp" && Lower("_pulp") == "_pulp";
    assert TagAtEnd(a) == Some(5);
    assert StripTag(a) == a[..8];
    NormSteps(a);
  }

  lemma NormTwice()
    ensures NormInstanceFromName("x_solver") == "x"
  {
    var b := "x_solver";
    assert '/' !in b && '.' !in b;
    assert Basename(b) == b && Stem(b) == b;
    assert StripTimestamp(b) == b;
    assert b[3..] == "olver" && Lower("olver")[0] == 'o';
    assert b[1..] == "_solver" && Lower("_solver") == "_solver";
    assert TagAtEnd(b) == Some(7);
    assert StripTag(b) == b[..1];
    NormSteps(b);
  }

  // ---------------------------------------------------------------------
  // Field lookup

  /** The value reached by following `segs` through nested dicts; None when
      some segment is not a key of a dict. */
  function Lookup(d: Json, segs: seq<string>): Option<Json>
    decreases |segs|
  {
    if segs == [] then Some(d)
    else match d
      case JObj(f) =>
        (match Get(f, segs[0])
         case Some(v) => Lookup(v, segs[1..])
         case None => None)
      case _ => None
  }

  /** A walk along a + b is the walk along a followed by the walk along b. */
  lemma {:induction false} LookupAppend(d: Json, a: seq<string>, b: seq<string>)
    ensures Lookup(d, a + b) == match Lookup(d, a) case None => None case Some(x) => Lookup(x, b)
    decreases |a|
  {
    if a != [] {
      assert (a + b)[1..] == a[1..] + b && (a + b)[0] == a[0];
      if d.JObj? && Get(d.fields, a[0]).Some? {
        LookupAppend(Get(d.fields, a[0]).value, a[1..], b);
      }
    } else {
      assert a + b == b;
    }
  }

  /** dig(d, path) as a value: None (JNull) when the path is missing. */
  function DigPath(d: Json, path: string): Json
  {
    match Lookup(d, Split(path, '.'))
    case Some(v) => v
    case None => JNull
  }

  /** dig: walk the dotted path one segment at a time. */
  method Dig(d: Json, path: string) returns (r: Json)
    ensures r == DigPath(d, path)
  {
    var segs := Split(path, '.');
    var cur := d;
    for k := 0 to |segs|
      invariant Lookup(d, segs) == Lookup(cur, segs[k..])
    {
      assert segs[k..][1..] == segs[k + 1..];
      if cur.JObj? && HasKey(cur.fields, segs[k]) {
        cur := Get(cur.fields, segs[k]).value;
      } else {
        return JNull;
      }
    }
    assert segs[|segs|..] == [];
    r := cur;
  }

  /** For a key without dots, dig and d.get agree. */
  lemma {:induction false} DigDotless(f: Fields, k: string)
    requires '.' !in k
    ensures DigPath(JObj(f), k) == GetOr(f, k, JNull)
  {
    SplitFree(k, '.');
    assert [k][1..] == [] && [k][0] == k;
    match Get(f, k)
    case Some(v) => assert Lookup(JObj(f), [k]) == Lookup(v, []) == Some(v);
    case None => assert Lookup(JObj(f), [k]) == None;
  }

  /** The value first() takes for one alias. */
  function Alias(d: Fields, k: string): Json
  {
    if '.' in k then DigPath(JObj(d), k) else GetOr(d, k, JNull)
  }

  /** first(d, keys): the value of the first alias whose value is not None. */
  function First(d: Fields, keys: seq<string>): (r: Json)
    ensures r == JNull <==> forall i :: 0 <= i < |keys| ==> Alias(d, keys[i]) == JNull
    ensures r != JNull ==> exists i :: 0 <= i < |keys| && r == Alias(d, keys[i])
                                     && forall j :: 0 <= j < i ==> Alias(d, keys[j]) == JNull
  {
    if keys == [] then JNull
    else if Alias(d, keys[0]) != JNull then Alias(d, keys[0])
    else
      var r := First(d, keys[1..]);
      assert forall i :: 0 < i < |keys| ==> keys[i] == keys[1..][i - 1];
      if r != JNull then
        var i :| 0 <= i < |keys[1..]| && r == Alias(d, keys[1..][i])
                 && forall j :: 0 <= j < i ==> Alias(d, keys[1..][j]) == JNull;
        assert r == Alias(d, keys[i + 1]);
        r
      else r
  }

  /** A name with a dot-free extension normalises like its stem. */
  lemma {:induction false} NormOfStem(stem: string, ext: string)
    requires '/' !in stem && '.' !in stem && stem != [] && '/' !in ext && '.' !in ext
    ensures NormInstanceFromName(stem + "." + ext) == NormInstanceFromName(stem)
  {
    assert stem[0] != '.';
    StemOfName(stem, ext);
  }

  /** Nothing is found in an empty dict. */
  lemma {:induction false} FirstOfEmpty(keys: seq<string>)
    ensures First([], keys) == JNull
  {
    forall i | 0 <= i < |keys| ensures Alias([], keys[i]) == JNull {
      var segs := Split(keys[i], '.');
      assert Lookup(JObj([]), segs) == None;
    }
  }

  /** to_float: float(x), with None wherever float() raises. */
  function ToFloat(x: Json): Option<real>
  {
    PyFloat(x)
  }

  /** to_float is tolerant of surrounding whitespace. */
  lemma {:induction false} ToFloatPadded(digits: string, pre: string, post: string)
    requires digits != [] && AllDigits(digits) && AllSpace(pre) && AllSpace(post)
    ensures ToFloat(JStr(pre + digits + post)) == Some(DigitsValue(digits) as real)
  {
    StripPadded(pre, digits, post);
    ParseFloatDigits(digits);
    assert ParseFloat(pre + digits + post) == ParseFloat(digits);
  }

  // ---------------------------------------------------------------------
  // Records

  /** One record of load_records. `solver` is kept as the JSON value read
      (str() of it is what the table shows). */
  datatype Rec = Rec(
    instance: string,
    rawInstance: string,
    solver: Json,
    objective: Option<real>,
    runtime: Option<real>,
    status: Json,
    selected: Json,
    totalWeight: Json,
    source: string,
    isBaseline: bool,
    displayName: string)

  /** Why the per-record mapping raises. */
  datatype LoadCrash =
    | DataNotObject     // data.get on a top-level value that is not a dict
    | InstanceNotText   // os.path.basename on a truthy non-string instance
    | SolverNotText     // solver.lower() on a truthy non-string solver (baseline hint)

  const InstanceKeys: seq<string> := ["instance", "Instance", "instance_id"]
  const SolverKeys: seq<string> := ["solver", "metrics.solver"]
  const ObjectiveKeys: seq<string> := ["objective", "metrics.objective", "metrics.objective_value"]
  const RuntimeKeys: seq<string> := ["runtime_s", "metrics.runtime_s", "metrics.runtime_sec", "runtime_seconds"]
  const StatusKeys: seq<string> := ["status", "metrics.status"]
  const SelectedKeys: seq<string> := ["selected", "metrics.selected"]
  const TotalWeightKeys: seq<string> := ["total_weight", "metrics.total_weight"]

  /** Exact-solver names that the baseline hint relabels. */
  predicate IsBackendName(s: string)
  {
    var l := Lower(s);
    l == "pulp" || l == "cbc" || l == "gurobi" || l == "solver"
  }

  /** `int(x) if isinstance(x, (int, float, str)) and str(x).isdigit() else x`:
      only a digit string changes (int(n) is n, and str() of a float always
      holds a non-digit). */
  function IntIfDigits(x: Json): (r: Json)
    ensures x.JStr? && x.s != [] && AllDigits(x.s) ==> r == JInt(DigitsValue(x.s))
    ensures !(x.JStr? && x.s != [] && AllDigits(x.s)) ==> r == x
  {
    match x
    case JStr(s) => if s != [] && AllDigits(s) then JInt(DigitsValue(s)) else x
    case _ => x
  }

  /** The instance id the record is filed under, before normalisation. */
  function RawInstance(fn: string, d: Fields): Result<string, LoadCrash>
  {
    var found := First(d, InstanceKeys);
    if !Truthy(found) then Ok(NormInstanceFromName(fn))
    else if found.JStr? then Ok(found.s)
    else Err(InstanceNotText)
  }

  /** The solver label after the defaults and the baseline relabelling. */
  function SolverLabel(d: Fields, hint: bool): (r: Result<Json, LoadCrash>)
    ensures hint && r.Ok? ==> r.value.JStr? && !IsBackendName(r.value.s)
    ensures !Truthy(First(d, SolverKeys)) ==> r == Ok(JStr(if hint then "baseline" else "unknown"))
    ensures !hint ==> r.Ok?
    ensures var first := First(d, SolverKeys);
      && (Truthy(first) && !hint ==> r == Ok(first))
      && (Truthy(first) && hint && !first.JStr? ==> r == Err(SolverNotText))
      && (Truthy(first) && hint && first.JStr? ==>
            r == Ok(JStr(if IsBackendName(first.s) then "baseline" else first.s)))
  {
    Relabel(First(d, SolverKeys), hint)
  }

  /** The relabelling of the solver value `first` found in the record. */
  function Relabel(first: Json, hint: bool): (r: Result<Json, LoadCrash>)
    ensures hint && r.Ok? ==> r.value.JStr? && !IsBackendName(r.value.s)
    ensures !Truthy(first) ==> r == Ok(JStr(if hint then "baseline" else "unknown"))
    ensures !hint ==> r.Ok?
    ensures Truthy(first) && !hint ==> r == Ok(first)
    ensures Truthy(first) && hint && !first.JStr? ==> r == Err(SolverNotText)
    ensures Truthy(first) && hint && first.JStr? ==>
      r == Ok(JStr(if IsBackendName(first.s) then "baseline" else first.s))
  {
    var found := Or(first, JStr(if hint then "baseline" else "unknown"));
    assert Lower("baseline") == "baseline";
    if !hint then Ok(found)
    else if !found.JStr? then Err(SolverNotText)
    else if IsBackendName(found.s) then Ok(JStr("baseline"))
    else Ok(found)
  }

  /** The per-record mapping of load_records for file `fn` (no directory)
      holding `data`; `source` is the file's path relative to the script. */
  function LoadRecord(fn: string, data: Json, hint: bool, source: string): (r: Result<Rec, LoadCrash>)
    ensures r == Err(DataNotObject) <==> !data.JObj?
    ensures data.JObj? ==>
      var d := data.fields;
      var inst, solver := First(d, InstanceKeys), First(d, SolverKeys);
      var badInst := Truthy(inst) && !inst.JStr?;
      var badSolver := hint && Truthy(solver) && !solver.JStr?;
      && (r == Err(InstanceNotText) <==> badInst)
      && (r == Err(SolverNotText) <==> !badInst && badSolver)
      && (r.Ok? <==> !badInst && !badSolver)
    ensures r.Ok? ==>
      var rec := r.value;
      var d := data.fields;
      (Truthy(First(d, InstanceKeys)) ==> rec.rawInstance == First(d, InstanceKeys).s)
      && rec.solver == Relabel(First(d, SolverKeys), hint).value
      && rec.selected == IntIfDigits(First(d, SelectedKeys))
      && rec.totalWeight == IntIfDigits(First(d, TotalWeightKeys))
      && rec.source == source
    ensures r.Ok? ==>
      var rec := r.value;
      var d := data.fields;
      rec.instance == NormInstanceFromName(rec.rawInstance)
      && (!Truthy(First(d, InstanceKeys)) ==> rec.rawInstance == NormInstanceFromName(fn))
      && rec.objective == ToFloat(First(d, ObjectiveKeys))
      && rec.runtime == ToFloat(First(d, RuntimeKeys))
      && (Truthy(First(d, StatusKeys)) ==> rec.status == First(d, StatusKeys))
      && (!Truthy(First(d, StatusKeys)) ==> rec.status == JStr("-"))
      && rec.isBaseline == hint
      && (hint ==> rec.solver.JStr? && !IsBackendName(rec.solver.s) && rec.displayName == Stem(fn))
      && (!hint ==> rec.displayName == rec.instance)
  {
    match data
    case JObj(d) =>
      (match RawInstance(fn, d)
       case Err(e) => Err(e)
       case Ok(inst) =>
         match SolverLabel(d, hint)
         case Err(e) => Err(e)
         case Ok(solver) =>
           var normInst := NormInstanceFromName(inst);
           var status := First(d, StatusKeys);
           Ok(Rec(
             normInst, inst, solver,
             ToFloat(First(d, ObjectiveKeys)),
             ToFloat(First(d, RuntimeKeys)),
             if Truthy(status) then status else JStr("-"),
             IntIfDigits(First(d, SelectedKeys)),
             IntIfDigits(First(d, TotalWeightKeys)),
             source, hint,
             if hint then Stem(fn) else normInst)))
    case _ => Err(DataNotObject)
  }

  /** A stamp-free, directory-free, extension-free name loses exactly its
      final tag. */
  lemma {:induction false} NormTagged(base: string, tag: string)
    requires base != [] && !IsDigit(base[0]) && '/' !in base && '.' !in base
    requires IsTag(tag) && '/' !in tag && '.' !in tag
    ensures NormInstanceFromName(base + tag) == base
  {
    var s := base + tag;
    assert s[0] == base[0];
    assert '/' !in s && '.' !in s;
    assert |s| >= 8 ==> s[..8][0] == s[0];
    assert StripTimestamp(s) == s;
    TagAtEndOf(base, tag);
    assert s[..|s| - |tag|] == base;
  }

  /** A result file that names no instance is filed under the id derived
      from its file name, normalised a second time: a name ending in two
      tags loses both. */
  lemma {:induction false} FilenameIdNormalisedTwice(id: string, tag1: string, tag2: string, source: string)
    requires id != [] && !IsDigit(id[0]) && '/' !in id && '.' !in id
    requires IsTag(tag1) && IsTag(tag2) && '/' !in tag1 + tag2 && '.' !in tag1 + tag2
    ensures var r := LoadRecord(id + tag1 + tag2 + ".json", JObj([]), false, source);
      r.Ok? && r.value.rawInstance == id + tag1 && r.value.instance == id
      && r.value.solver == JStr("unknown") && r.value.status == JStr("-")
      && r.value.objective == None
  {
    var t := id + tag1;
    var stem := t + tag2;
    var fn := stem + ".json";
    assert fn == stem + "." + "json";
    assert t[0] == id[0] && stem[0] == id[0];
    assert '/' !in stem && '.' !in stem;
    NormOfStem(stem, "json");
    NormTagged(t, tag2);
    NormTagged(id, tag1);
    assert RawInstance(fn, []) == Ok(t) by {
      FirstOfEmpty(InstanceKeys);
    }
    assert SolverLabel([], false) == Ok(JStr("unknown")) by {
      FirstOfEmpty(SolverKeys);
    }
    FirstOfEmpty(StatusKeys);
    FirstOfEmpty(ObjectiveKeys);
  }

  /** One directory entry as load_records sees it: its name, the parsed JSON
      (None when opening or parsing fails) and its relative path. */
  datatype Entry = Entry(name: string, content: Option<Json>, source: string)

  /** The records of a directory listing, in listing order: non-".json"
      names and unreadable files are skipped; a crash stops the load. */
  function Records(entries: seq<Entry>, hint: bool): (r: Result<seq<Rec>, LoadCrash>)
    ensures r.Ok? ==> |r.value| <= |entries|
    ensures r.Ok? ==> forall k :: 0 <= k < |r.value| ==> r.value[k].isBaseline == hint
  {
    if entries == [] then Ok([])
    else
      match Records(entries[..|entries| - 1], hint)
      case Err(e) => Err(e)
      case Ok(recs) =>
        var e := entries[|entries| - 1];
        if !EndsWith(e.name, ".json") || e.content.None? then Ok(recs)
        else match LoadRecord(e.name, e.content.value, hint, e.source)
          case Err(c) => Err(c)
          case Ok(rec) => Ok(recs + [rec])
  }

  /** A crash ends the load: later entries are not read. */
  lemma {:induction false} RecordsCrashStops(entries: seq<Entry>, hint: bool, k: nat)
    requires k <= |entries| && Records(entries[..k], hint).Err?
    ensures Records(entries, hint) == Records(entries[..k], hint)
    decreases |entries|
  {
    if k == |entries| {
      assert entries[..k] == entries;
    } else {
      var prefix := entries[..|entries| - 1];
      assert prefix[..k] == entries[..k];
      RecordsCrashStops(prefix, hint, k);
    }
  }

  /** load_records over an already listed and parsed directory. */
  method LoadRecords(entries: seq<Entry>, hint: bool) returns (r: Result<seq<Rec>, LoadCrash>)
    ensures r == Records(entries, hint)
  {
    var recs: seq<Rec> := [];
    for k := 0 to |entries|
      invariant Records(entries[..k], hint) == Ok(recs)
    {
      var next := LoadEntry(entries, hint, k, recs);
      if next.Err? {
        RecordsCrashStops(entries, hint, k + 1);
        return next;
      }
      recs := next.value;
    }
    assert entries[..|entries|] == entries;
    r := Ok(recs);
  }

  /** Reads entry k after a clean load of the ones before it. */
  method LoadEntry(entries: seq<Entry>, hint: bool, k: nat, recs: seq<Rec>) returns (r: Result<seq<Rec>, LoadCrash>)
    requires k < |entries| && Records(entries[..k], hint) == Ok(recs)
    ensures r == Records(entries[..k + 1], hint)
  {
    var e := entries[k];
    RecordsStep(entries, hint, k);
    r := Ok(recs);
    if EndsWith(e.name, ".json") && e.content.Some? {
      var rec := LoadRecord(e.name, e.content.value, hint, e.source);
      if rec.Err? {
        return Err(rec.error);
      }
      r := Ok(recs + [rec.value]);
    }
  }

  /** Loading one more entry after a clean prefix. */
  lemma {:induction false} RecordsStep(entries: seq<Entry>, hint: bool, k: nat)
    requires k < |entries| && Records(entries[..k], hint).Ok?
    ensures var recs := Records(entries[..k], hint).value;
      var e := entries[k];
      Records(entries[..k + 1], hint)
        == if !EndsWith(e.name, ".json") || e.content.None? then Ok(recs)
           else match LoadRecord(e.name, e.content.value, hint, e.source)
             case Err(c) => Err(c)
             case Ok(rec) => Ok(recs + [rec])
  {
    assert entries[..k + 1][..k] == entries[..k];
  }

  // ---------------------------------------------------------------------
  // Index, union and rows

  /** The position of the last record filed under id. */
  function LastWith(recs: seq<Rec>, id: string): (j: nat)
    requires id in Ids(recs)
    ensures j < |recs| && recs[j].instance == id
    ensures forall j' :: j < j' < |recs| ==> recs[j'].instance != id
  {
    if recs[|recs| - 1].instance == id then |recs| - 1
    else
      var prefix := recs[..|recs| - 1];
      assert id in Ids(prefix) by {
        var j :| 0 <= j < |recs| && Ids(recs)[j] == id;
        assert Ids(prefix)[j] == id;
      }
      LastWith(prefix, id)
  }

  /** {r["instance"]: r for r in recs}: every record's id is a key and maps
      to the last record filed under it, since a later record overwrites an
      earlier one. */
  function IndexByInstance(recs: seq<Rec>): (m: map<string, Rec>)
    ensures forall j :: 0 <= j < |recs| ==> recs[j].instance in m
    ensures forall k :: k in m ==> m[k] in recs && m[k].instance == k
    ensures forall j :: 0 <= j < |recs| && (forall j' :: j < j' < |recs| ==> recs[j'].instance != recs[j].instance)
                        ==> m[recs[j].instance] == recs[j]
  {
    var m := map k | k in Ids(recs) :: recs[LastWith(recs, k)];
    assert forall j :: 0 <= j < |recs| ==> recs[j].instance in Ids(recs) by {
      forall j | 0 <= j < |recs| ensures recs[j].instance in Ids(recs) { assert Ids(recs)[j] == recs[j].instance; }
    }
    m
  }

  function Ids(recs: seq<Rec>): (ids: seq<string>)
    ensures |ids| == |recs| && forall j :: 0 <= j < |recs| ==> ids[j] == recs[j].instance
  {
    seq(|recs|, j requires 0 <= j < |recs| => recs[j].instance)
  }

  /** m.get(k). */
  function AtKey(m: map<string, Rec>, k: string): Option<Rec>
  {
    if k in m then Some(m[k]) else None
  }

  /** A comparison row. The display cells come from the challenger record
      (`-` when absent) and the baseline record; a delta is None where the
      table shows `-`. */
  datatype Row = Row(
    instance: string,
    challenger: Option<Rec>,
    baseline: Option<Rec>,
    objDelta: Option<real>,
    timeDelta: Option<real>,
    source: string,
    baselineSource: string)

  /** x - y when both exist. */
  function Diff(x: Option<real>, y: Option<real>): Option<real>
  {
    if x.Some? && y.Some? then Some(x.value - y.value) else None
  }

  /** One row: the id, both records, challenger-minus-baseline deltas that
      exist only when both records and both values exist, and the source of
      the challenger record, else of the baseline record. */
  function MakeRow(inst: string, s: Option<Rec>, b: Option<Rec>): (r: Row)
    ensures r.instance == inst && r.challenger == s && r.baseline == b
    ensures r.objDelta.Some? <==> s.Some? && b.Some? && s.value.objective.Some? && b.value.objective.Some?
    ensures r.objDelta.Some? ==> r.objDelta.value == s.value.objective.value - b.value.objective.value
    ensures r.timeDelta.Some? <==> s.Some? && b.Some? && s.value.runtime.Some? && b.value.runtime.Some?
    ensures r.timeDelta.Some? ==> r.timeDelta.value == s.value.runtime.value - b.value.runtime.value
    ensures r.source == if s.Some? then s.value.source else if b.Some? then b.value.source else "-"
  {
    var both := s.Some? && b.Some?;
    Row(inst, s, b,
        if both then Diff(s.value.objective, b.value.objective) else None,
        if both then Diff(s.value.runtime, b.value.runtime) else None,
        if s.Some? then s.value.source else if b.Some? then b.value.source else "-",
        if b.Some? then b.value.source else "-")
  }

  /** sorted(set(sol_by_inst.keys()) | set(base_by_inst.keys())). */
  function UnionIds(solverRecs: seq<Rec>, baselineRecs: seq<Rec>): seq<string>
  {
    TextOrder.SortedDistinct(Ids(solverRecs) + Ids(baselineRecs))
  }

  /** The keys of the index are the ids of the records. */
  lemma {:induction false} IndexKeys(recs: seq<Rec>)
    ensures forall id :: id in IndexByInstance(recs) <==> id in Ids(recs)
  {
    var m := IndexByInstance(recs);
    forall id ensures id in m <==> id in Ids(recs) {
      if id in m {
        var j :| 0 <= j < |recs| && recs[j] == m[id];
        assert Ids(recs)[j] == id;
      }
      if id in Ids(recs) {
        var j :| 0 <= j < |recs| && Ids(recs)[j] == id;
      }
    }
  }

  /** The row ids are ascending, distinct, and exactly the keys of the two
      indexes. */
  lemma {:induction false} UnionIdsAreKeys(solverRecs: seq<Rec>, baselineRecs: seq<Rec>)
    ensures TextOrder.StrictlySorted(UnionIds(solverRecs, baselineRecs))
    ensures forall id :: id in UnionIds(solverRecs, baselineRecs) <==>
                         id in IndexByInstance(solverRecs) || id in IndexByInstance(baselineRecs)
  {
    IndexKeys(solverRecs);
    IndexKeys(baselineRecs);
  }

  /** The rows of the table: one per id in the sorted union of both sides,
      joining the last challenger and the last baseline record for the id. */
  method BuildRows(solverRecs: seq<Rec>, baselineRecs: seq<Rec>) returns (rows: seq<Row>)
    ensures var ids := UnionIds(solverRecs, baselineRecs);
      |rows| == |ids|
      && forall k :: 0 <= k < |rows| ==>
           rows[k] == MakeRow(ids[k], AtKey(IndexByInstance(solverRecs), ids[k]),
                              AtKey(IndexByInstance(baselineRecs), ids[k]))
  {
    var solBy := IndexByInstance(solverRecs);
    var baseBy := IndexByInstance(baselineRecs);
    var instances := UnionIds(solverRecs, baselineRecs);
    rows := [];
    for k := 0 to |instances|
      invariant |rows| == k
      invariant forall p :: 0 <= p < k ==>
        rows[p] == MakeRow(instances[p], AtKey(solBy, instances[p]), AtKey(baseBy, instances[p]))
    {
      var inst := instances[k];
      rows := rows + [MakeRow(inst, AtKey(solBy, inst), AtKey(baseBy, inst))];
    }
  }
}
