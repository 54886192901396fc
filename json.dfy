/** JSON values as json.load returns them. An object is its ordered list of
    fields (Python dicts keep insertion order); json.load never yields two
    fields with the same key, and lookups take the first field with the key. */
module JsonValue {
  import opened Common

  datatype Json =
    | JNull
    | JBool(b: bool)
    | JInt(i: int)
    | JReal(r: real)
    | JStr(s: string)
    | JArr(elems: seq<Json>)
    | JObj(fields: seq<(string, Json)>)

  type Fields = seq<(string, Json)>

  predicate HasKey(fields: Fields, k: string)
  {
    exists i :: 0 <= i < |fields| && fields[i].0 == k
  }

  /** d[k] / d.get(k): the value of the first field named k. */
  function Get(fields: Fields, k: string): (r: Option<Json>)
    ensures r.Some? <==> HasKey(fields, k)
    ensures r.Some? ==> exists i :: 0 <= i < |fields| && fields[i] == (k, r.value)
  {
    if fields == [] then None
    else if fields[0].0 == k then Some(fields[0].1)
    else
      var r := Get(fields[1..], k);
      HasKeyTail(fields, k, r);
      r
  }

  lemma {:induction false} HasKeyTail(fields: Fields, k: string, r: Option<Json>)
    requires fields != [] && fields[0].0 != k
    requires r.Some? <==> HasKey(fields[1..], k)
    requires r.Some? ==> exists i :: 0 <= i < |fields[1..]| && fields[1..][i] == (k, r.value)
    ensures r.Some? <==> HasKey(fields, k)
    ensures r.Some? ==> exists i :: 0 <= i < |fields| && fields[i] == (k, r.value)
  {
    if HasKey(fields, k) {
      var i :| 0 <= i < |fields| && fields[i].0 == k;
      assert fields[1..][i - 1] == fields[i];
    }
    if r.Some? {
      var i :| 0 <= i < |fields[1..]| && fields[1..][i] == (k, r.value);
      assert fields[i + 1] == (k, r.value);
    }
  }

  /** The first field named k decides the lookup. */
  lemma {:induction false} GetFirst(fields: Fields, k: string, i: nat)
    requires i < |fields| && fields[i].0 == k
    requires forall j :: 0 <= j < i ==> fields[j].0 != k
    ensures Get(fields, k) == Some(fields[i].1)
  {
    if i > 0 {
      GetFirst(fields[1..], k, i - 1);
    }
  }

  /** d.get(k, default). */
  function GetOr(fields: Fields, k: string, default: Json): Json
  {
    match Get(fields, k)
    case Some(v) => v
    case None => default
  }

  /** d[k] = v: replace the value in place when k is present, else append the field. */
  function SetField(fields: Fields, k: string, v: Json): (r: Fields)
    ensures Get(r, k) == Some(v)
    ensures forall k' :: k' != k ==> Get(r, k') == Get(fields, k')
  {
    if fields == [] then [(k, v)]
    else if fields[0].0 == k then [(k, v)] + fields[1..]
    else
      var r := [fields[0]] + SetField(fields[1..], k, v);
      assert r[1..] == SetField(fields[1..], k, v);
      r
  }

  /** Python truthiness: None, False, 0, 0.0, "", [] and {} are false. */
  predicate Truthy(j: Json)
  {
    match j
    case JNull => false
    case JBool(b) => b
    case JInt(i) => i != 0
    case JReal(r) => r != 0.0
    case JStr(s) => s != []
    case JArr(a) => a != []
    case JObj(f) => f != []
  }

  /** Python's `a or b`. */
  function Or(a: Json, b: Json): Json
  {
    if Truthy(a) then a else b
  }

  /** isinstance(j, (int, float)) and its value; a bool is an int in Python. */
  function AsNumber(j: Json): Option<real>
  {
    match j
    case JBool(b) => Some(if b then 1.0 else 0.0)
    case JInt(i) => Some(i as real)
    case JReal(r) => Some(r)
    case _ => None
  }

  /** float(j); None where float() raises (None, lists, dicts, text that is no number). */
  function PyFloat(j: Json): Option<real>
  {
    match j
    case JStr(s) => ParseFloat(s)
    case _ => AsNumber(j)
  }
}
