/** Python's ordering of str values (code point by code point, a proper
    prefix first) and sorted(set(...)) of strings. */
module TextOrder {

  predicate Less(a: string, b: string)
  {
    if a == [] then b != []
    else if b == [] then false
    else if a[0] != b[0] then a[0] < b[0]
    else Less(a[1..], b[1..])
  }

  lemma {:induction false} LessIrreflexive(a: string)
    ensures !Less(a, a)
  {
    if a != [] { LessIrreflexive(a[1..]); }
  }

  lemma {:induction false} LessTransitive(a: string, b: string, c: string)
    requires Less(a, b) && Less(b, c)
    ensures Less(a, c)
  {
    if a != [] && b != [] && c != [] && a[0] == b[0] && b[0] == c[0] {
      LessTransitive(a[1..], b[1..], c[1..]);
    }
  }

  lemma {:induction false} LessTotal(a: string, b: string)
    ensures a == b || Less(a, b) || Less(b, a)
  {
    if a != [] && b != [] && a[0] == b[0] {
      LessTotal(a[1..], b[1..]);
      if a[1..] == b[1..] {
        assert a == [a[0]] + a[1..] && b == [b[0]] + b[1..];
      }
    }
  }

  lemma {:induction false} LessAsymmetric(a: string, b: string)
    requires Less(a, b)
    ensures !Less(b, a)
  {
    if Less(b, a) {
      LessTransitive(a, b, a);
      LessIrreflexive(a);
    }
  }

  predicate StrictlySorted(r: seq<string>)
  {
    forall p, q :: 0 <= p < q < |r| ==> Less(r[p], r[q])
  }

  /** Adds x to a strictly sorted list unless it is already there. */
  function InsertUnique(r: seq<string>, x: string): (t: seq<string>)
    requires StrictlySorted(r)
    ensures StrictlySorted(t)
    ensures forall y :: y in t <==> y in r || y == x
  {
    if r == [] then [x]
    else if x == r[0] then r
    else if Less(x, r[0]) then
      assert forall q :: 0 < q < |r| ==> Less(x, r[q]) by {
        forall q | 0 < q < |r| ensures Less(x, r[q]) { LessTransitive(x, r[0], r[q]); }
      }
      [x] + r
    else
      LessTotal(x, r[0]);
      var tail := InsertUnique(r[1..], x);
      assert forall y :: y in r <==> y == r[0] || y in r[1..];
      var t := [r[0]] + tail;
      assert forall q :: 0 < q < |t| ==> Less(r[0], t[q]) by {
        forall q | 0 < q < |t| ensures Less(r[0], t[q]) {
          assert t[q] == tail[q - 1] && tail[q - 1] in tail;
          if t[q] != x {
            var p :| 0 <= p < |r| - 1 && r[1..][p] == t[q];
            assert r[p + 1] == t[q];
          }
        }
      }
      t
  }

  /** sorted(set(xs)): the distinct elements of xs in ascending order. */
  function SortedDistinct(xs: seq<string>): (r: seq<string>)
    ensures StrictlySorted(r)
    ensures forall y :: y in r <==> y in xs
  {
    if xs == [] then []
    else
      var r := InsertUnique(SortedDistinct(xs[..|xs| - 1]), xs[|xs| - 1]);
      assert forall y :: y in xs <==> y in xs[..|xs| - 1] || y == xs[|xs| - 1] by {
        assert xs == xs[..|xs| - 1] + [xs[|xs| - 1]];
      }
      r
  }

  /** A strictly sorted list holds no element twice. */
  lemma {:induction false} SortedDistinctNoRepeats(xs: seq<string>)
    ensures var r := SortedDistinct(xs);
      forall p, q :: 0 <= p < q < |r| ==> r[p] != r[q]
  {
    var r := SortedDistinct(xs);
    forall p, q | 0 <= p < q < |r| ensures r[p] != r[q] {
      if r[p] == r[q] { LessIrreflexive(r[p]); }
    }
  }
}
