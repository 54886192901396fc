/** The order Python's stable list.sort(key=...) puts the indices 0..n-1 in:
    ascending by key, and indices with equal keys keep their original order.
    A descending sort with reverse=True is the ascending sort of the negated
    key, which CPython also keeps stable. */
module StableOrder {

  /** Index a is placed strictly before index b. */
  predicate Before(keys: seq<real>, a: nat, b: nat)
    requires a < |keys| && b < |keys|
  {
    keys[a] < keys[b] || (keys[a] == keys[b] && a < b)
  }

  predicate InRange(keys: seq<real>, order: seq<nat>)
  {
    forall k :: 0 <= k < |order| ==> order[k] < |keys|
  }

  predicate Sorted(keys: seq<real>, order: seq<nat>)
    requires InRange(keys, order)
  {
    forall p, q :: 0 <= p < q < |order| ==> Before(keys, order[p], order[q])
  }

  /** Inserts index i after every already placed index that does not sort after it. */
  function Insert(keys: seq<real>, order: seq<nat>, i: nat): (r: seq<nat>)
    requires i < |keys| && InRange(keys, order)
    requires Sorted(keys, order)
    requires forall k :: 0 <= k < |order| ==> order[k] < i
    ensures |r| == |order| + 1 && InRange(keys, r)
    ensures forall x :: x in r <==> x in order || x == i
    ensures Sorted(keys, r)
  {
    if order == [] then [i]
    else if keys[i] < keys[order[0]] then
      assert forall q :: 0 < q < |order| ==> keys[order[0]] <= keys[order[q]] by {
        forall q | 0 < q < |order| ensures keys[order[0]] <= keys[order[q]] {
          assert Before(keys, order[0], order[q]);
        }
      }
      [i] + order
    else
      var tail := Insert(keys, order[1..], i);
      assert forall x :: x in order <==> x == order[0] || x in order[1..];
      var r := [order[0]] + tail;
      assert forall q :: 0 < q < |r| ==> Before(keys, order[0], r[q]) by {
        forall q | 0 < q < |r| ensures Before(keys, order[0], r[q]) {
          if r[q] != i {
            assert r[q] in order[1..];
            var p :| 0 <= p < |order[1..]| && order[1..][p] == r[q];
            assert Before(keys, order[0], order[p + 1]);
          }
        }
      }
      r
  }

  /** The sorted order of the first n indices. */
  function OrderOf(keys: seq<real>, n: nat): (r: seq<nat>)
    requires n <= |keys|
    ensures |r| == n && InRange(keys, r)
    ensures forall x: nat :: x in r <==> x < n
    ensures Sorted(keys, r)
  {
    if n == 0 then []
    else
      var placed := OrderOf(keys, n - 1);
      assert forall k :: 0 <= k < |placed| ==> placed[k] in placed;
      Insert(keys, placed, n - 1)
  }

  /** sorted(range(len(keys)), key=lambda i: keys[i]). */
  function Order(keys: seq<real>): (r: seq<nat>)
    ensures |r| == |keys| && InRange(keys, r)
    ensures forall x: nat :: x in r <==> x < |keys|
    ensures Sorted(keys, r)
  {
    OrderOf(keys, |keys|)
  }

  /** The order lists every index exactly once and its keys never decrease. */
  lemma {:induction false} OrderIsPermutation(keys: seq<real>)
    ensures forall p, q :: 0 <= p < q < |Order(keys)| ==> Order(keys)[p] != Order(keys)[q]
    ensures forall p, q :: 0 <= p <= q < |Order(keys)| ==> keys[Order(keys)[p]] <= keys[Order(keys)[q]]
  {
    var r := Order(keys);
    forall p, q | 0 <= p < q < |r| ensures r[p] != r[q] && keys[r[p]] <= keys[r[q]] {
      assert Before(keys, r[p], r[q]);
    }
  }

  /** Keys never decrease along the order. */
  lemma {:induction false} OrderMonotone(keys: seq<real>, p: nat, q: nat)
    requires p <= q < |keys|
    ensures keys[Order(keys)[p]] <= keys[Order(keys)[q]]
  {
    if p < q {
      assert Before(keys, Order(keys)[p], Order(keys)[q]);
    }
  }
}
