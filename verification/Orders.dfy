/**
 Index orders as argsort returns them, with scores that may be masked to minus infinity.
 */
module Orders {
  import opened Wrappers

  /** A score; None stands for minus infinity. */
  type Score = Option<real>

  ghost predicate AtLeast(a: Score, b: Score) {
    b.None? || (a.Some? && a.value >= b.value)
  }

  ghost predicate IsOrder(order: seq<nat>, n: nat) {
    && |order| == n
    && (forall a :: 0 <= a < n ==> order[a] < n)
    && (forall a, b :: 0 <= a < b < n ==> order[a] != order[b])
    && (forall q: nat :: q < n ==> q in order)
  }

  ghost predicate IsDescending(order: seq<nat>, scores: seq<Score>) {
    IsOrder(order, |scores|) && forall a, b :: 0 <= a < b < |scores| ==> AtLeast(scores[order[a]], scores[order[b]])
  }

  lemma DescendingAt(order: seq<nat>, scores: seq<Score>, i: nat, j: nat)
    requires IsDescending(order, scores) && i < j < |order|
    ensures order[i] < |scores| && order[j] < |scores| && AtLeast(scores[order[i]], scores[order[j]])
  {}

  lemma PlaceOf(order: seq<nat>, n: nat, q: nat) returns (i: nat)
    requires IsOrder(order, n) && q < n
    ensures i < |order| == n && order[i] == q
  {
    assert q in order;
    i :| 0 <= i < |order| && order[i] == q;
  }

  function Interval(lo: nat, hi: nat): (r: set<nat>)
    ensures forall q: nat :: q in r <==> lo <= q < hi
  {
    if lo < hi then Interval(lo, hi - 1) + {hi - 1} else {}
  }

  lemma {:induction false} IntervalSize(lo: nat, hi: nat)
    ensures |Interval(lo, hi)| == if lo < hi then hi - lo else 0
  {
    if lo < hi { IntervalSize(lo, hi - 1); }
  }

  /** Elements of an order's first c places. */
  lemma {:induction false} PrefixSize(order: seq<nat>, c: nat)
    requires c <= |order| && forall a, b :: 0 <= a < b < |order| ==> order[a] != order[b]
    ensures |set a | 0 <= a < c :: order[a]| == c
  {
    if c > 0 {
      PrefixSize(order, c - 1);
      var smaller := set a | 0 <= a < c - 1 :: order[a];
      assert (set a | 0 <= a < c :: order[a]) == smaller + {order[c - 1]};
      assert order[c - 1] !in smaller;
    }
  }

  /** Where a descending order turns from scored to masked tokens. */
  lemma {:induction false} Turn(order: seq<nat>, scores: seq<Score>, i: nat) returns (c: nat)
    requires IsDescending(order, scores) && i <= |order|
    ensures c <= i
    ensures forall a :: 0 <= a < c ==> scores[order[a]].Some?
    ensures forall a :: c <= a < i ==> scores[order[a]].None?
  {
    if i == 0 {
      c := 0;
    } else {
      c := Turn(order, scores, i - 1);
      if scores[order[i - 1]].Some? {
        assert forall a :: 0 <= a < i - 1 ==> AtLeast(scores[order[a]], scores[order[i - 1]]);
        c := i;
      }
    }
  }

  /** Masking keeps a token from being picked exactly as long as there are enough unmasked ones. */
  lemma MaskHoldsIff(order: seq<nat>, scores: seq<Score>, k: nat)
    requires IsDescending(order, scores) && k <= |scores|
    ensures (forall a :: 0 <= a < k ==> scores[order[a]].Some?) <==>
            k <= |set q | 0 <= q < |scores| && scores[q].Some?|
  {
    var c := Turn(order, scores, |order|);
    PrefixSize(order, c);
    var first := set a | 0 <= a < c :: order[a];
    var scored := set q | 0 <= q < |scores| && scores[q].Some?;
    forall q | q in scored ensures q in first {
      assert q in order;
      var a :| 0 <= a < |order| && order[a] == q;
    }
    assert first == scored;
    if k > c { assert scores[order[c]].None?; }
  }

  lemma {:induction false} SubsetSize(a: set<nat>, b: set<nat>)
    requires a <= b
    ensures |a| <= |b|
  {
    if x :| x in a {
      assert (a - {x}) + {x} == a && (b - {x}) + {x} == b;
      SubsetSize(a - {x}, b - {x});
    }
  }

  /** A set that holds every index of an order is at least as large as the order. */
  lemma CoverSize(order: seq<nat>, n: nat, s: set<nat>)
    requires IsOrder(order, n) && forall q: nat :: q < n ==> q in s
    ensures |s| >= n
  {
    PrefixSize(order, n);
    SubsetSize(set a | 0 <= a < n :: order[a], s);
  }
}
