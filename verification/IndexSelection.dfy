/**
 The three ways a compactor picks the tokens a head keeps: a recent window plus top scores,
 the hybrid of recency, attention mass and importance, and greedy matching pursuit.
 numpy's argsort is a parameter that may break ties in any way; all tie-breaks are covered.
 */
module IndexSelection {
  import opened Arith
  import opened Wrappers
  import opened Orders

  ghost predicate Distinct(s: seq<nat>) {
    forall a, b :: 0 <= a < b < |s| ==> s[a] != s[b]
  }

  ghost predicate Below(s: seq<nat>, n: nat) {
    forall a :: 0 <= a < |s| ==> s[a] < n
  }

  ghost predicate Sorts(argsort: seq<Score> -> seq<nat>) {
    forall s: seq<Score> :: IsDescending(argsort(s), s)
  }

  function Elements(s: seq<nat>): set<nat> {
    set q | q in s
  }

  lemma {:induction false} ElementCount(s: seq<nat>)
    requires Distinct(s)
    ensures |Elements(s)| == |s|
  {
    if s != [] {
      var last := s[|s| - 1];
      ElementCount(s[..|s| - 1]);
      assert last !in s[..|s| - 1];
      AppendElement(s[..|s| - 1], last);
      assert s[..|s| - 1] + [last] == s;
    }
  }

  lemma AppendElement(s: seq<nat>, x: nat)
    ensures Elements(s + [x]) == Elements(s) + {x}
  {}

  // ---------------------------------------------------------------- recent window plus top scores

  /** The distinct indices in increasing order. */
  function Unique(s: set<nat>, n: nat): (r: seq<nat>)
    requires forall q :: q in s ==> q < n
    ensures |r| == |s| && forall q: nat :: q in r <==> q in s
    ensures forall a, b :: 0 <= a < b < |r| ==> r[a] < r[b]
  {
    if n == 0 then assert s == {}; []
    else if n - 1 in s then
      var rest := Unique(s - {n - 1}, n - 1);
      assert forall a :: 0 <= a < |rest| ==> rest[a] in rest;
      rest + [n - 1]
    else Unique(s, n - 1)
  }

  ghost predicate MaskedFrom(masked: seq<Score>, scores: seq<real>, start: nat) {
    && |masked| == |scores|
    && forall q :: 0 <= q < |scores| ==> masked[q] == if q < start then Some(scores[q]) else None
  }

  lemma OrderOf(order: seq<nat>, masked: seq<Score>, scores: seq<real>, start: nat)
    requires IsDescending(order, masked) && MaskedFrom(masked, scores, start)
    ensures |order| == |scores| && Distinct(order) && Below(order, |scores|)
  {}

  /** What a descending order of the masked scores puts in its first c places. */
  lemma UnmaskedFirst(order: seq<nat>, masked: seq<Score>, scores: seq<real>, start: nat, c: nat)
    requires MaskedFrom(masked, scores, start) && start <= |scores| && IsDescending(order, masked)
    requires c <= |scores|
    ensures c <= start ==> forall a :: 0 <= a < c ==> order[a] < start
    ensures c >= start ==> forall q: nat :: q < start ==> q in order[..c]
  {
    hide IsDescending, Interval;
    UnmaskedCount(masked, scores, start);
    OrderOf(order, masked, scores, start);
    MaskHoldsIff(order, masked, c);
    if c >= start {
      MaskHoldsIff(order, masked, start);
      FirstAreAll(order[..start]);
      assert forall q: nat :: q < start ==> q in order[..start];
      assert order[..c][..start] == order[..start];
      PrefixHolds(order[..c], start);
    }
  }

  lemma PrefixHolds(s: seq<nat>, k: nat)
    requires k <= |s|
    ensures forall q :: q in s[..k] ==> q in s
  {}

  lemma UnmaskedCount(masked: seq<Score>, scores: seq<real>, start: nat)
    requires MaskedFrom(masked, scores, start) && start <= |scores|
    ensures |set q | 0 <= q < |masked| && masked[q].Some?| == start
  {
    assert (set q | 0 <= q < |masked| && masked[q].Some?) == Interval(0, start);
    IntervalSize(0, start);
  }

  /** n distinct indices below n are all of them. */
  lemma FirstAreAll(s: seq<nat>)
    requires Distinct(s) && Below(s, |s|)
    ensures forall q: nat :: q < |s| ==> q in s
  {
    ElementCount(s);
    IntervalSize(0, |s|);
    forall q: nat | q < |s| ensures q in s {
      if q !in Elements(s) { SubsetSize(Elements(s) + {q}, Interval(0, |s|)); }
    }
  }

  lemma ElementsBelow(s: seq<nat>, n: nat)
    requires Below(s, n)
    ensures forall q :: q in Elements(s) ==> q < n
  {}

  lemma ElementsCover(s: seq<nat>, n: nat)
    requires forall q: nat :: q < n ==> q in s
    ensures forall q: nat :: q < n ==> q in Elements(s)
  {}

  /** The recent window is kept, and no dropped index scores above a kept older one. */
  ghost predicate KeepsTop(sel: set<nat>, scores: seq<real>, start: nat) {
    && (forall q :: q in sel ==> q < |scores|)
    && (forall q: nat :: start <= q < |scores| ==> q in sel)
    && (forall kept, dropped :: kept in sel && kept < start && 0 <= dropped < |scores| && dropped !in sel ==>
          scores[kept] >= scores[dropped])
  }

  lemma UnionIsTop(order: seq<nat>, masked: seq<Score>, scores: seq<real>, start: nat, need: nat, sel: set<nat>)
    requires MaskedFrom(masked, scores, start) && start <= |scores| && IsDescending(order, masked)
    requires need <= |scores| && sel == Interval(start, |scores|) + Elements(order[..need])
    ensures KeepsTop(sel, scores, start)
  {
    forall kept, dropped | kept in sel && kept < start && 0 <= dropped < |scores| && dropped !in sel
      ensures scores[kept] >= scores[dropped]
    {
      var b := PlaceOf(order, |scores|, dropped);
      var a := PlaceAmong(order, need, kept);
      PlacedAmong(order, need, b);
      Outranks(order, masked, scores, start, a, b);
    }
  }

  lemma PlacedAmong(order: seq<nat>, need: nat, b: nat)
    requires need <= |order| && b < |order|
    ensures b < need ==> order[b] in order[..need]
  {
    assert forall c :: 0 <= c < need ==> order[..need][c] == order[c];
  }

  lemma PlaceAmong(order: seq<nat>, need: nat, q: nat) returns (a: nat)
    requires need <= |order| && q in order[..need]
    ensures a < need && order[a] == q
  {
    a :| 0 <= a < need && order[..need][a] == q;
  }

  lemma Outranks(order: seq<nat>, masked: seq<Score>, scores: seq<real>, start: nat, a: nat, b: nat)
    requires MaskedFrom(masked, scores, start) && IsDescending(order, masked) && a < b < |order|
    ensures order[a] < |scores| && order[b] < |scores|
    ensures order[a] < start && order[b] < start ==> scores[order[a]] >= scores[order[b]]
  {
    DescendingAt(order, masked, a, b);
    hide IsDescending;
  }

  lemma UnionSize(order: seq<nat>, masked: seq<Score>, scores: seq<real>, start: nat, need: nat, sel: set<nat>)
    requires MaskedFrom(masked, scores, start) && start <= |scores| && IsDescending(order, masked)
    requires need <= |scores| && sel == Interval(start, |scores|) + Elements(order[..need])
    ensures |sel| == Min(|scores| - start + need, |scores|)
  {
    hide IsDescending, MaskedFrom, Interval, Elements;
    OrderOf(order, masked, scores, start);
    UnmaskedFirst(order, masked, scores, start, need);
    var first := order[..need];
    ElementCount(first);
    IntervalSize(start, |scores|);
    IntervalSize(0, |scores|);
    if need <= start {
      ElementsBelow(first, start);
      assert Interval(start, |scores|) !! Elements(first);
    } else {
      ElementsBelow(first, |scores|);
      ElementsCover(first, start);
      assert sel == Interval(0, |scores|);
    }
  }

  /** A copy of the scores with the last `recent` places masked. */
  method MaskRecent(scores: seq<real>, recent: nat) returns (masked: seq<Score>)
    requires recent <= |scores|
    ensures MaskedFrom(masked, scores, |scores| - recent)
  {
    var copy := new Score[|scores|](q requires 0 <= q < |scores| => Some(scores[q]));
    for q := |scores| - recent to |scores|
      invariant forall p :: 0 <= p < |scores| ==>
                  copy[p] == if |scores| - recent <= p < q then None else Some(scores[p])
    {
      copy[q] := None;
    }
    masked := copy[..];
  }

  /** The recent window, and the first places of the order of the masked scores if more is wanted. */
  method Union(scores: seq<real>, recent: nat, need: nat, argsort: seq<Score> -> seq<nat>) returns (sel: set<nat>)
    requires recent <= |scores| && Sorts(argsort)
    ensures KeepsTop(sel, scores, |scores| - recent) && |sel| == Min(recent + need, |scores|)
  {
    var start := |scores| - recent;
    IntervalSize(start, |scores|);
    sel := Interval(start, |scores|);
    if need > 0 {
      var masked := MaskRecent(scores, recent);
      var order := argsort(masked);
      var taken := Min(need, |scores|);
      sel := sel + Elements(order[..taken]);
      UnionIsTop(order, masked, scores, start, taken, sel);
      UnionSize(order, masked, scores, start, taken, sel);
    }
  }

  /** min(t, T) tokens, in increasing order: the whole recent window and the best-scoring older ones. */
  method TopKWithRecent(scores: seq<real>, t: nat, requested: nat, argsort: seq<Score> -> seq<nat>)
    returns (sel: seq<nat>)
    requires Sorts(argsort)
    ensures |sel| == Min(t, |scores|)
    ensures forall a, b :: 0 <= a < b < |sel| ==> sel[a] < sel[b]
    ensures KeepsTop(Elements(sel), scores, |scores| - Min(requested, Min(t, |scores|)))
  {
    hide Unique;
    var recent := Min(requested, Min(t, |scores|));
    var chosen := Union(scores, recent, t - recent, argsort);
    sel := Unique(chosen, |scores|);
    assert Elements(sel) == chosen;
  }

  // ---------------------------------------------------------------- hybrid

  /** The first k indices of an order that were not seen before. */
  function FirstUnseen(order: seq<nat>, seen: set<nat>, k: int): seq<nat> {
    if order == [] || k <= 0 then []
    else if order[0] in seen then FirstUnseen(order[1..], seen, k)
    else [order[0]] + FirstUnseen(order[1..], seen + {order[0]}, k - 1)
  }

  /** Picks are new and distinct; fewer than k picks means the order ran out. */
  lemma {:induction false} PicksAreNew(order: seq<nat>, seen: set<nat>, k: int)
    ensures var p := FirstUnseen(order, seen, k);
            && |p| <= Min(|order|, if k < 0 then 0 else k)
            && Distinct(p)
            && (forall x :: x in p ==> x in order && x !in seen)
            && (|p| < k ==> forall x :: x in order ==> x in seen || x in p)
  {
    hide Distinct;
    if order == [] || k <= 0 {
      NoneDistinct();
    } else {
      if order[0] in seen {
        PicksAreNew(order[1..], seen, k);
      } else {
        PicksAreNew(order[1..], seen + {order[0]}, k - 1);
        PrependNew(order[0], order[1..], FirstUnseen(order[1..], seen + {order[0]}, k - 1), seen);
      }
      assert order == [order[0]] + order[1..];
    }
  }

  lemma NoneDistinct()
    ensures Distinct([])
  {}

  lemma PrependNew(x: nat, order: seq<nat>, rest: seq<nat>, seen: set<nat>)
    requires Distinct(rest) && x !in seen && forall y :: y in rest ==> y in order && y !in seen + {x}
    ensures Distinct([x] + rest)
    ensures forall y :: y in [x] + rest ==> y in [x] + order && y !in seen
  {
    assert forall a :: 0 <= a < |rest| ==> rest[a] in rest;
  }

  /** x comes strictly before y in the order. */
  ghost predicate Precedes(order: seq<nat>, x: nat, y: nat) {
    exists a, b :: 0 <= a < b < |order| && order[a] == x && order[b] == y
  }

  lemma PrecedesShift(order: seq<nat>, x: nat, y: nat)
    requires order != [] && Precedes(order[1..], x, y)
    ensures Precedes(order, x, y)
  {
    var a, b :| 0 <= a < b < |order[1..]| && order[1..][a] == x && order[1..][b] == y;
    assert order[a + 1] == x && order[b + 1] == y;
  }

  /** Every pick comes before everything that was passed over. */
  lemma {:induction false} PicksComeFirst(order: seq<nat>, seen: set<nat>, k: int, x: nat, y: nat)
    requires x in FirstUnseen(order, seen, k)
    requires y in order && y !in seen && y !in FirstUnseen(order, seen, k)
    ensures Precedes(order, x, y)
  {
    if order[0] in seen {
      PicksComeFirst(order[1..], seen, k, x, y);
      PrecedesShift(order, x, y);
    } else {
      var rest := FirstUnseen(order[1..], seen + {order[0]}, k - 1);
      assert FirstUnseen(order, seen, k) == [order[0]] + rest;
      assert y != order[0] && y in order[1..] && y !in rest;
      if x == order[0] {
        var b :| 0 <= b < |order[1..]| && order[1..][b] == y;
        assert order[0] == x && order[b + 1] == y;
      } else {
        PicksComeFirst(order[1..], seen + {order[0]}, k - 1, x, y);
        PrecedesShift(order, x, y);
      }
    }
  }

  /** How many picks an order of all n indices yields. */
  lemma PickCount(order: seq<nat>, n: nat, seen: set<nat>, k: nat)
    requires IsOrder(order, n) && forall q :: q in seen ==> q < n
    ensures |seen| <= n && |FirstUnseen(order, seen, k)| == Min(k, n - |seen|)
  {
    var p := FirstUnseen(order, seen, k);
    PicksAreNew(order, seen, k);
    ElementCount(p);
    var both := seen + Elements(p);
    assert seen !! Elements(p);
    IntervalSize(0, n);
    SubsetSize(both, Interval(0, n));
    if |p| < k { CoverSize(order, n, both); }
  }

  lemma {:induction false} AllNew(order: seq<nat>, seen: set<nat>, k: nat)
    requires Distinct(order) && forall x :: x in order ==> x !in seen
    ensures FirstUnseen(order, seen, k) == order[..Min(k, |order|)]
  {
    if order != [] && k > 0 {
      forall x | x in order[1..] ensures x !in seen + {order[0]} {
        var a :| 0 <= a < |order[1..]| && order[1..][a] == x;
        assert order[0] != order[a + 1];
      }
      AllNew(order[1..], seen + {order[0]}, k - 1);
    }
  }

  /** The two collections that the selection's inner function updates. */
  class Picker {
    var chosen: seq<nat>
    var seen: set<nat>

    constructor ()
      ensures chosen == [] && seen == {}
    {
      chosen, seen := [], {};
    }

    method Take(order: seq<nat>, wanted: int)
      modifies this
      ensures chosen == old(chosen) + FirstUnseen(order, old(seen), wanted)
      ensures seen == old(seen) + Elements(FirstUnseen(order, old(seen), wanted))
    {
      hide FirstUnseen, Elements;
      var k, j := wanted, 0;
      ghost var picked: seq<nat> := [];
      assert order[0..] == order && Elements([]) == {} by { NoElements(); }
      while j < |order| && k > 0
        invariant 0 <= j <= |order|
        invariant chosen == old(chosen) + picked && seen == old(seen) + Elements(picked)
        invariant FirstUnseen(order, old(seen), wanted) == picked + FirstUnseen(order[j..], seen, k)
      {
        var i := order[j];
        UnseenStep(order, j, seen, k);
        if i !in seen {
          AppendElement(picked, i);
          seen := seen + {i};
          chosen := chosen + [i];
          picked := picked + [i];
          k := k - 1;
        }
        j := j + 1;
      }
      UnseenDone(order[j..], seen, k);
      assert picked + [] == picked;
    }
  }

  lemma NoElements()
    ensures Elements([]) == {}
  {}

  lemma UnseenStep(order: seq<nat>, j: nat, seen: set<nat>, k: int)
    requires j < |order| && k > 0
    ensures FirstUnseen(order[j..], seen, k) ==
            if order[j] in seen then FirstUnseen(order[j + 1..], seen, k)
            else [order[j]] + FirstUnseen(order[j + 1..], seen + {order[j]}, k - 1)
  {
    assert order[j..][1..] == order[j + 1..];
  }

  lemma UnseenDone(rest: seq<nat>, seen: set<nat>, k: int)
    requires rest == [] || k <= 0
    ensures FirstUnseen(rest, seen, k) == []
  {}

  ghost predicate Beats(picks: seq<nat>, scores: seq<Score>, kept: seq<nat>) {
    forall x, q :: x in picks && x < |scores| && 0 <= q < |scores| && q !in kept ==> AtLeast(scores[x], scores[q])
  }

  /** Picks from a descending order score at least what stays out of seen and picks. */
  lemma PicksBeat(order: seq<nat>, scores: seq<Score>, before: seq<nat>, k: int)
    requires IsDescending(order, scores)
    ensures var p := FirstUnseen(order, Elements(before), k); Beats(p, scores, before + p)
  {
    var p := FirstUnseen(order, Elements(before), k);
    forall x, q | x in p && x < |scores| && 0 <= q < |scores| && q !in before + p
      ensures AtLeast(scores[x], scores[q])
    {
      assert q !in before && q !in p && q in order;
      PicksComeFirst(order, Elements(before), k, x, q);
      var a, b :| 0 <= a < b < |order| && order[a] == x && order[b] == q;
    }
  }

  lemma Concat(a: seq<nat>, b: seq<nat>, n: nat)
    requires Distinct(a) && Distinct(b) && Below(a, n)
    requires forall x :: x in b ==> x !in a && x < n
    ensures Distinct(a + b) && Below(a + b, n)
  {
    forall i | 0 <= i < |a + b| ensures (a + b)[i] < n {
      if i >= |a| { assert b[i - |a|] in b; }
    }
    forall i, j | 0 <= i < j < |a + b| ensures (a + b)[i] != (a + b)[j] {
      if i < |a| <= j { assert b[j - |a|] in b; }
    }
  }

  /** One take from an order of all indices keeps the choice duplicate-free and in range. */
  lemma TakeExtends(order: seq<nat>, n: nat, before: seq<nat>, k: nat)
    requires IsOrder(order, n) && Distinct(before) && Below(before, n)
    ensures var after := before + FirstUnseen(order, Elements(before), k);
            Distinct(after) && Below(after, n) && |before| <= n && |after| == |before| + Min(k, n - |before|)
  {
    var p := FirstUnseen(order, Elements(before), k);
    ElementCount(before);
    PickCount(order, n, Elements(before), k);
    PicksAreNew(order, Elements(before), k);
    forall x | x in p ensures x < n {
      var a :| 0 <= a < |order| && order[a] == x;
    }
    Concat(before, p, n);
  }

  function Newest(n: nat): (r: seq<nat>)
    ensures |r| == n && forall a :: 0 <= a < n ==> r[a] == n - 1 - a
  {
    seq(n, a requires 0 <= a < n => n - 1 - a)
  }

  lemma NewestIsOrder(n: nat)
    ensures IsOrder(Newest(n), n)
  {
    forall q: nat | q < n ensures q in Newest(n) {
      assert Newest(n)[n - 1 - q] == q;
    }
  }

  lemma RecentStage(n: nat, k: nat)
    ensures var p := FirstUnseen(Newest(n), {}, k);
            && p == Newest(n)[..Min(k, n)] && [] + p == p
            && (forall a :: 0 <= a < |p| ==> p[a] == n - 1 - a)
            && Distinct(p) && Below(p, n) && {} + Elements(p) == Elements(p)
  {
    NewestIsOrder(n);
    AllNew(Newest(n), {}, k);
  }

  lemma ScoredStage(argsort: seq<Score> -> seq<nat>, scores: seq<Score>, before: seq<nat>, k: nat)
    requires Sorts(argsort) && Distinct(before) && Below(before, |scores|)
    ensures |before| <= |scores|
    ensures var p := FirstUnseen(argsort(scores), Elements(before), k);
            var after := before + p;
            && Distinct(after) && Below(after, |scores|) && |p| == Min(k, |scores| - |before|)
            && Beats(p, scores, after)
            && Elements(before) + Elements(p) == Elements(after)
            && after[..|before|] == before && after[|before|..] == p && after[..|after|] == after
  {
    hide FirstUnseen;
    TakeExtends(argsort(scores), |scores|, before, k);
    PicksBeat(argsort(scores), scores, before, k);
  }

  /**
   min(t, T) distinct tokens: the newest first, then the heaviest by attention mass among the rest,
   then the most important among what is left.
   */
  method SelectHybrid(mass: seq<Score>, importance: seq<Score>, t: nat, recentShare: nat, massShare: nat,
                      argsort: seq<Score> -> seq<nat>)
    returns (chosen: seq<nat>, ghost r: nat, ghost m: nat)
    requires |mass| == |importance| && Sorts(argsort)
    ensures |chosen| == Min(t, |mass|) && Distinct(chosen) && Below(chosen, |mass|)
    ensures r == Min(recentShare, |chosen|) && m == Min(massShare, |chosen| - r)
    ensures forall a :: 0 <= a < r ==> chosen[a] == |mass| - 1 - a
    ensures Beats(chosen[r..r + m], mass, chosen[..r + m])
    ensures Beats(chosen[r + m..], importance, chosen)
  {
    hide *;
    var T := |mass|;
    var nRecent := Min(recentShare, t);
    var nMass := Min(massShare, t - nRecent);
    var picker := new Picker();
    picker.Take(Newest(T), nRecent);
    RecentStage(T, nRecent);
    ghost var c0 := picker.chosen;

    picker.Take(argsort(mass), nMass);
    ScoredStage(argsort, mass, c0, nMass);
    ghost var c1 := picker.chosen;

    picker.Take(argsort(importance), t - |picker.chosen|);
    ScoredStage(argsort, importance, c1, t - |c1|);
    chosen := picker.chosen;
    r, m := |c0|, |c1| - |c0|;
    assert c0 == chosen[..r];
  }

  // ---------------------------------------------------------------- greedy matching pursuit

  /** The first index with the greatest score. */
  method ArgMax(scores: seq<Score>) returns (j: nat)
    requires |scores| > 0
    ensures j < |scores| && forall q :: 0 <= q < |scores| ==> AtLeast(scores[j], scores[q])
    ensures forall q :: 0 <= q < j ==> !AtLeast(scores[q], scores[j])
  {
    j := 0;
    for i := 1 to |scores|
      invariant 0 <= j < i && forall q :: 0 <= q < i ==> AtLeast(scores[j], scores[q])
      invariant forall q :: 0 <= q < j ==> !AtLeast(scores[q], scores[j])
    {
      if scores[i].Some? && (scores[j].None? || scores[i].value > scores[j].value) { j := i; }
    }
  }

  lemma SomeoneLeft(selected: seq<nat>, n: nat) returns (q: nat)
    requires |selected| < n && Distinct(selected) && Below(selected, n)
    ensures q < n && q !in selected
  {
    ElementCount(selected);
    IntervalSize(0, n);
    if Interval(0, n) <= Elements(selected) {
      SubsetSize(Interval(0, n), Elements(selected));
      assert false;
    }
    q :| q in Interval(0, n) && q !in Elements(selected);
  }

  /** The exponentiated logits, one row a query, one column a key, with everything the fit needs of them. */
  datatype Fit = Fit(phi: seq<seq<real>>, norms: seq<real>, nnls: seq<nat> -> seq<real>) {
    /** Rows are as wide as there are keys, norms are positive, and a refit weighs each selected key. */
    ghost predicate Shaped(n: nat) {
      && |norms| == n && (forall q :: 0 <= q < n ==> norms[q] > 0.0)
      && (forall r :: 0 <= r < |phi| ==> |phi[r]| == n)
      && (forall s {:trigger nnls(s)} :: |nnls(s)| == |s|)
    }

    /** The total mass of query r. */
    function Mass(r: nat, k: nat): real
      requires r < |phi| && k <= |phi[r]|
    {
      if k == 0 then 0.0 else Mass(r, k - 1) + phi[r][k - 1]
    }

    /** What the selected columns, so weighted, give query r. */
    function Fitted(r: nat, selected: seq<nat>, w: seq<real>): real
      requires r < |phi| && |selected| == |w| && Below(selected, |phi[r]|)
    {
      if selected == [] then 0.0 else
        var k := |selected| - 1;
        Fitted(r, selected[..k], w[..k]) + phi[r][selected[k]] * w[k]
    }

    /** The mass that the refit over the selected keys leaves unexplained, per query. */
    function Residual(n: nat, selected: seq<nat>): (res: seq<real>)
      requires Shaped(n) && Below(selected, n)
      ensures |res| == |phi|
      ensures forall r :: 0 <= r < |phi| ==> res[r] + Fitted(r, selected, nnls(selected)) == Mass(r, n)
    {
      seq(|phi|, r requires 0 <= r < |phi| => Mass(r, n) - Fitted(r, selected, nnls(selected)))
    }

    function Product(q: nat, residual: seq<real>, k: nat): real
      requires k <= |phi| == |residual| && forall r :: 0 <= r < |phi| ==> q < |phi[r]|
    {
      if k == 0 then 0.0 else Product(q, residual, k - 1) + phi[k - 1][q] * residual[k - 1]
    }

    /** How well key q's column lines up with the residual. */
    function Correlation(n: nat, q: nat, residual: seq<real>): real
      requires Shaped(n) && q < n && |residual| == |phi|
    {
      Abs(Product(q, residual, |phi|)) / norms[q]
    }
  }

  /** The i-th selection lines up with the residual of its moment at least as well as any key still free. */
  ghost predicate Greedy(f: Fit, n: nat, selected: seq<nat>, i: nat)
    requires f.Shaped(n) && Below(selected, n) && i < |selected|
  {
    var residual := f.Residual(n, selected[..i]);
    forall q :: 0 <= q < n && q !in selected[..i] ==> LinesUpBetter(f, n, residual, selected[i], q)
  }

  function Abs(x: real): real { if x < 0.0 then -x else x }

  /** Key j's column, over its norm, has at least as large a product with the residual as key q's, whatever its sign. */
  ghost predicate LinesUpBetter(f: Fit, n: nat, residual: seq<real>, j: nat, q: nat)
    requires f.Shaped(n) && j < n && q < n && |residual| == |f.phi|
  {
    Abs(f.Product(j, residual, |f.phi|)) * f.norms[q] >= Abs(f.Product(q, residual, |f.phi|)) * f.norms[j]
  }

  lemma CorrelationCompares(f: Fit, n: nat, residual: seq<real>, j: nat, q: nat)
    requires f.Shaped(n) && j < n && q < n && |residual| == |f.phi|
    requires f.Correlation(n, j, residual) >= f.Correlation(n, q, residual)
    ensures LinesUpBetter(f, n, residual, j, q)
  {
    hide Fit.Product;
    CrossMultiply(Abs(f.Product(j, residual, |f.phi|)), f.norms[j], Abs(f.Product(q, residual, |f.phi|)), f.norms[q]);
  }

  lemma CrossMultiply(a: real, x: real, b: real, y: real)
    requires x > 0.0 && y > 0.0 && a / x >= b / y
    ensures a * y >= b * x
  {
    var u, v := a / x, b / y;
    assert a == u * x && b == v * y;
    assert a * y == u * (x * y) && b * x == v * (x * y);
    ScaleKeeps(v, u, x * y);
  }

  lemma ScaleKeeps(a: real, b: real, c: real)
    requires a <= b && c >= 0.0
    ensures a * c <= b * c
  {}

  /** min(t, T) distinct keys, each the best one left for the residual that the refit before it leaves. */
  method SelectOmp(f: Fit, n: nat, t: nat) returns (selected: seq<nat>)
    requires f.Shaped(n)
    ensures |selected| == Min(t, n) && Distinct(selected) && Below(selected, n)
    ensures forall i :: 0 <= i < |selected| ==> Greedy(f, n, selected, i)
  {
    hide Fit.Correlation, Fit.Mass, Fit.Fitted;
    selected := [];
    var residual := seq(|f.phi|, r requires 0 <= r < |f.phi| => f.Mass(r, n));
    NothingFitted(f, n, residual);
    for i := 0 to Min(t, n)
      invariant |selected| == i && Distinct(selected) && Below(selected, n)
      invariant residual == f.Residual(n, selected)
      invariant forall a :: 0 <= a < i ==> Greedy(f, n, selected, a)
    {
      var corr := seq(n, q requires 0 <= q < n => f.Correlation(n, q, residual));
      var masked := seq(n, q requires 0 <= q < n => if q in selected then None else Some(corr[q]));
      var j := ArgMax(masked);
      PickIsGreedy(f, n, selected, residual, masked, j);
      selected := selected + [j];
      var w := f.nnls(selected);
      residual := seq(|f.phi|, r requires 0 <= r < |f.phi| => f.Mass(r, n) - f.Fitted(r, selected, w));
    }
  }

  lemma NothingFitted(f: Fit, n: nat, residual: seq<real>)
    requires f.Shaped(n) && |residual| == |f.phi| && forall r :: 0 <= r < |f.phi| ==> residual[r] == f.Mass(r, n)
    ensures residual == f.Residual(n, [])
  {
    assert f.nnls([]) == [];
  }

  /** The greatest unmasked correlation belongs to a free key, and picking it is greedy. */
  lemma PickIsGreedy(f: Fit, n: nat, selected: seq<nat>, residual: seq<real>, masked: seq<Score>, j: nat)
    requires f.Shaped(n) && Distinct(selected) && Below(selected, n) && |selected| < n
    requires residual == f.Residual(n, selected) && |masked| == n && j < n
    requires forall q :: 0 <= q < n ==>
               masked[q] == if q in selected then None else Some(f.Correlation(n, q, residual))
    requires forall q :: 0 <= q < n ==> AtLeast(masked[j], masked[q])
    requires forall a :: 0 <= a < |selected| ==> Greedy(f, n, selected, a)
    ensures Distinct(selected + [j]) && Below(selected + [j], n)
    ensures forall a :: 0 <= a <= |selected| ==> Greedy(f, n, selected + [j], a)
  {
    hide Fit.Correlation, Fit.Residual, LinesUpBetter;
    var free := SomeoneLeft(selected, n);
    assert AtLeast(masked[j], masked[free]);
    var after := selected + [j];
    assert after[..|selected|] == selected;
    forall a | 0 <= a < |selected| ensures Greedy(f, n, after, a) {
      assert after[..a] == selected[..a];
      assert Greedy(f, n, selected, a);
    }
    forall q | 0 <= q < n && q !in selected ensures LinesUpBetter(f, n, residual, j, q) {
      assert AtLeast(masked[j], masked[q]);
      CorrelationCompares(f, n, residual, j, q);
    }
  }
}
