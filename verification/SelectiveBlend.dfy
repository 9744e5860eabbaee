/**
 The selection of high-deviation tokens and the blended cache of a selective recompute.
 */
module SelectiveBlend {
  import opened Wrappers
  import opened Orders
  import opened Transformer
  import opened SegmentPlan
  import opened SelectiveRecompute

  function Ceil(x: real): int { -((-x).Floor) }

  function Clamp(c: int, n: nat): nat {
    if c > n then n else if c < 0 then 0 else c
  }

  /** How many of n tokens a fraction selects: the fraction of n, rounded up, and never more than n. */
  function Quota(frac: real, n: nat): (k: nat)
    ensures k <= n
    ensures frac >= 1.0 ==> k == n
    ensures frac <= 0.0 ==> k == 0
    ensures frac > 0.0 ==> (k == n || k as real >= frac * n as real) && k as real < frac * n as real + 1.0
  {
    if frac <= 0.0 then 0 else
      FractionOf(frac, n as real);
      Clamp(Ceil(frac * n as real), n)
  }

  lemma FractionOf(frac: real, x: real)
    requires frac > 0.0 && x >= 0.0
    ensures frac * x >= 0.0 && (frac >= 1.0 ==> frac * x >= x)
  {}

  function Members(order: seq<nat>, k: nat, offset: nat): set<nat>
    requires k <= |order|
  {
    set a | 0 <= a < k :: order[a] + offset
  }

  predicate KnownStrategy(strategy: string) { strategy == "hkvd" || strategy == "recent" || strategy == "random" }

  /** Choose the tokens to recompute: the highest deviations, the most recent ones, or a fixed shuffle. */
  function Select(dev: seq<Score>, frac: real, offset: nat, strategy: string,
                  argsort: seq<Score> -> seq<nat>, shuffle: nat -> seq<nat>): Result<set<nat>, string>
    requires IsDescending(argsort(dev), dev) && IsOrder(shuffle(|dev|), |dev|)
  {
    var n := |dev|;
    var k := Quota(frac, n);
    if k == 0 then Ok({})
    else if strategy == "hkvd" then Ok(Members(argsort(dev), k, offset))
    else if strategy == "recent" then Ok(Interval(offset + n - k, offset + n))
    else if strategy == "random" then Ok(Members(shuffle(n), k, offset))
    else Err("unknown strategy")
  }

  /** The quota of tokens, and which ones: no passed-over token deviates more, none is more recent, or the first ones of
      the shuffle. */
  ghost predicate Chosen(dev: seq<Score>, frac: real, offset: nat, strategy: string, shuffle: nat -> seq<nat>,
                         sel: set<nat>) {
    && |sel| == Quota(frac, |dev|)
    && (forall q :: q in sel ==> offset <= q < offset + |dev|)
    && (strategy == "hkvd" ==> MostDeviating(dev, offset, sel))
    && (strategy == "recent" ==> forall a, b: nat :: a in sel && offset <= b < offset + |dev| && b !in sel ==> b < a)
    && (strategy == "random" ==> Shuffled(shuffle(|dev|), Quota(frac, |dev|), offset, sel))
  }

  ghost predicate Shuffled(order: seq<nat>, k: nat, offset: nat, sel: set<nat>) {
    k <= |order| && forall a :: 0 <= a < k ==> order[a] + offset in sel
  }

  ghost predicate MostDeviating(dev: seq<Score>, offset: nat, sel: set<nat>)
    requires forall q :: q in sel ==> offset <= q < offset + |dev|
  {
    forall a, b: nat :: a in sel && offset <= b < offset + |dev| && b !in sel ==>
        AtLeast(dev[a - offset], dev[b - offset])
  }

  lemma {:induction false} MembersSize(order: seq<nat>, k: nat, offset: nat)
    requires k <= |order| && forall a, b :: 0 <= a < b < |order| ==> order[a] != order[b]
    ensures |Members(order, k, offset)| == k
  {
    if k > 0 {
      MembersSize(order, k - 1, offset);
      MembersGrow(order, k - 1, offset);
    }
  }

  lemma MembersGrow(order: seq<nat>, k: nat, offset: nat)
    requires k < |order| && forall a, b :: 0 <= a < b < |order| ==> order[a] != order[b]
    ensures Members(order, k + 1, offset) == Members(order, k, offset) + {order[k] + offset}
    ensures order[k] + offset !in Members(order, k, offset)
  {}

  lemma MembersAreTop(order: seq<nat>, dev: seq<Score>, k: nat, offset: nat, a: nat, b: nat)
    requires IsDescending(order, dev) && k <= |dev|
    requires a in Members(order, k, offset) && b < |dev| && offset + b !in Members(order, k, offset)
    ensures offset <= a < offset + |dev| && AtLeast(dev[a - offset], dev[b])
  {
    var j := PlaceOf(order, |dev|, b);
    var i := MemberPlace(order, k, offset, a);
    PlaceIn(order, k, offset, j);
    hide Members, IsDescending, IsOrder, AtLeast;
    DescendingAt(order, dev, i, j);
  }

  lemma MemberPlace(order: seq<nat>, k: nat, offset: nat, a: nat) returns (i: nat)
    requires k <= |order| && a in Members(order, k, offset)
    ensures i < k && order[i] + offset == a
  {
    i :| 0 <= i < k && order[i] + offset == a;
  }

  lemma PlaceIn(order: seq<nat>, k: nat, offset: nat, j: nat)
    requires k <= |order| && j < |order|
    ensures j < k ==> order[j] + offset in Members(order, k, offset)
  {}

  /** What each strategy selects. */
  lemma SelectMeans(dev: seq<Score>, frac: real, offset: nat, strategy: string,
                    argsort: seq<Score> -> seq<nat>, shuffle: nat -> seq<nat>)
    requires IsDescending(argsort(dev), dev) && IsOrder(shuffle(|dev|), |dev|)
    requires Select(dev, frac, offset, strategy, argsort, shuffle).Ok?
    ensures Chosen(dev, frac, offset, strategy, shuffle,
                   Select(dev, frac, offset, strategy, argsort, shuffle).value)
  {
    hide Quota, Members, IsDescending, MostDeviating, IsOrder, Chosen, Interval, Shuffled;
    var n, k := |dev|, Quota(frac, |dev|);
    if k == 0 {
      NoneDeviates(dev, offset);
      NoneShuffled(shuffle(n), offset);
      IsChosen(dev, frac, offset, strategy, shuffle, {});
    } else if strategy == "hkvd" {
      HkvdMeans(dev, k, offset, argsort(dev));
      IsChosen(dev, frac, offset, strategy, shuffle, Members(argsort(dev), k, offset));
    } else if strategy == "recent" {
      IntervalSize(offset + n - k, offset + n);
      IsChosen(dev, frac, offset, strategy, shuffle, Interval(offset + n - k, offset + n));
    } else {
      ShuffleMeans(shuffle(n), n, k, offset);
      IsChosen(dev, frac, offset, strategy, shuffle, Members(shuffle(n), k, offset));
    }
  }

  lemma IsChosen(dev: seq<Score>, frac: real, offset: nat, strategy: string, shuffle: nat -> seq<nat>, sel: set<nat>)
    requires |sel| == Quota(frac, |dev|) && forall q :: q in sel ==> offset <= q < offset + |dev|
    requires strategy == "hkvd" ==> MostDeviating(dev, offset, sel)
    requires strategy == "recent" ==>
               forall q: nat :: q in sel <==> offset + |dev| - Quota(frac, |dev|) <= q < offset + |dev|
    requires strategy == "random" ==> Shuffled(shuffle(|dev|), Quota(frac, |dev|), offset, sel)
    ensures Chosen(dev, frac, offset, strategy, shuffle, sel)
  {
    hide Quota, MostDeviating, Shuffled;
  }

  lemma ShuffleMeans(order: seq<nat>, n: nat, k: nat, offset: nat)
    requires IsOrder(order, n) && k <= n
    ensures |order| == n && |Members(order, k, offset)| == k
    ensures forall q :: q in Members(order, k, offset) ==> offset <= q < offset + n
    ensures Shuffled(order, k, offset, Members(order, k, offset))
  {
    MembersSize(order, k, offset);
    MembersInRange(order, n, k, offset);
  }

  lemma NoneShuffled(order: seq<nat>, offset: nat)
    ensures Shuffled(order, 0, offset, {})
  {}

  lemma NoneDeviates(dev: seq<Score>, offset: nat)
    ensures MostDeviating(dev, offset, {})
  {}

  lemma MembersInRange(order: seq<nat>, n: nat, k: nat, offset: nat)
    requires IsOrder(order, n) && k <= n
    ensures forall q :: q in Members(order, k, offset) ==> offset <= q < offset + n
  {}

  lemma HkvdMeans(dev: seq<Score>, k: nat, offset: nat, order: seq<nat>)
    requires IsDescending(order, dev) && k <= |dev|
    ensures k <= |order| && |Members(order, k, offset)| == k
    ensures forall q :: q in Members(order, k, offset) ==> offset <= q < offset + |dev|
    ensures MostDeviating(dev, offset, Members(order, k, offset))
  {
    MembersSize(order, k, offset);
    MembersInRange(order, |dev|, k, offset);
    hide Members, IsDescending, AtLeast;
    forall a, b: nat | a in Members(order, k, offset) && offset <= b < offset + |dev| && b !in Members(order, k, offset)
      ensures AtLeast(dev[a - offset], dev[b - offset])
    {
      MembersAreTop(order, dev, k, offset, a, b - offset);
    }
  }

  /** Selecting with fraction one selects the whole range, whatever the strategy. */
  lemma SelectAll(dev: seq<Score>, frac: real, offset: nat, strategy: string,
                  argsort: seq<Score> -> seq<nat>, shuffle: nat -> seq<nat>, q: nat)
    requires IsDescending(argsort(dev), dev) && IsOrder(shuffle(|dev|), |dev|)
    requires frac >= 1.0 && q < |dev| && Select(dev, frac, offset, strategy, argsort, shuffle).Ok?
    ensures q + offset in Select(dev, frac, offset, strategy, argsort, shuffle).value
  {
    assert q in argsort(dev) && q in shuffle(|dev|);
  }

  // ---- blending ------------------------------------------------------------------------------------------

  function Blend(reused: seq<Column>, correct: seq<Column>, idx: set<nat>): (b: seq<Column>)
    requires |reused| == |correct|
    ensures |b| == |correct|
    ensures forall q :: 0 <= q < |b| ==> b[q] == if q in idx then correct[q] else reused[q]
  {
    seq(|correct|, q requires 0 <= q < |correct| => if q in idx then correct[q] else reused[q])
  }

  /** Positions of the first n items' spans, split by what the plan does with them. */
  ghost predicate Classified(items: seq<Item>, n: nat, mandatory: set<nat>, candidate: set<nat>)
    requires n <= |items|
  {
    && (forall q: nat :: q in mandatory <==>
        exists i :: 0 <= i < n && items[i].action.Recompute? && items[i].lo <= q < items[i].hi)
    && (forall q: nat :: q in candidate <==>
        exists i :: 0 <= i < n && items[i].action.ReuseShifted? && items[i].lo <= q < items[i].hi)
  }

  method Classify(items: seq<Item>) returns (mandatory: set<nat>, candidate: set<nat>)
    ensures Classified(items, |items|, mandatory, candidate)
  {
    mandatory, candidate := {}, {};
    for n := 0 to |items|
      invariant Classified(items, n, mandatory, candidate)
    {
      var it := items[n];
      var span := Interval(it.lo, it.hi);
      match it.action
      case Recompute => mandatory := mandatory + span;
      case ReuseShifted(_, _) => candidate := candidate + span;
      case ReuseExact(_) =>
    }
  }

  /** Every position of a context lies in one segment. */
  lemma {:induction false} Locate(ctx: seq<Segment>, n: nat, q: nat) returns (i: nat, k: nat)
    requires n <= |ctx| && q < Offset(ctx, n)
    ensures i < n && k < |ctx[i].tokenIds| && At(ctx, i, k) == q
  {
    if q >= Offset(ctx, n - 1) {
      i, k := n - 1, q - Offset(ctx, n - 1);
    } else {
      i, k := Locate(ctx, n - 1, q);
    }
  }

  ghost predicate IsHull(s: set<nat>, lo: nat, hi: nat) {
    lo < hi && lo in s && hi - 1 in s && forall q :: q in s ==> lo <= q < hi
  }

  /** Smallest hull of a non-empty set of positions. */
  method Hull(s: set<nat>) returns (lo: nat, hi: nat)
    requires s != {}
    ensures IsHull(s, lo, hi)
  {
    var first :| first in s;
    lo, hi := first, first + 1;
    var rest := s - {first};
    while rest != {}
      invariant lo < hi && rest <= s && lo in s && hi - 1 in s
      invariant forall q: nat :: q in s && q !in rest ==> lo <= q < hi
      decreases |rest|
    {
      var q :| q in rest;
      rest := rest - {q};
      if q < lo { lo := q; }
      if q >= hi { hi := q + 1; }
    }
  }

  method RecomputeSelective<L(!new)>(r: Rotary<L>, hash: ContentHash, prevKv: seq<Column>, prev: seq<Segment>,
                                     next: seq<Segment>,
                                     frac: real, strategy: string, deviation: (Column, Column) -> real,
                                     argsort: seq<Score> -> seq<nat>, shuffle: nat -> seq<nat>)
    returns (res: Result<seq<Column>, string>, ghost candidate: set<nat>, ghost sel: set<nat>, ghost plan: Plan,
        ghost p: nat,
             ghost reused: seq<Column>)
    requires IsRotary(r) && CollisionFree(hash, prev, next) && prevKv == Prefill(r.m, Tokens(prev))
    requires forall dev :: IsDescending(argsort(dev), dev)
    requires forall n :: IsOrder(shuffle(n), n)
    ensures PlanFor(hash, prev, next, true, p, plan)
    ensures forall q: nat :: q in candidate <==>
              exists i :: 0 <= i < |plan.items| && plan.items[i].action.ReuseShifted?
                  && plan.items[i].lo <= q < plan.items[i].hi
    ensures res.Err? ==> !KnownStrategy(strategy)
    ensures res.Ok? && !KnownStrategy(strategy) ==> sel == {}
    ensures Assemblable(prevKv, Prefill(r.m, Tokens(next)), prev, next, plan.items)
    ensures reused == Assembled(r.t, prevKv, Prefill(r.m, Tokens(next)), prev, next, plan.items, |plan.items|)
    ensures |reused| == |Tokens(next)| && forall q :: q in candidate ==> q < |Tokens(next)|
    ensures res.Ok? ==> Picked(reused, Prefill(r.m, Tokens(next)), candidate, frac, strategy, deviation, shuffle, sel)
    ensures res.Ok? ==> StaysInsideIff(candidate, frac, strategy, shuffle, sel)
    ensures res.Ok? ==> |res.value| == |Tokens(next)|
    ensures res.Ok? ==> forall q :: 0 <= q < |Tokens(next)| && q in candidate && q !in sel ==> res.value[q] == reused[q]
    ensures res.Ok? ==> forall q :: 0 <= q < |Tokens(next)| && (q !in candidate || q in sel) ==>
              res.value[q] == Prefill(r.m, Tokens(next))[q]
    ensures res.Ok? && frac >= 1.0 ==> res.value == Prefill(r.m, Tokens(next))
  {
    hide Picked, StaysInsideIff, IsRotary, PlanFor, CollisionFree, Prefill, Assemblable, Assembled, TokensOf, Offset;
    var planned, prefix := PlanIncremental(hash, Some(prev), next, "selective");
    plan, p := planned.value, prefix;
    var mandatory, cand := Classify(planned.value.items);
    candidate, sel := cand, {};
    PlanIsAssemblable(r, hash, prev, next, true, p, plan);
    var correct := Prefill(r.m, Tokens(next));
    AssembledLength(r, hash, prev, next, p, plan);
    var assembled := AssembleReused(r.t, prevKv, correct, prev, next, planned.value.items);
    reused := assembled;
    SpansApart(prevKv, correct, prev, next, plan.items, mandatory, cand);
    CandidatesExist(prevKv, correct, prev, next, plan.items, mandatory, cand);
    var chosen := Choose(assembled, correct, cand, frac, strategy, deviation, argsort, shuffle);
    if chosen.Err? { res := Err(chosen.error); return; }
    sel := chosen.value;
    var blended := Blend(assembled, correct, mandatory + chosen.value);
    forall q: nat | q < |correct| && q !in cand ensures blended[q] == correct[q] {
      OutsideCandidates(r, hash, prev, next, p, plan, mandatory, cand, q);
    }
    assert frac >= 1.0 ==> blended == correct;
    res := Ok(blended);
  }

  /** No position is both mandatory and a candidate. */
  lemma SpansApart(prevKv: seq<Column>, correct: seq<Column>, prev: seq<Segment>, next: seq<Segment>, items: seq<Item>,
                   mandatory: set<nat>, candidate: set<nat>)
    requires Assemblable(prevKv, correct, prev, next, items) && Classified(items, |items|, mandatory, candidate)
    ensures mandatory !! candidate
  {
    hide Assemblable;
    forall q | q in mandatory && q in candidate ensures false {
      var i :| 0 <= i < |items| && items[i].action.Recompute? && items[i].lo <= q < items[i].hi;
      var j :| 0 <= j < |items| && items[j].action.ReuseShifted? && items[j].lo <= q < items[j].hi;
      SpanBounds(prevKv, correct, prev, next, items, if i < j then i else j, if i < j then j else i);
    }
  }

  lemma CandidatesExist(prevKv: seq<Column>, correct: seq<Column>, prev: seq<Segment>, next: seq<Segment>,
                        items: seq<Item>, mandatory: set<nat>, candidate: set<nat>)
    requires Assemblable(prevKv, correct, prev, next, items) && Classified(items, |items|, mandatory, candidate)
    ensures forall q :: q in candidate ==> q < |correct|
  {}

  lemma AssembledLength<L(!new)>(r: Rotary<L>, hash: ContentHash, prev: seq<Segment>, next: seq<Segment>, p: nat,
                                 plan: Plan)
    requires PlanFor(hash, prev, next, true, p, plan)
    requires Assemblable(Prefill(r.m, Tokens(prev)), Prefill(r.m, Tokens(next)), prev, next, plan.items)
    ensures |plan.items| == |next|
  {}

  /** Deviation of the reused from the correct columns over [lo, hi); everything but candidates is masked. */
  function Deviations(reused: seq<Column>, correct: seq<Column>, candidate: set<nat>, lo: nat, hi: nat,
                      deviation: (Column, Column) -> real): (dev: seq<Score>)
    requires lo <= hi
    ensures |dev| == hi - lo
  {
    seq(hi - lo, d requires 0 <= d < hi - lo =>
      if lo + d in candidate && lo + d < |reused| && lo + d < |correct| then
        Some(deviation(reused[lo + d], correct[lo + d]))
      else None)
  }

  // ---- when the mask keeps non-candidates out -------------------------------------------------------------

  /**
   What the caller's fraction, strategy and candidates must satisfy for the mask to do what it is for. Only the
   deviation strategy looks at masked scores; the other two pick places in the hull.
   */
  ghost predicate MaskSuffices(candidate: set<nat>, lo: nat, hi: nat, frac: real, strategy: string,
                               shuffle: nat -> seq<nat>)
    requires lo <= hi
  {
    var k, order := Quota(frac, hi - lo), shuffle(hi - lo);
    && (strategy == "hkvd" ==> k <= |candidate|)
    && (strategy == "recent" ==> forall q: nat :: hi - k <= q < hi ==> q in candidate)
    && (strategy == "random" ==> k <= |order| && forall a :: 0 <= a < k ==> order[a] + lo in candidate)
  }

  /** The masked scores of a hull are those of the non-candidates. */
  ghost predicate MaskedOutside(dev: seq<Score>, candidate: set<nat>, lo: nat) {
    && (forall q :: q in candidate ==> lo <= q < lo + |dev|)
    && forall d :: 0 <= d < |dev| ==> (dev[d].Some? <==> lo + d in candidate)
  }

  lemma {:induction false} ScoredCount(dev: seq<Score>, candidate: set<nat>, lo: nat)
    requires MaskedOutside(dev, candidate, lo)
    ensures |set d | 0 <= d < |dev| && dev[d].Some?| == |candidate|
  {
    if dev == [] {
      assert candidate == {};
    } else {
      var m := |dev| - 1;
      var fewer := candidate - {lo + m};
      ScoredCount(dev[..m], fewer, lo);
      ScoredSplit(dev);
      if dev[m].Some? {
        assert candidate == fewer + {lo + m};
      } else {
        assert candidate == fewer;
      }
    }
  }

  lemma ScoredSplit(dev: seq<Score>)
    requires dev != []
    ensures var m := |dev| - 1;
            |set d | 0 <= d < |dev| && dev[d].Some?| ==
            |set d | 0 <= d < |dev[..m]| && dev[..m][d].Some?| + if dev[m].Some? then 1 else 0
  {
    var m := |dev| - 1;
    var rest := dev[..m];
    var scored := set d | 0 <= d < |rest| && rest[d].Some?;
    assert (set d | 0 <= d < |dev| && dev[d].Some?) == if dev[m].Some? then scored + {m} else scored;
  }

  lemma HkvdMask(dev: seq<Score>, candidate: set<nat>, lo: nat, order: seq<nat>, k: nat)
    requires MaskedOutside(dev, candidate, lo) && IsDescending(order, dev) && k <= |dev|
    ensures k <= |order| && (Members(order, k, lo) <= candidate <==> k <= |candidate|)
  {
    MaskHoldsIff(order, dev, k);
    ScoredCount(dev, candidate, lo);
    MembersInside(order, k, lo, candidate);
    assert forall a :: 0 <= a < k ==> (dev[order[a]].Some? <==> lo + order[a] in candidate);
  }

  lemma MembersInside(order: seq<nat>, k: nat, lo: nat, s: set<nat>)
    requires k <= |order|
    ensures Members(order, k, lo) <= s <==> forall a :: 0 <= a < k ==> order[a] + lo in s
  {
    assert forall a :: 0 <= a < k ==> order[a] + lo in Members(order, k, lo);
  }

  /** A selection stays inside the candidates if and only if the mask suffices. */
  lemma SelectsCandidatesIff(dev: seq<Score>, frac: real, lo: nat, strategy: string, argsort: seq<Score> -> seq<nat>,
                             shuffle: nat -> seq<nat>, candidate: set<nat>)
    requires IsDescending(argsort(dev), dev) && IsOrder(shuffle(|dev|), |dev|) && MaskedOutside(dev, candidate, lo)
    requires Select(dev, frac, lo, strategy, argsort, shuffle).Ok?
    ensures Select(dev, frac, lo, strategy, argsort, shuffle).value <= candidate <==>
            MaskSuffices(candidate, lo, lo + |dev|, frac, strategy, shuffle)
  {
    hide Quota, Members, IsDescending, IsOrder, Interval, MaskedOutside;
    var n, k := |dev|, Quota(frac, |dev|);
    OrderLength(shuffle(n), n);
    assert lo + n - lo == n;
    if strategy == "hkvd" {
      HkvdMask(dev, candidate, lo, argsort(dev), k);
    } else if strategy == "recent" {
      assert Interval(lo + n - k, lo + n) <= candidate <==>
             forall q: nat :: lo + n - k <= q < lo + n ==> q in candidate;
    } else if strategy == "random" {
      MembersInside(shuffle(n), k, lo, candidate);
    }
  }

  lemma OrderLength(order: seq<nat>, n: nat)
    requires IsOrder(order, n)
    ensures |order| == n
  {}

  lemma DeviationsMask(reused: seq<Column>, correct: seq<Column>, candidate: set<nat>, lo: nat, hi: nat,
                       deviation: (Column, Column) -> real)
    requires IsHull(candidate, lo, hi) && hi <= |reused| && hi <= |correct|
    ensures MaskedOutside(Deviations(reused, correct, candidate, lo, hi, deviation), candidate, lo)
  {}

  /** Two candidates with a recomputed token between them: either strategy selects the masked one. */
  lemma MaskMisses(argsort: seq<Score> -> seq<nat>, shuffle: nat -> seq<nat>)
    requires IsDescending(argsort([Some(1.0), None, Some(1.0)]), [Some(1.0), None, Some(1.0)]) && IsOrder(shuffle(3), 3)
    ensures var dev: seq<Score> := [Some(1.0), None, Some(1.0)];
            && MaskedOutside(dev, {0, 2}, 0) && Quota(0.6, 3) == 2 == |{0, 2}| && Quota(0.9, 3) == 3
            && Select(dev, 0.6, 0, "recent", argsort, shuffle) == Ok({1, 2})
            && Select(dev, 0.9, 0, "hkvd", argsort, shuffle) == Ok({0, 1, 2})
  {
    var dev: seq<Score> := [Some(1.0), None, Some(1.0)];
    assert Interval(1, 3) == {1, 2};
    forall q: nat | q < 3 ensures q in Members(argsort(dev), 3, 0) {
      SelectAll(dev, 1.0, 0, "hkvd", argsort, shuffle, q);
    }
    assert Members(argsort(dev), 3, 0) == {0, 1, 2};
  }

  /** No candidate that is passed over deviates more than one that is recomputed, and no other token is recomputed
      before all candidates are. */
  ghost predicate WorstFirst(reused: seq<Column>, correct: seq<Column>, candidate: set<nat>,
                             deviation: (Column, Column) -> real, sel: set<nat>)
    requires |reused| == |correct| && forall q :: q in candidate ==> q < |correct|
  {
    && (forall a, b :: a in sel * candidate && b in candidate - sel ==>
          deviation(reused[a], correct[a]) >= deviation(reused[b], correct[b]))
    && (sel <= candidate || candidate <= sel)
  }

  /** What each strategy recomputes of a hull [lo, hi): as many tokens as the fraction of it asks for, namely the worst
      candidates, the last tokens, or the first shuffled ones. */
  ghost predicate PickedWithin(reused: seq<Column>, correct: seq<Column>, candidate: set<nat>, lo: nat, hi: nat,
                               frac: real, strategy: string, deviation: (Column, Column) -> real,
                               shuffle: nat -> seq<nat>, sel: set<nat>)
    requires |reused| == |correct| && (forall q :: q in candidate ==> q < |correct|) && lo <= hi
  {
    && |sel| == Quota(frac, hi - lo) && (forall q :: q in sel ==> lo <= q < hi)
    && (strategy == "hkvd" ==> WorstFirst(reused, correct, candidate, deviation, sel))
    && (strategy == "recent" ==> forall a, b: nat :: a in sel && lo <= b < hi && b !in sel ==> b < a)
    && (strategy == "random" ==> Shuffled(shuffle(hi - lo), Quota(frac, hi - lo), lo, sel))
  }

  /** Nothing without candidates; otherwise what the strategy picks of the candidates' hull. */
  ghost predicate Picked(reused: seq<Column>, correct: seq<Column>, candidate: set<nat>, frac: real, strategy: string,
                         deviation: (Column, Column) -> real, shuffle: nat -> seq<nat>, sel: set<nat>)
    requires |reused| == |correct| && forall q :: q in candidate ==> q < |correct|
  {
    if candidate == {} then sel == {} else
      exists lo: nat, hi: nat :: IsHull(candidate, lo, hi) &&
        PickedWithin(reused, correct, candidate, lo, hi, frac, strategy, deviation, shuffle, sel)
  }

  /** Selecting by masked scores is selecting the candidates that deviate most. */
  lemma ChosenIsPicked(reused: seq<Column>, correct: seq<Column>, candidate: set<nat>, lo: nat, hi: nat, frac: real,
                       strategy: string, deviation: (Column, Column) -> real, shuffle: nat -> seq<nat>, sel: set<nat>)
    requires |reused| == |correct| && forall q :: q in candidate ==> q < |correct|
    requires IsHull(candidate, lo, hi)
    requires Chosen(Deviations(reused, correct, candidate, lo, hi, deviation), frac, lo, strategy, shuffle, sel)
    ensures PickedWithin(reused, correct, candidate, lo, hi, frac, strategy, deviation, shuffle, sel)
  {
    hide Quota, Shuffled;
    var dev := Deviations(reused, correct, candidate, lo, hi, deviation);
    if strategy == "hkvd" {
      forall a, b | a in sel && b in candidate - sel
        ensures a in candidate && deviation(reused[a], correct[a]) >= deviation(reused[b], correct[b])
      {
        assert AtLeast(dev[a - lo], dev[b - lo]);
      }
    }
  }

  /** Only candidates are selected, exactly when the mask suffices on their hull. */
  ghost predicate StaysInsideIff(candidate: set<nat>, frac: real, strategy: string, shuffle: nat -> seq<nat>,
                                 sel: set<nat>)
  {
    if candidate == {} then sel == {} else
      forall lo: nat, hi: nat :: IsHull(candidate, lo, hi) ==>
        (sel <= candidate <==> MaskSuffices(candidate, lo, hi, frac, strategy, shuffle))
  }

  /** Score the candidates inside their hull and select among them. */
  method Choose(reused: seq<Column>, correct: seq<Column>, candidate: set<nat>, frac: real, strategy: string,
                deviation: (Column, Column) -> real, argsort: seq<Score> -> seq<nat>, shuffle: nat -> seq<nat>)
    returns (chosen: Result<set<nat>, string>)
    requires forall dev :: IsDescending(argsort(dev), dev)
    requires forall n :: IsOrder(shuffle(n), n)
    requires |reused| == |correct| && forall q :: q in candidate ==> q < |correct|
    ensures chosen.Err? ==> !KnownStrategy(strategy)
    ensures chosen.Ok? && !KnownStrategy(strategy) ==> chosen.value == {}
    ensures chosen.Ok? ==> Picked(reused, correct, candidate, frac, strategy, deviation, shuffle, chosen.value)
    ensures chosen.Ok? && frac >= 1.0 ==> candidate <= chosen.value
    ensures chosen.Ok? ==> StaysInsideIff(candidate, frac, strategy, shuffle, chosen.value)
  {
    hide *;
    if candidate == {} {
      NothingToPick(reused, correct, frac, strategy, deviation, shuffle);
      return Ok({});
    }
    var lo, hi := Hull(candidate);
    HullEnds(candidate, lo, hi, |correct|);
    var dev := Deviations(reused, correct, candidate, lo, hi, deviation);
    chosen := Select(dev, frac, lo, strategy, argsort, shuffle);
    SelectFails(dev, frac, lo, strategy, argsort, shuffle);
    if chosen.Ok? {
      SelectMeans(dev, frac, lo, strategy, argsort, shuffle);
      DeviationsMask(reused, correct, candidate, lo, hi, deviation);
      SelectsCandidatesIff(dev, frac, lo, strategy, argsort, shuffle, candidate);
      ChosenIsPicked(reused, correct, candidate, lo, hi, frac, strategy, deviation, shuffle, chosen.value);
      PickedInHull(reused, correct, candidate, frac, strategy, deviation, shuffle, chosen.value, lo, hi);
      if frac >= 1.0 {
        forall q | q in candidate ensures q in chosen.value {
          HullHolds(candidate, lo, hi, q);
          SelectAll(dev, frac, lo, strategy, argsort, shuffle, q - lo);
        }
      }
    }
  }

  lemma NothingToPick(reused: seq<Column>, correct: seq<Column>, frac: real, strategy: string,
                      deviation: (Column, Column) -> real, shuffle: nat -> seq<nat>)
    requires |reused| == |correct|
    ensures Picked(reused, correct, {}, frac, strategy, deviation, shuffle, {})
    ensures StaysInsideIff({}, frac, strategy, shuffle, {})
  {}

  lemma HullEnds(s: set<nat>, lo: nat, hi: nat, n: nat)
    requires IsHull(s, lo, hi) && forall q :: q in s ==> q < n
    ensures lo < hi <= n
  {}

  lemma HullHolds(s: set<nat>, lo: nat, hi: nat, q: nat)
    requires IsHull(s, lo, hi) && q in s
    ensures lo <= q < hi
  {}

  lemma SelectFails(dev: seq<Score>, frac: real, offset: nat, strategy: string,
                    argsort: seq<Score> -> seq<nat>, shuffle: nat -> seq<nat>)
    requires IsDescending(argsort(dev), dev) && IsOrder(shuffle(|dev|), |dev|)
    ensures var r := Select(dev, frac, offset, strategy, argsort, shuffle);
            && (r.Err? <==> !KnownStrategy(strategy) && Quota(frac, |dev|) > 0)
            && (r.Ok? && !KnownStrategy(strategy) ==> r.value == {})
  {
    hide Quota, Members, IsDescending, IsOrder;
  }

  /** A set has one hull, so what holds of this one is what the caller sees. */
  lemma PickedInHull(reused: seq<Column>, correct: seq<Column>, candidate: set<nat>, frac: real, strategy: string,
                     deviation: (Column, Column) -> real, shuffle: nat -> seq<nat>, sel: set<nat>, lo: nat, hi: nat)
    requires |reused| == |correct| && forall q :: q in candidate ==> q < |correct|
    requires candidate != {} && IsHull(candidate, lo, hi)
    requires PickedWithin(reused, correct, candidate, lo, hi, frac, strategy, deviation, shuffle, sel)
    requires sel <= candidate <==> MaskSuffices(candidate, lo, hi, frac, strategy, shuffle)
    ensures Picked(reused, correct, candidate, frac, strategy, deviation, shuffle, sel)
    ensures StaysInsideIff(candidate, frac, strategy, shuffle, sel)
  {
    hide PickedWithin, MaskSuffices;
    forall lo2: nat, hi2: nat | IsHull(candidate, lo2, hi2) ensures lo2 == lo && hi2 == hi {
      HullHolds(candidate, lo, hi, lo2);
      HullHolds(candidate, lo2, hi2, lo);
      HullHolds(candidate, lo, hi, hi2 - 1);
      HullHolds(candidate, lo2, hi2, hi - 1);
    }
  }

  /** A position that is no candidate is recomputed, or its reused column is right already. */
  lemma OutsideCandidates<L(!new)>(r: Rotary<L>, hash: ContentHash, prev: seq<Segment>, next: seq<Segment>, p: nat,
                                   plan: Plan,
                                   mandatory: set<nat>, candidate: set<nat>, q: nat)
    requires IsRotary(r) && PlanFor(hash, prev, next, true, p, plan) && CollisionFree(hash, prev, next)
    requires Assemblable(Prefill(r.m, Tokens(prev)), Prefill(r.m, Tokens(next)), prev, next, plan.items)
    requires Classified(plan.items, |plan.items|, mandatory, candidate) && q < |Tokens(next)| && q !in candidate
    ensures Assembled(r.t, Prefill(r.m, Tokens(prev)), Prefill(r.m, Tokens(next)), prev, next, plan.items, |next|)[q]
            == Prefill(r.m, Tokens(next))[q]
  {
    hide IsRotary, Prefill, Assembled, TokensOf;
    var i, k := Locate(next, |next|, q);
    PlannedItem(hash, prev, next, true, p, plan, i);
    ExactOutsideShifted(r, hash, prev, next, true, p, plan, i, k);
  }
}
