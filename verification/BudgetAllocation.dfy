/**
 Per-head budget allocation by sensitivity: pool the marginal importances of all heads, take the
 globally largest ones, and give each head as many keys as it won.
 */
module BudgetAllocation {
  import opened Arith

  /** One rank of one head, with the importance that a key at this rank adds. */
  datatype Cand = Cand(value: real, head: nat)

  /** Which marginals to count. */
  datatype Test = Any | AtLeast(v: real) | Above(v: real)

  predicate Meets(test: Test, x: real) {
    match test
    case Any => true
    case AtLeast(v) => x >= v
    case Above(v) => x > v
  }

  /** Marginals of head h in s that meet the test. */
  function Count(s: seq<Cand>, h: nat, test: Test): nat {
    if s == [] then 0 else
      var x := s[|s| - 1];
      Count(s[..|s| - 1], h, test) + if x.head == h && Meets(test, x.value) then 1 else 0
  }

  ghost predicate Descending(row: seq<real>) {
    forall i, j :: 0 <= i <= j < |row| ==> row[i] >= row[j]
  }

  ghost predicate Sorted(s: seq<Cand>) {
    forall i, j :: 0 <= i <= j < |s| ==> s[i].value >= s[j].value
  }

  // ---- the stable sort ------------------------------------------------------------------------

  /** Insert x behind every candidate that is at least as large. */
  function Insert(s: seq<Cand>, x: Cand): (r: seq<Cand>)
    ensures |r| == |s| + 1
  {
    if s == [] || s[|s| - 1].value >= x.value then s + [x]
    else Insert(s[..|s| - 1], x) + [s[|s| - 1]]
  }

  function SortDesc(s: seq<Cand>): (r: seq<Cand>)
    ensures |r| == |s|
  {
    if s == [] then [] else Insert(SortDesc(s[..|s| - 1]), s[|s| - 1])
  }

  lemma {:induction false} InsertKeeps(s: seq<Cand>, x: Cand, bound: real, heads: nat)
    requires Sorted(s) && x.value >= bound && x.head < heads
    requires forall i :: 0 <= i < |s| ==> s[i].value >= bound && s[i].head < heads
    ensures Sorted(Insert(s, x))
    ensures forall i :: 0 <= i < |s| + 1 ==> Insert(s, x)[i].value >= bound && Insert(s, x)[i].head < heads
  {
    if s != [] && s[|s| - 1].value < x.value {
      InsertKeeps(s[..|s| - 1], x, s[|s| - 1].value, heads);
    }
  }

  lemma {:induction false} InsertCounts(s: seq<Cand>, x: Cand, h: nat, test: Test)
    ensures Count(Insert(s, x), h, test) == Count(s, h, test) + Count([x], h, test)
  {
    if s == [] || s[|s| - 1].value >= x.value {
      assert (s + [x])[..|s|] == s;
    } else {
      InsertCounts(s[..|s| - 1], x, h, test);
      assert Insert(s, x)[..|s|] == Insert(s[..|s| - 1], x);
    }
  }

  lemma {:induction false} SortKeeps(s: seq<Cand>, heads: nat)
    requires forall i :: 0 <= i < |s| ==> s[i].head < heads
    ensures Sorted(SortDesc(s))
    ensures forall i :: 0 <= i < |s| ==> SortDesc(s)[i].head < heads
  {
    if s != [] {
      SortKeeps(s[..|s| - 1], heads);
      var r, x := SortDesc(s[..|s| - 1]), s[|s| - 1];
      var bound := if r != [] && r[|r| - 1].value < x.value then r[|r| - 1].value else x.value;
      InsertKeeps(r, x, bound, heads);
    }
  }

  lemma {:induction false} SortCounts(s: seq<Cand>, h: nat, test: Test)
    ensures Count(SortDesc(s), h, test) == Count(s, h, test)
  {
    if s != [] {
      SortCounts(s[..|s| - 1], h, test);
      InsertCounts(SortDesc(s[..|s| - 1]), s[|s| - 1], h, test);
    }
  }

  lemma {:induction false} CountConcat(a: seq<Cand>, b: seq<Cand>, h: nat, test: Test)
    ensures Count(a + b, h, test) == Count(a, h, test) + Count(b, h, test)
  {
    if b == [] {
      assert a + b == a;
    } else {
      CountConcat(a, b[..|b| - 1], h, test);
      assert (a + b)[..|a + b| - 1] == a + b[..|b| - 1];
    }
  }

  // ---- the pool -------------------------------------------------------------------------------------

  /** Marginals of one head at ranks lo..k-1. */
  function HeadPool(row: seq<real>, h: nat, lo: nat, k: nat): (s: seq<Cand>)
    requires lo <= k <= |row|
    ensures |s| == k - lo && forall i :: 0 <= i < |s| ==> s[i].head == h
  {
    if k == lo then [] else HeadPool(row, h, lo, k - 1) + [Cand(row[k - 1], h)]
  }

  ghost predicate Shape(imp: seq<seq<real>>, T: nat) {
    forall h :: 0 <= h < |imp| ==> |imp[h]| == T && Descending(imp[h])
  }

  /** Marginals of the first n heads at ranks lo..T-1. */
  function Pool(imp: seq<seq<real>>, lo: nat, T: nat, n: nat): (s: seq<Cand>)
    requires n <= |imp| && lo <= T && forall h :: 0 <= h < |imp| ==> |imp[h]| == T
    ensures forall i :: 0 <= i < |s| ==> s[i].head < n
  {
    if n == 0 then [] else
      Pool(imp, lo, T, n - 1) + HeadPool(imp[n - 1], n - 1, lo, T)
  }

  lemma {:induction false} PoolLength(imp: seq<seq<real>>, lo: nat, T: nat, n: nat)
    requires n <= |imp| && lo <= T && forall h :: 0 <= h < |imp| ==> |imp[h]| == T
    ensures |Pool(imp, lo, T, n)| == n * (T - lo)
  {
    if n > 0 {
      PoolLength(imp, lo, T, n - 1);
      MulStep(n - 1, T - lo);
    }
  }

  /** Ranks lo..k-1 of a row that meet the test. */
  function RankCount(row: seq<real>, lo: nat, k: nat, test: Test): nat
    requires lo <= k <= |row|
  {
    if k == lo then 0 else RankCount(row, lo, k - 1, test) + if Meets(test, row[k - 1]) then 1 else 0
  }

  lemma {:induction false} HeadPoolCount(row: seq<real>, h: nat, lo: nat, k: nat, g: nat, test: Test)
    requires lo <= k <= |row|
    ensures Count(HeadPool(row, h, lo, k), g, test) == if g == h then RankCount(row, lo, k, test) else 0
  {
    if k > lo {
      HeadPoolCount(row, h, lo, k - 1, g, test);
      assert HeadPool(row, h, lo, k)[..k - 1 - lo] == HeadPool(row, h, lo, k - 1);
    }
  }

  lemma {:induction false} PoolCount(imp: seq<seq<real>>, lo: nat, T: nat, n: nat, h: nat, test: Test)
    requires n <= |imp| && lo <= T && h < |imp| && forall g :: 0 <= g < |imp| ==> |imp[g]| == T
    ensures Count(Pool(imp, lo, T, n), h, test) == if h < n then RankCount(imp[h], lo, T, test) else 0
  {
    hide HeadPool, RankCount;
    if n > 0 {
      PoolCount(imp, lo, T, n - 1, h, test);
      CountConcat(Pool(imp, lo, T, n - 1), HeadPool(imp[n - 1], n - 1, lo, T), h, test);
      HeadPoolCount(imp[n - 1], n - 1, lo, T, h, test);
    }
  }

  /** In a descending row the ranks that meet a threshold come first. */
  lemma {:induction false} RankCountSplit(row: seq<real>, lo: nat, k: nat, m: nat, v: real)
    requires lo <= k <= |row| && lo <= m < |row| && Descending(row)
    ensures row[m] < v ==> RankCount(row, lo, k, AtLeast(v)) <= m - lo
    ensures row[m] > v && m < k ==> RankCount(row, lo, k, Above(v)) >= m + 1 - lo
    ensures RankCount(row, lo, k, Any) == k - lo
    ensures RankCount(row, lo, k, AtLeast(v)) <= k - lo
    ensures row[m] > v && k <= m ==> RankCount(row, lo, k, Above(v)) == k - lo
  {
    if k > lo { RankCountSplit(row, lo, k - 1, m, v); }
  }

  // ---- the threshold --------------------------------------------------------------------------------

  /** All values of a sequence lie on one side of v. */
  lemma {:induction false} OneSided(s: seq<Cand>, h: nat, v: real)
    ensures (forall i :: 0 <= i < |s| ==> s[i].value >= v) ==> Count(s, h, AtLeast(v)) == Count(s, h, Any)
    ensures (forall i :: 0 <= i < |s| ==> s[i].value <= v) ==> Count(s, h, Above(v)) == 0
    ensures Count(s, h, Above(v)) <= Count(s, h, Any)
  {
    if s != [] { OneSided(s[..|s| - 1], h, v); }
  }

  /** v separates what each head got from what it did not get. */
  ghost predicate Separates(row: seq<real>, a: nat, lo: nat, v: real) {
    && (forall r :: lo <= r < a && r < |row| ==> row[r] >= v)
    && (forall r :: a <= r < |row| ==> row[r] <= v)
  }

  /** The value at the cut of the sorted pool separates every head's picks from its leftovers. */
  lemma CutSeparates(imp: seq<seq<real>>, lo: nat, T: nat, sorted: seq<Cand>, rem: nat, v: real, h: nat)
    requires Shape(imp, T) && lo <= T && h < |imp| && rem <= |sorted|
    requires sorted == SortDesc(Pool(imp, lo, T, |imp|))
    requires forall i :: 0 <= i < rem ==> sorted[i].value >= v
    requires forall i :: rem <= i < |sorted| ==> sorted[i].value <= v
    ensures lo + Count(sorted[..rem], h, Any) <= T
    ensures Separates(imp[h], lo + Count(sorted[..rem], h, Any), lo, v)
  {
    CutCounts(imp, lo, T, sorted, rem, v, h);
    hide Count, RankCount, SortDesc, Pool;
    var a, row := lo + Count(sorted[..rem], h, Any), imp[h];
    if lo < a { RankCountSplit(row, lo, T, a - 1, v); }
    if a < T { RankCountSplit(row, lo, T, a, v); }
  }

  /** How many ranks of a head lie on each side of the cut. */
  lemma CutCounts(imp: seq<seq<real>>, lo: nat, T: nat, sorted: seq<Cand>, rem: nat, v: real, h: nat)
    requires Shape(imp, T) && lo <= T && h < |imp| && rem <= |sorted|
    requires sorted == SortDesc(Pool(imp, lo, T, |imp|))
    requires forall i :: 0 <= i < rem ==> sorted[i].value >= v
    requires forall i :: rem <= i < |sorted| ==> sorted[i].value <= v
    ensures Count(sorted[..rem], h, Any) <= T - lo
    ensures RankCount(imp[h], lo, T, AtLeast(v)) >= Count(sorted[..rem], h, Any)
    ensures RankCount(imp[h], lo, T, Above(v)) <= Count(sorted[..rem], h, Any)
  {
    PicksAreCounted(imp, lo, T, sorted, rem, h, Any);
    PicksAreCounted(imp, lo, T, sorted, rem, h, AtLeast(v));
    PicksAreCounted(imp, lo, T, sorted, rem, h, Above(v));
    OneSided(sorted[..rem], h, v);
    OneSided(sorted[rem..], h, v);
    hide Count, RankCount, SortDesc, Pool;
  }

  lemma PicksAreCounted(imp: seq<seq<real>>, lo: nat, T: nat, sorted: seq<Cand>, rem: nat, h: nat, test: Test)
    requires Shape(imp, T) && lo <= T && h < |imp| && rem <= |sorted|
    requires sorted == SortDesc(Pool(imp, lo, T, |imp|))
    ensures Count(sorted[..rem], h, test) + Count(sorted[rem..], h, test) == RankCount(imp[h], lo, T, test)
    ensures RankCount(imp[h], lo, T, Any) == T - lo
  {
    hide Count, RankCount, Pool, SortDesc, Descending;
    SortCounts(Pool(imp, lo, T, |imp|), h, test);
    PoolCount(imp, lo, T, |imp|, h, test);
    CountConcat(sorted[..rem], sorted[rem..], h, test);
    assert sorted[..rem] + sorted[rem..] == sorted;
    AnyRank(imp[h], lo, T);
  }

  lemma {:induction false} AnyRank(row: seq<real>, lo: nat, k: nat)
    requires lo <= k <= |row|
    ensures RankCount(row, lo, k, Any) == k - lo
  {
    if k > lo { AnyRank(row, lo, k - 1); }
  }

  // ---- captured importance -----------------------------------------------------------------------------

  function Sum(a: seq<nat>, n: nat): nat
    requires n <= |a|
  {
    if n == 0 then 0 else Sum(a, n - 1) + a[n - 1]
  }

  /** Importance of the first k ranks. */
  function Prefix(row: seq<real>, k: nat): real
    requires k <= |row|
  {
    if k == 0 then 0.0 else Prefix(row, k - 1) + row[k - 1]
  }

  /** Importance that the first n heads capture under a budget. */
  function Captured(imp: seq<seq<real>>, a: seq<nat>, n: nat): real
    requires n <= |imp| == |a| && forall h :: 0 <= h < |imp| ==> a[h] <= |imp[h]|
  {
    if n == 0 then 0.0 else Captured(imp, a, n - 1) + Prefix(imp[n - 1], a[n - 1])
  }

  /** n keys at value v each. */
  function Scaled(v: real, n: int): real { v * n as real }

  lemma ScaledAdd(v: real, x: int, y: int)
    ensures Scaled(v, x + y) == Scaled(v, x) + Scaled(v, y)
    ensures Scaled(v, 0) == 0.0 && Scaled(v, 1) == v && Scaled(v, -x) == -Scaled(v, x)
  {
    assert (x + y) as real == x as real + y as real && (-x) as real == -(x as real);
  }

  lemma {:induction false} GainBound(row: seq<real>, a: nat, b: nat, v: real)
    requires a <= b <= |row| && forall r :: a <= r < b ==> row[r] <= v
    ensures Prefix(row, b) - Prefix(row, a) <= Scaled(v, b - a)
  {
    hide Scaled;
    ScaledAdd(v, b - 1 - a, 1);
    if a < b { GainBound(row, a, b - 1, v); }
  }

  lemma {:induction false} LossBound(row: seq<real>, a: nat, b: nat, v: real)
    requires b <= a <= |row| && forall r :: b <= r < a ==> row[r] >= v
    ensures Prefix(row, a) - Prefix(row, b) >= Scaled(v, a - b)
  {
    hide Scaled;
    ScaledAdd(v, a - 1 - b, 1);
    if b < a { LossBound(row, a - 1, b, v); }
  }

  /** Moving from a to any other budget b gains at most v a key. */
  lemma Exchange(row: seq<real>, a: nat, b: nat, lo: nat, v: real)
    requires a <= |row| && lo <= b <= |row| && lo <= a && Separates(row, a, lo, v)
    ensures Prefix(row, b) - Prefix(row, a) <= Scaled(v, b - a)
  {
    hide Scaled, Prefix;
    ScaledAdd(v, a - b, 0);
    if a <= b { GainBound(row, a, b, v); } else { LossBound(row, a, b, v); }
  }

  lemma {:induction false} TotalExchange(imp: seq<seq<real>>, T: nat, a: seq<nat>, b: seq<nat>, lo: nat, v: real,
                                         n: nat)
    requires n <= |imp| == |a| == |b| && forall h :: 0 <= h < |imp| ==> |imp[h]| == T
    requires forall h :: 0 <= h < |imp| ==> lo <= a[h] <= T && lo <= b[h] <= T && Separates(imp[h], a[h], lo, v)
    ensures Captured(imp, b, n) - Captured(imp, a, n) <= Scaled(v, Sum(b, n) - Sum(a, n))
  {
    hide Scaled, Prefix, Separates;
    if n == 0 {
      ScaledAdd(v, 0, 0);
    } else {
      TotalExchange(imp, T, a, b, lo, v, n - 1);
      Exchange(imp[n - 1], a[n - 1], b[n - 1], lo, v);
      var rest: int, last: int := Sum(b, n - 1) - Sum(a, n - 1), b[n - 1] as int - a[n - 1] as int;
      ScaledAdd(v, rest, last);
      assert Sum(b, n) - Sum(a, n) == rest + last;
    }
  }

  // ---- the allocator ---------------------------------------------------------------------------------------


  /** A budget of t keys a head on average, with at least lo and at most T for each. */
  ghost predicate Feasible(a: seq<nat>, heads: nat, t: nat, lo: nat, T: nat) {
    |a| == heads && Sum(a, heads) == t * heads && forall h :: 0 <= h < heads ==> lo <= a[h] <= T
  }

  ghost predicate Optimal(imp: seq<seq<real>>, a: seq<nat>, t: nat, lo: nat, T: nat)
    requires Shape(imp, T) && |a| == |imp| && forall h :: 0 <= h < |imp| ==> a[h] <= T
  {
    forall b: seq<nat> :: Feasible(b, |imp|, t, lo, T) ==> Captured(imp, b, |imp|) <= Captured(imp, a, |imp|)
  }

  method AllocateBudget(imp: seq<seq<real>>, t: nat, T: nat, minTokens: nat, uniform: bool) returns (alloc: seq<nat>)
    requires Shape(imp, T)
    ensures |alloc| == |imp|
    ensures uniform || t >= T ==> forall h :: 0 <= h < |imp| ==> alloc[h] == t
    ensures !uniform && 1 <= t < T ==>
              && Feasible(alloc, |imp|, t, Max(1, Min(minTokens, t)), T)
              && Optimal(imp, alloc, t, Max(1, Min(minTokens, t)), T)
    ensures !uniform && t == 0 < T ==> forall h :: 0 <= h < |imp| ==> alloc[h] == 1
    ensures Sum(alloc, |imp|) == t * |imp| <==> uniform || t >= T || t >= 1 || |imp| == 0
  {
    hide Optimal, Sum, Shape, Descending, SortDesc, Pool, Count;
    var n := |imp|;
    if uniform || t >= T {
      alloc := seq(n, _ => t);
      SumConstant(alloc, t, n);
      return;
    }
    var lo := Max(1, Min(minTokens, t));
    alloc := seq(n, _ => lo);
    SumConstant(alloc, lo, n);
    FloorRoom(t, lo, T, n);
    var remaining := t * n - lo * n;
    if remaining <= 0 {
      // Nothing left to hand out. For t == 0 the floor of one key a head already exceeds the budget.
      if t >= 1 { OnlyTheFloor(imp, t, T, lo, alloc); }
      alloc := Capped(alloc, T);
      return;
    }
    assert forall h :: 0 <= h < n ==> |imp[h]| == T by { ShapeLengths(imp, T); }
    var cands := SortDesc(Pool(imp, lo, T, n));
    SortKeeps(Pool(imp, lo, T, n), n);
    PoolLength(imp, lo, T, n);
    alloc := Spend(cands, remaining, alloc, lo);
    SpendIsOptimal(imp, t, T, lo, cands, remaining, alloc);
    alloc := Capped(alloc, T);
  }

  /** An empty budget over one head with one token: the head still gets its key, one more than the budget holds. */
  method OverspendsEmptyBudget() returns (alloc: seq<nat>)
    ensures alloc == [1] && Sum(alloc, 1) == 1 > 0 * 1
  {
    alloc := AllocateBudget([[0.5]], 0, 1, 0, false);
    assert alloc[..0] == [] && Sum(alloc, 0) == 0;
  }

  /** No head gets more than T; allocations that respect this already are left as they are. */
  function Capped(a: seq<nat>, T: nat): (r: seq<nat>)
    ensures |r| == |a| && forall h :: 0 <= h < |a| ==> r[h] == Min(a[h], T)
    ensures (forall h :: 0 <= h < |a| ==> a[h] <= T) ==> r == a
  {
    seq(|a|, h requires 0 <= h < |a| => Min(a[h], T))
  }

  lemma ShapeLengths(imp: seq<seq<real>>, T: nat)
    requires Shape(imp, T)
    ensures forall h :: 0 <= h < |imp| ==> |imp[h]| == T
  {}

  /** What the floor leaves of the budget, and that the pool can absorb it. */
  lemma FloorRoom(t: nat, lo: nat, T: nat, n: nat)
    requires t < T && lo <= T
    ensures t >= lo ==> 0 <= t * n - lo * n <= n * (T - lo)
    ensures t * n - lo * n <= 0 <==> t <= lo || n == 0
    ensures t == 0 && lo == 1 ==> (lo * n == t * n <==> n == 0)
  {
    assert t * n - lo * n == n * (t - lo);
    assert n * (T - lo) == n * (t - lo) + n * (T - t);
  }

  lemma SpendIsOptimal(imp: seq<seq<real>>, t: nat, T: nat, lo: nat, cands: seq<Cand>, remaining: nat, alloc: seq<nat>)
    requires Shape(imp, T) && lo <= t < T && |alloc| == |imp|
    requires cands == SortDesc(Pool(imp, lo, T, |imp|)) && Sorted(cands) && 0 < remaining <= |cands|
    requires forall h :: 0 <= h < |imp| ==> alloc[h] == lo + Count(cands[..remaining], h, Any)
    requires Sum(alloc, |imp|) == t * |imp|
    ensures Feasible(alloc, |imp|, t, lo, T) && Optimal(imp, alloc, t, lo, T)
  {
    hide Count, Captured, Sum, Scaled, Separates, SortDesc, Pool, Descending;
    var v := cands[remaining - 1].value;
    forall h | 0 <= h < |imp| ensures lo <= alloc[h] <= T && Separates(imp[h], alloc[h], lo, v) {
      CutSeparates(imp, lo, T, cands, remaining, v, h);
    }
    ScaledAdd(v, 0, 0);
    forall b: seq<nat> | Feasible(b, |imp|, t, lo, T) ensures Captured(imp, b, |imp|) <= Captured(imp, alloc, |imp|) {
      TotalExchange(imp, T, alloc, b, lo, v, |imp|);
    }
  }

  /** When the floor uses up the budget there is no other allocation. */
  lemma OnlyTheFloor(imp: seq<seq<real>>, t: nat, T: nat, lo: nat, alloc: seq<nat>)
    requires Shape(imp, T) && |alloc| == |imp| && t < T && (t == lo || |imp| == 0)
    requires forall h :: 0 <= h < |imp| ==> alloc[h] == lo
    ensures forall h :: 0 <= h < |imp| ==> alloc[h] <= T
    ensures Optimal(imp, alloc, t, lo, T)
  {
    forall b: seq<nat> | Feasible(b, |imp|, t, lo, T) ensures b == alloc {
      if t == lo { FloorForced(b, lo, |imp|); }
    }
  }

  lemma {:induction false} FloorForced(b: seq<nat>, lo: nat, n: nat)
    requires n <= |b| && forall h :: 0 <= h < n ==> b[h] >= lo
    ensures Sum(b, n) >= lo * n
    ensures Sum(b, n) == lo * n ==> forall h :: 0 <= h < n ==> b[h] == lo
  {
    if n > 0 { FloorForced(b, lo, n - 1); assert lo * n == lo * (n - 1) + lo; }
  }

  /** Hand one key to the head of each of the first candidates. */
  method Spend(cands: seq<Cand>, remaining: nat, alloc0: seq<nat>, lo: nat) returns (alloc: seq<nat>)
    requires remaining <= |cands| && forall i :: 0 <= i < |cands| ==> cands[i].head < |alloc0|
    requires forall h :: 0 <= h < |alloc0| ==> alloc0[h] == lo
    ensures |alloc| == |alloc0|
    ensures forall h :: 0 <= h < |alloc| ==> alloc[h] == lo + Count(cands[..remaining], h, Any)
    ensures Sum(alloc, |alloc|) == Sum(alloc0, |alloc|) + remaining
  {
    alloc := alloc0;
    for i := 0 to remaining
      invariant |alloc| == |alloc0|
      invariant forall h :: 0 <= h < |alloc| ==> alloc[h] == lo + Count(cands[..i], h, Any)
      invariant Sum(alloc, |alloc|) == Sum(alloc0, |alloc|) + i
    {
      var h := cands[i].head;
      assert cands[..i + 1][..i] == cands[..i];
      SumUpdate(alloc, h, alloc[h] + 1, |alloc|);
      alloc := alloc[h := alloc[h] + 1];
    }
  }

  lemma {:induction false} SumConstant(a: seq<nat>, c: nat, n: nat)
    requires n <= |a| && forall h :: 0 <= h < n ==> a[h] == c
    ensures Sum(a, n) == c * n
  {
    if n > 0 { SumConstant(a, c, n - 1); assert c * n == c * (n - 1) + c; }
  }

  lemma {:induction false} SumUpdate(a: seq<nat>, h: nat, x: nat, n: nat)
    requires n <= |a| && h < |a|
    ensures Sum(a[h := x], n) == Sum(a, n) + if h < n then x - a[h] else 0
  {
    if n > 0 { SumUpdate(a, h, x, n - 1); }
  }
}
