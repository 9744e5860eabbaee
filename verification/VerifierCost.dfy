/**
 Post-hoc cost of verifier-guided sampling: early stop after the first passing sample,
 early stop after the first round of B that holds a pass, and no early stop at all.
 */
module VerifierCost {
  import opened Wrappers
  import opened Arith

  datatype Sample = Sample(passed: bool, tokens: nat)

  /** Tokens of the first k samples. */
  function PrefixTokens(row: seq<Sample>, k: nat): nat
    requires k <= |row|
  {
    if k == 0 then 0 else PrefixTokens(row, k - 1) + row[k - 1].tokens
  }

  /** Some sample with index in [lo, hi) passes. */
  predicate AnyPass(row: seq<Sample>, lo: nat, hi: nat)
    requires hi <= |row|
  {
    exists s :: lo <= s < hi && row[s].passed
  }

  /** Index of the first passing sample at or after i; |row| when there is none. */
  function FirstPass(row: seq<Sample>, i: nat): (f: nat)
    requires i <= |row|
    ensures i <= f <= |row|
    ensures f < |row| ==> row[f].passed
    ensures !AnyPass(row, i, f)
    decreases |row| - i
  {
    if i == |row| || row[i].passed then i else FirstPass(row, i + 1)
  }

  /** Number of samples a round-of-B early stop pays for: all rounds up to the one of the first pass. */
  function BatchedSamples(row: seq<Sample>, B: nat): (k: nat)
    requires B > 0
    ensures k <= |row|
  {
    var f := FirstPass(row, 0);
    if f == |row| then |row| else Min(|row|, B * (f / B + 1))
  }

  /** Number of samples a one-by-one early stop pays for. */
  function SingleSamples(row: seq<Sample>): (k: nat)
    ensures k <= |row|
  {
    Min(|row|, FirstPass(row, 0) + 1)
  }

  /** Tokens of problems 0..n-1 when problem i pays for its first ks[i] samples. */
  function Total(rows: seq<seq<Sample>>, ks: seq<nat>, n: nat): nat
    requires n <= |rows| == |ks|
    requires forall i :: 0 <= i < n ==> ks[i] <= |rows[i]|
  {
    if n == 0 then 0 else Total(rows, ks, n - 1) + PrefixTokens(rows[n - 1], ks[n - 1])
  }

  /** Rounds of B that cover N samples. */
  function RoundCount(N: nat, B: nat): (rounds: nat)
    requires B > 0
    ensures N <= rounds * B < N + B
  {
    CeilDiv(N, B);
    (N + B - 1) / B
  }

  // ---- facts about rounds ------------------------------------------------------------------

  lemma RoundOf(f: nat, B: nat, r: nat)
    requires B > 0 && r * B <= f < (r + 1) * B
    ensures f / B == r && B * (f / B + 1) == (r + 1) * B
  {
    DivModUnique(f, r, f - r * B, B);
  }

  /** The batched stop in the r-th round, seen from the samples of that round. */
  lemma StopsInRound(row: seq<Sample>, B: nat, r: nat)
    requires B > 0 && r * B <= |row|
    requires !AnyPass(row, 0, r * B)
    ensures AnyPass(row, r * B, Min((r + 1) * B, |row|)) ==>
              BatchedSamples(row, B) == Min(|row|, (r + 1) * B)
    ensures !AnyPass(row, r * B, Min((r + 1) * B, |row|)) ==>
              !AnyPass(row, 0, Min((r + 1) * B, |row|))
  {
    if AnyPass(row, r * B, Min((r + 1) * B, |row|)) {
      RoundOf(FirstPass(row, 0), B, r);
    }
  }

  /** Whether the first r rounds hold a pass, read off the number of samples the batched stop pays for. */
  lemma BatchedAgainstRounds(row: seq<Sample>, B: nat, r: nat)
    requires B > 0 && r * B <= |row|
    ensures !AnyPass(row, 0, r * B) ==> r * B <= BatchedSamples(row, B)
    ensures AnyPass(row, 0, r * B) ==> BatchedSamples(row, B) <= r * B
  {
    hide AnyPass;
    var f := FirstPass(row, 0);
    DivModSplit(f, B);
    MulLe(r, f / B, B);
    MulLe(f / B + 1, r, B);
    FirstPassAgainst(row, r * B);
  }

  lemma FirstPassAgainst(row: seq<Sample>, k: nat)
    requires k <= |row|
    ensures AnyPass(row, 0, k) <==> FirstPass(row, 0) < k
  {}

  // ---- sums ---------------------------------------------------------------------------------

  lemma {:induction false} PrefixMonotone(row: seq<Sample>, j: nat, k: nat)
    requires j <= k <= |row|
    ensures PrefixTokens(row, j) <= PrefixTokens(row, k)
  {
    if j < k { PrefixMonotone(row, j, k - 1); }
  }

  lemma {:induction false} TotalMonotone(rows: seq<seq<Sample>>, js: seq<nat>, ks: seq<nat>, n: nat)
    requires n <= |rows| == |js| == |ks|
    requires forall i :: 0 <= i < n ==> js[i] <= ks[i] <= |rows[i]|
    ensures Total(rows, js, n) <= Total(rows, ks, n)
  {
    if n > 0 {
      TotalMonotone(rows, js, ks, n - 1);
      PrefixMonotone(rows[n - 1], js[n - 1], ks[n - 1]);
    }
  }

  // ---- the three strategies -------------------------------------------------------------------

  /** One-by-one stop <= batched stop <= no stop, for every row and every batch size. */
  lemma StrategyOrder(row: seq<Sample>, B: nat)
    requires B > 0
    ensures SingleSamples(row) <= BatchedSamples(row, B) <= |row|
    ensures AnyPass(row, 0, SingleSamples(row)) == AnyPass(row, 0, BatchedSamples(row, B)) == AnyPass(row, 0, |row|)
  {
    var f := FirstPass(row, 0);
    assert f == B * (f / B) + f % B;
    if f < |row| {
      assert row[f].passed && f < SingleSamples(row);
    }
  }

  method FirstPassIdx(row: seq<Sample>) returns (r: Option<nat>)
    ensures r.None? <==> !AnyPass(row, 0, |row|)
    ensures r.Some? ==> r.value < |row| && row[r.value].passed && !AnyPass(row, 0, r.value)
    ensures r == if FirstPass(row, 0) < |row| then Some(FirstPass(row, 0)) else None
  {
    var i := 0;
    while i < |row|
      invariant i <= |row| && !AnyPass(row, 0, i)
      invariant FirstPass(row, 0) == FirstPass(row, i)
    {
      if row[i].passed { return Some(i); }
      i := i + 1;
    }
    return None;
  }

  /** What one problem costs when its samples are drawn B at a time and drawing stops at a success. */
  method BatchedCost(row: seq<Sample>, B: nat) returns (cost: nat)
    requires B > 0
    ensures cost == PrefixTokens(row, BatchedSamples(row, B))
  {
    hide BatchedSamples, FirstPass, PrefixTokens, RoundCount;
    var rounds := RoundCount(|row|, B);
    var r := 0;
    while r < rounds
      invariant 0 <= r <= rounds
      invariant !AnyPass(row, 0, Min(r * B, |row|))
    {
      MulLe(r + 1, rounds, B);
      StopsInRound(row, B, r);
      if AnyPass(row, r * B, Min((r + 1) * B, |row|)) {
        return PrefixTokens(row, Min((r + 1) * B, |row|));
      }
      r := r + 1;
    }
    NoPassPaysAll(row, B);
    cost := PrefixTokens(row, Min(rounds * B, |row|));
  }

  lemma NoPassPaysAll(row: seq<Sample>, B: nat)
    requires B > 0 && !AnyPass(row, 0, |row|)
    ensures BatchedSamples(row, B) == |row|
  {}

  /** How many samples each problem pays for, one entry a problem. */
  ghost function AllPlan(rows: seq<seq<Sample>>): (ks: seq<nat>)
    ensures |ks| == |rows| && forall i :: 0 <= i < |ks| ==> ks[i] == |rows[i]|
  {
    seq(|rows|, i requires 0 <= i < |rows| => |rows[i]|)
  }

  ghost function SinglePlan(rows: seq<seq<Sample>>): (ks: seq<nat>)
    ensures |ks| == |rows| && forall i :: 0 <= i < |ks| ==> ks[i] == SingleSamples(rows[i])
  {
    seq(|rows|, i requires 0 <= i < |rows| => SingleSamples(rows[i]))
  }

  ghost function BatchedPlan(rows: seq<seq<Sample>>, B: nat): (ks: seq<nat>)
    requires B > 0
    ensures |ks| == |rows| && forall i :: 0 <= i < |ks| ==> ks[i] == BatchedSamples(rows[i], B)
  {
    seq(|rows|, i requires 0 <= i < |rows| => BatchedSamples(rows[i], B))
  }

  /** Problems among the first n that some sample solves. */
  function SolvedCount(rows: seq<seq<Sample>>, n: nat): nat
    requires n <= |rows|
  {
    if n == 0 then 0 else SolvedCount(rows, n - 1) + if AnyPass(rows[n - 1], 0, |rows[n - 1]|) then 1 else 0
  }

  lemma {:induction false} SolvedIsCount(rows: seq<seq<Sample>>, n: nat)
    requires n <= |rows|
    ensures SolvedCount(rows, n) == |set i | 0 <= i < n && AnyPass(rows[i], 0, |rows[i]|)|
  {
    hide AnyPass;
    var solved := set i | 0 <= i < n && AnyPass(rows[i], 0, |rows[i]|);
    if n == 0 {
      assert solved == {};
    } else {
      SolvedIsCount(rows, n - 1);
      var before := set i | 0 <= i < n - 1 && AnyPass(rows[i], 0, |rows[i]|);
      assert solved == if AnyPass(rows[n - 1], 0, |rows[n - 1]|) then before + {n - 1} else before;
    }
  }

  /** B=1 early stop <= batched early stop <= naive, summed over all problems. */
  lemma CostOrder(rows: seq<seq<Sample>>, B: nat)
    requires B > 0
    ensures Total(rows, SinglePlan(rows), |rows|) <= Total(rows, BatchedPlan(rows, B), |rows|)
    ensures Total(rows, BatchedPlan(rows, B), |rows|) <= Total(rows, AllPlan(rows), |rows|)
  {
    forall i | 0 <= i < |rows| ensures SingleSamples(rows[i]) <= BatchedSamples(rows[i], B) <= |rows[i]| {
      StrategyOrder(rows[i], B);
    }
    TotalMonotone(rows, SinglePlan(rows), BatchedPlan(rows, B), |rows|);
    TotalMonotone(rows, BatchedPlan(rows, B), AllPlan(rows), |rows|);
  }

  /** The post-hoc report over all problems. */
  method SearchCosts(rows: seq<seq<Sample>>, B: nat) returns (solved: nat, naive: nat, es1: nat, esB: nat)
    requires B > 0
    ensures solved == SolvedCount(rows, |rows|) == |set i | 0 <= i < |rows| && AnyPass(rows[i], 0, |rows[i]|)|
    ensures naive == Total(rows, AllPlan(rows), |rows|)
    ensures es1 == Total(rows, SinglePlan(rows), |rows|)
    ensures esB == Total(rows, BatchedPlan(rows, B), |rows|)
  {
    SolvedIsCount(rows, |rows|);
    solved, naive, es1, esB := 0, 0, 0, 0;
    for n := 0 to |rows|
      invariant solved == SolvedCount(rows, n)
      invariant naive == Total(rows, AllPlan(rows), n)
      invariant es1 == Total(rows, SinglePlan(rows), n)
      invariant esB == Total(rows, BatchedPlan(rows, B), n)
    {
      var row := rows[n];
      var fp := FirstPassIdx(row);
      if fp.Some? { solved := solved + 1; }
      naive := naive + PrefixTokens(row, |row|);
      var k := if fp.Some? then fp.value + 1 else |row|;
      es1 := es1 + PrefixTokens(row, k);
      var c := BatchedCost(row, B);
      esB := esB + c;
    }
  }
}
