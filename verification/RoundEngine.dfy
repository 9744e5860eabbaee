/**
 The live engine in global rounds: every still-unsolved problem draws B more samples, the
 problems with a pass are dropped, and the next round starts with the others.
 */
module RoundEngine {
  import opened Arith
  import opened VerifierCost

  /** Every problem has k samples. */
  ghost predicate Wide(rows: seq<seq<Sample>>, k: nat) {
    forall i :: 0 <= i < |rows| ==> k <= |rows[i]|
  }

  /** us names problems. */
  ghost predicate Names(rows: seq<seq<Sample>>, us: seq<nat>) {
    forall a :: 0 <= a < |us| ==> us[a] < |rows|
  }

  /** The problems of us, in order, whose first k samples all failed. */
  ghost function Failing(rows: seq<seq<Sample>>, us: seq<nat>, k: nat): (r: seq<nat>)
    requires Names(rows, us) && Wide(rows, k)
    ensures Names(rows, r)
  {
    if us == [] then [] else
      var u := us[|us| - 1];
      Failing(rows, us[..|us| - 1], k) + if AnyPass(rows[u], 0, k) then [] else [u]
  }

  function Range(n: nat): (r: seq<nat>)
    ensures |r| == n && forall i :: 0 <= i < n ==> r[i] == i
  {
    seq(n, i => i)
  }

  /** Tokens that samples lo..hi-1 of the problems in us add. */
  ghost function Added(rows: seq<seq<Sample>>, us: seq<nat>, lo: nat, hi: nat): nat
    requires lo <= hi && Names(rows, us) && Wide(rows, hi)
  {
    if us == [] then 0 else
      var u := us[|us| - 1];
      PrefixMonotone(rows[u], lo, hi);
      Added(rows, us[..|us| - 1], lo, hi) + (PrefixTokens(rows[u], hi) - PrefixTokens(rows[u], lo))
  }

  /** solved with the problems of us that pass within k samples marked. */
  ghost function Marked(rows: seq<seq<Sample>>, solved: seq<bool>, us: seq<nat>, k: nat): (r: seq<bool>)
    requires |solved| == |rows| && Names(rows, us) && Wide(rows, k)
    ensures |r| == |rows|
  {
    if us == [] then solved else
      var u := us[|us| - 1];
      var r := Marked(rows, solved, us[..|us| - 1], k);
      if AnyPass(rows[u], 0, k) then r[u := true] else r
  }

  /** What every problem has paid once each drew k samples or stopped before. */
  ghost function Paid(rows: seq<seq<Sample>>, B: nat, k: nat): (ks: seq<nat>)
    requires B > 0
    ensures |ks| == |rows|
    ensures forall i :: 0 <= i < |ks| ==> ks[i] == Min(BatchedSamples(rows[i], B), k) && ks[i] <= |rows[i]|
  {
    seq(|rows|, i requires 0 <= i < |rows| => Min(BatchedSamples(rows[i], B), k))
  }

  lemma {:induction false} FailingAgain(rows: seq<seq<Sample>>, us: seq<nat>, lo: nat, hi: nat)
    requires lo <= hi && Names(rows, us) && Wide(rows, hi)
    ensures Failing(rows, Failing(rows, us, lo), hi) == Failing(rows, us, hi)
  {
    if us != [] {
      var u := us[|us| - 1];
      FailingAgain(rows, us[..|us| - 1], lo, hi);
      var rest := Failing(rows, us[..|us| - 1], lo);
      assert !AnyPass(rows[u], 0, lo) ==> (rest + [u])[..|rest|] == rest;
      assert AnyPass(rows[u], 0, lo) ==> rest + [] == rest;
    }
  }

  lemma {:induction false} FailingMembers(rows: seq<seq<Sample>>, us: seq<nat>, k: nat, u: nat)
    requires Names(rows, us) && Wide(rows, k)
    requires u < |rows|
    ensures u in Failing(rows, us, k) <==> u in us && !AnyPass(rows[u], 0, k)
  {
    if us != [] {
      FailingMembers(rows, us[..|us| - 1], k, u);
      assert us == us[..|us| - 1] + [us[|us| - 1]];
    }
  }

  lemma {:induction false} MarkedMembers(rows: seq<seq<Sample>>, solved: seq<bool>, us: seq<nat>, k: nat, i: nat)
    requires |solved| == |rows| && Names(rows, us) && Wide(rows, k) && i < |rows|
    ensures Marked(rows, solved, us, k)[i] <==> solved[i] || (i in us && AnyPass(rows[i], 0, k))
  {
    if us != [] {
      MarkedMembers(rows, solved, us[..|us| - 1], k, i);
      assert us == us[..|us| - 1] + [us[|us| - 1]];
    }
  }

  /** What one more round of B changes for a problem that has drawn lo samples. */
  lemma RoundStep(row: seq<Sample>, B: nat, r: nat, lo: nat)
    requires B > 0 && lo == r * B && lo + B <= |row|
    ensures AnyPass(row, 0, lo + B) <==> AnyPass(row, 0, lo) || AnyPass(row, lo, lo + B)
    ensures AnyPass(row, 0, lo) ==> BatchedSamples(row, B) <= lo
    ensures !AnyPass(row, 0, lo) ==> lo + B <= BatchedSamples(row, B)
  {
    assert (r + 1) * B == lo + B;
    BatchedAgainstRounds(row, B, r);
    BatchedAgainstRounds(row, B, r + 1);
    if !AnyPass(row, 0, lo) { StopsInRound(row, B, r); }
  }

  /** A round adds to the early-stop bill exactly what the still-failing problems draw. */
  lemma {:induction false} RoundBill(rows: seq<seq<Sample>>, B: nat, r: nat, lo: nat, n: nat)
    requires B > 0 && lo == r * B && n <= |rows|
    requires Wide(rows, lo + B)
    ensures Total(rows, Paid(rows, B, lo + B), n) ==
            Total(rows, Paid(rows, B, lo), n) + Added(rows, Failing(rows, Range(n), lo), lo, lo + B)
  {
    hide AnyPass, BatchedSamples, PrefixTokens, Failing, Added, Range;
    if n == 0 {
      NobodyDraws(rows, lo, lo + B);
    } else {
      RoundBill(rows, B, r, lo, n - 1);
      RoundStep(rows[n - 1], B, r, lo);
      OneMoreDraws(rows, n - 1, lo, lo + B);
      PrefixMonotone(rows[n - 1], lo, lo + B);
    }
  }

  lemma NobodyDraws(rows: seq<seq<Sample>>, lo: nat, hi: nat)
    requires lo <= hi && Wide(rows, hi)
    ensures Added(rows, Failing(rows, Range(0), lo), lo, hi) == 0
  {}

  /** What problem n adds to the draws of the problems before it. */
  lemma OneMoreDraws(rows: seq<seq<Sample>>, n: nat, lo: nat, hi: nat)
    requires lo <= hi && Wide(rows, hi) && n < |rows|
    ensures Added(rows, Failing(rows, Range(n + 1), lo), lo, hi) ==
            Added(rows, Failing(rows, Range(n), lo), lo, hi) +
            if AnyPass(rows[n], 0, lo) then 0 else PrefixTokens(rows[n], hi) - PrefixTokens(rows[n], lo)
  {
    hide AnyPass, PrefixTokens;
    assert Range(n + 1)[..n] == Range(n);
    var rest := Failing(rows, Range(n), lo);
    if AnyPass(rows[n], 0, lo) {
      assert Failing(rows, Range(n + 1), lo) == rest;
    } else {
      assert Failing(rows, Range(n + 1), lo) == rest + [n];
      assert (rest + [n])[..|rest|] == rest;
    }
  }

  /** Every problem has drawn lo samples or stopped before; the engine's three variables say so. */
  ghost predicate AfterSamples(rows: seq<seq<Sample>>, B: nat, lo: nat, unsolved: seq<nat>, solved: seq<bool>,
                               tokens: nat)
  {
    && B > 0 && |solved| == |rows|
    && Wide(rows, lo)
    && unsolved == Failing(rows, Range(|rows|), lo)
    && (forall i :: 0 <= i < |rows| ==> solved[i] == AnyPass(rows[i], 0, lo))
    && tokens == Total(rows, Paid(rows, B, lo), |rows|)
  }

  /** One round: every unsolved problem draws B samples, is verified, and is dropped on a pass. */
  method Round(rows: seq<seq<Sample>>, B: nat, ghost r: nat, lo: nat, unsolved: seq<nat>, solved: seq<bool>,
               tokens: nat)
    returns (still: seq<nat>, solved': seq<bool>, tokens': nat)
    requires lo == r * B && AfterSamples(rows, B, lo, unsolved, solved, tokens)
    requires Wide(rows, lo + B)
    ensures AfterSamples(rows, B, lo + B, still, solved', tokens')
  {
    hide BatchedSamples, Total, PrefixTokens, AnyPass, Failing, Marked, Added;
    var hi := lo + B;
    still, solved', tokens' := [], solved, tokens;
    NoVisit(rows, solved, lo, hi);
    for j := 0 to |unsolved|
      invariant still == Failing(rows, unsolved[..j], hi)
      invariant solved' == Marked(rows, solved, unsolved[..j], hi)
      invariant tokens' == tokens + Added(rows, unsolved[..j], lo, hi)
    {
      var idx := unsolved[j];
      Visit(rows, solved, unsolved, j, lo, hi);
      RoundStep(rows[idx], B, r, lo);
      FailingMembers(rows, Range(|rows|), lo, idx);
      tokens' := tokens' + (PrefixTokens(rows[idx], hi) - PrefixTokens(rows[idx], lo));
      if AnyPass(rows[idx], lo, hi) {
        solved' := solved'[idx := true];
      } else {
        still := still + [idx];
      }
    }
    assert unsolved[..|unsolved|] == unsolved;
    RoundDone(rows, B, r, lo, unsolved, solved, tokens);
  }

  lemma NoVisit(rows: seq<seq<Sample>>, solved: seq<bool>, lo: nat, hi: nat)
    requires lo <= hi && |solved| == |rows| && Wide(rows, hi)
    ensures Failing(rows, [], hi) == [] && Marked(rows, solved, [], hi) == solved && Added(rows, [], lo, hi) == 0
  {}

  /** The effect of visiting one more problem on the three variables. */
  lemma Visit(rows: seq<seq<Sample>>, solved: seq<bool>, us: seq<nat>, j: nat, lo: nat, hi: nat)
    requires lo <= hi && |solved| == |rows| && Names(rows, us) && Wide(rows, hi) && j < |us|
    ensures PrefixTokens(rows[us[j]], lo) <= PrefixTokens(rows[us[j]], hi)
    ensures Added(rows, us[..j + 1], lo, hi) ==
            Added(rows, us[..j], lo, hi) + (PrefixTokens(rows[us[j]], hi) - PrefixTokens(rows[us[j]], lo))
    ensures Failing(rows, us[..j + 1], hi) ==
            Failing(rows, us[..j], hi) + if AnyPass(rows[us[j]], 0, hi) then [] else [us[j]]
    ensures Marked(rows, solved, us[..j + 1], hi) ==
            if AnyPass(rows[us[j]], 0, hi) then Marked(rows, solved, us[..j], hi)[us[j] := true]
            else Marked(rows, solved, us[..j], hi)
  {
    hide AnyPass, PrefixTokens;
    assert us[..j + 1][..j] == us[..j];
    PrefixMonotone(rows[us[j]], lo, hi);
  }

  lemma RoundDone(rows: seq<seq<Sample>>, B: nat, r: nat, lo: nat, unsolved: seq<nat>, solved: seq<bool>, tokens: nat)
    requires lo == r * B && AfterSamples(rows, B, lo, unsolved, solved, tokens)
    requires Wide(rows, lo + B)
    ensures AfterSamples(rows, B, lo + B, Failing(rows, unsolved, lo + B), Marked(rows, solved, unsolved, lo + B),
                         tokens + Added(rows, unsolved, lo, lo + B))
  {
    hide AnyPass, BatchedSamples, Total, PrefixTokens, Failing, Marked, Added;
    FailingAgain(rows, Range(|rows|), lo, lo + B);
    RoundBill(rows, B, r, lo, |rows|);
    forall i | 0 <= i < |rows|
      ensures Marked(rows, solved, unsolved, lo + B)[i] == AnyPass(rows[i], 0, lo + B)
    {
      RoundStep(rows[i], B, r, lo);
      MarkedMembers(rows, solved, unsolved, lo + B, i);
      FailingMembers(rows, Range(|rows|), lo, i);
      assert Range(|rows|)[i] == i;
    }
  }

  /** How many samples a problem can draw: the engine draws whole rounds, ceil(N/B) of them. */
  function Width(N: nat, B: nat): nat
    requires B > 0
  {
    RoundCount(N, B) * B
  }

  lemma WidthIs(N: nat, B: nat)
    requires B > 0
    ensures Width(N, B) == RoundCount(N, B) * B && N <= Width(N, B) < N + B
  {}

  /** Before the first round every problem is unsolved and nothing is paid. */
  lemma Initially(rows: seq<seq<Sample>>, B: nat)
    requires B > 0
    ensures AfterSamples(rows, B, 0, Range(|rows|), seq(|rows|, _ => false), 0)
  {
    hide BatchedSamples, Total, PrefixTokens, Failing, Range;
    NothingDrawn(rows, B, |rows|);
    NoneFails(rows, Range(|rows|));
  }

  /** All rounds. */
  method Run(rows: seq<seq<Sample>>, N: nat, B: nat) returns (solved: seq<bool>, tokens: nat)
    requires B > 0
    requires forall i :: 0 <= i < |rows| ==> |rows[i]| == Width(N, B)
    ensures |solved| == |rows|
    ensures forall i :: 0 <= i < |rows| ==> solved[i] == AnyPass(rows[i], 0, |rows[i]|)
    ensures tokens == Total(rows, BatchedPlan(rows, B), |rows|)
  {
    hide *;
    var rounds := RoundCount(N, B);
    ghost var width := Width(N, B);
    WidthIs(N, B);
    Initially(rows, B);
    var unsolved := Range(|rows|);
    solved, tokens := seq(|rows|, _ => false), 0;
    var r, lo := 0, 0;
    while r < rounds
      invariant 0 <= r <= rounds && lo == r * B
      invariant AfterSamples(rows, B, lo, unsolved, solved, tokens)
    {
      WideEnough(rows, B, r, lo, rounds, width);
      if |unsolved| == 0 { break; }
      unsolved, solved, tokens := Round(rows, B, r, lo, unsolved, solved, tokens);
      MulStep(r, B);
      r, lo := r + 1, lo + B;
    }
    Finished(rows, B, r, lo, unsolved, solved, tokens);
  }

  lemma WideEnough(rows: seq<seq<Sample>>, B: nat, r: nat, lo: nat, rounds: nat, width: nat)
    requires r < rounds && lo == r * B && width == rounds * B && forall i :: 0 <= i < |rows| ==> |rows[i]| == width
    ensures Wide(rows, lo + B)
  {
    MulStep(r, B);
    MulLe(r + 1, rounds, B);
  }

  lemma NoneFails(rows: seq<seq<Sample>>, us: seq<nat>)
    requires Names(rows, us)
    ensures Wide(rows, 0) && forall i :: 0 <= i < |rows| ==> !AnyPass(rows[i], 0, 0)
  {}

  /** When the rounds run out or nobody is left, the engine's variables are the early-stop bill and the verdicts. */
  lemma Finished(rows: seq<seq<Sample>>, B: nat, r: nat, lo: nat, unsolved: seq<nat>, solved: seq<bool>, tokens: nat)
    requires lo == r * B && AfterSamples(rows, B, lo, unsolved, solved, tokens)
    requires unsolved == [] || forall i :: 0 <= i < |rows| ==> |rows[i]| == lo
    ensures |solved| == |rows|
    ensures forall i :: 0 <= i < |rows| ==> solved[i] == AnyPass(rows[i], 0, |rows[i]|)
    ensures tokens == Total(rows, BatchedPlan(rows, B), |rows|)
  {
    hide BatchedSamples, Total, Failing;
    forall i | 0 <= i < |rows|
      ensures Paid(rows, B, lo)[i] == BatchedSamples(rows[i], B)
      ensures solved[i] == AnyPass(rows[i], 0, |rows[i]|)
    {
      assert Range(|rows|)[i] == i;
      FailingMembers(rows, Range(|rows|), lo, i);
      BatchedAgainstRounds(rows[i], B, r);
    }
    assert Paid(rows, B, lo) == BatchedPlan(rows, B);
  }

  lemma {:induction false} NothingDrawn(rows: seq<seq<Sample>>, B: nat, n: nat)
    requires B > 0 && n <= |rows|
    ensures Total(rows, Paid(rows, B, 0), n) == 0
    ensures Failing(rows, Range(n), 0) == Range(n)
  {
    hide BatchedSamples;
    if n > 0 {
      NothingDrawn(rows, B, n - 1);
      assert Range(n)[..n - 1] == Range(n - 1);
    }
  }

  /** The engine's verdict over the samples it draws is the naive best-of-N verdict over the
      first N of them, for all samples, exactly when B divides N. */
  lemma VerdictIsNaiveIff(N: nat, B: nat)
    requires B > 0
    ensures (forall row: seq<Sample> | |row| == Width(N, B) ::
               AnyPass(row, 0, |row|) == AnyPass(row, 0, N))
            <==> N % B == 0
  {
    hide AnyPass;
    if N % B == 0 {
      MultipleNeedsNoMore(N, B);
    } else {
      Overshoot(N, B);
      var row := LastOnly(Width(N, B));
      assert |row| == Width(N, B) && AnyPass(row, 0, |row|) != AnyPass(row, 0, N);
    }
  }

  /** A row of n samples of which only the last one passes. */
  function LastOnly(n: nat): (row: seq<Sample>)
    ensures |row| == n
  {
    seq(n, i => Sample(i == n - 1, 1))
  }

  lemma MultipleNeedsNoMore(N: nat, B: nat)
    requires B > 0 && N % B == 0
    ensures Width(N, B) == N
  {
    DivModSplit(N, B);
    MulLe(N / B + 1, RoundCount(N, B), B);
  }

  lemma Overshoot(N: nat, B: nat)
    requires B > 0 && N % B != 0
    ensures var row := LastOnly(Width(N, B)); AnyPass(row, 0, |row|) && !AnyPass(row, 0, N)
  {
    var drawn := RoundCount(N, B) * B;
    DivModUnique(drawn, RoundCount(N, B), 0, B);
    assert LastOnly(drawn)[drawn - 1].passed;
  }
}
