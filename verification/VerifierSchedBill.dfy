/**
 The bill of the continuous scheduler, to the token: every answer to a request that was launched and had not been
 answered before is paid for, whether its problem is solved by then or not.
 */
module VerifierSchedBill {
  import opened Arith
  import opened VerifierCost
  import opened VerifierSched
  import opened VerifierSchedSafety

  /** The state after the first k outputs. */
  ghost function After(n: nat, N: nat, B: nat, outs: seq<Output>, k: nat): (s: State)
    requires k <= |outs|
    ensures Shape(s, n) && |s.solved| == n
  {
    Run(Start(n, N, B), outs[..k], N, B)
  }

  /** Output k finishes request r, which had been launched by then. */
  ghost predicate Answers(n: nat, N: nat, B: nat, outs: seq<Output>, k: nat, r: Rid)
    requires k < |outs|
  {
    outs[k].finished && outs[k].rid == r && r.idx < n && r.s < After(n, N, B, outs, k).launched[r.idx]
  }

  /** After the first k outputs request r has been launched, and none of them answered it. */
  ghost predicate Outstanding(n: nat, N: nat, B: nat, outs: seq<Output>, k: nat, r: Rid)
    requires k <= |outs|
  {
    && r.idx < n && r.s < After(n, N, B, outs, k).launched[r.idx]
    && forall j :: 0 <= j < k ==> !Answers(n, N, B, outs, j, r)
  }

  // ---- what is active ---------------------------------------------------------------------------

  lemma AfterStep(n: nat, N: nat, B: nat, outs: seq<Output>, k: nat)
    requires k < |outs|
    ensures After(n, N, B, outs, k + 1) == Deliver(After(n, N, B, outs, k), outs[k], N, B)
  {
    assert outs[..k + 1][..k] == outs[..k];
  }

  /** One output takes at most its own request out, and puts in exactly the newly launched ones. */
  lemma DeliverMoves(s: State, out: Output, N: nat, B: nat)
    requires Shape(s, |s.solved|)
    ensures var u := Deliver(s, out, N, B);
            && Shape(u, |s.solved|)
            && (forall i :: 0 <= i < |s.solved| ==> s.launched[i] <= u.launched[i])
            && forall r :: r in u.active <==>
                 (r in s.active && !(out.finished && r == out.rid)) ||
                 (r.idx < |s.solved| && s.launched[r.idx] <= r.s < u.launched[r.idx])
  {
    hide LaunchK;
    DeliverShape(s, out, N, B);
    if out.finished && out.rid in s.active {
      var i, t := out.rid.idx, Popped(s, out);
      if !t.solved[i] && !out.passed && t.inflight[i] == 0 && t.launched[i] < N {
        LaunchShape(t, i, Min(B, N - t.launched[i]));
      }
    }
  }

  lemma {:induction false} LaunchedGrows(n: nat, N: nat, B: nat, outs: seq<Output>, j: nat, k: nat, i: nat)
    requires j <= k <= |outs| && i < n
    ensures After(n, N, B, outs, j).launched[i] <= After(n, N, B, outs, k).launched[i]
  {
    hide After;
    if j < k {
      LaunchedGrows(n, N, B, outs, j, k - 1, i);
      AfterStep(n, N, B, outs, k - 1);
      DeliverMoves(After(n, N, B, outs, k - 1), outs[k - 1], N, B);
    }
  }

  /** In every run, honest or not, the scheduler waits for exactly the requests that are outstanding. */
  lemma {:induction false} ActiveIsOutstanding(n: nat, N: nat, B: nat, outs: seq<Output>, k: nat, r: Rid)
    requires k <= |outs|
    ensures r in After(n, N, B, outs, k).active <==> Outstanding(n, N, B, outs, k, r)
  {
    if k == 0 {
      SeedState(Empty(n), n, N, B);
    } else {
      ActiveIsOutstanding(n, N, B, outs, k - 1, r);
      ActiveStep(n, N, B, outs, k - 1, r);
    }
  }

  lemma ActiveStep(n: nat, N: nat, B: nat, outs: seq<Output>, k: nat, r: Rid)
    requires k < |outs| && (r in After(n, N, B, outs, k).active <==> Outstanding(n, N, B, outs, k, r))
    ensures r in After(n, N, B, outs, k + 1).active <==> Outstanding(n, N, B, outs, k + 1, r)
  {
    hide After, Outstanding, Deliver;
    OutstandingStep(n, N, B, outs, k, r);
    AfterStep(n, N, B, outs, k);
    DeliverMoves(After(n, N, B, outs, k), outs[k], N, B);
  }

  /** What one more output does to being outstanding. */
  lemma OutstandingStep(n: nat, N: nat, B: nat, outs: seq<Output>, k: nat, r: Rid)
    requires k < |outs|
    ensures Outstanding(n, N, B, outs, k + 1, r) <==>
            (Outstanding(n, N, B, outs, k, r) && !(outs[k].finished && r == outs[k].rid)) ||
            (r.idx < n && After(n, N, B, outs, k).launched[r.idx] <= r.s < After(n, N, B, outs, k + 1).launched[r.idx])
  {
    hide After;
    if r.idx < n {
      LaunchedGrows(n, N, B, outs, k, k + 1, r.idx);
      forall j | 0 <= j <= k
        ensures After(n, N, B, outs, j).launched[r.idx] <= After(n, N, B, outs, k).launched[r.idx]
      {
        LaunchedGrows(n, N, B, outs, j, k, r.idx);
      }
      if Outstanding(n, N, B, outs, k + 1, r) { assert !Answers(n, N, B, outs, k, r); }
      assert forall j :: 0 <= j < k + 1 && Answers(n, N, B, outs, j, r) ==> j < k || j == k;
    }
  }

  // ---- the bill of every run ----------------------------------------------------------------------

  /** Tokens that the first k outputs report for requests outstanding at the time. */
  ghost function Bill(n: nat, N: nat, B: nat, outs: seq<Output>, k: nat): nat
    requires k <= |outs|
  {
    if k == 0 then 0 else
      var out := outs[k - 1];
      Bill(n, N, B, outs, k - 1) +
      if out.finished && Outstanding(n, N, B, outs, k - 1, out.rid) then out.tokens else 0
  }

  lemma DeliverTokens(s: State, out: Output, N: nat, B: nat)
    requires Shape(s, |s.solved|)
    ensures Deliver(s, out, N, B).tokens == s.tokens + if out.finished && out.rid in s.active then out.tokens else 0
  {
    hide LaunchK;
    if out.finished && out.rid in s.active {
      var i, t := out.rid.idx, Popped(s, out);
      if !t.solved[i] && !out.passed && t.inflight[i] == 0 && t.launched[i] < N {
        LaunchShape(t, i, Min(B, N - t.launched[i]));
      }
    }
  }

  /** Every answer is billed once, also the answers of aborted requests, and nothing else is. */
  lemma {:induction false} BillIsExact(n: nat, N: nat, B: nat, outs: seq<Output>, k: nat)
    requires k <= |outs|
    ensures After(n, N, B, outs, k).tokens == Bill(n, N, B, outs, k)
  {
    if k == 0 {
      SeedState(Empty(n), n, N, B);
    } else {
      hide After, Outstanding, Deliver;
      BillIsExact(n, N, B, outs, k - 1);
      AfterStep(n, N, B, outs, k - 1);
      DeliverTokens(After(n, N, B, outs, k - 1), outs[k - 1], N, B);
      ActiveIsOutstanding(n, N, B, outs, k - 1, outs[k - 1].rid);
    }
  }

  // ---- the bill of honest runs ------------------------------------------------------------------------

  /** The part of the bill that aborted requests reported. */
  ghost function Partial(n: nat, N: nat, B: nat, outs: seq<Output>, k: nat): nat
    requires k <= |outs|
  {
    if k == 0 then 0 else
      var out := outs[k - 1];
      Partial(n, N, B, outs, k - 1) +
      if out.finished && Outstanding(n, N, B, outs, k - 1, out.rid) && out.rid in After(n, N, B, outs, k - 1).aborted
      then out.tokens else 0
  }

  /** Requests that do not count as settled: still outstanding, or aborted. */
  ghost function Unsettled(s: State): (m: map<Rid, nat>)
    ensures forall r :: r in m <==> r in s.active || r in s.aborted
  {
    map r | r in s.active.Keys + s.aborted :: r.idx
  }

  /** The full tokens of all launched samples of the first n problems that were answered without being aborted. */
  ghost function Settled(rows: seq<seq<Sample>>, s: State, n: nat): nat
    requires n <= |rows| == |s.launched|
    requires forall i :: 0 <= i < n ==> s.launched[i] <= |rows[i]|
  {
    SpentTotal(rows, s.(active := Unsettled(s)), n)
  }

  /** Problem i's settled tokens after an output that concerns it, launch or not. */
  lemma RowSettles(row: seq<Sample>, s: State, u: State, i: nat, x: nat)
    requires i < |s.launched| == |u.launched| && x < s.launched[i] <= u.launched[i] <= |row|
    requires Rid(i, x) in s.active
    requires forall y: nat :: Rid(i, y) in u.active || Rid(i, y) in u.aborted <==>
               (Rid(i, y) in s.active && y != x) || Rid(i, y) in s.aborted || s.launched[i] <= y < u.launched[i]
    ensures Spent(row, Unsettled(u), i, u.launched[i]) == Spent(row, Unsettled(s), i, s.launched[i]) +
            if Rid(i, x) in s.aborted then 0 else row[x].tokens
  {
    hide Unsettled;
    var l := s.launched[i];
    var popped := if Rid(i, x) in s.aborted then Unsettled(s) else Unsettled(s) - {Rid(i, x)};
    PopAccounts(row, Unsettled(s), i, x, l);
    LaunchAccounts(row, popped, Unsettled(u), i, l, u.launched[i] - l);
  }

  /** What one honest output changes for its own problem and for the others. */
  lemma DeliverTouches(rows: seq<seq<Sample>>, N: nat, B: nat, s: State, out: Output)
    requires Inv(rows, N, B, s) && out.finished && out.rid in s.active
    ensures out.rid.idx < |rows| && out.rid.s < s.launched[out.rid.idx] <= N
    ensures var u, i, x := Deliver(s, out, N, B), out.rid.idx, out.rid.s;
            && |u.launched| == |rows| && s.launched[i] <= u.launched[i] <= N
            && (forall y: nat :: Rid(i, y) in u.active || Rid(i, y) in u.aborted <==>
                (Rid(i, y) in s.active && y != x) || Rid(i, y) in s.aborted || s.launched[i] <= y < u.launched[i])
            && (forall j :: 0 <= j < |rows| && j != i ==> SameProblem(s, u, j))
  {
    hide LaunchK, ActiveCount, BatchedSamples, AnyPass, SpentTotal;
    var i, x, t := out.rid.idx, out.rid.s, Popped(s, out);
    assert out.rid == Rid(i, x);
    assert ProblemInv(rows[i], B, i, s);
    DeliverShape(s, out, N, B);
    if !t.solved[i] && !out.passed && t.inflight[i] == 0 && t.launched[i] < N {
      LaunchShape(t, i, Min(B, N - t.launched[i]));
    }
  }

  /** An honest answer settles its sample's full tokens, or is the partial count of an aborted request. */
  lemma DeliverSettles(rows: seq<seq<Sample>>, N: nat, B: nat, s: State, out: Output)
    requires Inv(rows, N, B, s) && Inv(rows, N, B, Deliver(s, out, N, B)) && Honest(rows, s, out)
    requires out.finished && out.rid in s.active
    ensures Settled(rows, Deliver(s, out, N, B), |rows|) ==
            Settled(rows, s, |rows|) + if out.rid in s.aborted then 0 else out.tokens
  {
    hide Deliver, SpentTotal, Spent, Unsettled, ProblemInv;
    InvLaunched(rows, N, B, s);
    var i, x, u := out.rid.idx, out.rid.s, Deliver(s, out, N, B);
    InvLaunched(rows, N, B, u);
    DeliverTouches(rows, N, B, s, out);
    RowSettles(rows[i], s, u, i, x);
    var s2, u2 := s.(active := Unsettled(s)), u.(active := Unsettled(u));
    forall j | 0 <= j < |rows| && j != i ensures SameProblem(s2, u2, j) {
      assert SameProblem(s, u, j);
    }
    SpentTotalStep(rows, s2, u2, i, |rows|);
  }

  lemma InvLaunched(rows: seq<seq<Sample>>, N: nat, B: nat, s: State)
    requires Inv(rows, N, B, s)
    ensures |s.launched| == |rows| && forall i :: 0 <= i < |rows| ==> s.launched[i] <= |rows[i]|
  {
    forall i | 0 <= i < |rows| ensures s.launched[i] <= |rows[i]| { assert ProblemInv(rows[i], B, i, s); }
  }

  lemma HonestPrefix(rows: seq<seq<Sample>>, N: nat, B: nat, outs: seq<Output>, k: nat)
    requires k < |outs| && HonestRun(rows, Start(|rows|, N, B), outs[..k + 1], N, B)
    ensures HonestRun(rows, Start(|rows|, N, B), outs[..k], N, B)
    ensures Honest(rows, After(|rows|, N, B, outs, k), outs[k])
  {
    assert outs[..k + 1][..k] == outs[..k];
  }

  /** At every moment of an honest run the bill is the settled samples in full plus what aborted requests reported. */
  lemma {:induction false} BillSplits(rows: seq<seq<Sample>>, N: nat, B: nat, outs: seq<Output>, k: nat)
    requires B > 0 && k <= |outs| && forall i :: 0 <= i < |rows| ==> |rows[i]| == N
    requires HonestRun(rows, Start(|rows|, N, B), outs[..k], N, B)
    ensures var s := After(|rows|, N, B, outs, k);
            && (forall i :: 0 <= i < |rows| ==> s.launched[i] <= |rows[i]|)
            && s.tokens == Settled(rows, s, |rows|) + Partial(|rows|, N, B, outs, k)
  {
    hide Deliver, Inv, Settled, Outstanding, HonestRun, Seed;
    var s := After(|rows|, N, B, outs, k);
    RunKeepsInv(rows, N, B, outs[..k]);
    InvLaunched(rows, N, B, s);
    if k == 0 {
      SeedState(Empty(|rows|), |rows|, N, B);
      NothingSettled(rows, N, B, s, |rows|);
    } else {
      var before, out := After(|rows|, N, B, outs, k - 1), outs[k - 1];
      HonestPrefix(rows, N, B, outs, k - 1);
      BillSplits(rows, N, B, outs, k - 1);
      RunKeepsInv(rows, N, B, outs[..k - 1]);
      AfterStep(|rows|, N, B, outs, k - 1);
      DeliverTokens(before, out, N, B);
      ActiveIsOutstanding(|rows|, N, B, outs, k - 1, out.rid);
      if out.finished && out.rid in before.active {
        DeliverSettles(rows, N, B, before, out);
      } else {
        IgnoredOutput(before, out, N, B);
      }
    }
  }

  lemma IgnoredOutput(s: State, out: Output, N: nat, B: nat)
    requires Shape(s, |s.solved|) && (!out.finished || out.rid !in s.active)
    ensures Deliver(s, out, N, B) == s
  {}

  lemma {:induction false} NothingSettled(rows: seq<seq<Sample>>, N: nat, B: nat, s: State, n: nat)
    requires n <= |rows| == |s.launched| && s.aborted == {}
    requires forall i :: 0 <= i < |rows| ==> s.launched[i] == Min(B, N) <= |rows[i]|
    requires forall r :: r in s.active <==> r.idx < |rows| && r.s < Min(B, N)
    ensures Settled(rows, s, n) == 0
  {
    if n > 0 {
      NothingSettled(rows, N, B, s, n - 1);
      LaunchAccounts(rows[n - 1], map[], Unsettled(s), n - 1, 0, Min(B, N));
    }
  }

  /** Tokens of the launched samples of the first n problems that were not aborted. */
  ghost function Unaborted(rows: seq<seq<Sample>>, s: State, n: nat): nat
    requires n <= |rows| == |s.launched|
    requires forall i :: 0 <= i < n ==> s.launched[i] <= |rows[i]|
  {
    SpentTotal(rows, s.(active := map r | r in s.aborted :: r.idx), n)
  }

  lemma {:induction false} DrainedSettles(rows: seq<seq<Sample>>, s: State, n: nat)
    requires n <= |rows| == |s.launched| && Drained(s)
    requires forall i :: 0 <= i < n ==> s.launched[i] <= |rows[i]|
    ensures Settled(rows, s, n) == Unaborted(rows, s, n)
  {
    if n > 0 {
      DrainedSettles(rows, s, n - 1);
      SpentFrame(rows[n - 1], Unsettled(s), map r | r in s.aborted :: r.idx, n - 1, s.launched[n - 1]);
    }
  }

  /** When an honest run drains, it has paid for every launched sample that was not aborted in full, and on top of that
      exactly for what the aborted ones reported. */
  lemma DrainedBill(rows: seq<seq<Sample>>, N: nat, B: nat, outs: seq<Output>)
    requires B > 0 && forall i :: 0 <= i < |rows| ==> |rows[i]| == N
    requires HonestRun(rows, Start(|rows|, N, B), outs, N, B)
    requires Drained(Run(Start(|rows|, N, B), outs, N, B))
    ensures var s := Run(Start(|rows|, N, B), outs, N, B);
            && (forall i :: 0 <= i < |rows| ==> s.launched[i] <= |rows[i]|)
            && s.tokens == Unaborted(rows, s, |rows|) + Partial(|rows|, N, B, outs, |outs|)
            && Unaborted(rows, s, |rows|) <= s.tokens
  {
    hide Run, HonestRun, Settled, Unaborted, Drained;
    assert outs[..|outs|] == outs;
    BillSplits(rows, N, B, outs, |outs|);
    DrainedSettles(rows, Run(Start(|rows|, N, B), outs, N, B), |rows|);
  }

  /** An aborted sibling that reports 7 tokens after its problem was solved for 10: both are billed. */
  lemma AbortedSiblingIsBilled()
    ensures var outs := [Output(Rid(0, 0), true, true, 10), Output(Rid(0, 1), true, false, 7)];
            After(1, 2, 2, outs, 2).tokens == 17 && After(1, 2, 2, outs, 2).solved == [true]
  {
    var outs := [Output(Rid(0, 0), true, true, 10), Output(Rid(0, 1), true, false, 7)];
    SeedState(Empty(1), 1, 2, 2);
    var s0 := Start(1, 2, 2);
    AfterStep(1, 2, 2, outs, 0);
    AfterStep(1, 2, 2, outs, 1);
    assert After(1, 2, 2, outs, 0) == s0;
    var s1 := Deliver(s0, outs[0], 2, 2);
    assert s1.tokens == 10 && s1.solved[0] && Rid(0, 1) in s1.active;
  }
}
