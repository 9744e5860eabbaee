/**
 What every run of the continuous scheduler keeps, for every order in which an honest engine
 finishes and drops requests: the verdicts of the naive baseline and the bill of the post-hoc
 batched early stop.
 */
module VerifierSchedSafety {
  import opened Arith
  import opened VerifierCost
  import opened VerifierSched

  /** The engine tells the truth about running requests: a request that was not aborted finishes
      with its own sample; an aborted one may report any verdict and at most the sample's tokens. */
  ghost predicate Honest(rows: seq<seq<Sample>>, s: State, out: Output) {
    out.finished && out.rid in s.active && out.rid.idx < |rows| && out.rid.s < |rows[out.rid.idx]| ==>
      var x := rows[out.rid.idx][out.rid.s];
      if out.rid in s.aborted then out.tokens <= x.tokens
      else out.tokens == x.tokens && out.passed == x.passed
  }

  ghost predicate HonestRun(rows: seq<seq<Sample>>, s: State, outs: seq<Output>, N: nat, B: nat)
    requires Shape(s, |s.solved|)
  {
    outs != [] ==>
      var before := outs[..|outs| - 1];
      HonestRun(rows, s, before, N, B) && Honest(rows, Run(s, before, N, B), outs[|outs| - 1])
  }

  /** No request is left that the engine still owes an answer: the loop can end. */
  ghost predicate Drained(s: State) {
    forall r :: r in s.active ==> r in s.aborted
  }

  // ---- per-problem accounts ---------------------------------------------------------------------

  function ActiveCount(active: map<Rid, nat>, i: nat, l: nat): nat {
    if l == 0 then 0 else ActiveCount(active, i, l - 1) + if Rid(i, l - 1) in active then 1 else 0
  }

  /** Tokens of the samples below l that are no longer active. */
  function Spent(row: seq<Sample>, active: map<Rid, nat>, i: nat, l: nat): nat
    requires l <= |row|
  {
    if l == 0 then 0 else Spent(row, active, i, l - 1) + if Rid(i, l - 1) in active then 0 else row[l - 1].tokens
  }

  /** The state of problem i while it is unsolved and its w-th wave is out. */
  ghost predicate OpenWave(row: seq<Sample>, B: nat, i: nat, s: State, w: nat)
    requires i < |s.launched| == |s.inflight|
  {
    var l := s.launched[i];
    && w >= 1 && (w - 1) * B <= |row| && l == Min(|row|, w * B)
    && (forall x: nat :: x < l && (Rid(i, x) !in s.active || x < (w - 1) * B) ==> !row[x].passed)
    && (forall x: nat :: x < (w - 1) * B ==> Rid(i, x) !in s.active)
    && (forall x: nat :: Rid(i, x) !in s.aborted)
    && (s.inflight[i] == 0 ==> l == |row|)
  }

  /** The state of problem i once solved: only aborted siblings are still out. */
  ghost predicate Closed(row: seq<Sample>, B: nat, i: nat, s: State)
    requires B > 0 && i < |s.launched|
  {
    && AnyPass(row, 0, |row|)
    && s.launched[i] == BatchedSamples(row, B)
    && forall x: nat :: Rid(i, x) in s.active ==> Rid(i, x) in s.aborted
  }

  ghost predicate ProblemInv(row: seq<Sample>, B: nat, i: nat, s: State)
    requires B > 0 && Shape(s, |s.solved|) && i < |s.solved|
  {
    && s.launched[i] <= |row|
    && (forall x: nat :: Rid(i, x) in s.active ==> x < s.launched[i])
    && s.inflight[i] == ActiveCount(s.active, i, s.launched[i])
    && if s.solved[i] then Closed(row, B, i, s) else exists w: nat :: OpenWave(row, B, i, s, w)
  }

  /** Tokens the first n problems have been billed for at most. */
  function SpentTotal(rows: seq<seq<Sample>>, s: State, n: nat): nat
    requires n <= |rows| == |s.launched|
    requires forall i :: 0 <= i < n ==> s.launched[i] <= |rows[i]|
  {
    if n == 0 then 0 else SpentTotal(rows, s, n - 1) + Spent(rows[n - 1], s.active, n - 1, s.launched[n - 1])
  }

  ghost predicate Inv(rows: seq<seq<Sample>>, N: nat, B: nat, s: State) {
    && B > 0 && Shape(s, |rows|)
    && (forall i :: 0 <= i < |rows| ==> |rows[i]| == N)
    && (forall i :: 0 <= i < |rows| ==> ProblemInv(rows[i], B, i, s))
    && s.tokens <= SpentTotal(rows, s, |rows|)
  }

  // ---- frames and counts ----------------------------------------------------------------------

  /** s and t agree on everything that concerns problem i. */
  ghost predicate SameProblem(s: State, t: State, i: nat) {
    && i < |s.solved| == |s.launched| == |s.inflight| == |t.solved| == |t.launched| == |t.inflight|
    && s.solved[i] == t.solved[i] && s.launched[i] == t.launched[i] && s.inflight[i] == t.inflight[i]
    && forall x: nat :: (Rid(i, x) in s.active <==> Rid(i, x) in t.active) && (Rid(i, x) in s.aborted <==>
        Rid(i, x) in t.aborted)
  }

  lemma {:induction false} CountFrame(a: map<Rid, nat>, b: map<Rid, nat>, i: nat, l: nat)
    requires forall x: nat :: x < l ==> (Rid(i, x) in a <==> Rid(i, x) in b)
    ensures ActiveCount(a, i, l) == ActiveCount(b, i, l)
  {
    if l > 0 { CountFrame(a, b, i, l - 1); }
  }

  lemma {:induction false} SpentFrame(row: seq<Sample>, a: map<Rid, nat>, b: map<Rid, nat>, i: nat, l: nat)
    requires l <= |row| && forall x: nat :: x < l ==> (Rid(i, x) in a <==> Rid(i, x) in b)
    ensures Spent(row, a, i, l) == Spent(row, b, i, l)
  {
    if l > 0 { SpentFrame(row, a, b, i, l - 1); }
  }

  lemma ProblemFrame(row: seq<Sample>, B: nat, i: nat, s: State, t: State)
    requires B > 0 && Shape(s, |s.solved|) && Shape(t, |s.solved|) && SameProblem(s, t, i)
    requires ProblemInv(row, B, i, s)
    ensures ProblemInv(row, B, i, t)
  {
    hide BatchedSamples, AnyPass, ActiveCount;
    CountFrame(s.active, t.active, i, s.launched[i]);
    if !s.solved[i] {
      var w: nat :| OpenWave(row, B, i, s, w);
      assert OpenWave(row, B, i, t, w);
    }
  }

  /** Popping sample x of problem i: one fewer active, its tokens become spent. */
  lemma {:induction false} PopAccounts(row: seq<Sample>, a: map<Rid, nat>, i: nat, x: nat, l: nat)
    requires l <= |row| && Rid(i, x) in a
    ensures ActiveCount(a - {Rid(i, x)}, i, l) == ActiveCount(a, i, l) - if x < l then 1 else 0
    ensures Spent(row, a - {Rid(i, x)}, i, l) == Spent(row, a, i, l) + if x < l then row[x].tokens else 0
  {
    if l > 0 { PopAccounts(row, a, i, x, l - 1); }
  }

  /** Launching k samples of problem i: all of them active, nothing spent. */
  lemma {:induction false} LaunchAccounts(row: seq<Sample>, a: map<Rid, nat>, b: map<Rid, nat>, i: nat, l: nat, k: nat)
    requires l + k <= |row|
    requires forall x: nat :: Rid(i, x) in b <==> Rid(i, x) in a || l <= x < l + k
    ensures ActiveCount(b, i, l + k) == ActiveCount(a, i, l) + k
    ensures Spent(row, b, i, l + k) == Spent(row, a, i, l)
  {
    LaunchAccountsUpTo(row, a, b, i, l, k, k);
  }

  lemma {:induction false} LaunchAccountsUpTo(row: seq<Sample>, a: map<Rid, nat>, b: map<Rid, nat>, i: nat, l: nat,
                                              k: nat, j: nat)
    requires j <= k && l + k <= |row|
    requires forall x: nat :: Rid(i, x) in b <==> Rid(i, x) in a || l <= x < l + k
    ensures ActiveCount(b, i, l + j) == ActiveCount(a, i, l) + j
    ensures Spent(row, b, i, l + j) == Spent(row, a, i, l)
  {
    if j == 0 {
      CountFrame(a, b, i, l);
      SpentFrame(row, a, b, i, l);
    } else {
      LaunchAccountsUpTo(row, a, b, i, l, k, j - 1);
    }
  }

  lemma {:induction false} CountZero(a: map<Rid, nat>, i: nat, l: nat, x: nat)
    requires x < l && ActiveCount(a, i, l) == 0
    ensures Rid(i, x) !in a
  {
    if x < l - 1 { CountZero(a, i, l - 1, x); }
  }

  lemma {:induction false} SpentBound(row: seq<Sample>, a: map<Rid, nat>, i: nat, l: nat)
    requires l <= |row|
    ensures Spent(row, a, i, l) <= PrefixTokens(row, l)
  {
    if l > 0 { SpentBound(row, a, i, l - 1); }
  }

  /** The bill of the whole batch moves with the one problem that moved. */
  lemma {:induction false} SpentTotalStep(rows: seq<seq<Sample>>, s: State, t: State, i: nat, n: nat)
    requires i < |rows| == |s.launched| == |t.launched| && n <= |rows|
    requires forall j :: 0 <= j < |rows| ==> s.launched[j] <= |rows[j]| && t.launched[j] <= |rows[j]|
    requires forall j :: 0 <= j < |rows| && j != i ==> SameProblem(s, t, j)
    ensures SpentTotal(rows, t, n) == SpentTotal(rows, s, n) +
            if i < n then Spent(rows[i], t.active, i, t.launched[i]) - Spent(rows[i], s.active, i, s.launched[i]) else 0
  {
    hide Spent;
    if n > 0 {
      SpentTotalStep(rows, s, t, i, n - 1);
      assert n - 1 != i ==> SameProblem(s, t, n - 1);
      if n - 1 != i { SpentFrame(rows[n - 1], s.active, t.active, n - 1, s.launched[n - 1]); }
    }
  }

  // ---- one output keeps the invariant ------------------------------------------------------------

  /** The wave that holds the first pass is the last one launched. */
  lemma PassEndsInWave(row: seq<Sample>, B: nat, w: nat, l: nat, x: nat)
    requires B > 0 && w >= 1 && (w - 1) * B <= |row| && l == Min(|row|, w * B)
    requires !AnyPass(row, 0, (w - 1) * B) && (w - 1) * B <= x < l && row[x].passed
    ensures BatchedSamples(row, B) == l && AnyPass(row, 0, |row|)
  {
    assert w * B == (w - 1) * B + B;
    StopsInRound(row, B, w - 1);
  }

  /** A pass closes the problem. */
  lemma PassCloses(row: seq<Sample>, B: nat, i: nat, s: State, x: nat, u: State)
    requires B > 0 && Shape(s, |s.solved|) && i < |s.solved| && ProblemInv(row, B, i, s) && !s.solved[i]
    requires Rid(i, x) in s.active && x < |row| && row[x].passed
    requires i < |u.launched| && u.launched[i] == s.launched[i]
    requires forall y: nat :: Rid(i, y) in u.active ==> Rid(i, y) in u.aborted
    ensures Closed(row, B, i, u)
  {
    var w: nat :| OpenWave(row, B, i, s, w);
    PassEndsInWave(row, B, w, s.launched[i], x);
  }

  /** After a failing sample the wave stays open, or it is over and the next one is due. */
  lemma FailKeepsWave(row: seq<Sample>, B: nat, i: nat, s: State, x: nat, t: State, w: nat)
    requires B > 0 && Shape(s, |s.solved|) && Shape(t, |s.solved|) && i < |s.solved| && !t.solved[i]
    requires s.launched[i] <= |row| && OpenWave(row, B, i, s, w) && Rid(i, x) in s.active && x < |row| && !row[x].passed
    requires t.launched[i] == s.launched[i] && t.aborted == s.aborted && t.active == s.active - {Rid(i, x)}
    requires forall y: nat :: Rid(i, y) in t.active ==> y < t.launched[i]
    requires t.inflight[i] == ActiveCount(t.active, i, t.launched[i])
    ensures t.inflight[i] != 0 || t.launched[i] >= |row| ==> ProblemInv(row, B, i, t)
    ensures t.inflight[i] == 0 && t.launched[i] < |row| ==>
              t.launched[i] == w * B && forall y: nat :: Rid(i, y) !in t.active
    ensures forall y: nat :: y < t.launched[i] && Rid(i, y) !in t.active ==> !row[y].passed
  {
    if t.inflight[i] != 0 || t.launched[i] >= |row| {
      assert OpenWave(row, B, i, t, w);
    } else {
      forall y: nat ensures Rid(i, y) !in t.active {
        if y < t.launched[i] { CountZero(t.active, i, t.launched[i], y); }
      }
    }
  }

  /** The next wave opens on a problem whose samples so far all failed and are all in. */
  lemma NextWaveOpens(row: seq<Sample>, B: nat, i: nat, t: State, w: nat, u: State)
    requires B > 0 && Shape(t, |t.solved|) && i < |t.solved| && !t.solved[i]
    requires t.inflight[i] == 0 && t.launched[i] == w * B < |row|
    requires forall y: nat :: Rid(i, y) !in t.active && Rid(i, y) !in t.aborted
    requires forall y: nat :: y < w * B ==> !row[y].passed
    requires u == LaunchK(t, i, Min(B, |row| - t.launched[i]))
    ensures Shape(u, |t.solved|) && ProblemInv(row, B, i, u)
    ensures Spent(row, u.active, i, u.launched[i]) == Spent(row, t.active, i, t.launched[i])
  {
    hide LaunchK, ActiveCount, Spent;
    var k := Min(B, |row| - t.launched[i]);
    LaunchShape(t, i, k);
    MulStep(w, B);
    LaunchAccounts(row, t.active, u.active, i, t.launched[i], k);
    NoneActive(t.active, i, t.launched[i]);
    assert OpenWave(row, B, i, u, w + 1);
  }

  lemma {:induction false} NoneActive(a: map<Rid, nat>, i: nat, l: nat)
    requires forall y: nat :: Rid(i, y) !in a
    ensures ActiveCount(a, i, l) == 0
  {
    if l > 0 { NoneActive(a, i, l - 1); }
  }

  /** Every other problem is where it was after problem i moved from s to t. */
  ghost predicate OnlyProblem(s: State, t: State, i: nat, n: nat) {
    Shape(s, n) && Shape(t, n) && forall j :: 0 <= j < n && j != i ==> SameProblem(s, t, j)
  }

  lemma OthersKeepInv(rows: seq<seq<Sample>>, N: nat, B: nat, s: State, t: State, i: nat)
    requires Inv(rows, N, B, s) && i < |rows| && OnlyProblem(s, t, i, |rows|)
    requires ProblemInv(rows[i], B, i, s) && ProblemInv(rows[i], B, i, t)
    requires t.tokens - s.tokens <= Spent(rows[i], t.active, i, t.launched[i]) - Spent(rows[i], s.active, i,
             s.launched[i])
    ensures Inv(rows, N, B, t)
  {
    hide BatchedSamples, AnyPass, ActiveCount, Spent, SpentTotal;
    forall j | 0 <= j < |rows| ensures ProblemInv(rows[j], B, j, t) {
      if j != i {
        assert SameProblem(s, t, j);
        ProblemFrame(rows[j], B, j, s, t);
      }
    }
    SpentTotalStep(rows, s, t, i, |rows|);
  }

  /** Popping an active request touches only its problem and bills at most its sample. */
  lemma PopStep(rows: seq<seq<Sample>>, N: nat, B: nat, s: State, out: Output)
    requires Inv(rows, N, B, s) && Honest(rows, s, out) && out.finished && out.rid in s.active
    ensures out.rid.idx < |rows| && out.rid.s < |rows[out.rid.idx]| && s.active[out.rid] == out.rid.idx
    ensures OnlyProblem(s, Popped(s, out), out.rid.idx, |rows|)
    ensures var i, t := out.rid.idx, Popped(s, out);
            && t.tokens - s.tokens <= Spent(rows[i], t.active, i, t.launched[i]) - Spent(rows[i], s.active, i,
                s.launched[i])
            && t.inflight[i] == ActiveCount(t.active, i, t.launched[i])
    ensures !s.solved[out.rid.idx] ==> out.passed == rows[out.rid.idx][out.rid.s].passed
  {
    hide BatchedSamples, AnyPass, SpentTotal;
    var i, x := out.rid.idx, out.rid.s;
    assert out.rid == Rid(i, x);
    assert ProblemInv(rows[i], B, i, s);
    PopAccounts(rows[i], s.active, i, x, s.launched[i]);
  }

  /** Every output an honest engine can deliver keeps the invariant. */
  lemma DeliverKeepsInv(rows: seq<seq<Sample>>, N: nat, B: nat, s: State, out: Output)
    requires Inv(rows, N, B, s) && Honest(rows, s, out)
    ensures Inv(rows, N, B, Deliver(s, out, N, B))
  {
    hide BatchedSamples, AnyPass, SpentTotal, Spent, ActiveCount, LaunchK;
    if out.finished && out.rid in s.active {
      PopStep(rows, N, B, s, out);
      var i, x, t, u := out.rid.idx, out.rid.s, Popped(s, out), Deliver(s, out, N, B);
      assert out.rid == Rid(i, x);
      var row := rows[i];
      if !s.solved[i] && !out.passed {
        var w: nat :| OpenWave(row, B, i, s, w);
        FailKeepsWave(row, B, i, s, x, t, w);
        if t.inflight[i] == 0 && t.launched[i] < N {
          NextWaveOpens(row, B, i, t, w, u);
          LaunchShape(t, i, Min(B, N - t.launched[i]));
        }
      } else if !s.solved[i] {
        PassCloses(row, B, i, s, x, u);
      }
      OthersKeepInv(rows, N, B, s, u, i);
    }
  }

  // ---- the first wave -------------------------------------------------------------------------------

  lemma {:induction false} SeedState(s: State, n: nat, N: nat, B: nat)
    requires n <= |s.solved| && Shape(s, |s.solved|) && s == Empty(|s.solved|)
    ensures var t := Seed(s, n, N, B);
            && Shape(t, |s.solved|) && t.solved == s.solved && t.tokens == 0 && t.aborted == {}
            && (forall i :: 0 <= i < |s.solved| ==> t.launched[i] == t.inflight[i] == if i < n then Min(B, N) else 0)
            && (forall r :: r in t.active <==> r.idx < n && r.s < Min(B, N))
  {
    if n > 0 {
      SeedState(s, n - 1, N, B);
      LaunchShape(Seed(s, n - 1, N, B), n - 1, Min(B, N));
    }
  }

  lemma SeedInv(rows: seq<seq<Sample>>, N: nat, B: nat)
    requires B > 0 && forall i :: 0 <= i < |rows| ==> |rows[i]| == N
    ensures Inv(rows, N, B, Seed(Empty(|rows|), |rows|, N, B))
  {
    hide SpentTotal, Seed, ProblemInv, Empty;
    EmptyShape(|rows|);
    var t := Seed(Empty(|rows|), |rows|, N, B);
    SeedState(Empty(|rows|), |rows|, N, B);
    forall i | 0 <= i < |rows| ensures ProblemInv(rows[i], B, i, t) {
      FirstWaveOpens(rows[i], B, i, t);
    }
  }

  lemma EmptyShape(n: nat)
    ensures Shape(Empty(n), n) && |Empty(n).solved| == n && forall i :: 0 <= i < n ==> !Empty(n).solved[i]
  {}

  lemma FirstWaveOpens(row: seq<Sample>, B: nat, i: nat, t: State)
    requires B > 0 && Shape(t, |t.solved|) && i < |t.solved| && !t.solved[i] && t.aborted == {}
    requires t.launched[i] == t.inflight[i] == Min(B, |row|)
    requires forall x: nat :: Rid(i, x) in t.active <==> x < Min(B, |row|)
    ensures ProblemInv(row, B, i, t)
  {
    LaunchAccounts(row, map[], t.active, i, 0, Min(B, |row|));
    assert OpenWave(row, B, i, t, 1);
  }

  /** The invariant holds after every honest run. */
  lemma {:induction false} RunKeepsInv(rows: seq<seq<Sample>>, N: nat, B: nat, outs: seq<Output>)
    requires B > 0 && forall i :: 0 <= i < |rows| ==> |rows[i]| == N
    requires Shape(Start(|rows|, N, B), |rows|)
    requires HonestRun(rows, Start(|rows|, N, B), outs, N, B)
    ensures Inv(rows, N, B, Run(Start(|rows|, N, B), outs, N, B))
  {
    hide Deliver, Inv, Seed;
    if outs == [] {
      SeedInv(rows, N, B);
    } else {
      RunKeepsInv(rows, N, B, outs[..|outs| - 1]);
      DeliverKeepsInv(rows, N, B, Run(Start(|rows|, N, B), outs[..|outs| - 1], N, B), outs[|outs| - 1]);
    }
  }

  ghost function Start(n: nat, N: nat, B: nat): (s: State)
    ensures Shape(s, n) && |s.solved| == n
  {
    SeedState(Empty(n), n, N, B);
    Seed(Empty(n), n, N, B)
  }

  // ---- main results -----------------------------------------------------------------------------------

  /** Schedule independence: whenever an honest run drains, each problem has the verdict of the
      naive baseline and has launched exactly the samples the post-hoc batched early stop pays for. */
  lemma ScheduleIndependence(rows: seq<seq<Sample>>, N: nat, B: nat, outs: seq<Output>)
    requires B > 0 && forall i :: 0 <= i < |rows| ==> |rows[i]| == N
    requires HonestRun(rows, Start(|rows|, N, B), outs, N, B)
    requires Drained(Run(Start(|rows|, N, B), outs, N, B))
    ensures var s := Run(Start(|rows|, N, B), outs, N, B);
            forall i :: 0 <= i < |rows| ==>
              && (s.solved[i] <==> AnyPass(rows[i], 0, N))
              && s.launched[i] == BatchedSamples(rows[i], B)
  {
    var s := Run(Start(|rows|, N, B), outs, N, B);
    RunKeepsInv(rows, N, B, outs);
    forall i | 0 <= i < |rows|
      ensures s.solved[i] <==> AnyPass(rows[i], 0, N)
      ensures s.launched[i] == BatchedSamples(rows[i], B)
    {
      assert ProblemInv(rows[i], B, i, s);
      if !s.solved[i] {
        var w: nat :| OpenWave(rows[i], B, i, s, w);
        NoneActive(s.active, i, s.launched[i]);
      }
    }
  }

  /** At every moment of every honest run no problem has launched more than its early stop pays for. */
  lemma LaunchedBound(rows: seq<seq<Sample>>, N: nat, B: nat, s: State, i: nat)
    requires Inv(rows, N, B, s) && i < |rows|
    ensures s.launched[i] <= BatchedSamples(rows[i], B)
  {
    assert ProblemInv(rows[i], B, i, s);
    if !s.solved[i] {
      var w: nat :| OpenWave(rows[i], B, i, s, w);
      WaveWithinStop(rows[i], B, w);
    }
  }

  lemma WaveWithinStop(row: seq<Sample>, B: nat, w: nat)
    requires B > 0 && w >= 1 && (w - 1) * B <= |row| && !AnyPass(row, 0, (w - 1) * B)
    ensures Min(|row|, w * B) <= BatchedSamples(row, B)
  {
    StopsInRound(row, B, w - 1);
    if !AnyPass(row, 0, Min(w * B, |row|)) && w * B <= |row| {
      BatchedAgainstRounds(row, B, w);
    }
  }

  lemma {:induction false} SpentTotalBound(rows: seq<seq<Sample>>, s: State, n: nat)
    requires n <= |rows| == |s.launched| && forall i :: 0 <= i < |rows| ==> s.launched[i] <= |rows[i]|
    ensures SpentTotal(rows, s, n) <= Total(rows, s.launched, n)
  {
    if n > 0 {
      SpentTotalBound(rows, s, n - 1);
      SpentBound(rows[n - 1], s.active, n - 1, s.launched[n - 1]);
    }
  }

  /** Cost sandwich: at every moment of every honest run, partial tokens of aborted siblings
      included, the bill is at most the batched early stop's, which is at most the naive bill. */
  lemma CostSandwich(rows: seq<seq<Sample>>, N: nat, B: nat, outs: seq<Output>)
    requires B > 0 && forall i :: 0 <= i < |rows| ==> |rows[i]| == N
    requires HonestRun(rows, Start(|rows|, N, B), outs, N, B)
    ensures Run(Start(|rows|, N, B), outs, N, B).tokens <= Total(rows, BatchedPlan(rows, B), |rows|)
    ensures Total(rows, BatchedPlan(rows, B), |rows|) <= Total(rows, AllPlan(rows), |rows|)
  {
    var s := Run(Start(|rows|, N, B), outs, N, B);
    RunKeepsInv(rows, N, B, outs);
    hide BatchedSamples, Run, Total, SpentTotal, ProblemInv;
    forall i | 0 <= i < |rows| ensures s.launched[i] <= BatchedSamples(rows[i], B) {
      LaunchedBound(rows, N, B, s, i);
    }
    SpentTotalBound(rows, s, |rows|);
    TotalMonotone(rows, s.launched, BatchedPlan(rows, B), |rows|);
    CostOrder(rows, B);
  }

  // ---- termination ------------------------------------------------------------------------------------

  /** Samples of the first n problems not launched yet, plus those in flight. */
  function Work(s: State, N: nat, n: nat): int
    requires n <= |s.launched| == |s.inflight|
  {
    if n == 0 then 0 else Work(s, N, n - 1) + N - s.launched[n - 1] + s.inflight[n - 1]
  }

  lemma {:induction false} WorkStep(s: State, t: State, N: nat, i: nat, n: nat)
    requires n <= |s.launched| == |s.inflight| == |t.launched| == |t.inflight| && i < |s.launched|
    requires forall j :: 0 <= j < |s.launched| && j != i ==>
             s.launched[j] == t.launched[j] && s.inflight[j] == t.inflight[j]
    ensures Work(t, N, n) == Work(s, N, n) +
            if i < n then s.launched[i] - t.launched[i] + t.inflight[i] - s.inflight[i] else 0
  {
    if n > 0 { WorkStep(s, t, N, i, n - 1); }
  }

  /** Each finished output of an active request uses up exactly one unit of work, launch or not;
      any other output changes nothing. */
  lemma DeliverUsesWork(s: State, out: Output, N: nat, B: nat)
    requires Shape(s, |s.solved|)
    ensures Shape(Deliver(s, out, N, B), |s.solved|)
    ensures Work(Deliver(s, out, N, B), N, |s.solved|) ==
            Work(s, N, |s.solved|) - if out.finished && out.rid in s.active then 1 else 0
  {
    hide LaunchK;
    DeliverShape(s, out, N, B);
    if out.finished && out.rid in s.active {
      var i, t := out.rid.idx, Popped(s, out);
      if !t.solved[i] && !out.passed && t.inflight[i] == 0 && t.launched[i] < N {
        LaunchShape(t, i, Min(B, N - t.launched[i]));
      }
      WorkStep(s, Deliver(s, out, N, B), N, i, |s.solved|);
    }
  }

  lemma {:induction false} SeedWork(s: State, N: nat, n: nat)
    requires n <= |s.launched| == |s.inflight|
    requires forall i :: 0 <= i < n ==> s.launched[i] == s.inflight[i]
    ensures Work(s, N, n) == n * N
  {
    if n > 0 { SeedWork(s, N, n - 1); assert n * N == (n - 1) * N + N; }
  }

  lemma {:induction false} WorkNonNegative(rows: seq<seq<Sample>>, N: nat, B: nat, s: State, n: nat)
    requires Inv(rows, N, B, s) && n <= |rows|
    ensures Work(s, N, n) >= 0
  {
    if n > 0 {
      assert ProblemInv(rows[n - 1], B, n - 1, s);
      WorkNonNegative(rows, N, B, s, n - 1);
    }
  }

  /** Outputs of a run that answer an active request. */
  ghost function Answers(s: State, outs: seq<Output>, N: nat, B: nat): nat
    requires Shape(s, |s.solved|)
  {
    if outs == [] then 0 else
      var before := Run(s, outs[..|outs| - 1], N, B);
      var out := outs[|outs| - 1];
      Answers(s, outs[..|outs| - 1], N, B) + if out.finished && out.rid in before.active then 1 else 0
  }

  lemma {:induction false} AnswersUseWork(s: State, outs: seq<Output>, N: nat, B: nat)
    requires Shape(s, |s.solved|)
    ensures Work(Run(s, outs, N, B), N, |s.solved|) + Answers(s, outs, N, B) == Work(s, N, |s.solved|)
  {
    hide Deliver, Work;
    if outs != [] {
      AnswersUseWork(s, outs[..|outs| - 1], N, B);
      DeliverUsesWork(Run(s, outs[..|outs| - 1], N, B), outs[|outs| - 1], N, B);
    }
  }

  /** The loop cannot go on: an honest run answers at most n*N requests in all, and while it is not
      drained there is an honest output that answers one more. */
  lemma RunsAreBounded(rows: seq<seq<Sample>>, N: nat, B: nat, outs: seq<Output>)
    requires B > 0 && forall i :: 0 <= i < |rows| ==> |rows[i]| == N
    requires HonestRun(rows, Start(|rows|, N, B), outs, N, B)
    ensures Answers(Start(|rows|, N, B), outs, N, B) <= |rows| * N
    ensures !Drained(Run(Start(|rows|, N, B), outs, N, B)) ==>
              exists out: Output :: out.finished && out.rid in Run(Start(|rows|, N, B), outs, N, B).active
                         && Honest(rows, Run(Start(|rows|, N, B), outs, N, B), out)
  {
    var s0 := Start(|rows|, N, B);
    var s := Run(s0, outs, N, B);
    RunKeepsInv(rows, N, B, outs);
    SeedState(Empty(|rows|), |rows|, N, B);
    SeedWork(s0, N, |rows|);
    AnswersUseWork(s0, outs, N, B);
    WorkNonNegative(rows, N, B, s, |rows|);
    if r :| r in s.active && r !in s.aborted {
      assert ProblemInv(rows[r.idx], B, r.idx, s);
      assert r == Rid(r.idx, r.s);
      var x := rows[r.idx][r.s];
      assert Honest(rows, s, Output(r, true, x.passed, x.tokens));
    }
  }

  // ---- the naive baseline ---------------------------------------------------------------------------------

  /** The naive loop's variables, seen as a scheduler state that launched everything at once. */
  ghost function NaiveView(n: nat, N: nat, active: map<Rid, nat>): (s: State)
    ensures |s.solved| == |s.launched| == |s.inflight| == n
  {
    State(seq(n, _ => false), seq(n, _ => N), seq(n, _ => 0), active, 0, {})
  }

  /** Flags and bill account for exactly the requests that are no longer active. */
  ghost predicate NaiveInv(rows: seq<seq<Sample>>, N: nat, active: map<Rid, nat>, flags: seq<bool>, tokens: nat) {
    && |flags| == |rows| && (forall i :: 0 <= i < |rows| ==> |rows[i]| == N)
    && (forall r :: r in active ==> active[r] == r.idx < |rows| && r.s < N)
    && (forall i: nat :: i < |rows| ==>
          (flags[i] <==> exists x: nat :: x < N && Rid(i, x) !in active && rows[i][x].passed))
    && tokens == SpentTotal(rows, NaiveView(|rows|, N, active), |rows|)
  }

  /** Every request runs to completion: the verdict is best-of-N, the bill is every sample. */
  method NaiveBaseline(rows: seq<seq<Sample>>, N: nat, outs: seq<Output>) returns (flags: seq<bool>, tokens: nat)
    requires forall i :: 0 <= i < |rows| ==> |rows[i]| == N
    requires forall k :: 0 <= k < |outs| ==> NaiveHonest(rows, outs[k])
    requires forall r: Rid :: r.idx < |rows| && r.s < N ==> AnswersRid(outs, |outs|, r)
    ensures |flags| == |rows|
    ensures forall i :: 0 <= i < |rows| ==> (flags[i] <==> AnyPass(rows[i], 0, N))
    ensures tokens == Total(rows, AllPlan(rows), |rows|)
  {
    hide SpentTotal, Total, NaiveInv;
    var active := NaiveLaunch(|rows|, N);
    flags, tokens := seq(|rows|, _ => false), 0;
    NaiveStart(rows, N, active);
    for k := 0 to |outs|
      invariant NaiveInv(rows, N, active, flags, tokens)
      invariant forall r :: r in active ==> r.idx < |rows| && r.s < N && !AnswersRid(outs, k, r)
    {
      var out := outs[k];
      if out.finished && out.rid in active {
        flags, tokens, active := NaiveHandle(rows, N, active, flags, tokens, out);
      }
    }
    NaiveEnd(rows, N, active, flags, tokens);
  }

  ghost predicate NaiveHonest(rows: seq<seq<Sample>>, out: Output) {
    out.finished && out.rid.idx < |rows| && out.rid.s < |rows[out.rid.idx]| ==>
      Sample(out.passed, out.tokens) == rows[out.rid.idx][out.rid.s]
  }

  /** One of the first k outputs finishes request r. */
  ghost predicate AnswersRid(outs: seq<Output>, k: nat, r: Rid)
    requires k <= |outs|
  {
    exists m :: 0 <= m < k && outs[m].finished && outs[m].rid == r
  }

  method NaiveLaunch(n: nat, N: nat) returns (active: map<Rid, nat>)
    ensures forall r :: r in active ==> active[r] == r.idx
    ensures forall r :: r in active <==> r.idx < n && r.s < N
  {
    active := map[];
    for idx := 0 to n
      invariant forall r :: r in active ==> active[r] == r.idx
      invariant forall r :: r in active <==> r.idx < idx && r.s < N
    {
      for x := 0 to N
        invariant forall r :: r in active ==> active[r] == r.idx
        invariant forall r :: r in active <==> (r.idx < idx && r.s < N) || (r.idx == idx && r.s < x)
      {
        active := active[Rid(idx, x) := idx];
      }
    }
  }

  method NaiveHandle(rows: seq<seq<Sample>>, N: nat, active: map<Rid, nat>, flags: seq<bool>, tokens: nat, out: Output)
    returns (flags': seq<bool>, tokens': nat, active': map<Rid, nat>)
    requires NaiveInv(rows, N, active, flags, tokens) && NaiveHonest(rows, out)
    requires out.finished && out.rid in active
    ensures NaiveInv(rows, N, active', flags', tokens') && active' == active - {out.rid}
  {
    hide SpentTotal;
    var idx := active[out.rid];
    assert out.rid == Rid(idx, out.rid.s);
    NaivePop(rows, N, active, out.rid, |rows|);
    active' := active - {out.rid};
    tokens' := tokens + out.tokens;
    flags' := if out.passed then flags[idx := true] else flags;
    forall i: nat | i < |rows|
      ensures flags'[i] <==> exists x: nat :: x < N && Rid(i, x) !in active' && rows[i][x].passed
    {
      if flags[i] {
        var x: nat :| x < N && Rid(i, x) !in active && rows[i][x].passed;
        assert Rid(i, x) !in active';
      }
      if i == idx && out.passed { assert Rid(i, out.rid.s) !in active'; }
    }
  }

  lemma NaiveStart(rows: seq<seq<Sample>>, N: nat, active: map<Rid, nat>)
    requires forall i :: 0 <= i < |rows| ==> |rows[i]| == N
    requires forall r :: r in active ==> active[r] == r.idx
    requires forall r :: r in active <==> r.idx < |rows| && r.s < N
    ensures NaiveInv(rows, N, active, seq(|rows|, _ => false), 0)
  {
    NothingSpent(rows, N, active, |rows|);
  }

  lemma NaiveEnd(rows: seq<seq<Sample>>, N: nat, active: map<Rid, nat>, flags: seq<bool>, tokens: nat)
    requires NaiveInv(rows, N, active, flags, tokens) && forall r :: r !in active
    ensures |flags| == |rows|
    ensures forall i :: 0 <= i < |rows| ==> (flags[i] <==> AnyPass(rows[i], 0, N))
    ensures tokens == Total(rows, AllPlan(rows), |rows|)
  {
    AllSpent(rows, N, active, |rows|);
  }

  lemma {:induction false} NothingSpent(rows: seq<seq<Sample>>, N: nat, active: map<Rid, nat>, n: nat)
    requires n <= |rows| && forall i :: 0 <= i < |rows| ==> |rows[i]| == N
    requires forall r :: r in active <==> r.idx < |rows| && r.s < N
    ensures SpentTotal(rows, NaiveView(|rows|, N, active), n) == 0
  {
    if n > 0 {
      NothingSpent(rows, N, active, n - 1);
      LaunchAccounts(rows[n - 1], map[], active, n - 1, 0, N);
    }
  }

  lemma NaivePop(rows: seq<seq<Sample>>, N: nat, active: map<Rid, nat>, r: Rid, n: nat)
    requires n == |rows| && (forall i :: 0 <= i < n ==> |rows[i]| == N)
    requires r in active && r.idx < n && r.s < N
    ensures SpentTotal(rows, NaiveView(n, N, active - {r}), n) ==
            SpentTotal(rows, NaiveView(n, N, active), n) + rows[r.idx][r.s].tokens
  {
    var s, t := NaiveView(n, N, active), NaiveView(n, N, active - {r});
    assert r == Rid(r.idx, r.s);
    PopAccounts(rows[r.idx], active, r.idx, r.s, N);
    SpentTotalStep(rows, s, t, r.idx, n);
  }

  lemma {:induction false} AllSpent(rows: seq<seq<Sample>>, N: nat, active: map<Rid, nat>, n: nat)
    requires n <= |rows| && (forall i :: 0 <= i < |rows| ==> |rows[i]| == N)
    requires forall r :: r !in active
    ensures SpentTotal(rows, NaiveView(|rows|, N, active), n) == Total(rows, AllPlan(rows), n)
  {
    if n > 0 {
      AllSpent(rows, N, active, n - 1);
      RowSpent(rows[n - 1], active, n - 1, N);
    }
  }

  lemma {:induction false} RowSpent(row: seq<Sample>, active: map<Rid, nat>, i: nat, l: nat)
    requires l <= |row| && forall r :: r !in active
    ensures Spent(row, active, i, l) == PrefixTokens(row, l)
  {
    if l > 0 { RowSpent(row, active, i, l - 1); }
  }
}
