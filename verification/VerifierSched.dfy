/**
 The continuous verifier-guided scheduler: all samples of all problems decode in one batch, a
 passing sample aborts its siblings, and a wave that failed whole launches the next one.
 The engine is an environment: it may deliver any output it likes, in any order, as long as
 what it says about a request is honest.
 */
module VerifierSched {
  import opened Arith
  import opened VerifierCost

  /** The s-th sample of problem idx. */
  datatype Rid = Rid(idx: nat, s: nat)

  /** One entry of what an engine step returns. */
  datatype Output = Output(rid: Rid, finished: bool, passed: bool, tokens: nat)

  /** The scheduler's variables, and which requests the engine was told to abort. */
  datatype State = State(
    solved: seq<bool>, launched: seq<nat>, inflight: seq<int>,
    active: map<Rid, nat>, tokens: nat, aborted: set<Rid>)

  predicate Shape(s: State, n: nat) {
    && |s.solved| == |s.launched| == |s.inflight| == n
    && forall r :: r in s.active ==> s.active[r] == r.idx < n
  }

  // ---- what one call does ---------------------------------------------------------------------

  function LaunchOne(s: State, idx: nat): State
    requires idx < |s.launched| == |s.inflight|
  {
    s.(active := s.active[Rid(idx, s.launched[idx]) := idx],
       launched := s.launched[idx := s.launched[idx] + 1],
       inflight := s.inflight[idx := s.inflight[idx] + 1])
  }

  function LaunchK(s: State, idx: nat, k: nat): (t: State)
    requires idx < |s.launched| == |s.inflight|
    ensures |t.launched| == |t.inflight| == |s.launched|
  {
    if k == 0 then s else LaunchOne(LaunchK(s, idx, k - 1), idx)
  }

  function Popped(s: State, out: Output): State
    requires out.rid in s.active && s.active[out.rid] < |s.inflight|
  {
    var idx := s.active[out.rid];
    s.(active := s.active - {out.rid},
       inflight := s.inflight[idx := s.inflight[idx] - 1],
       tokens := s.tokens + out.tokens)
  }

  /** Handling one engine output; N samples a problem at most, waves of B. */
  function Deliver(s: State, out: Output, N: nat, B: nat): State
    requires Shape(s, |s.solved|)
  {
    if !out.finished || out.rid !in s.active then s
    else
      var idx := s.active[out.rid];
      var t := Popped(s, out);
      if t.solved[idx] then t
      else if out.passed then
        t.(solved := t.solved[idx := true], aborted := t.aborted + set r | r in t.active && t.active[r] == idx)
      else if t.inflight[idx] == 0 && t.launched[idx] < N then
        LaunchK(t, idx, Min(B, N - t.launched[idx]))
      else t
  }

  function Seed(s: State, n: nat, N: nat, B: nat): State
    requires n <= |s.launched| == |s.inflight|
    ensures |Seed(s, n, N, B).launched| == |Seed(s, n, N, B).inflight| == |s.launched|
  {
    if n == 0 then s else LaunchK(Seed(s, n - 1, N, B), n - 1, Min(B, N))
  }

  function Empty(n: nat): State {
    State(seq(n, _ => false), seq(n, _ => 0), seq(n, _ => 0), map[], 0, {})
  }

  // ---- the scheduler itself ---------------------------------------------------------------------

  class Scheduler {
    const n: nat
    const N: nat
    const B: nat
    var solved: seq<bool>
    var launched: seq<nat>
    var inflight: seq<int>
    var active: map<Rid, nat>
    var schedTokens: nat
    var aborted: set<Rid>  // requests the engine was told to abort

    ghost function View(): State
      reads this
    {
      State(solved, launched, inflight, active, schedTokens, aborted)
    }

    /** Set up the variables and saturate the engine with the first wave of every problem. */
    constructor (n: nat, N: nat, B: nat)
      ensures this.n == n && this.N == N && this.B == B
      ensures View() == Seed(Empty(n), n, N, B)
    {
      this.n, this.N, this.B := n, N, B;
      solved, launched, inflight := seq(n, _ => false), seq(n, _ => 0), seq(n, _ => 0);
      active, schedTokens, aborted := map[], 0, {};
      new;
      assert View() == Empty(n);
      for idx := 0 to n
        invariant View() == Seed(Empty(n), idx, N, B)
        invariant |launched| == |inflight| == n
      {
        Launch(idx, Min(B, N));
      }
    }

    method Launch(idx: nat, k: nat)
      requires idx < |launched| == |inflight|
      modifies this
      ensures View() == LaunchK(old(View()), idx, k)
    {
      for j := 0 to k
        invariant |launched| == |inflight| == old(|launched|)
        invariant View() == LaunchK(old(View()), idx, j)
      {
        active := active[Rid(idx, launched[idx]) := idx];
        launched := launched[idx := launched[idx] + 1];
        inflight := inflight[idx := inflight[idx] + 1];
      }
    }

    method Handle(out: Output)
      requires Shape(View(), |solved|)
      modifies this
      ensures View() == Deliver(old(View()), out, N, B)
    {
      if !out.finished || out.rid !in active { return; }
      var idx := active[out.rid];
      active := active - {out.rid};
      inflight := inflight[idx := inflight[idx] - 1];
      schedTokens := schedTokens + out.tokens;
      if solved[idx] { return; }
      if out.passed {
        solved := solved[idx := true];
        aborted := aborted + set r | r in active && active[r] == idx;
      } else if inflight[idx] == 0 && launched[idx] < N {
        Launch(idx, Min(B, N - launched[idx]));
      }
    }

    /** One run of the step loop: each step hands over a list of outputs. */
    method Drive(steps: seq<seq<Output>>)
      requires Shape(View(), n)
      modifies this
      ensures Shape(View(), n)
      ensures View() == Run(old(View()), Flatten(steps), N, B)
    {
      ghost var s0 := View();
      for a := 0 to |steps|
        invariant Shape(View(), n)
        invariant View() == Run(s0, Flatten(steps[..a]), N, B)
      {
        ghost var before := Flatten(steps[..a]);
        assert before + steps[a][..0] == before;
        for b := 0 to |steps[a]|
          invariant Shape(View(), n)
          invariant View() == Run(s0, before + steps[a][..b], N, B)
        {
          assert (before + steps[a][..b + 1])[..|before| + b] == before + steps[a][..b];
          DeliverShape(View(), steps[a][b], N, B);
          Handle(steps[a][b]);
        }
        assert steps[..a + 1][..a] == steps[..a];
        assert steps[a][..|steps[a]|] == steps[a];
      }
      assert steps[..|steps|] == steps;
    }
  }

  function Flatten(steps: seq<seq<Output>>): seq<Output> {
    if steps == [] then [] else Flatten(steps[..|steps| - 1]) + steps[|steps| - 1]
  }

  function Run(s: State, outs: seq<Output>, N: nat, B: nat): (t: State)
    requires Shape(s, |s.solved|)
    ensures Shape(t, |s.solved|)
  {
    if outs == [] then s else
      var t := Run(s, outs[..|outs| - 1], N, B);
      DeliverShape(t, outs[|outs| - 1], N, B);
      Deliver(t, outs[|outs| - 1], N, B)
  }

  lemma {:induction false} LaunchShape(s: State, idx: nat, k: nat)
    requires Shape(s, |s.solved|) && idx < |s.solved|
    ensures Shape(LaunchK(s, idx, k), |s.solved|)
    ensures LaunchK(s, idx, k).solved == s.solved && LaunchK(s, idx, k).aborted == s.aborted
    ensures LaunchK(s, idx, k).tokens == s.tokens
    ensures LaunchK(s, idx, k).launched == s.launched[idx := s.launched[idx] + k]
    ensures LaunchK(s, idx, k).inflight == s.inflight[idx := s.inflight[idx] + k]
    ensures forall r :: r in LaunchK(s, idx, k).active <==>
              r in s.active || (r.idx == idx && s.launched[idx] <= r.s < s.launched[idx] + k)
  {
    if k > 0 { LaunchShape(s, idx, k - 1); }
  }

  lemma DeliverShape(s: State, out: Output, N: nat, B: nat)
    requires Shape(s, |s.solved|)
    ensures Shape(Deliver(s, out, N, B), |s.solved|)
  {
    if out.finished && out.rid in s.active {
      var t := Popped(s, out);
      var idx := s.active[out.rid];
      if !t.solved[idx] && !out.passed && t.inflight[idx] == 0 && t.launched[idx] < N {
        LaunchShape(t, idx, Min(B, N - t.launched[idx]));
      }
    }
  }
}
