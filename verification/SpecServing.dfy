/**
 When a background run is started, left alone, served and killed: call by call and over whole sessions, whatever the
 commands do and whenever the run gets done.
 */
module SpecServing {
  import opened Wrappers
  import opened SpecExec
  import opened SpecAccounts

  /** The result of a run that is waited for: the one it already has, or the one it gives on the tree as it is. */
  function Outcomes<T>(w: World<T>, p: Pending, tree: T): Outcome<T> {
    if p.result.Some? then Outcome(p.result.value.0, p.result.value.1, tree) else w.exec(p.cmd, tree)
  }

  /** The tree a real call finds after the run was killed before the n-th call. */
  function AfterKill<T>(w: World<T>, timing: Timing, p: Pending, n: nat, tree: T): T {
    if p.result.Some? then tree else if timing(n) then w.exec(p.cmd, tree).tree else w.interrupted(p.cmd, tree)
  }

  /** The tree that a real call finds: a run may have got done before it, and may have been killed for it. */
  function Found<T>(w: World<T>, timing: Timing, s: State<T>, readonly: bool): T {
    if s.pending.None? then s.tree
    else
      var p, n := s.pending.value, |s.transcript|;
      if !readonly then AfterKill(w, timing, p, n, s.tree)
      else if p.result.None? && timing(n) then w.exec(p.cmd, s.tree).tree else s.tree
  }

  function Really<T>(w: World<T>, call: Call, tree: T): Outcome<T> {
    if call.Bash? then w.exec(call.cmd, tree) else w.editor(call, tree)
  }

  /** t waits for the very run that s waits for. */
  ghost predicate SameRun<T>(s: State<T>, t: State<T>) {
    && (s.pending.None? <==> t.pending.None?)
    && (s.pending.Some? ==>
          var p, q := s.pending.value, t.pending.value;
          && p.cmd == q.cmd && p.rule == q.rule && p.launchedAt == q.launchedAt
          && (p.result.Some? ==> p.result == q.result))
  }

  // ---- one call -----------------------------------------------------------------------------------

  /** A read-only call leaves a pending run, the events and what is known of the tree alone. */
  lemma ReadsLeaveRun<T>(w: World<T>, kind: Kind, c: Classifiers, spec: bool, timing: Timing, s: State<T>, call: Call)
    requires Readonly(c, call)
    ensures var t := Step(w, kind, c, spec, timing, s, call);
            && t.events == s.events && t.fp == s.fp && t.status == s.status && SameRun(s, t)
            && (s.pending.Some? && s.pending.value.result.None? && timing(|s.transcript|) ==>
                var o := w.exec(s.pending.value.cmd, s.tree); t.pending.value.result == Some((o.rc, o.output)))
            && var o := Really(w, call, Found(w, timing, s, true));
               t.tree == o.tree && t.transcript == s.transcript + [Entry(call, o.rc, o.output)]
  {}

  /** Without a pending run a call is run for real and logged, and nothing is resolved. */
  lemma PlainCall<T>(w: World<T>, kind: Kind, c: Classifiers, spec: bool, timing: Timing, s: State<T>, call: Call)
    requires s.pending.None? && !call.Submit?
    ensures var t, o := Step(w, kind, c, spec, timing, s, call), Really(w, call, s.tree);
            && t.tree == o.tree && t.transcript == s.transcript + [Entry(call, o.rc, o.output)]
            && s.events <= t.events
  {
    hide Observe, Readonly;
    var u := Perform(w, c, s, call, None);
    ObserveOnlyAdds(w, kind, c, spec, u, call, u.transcript[|u.transcript| - 1].rc);
  }

  /** When a session ends, a run still in flight is killed, which is not an event. */
  lemma EndKillsRun<T>(w: World<T>, s: State<T>)
    ensures var t := Closed(w, s);
            && t.pending.None? && t.events == s.events && t.transcript == s.transcript
            && t.tree == if s.pending.Some? && s.pending.value.result.None?
                         then w.interrupted(s.pending.value.cmd, s.tree) else s.tree
  {}

  /**
   A state-changing call ends a pending run. If it is a bash command that matches, the run's result is served, logged as
   the call's, and nothing is run for the call; otherwise the run is killed and the call is run for real.
   */
  lemma ChangesSettleRun<T>(w: World<T>, kind: Kind, c: Classifiers, spec: bool, timing: Timing, s: State<T>,
                            call: Call)
    requires s.pending.Some? && !Readonly(c, call) && !call.Submit?
    ensures var t, p, n := Step(w, kind, c, spec, timing, s, call), s.pending.value, |s.transcript|;
            var hit := call.Bash? && Matches(kind, c, call.cmd, p.cmd);
            var o := if hit then Outcomes(w, p, s.tree) else Really(w, call, Found(w, timing, s, false));
            && t.tree == o.tree && t.transcript == s.transcript + [Entry(call, o.rc, o.output)]
            && s.events + [if hit then Hit(n, p.launchedAt, call.cmd) else Miss(n, p.cmd)] <= t.events
  {
    hide Observe, Matches, Readonly;
    var t := Resolve(w, kind, c, Progress(w, timing, s), call).1;
    var served := Resolve(w, kind, c, Progress(w, timing, s), call).0;
    var u := Perform(w, c, t, call, served);
    ObserveOnlyAdds(w, kind, c, spec, u, call, u.transcript[|u.transcript| - 1].rc);
  }

  lemma ObserveOnlyAdds<T>(w: World<T>, kind: Kind, c: Classifiers, spec: bool, s: State<T>, call: Call, rc: int)
    ensures var t := Observe(w, kind, c, spec, s, call, rc);
            t.tree == s.tree && t.transcript == s.transcript && s.events <= t.events && t.lastTest == s.lastTest
  {
    hide Target;
  }

  // ---- when a run is started ------------------------------------------------------------------------

  /** A line of the tree's status for a path that git did not know. */
  predicate Creation(line: string) { "??" <= line || "A " <= line }

  ghost predicate OnlyModifies(added: set<string>) { forall line :: line in added ==> !Creation(line) }

  ghost predicate OnlyCreates(added: set<string>) {
    added != {} && forall line :: line in added ==> Creation(line)
  }

  /** The call wrote a new file at this path. */
  predicate Wrote(c: Classifiers, call: Call, path: string) {
    match call
    case Editor(_, p, _) => p == path != ""
    case Bash(cmd) => c.createdFile(cmd) == Some(path)
    case Submit => false
  }

  /** Rule A repeats the last test unless the call just ran it; rule B, in the second harness only, runs a script that
      the call created. There rule A wants a change without created files. */
  ghost predicate Expected(kind: Kind, c: Classifiers, call: Call, lastTest: Option<string>, added: set<string>,
                           rule: Rule, cmd: string) {
    match rule
    case RuleA =>
      && lastTest == Some(cmd)
      && if kind.LiveExact? then call != Bash(cmd)
         else OnlyModifies(added) && !(call.Bash? && call.cmd != "" && c.sameCmd(call.cmd, cmd))
    case RuleB =>
      && kind.LiveModal? && OnlyCreates(added)
      && exists path {:trigger Wrote(c, call, path)} :: Wrote(c, call, path) && |path| >= 3
           && path[|path| - 3..] == ".py" && cmd == "cd /testbed && python " + path
  }

  lemma KindsMean(added: set<string>)
    ensures EditKinds(added) == {"modified"} <==> OnlyModifies(added)
    ensures EditKinds(added) == {"created"} <==> OnlyCreates(added)
  {
    if line :| line in added && Creation(line) { assert "created" in EditKinds(added); }
    if line :| line in added && !Creation(line) { assert "modified" in EditKinds(added); }
    if added != {} && OnlyModifies(added) {
      var line :| line in added;
      assert "modified" in EditKinds(added);
    }
    if OnlyCreates(added) {
      var line :| line in added;
      assert "created" in EditKinds(added);
    }
  }

  /** The target is the expected command, and there is one exactly if some command is expected. */
  lemma TargetIsExpected(kind: Kind, c: Classifiers, call: Call, lastTest: Option<string>, added: set<string>)
    ensures var target := Target(kind, c, call, lastTest, added);
            && (target.Some? ==> Expected(kind, c, call, lastTest, added, target.value.1, target.value.0))
            && (target.None? ==> forall rule, cmd :: !Expected(kind, c, call, lastTest, added, rule, cmd))
  {
    hide EditKinds, OnlyModifies, OnlyCreates;
    KindsMean(added);
    assert "created" != "modified";
    var target := Target(kind, c, call, lastTest, added);
    assert EditKinds(added) == {"created"} && EditKinds(added) == {"modified"} ==> "created" in {"modified"};
    if target.Some? && target.value.1 == RuleB {
      var path := if call.Editor? then call.path else c.createdFile(call.cmd).value;
      assert Wrote(c, call, path);
    }
  }

  /**
   A state-changing call starts a run exactly if speculation is on, the call succeeded, the tree is no longer as it was
   last seen and a command is expected next; that command it is, from this moment on, and the tree counts as seen.
   */
  lemma LaunchedIff<T>(w: World<T>, kind: Kind, c: Classifiers, spec: bool, timing: Timing, s: State<T>, call: Call)
    requires !Readonly(c, call) && !call.Submit?
    ensures var t, n := Step(w, kind, c, spec, timing, s, call), |s.transcript|;
            var settled := if s.pending.Some? then 1 else 0;
            && t.lastTest == (if call.Bash? && call.cmd != "" && c.testish(call.cmd) then Some(call.cmd)
                              else s.lastTest)
            && |t.transcript| == n + 1 && t.fp == w.fingerprint(t.tree)
            && t.status == (if t.fp == s.fp then s.status else w.status(t.tree))
            && (t.pending.Some? <==>
                spec && t.transcript[n].rc == 0 && t.fp != s.fp &&
                exists rule, cmd :: Expected(kind, c, call, t.lastTest, w.status(t.tree) - s.status, rule, cmd))
            && (t.pending.Some? ==>
                var p := t.pending.value;
                && Expected(kind, c, call, t.lastTest, w.status(t.tree) - s.status, p.rule, p.cmd)
                && p == Pending(p.cmd, p.rule, n + 1, None)
                && |t.events| == |s.events| + settled + 1
                && t.events[|s.events| + settled] == Launch(n + 1, p.rule, p.cmd))
            && (t.pending.None? ==> |t.events| == |s.events| + settled)
  {
    hide Matches, Readonly, Target, Expected, Complete, Killed;
    var s1 := Progress(w, timing, s);
    ProgressTouches(w, timing, s);
    ResolveTouches(w, kind, c, s1, call);
    hide Progress, Resolve;
    var (served, t) := Resolve(w, kind, c, s1, call);
    var u := Perform(w, c, t, call, served);
    TargetIsExpected(kind, c, call, u.lastTest, w.status(u.tree) - u.status);
  }

  lemma ProgressTouches<T>(w: World<T>, timing: Timing, s: State<T>)
    ensures var t := Progress(w, timing, s);
            && t.transcript == s.transcript && t.lastTest == s.lastTest && t.fp == s.fp && t.status == s.status
            && t.events == s.events && (t.pending.Some? <==> s.pending.Some?)
  {}

  lemma ResolveTouches<T>(w: World<T>, kind: Kind, c: Classifiers, s: State<T>, call: Call)
    requires !Readonly(c, call)
    ensures var t := Resolve(w, kind, c, s, call).1;
            && t.transcript == s.transcript && t.lastTest == s.lastTest && t.fp == s.fp && t.status == s.status
            && t.pending.None? && |t.events| == |s.events| + if s.pending.Some? then 1 else 0
  {
    hide Matches;
  }

  // ---- who decides ---------------------------------------------------------------------------------

  /** The log is the agent's: every logged call is what it wanted to do after the calls before. */
  ghost predicate Wanted(agent: Agent, log: seq<Entry>) {
    forall k :: 0 <= k < |log| ==> agent(log[..k]) == Some(log[k].call)
  }

  /** After n turns the agent has made n calls, or it has stopped or submitted; no other call is ever made. */
  lemma {:induction false} AgentDecides<T>(w: World<T>, kind: Kind, c: Classifiers, spec: bool, timing: Timing,
                                           agent: Agent, tree: T, n: nat)
    ensures var log := Run(w, kind, c, spec, timing, agent, tree, n).transcript;
            Wanted(agent, log) && (|log| == n || agent(log) == None || agent(log) == Some(Submit)) && |log| <= n
  {
    hide Step;
    if n > 0 {
      AgentDecides(w, kind, c, spec, timing, agent, tree, n - 1);
      var s := Run(w, kind, c, spec, timing, agent, tree, n - 1);
      if Goes(agent, s.transcript) {
        StepLogs(w, kind, c, spec, timing, s, agent(s.transcript).value);
        WantedGrows(agent, s.transcript, Run(w, kind, c, spec, timing, agent, tree, n).transcript);
      }
    }
  }

  lemma StepLogs<T>(w: World<T>, kind: Kind, c: Classifiers, spec: bool, timing: Timing, s: State<T>, call: Call)
    requires !call.Submit?
    ensures var log := Step(w, kind, c, spec, timing, s, call).transcript;
            |log| == |s.transcript| + 1 && log[..|s.transcript|] == s.transcript && log[|s.transcript|].call == call
  {
    hide Step;
    if Readonly(c, call) {
      ReadsLeaveRun(w, kind, c, spec, timing, s, call);
    } else if s.pending.Some? {
      ChangesSettleRun(w, kind, c, spec, timing, s, call);
    } else {
      PlainCall(w, kind, c, spec, timing, s, call);
    }
  }

  lemma WantedGrows(agent: Agent, log: seq<Entry>, more: seq<Entry>)
    requires Wanted(agent, log) && |more| == |log| + 1 && more[..|log|] == log
    requires agent(log) == Some(more[|log|].call)
    ensures Wanted(agent, more)
  {
    forall k | 0 <= k < |more| ensures agent(more[..k]) == Some(more[k].call) {
      if k < |log| { assert more[..k] == log[..k] && more[k] == log[k]; }
    }
  }

  // ---- whole sessions -----------------------------------------------------------------------------------

  /** From the m-th to the n-th call the agent only reads. */
  ghost predicate OnlyReads<T>(w: World<T>, kind: Kind, c: Classifiers, spec: bool, timing: Timing, agent: Agent,
                               tree: T, m: nat, n: nat) {
    forall k: nat {:trigger Run(w, kind, c, spec, timing, agent, tree, k)} :: m <= k < n ==>
      var log := Run(w, kind, c, spec, timing, agent, tree, k).transcript;
      Goes(agent, log) && Readonly(c, agent(log).value)
  }

  /** However long the agent reads, a pending run stays the pending run. */
  lemma {:induction false} ReadingKeepsRun<T>(w: World<T>, kind: Kind, c: Classifiers, spec: bool, timing: Timing,
                                              agent: Agent, tree: T, m: nat, n: nat)
    requires m <= n && OnlyReads(w, kind, c, spec, timing, agent, tree, m, n)
    ensures var s, t := Run(w, kind, c, spec, timing, agent, tree, m), Run(w, kind, c, spec, timing, agent, tree, n);
            SameRun(s, t) && t.events == s.events && |t.transcript| == |s.transcript| + n - m
  {
    hide Step;
    if m < n {
      ReadingKeepsRun(w, kind, c, spec, timing, agent, tree, m, n - 1);
      var s := Run(w, kind, c, spec, timing, agent, tree, n - 1);
      ReadsLeaveRun(w, kind, c, spec, timing, s, agent(s.transcript).value);
    }
  }

  /**
   The next state-changing call after a launch and any number of read-only calls is a hit exactly if it is a bash
   command that matches, and a miss otherwise. A hit is logged with what the run gave, or gives now, and leaves the tree
   as the run left it.
   */
  lemma ServedAfterReading<T>(w: World<T>, kind: Kind, c: Classifiers, spec: bool, timing: Timing, agent: Agent,
                              tree: T, m: nat, n: nat)
    requires m <= n && OnlyReads(w, kind, c, spec, timing, agent, tree, m, n)
    requires Run(w, kind, c, spec, timing, agent, tree, m).pending.Some?
    requires var log := Run(w, kind, c, spec, timing, agent, tree, n).transcript;
             Goes(agent, log) && !Readonly(c, agent(log).value)
    ensures var s, u := Run(w, kind, c, spec, timing, agent, tree, m), Run(w, kind, c, spec, timing, agent, tree, n);
            var t, p, call := Run(w, kind, c, spec, timing, agent, tree, n + 1), s.pending.value,
                              agent(u.transcript).value;
            var hit := call.Bash? && Matches(kind, c, call.cmd, p.cmd);
            && s.events + [if hit then Hit(|u.transcript|, p.launchedAt, call.cmd) else Miss(|u.transcript|, p.cmd)]
               <= t.events
            && u.pending.Some? && u.pending.value.cmd == p.cmd
            && (hit ==> var o := Outcomes(w, u.pending.value, u.tree);
                        t.transcript == u.transcript + [Entry(call, o.rc, o.output)] && t.tree == o.tree)
  {
    hide Step, Matches;
    ReadingKeepsRun(w, kind, c, spec, timing, agent, tree, m, n);
    var u := Run(w, kind, c, spec, timing, agent, tree, n);
    ChangesSettleRun(w, kind, c, spec, timing, u, agent(u.transcript).value);
  }

  // ---- replay -----------------------------------------------------------------------------------------

  /** The call is one that a replay serves from the pending run. */
  predicate ReplayMatch(c: Classifiers, call: Call, pending: Option<Pending>) {
    pending.Some? && !Readonly(c, call) && call.Bash? && c.sameCmd(call.cmd, pending.value.cmd)
  }

  /** Behind a hit of a replay the recorded command is also run for real, on the tree the run left, and the two results
      are compared; no run is started for it. */
  lemma ReplayHit<T>(w: World<T>, c: Classifiers, timing: Timing, r: Replay<T>, recorded: Call)
    requires ReplayMatch(c, Recorded(recorded), r.s.pending)
    ensures var q, call, p := ReplayStep(w, c, timing, r, recorded), Recorded(recorded), r.s.pending.value;
            var served := Outcomes(w, p, r.s.tree);
            var checked := w.exec(call.cmd, served.tree);
            && q.agreed == r.agreed + [(served.rc, served.output) == (checked.rc, checked.output)]
            && q.s.events == r.s.events + [Hit(|r.s.transcript|, p.launchedAt, call.cmd)] && q.s.pending.None?
            && q.s.transcript == r.s.transcript + [Entry(call, checked.rc, checked.output)]
            && q.s.tree == checked.tree && q.s.lastTest == Some(call.cmd)
  {
    hide SameAsLast;
  }

  /** Any other call is run for real and nothing is compared: behind a miss, after a read-only call that leaves the run
      and the events alone, and without a pending run. */
  lemma ReplayOther<T>(w: World<T>, c: Classifiers, timing: Timing, r: Replay<T>, recorded: Call)
    requires !ReplayMatch(c, Recorded(recorded), r.s.pending)
    ensures var q, call := ReplayStep(w, c, timing, r, recorded), Recorded(recorded);
            var o := Really(w, call, Found(w, timing, r.s, Readonly(c, call)));
            && q.agreed == r.agreed && (Readonly(c, call) ==> q.s.events == r.s.events && SameRun(r.s, q.s))
            && q.s.tree == o.tree && q.s.transcript == r.s.transcript + [Entry(call, o.rc, o.output)]
  {
    hide SameAsLast;
  }

  /** The events that one recorded call adds: a resolution if a run is pending, and perhaps a launch. */
  lemma ReplayAdds<T>(w: World<T>, c: Classifiers, timing: Timing, r: Replay<T>, recorded: Call)
    requires !ReplayMatch(c, Recorded(recorded), r.s.pending) && !Readonly(c, Recorded(recorded))
    ensures var q, n := ReplayStep(w, c, timing, r, recorded).s, |r.s.transcript|;
            var resolved := if r.s.pending.Some? then [Miss(n, r.s.pending.value.cmd)] else [];
            q.events == r.s.events + resolved +
                        if q.pending.Some? then [Launch(n + 1, RuleA, q.pending.value.cmd)] else []
  {
    hide SameAsLast;
  }

  /** In a replay the same calls are hits and misses as in a live session. */
  lemma ReplayChecks<T>(w: World<T>, c: Classifiers, timing: Timing, r: Replay<T>, recorded: Call)
    ensures var q, call, n := ReplayStep(w, c, timing, r, recorded), Recorded(recorded), |r.s.transcript|;
            && |q.s.transcript| == n + 1 && q.s.transcript[..n] == r.s.transcript && q.s.transcript[n].call == call
            && (Readonly(c, call) ==> q.s.events == r.s.events)
            && (!Readonly(c, call) && r.s.pending.Some? ==>
                var p := r.s.pending.value;
                var hit := call.Bash? && c.sameCmd(call.cmd, p.cmd);
                && r.s.events + [if hit then Hit(n, p.launchedAt, call.cmd) else Miss(n, p.cmd)] <= q.s.events
                && |q.agreed| == |r.agreed| + if hit then 1 else 0)
            && |q.agreed| - |r.agreed| == Hits(q.s.events) - Hits(r.s.events)
  {
    hide ReplayStep, Hits, Readonly;
    var q, call := ReplayStep(w, c, timing, r, recorded).s, Recorded(recorded);
    if ReplayMatch(c, call, r.s.pending) {
      ReplayHit(w, c, timing, r, recorded);
      HitsAppend(r.s.events, q.events[|r.s.events|]);
    } else {
      ReplayOther(w, c, timing, r, recorded);
      if !Readonly(c, call) {
        ReplayAdds(w, c, timing, r, recorded);
        var n := |r.s.transcript|;
        var middle := r.s.events + if r.s.pending.Some? then [Miss(n, r.s.pending.value.cmd)] else [];
        if r.s.pending.Some? { HitsAppend(r.s.events, Miss(n, r.s.pending.value.cmd)); }
        assert r.s.events + [] == r.s.events && middle + [] == middle;
        if q.pending.Some? { HitsAppend(middle, Launch(n + 1, RuleA, q.pending.value.cmd)); }
      }
    }
  }

  lemma HitsAppend(events: seq<Event>, e: Event)
    ensures Hits(events + [e]) == Hits(events) + if e.Hit? then 1 else 0
  {
    assert (events + [e])[..|events|] == events;
  }

  /** Behind any other state-changing call a replay starts the last test, exactly if the call succeeded, changed the
      tree, and was an edit or a command other than that test. */
  lemma ReplayLaunchedIff<T>(w: World<T>, c: Classifiers, timing: Timing, r: Replay<T>, recorded: Call)
    requires !Readonly(c, Recorded(recorded)) && !ReplayMatch(c, Recorded(recorded), r.s.pending)
    ensures var q, call, n := ReplayStep(w, c, timing, r, recorded).s, Recorded(recorded), |r.s.transcript|;
            && q.fp == w.fingerprint(q.tree) && |q.transcript| == n + 1
            && (q.pending.Some? <==>
                q.lastTest.Some? && q.transcript[n].rc == 0 && q.fp != r.s.fp &&
                !(call.Bash? && call.cmd != "" && c.sameCmd(call.cmd, q.lastTest.value)))
            && (q.pending.Some? ==> q.pending.value == Pending(q.lastTest.value, RuleA, n + 1, None))
  {}

  /** A replay makes the recorded calls, all of them and in order; a recorded submit is an empty shell command. */
  lemma {:induction false} ReplayMakesCalls<T>(w: World<T>, c: Classifiers, timing: Timing, tree: T, calls: seq<Call>)
    ensures var log := ReplayRun(w, c, timing, tree, calls).s.transcript;
            && |log| == |calls|
            && forall k :: 0 <= k < |calls| ==> log[k].call == if calls[k].Submit? then Bash("") else calls[k]
  {
    hide ReplayStep;
    if calls != [] {
      ReplayMakesCalls(w, c, timing, tree, calls[..|calls| - 1]);
      ReplayChecks(w, c, timing, ReplayRun(w, c, timing, tree, calls[..|calls| - 1]), calls[|calls| - 1]);
    }
  }

  /** Every hit of a replay is compared with the real run, and nothing but hits. */
  lemma {:induction false} EveryHitIsChecked<T>(w: World<T>, c: Classifiers, timing: Timing, tree: T, calls: seq<Call>)
    ensures var r := ReplayRun(w, c, timing, tree, calls); |r.agreed| == Hits(r.s.events)
  {
    hide ReplayStep;
    if calls != [] {
      EveryHitIsChecked(w, c, timing, tree, calls[..|calls| - 1]);
      ReplayChecks(w, c, timing, ReplayRun(w, c, timing, tree, calls[..|calls| - 1]), calls[|calls| - 1]);
    }
  }
}
