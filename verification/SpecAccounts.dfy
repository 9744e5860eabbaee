/**
 What every run of the speculative harnesses keeps, whatever the commands do: launches and
 resolutions alternate, a served result is never older than the last state-changing call, and the
 replay harness settles every launch.
 */
module SpecAccounts {
  import opened Wrappers
  import opened SpecExec

  /** Event k resolves the launch right before it. */
  predicate Resolves(kind: Kind, c: Classifiers, launch: Event, e: Event) {
    && launch.Launch? && launch.at <= e.at
    && match e
       case Launch(_, _, _) => false
       case Hit(_, launchedAt, cmd) => launchedAt == launch.at && Matches(kind, c, cmd, launch.cmd)
       case Miss(_, cmd) => cmd == launch.cmd
  }

  /** Launches and their resolutions alternate: at most one run is ever in flight. */
  ghost predicate Alternate(kind: Kind, c: Classifiers, events: seq<Event>) {
    events == [] ||
    var k := |events| - 1;
    && Alternate(kind, c, events[..k])
    && if k % 2 == 0 then events[k].Launch? else Resolves(kind, c, events[k - 1], events[k])
  }

  lemma AlternateAppend(kind: Kind, c: Classifiers, events: seq<Event>, e: Event)
    requires Alternate(kind, c, events)
    requires if |events| % 2 == 0 then e.Launch? else Resolves(kind, c, events[|events| - 1], e)
    ensures Alternate(kind, c, events + [e])
  {
    assert (events + [e])[..|events|] == events;
  }

  /** All calls from a to b-1 were read-only. */
  ghost predicate QuietBetween(c: Classifiers, transcript: seq<Entry>, a: nat, b: nat) {
    a <= b <= |transcript| && forall k :: a <= k < b ==> Readonly(c, transcript[k].call)
  }

  ghost predicate Inv<T>(kind: Kind, c: Classifiers, s: State<T>) {
    && Alternate(kind, c, s.events)
    && (s.pending.Some? <==> |s.events| % 2 == 1)
    && (forall k :: 0 <= k < |s.events| ==> s.events[k].at <= |s.transcript|)
    && (forall k :: 0 <= k < |s.events| && s.events[k].Hit? ==>
          QuietBetween(c, s.transcript, s.events[k].launchedAt, s.events[k].at))
    && (s.pending.Some? ==>
          var p, e := s.pending.value, s.events[|s.events| - 1];
          && e.Launch? && p.launchedAt == e.at && p.cmd == e.cmd
          && QuietBetween(c, s.transcript, p.launchedAt, |s.transcript|))
  }

  lemma SettleKeeps<T>(kind: Kind, c: Classifiers, s: State<T>, t: State<T>, e: Event)
    requires Inv(kind, c, s) && s.pending.Some? && t.pending.None? && t.transcript == s.transcript
    requires t.events == s.events + [e] && e.at == |s.transcript|
    requires var p := s.pending.value;
             e == Miss(e.at, p.cmd) || (e.Hit? && e.launchedAt == p.launchedAt && Matches(kind, c, e.cmd, p.cmd))
    ensures Inv(kind, c, t)
  {
    hide Matches;
    assert Resolves(kind, c, s.events[|s.events| - 1], e);
    AlternateAppend(kind, c, s.events, e);
    hide Alternate, Resolves, QuietBetween;
  }

  /** A run that gets done changes neither the log nor the events. */
  lemma ProgressKeeps<T>(w: World<T>, kind: Kind, c: Classifiers, timing: Timing, s: State<T>)
    requires Inv(kind, c, s)
    ensures Inv(kind, c, Progress(w, timing, s)) && Progress(w, timing, s).transcript == s.transcript
  {
    hide Alternate, QuietBetween;
  }

  lemma ResolveKeeps<T>(w: World<T>, kind: Kind, c: Classifiers, s: State<T>, call: Call)
    requires Inv(kind, c, s)
    ensures var t := Resolve(w, kind, c, s, call).1;
            && Inv(kind, c, t) && t.transcript == s.transcript
            && (!Readonly(c, call) ==> t.pending.None?)
  {
    hide Inv, Matches, Readonly;
    var t := Resolve(w, kind, c, s, call).1;
    if s.pending.Some? && !Readonly(c, call) {
      SettleKeeps(kind, c, s, t, t.events[|s.events|]);
    }
  }

  /** Logging a call keeps the invariant, provided nothing is pending behind a state-changing one. */
  lemma LogKeeps<T>(kind: Kind, c: Classifiers, s: State<T>, t: State<T>, e: Entry)
    requires Inv(kind, c, s) && (!Readonly(c, e.call) ==> s.pending.None?)
    requires t.transcript == s.transcript + [e] && t.pending == s.pending && t.events == s.events
    ensures Inv(kind, c, t)
  {
    hide Alternate, Readonly;
    forall k | 0 <= k < |t.events| && t.events[k].Hit?
      ensures QuietBetween(c, t.transcript, t.events[k].launchedAt, t.events[k].at)
    {
      QuietGrows(c, s.transcript, e, t.events[k].launchedAt, t.events[k].at);
    }
    if s.pending.Some? { QuietGrows(c, s.transcript, e, s.pending.value.launchedAt, |s.transcript|); }
  }

  lemma QuietGrows(c: Classifiers, transcript: seq<Entry>, e: Entry, a: nat, b: nat)
    requires QuietBetween(c, transcript, a, b)
    ensures QuietBetween(c, transcript + [e], a, b)
    ensures b == |transcript| && Readonly(c, e.call) ==> QuietBetween(c, transcript + [e], a, b + 1)
  {}

  lemma LaunchKeeps<T>(kind: Kind, c: Classifiers, s: State<T>, t: State<T>, rule: Rule)
    requires Inv(kind, c, s) && s.pending.None? && t.transcript == s.transcript
    requires t.pending.Some? && t.pending.value.launchedAt == |s.transcript|
    requires t.events == s.events + [Launch(|s.transcript|, rule, t.pending.value.cmd)]
    ensures Inv(kind, c, t)
  {
    AlternateAppend(kind, c, s.events, Launch(|s.transcript|, rule, t.pending.value.cmd));
    hide Alternate, Resolves;
  }

  lemma StepKeeps<T>(w: World<T>, kind: Kind, c: Classifiers, spec: bool, timing: Timing, s: State<T>, call: Call)
    requires Inv(kind, c, s) && !call.Submit?
    ensures Inv(kind, c, Step(w, kind, c, spec, timing, s, call))
  {
    hide Inv, Resolve, Target, Readonly, Progress;
    ProgressKeeps(w, kind, c, timing, s);
    var s1 := Progress(w, timing, s);
    ResolveKeeps(w, kind, c, s1, call);
    var (served, t) := Resolve(w, kind, c, s1, call);
    var u := Perform(w, c, t, call, served);
    LogKeeps(kind, c, t, u, u.transcript[|u.transcript| - 1]);
    if !Readonly(c, call) {
      ObserveKeeps(w, kind, c, spec, u, call, u.transcript[|u.transcript| - 1].rc);
    }
  }

  lemma ObserveKeeps<T>(w: World<T>, kind: Kind, c: Classifiers, spec: bool, s: State<T>, call: Call, rc: int)
    requires Inv(kind, c, s) && s.pending.None?
    ensures Inv(kind, c, Observe(w, kind, c, spec, s, call, rc))
  {
    hide Alternate, QuietBetween, Target;
    if w.fingerprint(s.tree) != s.fp {
      var target := Target(kind, c, call, s.lastTest, w.status(s.tree) - s.status);
      if spec && rc == 0 && target.Some? {
        LaunchKeeps(kind, c, s, Observe(w, kind, c, spec, s, call, rc), target.value.1);
      }
    }
  }

  /** For any agent, any commands and any timing: launches and resolutions alternate along every run, and every
      hit was served with only read-only calls since its launch. */
  lemma {:induction false} RunKeeps<T>(w: World<T>, kind: Kind, c: Classifiers, spec: bool, timing: Timing,
                                       agent: Agent,
                                       tree: T, n: nat)
    ensures Inv(kind, c, Run(w, kind, c, spec, timing, agent, tree, n))
  {
    hide Step, Inv;
    if n == 0 {
      FreshInv(w, kind, c, tree);
    } else {
      RunKeeps(w, kind, c, spec, timing, agent, tree, n - 1);
      var s := Run(w, kind, c, spec, timing, agent, tree, n - 1);
      if Goes(agent, s.transcript) { StepKeeps(w, kind, c, spec, timing, s, agent(s.transcript).value); }
    }
  }

  lemma FreshInv<T>(w: World<T>, kind: Kind, c: Classifiers, tree: T)
    ensures Inv(kind, c, Fresh(w, tree))
  {}

  // ---- counting ------------------------------------------------------------------------------------

  function Launches(events: seq<Event>): nat {
    if events == [] then 0 else Launches(events[..|events| - 1]) + if events[|events| - 1].Launch? then 1 else 0
  }

  function Hits(events: seq<Event>): nat {
    if events == [] then 0 else Hits(events[..|events| - 1]) + if events[|events| - 1].Hit? then 1 else 0
  }

  function Misses(events: seq<Event>): nat {
    if events == [] then 0 else Misses(events[..|events| - 1]) + if events[|events| - 1].Miss? then 1 else 0
  }

  lemma {:induction false} AlternationBalances(kind: Kind, c: Classifiers, events: seq<Event>)
    requires Alternate(kind, c, events)
    ensures Launches(events) == Hits(events) + Misses(events) + |events| % 2
  {
    if events != [] { AlternationBalances(kind, c, events[..|events| - 1]); }
  }

  /** launches = hits + misses, plus one exactly while a run is pending. */
  lemma LiveAccounts<T>(w: World<T>, kind: Kind, c: Classifiers, spec: bool, timing: Timing, agent: Agent, tree: T,
                        n: nat)
    ensures var s := Run(w, kind, c, spec, timing, agent, tree, n);
            Launches(s.events) == Hits(s.events) + Misses(s.events) + if s.pending.Some? then 1 else 0
  {
    RunKeeps(w, kind, c, spec, timing, agent, tree, n);
    AlternationBalances(kind, c, Run(w, kind, c, spec, timing, agent, tree, n).events);
  }

  // ---- replay ---------------------------------------------------------------------------------------

  /** A replay also runs every hit for real and notes whether the outputs agree. */
  datatype Replay<T> = Replay(s: State<T>, agreed: seq<bool>)

  predicate SameAsLast(c: Classifiers, call: Call, lastTest: string) {
    call.Bash? && call.cmd != "" && c.sameCmd(call.cmd, lastTest)
  }

  /** A replay knows two tools: whatever is not the editor, a recorded submit included, goes to the shell. */
  function Recorded(call: Call): (r: Call)
    ensures !r.Submit?
  {
    if call.Submit? then Bash("") else call
  }

  function ReplayStep<T>(w: World<T>, c: Classifiers, timing: Timing, r: Replay<T>, recorded: Call): Replay<T> {
    var call := Recorded(recorded);
    var (served, t) := Resolve(w, LiveModal, c, Progress(w, timing, r.s), call);
    var u := Perform(w, c, t, call, None);
    var e := u.transcript[|u.transcript| - 1];
    if served.Some? && call.Bash? then
      Replay(u.(fp := w.fingerprint(u.tree), lastTest := Some(call.cmd)), r.agreed + [served.value == (e.rc, e.output)])
    else if Readonly(c, call) then r.(s := u)
    else
      var fp := w.fingerprint(u.tree);
      var v := if fp == u.fp then u else u.(fp := fp, status := w.status(u.tree));
      if fp != u.fp && u.lastTest.Some? && e.rc == 0 && (call.Editor? || !SameAsLast(c, call, u.lastTest.value)) then
        r.(s := Start(v, u.lastTest.value, RuleA))
      else r.(s := v)
  }

  function ReplayRun<T>(w: World<T>, c: Classifiers, timing: Timing, tree: T, calls: seq<Call>): Replay<T> {
    if calls == [] then Replay(Fresh(w, tree), [])
    else ReplayStep(w, c, timing, ReplayRun(w, c, timing, tree, calls[..|calls| - 1]), calls[|calls| - 1])
  }

  lemma ReplayStepKeeps<T>(w: World<T>, c: Classifiers, timing: Timing, r: Replay<T>, recorded: Call)
    requires Inv(LiveModal, c, r.s)
    ensures Inv(LiveModal, c, ReplayStep(w, c, timing, r, recorded).s)
  {
    hide Inv, Resolve, Readonly, SameAsLast, Progress;
    var call := Recorded(recorded);
    ProgressKeeps(w, LiveModal, c, timing, r.s);
    var s1 := Progress(w, timing, r.s);
    ResolveKeeps(w, LiveModal, c, s1, call);
    var (served, t) := Resolve(w, LiveModal, c, s1, call);
    var u := Perform(w, c, t, call, None);
    var e := u.transcript[|u.transcript| - 1];
    LogKeeps(LiveModal, c, t, u, e);
    var next := ReplayStep(w, c, timing, r, recorded).s;
    if next.events != u.events {
      ServedIsQuiet(w, c, s1, call);
      SameLog(LiveModal, c, u, u.(fp := w.fingerprint(u.tree), status := w.status(u.tree)));
      LaunchKeeps(LiveModal, c, u.(fp := w.fingerprint(u.tree), status := w.status(u.tree)), next, RuleA);
    } else {
      SameLog(LiveModal, c, u, next);
    }
  }

  lemma SameLog<T>(kind: Kind, c: Classifiers, s: State<T>, t: State<T>)
    requires Inv(kind, c, s) && t.pending == s.pending && t.events == s.events && t.transcript == s.transcript
    ensures Inv(kind, c, t)
  {
    hide Alternate, QuietBetween;
  }

  lemma ServedIsQuiet<T>(w: World<T>, c: Classifiers, s: State<T>, call: Call)
    ensures Resolve(w, LiveModal, c, s, call).0.Some? ==> call.Bash? && !Readonly(c, call)
  {}

  lemma {:induction false} ReplayKeeps<T>(w: World<T>, c: Classifiers, timing: Timing, tree: T, calls: seq<Call>)
    ensures Inv(LiveModal, c, ReplayRun(w, c, timing, tree, calls).s)
  {
    hide ReplayStep, Inv;
    if calls == [] {
      FreshInv(w, LiveModal, c, tree);
    } else {
      ReplayKeeps(w, c, timing, tree, calls[..|calls| - 1]);
      ReplayStepKeeps(w, c, timing, ReplayRun(w, c, timing, tree, calls[..|calls| - 1]), calls[|calls| - 1]);
    }
  }

  /** A whole replay: a run still pending at the end is killed and counted as a miss. */
  method ReplaySession<T>(w: World<T>, c: Classifiers, timing: Timing, tree: T, calls: seq<Call>)
    returns (r: Replay<T>, launches: nat, hits: nat, misses: nat)
    ensures var run := ReplayRun(w, c, timing, tree, calls);
            && r.s.pending.None? && r.s.transcript == run.s.transcript && r.agreed == run.agreed
            && r.s.tree == Closed(w, run.s).tree
    ensures Alternate(LiveModal, c, r.s.events)
    ensures launches == Launches(r.s.events) && hits == Hits(r.s.events) && misses == Misses(r.s.events)
    ensures launches == hits + misses
  {
    hide ReplayStep;
    r := Replay(Fresh(w, tree), []);
    for k := 0 to |calls|
      invariant r == ReplayRun(w, c, timing, tree, calls[..k])
    {
      assert calls[..k + 1][..k] == calls[..k];
      r := ReplayStep(w, c, timing, r, calls[k]);
    }
    assert calls[..|calls|] == calls;
    ReplayKeeps(w, c, timing, tree, calls);
    if r.s.pending.Some? {
      AlternateAppend(LiveModal, c, r.s.events, Miss(|r.s.transcript|, r.s.pending.value.cmd));
      var events := r.s.events + [Miss(|r.s.transcript|, r.s.pending.value.cmd)];
      r := r.(s := r.s.(tree := Killed(w, r.s.pending.value, r.s.tree), pending := None, events := events));
    }
    AlternationBalances(LiveModal, c, r.s.events);
    launches, hits, misses := Launches(r.s.events), Hits(r.s.events), Misses(r.s.events);
  }

  // ---- what a replay reports when speculation is harmless -----------------------------------------------

  /** Every remembered or started command leaves the tree alone, and a pending result is current. */
  ghost predicate ReplaySim<T(!new)>(w: World<T>, s: State<T>) {
    && (s.lastTest.Some? ==> LeavesTree(w, s.lastTest.value))
    && (s.pending.Some? ==>
          var q := s.pending.value;
          LeavesTree(w, q.cmd) &&
          (q.result.Some? ==> q.result.value == (w.exec(q.cmd, s.tree).rc, w.exec(q.cmd, s.tree).output)))
  }

  /** Harmless commands, with matching commands alike whatever they are. */
  ghost predicate ReplayHarmless<T(!new)>(w: World<T>, c: Classifiers) {
    Harmless(w, LiveModal, c) && forall a, b :: c.sameCmd(a, b) ==> BehaveAlike(w, a, b)
  }

  lemma ReplayStepSim<T(!new)>(w: World<T>, c: Classifiers, timing: Timing, r: Replay<T>, recorded: Call)
    requires ReplayHarmless(w, c) && ReplaySim(w, r.s)
    requires forall k :: 0 <= k < |r.agreed| ==> r.agreed[k]
    ensures var q := ReplayStep(w, c, timing, r, recorded);
            && ReplaySim(w, q.s) && (forall k :: 0 <= k < |q.agreed| ==> q.agreed[k])
            && q.s.tree == Execute(w, r.s, Recorded(recorded)).tree
  {
    hide SameAsLast, Resolve, LeavesTree, Complete;
    var call, s1 := Recorded(recorded), Progress(w, timing, r.s);
    ProgressSim(w, timing, r.s);
    ReplayResolves(w, c, s1, call);
    TestsLeaveTree(w, c, call);
  }

  lemma ProgressSim<T(!new)>(w: World<T>, timing: Timing, s: State<T>)
    requires ReplaySim(w, s)
    ensures var t := Progress(w, timing, s);
            ReplaySim(w, t) && t.tree == s.tree && t.transcript == s.transcript
  {}

  /** Resolving leaves the tree alone, and what is served is what the call gives by itself. */
  lemma ReplayResolves<T(!new)>(w: World<T>, c: Classifiers, s: State<T>, call: Call)
    requires ReplayHarmless(w, c) && ReplaySim(w, s)
    ensures var (served, t) := Resolve(w, LiveModal, c, s, call);
            && t.tree == s.tree && ReplaySim(w, t) && (!Readonly(c, call) ==> t.pending.None?)
            && (served.Some? ==> call.Bash? && !Readonly(c, call) && LeavesTree(w, call.cmd) &&
                                 served.value == (w.exec(call.cmd, s.tree).rc, w.exec(call.cmd, s.tree).output))
  {
    if s.pending.Some? && call.Bash? && c.sameCmd(call.cmd, s.pending.value.cmd) {
      assert BehaveAlike(w, call.cmd, s.pending.value.cmd);
    }
  }

  lemma TestsLeaveTree<T(!new)>(w: World<T>, c: Classifiers, call: Call)
    requires ReplayHarmless(w, c)
    ensures call.Bash? && c.testish(call.cmd) ==> LeavesTree(w, call.cmd)
  {
    if call.Bash? && c.testish(call.cmd) { assert Speculable(c, call.cmd); }
  }

  /** The tree of a plain replay without any speculation. */
  function PlainTree<T>(w: World<T>, tree: T, calls: seq<Call>): T {
    if calls == [] then tree else
      var call := Recorded(calls[|calls| - 1]);
      var t := PlainTree(w, tree, calls[..|calls| - 1]);
      (if call.Bash? then w.exec(call.cmd, t) else w.editor(call, t)).tree
  }

  /** When speculation is harmless, every hit validates and the tree is that of a plain replay. */
  lemma {:induction false} ReplayValidates<T(!new)>(w: World<T>, c: Classifiers, timing: Timing, tree: T,
                                                    calls: seq<Call>)
    requires ReplayHarmless(w, c)
    ensures var r := ReplayRun(w, c, timing, tree, calls);
            && ReplaySim(w, r.s) && (forall k :: 0 <= k < |r.agreed| ==> r.agreed[k])
            && r.s.tree == PlainTree(w, tree, calls)
  {
    hide ReplayStep, ReplayHarmless, ReplaySim;
    if calls == [] {
      FreshSim(w, tree);
    } else {
      ReplayValidates(w, c, timing, tree, calls[..|calls| - 1]);
      ReplayStepSim(w, c, timing, ReplayRun(w, c, timing, tree, calls[..|calls| - 1]), calls[|calls| - 1]);
    }
  }

  lemma FreshSim<T(!new)>(w: World<T>, tree: T)
    ensures ReplaySim(w, Fresh(w, tree))
  {}
}
