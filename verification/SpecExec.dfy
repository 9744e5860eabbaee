/**
 Speculative tool execution. After an edit the harness starts the command it expects next in the
 background; if the next state-changing call is that command, its result is served, and anything
 else kills the run. Two live harnesses and the replay harness share this loop.
 */
module SpecExec {
  import opened Wrappers

  /** A tool call. An editor call names its command (view, create, ...), its path and the rest. */
  datatype Call =
    | Bash(cmd: string)
    | Editor(command: string, path: string, body: string)
    | Submit

  datatype Outcome<T> = Outcome(rc: int, output: string, tree: T)

  /**
   The sandbox: commands and editor calls read and change a tree, git summarises it. A background run that is
   killed before it is done may leave any part of its effect behind.
   */
  datatype World<!T> = World(
    exec: (string, T) -> Outcome<T>,
    interrupted: (string, T) -> T,
    editor: (Call, T) -> Outcome<T>,
    fingerprint: T -> string,
    status: T -> set<string>)

  /** Which harness: exact matching of commands, or canonical matching and creation rules. */
  datatype Kind = LiveExact | LiveModal

  /** Classifiers that the harness takes from its regular expressions. */
  datatype Classifiers = Classifiers(
    readonlyBash: string -> bool,
    testish: string -> bool,
    sameCmd: (string, string) -> bool,
    createdFile: string -> Option<string>)

  datatype Rule = RuleA | RuleB

  /** A run in the background: its command, how many calls were made before it, and its result once it is done. */
  datatype Pending = Pending(cmd: string, rule: Rule, launchedAt: nat, result: Option<(int, string)>)

  /** Whether a run still in flight gets done before the n-th call: the environment's choice. */
  type Timing = nat -> bool

  datatype Event =
    | Launch(at: nat, rule: Rule, cmd: string)
    | Hit(at: nat, launchedAt: nat, cmd: string)
    | Miss(at: nat, cmd: string)

  datatype Entry = Entry(call: Call, rc: int, output: string)

  datatype State<T> = State(
    tree: T, fp: string, status: set<string>, lastTest: Option<string>, pending: Option<Pending>,
    events: seq<Event>, transcript: seq<Entry>)

  predicate Readonly(c: Classifiers, call: Call) {
    match call
    case Bash(cmd) => c.readonlyBash(cmd)
    case Editor(command, _, _) => command == "view"
    case Submit => false
  }

  predicate Matches(kind: Kind, c: Classifiers, cmd: string, pending: string) {
    if kind.LiveExact? then cmd == pending else c.sameCmd(cmd, pending)
  }

  function PredictedAfterCreate(path: string): Option<string> {
    if |path| >= 3 && path[|path| - 3..] == ".py" then Some("cd /testbed && python " + path) else None
  }

  // ---- the parts of one call -----------------------------------------------------------------------

  /** A run in flight gets done: it acts on the tree as it is by now. */
  function Complete<T>(w: World<T>, s: State<T>): (t: State<T>)
    requires s.pending.Some?
    ensures t.pending.Some? && t.pending.value.result.Some?
  {
    var p := s.pending.value;
    if p.result.Some? then s else
      var o := w.exec(p.cmd, s.tree);
      s.(tree := o.tree, pending := Some(p.(result := Some((o.rc, o.output)))))
  }

  /** What goes on in the background before the next call. */
  function Progress<T>(w: World<T>, timing: Timing, s: State<T>): State<T> {
    if s.pending.Some? && timing(|s.transcript|) then Complete(w, s) else s
  }

  /** The tree after killing a run, if it was still in flight. */
  function Killed<T>(w: World<T>, p: Pending, tree: T): T {
    if p.result.Some? then tree else w.interrupted(p.cmd, tree)
  }

  /** Resolve a pending run before a call: wait for it and serve it, kill it, or leave it alone. */
  function Resolve<T>(w: World<T>, kind: Kind, c: Classifiers, s: State<T>, call: Call)
    : (r: (Option<(int, string)>, State<T>))
  {
    if s.pending.None? || Readonly(c, call) then (None, s)
    else
      var p := s.pending.value;
      if call.Bash? && Matches(kind, c, call.cmd, p.cmd) then
        var t := Complete(w, s);
        (t.pending.value.result,
         t.(pending := None, events := s.events + [Hit(|s.transcript|, p.launchedAt, call.cmd)]))
      else
        (None, s.(tree := Killed(w, p, s.tree), pending := None, events := s.events + [Miss(|s.transcript|, p.cmd)]))
  }

  /** Run a call for real. */
  function Execute<T>(w: World<T>, s: State<T>, call: Call): Outcome<T> {
    if call.Bash? then w.exec(call.cmd, s.tree) else w.editor(call, s.tree)
  }

  /** Run a call, or take the served result and touch nothing; log it and remember test commands. */
  function Perform<T>(w: World<T>, c: Classifiers, s: State<T>, call: Call, served: Option<(int, string)>): State<T> {
    var o := if served.Some? then Outcome(served.value.0, served.value.1, s.tree) else Execute(w, s, call);
    s.(tree := o.tree, transcript := s.transcript + [Entry(call, o.rc, o.output)],
       lastTest := if call.Bash? && call.cmd != "" && c.testish(call.cmd) then Some(call.cmd) else s.lastTest)
  }

  function EditKinds(added: set<string>): set<string> {
    if added == {} then {"modified"}
    else set l | l in added :: if "??" <= l || "A " <= l then "created" else "modified"
  }

  /** The command to start after a successful call that changed the tree, and by which rule. */
  function Target(kind: Kind, c: Classifiers, call: Call, lastTest: Option<string>,
                  added: set<string>): Option<(string, Rule)> {
    match kind
    case LiveExact =>
      if lastTest.Some? && !(call.Bash? && call.cmd == lastTest.value) then Some((lastTest.value, RuleA)) else None
    case LiveModal =>
      var kinds := EditKinds(added);
      if kinds == {"modified"} && lastTest.Some?
         && !(call.Bash? && call.cmd != "" && c.sameCmd(call.cmd, lastTest.value)) then
        Some((lastTest.value, RuleA))
      else if kinds == {"created"} then
        var created := if call.Editor? && call.path != "" then Some(call.path)
                       else if call.Bash? then c.createdFile(call.cmd) else None;
        var target := if created.Some? then PredictedAfterCreate(created.value) else None;
        if target.Some? then Some((target.value, RuleB)) else None
      else None
  }

  /** Start a command in the background. */
  function Start<T>(s: State<T>, target: string, rule: Rule): State<T> {
    s.(pending := Some(Pending(target, rule, |s.transcript|, None)),
       events := s.events + [Launch(|s.transcript|, rule, target)])
  }

  /** After a state-changing call: look at the tree, and perhaps start the next command. */
  function Observe<T>(w: World<T>, kind: Kind, c: Classifiers, spec: bool, s: State<T>, call: Call, rc: int): State<T> {
    var fp := w.fingerprint(s.tree);
    if fp == s.fp then s
    else
      var status := w.status(s.tree);
      var t := s.(fp := fp, status := status);
      var target := if spec && rc == 0 then Target(kind, c, call, s.lastTest, status - s.status) else None;
      if target.Some? then Start(t, target.value.0, target.value.1) else t
  }

  /** One call of a live harness. */
  function Step<T>(w: World<T>, kind: Kind, c: Classifiers, spec: bool, timing: Timing, s: State<T>,
                   call: Call): State<T>
    requires !call.Submit?
  {
    var (served, t) := Resolve(w, kind, c, Progress(w, timing, s), call);
    var u := Perform(w, c, t, call, served);
    if Readonly(c, call) then u else Observe(w, kind, c, spec, u, call, u.transcript[|u.transcript| - 1].rc)
  }

  function Fresh<T>(w: World<T>, tree: T): State<T> {
    State(tree, w.fingerprint(tree), w.status(tree), None, None, [], [])
  }

  /** The agent decides its next call from everything it has seen; None or submit ends the session. */
  type Agent = seq<Entry> -> Option<Call>

  predicate Goes(agent: Agent, transcript: seq<Entry>) {
    agent(transcript).Some? && !agent(transcript).value.Submit?
  }

  /** The state after at most n calls. */
  function Run<T>(w: World<T>, kind: Kind, c: Classifiers, spec: bool, timing: Timing, agent: Agent, tree: T, n: nat)
    : State<T>
  {
    if n == 0 then Fresh(w, tree) else
      var s := Run(w, kind, c, spec, timing, agent, tree, n - 1);
      if Goes(agent, s.transcript) then Step(w, kind, c, spec, timing, s, agent(s.transcript).value) else s
  }

  /** The end of a session: a run that is still pending is killed, without an event. */
  function Closed<T>(w: World<T>, s: State<T>): State<T> {
    if s.pending.None? then s else s.(tree := Killed(w, s.pending.value, s.tree), pending := None)
  }

  // ---- the live loop itself ---------------------------------------------------------------------------

  class LiveLoop<T> {
    const w: World<T>
    const kind: Kind
    const c: Classifiers
    const spec: bool
    const timing: Timing
    var tree: T
    var fp: string
    var status: set<string>
    var lastTest: Option<string>
    var pending: Option<Pending>
    var events: seq<Event>
    var transcript: seq<Entry>

    ghost function View(): State<T>
      reads this
    {
      State(tree, fp, status, lastTest, pending, events, transcript)
    }

    constructor (w: World<T>, kind: Kind, c: Classifiers, spec: bool, timing: Timing, tree: T)
      ensures this.w == w && this.kind == kind && this.c == c && this.spec == spec && this.timing == timing
      ensures View() == Fresh(w, tree)
    {
      this.w, this.kind, this.c, this.spec, this.timing, this.tree := w, kind, c, spec, timing, tree;
      fp, status := w.fingerprint(tree), w.status(tree);
      lastTest, pending, events, transcript := None, None, [], [];
    }

    method SpecStart(target: string, rule: Rule)
      modifies this
      ensures View() == Start(old(View()), target, rule)
    {
      pending := Some(Pending(target, rule, |transcript|, None));
      events := events + [Launch(|transcript|, rule, target)];
    }

    /** The environment lets the pending run get done. */
    method CompletePending()
      requires pending.Some?
      modifies this
      ensures View() == Complete(w, old(View()))
    {
      var p := pending.value;
      if p.result.None? {
        var o := w.exec(p.cmd, tree);
        tree := o.tree;
        pending := Some(p.(result := Some((o.rc, o.output))));
      }
    }

    method ResolvePending(call: Call) returns (served: Option<(int, string)>)
      modifies this
      ensures (served, View()) == Resolve(w, kind, c, old(View()), call)
    {
      served := None;
      if pending.Some? && !Readonly(c, call) {
        var p := pending.value;
        if call.Bash? && Matches(kind, c, call.cmd, p.cmd) {
          CompletePending();
          served := pending.value.result;
          events := events + [Hit(|transcript|, p.launchedAt, call.cmd)];
        } else {
          tree := Killed(w, p, tree);
          events := events + [Miss(|transcript|, p.cmd)];
        }
        pending := None;
      }
    }

    method PerformCall(call: Call, served: Option<(int, string)>) returns (rc: int)
      modifies this
      ensures View() == Perform(w, c, old(View()), call, served)
      ensures transcript != [] && rc == transcript[|transcript| - 1].rc
    {
      var output;
      if served.Some? {
        rc, output := served.value.0, served.value.1;
      } else {
        var o := if call.Bash? then w.exec(call.cmd, tree) else w.editor(call, tree);
        rc, output, tree := o.rc, o.output, o.tree;
      }
      transcript := transcript + [Entry(call, rc, output)];
      if call.Bash? && call.cmd != "" && c.testish(call.cmd) { lastTest := Some(call.cmd); }
    }

    method ObserveTree(call: Call, rc: int)
      modifies this
      ensures View() == Observe(w, kind, c, spec, old(View()), call, rc)
    {
      hide Target;
      var nfp := w.fingerprint(tree);
      if nfp == fp { return; }
      fp := nfp;
      var nstatus := w.status(tree);
      var added := nstatus - status;
      status := nstatus;
      if spec && rc == 0 {
        var target := Target(kind, c, call, lastTest, added);
        if target.Some? { SpecStart(target.value.0, target.value.1); }
      }
    }

    method Handle(call: Call)
      requires !call.Submit?
      modifies this
      ensures View() == Step(w, kind, c, spec, timing, old(View()), call)
    {
      hide Resolve, Perform, Observe, Complete;
      if pending.Some? && timing(|transcript|) { CompletePending(); }
      var served := ResolvePending(call);
      var rc := PerformCall(call, served);
      if !Readonly(c, call) { ObserveTree(call, rc); }
    }

    method RunTask(agent: Agent, maxCalls: nat)
      requires View() == Fresh(w, tree)
      modifies this
      ensures View() == Closed(w, Run(w, kind, c, spec, timing, agent, old(tree), maxCalls))
    {
      hide Step;
      ghost var tree0 := tree;
      var n := 0;
      while n < maxCalls && Goes(agent, transcript)
        invariant n <= maxCalls && View() == Run(w, kind, c, spec, timing, agent, tree0, n)
      {
        Handle(agent(transcript).value);
        n := n + 1;
      }
      Settled(w, kind, c, spec, timing, agent, tree0, n, maxCalls);
      if pending.Some? {
        tree := Killed(w, pending.value, tree);
        pending := None;
      }
    }
  }

  /** Once the agent stops, further rounds change nothing. */
  lemma {:induction false} Settled<T>(w: World<T>, kind: Kind, c: Classifiers, spec: bool, timing: Timing, agent: Agent,
                                      tree: T, n: nat, m: nat)
    requires n <= m && (n == m || !Goes(agent, Run(w, kind, c, spec, timing, agent, tree, n).transcript))
    ensures Run(w, kind, c, spec, timing, agent, tree, m) == Run(w, kind, c, spec, timing, agent, tree, n)
  {
    if n < m { Settled(w, kind, c, spec, timing, agent, tree, n, m - 1); }
  }

  // ---- transparency ----------------------------------------------------------------------------------

  /** Commands a harness may start in the background. */
  ghost predicate Speculable(c: Classifiers, cmd: string) {
    c.testish(cmd) || exists path :: PredictedAfterCreate(path) == Some(cmd)
  }

  /** Done or killed half way, the command changes nothing. */
  ghost predicate LeavesTree<T(!new)>(w: World<T>, cmd: string) {
    && (forall t: T :: w.exec(cmd, t).tree == t)
    && (forall t: T :: w.interrupted(cmd, t) == t)
  }

  ghost predicate BehaveAlike<T(!new)>(w: World<T>, a: string, b: string) {
    && (forall t: T :: w.exec(a, t) == w.exec(b, t))
    && (forall t: T :: w.interrupted(a, t) == w.interrupted(b, t))
  }

  /** What speculation relies on: started commands and read-only calls leave the tree alone, and a
      command that is served for another behaves like it. */
  ghost predicate Harmless<T(!new)>(w: World<T>, kind: Kind, c: Classifiers) {
    && (forall cmd :: Speculable(c, cmd) ==> LeavesTree(w, cmd))
    && (forall call, t: T :: Readonly(c, call) ==>
        (if call.Bash? then w.exec(call.cmd, t) else w.editor(call, t)).tree == t)
    && (forall a, b :: Speculable(c, b) && Matches(kind, c, a, b) ==> BehaveAlike(w, a, b))
  }

  /** s runs with speculation and p without; a result that is waiting is what its command gives right now. */
  ghost predicate Sim<T(!new)>(w: World<T>, c: Classifiers, s: State<T>, p: State<T>) {
    && s.tree == p.tree && s.transcript == p.transcript && p.pending.None?
    && (s.lastTest.Some? ==> c.testish(s.lastTest.value))
    && (s.pending.Some? ==>
          var q := s.pending.value;
          Speculable(c, q.cmd) &&
          (q.result.Some? ==> q.result.value == (w.exec(q.cmd, s.tree).rc, w.exec(q.cmd, s.tree).output)))
  }

  lemma CompleteSim<T(!new)>(w: World<T>, kind: Kind, c: Classifiers, s: State<T>, p: State<T>)
    requires Harmless(w, kind, c) && Sim(w, c, s, p) && s.pending.Some?
    ensures Sim(w, c, Complete(w, s), p) && Complete(w, s).tree == s.tree
  {
    assert LeavesTree(w, s.pending.value.cmd);
  }

  lemma TargetIsSpeculable(kind: Kind, c: Classifiers, call: Call, lastTest: Option<string>, added: set<string>)
    requires lastTest.Some? ==> c.testish(lastTest.value)
    ensures Target(kind, c, call, lastTest, added).Some? ==>
            Speculable(c, Target(kind, c, call, lastTest, added).value.0)
  {}

  /** Performing a call with or without the served result leaves the same transcript and tree. */
  lemma PerformSim<T(!new)>(w: World<T>, kind: Kind, c: Classifiers, s: State<T>, p: State<T>, call: Call)
    requires Harmless(w, kind, c) && Sim(w, c, s, p) && !call.Submit?
    ensures var (served, t) := Resolve(w, kind, c, s, call);
            var u, v := Perform(w, c, t, call, served), Perform(w, c, p, call, None);
            && Sim(w, c, u, v) && Resolve(w, kind, c, p, call) == (None, p)
            && (!Readonly(c, call) ==> u.pending.None?)
            && u.transcript != [] && v.transcript != []
  {
    if s.pending.Some? && !Readonly(c, call) {
      var q := s.pending.value;
      assert LeavesTree(w, q.cmd);
      if call.Bash? && Matches(kind, c, call.cmd, q.cmd) {
        CompleteSim(w, kind, c, s, p);
        assert BehaveAlike(w, call.cmd, q.cmd);
      }
    }
  }

  lemma ObserveSim<T(!new)>(w: World<T>, kind: Kind, c: Classifiers, spec: bool, s: State<T>, p: State<T>, call: Call,
                            rc: int)
    requires Harmless(w, kind, c) && Sim(w, c, s, p) && s.pending.None?
    ensures Sim(w, c, Observe(w, kind, c, spec, s, call, rc), Observe(w, kind, c, false, p, call, rc))
  {
    hide Target;
    if w.fingerprint(s.tree) != s.fp {
      var target := Target(kind, c, call, s.lastTest, w.status(s.tree) - s.status);
      TargetIsSpeculable(kind, c, call, s.lastTest, w.status(s.tree) - s.status);
    }
  }

  lemma StepSim<T(!new)>(w: World<T>, kind: Kind, c: Classifiers, spec: bool, timing: Timing, other: Timing,
                         s: State<T>, p: State<T>, call: Call)
    requires Harmless(w, kind, c) && Sim(w, c, s, p) && !call.Submit?
    ensures Sim(w, c, Step(w, kind, c, spec, timing, s, call), Step(w, kind, c, false, other, p, call))
  {
    hide Harmless;
    var s1 := Progress(w, timing, s);
    if s.pending.Some? { CompleteSim(w, kind, c, s, p); }
    assert Progress(w, other, p) == p;
    hide Sim, Resolve, Perform, Observe, Complete;
    PerformSim(w, kind, c, s1, p, call);
    if !Readonly(c, call) {
      var (served, t) := Resolve(w, kind, c, s1, call);
      var u, v := Perform(w, c, t, call, served), Perform(w, c, p, call, None);
      ObserveSim(w, kind, c, spec, u, v, call, u.transcript[|u.transcript| - 1].rc);
    }
  }

  lemma {:induction false} RunSim<T(!new)>(w: World<T>, kind: Kind, c: Classifiers, spec: bool, timing: Timing,
                                           other: Timing, agent: Agent, tree: T, n: nat)
    requires Harmless(w, kind, c)
    ensures Sim(w, c, Run(w, kind, c, spec, timing, agent, tree, n), Run(w, kind, c, false, other, agent, tree, n))
  {
    hide Step, Harmless;
    if n > 0 {
      RunSim(w, kind, c, spec, timing, other, agent, tree, n - 1);
      var s := Run(w, kind, c, spec, timing, agent, tree, n - 1);
      var p := Run(w, kind, c, false, other, agent, tree, n - 1);
      if Goes(agent, s.transcript) { StepSim(w, kind, c, spec, timing, other, s, p, agent(s.transcript).value); }
    }
  }

  /**
   Speculation is transparent: for every agent, however it reacts to what it sees, for every moment at which the
   background runs get done, and for every number of calls, transcript and tree are those of the same agent without
   speculation, before and after the last run is killed.
   */
  lemma Transparent<T(!new)>(w: World<T>, kind: Kind, c: Classifiers, spec: bool, timing: Timing, other: Timing,
                             agent: Agent, tree: T, n: nat)
    requires Harmless(w, kind, c)
    ensures var s, p := Run(w, kind, c, spec, timing, agent, tree, n), Run(w, kind, c, false, other, agent, tree, n);
            && s.transcript == p.transcript && s.tree == p.tree
            && Closed(w, s).tree == Closed(w, p).tree == p.tree
  {
    hide Run;
    RunSim(w, kind, c, spec, timing, other, agent, tree, n);
    var s := Run(w, kind, c, spec, timing, agent, tree, n);
    if s.pending.Some? { assert LeavesTree(w, s.pending.value.cmd); }
  }
}
