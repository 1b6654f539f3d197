/** At most once, across every resume (packages/workflow/src/engine.ts). */
module WorkflowOnce {
  // The ledger's key contains a sequence number that starts again at zero on every call, and an insert that
  // collides is dropped, so "a step that already succeeded is never re-executed" is not true of every
  // definition (see WorkflowFindings). It is true of acyclic definitions that always say where to go next.

  import opened Prelude
  import opened WorkflowSchema
  import opened WorkflowEngine
  import opened WorkflowSafety

  /** Every edge of the step graph goes to a strictly smaller rank. */
  ghost predicate Ranks(def: Definition, rank: map<string, nat>) {
    && def.startStep in rank
    && (forall k :: k in ByKey(def.steps) ==> k in rank)
    && forall a, b :: Edge(def, a, b) ==> a in rank && b in rank && rank[b] < rank[a]
  }

  ghost predicate Acyclic(def: Definition) { exists rank :: Ranks(def, rank) }

  /** The step always names where the run goes next. */
  predicate Continues(step: Step) {
    match step.kind
    case End => step.when.None?
    case Branch(arms, fallback) =>
      Live(fallback) && (forall a :: a in arms ==> a.next != "") && (step.when.None? || Live(step.next))
    case _ => Live(step.next)
  }

  /** No path through the definition runs off it without reaching an end step. */
  predicate NeverRunsOff(def: Definition) {
    def.startStep != "" && forall k :: k in ByKey(def.steps) ==> Continues(ByKey(def.steps)[k])
  }

  predicate Terminal(status: Status) { status in {Completed, RunFailed, RunCancelled} }

  // ---------------------------------------------------------------------------
  // A call reports what it stored
  // ---------------------------------------------------------------------------

  ghost predicate NotEnded(def: Definition, ledger: seq<Row>) {
    forall r :: r in ledger && r.status == Succeeded && r.key in ByKey(def.steps) ==>
      !ByKey(def.steps)[r.key].kind.End?
  }

  ghost predicate OnLoop(def: Definition, c: Config) {
    AtTurn(def, c) && NotEnded(def, c.run.ledger) && Live(c.current)
  }

  ghost predicate OnRest(def: Definition, run: Run) {
    Rest(def, run) && (!Terminal(run.status) ==> NotEnded(def, run.ledger) && Live(run.current))
  }

  /** Where a turn continues to is a live edge out of the step. */
  lemma ContinuesAlongEdge(def: Definition, w: World, c: Config)
    requires NeverRunsOff(def) && NotEnded(def, c.run.ledger) && Looping(def, c) && Turn(def, w, c).Continue?
    ensures Live(Turn(def, w, c).config.current)
    ensures Edge(def, c.current.value, Turn(def, w, c).config.current.value)
  {
    ByKeyMeaning(def.steps);
    var key := c.current.value;
    var step := ByKey(def.steps)[key];
    PriorMeaning(c.run.ledger, key);
    TargetsOf(step);
    ExecuteEffect(def, w, step, c.context, c.executed, c.run.dryRun);
    if step.kind.Branch? { TakeBranchShape(w, step.kind.arms, step.kind.fallback, c.context); }
  }

  lemma TargetsOf(step: Step)
    ensures step.next in Targets(step) && step.onError in Targets(step)
    ensures step.kind.Approval? ==> step.kind.onReject in Targets(step)
    ensures step.kind.Branch? ==>
      step.kind.fallback in Targets(step) && forall a :: a in step.kind.arms ==> Some(a.next) in Targets(step)
  {
    var targets := Targets(step);
    assert targets[0] == step.next && targets[1] == step.onError;
    if step.kind.Approval? { assert targets[2] == step.kind.onReject; }
    if step.kind.Branch? {
      var arms := step.kind.arms;
      assert targets[|targets| - 1] == step.kind.fallback;
      forall a | a in arms ensures Some(a.next) in targets {
        var i :| 0 <= i < |arms| && arms[i] == a;
        assert targets[2 + i] == ArmTargets(arms)[i] == Some(a.next);
      }
    }
  }

  /** The part of the invariant that is not `Sound`, and what a stop reports. */
  ghost predicate StaysOpen(def: Definition, turned: Turned) {
    match turned
    case Continue(c) => NotEnded(def, c.run.ledger)
    case Stop(run, outcome) =>
      && outcome.status == run.status != Running
      && (!Terminal(run.status) ==> NotEnded(def, run.ledger) && Live(run.current))
    case Raise => true
  }

  lemma ResumeStaysOpen(def: Definition, step: Step, c: Config, output: Output)
    requires NotEnded(def, c.run.ledger) && Live(Some(step.key))
    ensures StaysOpen(def, Resume(step, c, output))
  {
  }

  lemma SucceedStaysOpen(def: Definition, step: Step, c: Config, e: Execution)
    requires NotEnded(def, c.run.ledger) && Live(Some(step.key))
    requires step.key in ByKey(def.steps) && ByKey(def.steps)[step.key] == step
    requires e.Success? && (step.kind.End? ==> e.wait.NoWait?)
    ensures StaysOpen(def, Succeed(step, c, e))
  {
  }

  lemma FailedStaysOpen(def: Definition, step: Step, c: Config, message: string)
    requires NotEnded(def, c.run.ledger) && Live(Some(step.key))
    ensures StaysOpen(def, Failed(step, c, message)) && StaysOpen(def, Bypass(step, c))
  {
  }

  lemma FreshStaysOpen(def: Definition, w: World, step: Step, c: Config)
    requires NotEnded(def, c.run.ledger) && Live(Some(step.key))
    requires step.key in ByKey(def.steps) && ByKey(def.steps)[step.key] == step
    ensures StaysOpen(def, Fresh(w, step, c))
  {
    FailedStaysOpen(def, step, c, "");
    match Execute(w, step, c.context, c.executed, c.run.dryRun)
    case Success(output, wait, jump, effect) =>
      ExecuteEffect(def, w, step, c.context, c.executed, c.run.dryRun);
      SucceedStaysOpen(def, step, c, Success(output, wait, jump, effect));
    case Failure(message) => FailedStaysOpen(def, step, c, message);
    case Lost =>
  }

  /** Only the step just run gains a row, and an end step that succeeds ends the run. */
  lemma TurnStaysOn(def: Definition, w: World, c: Config)
    requires NeverRunsOff(def) && OnLoop(def, c) && Looping(def, c)
    ensures Lands(Turn(def, w, c), run => OnRest(def, run), x => OnLoop(def, x))
    ensures StaysOpen(def, Turn(def, w, c))
  {
    TurnKeeps(def, w, c);
    var turned := Turn(def, w, c);
    if turned.Continue? { ContinuesAlongEdge(def, w, c); }
    TurnStaysOpen(def, w, c);
  }

  lemma TurnStaysOpen(def: Definition, w: World, c: Config)
    requires NotEnded(def, c.run.ledger) && Looping(def, c)
    ensures StaysOpen(def, Turn(def, w, c))
  {
    ByKeyMeaning(def.steps);
    var key := c.current.value;
    if key in ByKey(def.steps) {
      var step := ByKey(def.steps)[key];
      var prior := Prior(c.run.ledger, key);
      if prior.Some? { ResumeStaysOpen(def, step, c, prior.value.output); }
      FreshStaysOpen(def, w, step, c);
    }
  }

  lemma OnAlways(def: Definition, calls: seq<Call>, runs: seq<Run>, i: nat)
    requires NeverRunsOff(def)
    requires IsHistory(def, calls, runs) && i < |runs|
    ensures OnRest(def, runs[i])
  {
    var rest, loop := run => OnRest(def, run), c => OnLoop(def, c);
    forall context, dryRun ensures rest(Begin(def, context, dryRun)) { BeginsSound(def, context, dryRun); }
    forall run | rest(run) && run.status in {Running, Waiting} ensures loop(Entry(def, run)) { EntersSound(def, run); }
    forall w, c | loop(c) && Looping(def, c) ensures Lands(Turn(def, w, c), rest, loop) { TurnStaysOn(def, w, c); }
    forall c | loop(c) && !Looping(def, c) ensures rest(AfterLoop(def, c).run) { LeavesSound(def, c); }
    forall run, key, approve, permitted, hasNote
      | rest(run) && Decide(run, key, approve, permitted, hasNote).Ok?
      ensures rest(Decide(run, key, approve, permitted, hasNote).value)
    {
      DecideStaysOn(def, run, key, approve, permitted, hasNote);
    }
    HistoryKeeps(def, rest, loop, calls, runs, i);
  }

  lemma DecideStaysOn(def: Definition, run: Run, key: string, approve: bool, permitted: bool, hasNote: bool)
    requires OnRest(def, run) && Decide(run, key, approve, permitted, hasNote).Ok?
    ensures OnRest(def, Decide(run, key, approve, permitted, hasNote).value)
  {
    DecideKeeps(def, run, key, approve, permitted, hasNote);
    assert IsPending(run.approvals, key);
  }

  predicate ReportsStored(result: CallResult) {
    result.Returned? ==> result.outcome.status == result.run.status && result.run.status != Running
  }

  lemma LoopReportsStored(def: Definition, w: World, c: Config, n: nat)
    requires NeverRunsOff(def) && NotEnded(def, c.run.ledger) && Live(c.current) && Turns(def, w, c, n).Some?
    ensures ReportsStored(Turns(def, w, c, n).value)
  {
    var loop, ends := (x: Config) => NotEnded(def, x.run.ledger) && Live(x.current), result => ReportsStored(result);
    forall x | loop(x) && Looping(def, x) ensures EndsWell(Turn(def, w, x), loop, ends) {
      TurnStaysOpen(def, w, x);
      if Turn(def, w, x).Continue? { ContinuesAlongEdge(def, w, x); }
    }
    LoopEnds(def, loop, ends, w, c, n);
  }

  /**
   * The status a call returns is the status it stored, and no call leaves the
   * run merely "running" with nothing to wait for.
   */
  lemma OutcomeIsStored(
    def: Definition, calls: seq<Call>, runs: seq<Run>, i: nat, w: World, result: CallResult)
    requires NeverRunsOff(def)
    requires IsHistory(def, calls, runs) && i < |runs|
    requires Advances(def, w, runs[i], result) && result.Returned?
    ensures result.outcome.status == result.run.status && result.run.status != Running
  {
    OnAlways(def, calls, runs, i);
    if !Idle(runs[i], w.now) {
      var n: nat :| Turns(def, w, Entry(def, runs[i]), n) == Some(result);
      LoopReportsStored(def, w, Entry(def, runs[i]), n);
    }
  }

  // ---------------------------------------------------------------------------
  // Each step is executed at most once
  // ---------------------------------------------------------------------------

  ghost predicate DistinctRuns(log: seq<Event>) {
    && (forall e :: e in log && e.Ran? ==> e.recorded)
    && forall i, j :: 0 <= i < j < |log| && log[i].Ran? && log[j].Ran? ==> log[i].key != log[j].key
  }

  /** `key` lies strictly before `at`, or is the step at `at` and has succeeded. */
  ghost predicate Passed(def: Definition, rank: map<string, nat>, ledger: seq<Row>, at: string, key: string) {
    && key in rank && at in rank
    && (rank[key] > rank[at] || (key == at && NonBranch(def, at) && Prior(ledger, at).Some?))
  }

  ghost predicate AllPassed(def: Definition, rank: map<string, nat>, run: Run, at: string) {
    && at in rank
    && (forall r :: r in run.ledger ==> Passed(def, rank, run.ledger, at, r.key))
    && forall e :: e in run.log && e.Ran? ==> Passed(def, rank, run.ledger, at, e.key)
  }

  ghost predicate OnceLoop(def: Definition, rank: map<string, nat>, c: Config) {
    && OnLoop(def, c) && DistinctRuns(c.run.log)
    && AllPassed(def, rank, c.run, c.current.value)
  }

  ghost predicate OnceRest(def: Definition, rank: map<string, nat>, run: Run) {
    && OnRest(def, run) && DistinctRuns(run.log)
    && (!Terminal(run.status) ==> AllPassed(def, rank, run, run.current.value))
  }

  /** Moving on to a smaller rank leaves everything so far behind. */
  lemma PassedOn(def: Definition, rank: map<string, nat>, before: Run, after: Run, at: string, to: string)
    requires Ranks(def, rank) && Edge(def, at, to) && AllPassed(def, rank, before, at)
    requires forall r :: r in after.ledger ==> r in before.ledger || r.key == at
    requires forall e :: e in after.log && e.Ran? ==> e in before.log || e.key == at
    ensures AllPassed(def, rank, after, to)
  {
  }

  lemma FreshIsFree(def: Definition, rank: map<string, nat>, c: Config)
    requires OnceLoop(def, rank, c) && c.current.value in ByKey(def.steps)
    requires Prior(c.run.ledger, c.current.value).None? || ByKey(def.steps)[c.current.value].kind.Branch?
    ensures !Taken(c.run.ledger, c.current.value, c.executed)
    ensures forall e :: e in c.run.log && e.Ran? ==> e.key != c.current.value
  {
  }

  lemma DistinctAppend(log: seq<Event>, event: Event)
    requires DistinctRuns(log)
    requires event.Ran? ==> event.recorded && forall e :: e in log && e.Ran? ==> e.key != event.key
    ensures DistinctRuns(log + [event])
  {
  }

  /** The history gains the step, which was not in it, and perhaps what it performed. */
  lemma SucceedLog(step: Step, c: Config, e: Execution)
    requires DistinctRuns(c.run.log) && e.Success? && !Taken(c.run.ledger, step.key, c.executed)
    requires forall x :: x in c.run.log && x.Ran? ==> x.key != step.key
    ensures var log := AfterSuccess(step, c, e).log;
      DistinctRuns(log) && forall x :: x in log && x.Ran? ==> x in c.run.log || x.key == step.key
  {
    var ran := Ran(step.key, true, true);
    DistinctAppend(c.run.log, ran);
    var log := AfterSuccess(step, c, e).log;
    if e.effect.Some? {
      DistinctAppend(c.run.log + [ran], Performed(step.key, e.effect.value));
      assert log == c.run.log + [ran] + [Performed(step.key, e.effect.value)];
    } else {
      assert log == c.run.log + [ran];
    }
  }

  /** The ledger gains a row of the step, which then has succeeded. */
  lemma SucceedLedger(step: Step, c: Config, e: Execution)
    requires e.Success? && !Taken(c.run.ledger, step.key, c.executed)
    ensures var ledger := AfterSuccess(step, c, e).ledger;
      && Prior(ledger, step.key).Some?
      && forall r :: r in ledger ==> r in c.run.ledger || r.key == step.key
  {
    PriorRecord(c.run.ledger, Row(step.key, c.executed, Succeeded, e.output), step.key);
  }

  /** What was passed before is still passed, and so is a step that has succeeded. */
  lemma AllPassedStill(def: Definition, rank: map<string, nat>, before: Run, after: Run, key: string)
    requires AllPassed(def, rank, before, key) && NonBranch(def, key) && Prior(after.ledger, key).Some?
    requires forall r :: r in after.ledger ==> r in before.ledger || r.key == key
    requires forall x :: x in after.log && x.Ran? ==> x in before.log || x.key == key
    ensures AllPassed(def, rank, after, key)
  {
    assert Passed(def, rank, after.ledger, key, key);
    forall r | r in after.ledger ensures Passed(def, rank, after.ledger, key, r.key) {
      if r.key != key { assert Passed(def, rank, before.ledger, key, r.key); }
    }
    forall x | x in after.log && x.Ran? ensures Passed(def, rank, after.ledger, key, x.key) {
      if x.key != key { assert Passed(def, rank, before.ledger, key, x.key); }
    }
  }

  lemma SucceedOnce(def: Definition, rank: map<string, nat>, step: Step, c: Config, e: Execution)
    requires Ranks(def, rank) && OnceLoop(def, rank, c) && c.current == Some(step.key) && e.Success?
    requires step.key in ByKey(def.steps) && ByKey(def.steps)[step.key] == step
    requires Prior(c.run.ledger, step.key).None? || step.kind.Branch?
    requires !e.wait.NoWait? ==> !step.kind.Branch?
    ensures var run := AfterSuccess(step, c, e);
      && DistinctRuns(run.log)
      && (forall r :: r in run.ledger ==> r in c.run.ledger || r.key == step.key)
      && (forall x :: x in run.log && x.Ran? ==> x in c.run.log || x.key == step.key)
      && (!e.wait.NoWait? ==> AllPassed(def, rank, run, step.key))
  {
    FreshIsFree(def, rank, c);
    SucceedLog(step, c, e);
    SucceedLedger(step, c, e);
    if !e.wait.NoWait? { AllPassedStill(def, rank, c.run, AfterSuccess(step, c, e), step.key); }
  }

  /** The part of the invariant that is about order; `TurnStaysOn` has the rest. */
  ghost predicate InOrder(def: Definition, rank: map<string, nat>, turned: Turned) {
    match turned
    case Continue(c) => DistinctRuns(c.run.log) && Live(c.current) && AllPassed(def, rank, c.run, c.current.value)
    case Stop(run, _) => DistinctRuns(run.log) &&
      (Terminal(run.status) || (Live(run.current) && AllPassed(def, rank, run, run.current.value)))
    case Raise => true
  }

  lemma TurnOnce(def: Definition, rank: map<string, nat>, w: World, c: Config)
    requires NeverRunsOff(def) && Ranks(def, rank) && OnceLoop(def, rank, c) && Looping(def, c)
    ensures Lands(Turn(def, w, c), run => OnceRest(def, rank, run), x => OnceLoop(def, rank, x))
  {
    TurnStaysOn(def, w, c);
    ByKeyMeaning(def.steps);
    var key, turned := c.current.value, Turn(def, w, c);
    if turned.Continue? { ContinuesAlongEdge(def, w, c); }
    if key in ByKey(def.steps) {
      var step := ByKey(def.steps)[key];
      var prior := Prior(c.run.ledger, key);
      if prior.Some? && !step.kind.Branch? {
        ResumeOnce(def, rank, step, c, prior.value.output);
      } else {
        FreshOnce(def, rank, w, step, c);
      }
    }
    assert InOrder(def, rank, turned);
  }

  ghost predicate FollowsEdge(def: Definition, key: string, turned: Turned) {
    turned.Continue? ==> Live(turned.config.current) && Edge(def, key, turned.config.current.value)
  }

  lemma ResumeOnce(def: Definition, rank: map<string, nat>, step: Step, c: Config, output: Output)
    requires Ranks(def, rank) && OnceLoop(def, rank, c) && c.current == Some(step.key)
    requires FollowsEdge(def, step.key, Resume(step, c, output))
    ensures InOrder(def, rank, Resume(step, c, output))
  {
    match Resume(step, c, output)
    case Continue(next) =>
      DistinctAppend(c.run.log, next.run.log[|c.run.log|]);
      PassedOn(def, rank, c.run, next.run, step.key, next.current.value);
    case Stop(_, _) =>
  }

  lemma BypassOnce(def: Definition, rank: map<string, nat>, step: Step, c: Config)
    requires Ranks(def, rank) && OnceLoop(def, rank, c) && c.current == Some(step.key)
    requires FollowsEdge(def, step.key, Bypass(step, c))
    ensures InOrder(def, rank, Bypass(step, c))
  {
    var next := Bypass(step, c).config;
    DistinctAppend(c.run.log, Moved(step.key, ByWhen, step.next));
    PassedOn(def, rank, c.run, next.run, step.key, next.current.value);
  }

  lemma FailedOnce(def: Definition, rank: map<string, nat>, step: Step, c: Config, message: string)
    requires Ranks(def, rank) && OnceLoop(def, rank, c) && c.current == Some(step.key)
    requires !Taken(c.run.ledger, step.key, c.executed)
    requires forall e :: e in c.run.log && e.Ran? ==> e.key != step.key
    requires FollowsEdge(def, step.key, Failed(step, c, message))
    ensures InOrder(def, rank, Failed(step, c, message))
  {
    var ran, moved := Ran(step.key, false, true), Moved(step.key, ByError, step.onError);
    DistinctAppend(c.run.log, ran);
    if Live(step.onError) {
      var next := Failed(step, c, message).config;
      DistinctAppend(c.run.log + [ran], moved);
      assert next.run.log == c.run.log + [ran] + [moved];
      PassedOn(def, rank, c.run, next.run, step.key, next.current.value);
    }
  }

  lemma SucceedInOrder(def: Definition, rank: map<string, nat>, step: Step, c: Config, e: Execution)
    requires Ranks(def, rank) && OnceLoop(def, rank, c) && c.current == Some(step.key) && e.Success?
    requires step.key in ByKey(def.steps) && ByKey(def.steps)[step.key] == step
    requires Prior(c.run.ledger, step.key).None? || step.kind.Branch?
    requires !e.wait.NoWait? ==> !step.kind.Branch?
    requires FollowsEdge(def, step.key, Succeed(step, c, e))
    ensures InOrder(def, rank, Succeed(step, c, e))
  {
    SucceedOnce(def, rank, step, c, e);
    var run := AfterSuccess(step, c, e);
    match Succeed(step, c, e)
    case Continue(next) =>
      DistinctAppend(run.log, next.run.log[|run.log|]);
      PassedOn(def, rank, c.run, next.run, step.key, next.current.value);
    case Stop(after, _) => assert after.log == run.log && after.ledger == run.ledger;
    case Raise =>
  }

  lemma FreshOnce(def: Definition, rank: map<string, nat>, w: World, step: Step, c: Config)
    requires Ranks(def, rank) && OnceLoop(def, rank, c) && c.current == Some(step.key)
    requires step.key in ByKey(def.steps) && ByKey(def.steps)[step.key] == step
    requires Prior(c.run.ledger, step.key).None? || step.kind.Branch?
    requires FollowsEdge(def, step.key, Fresh(w, step, c))
    ensures InOrder(def, rank, Fresh(w, step, c))
  {
    FreshIsFree(def, rank, c);
    var verdict := if step.when.Some? then w.holds(step.when.value, c.context) else Holds;
    if verdict == Fails {
      BypassOnce(def, rank, step, c);
    } else if verdict == Holds {
      ExecuteEffect(def, w, step, c.context, c.executed, c.run.dryRun);
      if step.kind.Branch? { TakeBranchShape(w, step.kind.arms, step.kind.fallback, c.context); }
      match Execute(w, step, c.context, c.executed, c.run.dryRun)
      case Success(output, wait, jump, effect) =>
        SucceedInOrder(def, rank, step, c, Success(output, wait, jump, effect));
      case Failure(message) => FailedOnce(def, rank, step, c, message);
      case Lost =>
    }
  }

  lemma OnceAlways(def: Definition, rank: map<string, nat>, calls: seq<Call>, runs: seq<Run>, i: nat)
    requires NeverRunsOff(def) && Ranks(def, rank)
    requires IsHistory(def, calls, runs) && i < |runs|
    ensures OnceRest(def, rank, runs[i])
  {
    var rest, loop := run => OnceRest(def, rank, run), c => OnceLoop(def, rank, c);
    forall context, dryRun ensures rest(Begin(def, context, dryRun)) { BeginsSound(def, context, dryRun); }
    forall run | rest(run) && run.status in {Running, Waiting} ensures loop(Entry(def, run)) { EntersSound(def, run); }
    forall w, c | loop(c) && Looping(def, c) ensures Lands(Turn(def, w, c), rest, loop) { TurnOnce(def, rank, w, c); }
    forall c | loop(c) && !Looping(def, c) ensures rest(AfterLoop(def, c).run) { LeavesSound(def, c); }
    forall run, key, approve, permitted, hasNote
      | rest(run) && Decide(run, key, approve, permitted, hasNote).Ok?
      ensures rest(Decide(run, key, approve, permitted, hasNote).value)
    {
      DecideOnce(def, rank, run, key, approve, permitted, hasNote);
    }
    HistoryKeeps(def, rest, loop, calls, runs, i);
  }

  lemma DecideOnce(
    def: Definition, rank: map<string, nat>, run: Run, key: string, approve: bool, permitted: bool, hasNote: bool)
    requires OnceRest(def, rank, run) && Decide(run, key, approve, permitted, hasNote).Ok?
    ensures OnceRest(def, rank, Decide(run, key, approve, permitted, hasNote).value)
  {
    DecideStaysOn(def, run, key, approve, permitted, hasNote);
    assert IsPending(run.approvals, key);
    DistinctAppend(run.log, Decided(key, if approve then Approved else Rejected));
  }

  /**
   * On an acyclic definition that never runs off, each step is executed at
   * most once over all calls, whether it succeeded or failed, and no row of
   * the ledger is ever turned away; so a step that is not a branch succeeds
   * at most once.
   */
  lemma AtMostOnce(def: Definition, calls: seq<Call>, runs: seq<Run>, i: nat, key: string)
    requires NeverRunsOff(def) && Acyclic(def)
    requires IsHistory(def, calls, runs) && i < |runs|
    ensures DistinctRuns(runs[i].log)
    ensures NonBranch(def, key) ==> Successes(runs[i].log, key) <= 1
  {
    var rank :| Ranks(def, rank);
    OnceAlways(def, rank, calls, runs, i);
    if NonBranch(def, key) {
      SuccessesAccounted(def, calls, runs, i, key);
      CountAbsent(runs[i].log, Ran(key, true, false));
    }
  }
}
