module WorkflowAwaiting {
  // Runs that wait for a person, and successes the ledger turns away (packages/workflow/src/engine.ts).

  import opened Prelude
  import opened WorkflowSchema
  import opened WorkflowEngine
  import opened WorkflowSafety
  import opened WorkflowOnce

  // ---------------------------------------------------------------------------
  // One turn: the guards that decide
  // ---------------------------------------------------------------------------

  /**
   * A step that has just succeeded will be run again if and only if its slot, its key with the sequence number
   * of this call, was taken before: only then does the ledger turn the success away.
   */
  lemma SuccessLostIff(step: Step, c: Config, e: Execution)
    requires e.Success? && Prior(c.run.ledger, step.key).None?
    ensures Prior(AfterSuccess(step, c, e).ledger, step.key).None? <==> Taken(c.run.ledger, step.key, c.executed)
    ensures AfterSuccess(step, c, e).log[|c.run.log|] == Ran(step.key, true, !Taken(c.run.ledger, step.key, c.executed))
  {
    PriorRecord(c.run.ledger, Row(step.key, c.executed, Succeeded, e.output), step.key);
  }

  /** An approval step that has just asked leaves something to decide if and only if it had never asked before. */
  lemma AskedIsPendingIff(step: Step, c: Config, e: Execution)
    requires e.Success? && e.wait.UntilApproval? && NonePending(c.run.approvals)
    ensures var run := Succeed(step, c, e).run;
      run.status == AwaitingApproval && run.current == Some(step.key)
      && (IsPending(run.approvals, step.key) <==> step.key !in c.run.approvals)
  {
    assert !IsPending(c.run.approvals, step.key);
  }

  // ---------------------------------------------------------------------------
  // Every history
  // ---------------------------------------------------------------------------

  /** The approval rows of a live run are those of the approval steps that have ever succeeded. */
  ghost predicate AskedOnFile(def: Definition, run: Run) {
    !run.dryRun ==> forall k :: IsApproval(def, k) ==> (k in run.approvals <==> Successes(run.log, k) > 0)
  }

  /** A run awaiting approval does so at an approval step, which is undecided if it asked once and decided if more. */
  ghost predicate AwaitsWell(def: Definition, run: Run) {
    run.status == AwaitingApproval ==>
      && !run.dryRun && run.current.Some? && IsApproval(def, run.current.value) && run.current.value in run.approvals
      && (IsPending(run.approvals, run.current.value) <==> Successes(run.log, run.current.value) == 1)
  }

  ghost predicate AskRest(def: Definition, run: Run) { Rest(def, run) && AskedOnFile(def, run) && AwaitsWell(def, run) }

  ghost predicate AskLoop(def: Definition, c: Config) {
    AtTurn(def, c) && AskedOnFile(def, c.run) && c.run.status in {Running, Waiting}
  }

  ghost predicate AskLands(def: Definition, turned: Turned) {
    match turned
    case Continue(c) => AskedOnFile(def, c.run) && c.run.status in {Running, Waiting}
    case Stop(run, _) => AskedOnFile(def, run) && AwaitsWell(def, run)
    case Raise => true
  }

  lemma SuccessesAppend(log: seq<Event>, event: Event, key: string)
    ensures Successes(log + [event], key) ==
            Successes(log, key) + if event.Ran? && event.ok && event.key == key then 1 else 0
  {
    CountOne(log, event, Ran(key, true, true));
    CountOne(log, event, Ran(key, true, false));
  }

  /** Anything but a success leaves the count of successes. */
  lemma AskedSame(def: Definition, before: Run, after: Run, event: Event)
    requires AskedOnFile(def, before) && after.dryRun == before.dryRun
    requires after.log == before.log + [event] && !(event.Ran? && event.ok)
    requires after.approvals.Keys == before.approvals.Keys
    ensures AskedOnFile(def, after)
  {
    forall k ensures Successes(after.log, k) == Successes(before.log, k) { SuccessesAppend(before.log, event, k); }
  }

  lemma SuccessCounts(step: Step, c: Config, e: Execution, key: string)
    requires e.Success?
    ensures Successes(AfterSuccess(step, c, e).log, key) == Successes(c.run.log, key) + if key == step.key then 1 else 0
  {
    var ran := Ran(step.key, true, !Taken(c.run.ledger, step.key, c.executed));
    SuccessesAppend(c.run.log, ran, key);
    var log := c.run.log + [ran];
    if e.effect.Some? {
      SuccessesAppend(log, Performed(step.key, e.effect.value), key);
      assert AfterSuccess(step, c, e).log == log + [Performed(step.key, e.effect.value)];
    } else {
      assert AfterSuccess(step, c, e).log == log;
    }
  }

  lemma SuccessAsked(def: Definition, step: Step, c: Config, e: Execution)
    requires AskLoop(def, c) && e.Success?
    requires step.key in ByKey(def.steps) && ByKey(def.steps)[step.key] == step
    requires step.kind.Approval? && !c.run.dryRun <==> e.wait.UntilApproval?
    ensures AskedOnFile(def, AfterSuccess(step, c, e))
    ensures e.wait.UntilApproval? ==>
      var run := AfterSuccess(step, c, e);
      step.key in run.approvals && (IsPending(run.approvals, step.key) <==> Successes(run.log, step.key) == 1)
  {
    forall k ensures Successes(AfterSuccess(step, c, e).log, k) == Successes(c.run.log, k) + if k == step.key then 1 else 0 {
      SuccessCounts(step, c, e, k);
    }
    assert !IsPending(c.run.approvals, step.key);
  }

  lemma SucceedAsks(def: Definition, step: Step, c: Config, e: Execution)
    requires AskLoop(def, c) && e.Success?
    requires step.key in ByKey(def.steps) && ByKey(def.steps)[step.key] == step
    requires step.kind.Approval? && !c.run.dryRun <==> e.wait.UntilApproval?
    ensures AskLands(def, Succeed(step, c, e))
  {
    SuccessAsked(def, step, c, e);
    var run := AfterSuccess(step, c, e);
    match Succeed(step, c, e)
    case Continue(next) => AskedSame(def, run, next.run, next.run.log[|run.log|]);
    case Stop(_, _) =>
  }

  lemma FailedAsks(def: Definition, step: Step, c: Config, message: string)
    requires AskLoop(def, c)
    ensures AskLands(def, Failed(step, c, message))
  {
    var ran := Ran(step.key, false, !Taken(c.run.ledger, step.key, c.executed));
    var run := WithLog(Recorded(c, step.key, StepFailed, "null"), [ran]);
    AskedSame(def, c.run, run, ran);
    if Live(step.onError) {
      AskedSame(def, run, Failed(step, c, message).config.run, Moved(step.key, ByError, step.onError));
    }
  }

  lemma ResumeAsks(def: Definition, step: Step, c: Config, output: Output)
    requires AskLoop(def, c)
    ensures AskLands(def, Resume(step, c, output))
  {
    assert !IsPending(c.run.approvals, step.key);
    match Resume(step, c, output)
    case Continue(next) => AskedSame(def, c.run, next.run, next.run.log[|c.run.log|]);
    case Stop(_, _) =>
  }

  lemma TurnAsks(def: Definition, w: World, c: Config)
    requires AskLoop(def, c) && Looping(def, c)
    ensures Lands(Turn(def, w, c), run => AskRest(def, run), x => AskLoop(def, x))
  {
    TurnKeeps(def, w, c);
    ByKeyMeaning(def.steps);
    var key := c.current.value;
    if key in ByKey(def.steps) {
      var step := ByKey(def.steps)[key];
      var prior := Prior(c.run.ledger, key);
      if prior.Some? && !step.kind.Branch? {
        ResumeAsks(def, step, c, prior.value.output);
      } else {
        FreshAsks(def, w, step, c);
      }
    }
    assert AskLands(def, Turn(def, w, c));
  }

  lemma FreshAsks(def: Definition, w: World, step: Step, c: Config)
    requires AskLoop(def, c)
    requires step.key in ByKey(def.steps) && ByKey(def.steps)[step.key] == step
    ensures AskLands(def, Fresh(w, step, c))
  {
    AskedSame(def, c.run, Bypass(step, c).config.run, Moved(step.key, ByWhen, step.next));
    ExecuteEffect(def, w, step, c.context, c.executed, c.run.dryRun);
    match Execute(w, step, c.context, c.executed, c.run.dryRun)
    case Success(output, wait, jump, effect) => SucceedAsks(def, step, c, Success(output, wait, jump, effect));
    case Failure(message) => FailedAsks(def, step, c, message);
    case Lost =>
  }

  lemma DecideAsks(def: Definition, run: Run, key: string, approve: bool, permitted: bool, hasNote: bool)
    requires AskRest(def, run) && Decide(run, key, approve, permitted, hasNote).Ok?
    ensures AskRest(def, Decide(run, key, approve, permitted, hasNote).value)
  {
    DecideKeeps(def, run, key, approve, permitted, hasNote);
    var after := Decide(run, key, approve, permitted, hasNote).value;
    AskedSame(def, run, after, after.log[|run.log|]);
  }

  lemma AskAlways(def: Definition, calls: seq<Call>, runs: seq<Run>, i: nat)
    requires IsHistory(def, calls, runs) && i < |runs|
    ensures AskRest(def, runs[i])
  {
    var rest, loop := run => AskRest(def, run), c => AskLoop(def, c);
    forall context, dryRun ensures rest(Begin(def, context, dryRun)) { BeginsSound(def, context, dryRun); }
    forall run | rest(run) && run.status in {Running, Waiting} ensures loop(Entry(def, run)) { EntersSound(def, run); }
    forall w, c | loop(c) && Looping(def, c) ensures Lands(Turn(def, w, c), rest, loop) { TurnAsks(def, w, c); }
    forall c | loop(c) && !Looping(def, c) ensures rest(AfterLoop(def, c).run) { LeavesSound(def, c); }
    forall run, key, approve, permitted, hasNote
      | rest(run) && Decide(run, key, approve, permitted, hasNote).Ok?
      ensures rest(Decide(run, key, approve, permitted, hasNote).value)
    {
      DecideAsks(def, run, key, approve, permitted, hasNote);
    }
    HistoryKeeps(def, rest, loop, calls, runs, i);
  }

  /**
   * In every history, of any definition: what a run awaits is still to be decided if and only if the step has
   * asked once. If it asked again, which takes a lost success, the decision has been made and nothing is left.
   */
  lemma AwaitingIsPendingIff(def: Definition, calls: seq<Call>, runs: seq<Run>, i: nat)
    requires IsHistory(def, calls, runs) && i < |runs| && runs[i].status == AwaitingApproval
    ensures runs[i].current.Some? && IsApproval(def, runs[i].current.value)
    ensures IsPending(runs[i].approvals, runs[i].current.value) <==> Successes(runs[i].log, runs[i].current.value) == 1
  {
    AskAlways(def, calls, runs, i);
  }

  /** On acyclic definitions that never run off, a run awaiting approval always has something to decide. */
  lemma AwaitingIsPending(def: Definition, calls: seq<Call>, runs: seq<Run>, i: nat)
    requires NeverRunsOff(def) && Acyclic(def)
    requires IsHistory(def, calls, runs) && i < |runs| && runs[i].status == AwaitingApproval
    ensures runs[i].current.Some? && IsPending(runs[i].approvals, runs[i].current.value)
  {
    AskAlways(def, calls, runs, i);
    AtMostOnce(def, calls, runs, i, runs[i].current.value);
  }

  // ---------------------------------------------------------------------------
  // What a call reports and what it stores
  // ---------------------------------------------------------------------------

  /** Within `n` turns the loop comes to a place with nowhere to go and budget left. */
  ghost predicate RunsOff(def: Definition, w: World, c: Config, n: nat)
    decreases n
  {
    if !Looping(def, c) then c.executed < def.maxSteps
    else Turn(def, w, c).Continue? && n > 0 && RunsOff(def, w, Turn(def, w, c).config, n - 1)
  }

  /** A call reports another status than it stored if and only if its loop came to a place with nowhere to go. */
  lemma {:induction false} ReportsStoredIff(def: Definition, w: World, c: Config, n: nat)
    requires c.run.status in {Running, Waiting} && Turns(def, w, c, n).Some? && Turns(def, w, c, n).value.Returned?
    ensures var result := Turns(def, w, c, n).value;
      result.outcome.status != result.run.status <==> RunsOff(def, w, c, n)
    decreases n
  {
    if Looping(def, c) && Turn(def, w, c).Continue? {
      TurnReports(def, w, c);
      RunsOffNext(def, w, c, n);
      ReportsStoredIff(def, w, Turn(def, w, c).config, n - 1);
    } else {
      LastReports(def, w, c, n);
    }
  }

  lemma RunsOffNext(def: Definition, w: World, c: Config, n: nat)
    requires Looping(def, c) && Turn(def, w, c).Continue? && Turns(def, w, c, n).Some?
    ensures n > 0 && Turns(def, w, c, n) == Turns(def, w, Turn(def, w, c).config, n - 1)
    ensures RunsOff(def, w, c, n) <==> RunsOff(def, w, Turn(def, w, c).config, n - 1)
  {}

  lemma LastReports(def: Definition, w: World, c: Config, n: nat)
    requires !Looping(def, c) || !Turn(def, w, c).Continue?
    requires c.run.status in {Running, Waiting} && Turns(def, w, c, n).Some? && Turns(def, w, c, n).value.Returned?
    ensures var result := Turns(def, w, c, n).value;
      result.outcome.status != result.run.status <==> RunsOff(def, w, c, n)
  {
    if Looping(def, c) { TurnReports(def, w, c); }
  }

  ghost predicate ReportsRun(c: Config, turned: Turned) {
    match turned
    case Continue(next) => next.run.status == c.run.status
    case Stop(run, outcome) => outcome.status == run.status
    case Raise => true
  }

  lemma SucceedReports(step: Step, c: Config, e: Execution)
    requires e.Success?
    ensures ReportsRun(c, Succeed(step, c, e))
  {}

  lemma OtherwiseReports(step: Step, c: Config, output: Output, message: string)
    ensures ReportsRun(c, Resume(step, c, output)) && ReportsRun(c, Bypass(step, c)) && ReportsRun(c, Failed(step, c, message))
  {}

  lemma FreshReports(w: World, step: Step, c: Config)
    ensures ReportsRun(c, Fresh(w, step, c))
  {
    OtherwiseReports(step, c, "", "");
    match Execute(w, step, c.context, c.executed, c.run.dryRun)
    case Success(output, wait, jump, effect) => SucceedReports(step, c, Success(output, wait, jump, effect));
    case Failure(message) => OtherwiseReports(step, c, "", message);
    case Lost =>
  }

  lemma TurnReports(def: Definition, w: World, c: Config)
    requires Looping(def, c)
    ensures ReportsRun(c, Turn(def, w, c))
  {
    var key := c.current.value;
    if key in ByKey(def.steps) {
      var step, prior := ByKey(def.steps)[key], Prior(c.run.ledger, key);
      if prior.Some? { OtherwiseReports(step, c, prior.value.output, ""); }
      FreshReports(w, step, c);
    }
  }
}
