/** The engine as it updates its rows: `advanceRun`, `recordStep` and `decideApproval`. */
module WorkflowRunner {
  import opened Prelude
  import opened WorkflowSchema
  import opened WorkflowEngine

  /** What one turn of the loop tells the loop to do. */
  datatype Signal = GoOn | Return(outcome: Outcome) | Throw

  ghost predicate Matches(turned: Turned, signal: Signal, state: Run, context: Context, current: Target, executed: nat) {
    match turned
    case Continue(c) => signal == GoOn && c == Config(state, context, current, executed)
    case Stop(run, outcome) => signal == Return(outcome) && state == run
    case Raise => signal == Throw
  }

  /** Whatever the loop returns from `c` it returns from `entry`. */
  ghost predicate Carries(def: Definition, w: World, c: Config, entry: Config) {
    forall result :: Returns(def, w, c, result) ==> Returns(def, w, entry, result)
  }

  /** A turn that goes on carries every later result back to where it started. */
  lemma ReturnsBack(def: Definition, w: World, c: Config, next: Config)
    requires Looping(def, c) && Turn(def, w, c) == Continue(next)
    ensures Carries(def, w, next, c)
  {
    forall result | Returns(def, w, next, result) ensures Returns(def, w, c, result) {
      var n: nat :| Turns(def, w, next, n) == Some(result);
      assert Turns(def, w, c, n + 1) == Some(result);
    }
  }

  /** A turn that does not go on ends the loop. */
  lemma TurnEnds(def: Definition, w: World, c: Config)
    requires Looping(def, c)
    ensures Turn(def, w, c).Stop? ==> Returns(def, w, c, Returned(Turn(def, w, c).run, Turn(def, w, c).outcome))
    ensures Turn(def, w, c).Raise? ==> Returns(def, w, c, RolledBack)
  {
    if !Turn(def, w, c).Continue? { assert Turns(def, w, c, 0).Some?; }
  }

  lemma LoopEnds(def: Definition, w: World, c: Config)
    requires !Looping(def, c)
    ensures Returns(def, w, c, AfterLoop(def, c))
  {
    assert Turns(def, w, c, 0) == Some(AfterLoop(def, c));
  }

  lemma OneTurnLess(def: Definition, w: World, c: Config, n: nat)
    requires Looping(def, c) && Turn(def, w, c).Continue? && Turns(def, w, c, n).Some?
    ensures n > 0 && Turns(def, w, Turn(def, w, c).config, n - 1).Some?
  {
  }

  /** One turn of a loop that is known to end. */
  lemma LoopStep(def: Definition, w: World, c: Config, entry: Config, left: nat)
    requires Looping(def, c) && Carries(def, w, c, entry) && Turns(def, w, c, left).Some?
    ensures match Turn(def, w, c)
      case Stop(run, outcome) => Returns(def, w, entry, Returned(run, outcome))
      case Raise => Returns(def, w, entry, RolledBack)
      case Continue(next) => left > 0 && Turns(def, w, next, left - 1).Some? && Carries(def, w, next, entry)
  {
    TurnEnds(def, w, c);
    if Turn(def, w, c).Continue? {
      OneTurnLess(def, w, c, left);
      ReturnsBack(def, w, c, Turn(def, w, c).config);
    }
  }

  class WorkflowRun {
    var status: Status
    var currentStep: Target
    var resumeAt: Option<int>
    var context: Context
    const dryRun: bool
    var ledger: seq<Row>
    var approvals: map<string, ApprovalStatus>
    ghost var log: seq<Event>

    ghost function State(): Run
      reads this
    {
      Run(status, currentStep, resumeAt, context, dryRun, ledger, approvals, log)
    }

    constructor (def: Definition, seed: Context, dry: bool)
      ensures State() == Begin(def, seed, dry)
    {
      status, currentStep, resumeAt, context := Running, Some(def.startStep), None, seed;
      dryRun, ledger, approvals, log := dry, [], map[], [];
    }

    method RecordStep(key: string, sequence: nat, rowStatus: RowStatus, output: Output)
      modifies `ledger
      ensures ledger == Record(old(ledger), Row(key, sequence, rowStatus, output))
    {
      if !Taken(ledger, key, sequence) {
        ledger := ledger + [Row(key, sequence, rowStatus, output)];
      }
    }

    /** A step that succeeded earlier is not run again; an approval follows its decision. */
    method PassOver(step: Step, output: Output, context0: Context, ghost at: Target, executed: nat)
      returns (signal: Signal, local: Context, current: Target)
      modifies this
      ensures Matches(Resume(step, Config(old(State()), context0, at, executed), output),
                      signal, State(), local, current, executed)
    {
      local, current := context0[step.key := output], step.next;
      ghost var via := ByNext;
      if step.kind.Approval? && step.key in approvals && approvals[step.key] != Approved {
        if approvals[step.key] == Pending {
          status, currentStep := AwaitingApproval, Some(step.key);
          return Return(Outcome(AwaitingApproval, executed, Some(step.key), None, None)), local, current;
        }
        current, via := step.kind.onReject, ByReject;
        if !Live(current) {
          status := Completed;
          return Return(Outcome(Completed, executed, Some(step.key), None, None)), local, current;
        }
      }
      log := log + [Moved(step.key, via, current)];
      signal := GoOn;
    }

    /** A step that failed: to its error route, or the run fails. */
    method CommitFailure(step: Step, message: string, context0: Context, ghost at: Target, executed0: nat)
      returns (signal: Signal, current: Target)
      modifies this
      ensures Matches(Failed(step, Config(old(State()), context0, at, executed0), message),
                      signal, State(), context0, current, executed0 + 1)
    {
      log := log + [Ran(step.key, false, !Taken(ledger, step.key, executed0))];
      RecordStep(step.key, executed0, StepFailed, "null");
      current := step.onError;
      if !Live(current) {
        status := RunFailed;
        signal := Return(Outcome(RunFailed, executed0 + 1, Some(step.key), None, Some(StepError(message))));
      } else {
        log := log + [Moved(step.key, ByError, current)];
        signal := GoOn;
      }
    }

    /** A step that succeeded: its row, its effect, its output, then wait, finish or move on. */
    method CommitSuccess(step: Step, e: Execution, context0: Context, ghost at: Target, executed0: nat)
      returns (signal: Signal, local: Context, current: Target)
      requires e.Success?
      modifies this
      ensures Matches(Succeed(step, Config(old(State()), context0, at, executed0), e),
                      signal, State(), local, current, executed0 + 1)
    {
      local, current := context0[step.key := e.output], step.next;
      StoreSuccess(step, e, context0, at, executed0);
      if e.wait != NoWait {
        status := if e.wait.UntilTime? then Waiting else AwaitingApproval;
        currentStep := Some(step.key);
        resumeAt := if e.wait.UntilTime? then Some(e.wait.at) else None;
        signal := Return(Outcome(status, executed0 + 1, currentStep, resumeAt, None));
      } else if step.kind.End? {
        status, currentStep := Completed, Some(step.key);
        signal := Return(Outcome(Completed, executed0 + 1, currentStep, None, None));
      } else {
        current := if e.jump.Some? then e.jump.value else step.next;
        currentStep := current;
        log := log + [Moved(step.key, if e.jump.Some? then ByBranch else ByNext, current)];
        signal := GoOn;
      }
    }

    method StoreSuccess(step: Step, e: Execution, context0: Context, ghost at: Target, executed0: nat)
      requires e.Success?
      modifies this
      ensures State() == AfterSuccess(step, Config(old(State()), context0, at, executed0), e)
    {
      log := log + [Ran(step.key, true, !Taken(ledger, step.key, executed0))] +
             (if e.effect.Some? then [Performed(step.key, e.effect.value)] else []);
      if e.wait.UntilApproval? && step.key !in approvals { approvals := approvals[step.key := Pending]; }
      RecordStep(step.key, executed0, Succeeded, e.output);
      context := context0[step.key := e.output];
    }

    /** Runs one step that has not succeeded yet, recording what came of it. */
    method RunStep(w: World, step: Step, context0: Context, ghost at: Target, executed0: nat)
      returns (signal: Signal, local: Context, current: Target, executed: nat)
      modifies this
      ensures Matches(Fresh(w, step, Config(old(State()), context0, at, executed0)),
                      signal, State(), local, current, executed)
    {
      local, current, executed := context0, step.next, executed0;
      var verdict := if step.when.Some? then w.holds(step.when.value, local) else Holds;
      if verdict == Throws { return Throw, local, current, executed; }
      if verdict == Fails {
        RecordStep(step.key, executed, Skipped, "null");
        log := log + [Moved(step.key, ByWhen, current)];
        return GoOn, local, current, executed + 1;
      }
      var result := Execute(w, step, local, executed, dryRun);
      match result
      case Lost => signal := Throw;
      case Failure(message) =>
        signal, current := CommitFailure(step, message, local, at, executed);
        executed := executed + 1;
      case Success(_, _, _, _) =>
        signal, local, current := CommitSuccess(step, result, local, at, executed);
        executed := executed + 1;
    }

    /** The body of the loop. */
    method TakeTurn(def: Definition, w: World, context0: Context, at: Target, executed0: nat)
      returns (signal: Signal, local: Context, current: Target, executed: nat)
      requires Live(at)
      modifies this
      ensures Matches(Turn(def, w, Config(old(State()), context0, at, executed0)),
                      signal, State(), local, current, executed)
    {
      var key := at.value;
      if key !in ByKey(def.steps) {
        status := RunFailed;
        var outcome := Outcome(RunFailed, executed0, at, None, Some(MissingStep(key)));
        return Return(outcome), context0, at, executed0;
      }
      var step := ByKey(def.steps)[key];
      var prior := Prior(ledger, key);
      if prior.Some? && !step.kind.Branch? {
        signal, local, current := PassOver(step, prior.value.output, context0, at, executed0);
        executed := executed0;
      } else {
        signal, local, current, executed := RunStep(w, step, context0, at, executed0);
      }
    }

    /**
     * `advanceRun`. A call that throws leaves the run as it was, because it
     * runs inside one transaction; it reports no outcome. When a call comes
     * back is settled in WorkflowTermination and WorkflowHanging.
     */
    method AdvanceRun(def: Definition, w: World) returns (outcome: Option<Outcome>)
      requires ComesBack(def, w, State())
      modifies this
      ensures Advances(def, w, old(State()),
                       if outcome.Some? then Returned(State(), outcome.value) else RolledBack)
      ensures outcome.None? ==> State() == old(State())
    {
      if status in {Completed, RunFailed, RunCancelled, AwaitingApproval}
         || (status == Waiting && resumeAt.Some? && resumeAt.value > w.now) {
        return Some(Outcome(status, 0, currentStep, resumeAt, None));
      }
      var before := (status, currentStep, resumeAt, context, ledger, approvals);
      ghost var result :| Advances(def, w, State(), result);
      ghost var turns: nat :| Turns(def, w, Entry(def, State()), turns) == Some(result);
      outcome := Loop(def, w, context, if currentStep.Some? then currentStep else Some(def.startStep), turns);
      if outcome.None? {
        status, currentStep, resumeAt := before.0, before.1, before.2;
        context, ledger, approvals, log := before.3, before.4, before.5, old(log);
      }
    }

    method Loop(def: Definition, w: World, context0: Context, current0: Target, ghost turns: nat)
      returns (outcome: Option<Outcome>)
      requires Turns(def, w, Config(State(), context0, current0, 0), turns).Some?
      modifies this
      ensures Returns(def, w, Config(old(State()), context0, current0, 0),
                      if outcome.Some? then Returned(State(), outcome.value) else RolledBack)
    {
      var local, current := context0, current0;
      var executed: nat := 0;
      ghost var entry := Config(State(), local, current, executed);
      ghost var left := turns;
      while Live(current) && executed < def.maxSteps
        invariant Carries(def, w, Config(State(), local, current, executed), entry)
        invariant Turns(def, w, Config(State(), local, current, executed), left).Some?
        decreases left
      {
        ghost var c := Config(State(), local, current, executed);
        LoopStep(def, w, c, entry, left);
        var signal;
        signal, local, current, executed := TakeTurn(def, w, local, current, executed);
        match signal
        case Return(o) => return Some(o);
        case Throw => return None;
        case GoOn => left := left - 1;
      }
      LoopEnds(def, w, Config(State(), local, current, executed));
      if executed >= def.maxSteps {
        status := RunFailed;
        outcome := Some(Outcome(RunFailed, executed, current, None, Some(BudgetExceeded)));
      } else {
        outcome := Some(Outcome(Completed, executed, None, None, None));
      }
    }

    /** `decideApproval`. */
    method DecideApproval(key: string, approve: bool, permitted: bool, hasNote: bool)
      returns (error: Option<DecideError>)
      modifies this
      ensures match Decide(old(State()), key, approve, permitted, hasNote)
              case Ok(run) => error.None? && State() == run
              case Err(e) => error == Some(e) && State() == old(State())
    {
      if key !in approvals { return Some(NoSuchApproval); }
      if approvals[key] != Pending { return Some(AlreadyDecided(approvals[key])); }
      if !permitted { return Some(Forbidden); }
      if !approve && !hasNote { return Some(NoteRequired); }
      var decision := if approve then Approved else Rejected;
      approvals := approvals[key := decision];
      log := log + [Decided(key, decision)];
      status := Running;
      error := None;
    }
  }
}
