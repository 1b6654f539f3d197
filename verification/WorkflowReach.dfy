/** An accepted definition never sends the engine to a step that does not exist. */
module WorkflowReach {
  import opened Prelude
  import opened WorkflowSchema
  import opened WorkflowEngine
  import opened WorkflowSafety

  ghost predicate GoesToReachable(def: Definition, t: Target) { Live(t) ==> Reachable(def, t.value) }

  /** Every step the engine has been at, and the one it will be at next, is reachable from the start. */
  ghost predicate OnTrack(def: Definition, run: Run) {
    && GoesToReachable(def, run.current)
    && forall e :: e in run.log && !e.Decided? ==> Reachable(def, e.key)
  }

  ghost predicate LoopOnTrack(def: Definition, c: Config) {
    OnTrack(def, c.run) && GoesToReachable(def, c.current)
  }

  lemma TargetReachable(def: Definition, key: string, t: Target)
    requires key in ByKey(def.steps) && Reachable(def, key)
    requires t in Targets(ByKey(def.steps)[key])
    ensures GoesToReachable(def, t)
  {
    if Live(t) { ReachableEdge(def, key, t.value); }
  }

  /** Every reachable key of an accepted definition is a step. */
  lemma AcceptedKnown(def: Definition, key: string)
    requires Accepted(def) && Reachable(def, key)
    ensures key in ByKey(def.steps)
  {
    ByKeyMeaning(def.steps);
    assert !Flaw(def, MalformedShape) && !Flaw(def, UnknownStart);
    forall a, b | a in Keys(def.steps) && Edge(def, a, b) ensures b in Keys(def.steps) {
      EdgeKnown(def, a, b);
    }
    var path :| IsPath(def, path) && path[0] == def.startStep && path[|path| - 1] == key;
    ClosedHoldsPath(def, Keys(def.steps), path);
  }

  lemma EdgeKnown(def: Definition, a: string, b: string)
    requires Accepted(def) && Edge(def, a, b)
    ensures b in Keys(def.steps)
  {
    ByKeyMeaning(def.steps);
    assert !Flaw(def, MalformedShape);
    var step := ByKey(def.steps)[a];
    var what := EdgeReference(step, b);
    var issue := UnknownTarget(step.key, what, b);
    assert !Flaw(def, issue);
    assert !StepFlaw(step, Keys(def.steps), issue);
  }

  lemma EdgeReference(step: Step, b: string) returns (what: Reference)
    requires Some(b) in Targets(step)
    ensures Refers(step, what, b)
  {
    if step.next == Some(b) { return ContinuesTo; }
    if step.onError == Some(b) { return RoutesErrorsTo; }
    if step.kind.Approval? { return RoutesRejectionTo; }
    assert step.kind.Branch?;
    if step.kind.fallback == Some(b) { return DefaultsTo; }
    assert Some(b) in ArmTargets(step.kind.arms);
    var i :| 0 <= i < |step.kind.arms| && ArmTargets(step.kind.arms)[i] == Some(b);
    assert step.kind.arms[i] in step.kind.arms;
    return BranchesTo;
  }

  /** The edges out of a reachable step lead to reachable steps, including the branch taken. */
  lemma StepTargets(def: Definition, w: World, step: Step, context: Context, executed: nat, dryRun: bool)
    requires step.key in ByKey(def.steps) && ByKey(def.steps)[step.key] == step && Reachable(def, step.key)
    ensures GoesToReachable(def, step.next) && GoesToReachable(def, step.onError)
    ensures step.kind.Approval? ==> GoesToReachable(def, step.kind.onReject)
    ensures var e := Execute(w, step, context, executed, dryRun);
      e.Success? && e.jump.Some? ==> GoesToReachable(def, e.jump.value)
  {
    var targets := Targets(step);
    forall t | t in targets ensures GoesToReachable(def, t) { TargetReachable(def, step.key, t); }
    assert targets[0] == step.next && targets[1] == step.onError;
    if step.kind.Approval? { assert targets[2] == step.kind.onReject; }
    ExecuteEffect(def, w, step, context, executed, dryRun);
    if step.kind.Branch? {
      var arms := step.kind.arms;
      TakeBranchShape(w, arms, step.kind.fallback, context);
      assert targets[|targets| - 1] == step.kind.fallback;
      forall a | a in arms ensures Some(a.next) in targets {
        var i :| 0 <= i < |arms| && arms[i] == a;
        assert targets[2 + i] == ArmTargets(arms)[i] == Some(a.next);
      }
    }
  }

  ghost predicate StaysOnTrack(def: Definition, turned: Turned) {
    match turned
    case Continue(c) => LoopOnTrack(def, c)
    case Stop(run, _) => OnTrack(def, run)
    case Raise => true
  }

  lemma FailedOnTrack(def: Definition, step: Step, c: Config, message: string)
    requires LoopOnTrack(def, c) && Reachable(def, step.key) && GoesToReachable(def, step.onError)
    ensures StaysOnTrack(def, Failed(step, c, message))
  {
  }

  lemma SucceedOnTrack(def: Definition, step: Step, c: Config, e: Execution)
    requires LoopOnTrack(def, c) && Live(Some(step.key)) && Reachable(def, step.key) && e.Success?
    requires GoesToReachable(def, step.next) && (e.jump.Some? ==> GoesToReachable(def, e.jump.value))
    ensures StaysOnTrack(def, Succeed(step, c, e))
  {
    assert forall x :: x in AfterSuccess(step, c, e).log && !x.Decided? ==> x in c.run.log || x.key == step.key;
  }

  lemma FreshOnTrack(def: Definition, w: World, step: Step, c: Config)
    requires LoopOnTrack(def, c) && Live(Some(step.key)) && Reachable(def, step.key)
    requires step.key in ByKey(def.steps) && ByKey(def.steps)[step.key] == step
    ensures StaysOnTrack(def, Fresh(w, step, c))
  {
    StepTargets(def, w, step, c.context, c.executed, c.run.dryRun);
    match Execute(w, step, c.context, c.executed, c.run.dryRun)
    case Success(output, wait, jump, effect) => SucceedOnTrack(def, step, c, Success(output, wait, jump, effect));
    case Failure(message) => FailedOnTrack(def, step, c, message);
    case Lost =>
  }

  lemma TurnOnTrack(def: Definition, w: World, c: Config)
    requires LoopOnTrack(def, c) && Looping(def, c)
    ensures StaysOnTrack(def, Turn(def, w, c))
  {
    ByKeyMeaning(def.steps);
    var key := c.current.value;
    if key in ByKey(def.steps) {
      var step := ByKey(def.steps)[key];
      StepTargets(def, w, step, c.context, c.executed, c.run.dryRun);
      var prior := Prior(c.run.ledger, key);
      if prior.Some? && !step.kind.Branch? {
        assert StaysOnTrack(def, Resume(step, c, prior.value.output));
      } else {
        FreshOnTrack(def, w, step, c);
      }
    }
  }

  lemma OnTrackAlways(def: Definition, calls: seq<Call>, runs: seq<Run>, i: nat)
    requires IsHistory(def, calls, runs) && i < |runs|
    ensures OnTrack(def, runs[i])
  {
    var rest, loop := run => OnTrack(def, run), c => LoopOnTrack(def, c);
    ReachableStart(def);
    forall w, c | loop(c) && Looping(def, c) ensures Lands(Turn(def, w, c), rest, loop) {
      TurnOnTrack(def, w, c);
    }
    HistoryKeeps(def, rest, loop, calls, runs, i);
  }

  /** Every step a run ever visits is one the validator's worklist found. */
  lemma VisitsReachable(def: Definition, calls: seq<Call>, runs: seq<Run>, i: nat, e: Event)
    requires IsHistory(def, calls, runs) && i < |runs| && e in runs[i].log && !e.Decided?
    ensures Reachable(def, e.key)
  {
    OnTrackAlways(def, calls, runs, i);
  }

  predicate ReportsMissingStep(result: CallResult) {
    result.Returned? && result.outcome.error.Some? && result.outcome.error.value.MissingStep?
  }

  lemma TurnFindsStep(def: Definition, w: World, c: Config)
    requires Looping(def, c) && c.current.value in ByKey(def.steps)
    ensures Turn(def, w, c).Stop? ==> !ReportsMissingStep(Returned(Turn(def, w, c).run, Turn(def, w, c).outcome))
  {
  }

  lemma LoopFindsSteps(def: Definition, w: World, c: Config, n: nat)
    requires Accepted(def) && LoopOnTrack(def, c) && Turns(def, w, c, n).Some?
    ensures !ReportsMissingStep(Turns(def, w, c, n).value)
  {
    var loop, ends := x => LoopOnTrack(def, x), result => !ReportsMissingStep(result);
    forall x | loop(x) && Looping(def, x) ensures EndsWell(Turn(def, w, x), loop, ends) {
      AcceptedKnown(def, x.current.value);
      TurnOnTrack(def, w, x);
      TurnFindsStep(def, w, x);
    }
    LoopEnds(def, loop, ends, w, c, n);
  }

  /** On an accepted definition no call, at any point of any history, fails because a step is missing. */
  lemma StepNeverMissing(def: Definition, calls: seq<Call>, runs: seq<Run>, i: nat, w: World, result: CallResult)
    requires Accepted(def)
    requires IsHistory(def, calls, runs) && i < |runs|
    requires Advances(def, w, runs[i], result)
    ensures !ReportsMissingStep(result)
  {
    OnTrackAlways(def, calls, runs, i);
    if !Idle(runs[i], w.now) {
      ReachableStart(def);
      var n: nat :| Turns(def, w, Entry(def, runs[i]), n) == Some(result);
      LoopFindsSteps(def, w, Entry(def, runs[i]), n);
    }
  }
}
