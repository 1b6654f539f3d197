/** The durable workflow engine (packages/workflow/src/engine.ts). */
module WorkflowEngine {
  // One run is the row of `workflow_runs` together with its rows of `workflow_step_runs` and
  // `workflow_approvals`. A call to the engine happens inside one tenant transaction, so it either commits as
  // a whole or leaves the run as it was.

  import opened Prelude
  import opened WorkflowSchema

  type Output = string
  type Context = map<string, Output>

  // ---------------------------------------------------------------------------
  // What the engine asks of the outside
  // ---------------------------------------------------------------------------

  datatype Verdict = Holds | Fails | Throws

  /** `Errored` is caught by the step; `Aborted` is a database error, which takes the transaction with it. */
  datatype ActResult = Done(output: Output) | Errored(message: string) | Aborted

  datatype World = World(
    holds: (Condition, Context) -> Verdict,
    date: (string, Context) -> Option<int>,
    act: (string, Context, nat) -> ActResult,
    knownCapability: string -> bool,
    hasInvocation: nat -> bool,
    canSend: bool,
    now: int)

  // ---------------------------------------------------------------------------
  // The stored run
  // ---------------------------------------------------------------------------

  datatype Status = Running | Waiting | AwaitingApproval | Completed | RunFailed | RunCancelled

  datatype RowStatus = Succeeded | StepFailed | Skipped

  datatype Row = Row(key: string, sequence: nat, status: RowStatus, output: Output)

  datatype ApprovalStatus = Pending | Approved | Rejected | Expired | Cancelled

  datatype Effect =
    | CapabilityInvoked
    | TaskCreated
    | ProposalRaised
    | FieldWritten(table: string, field: string)
    | MessageSent
    | ApprovalRequested
    | EventEmitted

  datatype Via = ByNext | ByWhen | ByReject | ByError | ByBranch

  /** History of a run: only the specification looks at it. */
  datatype Event =
    | Ran(key: string, ok: bool, recorded: bool)
    | Performed(key: string, effect: Effect)
    | Moved(key: string, via: Via, to: Target)
    | Decided(key: string, status: ApprovalStatus)

  datatype Run = Run(
    status: Status,
    current: Target,
    resumeAt: Option<int>,
    context: Context,
    dryRun: bool,
    ledger: seq<Row>,
    approvals: map<string, ApprovalStatus>,
    log: seq<Event>)

  function Begin(def: Definition, context: Context, dryRun: bool): Run {
    Run(Running, Some(def.startStep), None, context, dryRun, [], map[], [])
  }

  // ---------------------------------------------------------------------------
  // The step ledger
  // ---------------------------------------------------------------------------

  predicate Taken(ledger: seq<Row>, key: string, sequence: nat) {
    exists r :: r in ledger && r.key == key && r.sequence == sequence
  }

  /** `INSERT ... ON CONFLICT (run_id, step_key, sequence) DO NOTHING`. */
  function Record(ledger: seq<Row>, row: Row): seq<Row> {
    if Taken(ledger, row.key, row.sequence) then ledger else ledger + [row]
  }

  /** The succeeded row of a step with the highest sequence number. */
  function Prior(ledger: seq<Row>, key: string): Option<Row> {
    if |ledger| == 0 then None
    else
      var row, rest := ledger[|ledger| - 1], Prior(ledger[..|ledger| - 1], key);
      if row.key == key && row.status == Succeeded && (rest.None? || row.sequence > rest.value.sequence)
      then Some(row) else rest
  }

  lemma {:induction false} PriorMeaning(ledger: seq<Row>, key: string)
    ensures Prior(ledger, key).Some? <==> exists r :: r in ledger && r.key == key && r.status == Succeeded
    ensures Prior(ledger, key).Some? ==>
      && Prior(ledger, key).value in ledger
      && Prior(ledger, key).value.key == key
      && Prior(ledger, key).value.status == Succeeded
      && forall r :: r in ledger && r.key == key && r.status == Succeeded ==>
           r.sequence <= Prior(ledger, key).value.sequence
  {
    if |ledger| > 0 {
      PriorMeaning(ledger[..|ledger| - 1], key);
      assert ledger == ledger[..|ledger| - 1] + [ledger[|ledger| - 1]];
    }
  }

  // ---------------------------------------------------------------------------
  // Executing one step
  // ---------------------------------------------------------------------------

  datatype Wait = NoWait | UntilTime(at: int) | UntilApproval

  datatype Execution =
    | Success(output: Output, wait: Wait, jump: Option<Target>, effect: Option<Effect>)
    | Failure(message: string)
    | Lost

  const WRITABLE_TABLES: set<string> := {"cases", "case_tasks"}

  function Simulated(): Execution { Success("null", NoWait, None, None) }

  function Attempt(w: World, step: Step, context: Context, executed: nat, effect: Effect, wait: Wait): Execution {
    match w.act(step.key, context, executed)
    case Done(output) => Success(output, wait, None, Some(effect))
    case Errored(message) => Failure(message)
    case Aborted => Lost
  }

  function TakeBranch(w: World, arms: seq<Arm>, fallback: Target, context: Context): Execution {
    if |arms| == 0 then Success("default", NoWait, Some(fallback), None)
    else match w.holds(arms[0].when, context)
      case Holds => Success(arms[0].next, NoWait, Some(Some(arms[0].next)), None)
      case Fails => TakeBranch(w, arms[1..], fallback, context)
      case Throws => Failure("condition")
  }

  function Execute(w: World, step: Step, context: Context, executed: nat, dryRun: bool): Execution {
    match step.kind
    case Branch(arms, fallback) => TakeBranch(w, arms, fallback, context)
    case Delay(forMillis, untilField) =>
      var at := if forMillis.Some? then Some(w.now + forMillis.value)
                else if untilField.Some? then w.date(untilField.value, context) else None;
      if at.None? then Failure("delay target")
      else Success("resume", if dryRun then NoWait else UntilTime(at.value), None, None)
    case AiCapability(capability) =>
      if !w.knownCapability(capability) then Failure("unknown capability")
      else if dryRun then Simulated()
      else Attempt(w, step, context, executed, CapabilityInvoked, NoWait)
    case CreateTask =>
      if dryRun then Simulated() else Attempt(w, step, context, executed, TaskCreated, NoWait)
    case UpdateField(table, field, regulated) =>
      if dryRun then Simulated()
      else if regulated then
        if !w.hasInvocation(executed) then Failure("no invocation")
        else Attempt(w, step, context, executed, ProposalRaised, NoWait)
      else if table !in WRITABLE_TABLES then Failure("table")
      else Attempt(w, step, context, executed, FieldWritten(table, field), NoWait)
    case SendCommunication =>
      if dryRun || !w.canSend then Simulated()
      else Attempt(w, step, context, executed, MessageSent, NoWait)
    case Approval(_) =>
      if dryRun then Simulated()
      else Attempt(w, step, context, executed, ApprovalRequested, UntilApproval)
    case EmitEvent =>
      if dryRun then Simulated() else Attempt(w, step, context, executed, EventEmitted, NoWait)
    case End => Success("outcome", NoWait, None, None)
  }

  // ---------------------------------------------------------------------------
  // One turn of the loop in `advanceRun`
  // ---------------------------------------------------------------------------

  datatype Problem = MissingStep(key: string) | StepError(message: string) | BudgetExceeded

  datatype Outcome = Outcome(
    status: Status, stepsExecuted: nat, currentStep: Target, resumeAt: Option<int>, error: Option<Problem>)

  /** The stored run and the local variables of the loop. */
  datatype Config = Config(run: Run, context: Context, current: Target, executed: nat)

  datatype Turned = Continue(config: Config) | Stop(run: Run, outcome: Outcome) | Raise

  function WithLog(run: Run, events: seq<Event>): Run { run.(log := run.log + events) }

  function Move(c: Config, context: Context, key: string, via: Via, to: Target): Config {
    Config(WithLog(c.run, [Moved(key, via, to)]), context, to, c.executed)
  }

  function FailRun(run: Run): Run { run.(status := RunFailed) }

  /** A step that already succeeded is passed over; an approval follows the decision made. */
  function Resume(step: Step, c: Config, output: Output): Turned {
    var context := c.context[step.key := output];
    if step.kind.Approval? && step.key in c.run.approvals && c.run.approvals[step.key] != Approved then
      if c.run.approvals[step.key] == Pending then
        Stop(c.run.(status := AwaitingApproval, current := Some(step.key)),
             Outcome(AwaitingApproval, c.executed, Some(step.key), None, None))
      else if !Live(step.kind.onReject) then
        Stop(c.run.(status := Completed), Outcome(Completed, c.executed, Some(step.key), None, None))
      else Continue(Move(c, context, step.key, ByReject, step.kind.onReject))
    else Continue(Move(c, context, step.key, ByNext, step.next))
  }

  function Recorded(c: Config, key: string, status: RowStatus, output: Output): Run {
    c.run.(ledger := Record(c.run.ledger, Row(key, c.executed, status, output)))
  }

  function Bypass(step: Step, c: Config): Turned {
    Continue(Move(Config(Recorded(c, step.key, Skipped, "null"), c.context, c.current, c.executed + 1),
                  c.context, step.key, ByWhen, step.next))
  }

  function Failed(step: Step, c: Config, message: string): Turned {
    var run := WithLog(Recorded(c, step.key, StepFailed, "null"),
                       [Ran(step.key, false, !Taken(c.run.ledger, step.key, c.executed))]);
    if Live(step.onError) then
      Continue(Move(Config(run, c.context, c.current, c.executed + 1), c.context, step.key, ByError, step.onError))
    else Stop(FailRun(run), Outcome(RunFailed, c.executed + 1, Some(step.key), None, Some(StepError(message))))
  }

  /** The run as stored once a step has succeeded: ledger row, effects and output. */
  function AfterSuccess(step: Step, c: Config, e: Execution): Run
    requires e.Success?
  {
    var run := Recorded(c, step.key, Succeeded, e.output);
    run.(
      context := c.context[step.key := e.output],
      approvals := if e.wait.UntilApproval? && step.key !in run.approvals
                   then run.approvals[step.key := Pending] else run.approvals,
      log := run.log + [Ran(step.key, true, !Taken(c.run.ledger, step.key, c.executed))] +
             (if e.effect.Some? then [Performed(step.key, e.effect.value)] else []))
  }

  function Succeed(step: Step, c: Config, e: Execution): Turned
    requires e.Success?
  {
    var run := AfterSuccess(step, c, e);
    match e.wait
    case UntilTime(at) =>
      Stop(run.(status := Waiting, current := Some(step.key), resumeAt := Some(at)),
           Outcome(Waiting, c.executed + 1, Some(step.key), Some(at), None))
    case UntilApproval =>
      Stop(run.(status := AwaitingApproval, current := Some(step.key), resumeAt := None),
           Outcome(AwaitingApproval, c.executed + 1, Some(step.key), None, None))
    case NoWait =>
      if step.kind.End? then
        Stop(run.(status := Completed, current := Some(step.key)),
             Outcome(Completed, c.executed + 1, Some(step.key), None, None))
      else
        var next := if e.jump.Some? then e.jump.value else step.next;
        var via := if e.jump.Some? then ByBranch else ByNext;
        Continue(Move(Config(run.(current := next), run.context, c.current, c.executed + 1),
                      run.context, step.key, via, next))
  }

  function Perform(w: World, step: Step, c: Config): Turned {
    match Execute(w, step, c.context, c.executed, c.run.dryRun)
    case Success(output, wait, jump, effect) => Succeed(step, c, Success(output, wait, jump, effect))
    case Failure(message) => Failed(step, c, message)
    case Lost => Raise
  }

  function Fresh(w: World, step: Step, c: Config): Turned {
    match if step.when.Some? then w.holds(step.when.value, c.context) else Holds
    case Throws => Raise
    case Fails => Bypass(step, c)
    case Holds => Perform(w, step, c)
  }

  function Turn(def: Definition, w: World, c: Config): Turned
    requires Live(c.current)
  {
    var key := c.current.value;
    if key !in ByKey(def.steps) then
      Stop(FailRun(c.run), Outcome(RunFailed, c.executed, c.current, None, Some(MissingStep(key))))
    else
      var step := ByKey(def.steps)[key];
      var prior := Prior(c.run.ledger, key);
      if prior.Some? && !step.kind.Branch? then Resume(step, c, prior.value.output)
      else Fresh(w, step, c)
  }

  // ---------------------------------------------------------------------------
  // A whole call
  // ---------------------------------------------------------------------------

  datatype CallResult = Returned(run: Run, outcome: Outcome) | RolledBack

  predicate Looping(def: Definition, c: Config) { Live(c.current) && c.executed < def.maxSteps }

  function AfterLoop(def: Definition, c: Config): CallResult {
    if c.executed >= def.maxSteps then
      Returned(FailRun(c.run), Outcome(RunFailed, c.executed, c.current, None, Some(BudgetExceeded)))
    else
      Returned(c.run, Outcome(Completed, c.executed, None, None, None))
  }

  /** The result of the loop if it is reached within `n` turns that continue. */
  function Turns(def: Definition, w: World, c: Config, n: nat): Option<CallResult>
    decreases n
  {
    if !Looping(def, c) then Some(AfterLoop(def, c))
    else match Turn(def, w, c)
      case Stop(run, outcome) => Some(Returned(run, outcome))
      case Raise => Some(RolledBack)
      case Continue(next) => if n == 0 then None else Turns(def, w, next, n - 1)
  }

  ghost predicate Returns(def: Definition, w: World, c: Config, result: CallResult) {
    exists n: nat :: Turns(def, w, c, n) == Some(result)
  }

  function Entry(def: Definition, run: Run): Config {
    Config(run, run.context, if run.current.Some? then run.current else Some(def.startStep), 0)
  }

  /** Calls that leave the run alone: settled, asleep, or waiting for a person. */
  predicate Idle(run: Run, now: int) {
    || run.status in {Completed, RunFailed, RunCancelled, AwaitingApproval}
    || (run.status == Waiting && run.resumeAt.Some? && run.resumeAt.value > now)
  }

  function Report(run: Run): Outcome { Outcome(run.status, 0, run.current, run.resumeAt, None) }

  /** `advanceRun` on `run` comes back with `result`. */
  ghost predicate Advances(def: Definition, w: World, run: Run, result: CallResult) {
    if Idle(run, w.now) then result == Returned(run, Report(run))
    else Returns(def, w, Entry(def, run), result)
  }

  ghost predicate ComesBack(def: Definition, w: World, run: Run) {
    exists result :: Advances(def, w, run, result)
  }

  // ---------------------------------------------------------------------------
  // Deciding an approval
  // ---------------------------------------------------------------------------

  datatype DecideError = NoSuchApproval | AlreadyDecided(status: ApprovalStatus) | Forbidden | NoteRequired

  /** `decideApproval`: `permitted` is the authorisation engine's answer. */
  function Decide(run: Run, key: string, approve: bool, permitted: bool, hasNote: bool): Result<Run, DecideError> {
    if key !in run.approvals then Err(NoSuchApproval)
    else if run.approvals[key] != Pending then Err(AlreadyDecided(run.approvals[key]))
    else if !permitted then Err(Forbidden)
    else if !approve && !hasNote then Err(NoteRequired)
    else
      var status := if approve then Approved else Rejected;
      Ok(run.(approvals := run.approvals[key := status], status := Running, log := run.log + [Decided(key, status)]))
  }

  // ---------------------------------------------------------------------------
  // Runs of the whole system
  // ---------------------------------------------------------------------------

  datatype Call =
    | Advance(world: World)
    | DecideCall(key: string, approve: bool, permitted: bool, hasNote: bool)

  ghost predicate Steps(def: Definition, call: Call, before: Run, after: Run) {
    match call
    case Advance(w) =>
      exists result :: Advances(def, w, before, result) &&
        after == if result.Returned? then result.run else before
    case DecideCall(key, approve, permitted, hasNote) =>
      var decided := Decide(before, key, approve, permitted, hasNote);
      after == if decided.Ok? then decided.value else before
  }

  /** `runs` are the states a run goes through under some sequence of calls, from its start. */
  ghost predicate IsHistory(def: Definition, calls: seq<Call>, runs: seq<Run>) {
    && |runs| == |calls| + 1
    && (exists context, dryRun :: runs[0] == Begin(def, context, dryRun))
    && forall i {:trigger calls[i]} :: 0 <= i < |calls| ==> Steps(def, calls[i], runs[i], runs[i + 1])
  }
}
