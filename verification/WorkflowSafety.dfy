module WorkflowSafety {
  // What holds of every run of the engine, whatever the definition, the world and the calls.

  import opened Prelude
  import opened WorkflowSchema
  import opened WorkflowEngine

  // ---------------------------------------------------------------------------
  // Induction over histories: `rest` holds between calls, `loop` at each turn
  // ---------------------------------------------------------------------------

  ghost predicate Established(def: Definition, rest: Run -> bool) {
    forall context, dryRun :: rest(Begin(def, context, dryRun))
  }

  ghost predicate Entered(def: Definition, rest: Run -> bool, loop: Config -> bool) {
    forall run :: rest(run) && run.status in {Running, Waiting} ==> loop(Entry(def, run))
  }

  ghost predicate Lands(turned: Turned, rest: Run -> bool, loop: Config -> bool) {
    match turned
    case Continue(c) => loop(c)
    case Stop(run, _) => rest(run)
    case Raise => true
  }

  ghost predicate Turned(def: Definition, rest: Run -> bool, loop: Config -> bool) {
    && (forall w, c :: loop(c) && Looping(def, c) ==> Lands(Turn(def, w, c), rest, loop))
    && (forall c :: loop(c) && !Looping(def, c) ==> rest(AfterLoop(def, c).run))
  }

  ghost predicate DecisionsKeep(rest: Run -> bool) {
    forall run, key, approve, permitted, hasNote ::
      rest(run) && Decide(run, key, approve, permitted, hasNote).Ok? ==>
      rest(Decide(run, key, approve, permitted, hasNote).value)
  }

  ghost predicate Invariant(def: Definition, rest: Run -> bool, loop: Config -> bool) {
    Established(def, rest) && Entered(def, rest, loop) && Turned(def, rest, loop) && DecisionsKeep(rest)
  }

  lemma {:induction false} LoopKeeps(
    def: Definition, rest: Run -> bool, loop: Config -> bool, w: World, c: Config, n: nat)
    requires Turned(def, rest, loop) && loop(c)
    ensures Turns(def, w, c, n).Some? && Turns(def, w, c, n).value.Returned? ==> rest(Turns(def, w, c, n).value.run)
    decreases n
  {
    if Looping(def, c) {
      assert Lands(Turn(def, w, c), rest, loop);
      if Turn(def, w, c).Continue? && n > 0 { LoopKeeps(def, rest, loop, w, Turn(def, w, c).config, n - 1); }
    }
  }

  /** Likewise for what the loop comes back with: its report as well as its run. */
  lemma {:induction false} LoopEnds(
    def: Definition, loop: Config -> bool, ends: CallResult -> bool, w: World, c: Config, n: nat)
    requires loop(c) && Turns(def, w, c, n).Some?
    requires forall x :: loop(x) && Looping(def, x) ==> EndsWell(Turn(def, w, x), loop, ends)
    requires forall x :: loop(x) && !Looping(def, x) ==> ends(AfterLoop(def, x))
    ensures ends(Turns(def, w, c, n).value)
    decreases n
  {
    if Looping(def, c) {
      assert EndsWell(Turn(def, w, c), loop, ends);
      if Turn(def, w, c).Continue? { LoopEnds(def, loop, ends, w, Turn(def, w, c).config, n - 1); }
    }
  }

  predicate EndsWell(turned: Turned, loop: Config -> bool, ends: CallResult -> bool) {
    match turned
    case Continue(c) => loop(c)
    case Stop(run, outcome) => ends(Returned(run, outcome))
    case Raise => ends(RolledBack)
  }

  /** An invariant of calls and turns holds in every state of every history. */
  lemma {:induction false} HistoryKeeps(
    def: Definition, rest: Run -> bool, loop: Config -> bool, calls: seq<Call>, runs: seq<Run>, i: nat)
    requires Invariant(def, rest, loop)
    requires IsHistory(def, calls, runs) && i < |runs|
    ensures rest(runs[i])
  {
    if i > 0 {
      HistoryKeeps(def, rest, loop, calls, runs, i - 1);
      var before, call := runs[i - 1], calls[i - 1];
      assert Steps(def, call, before, runs[i]);
      if call.Advance? {
        var result :| Advances(def, call.world, before, result) &&
                      runs[i] == if result.Returned? then result.run else before;
        if !Idle(before, call.world.now) {
          var n: nat :| Turns(def, call.world, Entry(def, before), n) == Some(result);
          LoopKeeps(def, rest, loop, call.world, Entry(def, before), n);
        }
      }
    }
  }

  // ---------------------------------------------------------------------------
  // The invariants
  // ---------------------------------------------------------------------------

  predicate IsApproval(def: Definition, key: string) {
    key in ByKey(def.steps) && ByKey(def.steps)[key].kind.Approval?
  }

  predicate IsPending(approvals: map<string, ApprovalStatus>, key: string) {
    key in approvals && approvals[key] == Pending
  }

  ghost predicate NonePending(approvals: map<string, ApprovalStatus>) { forall k :: !IsPending(approvals, k) }

  /** An approval is only ever undecided while the run waits at it. */
  ghost predicate PendingWaits(run: Run) {
    forall k :: IsPending(run.approvals, k) ==> run.status == AwaitingApproval && run.current == Some(k)
  }

  ghost predicate Quiet(run: Run) {
    run.dryRun ==> run.approvals == map[] && forall e :: e in run.log ==> !e.Performed? && !e.Decided?
  }

  /** A live run has an approval row for each approval step that succeeded. */
  ghost predicate ApprovalsOnFile(def: Definition, run: Run) {
    !run.dryRun ==>
      forall r :: r in run.ledger && r.status == Succeeded && IsApproval(def, r.key) ==> r.key in run.approvals
  }

  /** Every approval row's status is what the history of decisions says. */
  ghost predicate DecisionsOnFile(run: Run) {
    && (forall k :: k in run.approvals ==>
         run.approvals[k] == Pending || (run.approvals[k] in {Approved, Rejected} && Decided(k, run.approvals[k]) in run.log))
    && (forall e :: e in run.log && e.Decided? ==> e.key in run.approvals && run.approvals[e.key] == e.status != Pending)
  }

  /** The last word on `key` in the first `n` events. */
  ghost predicate DecidedBefore(log: seq<Event>, n: nat, key: string, status: ApprovalStatus)
    requires n <= |log|
  {
    exists j :: 0 <= j < n && log[j] == Decided(key, status)
  }

  ghost predicate DecidedOnce(log: seq<Event>) {
    forall i, j :: 0 <= i < j < |log| && log[i].Decided? && log[j].Decided? ==> log[i].key != log[j].key
  }

  /** A move past an approval step has the decision that allows it earlier in the history. */
  ghost predicate MoveJustified(log: seq<Event>, i: nat)
    requires i < |log| && log[i].Moved?
  {
    && (log[i].via == ByNext ==> DecidedBefore(log, i, log[i].key, Approved))
    && (log[i].via == ByReject ==> DecidedBefore(log, i, log[i].key, Rejected))
    && log[i].via != ByBranch
  }

  ghost predicate MovesJustified(def: Definition, run: Run) {
    !run.dryRun ==>
      forall i :: 0 <= i < |run.log| && run.log[i].Moved? && IsApproval(def, run.log[i].key) ==> MoveJustified(run.log, i)
  }

  /** An effect comes from a step configured for it; in particular a field write is not regulated. */
  predicate EffectAllowed(def: Definition, key: string, effect: Effect) {
    key in ByKey(def.steps) &&
    var kind := ByKey(def.steps)[key].kind;
    match effect
    case FieldWritten(table, field) => kind == UpdateField(table, field, false) && table in WRITABLE_TABLES
    case ProposalRaised => kind.UpdateField? && kind.regulated
    case CapabilityInvoked => kind.AiCapability?
    case TaskCreated => kind.CreateTask?
    case MessageSent => kind.SendCommunication?
    case ApprovalRequested => kind.Approval?
    case EventEmitted => kind.EmitEvent?
  }

  ghost predicate EffectsAllowed(def: Definition, run: Run) {
    forall e :: e in run.log && e.Performed? ==> EffectAllowed(def, e.key, e.effect)
  }

  function Count(log: seq<Event>, event: Event): nat {
    if |log| == 0 then 0 else Count(log[..|log| - 1], event) + if log[|log| - 1] == event then 1 else 0
  }

  lemma {:induction false} CountAppend(log: seq<Event>, more: seq<Event>, event: Event)
    ensures Count(log + more, event) == Count(log, event) + Count(more, event)
  {
    if |more| == 0 {
      assert log + more == log;
    } else {
      assert (log + more)[..|log + more| - 1] == log + more[..|more| - 1];
      CountAppend(log, more[..|more| - 1], event);
    }
  }

  lemma {:induction false} CountAbsent(log: seq<Event>, event: Event)
    requires event !in log
    ensures Count(log, event) == 0
  {
    if |log| > 0 { CountAbsent(log[..|log| - 1], event); }
  }

  predicate NonBranch(def: Definition, key: string) {
    key in ByKey(def.steps) && !ByKey(def.steps)[key].kind.Branch?
  }

  /** The ledger holds a success of a non-branch step exactly when one was recorded, and only one ever is. */
  ghost predicate RecordedOnce(def: Definition, run: Run) {
    forall k :: NonBranch(def, k) ==>
      Count(run.log, Ran(k, true, true)) == if Prior(run.ledger, k).Some? then 1 else 0
  }

  ghost predicate Sound(def: Definition, run: Run) {
    && Quiet(run)
    && ApprovalsOnFile(def, run)
    && DecisionsOnFile(run)
    && DecidedOnce(run.log)
    && MovesJustified(def, run)
    && EffectsAllowed(def, run)
    && RecordedOnce(def, run)
  }

  ghost predicate Rest(def: Definition, run: Run) { Sound(def, run) && PendingWaits(run) }

  ghost predicate AtTurn(def: Definition, c: Config) {
    Sound(def, c.run) && NonePending(c.run.approvals)
  }

  // ---------------------------------------------------------------------------
  // What a turn changes
  // ---------------------------------------------------------------------------

  lemma ExecuteEffect(def: Definition, w: World, step: Step, context: Context, executed: nat, dryRun: bool)
    requires step.key in ByKey(def.steps) && ByKey(def.steps)[step.key] == step
    ensures var e := Execute(w, step, context, executed, dryRun); e.Success? ==>
      && (e.effect.Some? ==> !dryRun && EffectAllowed(def, step.key, e.effect.value))
      && (step.kind.Approval? && !dryRun <==> e.wait.UntilApproval?)
      && (e.jump.Some? <==> step.kind.Branch?)
  {
    if step.kind.Branch? { TakeBranchShape(w, step.kind.arms, step.kind.fallback, context); }
  }

  lemma {:induction false} TakeBranchShape(w: World, arms: seq<Arm>, fallback: Target, context: Context)
    ensures var e := TakeBranch(w, arms, fallback, context);
      e.Success? ==> e.jump.Some? && e.effect.None? && e.wait.NoWait?
    ensures var e := TakeBranch(w, arms, fallback, context);
      e.Success? ==> e.jump.value == fallback || exists a :: a in arms && e.jump.value == Some(a.next)
  {
    if |arms| > 0 { TakeBranchShape(w, arms[1..], fallback, context); }
  }

  lemma PriorRecord(ledger: seq<Row>, row: Row, key: string)
    ensures Prior(Record(ledger, row), key).Some? <==>
      Prior(ledger, key).Some? ||
      (row.key == key && row.status == Succeeded && !Taken(ledger, row.key, row.sequence))
  {
    if !Taken(ledger, row.key, row.sequence) {
      assert (ledger + [row])[..|ledger + [row]| - 1] == ledger;
    }
  }

  /** Facts `Sound` relies on do not mention status, position, resume time or context. */
  ghost predicate SameRecord(a: Run, b: Run) {
    a.dryRun == b.dryRun && a.ledger == b.ledger && a.approvals == b.approvals && a.log == b.log
  }

  lemma SoundSame(def: Definition, a: Run, b: Run)
    requires Sound(def, a) && SameRecord(a, b)
    ensures Sound(def, b)
  {
  }

  lemma MovesJustifiedAppend(def: Definition, before: Run, after: Run, event: Event)
    requires MovesJustified(def, before) && after.dryRun == before.dryRun && after.log == before.log + [event]
    requires !before.dryRun && event.Moved? && IsApproval(def, event.key) ==>
      && (event.via == ByNext ==> Decided(event.key, Approved) in before.log)
      && (event.via == ByReject ==> Decided(event.key, Rejected) in before.log)
      && event.via != ByBranch
    ensures MovesJustified(def, after)
  {
    if !after.dryRun {
      forall i | 0 <= i < |after.log| && after.log[i].Moved? && IsApproval(def, after.log[i].key)
        ensures MoveJustified(after.log, i)
      {
        if i < |before.log| {
          assert MoveJustified(before.log, i);
          assert after.log[..i] == before.log[..i];
        }
      }
    }
  }

  lemma DecidedOnceAppend(log: seq<Event>, event: Event)
    requires DecidedOnce(log)
    requires event.Decided? ==> forall e :: e in log && e.Decided? ==> e.key != event.key
    ensures DecidedOnce(log + [event])
  {
  }

  lemma CountOne(log: seq<Event>, event: Event, other: Event)
    ensures Count(log + [event], other) == Count(log, other) + if event == other then 1 else 0
  {
    assert (log + [event])[..|log + [event]| - 1] == log;
  }

  /** An event that is neither a decision nor a recorded success keeps everything, if it is allowed itself. */
  lemma SoundEvent(def: Definition, run: Run, event: Event)
    requires Sound(def, run)
    requires !event.Decided? && !(event.Ran? && event.ok && event.recorded)
    requires event.Performed? ==> !run.dryRun && EffectAllowed(def, event.key, event.effect)
    requires !run.dryRun && event.Moved? && IsApproval(def, event.key) ==>
      && (event.via == ByNext ==> Decided(event.key, Approved) in run.log)
      && (event.via == ByReject ==> Decided(event.key, Rejected) in run.log)
      && event.via != ByBranch
    ensures Sound(def, WithLog(run, [event]))
  {
    var after := WithLog(run, [event]);
    MovesJustifiedAppend(def, run, after, event);
    DecidedOnceAppend(run.log, event);
    forall k | NonBranch(def, k)
      ensures Count(after.log, Ran(k, true, true)) == if Prior(after.ledger, k).Some? then 1 else 0
    {
      CountOne(run.log, event, Ran(k, true, true));
    }
  }

  /** The row of a success, its event, and for an approval its approval row. */
  function WithSuccess(step: Step, c: Config, e: Execution): Run
    requires e.Success?
  {
    c.run.(ledger := Record(c.run.ledger, Row(step.key, c.executed, Succeeded, e.output)),
           approvals := AfterSuccess(step, c, e).approvals,
           log := c.run.log + [Ran(step.key, true, !Taken(c.run.ledger, step.key, c.executed))])
  }

  lemma SuccessCounted(def: Definition, c: Config, step: Step, e: Execution, k: string)
    requires RecordedOnce(def, c.run) && (Prior(c.run.ledger, step.key).None? || step.kind.Branch?) && e.Success?
    requires step.key in ByKey(def.steps) && ByKey(def.steps)[step.key] == step && NonBranch(def, k)
    ensures var run := WithSuccess(step, c, e);
      Count(run.log, Ran(k, true, true)) == if Prior(run.ledger, k).Some? then 1 else 0
  {
    CountOne(c.run.log, Ran(step.key, true, !Taken(c.run.ledger, step.key, c.executed)), Ran(k, true, true));
    PriorRecord(c.run.ledger, Row(step.key, c.executed, Succeeded, e.output), k);
  }

  lemma SoundRecorded(def: Definition, c: Config, step: Step, e: Execution)
    requires AtTurn(def, c) && (Prior(c.run.ledger, step.key).None? || step.kind.Branch?)
    requires step.key in ByKey(def.steps) && ByKey(def.steps)[step.key] == step
    requires e.Success? && (step.kind.Approval? && !c.run.dryRun <==> e.wait.UntilApproval?)
    ensures Sound(def, WithSuccess(step, c, e))
    ensures forall k :: IsPending(AfterSuccess(step, c, e).approvals, k) ==> k == step.key && e.wait.UntilApproval?
  {
    var run := WithSuccess(step, c, e);
    var ran := run.log[|c.run.log|];
    DecidedOnceAppend(c.run.log, ran);
    MovesJustifiedAppend(def, c.run, run, ran);
    forall k | NonBranch(def, k)
      ensures Count(run.log, Ran(k, true, true)) == if Prior(run.ledger, k).Some? then 1 else 0
    {
      SuccessCounted(def, c, step, e, k);
    }
    assert forall k :: IsPending(run.approvals, k) ==> IsPending(c.run.approvals, k) || (k == step.key && e.wait.UntilApproval?);
  }

  /** Recording a success and what it performed. */
  lemma SoundSuccess(def: Definition, c: Config, step: Step, e: Execution)
    requires AtTurn(def, c) && (Prior(c.run.ledger, step.key).None? || step.kind.Branch?)
    requires step.key in ByKey(def.steps) && ByKey(def.steps)[step.key] == step
    requires e.Success?
    requires e.effect.Some? ==> !c.run.dryRun && EffectAllowed(def, step.key, e.effect.value)
    requires step.kind.Approval? && !c.run.dryRun <==> e.wait.UntilApproval?
    ensures Sound(def, AfterSuccess(step, c, e))
    ensures forall k :: IsPending(AfterSuccess(step, c, e).approvals, k) ==> k == step.key && e.wait.UntilApproval?
  {
    var run := WithSuccess(step, c, e);
    SoundRecorded(def, c, step, e);
    if e.effect.Some? {
      SoundEvent(def, run, Performed(step.key, e.effect.value));
      assert AfterSuccess(step, c, e).log == WithLog(run, [Performed(step.key, e.effect.value)]).log;
      SoundSame(def, WithLog(run, [Performed(step.key, e.effect.value)]), AfterSuccess(step, c, e));
    } else {
      assert AfterSuccess(step, c, e).log == run.log;
      SoundSame(def, run, AfterSuccess(step, c, e));
    }
  }

  // ---------------------------------------------------------------------------
  // Each kind of turn keeps the invariants
  // ---------------------------------------------------------------------------

  ghost predicate Keeps(def: Definition, turned: Turned) {
    match turned
    case Continue(c) => AtTurn(def, c)
    case Stop(run, _) => Rest(def, run)
    case Raise => true
  }

  lemma ResumeKeeps(def: Definition, step: Step, c: Config, row: Row)
    requires AtTurn(def, c) && Prior(c.run.ledger, step.key) == Some(row) && !step.kind.Branch?
    requires step.key in ByKey(def.steps) && ByKey(def.steps)[step.key] == step
    ensures Keeps(def, Resume(step, c, row.output))
  {
    PriorMeaning(c.run.ledger, step.key);
    var turned := Resume(step, c, row.output);
    assert !IsPending(c.run.approvals, step.key);
    if turned.Continue? {
      var moved := turned.config.run.log[|c.run.log|];
      SoundEvent(def, c.run, moved);
    }
  }

  lemma BypassKeeps(def: Definition, step: Step, c: Config)
    requires AtTurn(def, c)
    ensures Keeps(def, Bypass(step, c))
  {
    var row := Row(step.key, c.executed, Skipped, "null");
    SoundEvent(def, c.run.(ledger := Record(c.run.ledger, row)), Moved(step.key, ByWhen, step.next));
  }

  lemma FailedKeeps(def: Definition, step: Step, c: Config, message: string)
    requires AtTurn(def, c)
    ensures Keeps(def, Failed(step, c, message))
  {
    var row := Row(step.key, c.executed, StepFailed, "null");
    var run := c.run.(ledger := Record(c.run.ledger, row));
    var ran := Ran(step.key, false, !Taken(c.run.ledger, step.key, c.executed));
    SoundEvent(def, run, ran);
    if Live(step.onError) { SoundEvent(def, WithLog(run, [ran]), Moved(step.key, ByError, step.onError)); }
  }

  lemma SucceedKeeps(def: Definition, w: World, step: Step, c: Config)
    requires AtTurn(def, c) && (Prior(c.run.ledger, step.key).None? || step.kind.Branch?)
    requires step.key in ByKey(def.steps) && ByKey(def.steps)[step.key] == step
    requires Execute(w, step, c.context, c.executed, c.run.dryRun).Success?
    ensures Keeps(def, Succeed(step, c, Execute(w, step, c.context, c.executed, c.run.dryRun)))
  {
    ExecuteEffect(def, w, step, c.context, c.executed, c.run.dryRun);
    SuccessKeeps(def, step, c, Execute(w, step, c.context, c.executed, c.run.dryRun));
  }

  lemma SuccessKeeps(def: Definition, step: Step, c: Config, e: Execution)
    requires AtTurn(def, c) && (Prior(c.run.ledger, step.key).None? || step.kind.Branch?)
    requires step.key in ByKey(def.steps) && ByKey(def.steps)[step.key] == step
    requires e.Success? && (e.effect.Some? ==> !c.run.dryRun && EffectAllowed(def, step.key, e.effect.value))
    requires step.kind.Approval? && !c.run.dryRun <==> e.wait.UntilApproval?
    requires e.jump.Some? <==> step.kind.Branch?
    ensures Keeps(def, Succeed(step, c, e))
  {
    SoundSuccess(def, c, step, e);
    var run := AfterSuccess(step, c, e);
    var turned := Succeed(step, c, e);
    match turned
    case Stop(after, _) => SoundSame(def, run, after);
    case Continue(next) =>
      var via := if e.jump.Some? then ByBranch else ByNext;
      SoundSame(def, run, run.(current := next.current));
      SoundEvent(def, run.(current := next.current), Moved(step.key, via, next.current));
  }

  lemma TurnKeeps(def: Definition, w: World, c: Config)
    requires AtTurn(def, c) && Looping(def, c)
    ensures Keeps(def, Turn(def, w, c))
  {
    ByKeyMeaning(def.steps);
    var key := c.current.value;
    if key in ByKey(def.steps) {
      var step := ByKey(def.steps)[key];
      var prior := Prior(c.run.ledger, key);
      if prior.Some? && !step.kind.Branch? {
        ResumeKeeps(def, step, c, prior.value);
      } else {
        BypassKeeps(def, step, c);
        match Execute(w, step, c.context, c.executed, c.run.dryRun)
        case Success(_, _, _, _) => SucceedKeeps(def, w, step, c);
        case Failure(message) => FailedKeeps(def, step, c, message);
        case Lost =>
      }
    }
  }

  lemma DecideKeeps(def: Definition, run: Run, key: string, approve: bool, permitted: bool, hasNote: bool)
    requires Rest(def, run) && Decide(run, key, approve, permitted, hasNote).Ok?
    ensures Rest(def, Decide(run, key, approve, permitted, hasNote).value)
  {
    var after := Decide(run, key, approve, permitted, hasNote).value;
    var event := after.log[|run.log|];
    assert IsPending(run.approvals, key);
    DecidedOnceAppend(run.log, event);
    MovesJustifiedAppend(def, run, after, event);
    forall k | NonBranch(def, k)
      ensures Count(after.log, Ran(k, true, true)) == if Prior(after.ledger, k).Some? then 1 else 0
    {
      CountOne(run.log, event, Ran(k, true, true));
    }
    assert forall k :: IsPending(after.approvals, k) ==> IsPending(run.approvals, k) && k != key;
  }

  lemma BeginsSound(def: Definition, context: Context, dryRun: bool)
    ensures Rest(def, Begin(def, context, dryRun))
  {}

  lemma EntersSound(def: Definition, run: Run)
    requires Rest(def, run) && run.status in {Running, Waiting}
    ensures AtTurn(def, Entry(def, run))
  {}

  lemma LeavesSound(def: Definition, c: Config)
    requires AtTurn(def, c) && !Looping(def, c)
    ensures Rest(def, AfterLoop(def, c).run)
  {
    SoundSame(def, c.run, AfterLoop(def, c).run);
  }

  lemma SoundAlways(def: Definition, calls: seq<Call>, runs: seq<Run>, i: nat)
    requires IsHistory(def, calls, runs) && i < |runs|
    ensures Rest(def, runs[i])
  {
    var rest, loop := run => Rest(def, run), c => AtTurn(def, c);
    forall context, dryRun ensures rest(Begin(def, context, dryRun)) { BeginsSound(def, context, dryRun); }
    forall run | rest(run) && run.status in {Running, Waiting} ensures loop(Entry(def, run)) { EntersSound(def, run); }
    forall w, c | loop(c) && Looping(def, c) ensures Lands(Turn(def, w, c), rest, loop) { TurnKeeps(def, w, c); }
    forall c | loop(c) && !Looping(def, c) ensures rest(AfterLoop(def, c).run) { LeavesSound(def, c); }
    forall run, key, approve, permitted, hasNote
      | rest(run) && Decide(run, key, approve, permitted, hasNote).Ok?
      ensures rest(Decide(run, key, approve, permitted, hasNote).value)
    {
      DecideKeeps(def, run, key, approve, permitted, hasNote);
    }
    HistoryKeeps(def, rest, loop, calls, runs, i);
  }

  // ---------------------------------------------------------------------------
  // The properties, in the terms of the program's own promises
  // ---------------------------------------------------------------------------

  /**
   * An approval is never bypassed: leaving an approval step by `next` (other
   * than through its own `when`) comes after a decision to approve it, leaving
   * it by `onReject` after a decision to reject it, and there is only ever one
   * decision per approval.
   */
  lemma ApprovalNeverBypassed(def: Definition, calls: seq<Call>, runs: seq<Run>, i: nat, k: nat)
    requires IsHistory(def, calls, runs) && i < |runs| && !runs[i].dryRun
    requires k < |runs[i].log| && runs[i].log[k].Moved? && IsApproval(def, runs[i].log[k].key)
    ensures var log := runs[i].log;
      && (log[k].via == ByNext ==> DecidedBefore(log, k, log[k].key, Approved))
      && (log[k].via == ByReject ==> DecidedBefore(log, k, log[k].key, Rejected))
      && log[k].via in {ByNext, ByReject, ByWhen, ByError}
      && DecidedOnce(log)
  {
    SoundAlways(def, calls, runs, i);
    assert MoveJustified(runs[i].log, k);
  }

  /** No run takes both the approved and the rejected path out of one approval. */
  lemma NotBothPaths(def: Definition, calls: seq<Call>, runs: seq<Run>, i: nat, a: nat, b: nat)
    requires IsHistory(def, calls, runs) && i < |runs| && !runs[i].dryRun
    requires a < |runs[i].log| && b < |runs[i].log| && runs[i].log[a].Moved? && runs[i].log[b].Moved?
    requires IsApproval(def, runs[i].log[a].key) && runs[i].log[a].key == runs[i].log[b].key
    ensures !(runs[i].log[a].via == ByNext && runs[i].log[b].via == ByReject)
  {
    var log := runs[i].log;
    ApprovalNeverBypassed(def, calls, runs, i, a);
    ApprovalNeverBypassed(def, calls, runs, i, b);
  }

  /** A dry run has no effect outside its own report. */
  lemma DryRunHasNoEffect(def: Definition, calls: seq<Call>, runs: seq<Run>, i: nat)
    requires IsHistory(def, calls, runs) && i < |runs| && runs[i].dryRun
    ensures runs[i].approvals == map[] && forall e :: e in runs[i].log ==> !e.Performed?
  {
    SoundAlways(def, calls, runs, i);
  }

  /** The engine never writes a regulated field, and writes only to the tables on its allowlist. */
  lemma RegulatedNeverWritten(def: Definition, calls: seq<Call>, runs: seq<Run>, i: nat, e: Event)
    requires IsHistory(def, calls, runs) && i < |runs|
    requires e in runs[i].log && e.Performed? && e.effect.FieldWritten?
    ensures e.effect.table in WRITABLE_TABLES
    ensures e.key in ByKey(def.steps) &&
      ByKey(def.steps)[e.key].kind == UpdateField(e.effect.table, e.effect.field, false)
  {
    SoundAlways(def, calls, runs, i);
  }

  function Successes(log: seq<Event>, key: string): nat {
    Count(log, Ran(key, true, true)) + Count(log, Ran(key, true, false))
  }

  /**
   * How often a step that is not a branch succeeds: once if its success is in
   * the ledger, plus once for every success whose row the ledger turned away.
   */
  lemma SuccessesAccounted(def: Definition, calls: seq<Call>, runs: seq<Run>, i: nat, key: string)
    requires IsHistory(def, calls, runs) && i < |runs| && NonBranch(def, key)
    ensures Successes(runs[i].log, key) ==
      Count(runs[i].log, Ran(key, true, false)) + if Prior(runs[i].ledger, key).Some? then 1 else 0
  {
    SoundAlways(def, calls, runs, i);
  }
}
