/**
 * Definitions the validator accepts on which the engine does not do what its
 * documentation says. Each shows that a hypothesis of the theorems is needed.
 *
 * 1. Two tasks that continue to each other: the step budget does not stop the
 *    loop, because passing over a step that succeeded does not spend budget.
 * 2. A branch without a default: the run has nowhere to go and starts again on
 *    the next call, where the ledger turns away the row of the step that runs.
 * 3. An end step with a condition: the run starts again too, and ends up waiting
 *    for an approval that has been given.
 * 4. A cycle, nothing else wrong with it: the approval step fails, asks, is
 *    approved and asks again, since both times the ledger turned its row away.
 * 5. A ring behind a branch that is admitted to by its own condition: there is
 *    a ring, and yet no call hangs.
 */
module WorkflowFindings {
  import opened Prelude
  import opened WorkflowSchema
  import opened WorkflowEngine
  import opened WorkflowTermination
  import opened WorkflowHanging
  import opened WorkflowSafety
  import opened WorkflowOnce
  import opened WorkflowAwaiting

  function Three(a: Step, b: Step, c: Step): Definition { Definition(a.key, [a, b, c], 50) }

  predicate DistinctKeys(a: Step, b: Step, c: Step) { a.key != b.key && b.key != c.key && a.key != c.key }

  lemma ThreeByKey(a: Step, b: Step, c: Step)
    requires DistinctKeys(a, b, c)
    ensures ByKey([a, b, c]) == map[a.key := a, b.key := b, c.key := c]
    ensures Keys([a, b, c]) == {a.key, b.key, c.key}
  {
    assert [a, b, c][..2] == [a, b] && [a, b][..1] == [a] && [a][..0] == [];
    assert ByKey([a]) == map[a.key := a];
    assert ByKey([a, b]) == map[a.key := a, b.key := b];
    ByKeyMeaning([a, b, c]);
  }

  predicate WellFormedThree(a: Step, b: Step, c: Step) {
    && DistinctKeys(a, b, c) && c.kind.End?
    && StepShape(a) && StepShape(b) && StepShape(c)
    && (a.kind.Delay? ==> a.kind.forMillis.Some?) && (b.kind.Delay? ==> b.kind.forMillis.Some?)
    && (forall t :: t in Targets(a) + Targets(b) + Targets(c) && Live(t) ==> t.value in {a.key, b.key, c.key})
    && (a.kind.Branch? || a.kind.End? || Live(a.next)) && (b.kind.Branch? || b.kind.End? || Live(b.next))
    && Some(b.key) in Targets(a) && (Some(c.key) in Targets(a) || Some(c.key) in Targets(b))
  }

  lemma ThreeReachable(a: Step, b: Step, c: Step)
    requires WellFormedThree(a, b, c)
    ensures forall k :: k in Keys([a, b, c]) ==> Reachable(Three(a, b, c), k)
  {
    var def := Three(a, b, c);
    ThreeByKey(a, b, c);
    ReachableStart(def);
    ReachableEdge(def, a.key, b.key);
    ReachableEdge(def, if Some(c.key) in Targets(a) then a.key else b.key, c.key);
  }

  lemma ThreeNoStepFlaw(a: Step, b: Step, c: Step, s: Step, issue: Issue)
    requires WellFormedThree(a, b, c) && s in {a, b, c}
    ensures !StepFlaw(s, {a.key, b.key, c.key}, issue)
  {
    if issue.UnknownTarget? && Refers(s, issue.what, issue.target) {
      RefersTarget(s, issue.what, issue.target);
      assert Some(issue.target) in Targets(a) + Targets(b) + Targets(c);
    }
  }

  /** Three distinct steps, each reachable, with sound references: the validator accepts them. */
  lemma AcceptThree(a: Step, b: Step, c: Step)
    requires WellFormedThree(a, b, c)
    ensures Accepted(Three(a, b, c))
  {
    var def := Three(a, b, c);
    ThreeByKey(a, b, c);
    ThreeReachable(a, b, c);
    assert Shaped(def);
    assert def.steps[2].kind.End? && def.steps[2] in def.steps;
    forall issue ensures !Flaw(def, issue) {
      if SomeStepFlaw(def.steps, Keys(def.steps), issue) {
        var s :| s in def.steps && StepFlaw(s, Keys(def.steps), issue);
        ThreeNoStepFlaw(a, b, c, s, issue);
      }
    }
  }

  lemma RefersTarget(s: Step, what: Reference, target: string)
    requires Refers(s, what, target)
    ensures Some(target) in Targets(s)
  {
    var targets := Targets(s);
    match what
    case ContinuesTo => assert targets[0] == s.next;
    case RoutesErrorsTo => assert targets[1] == s.onError;
    case BranchesTo =>
      var arm :| arm in s.kind.arms && arm.next == target;
      var i :| 0 <= i < |s.kind.arms| && s.kind.arms[i] == arm;
      assert targets[2 + i] == ArmTargets(s.kind.arms)[i];
    case DefaultsTo => assert targets[|targets| - 1] == s.kind.fallback;
    case RoutesRejectionTo => assert targets[2] == s.kind.onReject;
  }

  /** A step that has not succeeded yet, may run and does succeed. */
  lemma RunsAndSucceeds(def: Definition, w: World, step: Step, c: Config, e: Execution)
    requires c.current == Some(step.key) && Live(c.current)
    requires step.key in ByKey(def.steps) && ByKey(def.steps)[step.key] == step
    requires Prior(c.run.ledger, step.key).None? || step.kind.Branch?
    requires step.when.None? || w.holds(step.when.value, c.context) == Holds
    requires e.Success? && Execute(w, step, c.context, c.executed, c.run.dryRun) == e
    ensures Turn(def, w, c) == Succeed(step, c, e)
  {
  }

  /** A step that has not succeeded yet and whose condition does not hold. */
  lemma PassesBy(def: Definition, w: World, step: Step, c: Config)
    requires c.current == Some(step.key) && Live(c.current)
    requires step.key in ByKey(def.steps) && ByKey(def.steps)[step.key] == step
    requires Prior(c.run.ledger, step.key).None? || step.kind.Branch?
    requires step.when.Some? && w.holds(step.when.value, c.context) == Fails
    ensures Turn(def, w, c) == Bypass(step, c)
  {
  }

  /** A step that has not succeeded yet, may run and fails. */
  lemma RunsAndFails(def: Definition, w: World, step: Step, c: Config, message: string)
    requires c.current == Some(step.key) && Live(c.current)
    requires step.key in ByKey(def.steps) && ByKey(def.steps)[step.key] == step
    requires Prior(c.run.ledger, step.key).None? && step.when.None?
    requires Execute(w, step, c.context, c.executed, c.run.dryRun) == Failure(message)
    ensures Turn(def, w, c) == Failed(step, c, message)
  {
  }

  lemma FourCalls(def: Definition, calls: seq<Call>, runs: seq<Run>)
    requires |calls| == 4 && |runs| == 5 && exists context, dryRun :: runs[0] == Begin(def, context, dryRun)
    requires Steps(def, calls[0], runs[0], runs[1]) && Steps(def, calls[1], runs[1], runs[2])
    requires Steps(def, calls[2], runs[2], runs[3]) && Steps(def, calls[3], runs[3], runs[4])
    ensures IsHistory(def, calls, runs)
  {}

  function Plain(key: string, kind: Kind, next: Target): Step { Step(key, None, next, None, kind) }

  // ---------------------------------------------------------------------------
  // 1. The step budget does not stop a definition that loops
  // ---------------------------------------------------------------------------

  const LOOP_A := Step("a", None, Some("b"), Some("e"), CreateTask)
  const LOOP_B := Plain("b", CreateTask, Some("a"))
  const LOOP_E := Plain("e", End, None)

  /** Two tasks that continue to each other; the end step is the first one's error route. */
  function LoopingDefinition(): Definition { Three(LOOP_A, LOOP_B, LOOP_E) }

  lemma LoopingAccepted()
    ensures Accepted(LoopingDefinition())
  {
    assert Targets(LOOP_A) == [Some("b"), Some("e")];
    assert Targets(LOOP_B) == [Some("a"), None];
    assert Targets(LOOP_E) == [None, None];
    AcceptThree(LOOP_A, LOOP_B, LOOP_E);
  }

  lemma LoopingSteps()
    ensures ByKey(LoopingDefinition().steps) == map["a" := LOOP_A, "b" := LOOP_B, "e" := LOOP_E]
  {
    ThreeByKey(LOOP_A, LOOP_B, LOOP_E);
  }

  /** Once both tasks have succeeded, the loop goes round without spending budget. */
  lemma {:induction false} Spins(w: World, c: Config, n: nat)
    requires c.current in {Some("a"), Some("b")} && c.executed < 50
    requires Prior(c.run.ledger, "a").Some? && Prior(c.run.ledger, "b").Some?
    ensures Turns(LoopingDefinition(), w, c, n).None?
    decreases n
  {
    LoopingSteps();
    if n > 0 { Spins(w, Turn(LoopingDefinition(), w, c).config, n - 1); }
  }

  /** A task that succeeds is recorded and the loop moves on to its `next`. */
  lemma TaskTurn(w: World, c: Config, step: Step)
    requires step == LOOP_A || step == LOOP_B
    requires Looping(LoopingDefinition(), c) && c.current == Some(step.key)
    requires c.run.dryRun || forall key, context, n :: w.act(key, context, n).Done?
    requires forall r :: r in c.run.ledger ==> r.key != step.key
    ensures Turn(LoopingDefinition(), w, c).Continue?
    ensures var next := Turn(LoopingDefinition(), w, c).config;
      && next.current == step.next && next.executed == c.executed + 1 && next.run.dryRun == c.run.dryRun
      && (forall key :: Prior(next.run.ledger, key).Some? <==> Prior(c.run.ledger, key).Some? || key == step.key)
      && forall r :: r in next.run.ledger ==> r in c.run.ledger || r.key == step.key
  {
    LoopingSteps();
    PriorMeaning(c.run.ledger, step.key);
    var e := Execute(w, step, c.context, c.executed, c.run.dryRun);
    assert Turn(LoopingDefinition(), w, c) == Succeed(step, c, e);
    forall key { PriorRecord(c.run.ledger, Row(step.key, c.executed, Succeeded, e.output), key); }
  }

  /**
   * The documentation says the step budget stops a definition that loops. The
   * very first call on this accepted one never returns, in any world when it
   * is a dry run, and live whenever its tasks can be created.
   */
  lemma LoopNeverReturns(w: World, seed: Context, dryRun: bool, result: CallResult)
    requires dryRun || forall key, context, n :: w.act(key, context, n).Done?
    ensures Accepted(LoopingDefinition())
    ensures !Advances(LoopingDefinition(), w, Begin(LoopingDefinition(), seed, dryRun), result)
  {
    var def := LoopingDefinition();
    LoopingAccepted();
    var c := Entry(def, Begin(def, seed, dryRun));
    TaskTurn(w, c, LOOP_A);
    var c1 := Turn(def, w, c).config;
    TaskTurn(w, c1, LOOP_B);
    var c2 := Turn(def, w, c1).config;
    forall n: nat ensures Turns(def, w, c2, n).None? { Spins(w, c2, n); }
    NeverEither(def, w, c1, c2);
    NeverEither(def, w, c, c1);
  }

  /** A loop that goes on to one that never returns never returns. */
  lemma NeverEither(def: Definition, w: World, c: Config, next: Config)
    requires Looping(def, c) && Turn(def, w, c) == Continue(next) && Never(def, w, next)
    ensures Never(def, w, c)
  {
    forall n: nat ensures Turns(def, w, c, n).None? {
      if n > 0 { assert Turns(def, w, next, n - 1).None?; }
    }
  }

  // ---------------------------------------------------------------------------
  // 2. A branch with nowhere to go: the same message is sent again
  // ---------------------------------------------------------------------------

  const SEND := Step("s", Some(Condition("branched")), Some("b"), None, SendCommunication)
  const DEAD_END := Step("b", None, None, None, Branch([Arm(Condition("never"), "d")], None))
  const DONE := Plain("d", End, None)

  function ResendDefinition(): Definition { Three(SEND, DEAD_END, DONE) }

  function ResendWorld(): World {
    World((c: Condition, context: Context) => if c.text == "branched" && "b" in context then Holds else Fails,
          (path: string, context: Context) => None,
          (key: string, context: Context, n: nat) => Done("sent"), (capability: string) => true, (n: nat) => true, true, 0)
  }

  function ResendRow(): seq<Row> { [Row("s", 0, Skipped, "null"), Row("b", 1, Succeeded, "default")] }

  /** The state after the first call, and after `n` more: nothing but context and history has moved. */
  predicate ResendState(run: Run, sent: nat) {
    && run.status == Running && run.current == None && !run.dryRun && run.ledger == ResendRow()
    && "b" in run.context && Successes(run.log, "s") == sent
  }

  lemma ResendAccepted()
    ensures Accepted(ResendDefinition())
  {
    assert ArmTargets(DEAD_END.kind.arms) == [Some("d")];
    assert Targets(SEND) == [Some("b"), None];
    assert Targets(DEAD_END) == [None, None, Some("d"), None];
    assert Targets(DONE) == [None, None];
    AcceptThree(SEND, DEAD_END, DONE);
  }

  lemma ResendAcyclic()
    ensures Acyclic(ResendDefinition())
  {
    var rank := map["s" := 2, "b" := 1, "d" := 0];
    ThreeByKey(SEND, DEAD_END, DONE);
    assert ArmTargets(DEAD_END.kind.arms) == [Some("d")];
    assert Targets(SEND) == [Some("b"), None];
    assert Targets(DEAD_END) == [None, None, Some("d"), None];
    assert Targets(DONE) == [None, None];
    assert Ranks(ResendDefinition(), rank);
  }

  lemma Unfold2(def: Definition, w: World, c0: Config, c1: Config, c2: Config)
    requires Looping(def, c0) && Turn(def, w, c0) == Continue(c1)
    requires Looping(def, c1) && Turn(def, w, c1) == Continue(c2)
    requires !Looping(def, c2)
    ensures Turns(def, w, c0, 2) == Some(AfterLoop(def, c2))
  {
    assert Turns(def, w, c2, 0) == Some(AfterLoop(def, c2));
    assert Turns(def, w, c1, 1) == Turns(def, w, c2, 0);
  }

  lemma ResendBypassed(c0: Config) returns (c1: Config)
    requires c0 == Entry(ResendDefinition(), Begin(ResendDefinition(), map[], false))
    ensures Turn(ResendDefinition(), ResendWorld(), c0) == Continue(c1) && c1.current == Some("b") && c1.executed == 1
    ensures c1.run == c0.run.(ledger := [Row("s", 0, Skipped, "null")], log := [Moved("s", ByWhen, Some("b"))])
  {
    ThreeByKey(SEND, DEAD_END, DONE);
    PassesBy(ResendDefinition(), ResendWorld(), SEND, c0);
    c1 := Turn(ResendDefinition(), ResendWorld(), c0).config;
  }

  lemma ResendRunsOff(c1: Config) returns (c2: Config)
    requires c1.current == Some("b") && c1.executed == 1 && !c1.run.dryRun
    requires c1.run.ledger == [Row("s", 0, Skipped, "null")] && c1.run.status == Running
    ensures Turn(ResendDefinition(), ResendWorld(), c1) == Continue(c2)
    ensures c2.current == None && c2.executed == 2 && c2.run.status == Running && c2.run.current == None && !c2.run.dryRun
    ensures c2.run.ledger == ResendRow() && "b" in c2.run.context
    ensures c2.run.log == c1.run.log + [Ran("b", true, true), Moved("b", ByBranch, None)]
  {
    var e := Success("default", NoWait, Some(None), None);
    ThreeByKey(SEND, DEAD_END, DONE);
    BranchFallsThrough(c1.context, 1);
    RunsAndSucceeds(ResendDefinition(), ResendWorld(), DEAD_END, c1, e);
    c2 := Succeed(DEAD_END, c1, e).config;
  }

  lemma ResendFirst(run: Run) returns (after: Run)
    requires run == Begin(ResendDefinition(), map[], false)
    ensures Steps(ResendDefinition(), Advance(ResendWorld()), run, after) && ResendState(after, 0)
  {
    var def, w := ResendDefinition(), ResendWorld();
    var c0 := Entry(def, run);
    var c1 := ResendBypassed(c0);
    var c2 := ResendRunsOff(c1);
    Unfold2(def, w, c0, c1, c2);
    after := c2.run;
    assert after.log == [Moved("s", ByWhen, Some("b")), Ran("b", true, true), Moved("b", ByBranch, None)];
    CountAbsent(after.log, Ran("s", true, true));
    CountAbsent(after.log, Ran("s", true, false));
    assert Advances(def, w, run, Returned(after, Outcome(Completed, 2, None, None, None)));
  }

  function ResendEvents(): seq<Event> {
    [Ran("s", true, false), Performed("s", MessageSent), Moved("s", ByNext, Some("b")),
     Ran("b", true, false), Moved("b", ByBranch, None)]
  }

  lemma {:induction false} CountUnique(before: seq<Event>, event: Event, after: seq<Event>)
    requires event !in before && event !in after
    ensures Count(before + [event] + after, event) == 1
  {
    CountAppend(before + [event], after, event);
    CountOne(before, event, event);
    CountAbsent(before, event);
    CountAbsent(after, event);
  }

  lemma ResendCounts(log: seq<Event>)
    ensures Successes(log + ResendEvents(), "s") == Successes(log, "s") + 1
    ensures Count(log + ResendEvents(), Performed("s", MessageSent)) == Count(log, Performed("s", MessageSent)) + 1
  {
    var events := ResendEvents();
    CountAppend(log, events, Ran("s", true, true));
    CountAppend(log, events, Ran("s", true, false));
    CountAppend(log, events, Performed("s", MessageSent));
    CountUnique([], events[0], events[1..]);
    assert events == [] + [events[0]] + events[1..];
    CountUnique(events[..1], events[1], events[2..]);
    assert events == events[..1] + [events[1]] + events[2..];
    CountAbsent(events, Ran("s", true, true));
  }

  lemma BranchFallsThrough(context: Context, n: nat)
    ensures Execute(ResendWorld(), DEAD_END, context, n, false) == Success("default", NoWait, Some(None), None)
  {
    assert TakeBranch(ResendWorld(), DEAD_END.kind.arms[1..], None, context) == Success("default", NoWait, Some(None), None);
  }

  lemma ResendTurn1(run: Run) returns (c1: Config)
    requires ResendState(run, Successes(run.log, "s"))
    ensures Turn(ResendDefinition(), ResendWorld(), Entry(ResendDefinition(), run)) == Continue(c1)
    ensures c1.current == Some("b") && c1.executed == 1 && "b" in c1.context && c1.context == c1.run.context
    ensures c1.run == run.(current := Some("b"), context := c1.context, log := run.log + ResendEvents()[..3])
  {
    var def, w := ResendDefinition(), ResendWorld();
    ThreeByKey(SEND, DEAD_END, DONE);
    var c0 := Entry(def, run);
    assert run.ledger[0] in run.ledger && Taken(run.ledger, "s", 0);
    PriorMeaning(run.ledger, "s");
    var e := Success("sent", NoWait, None, Some(MessageSent));
    RunsAndSucceeds(def, w, SEND, c0, e);
    c1 := ResendSent(c0, e);
  }

  /** The message goes out again; its row, already taken, does not change. */
  lemma ResendSent(c0: Config, e: Execution) returns (c1: Config)
    requires e == Success("sent", NoWait, None, Some(MessageSent))
    requires c0.executed == 0 && "b" in c0.context && Taken(c0.run.ledger, "s", 0)
    ensures Succeed(SEND, c0, e) == Continue(c1)
    ensures c1.current == Some("b") && c1.executed == 1 && "b" in c1.context && c1.context == c1.run.context
    ensures c1.run == c0.run.(current := Some("b"), context := c1.context, log := c0.run.log + ResendEvents()[..3])
  {
    c1 := Succeed(SEND, c0, e).config;
    assert c1.run.log == c0.run.log + ResendEvents()[..3];
  }

  lemma ResendTurn2(c1: Config, log: seq<Event>) returns (c2: Config)
    requires c1.current == Some("b") && c1.executed == 1 && "b" in c1.context && c1.context == c1.run.context
    requires c1.run.ledger == ResendRow() && !c1.run.dryRun && c1.run.log == log + ResendEvents()[..3]
    ensures Looping(ResendDefinition(), c1) && Turn(ResendDefinition(), ResendWorld(), c1) == Continue(c2)
    ensures c2.current == None && c2.executed == 2 && "b" in c2.run.context
    ensures c2.run == c1.run.(current := None, context := c2.run.context, log := log + ResendEvents())
  {
    var def, w := ResendDefinition(), ResendWorld();
    ThreeByKey(SEND, DEAD_END, DONE);
    BranchFallsThrough(c1.context, 1);
    RunsAndSucceeds(def, w, DEAD_END, c1, Success("default", NoWait, Some(None), None));
    assert c1.run.ledger[1] in c1.run.ledger;
    c2 := Turn(def, w, c1).config;
    assert c2.run.log == log + ResendEvents();
  }

  /** Every later call sends the message once more. */
  lemma ResendAgain(run: Run, sent: nat) returns (after: Run)
    requires ResendState(run, sent)
    ensures Steps(ResendDefinition(), Advance(ResendWorld()), run, after) && ResendState(after, sent + 1)
    ensures Count(after.log, Performed("s", MessageSent)) == Count(run.log, Performed("s", MessageSent)) + 1
  {
    var def, w := ResendDefinition(), ResendWorld();
    var c1 := ResendTurn1(run);
    var c2 := ResendTurn2(c1, run.log);
    Unfold2(def, w, Entry(def, run), c1, c2);
    after := c2.run;
    ResendCounts(run.log);
    assert Advances(def, w, run, Returned(after, Outcome(Completed, 2, None, None, None)));
  }

  lemma ResendHypotheses()
    ensures Accepted(ResendDefinition()) && Acyclic(ResendDefinition()) && !NeverRunsOff(ResendDefinition())
  {
    ResendAccepted();
    ResendAcyclic();
    ThreeByKey(SEND, DEAD_END, DONE);
    assert "b" in ByKey(ResendDefinition().steps) && !Continues(DEAD_END);
  }

  lemma {:induction false} ResendHistory(n: nat) returns (calls: seq<Call>, runs: seq<Run>)
    ensures IsHistory(ResendDefinition(), calls, runs) && |calls| == n + 1
    ensures ResendState(runs[n + 1], n)
  {
    if n == 0 {
      calls, runs := ResendStart();
    } else {
      calls, runs := ResendHistory(n - 1);
      calls, runs := ResendNext(calls, runs, n - 1);
    }
  }

  /**
   * Accepted and acyclic, but its branch has no default: after `n + 1` calls
   * the step that sends the message has succeeded `n` times, for every `n`.
   */
  lemma ResendsForever(n: nat) returns (calls: seq<Call>, runs: seq<Run>)
    ensures Accepted(ResendDefinition()) && Acyclic(ResendDefinition()) && !NeverRunsOff(ResendDefinition())
    ensures IsHistory(ResendDefinition(), calls, runs) && |calls| == n + 1
    ensures ResendState(runs[n + 1], n)
  {
    ResendHypotheses();
    calls, runs := ResendHistory(n);
  }

  lemma ResendStart() returns (calls: seq<Call>, runs: seq<Run>)
    ensures IsHistory(ResendDefinition(), calls, runs) && |calls| == 1 && ResendState(runs[1], 0)
  {
    var run := Begin(ResendDefinition(), map[], false);
    var after := ResendFirst(run);
    var none: seq<Call> := [];
    Extend(ResendDefinition(), none, [run], Advance(ResendWorld()), after);
    calls, runs := none + [Advance(ResendWorld())], [run] + [after];
  }

  lemma ResendNext(calls: seq<Call>, runs: seq<Run>, n: nat) returns (calls': seq<Call>, runs': seq<Run>)
    requires IsHistory(ResendDefinition(), calls, runs) && |calls| == n + 1 && ResendState(runs[n + 1], n)
    ensures IsHistory(ResendDefinition(), calls', runs') && |calls'| == n + 2 && ResendState(runs'[n + 2], n + 1)
  {
    var after := ResendAgain(runs[n + 1], n);
    Extend(ResendDefinition(), calls, runs, Advance(ResendWorld()), after);
    calls', runs' := calls + [Advance(ResendWorld())], runs + [after];
  }

  // ---------------------------------------------------------------------------
  // 3. An end step with a condition: an approved run that can never move again
  // ---------------------------------------------------------------------------

  const NOTIFY := Step("t", None, Some("s"), Some("s"), SendCommunication)
  const SIGN := Step("s", Some(Condition("notified")), Some("e"), None, Approval(None))
  const CLOSE := Step("e", Some(Condition("notified")), None, None, End)

  function StuckDefinition(): Definition { Three(NOTIFY, SIGN, CLOSE) }

  /** Conditions depend on the context alone; only the message provider changes between calls. */
  function StuckWorld(down: bool): World {
    World((c: Condition, context: Context) => if "t" in context then Holds else Fails,
          (path: string, context: Context) => None,
          (key: string, context: Context, n: nat) => if key == "t" && down then Errored("down") else Done("ok"),
          (capability: string) => true, (n: nat) => true, true, 0)
  }

  lemma StuckAccepted()
    ensures Accepted(StuckDefinition())
  {
    AcceptThree(NOTIFY, SIGN, CLOSE);
  }

  lemma StuckAcyclic()
    ensures Acyclic(StuckDefinition())
  {
    ThreeByKey(NOTIFY, SIGN, CLOSE);
    assert Targets(NOTIFY) == [Some("s"), Some("s")];
    assert Targets(SIGN) == [Some("e"), None, None];
    assert Targets(CLOSE) == [None, None];
    assert Ranks(StuckDefinition(), map["t" := 2, "s" := 1, "e" := 0]);
  }

  lemma StuckHypotheses()
    ensures Accepted(StuckDefinition()) && Acyclic(StuckDefinition()) && !NeverRunsOff(StuckDefinition())
  {
    StuckAccepted();
    StuckAcyclic();
    ThreeByKey(NOTIFY, SIGN, CLOSE);
    assert "e" in ByKey(StuckDefinition().steps) && !Continues(CLOSE);
  }

  function StuckLedger(): seq<Row> {
    [Row("t", 0, StepFailed, "null"), Row("s", 1, Skipped, "null"), Row("e", 2, Skipped, "null")]
  }

  /** Where the first call is before its n-th turn. */
  predicate StuckAt(c: Config, n: nat, key: Target) {
    && n <= 3 && c.current == key && c.executed == n && c.context == map[]
    && c.run.status == Running && c.run.current == Some("t") && !c.run.dryRun
    && c.run.approvals == map[] && c.run.context == map[] && c.run.ledger == StuckLedger()[..n]
  }

  /** The provider is down: the message step fails and hands over to the approval step. */
  lemma StuckTurn1(c0: Config) returns (c1: Config)
    requires StuckAt(c0, 0, Some("t"))
    ensures Turn(StuckDefinition(), StuckWorld(true), c0) == Continue(c1) && StuckAt(c1, 1, Some("s"))
  {
    ThreeByKey(NOTIFY, SIGN, CLOSE);
    RunsAndFails(StuckDefinition(), StuckWorld(true), NOTIFY, c0, "down");
    c1 := Failed(NOTIFY, c0, "down").config;
    assert c1.run.ledger == c0.run.ledger + [Row("t", 0, StepFailed, "null")];
  }

  /** Which is passed by, its condition not holding. */
  lemma StuckTurn2(c1: Config) returns (c2: Config)
    requires StuckAt(c1, 1, Some("s"))
    ensures Turn(StuckDefinition(), StuckWorld(true), c1) == Continue(c2) && StuckAt(c2, 2, Some("e"))
  {
    ThreeByKey(NOTIFY, SIGN, CLOSE);
    PriorMeaning(c1.run.ledger, "s");
    PassesBy(StuckDefinition(), StuckWorld(true), SIGN, c1);
    c2 := Bypass(SIGN, c1).config;
    assert c2.run.ledger == c1.run.ledger + [Row("s", 1, Skipped, "null")];
  }

  /** And so is the end step, which leaves nowhere to go. */
  lemma StuckTurn3(c2: Config) returns (c3: Config)
    requires StuckAt(c2, 2, Some("e"))
    ensures Turn(StuckDefinition(), StuckWorld(true), c2) == Continue(c3) && StuckAt(c3, 3, None)
  {
    ThreeByKey(NOTIFY, SIGN, CLOSE);
    PriorMeaning(c2.run.ledger, "e");
    PassesBy(StuckDefinition(), StuckWorld(true), CLOSE, c2);
    c3 := Bypass(CLOSE, c2).config;
    assert c3.run.ledger == c2.run.ledger + [Row("e", 2, Skipped, "null")];
  }

  lemma StuckFirst(run: Run) returns (after: Run)
    requires run == Begin(StuckDefinition(), map[], false)
    ensures Steps(StuckDefinition(), Advance(StuckWorld(true)), run, after)
    ensures after.status == Running && after.current == Some("t") && after.ledger == StuckLedger()
    ensures !after.dryRun && after.approvals == map[] && after.context == map[]
  {
    var def, w, c0 := StuckDefinition(), StuckWorld(true), Entry(StuckDefinition(), run);
    assert StuckAt(c0, 0, Some("t"));
    var c1 := StuckTurn1(c0);
    var c2 := StuckTurn2(c1);
    var c3 := StuckTurn3(c2);
    after := c3.run;
    Unfold2(def, w, c1, c2, c3);
    assert Turns(def, w, c0, 3) == Turns(def, w, c1, 2);
    assert Advances(def, w, run, Returned(after, Outcome(Completed, 3, None, None, None)));
  }

  lemma StuckNotify(c0: Config) returns (c1: Config)
    requires c0.current == Some("t") && c0.executed == 0
    requires c0.run.ledger == StuckLedger() && !c0.run.dryRun && c0.run.approvals == map[]
    ensures Turn(StuckDefinition(), StuckWorld(false), c0) == Continue(c1)
    ensures c1.current == Some("s") && c1.executed == 1 && "t" in c1.context
    ensures c1.run.ledger == StuckLedger() && !c1.run.dryRun && c1.run.approvals == map[]
  {
    var def, w := StuckDefinition(), StuckWorld(false);
    ThreeByKey(NOTIFY, SIGN, CLOSE);
    assert c0.run.ledger[0] in c0.run.ledger;
    PriorMeaning(c0.run.ledger, "t");
    RunsAndSucceeds(def, w, NOTIFY, c0, Success("ok", NoWait, None, Some(MessageSent)));
    c1 := Turn(def, w, c0).config;
  }

  lemma StuckAsk(c1: Config) returns (after: Run, outcome: Outcome)
    requires c1.current == Some("s") && c1.executed == 1 && "t" in c1.context
    requires c1.run.ledger == StuckLedger() && !c1.run.dryRun && c1.run.approvals == map[]
    ensures Turn(StuckDefinition(), StuckWorld(false), c1) == Stop(after, outcome)
    ensures after.status == AwaitingApproval && after.current == Some("s") && after.ledger == StuckLedger()
    ensures !after.dryRun && after.approvals == map["s" := Pending] && "t" in after.context
    ensures Performed("s", ApprovalRequested) in after.log
  {
    var def, w := StuckDefinition(), StuckWorld(false);
    ThreeByKey(NOTIFY, SIGN, CLOSE);
    assert c1.run.ledger[1] in c1.run.ledger;
    PriorMeaning(c1.run.ledger, "s");
    RunsAndSucceeds(def, w, SIGN, c1, Success("ok", UntilApproval, None, Some(ApprovalRequested)));
    after, outcome := Turn(def, w, c1).run, Turn(def, w, c1).outcome;
    assert after.log[|c1.run.log| + 1] == Performed("s", ApprovalRequested);
  }

  /** Second call: the message goes out and the approval is requested, but neither row is kept. */
  lemma StuckSecond(run: Run) returns (after: Run)
    requires run.status == Running && run.current == Some("t") && run.ledger == StuckLedger()
    requires !run.dryRun && run.approvals == map[]
    ensures Steps(StuckDefinition(), Advance(StuckWorld(false)), run, after)
    ensures after.status == AwaitingApproval && after.current == Some("s") && after.ledger == StuckLedger()
    ensures !after.dryRun && after.approvals == map["s" := Pending] && "t" in after.context
    ensures Performed("s", ApprovalRequested) in after.log
  {
    var def, w := StuckDefinition(), StuckWorld(false);
    var c0, outcome := Entry(def, run), Report(run);
    var c1 := StuckNotify(c0);
    after, outcome := StuckAsk(c1);
    assert Turns(def, w, c1, 0) == Some(Returned(after, outcome));
    assert Turns(def, w, c0, 1) == Turns(def, w, c1, 0);
    assert Advances(def, w, run, Returned(after, outcome));
  }

  lemma StuckAskAgain(c0: Config) returns (after: Run, outcome: Outcome)
    requires c0.current == Some("s") && c0.run.ledger == StuckLedger() && !c0.run.dryRun && "t" in c0.context
    requires c0.run.approvals == map["s" := Approved]
    ensures Turn(StuckDefinition(), StuckWorld(false), c0) == Stop(after, outcome)
    ensures after.status == AwaitingApproval && after.approvals == map["s" := Approved]
  {
    var e := Success("ok", UntilApproval, None, Some(ApprovalRequested));
    ThreeByKey(NOTIFY, SIGN, CLOSE);
    PriorMeaning(c0.run.ledger, "s");
    RunsAndSucceeds(StuckDefinition(), StuckWorld(false), SIGN, c0, e);
    after, outcome := Succeed(SIGN, c0, e).run, Succeed(SIGN, c0, e).outcome;
  }

  /** After the approval, the step is run again and waits for an approval that is already decided. */
  lemma StuckLast(run: Run) returns (after: Run)
    requires run.status == Running && run.current == Some("s") && run.ledger == StuckLedger()
    requires !run.dryRun && run.approvals == map["s" := Approved] && "t" in run.context
    ensures Steps(StuckDefinition(), Advance(StuckWorld(false)), run, after)
    ensures after.status == AwaitingApproval && after.approvals == map["s" := Approved]
  {
    var def, w := StuckDefinition(), StuckWorld(false);
    var c0, outcome := Entry(def, run), Report(run);
    after, outcome := StuckAskAgain(c0);
    assert Turns(def, w, c0, 0) == Some(Returned(after, outcome));
    assert Advances(def, w, run, Returned(after, outcome));
  }

  lemma StuckHistory() returns (calls: seq<Call>, runs: seq<Run>)
    ensures IsHistory(StuckDefinition(), calls, runs) && |calls| == 4
    ensures calls[2] == DecideCall("s", true, true, true)
    ensures runs[4].approvals == map["s" := Approved] && runs[4].status == AwaitingApproval
  {
    var def := StuckDefinition();
    var up, down := Advance(StuckWorld(false)), Advance(StuckWorld(true));
    var call := DecideCall("s", true, true, true);
    var run0 := Begin(def, map[], false);
    var run1 := StuckFirst(run0);
    var run2 := StuckSecond(run1);
    var run3 := Decide(run2, "s", true, true, true).value;
    var run4 := StuckLast(run3);
    calls, runs := [down, up, call, up], [run0, run1, run2, run3, run4];
    FourCalls(def, calls, runs);
  }

  /**
   * Accepted and acyclic, but its end step carries a condition: four calls,
   * the third of them a person approving, leave the run awaiting an approval
   * that is approved, and no call can ever move it again.
   */
  lemma ApprovedRunStuck() returns (calls: seq<Call>, runs: seq<Run>)
    ensures Accepted(StuckDefinition()) && Acyclic(StuckDefinition()) && !NeverRunsOff(StuckDefinition())
    ensures IsHistory(StuckDefinition(), calls, runs) && |calls| == 4
    ensures calls[2] == DecideCall("s", true, true, true)
    ensures runs[4].approvals == map["s" := Approved] && runs[4].status == AwaitingApproval
    ensures forall call, after :: Steps(StuckDefinition(), call, runs[4], after) ==> after == runs[4]
  {
    StuckHypotheses();
    calls, runs := StuckHistory();
  }

  // ---------------------------------------------------------------------------
  // 4. A cycle that never runs off: an approval is asked for twice
  // ---------------------------------------------------------------------------

  const ASK := Step("s", None, Some("w"), Some("w"), Approval(Some("e")))
  const PAUSE := Step("w", None, Some("s"), None, Delay(Some(1), None))
  const LEAVE := Plain("e", End, None)

  function CycleDefinition(): Definition { Three(ASK, PAUSE, LEAVE) }

  function CycleWorld(down: bool): World {
    World((c: Condition, context: Context) => Holds, (path: string, context: Context) => None,
          (key: string, context: Context, n: nat) => if down then ActResult.Errored("down") else Done("ok"),
          (capability: string) => true, (n: nat) => true, true, if down then 0 else 1)
  }

  lemma CycleHypotheses()
    ensures Accepted(CycleDefinition()) && NeverRunsOff(CycleDefinition()) && !Acyclic(CycleDefinition())
  {
    assert Targets(ASK) == [Some("w"), Some("w"), Some("e")];
    assert Targets(PAUSE) == [Some("s"), None];
    assert Targets(LEAVE) == [None, None];
    AcceptThree(ASK, PAUSE, LEAVE);
    ThreeByKey(ASK, PAUSE, LEAVE);
    var def := CycleDefinition();
    forall k | k in ByKey(def.steps) ensures Continues(ByKey(def.steps)[k]) {}
    assert Edge(def, "s", "w") && Edge(def, "w", "s");
  }

  function CycleLedger(): seq<Row> { [Row("s", 0, StepFailed, "null"), Row("w", 1, Succeeded, "resume")] }

  lemma CycleAskFails(c0: Config) returns (c1: Config)
    requires c0.current == Some("s") && c0.executed == 0 && c0.run.status == Running && !c0.run.dryRun
    requires c0.run.ledger == [] && c0.run.log == [] && c0.run.approvals == map[]
    ensures Turn(CycleDefinition(), CycleWorld(true), c0) == Continue(c1)
    ensures c1.current == Some("w") && c1.executed == 1 && !c1.run.dryRun
    ensures c1.run.ledger == CycleLedger()[..1] && c1.run.approvals == map[]
    ensures c1.run.log == [Ran("s", false, true), Moved("s", ByError, Some("w"))]
  {
    ThreeByKey(ASK, PAUSE, LEAVE);
    RunsAndFails(CycleDefinition(), CycleWorld(true), ASK, c0, "down");
    c1 := Failed(ASK, c0, "down").config;
  }

  lemma CyclePauses(c: Config) returns (after: Run, outcome: Outcome)
    requires c.current == Some("w") && c.executed == 1 && !c.run.dryRun
    requires c.run.ledger == CycleLedger()[..1] && c.run.approvals == map[]
    ensures Turn(CycleDefinition(), CycleWorld(true), c) == Stop(after, outcome)
    ensures after.status == Waiting && after.current == Some("w") && after.resumeAt == Some(1) && !after.dryRun
    ensures after.ledger == CycleLedger() && after.approvals == map[] && after.log == c.run.log + [Ran("w", true, true)]
  {
    ThreeByKey(ASK, PAUSE, LEAVE);
    PriorMeaning(c.run.ledger, "w");
    var e := Success("resume", UntilTime(1), None, None);
    RunsAndSucceeds(CycleDefinition(), CycleWorld(true), PAUSE, c, e);
    after, outcome := Succeed(PAUSE, c, e).run, Succeed(PAUSE, c, e).outcome;
    assert after.ledger == CycleLedger();
  }

  /** First call: the request fails, and the run sleeps. */
  lemma CycleFails(run: Run) returns (after: Run)
    requires run == Begin(CycleDefinition(), map[], false)
    ensures Steps(CycleDefinition(), Advance(CycleWorld(true)), run, after)
    ensures after.status == Waiting && after.current == Some("w") && after.resumeAt == Some(1) && !after.dryRun
    ensures after.ledger == CycleLedger() && after.approvals == map[] && Successes(after.log, "s") == 0
  {
    var def, w := CycleDefinition(), CycleWorld(true);
    var c0, outcome := Entry(def, run), Report(run);
    var c1 := CycleAskFails(c0);
    after, outcome := CyclePauses(c1);
    assert after.log == [Ran("s", false, true), Moved("s", ByError, Some("w")), Ran("w", true, true)];
    CountAbsent(after.log, Ran("s", true, true));
    CountAbsent(after.log, Ran("s", true, false));
    TwoTurns(def, w, run, c0, c1, after, outcome);
  }

  /** A call of two turns. */
  lemma TwoTurns(def: Definition, w: World, run: Run, c0: Config, c1: Config, after: Run, outcome: Outcome)
    requires !Idle(run, w.now) && c0 == Entry(def, run) && Looping(def, c0) && Turn(def, w, c0) == Continue(c1)
    requires Looping(def, c1) && Turn(def, w, c1) == Stop(after, outcome)
    ensures Steps(def, Advance(w), run, after)
  {
    assert Turns(def, w, c1, 0) == Some(Returned(after, outcome));
    assert Turns(def, w, c0, 1) == Turns(def, w, c1, 0);
    assert Advances(def, w, run, Returned(after, outcome));
  }

  /** Asking in a slot that is taken: the success is not recorded. */
  lemma CycleAsks(c: Config) returns (after: Run, outcome: Outcome)
    requires c.current == Some("s") && c.executed == 0 && c.run.ledger == CycleLedger() && !c.run.dryRun
    ensures Turn(CycleDefinition(), CycleWorld(false), c) == Stop(after, outcome)
    ensures after.status == AwaitingApproval && after.current == Some("s") && !after.dryRun
    ensures after.ledger == CycleLedger() && Successes(after.log, "s") == Successes(c.run.log, "s") + 1
    ensures after.approvals == if "s" in c.run.approvals then c.run.approvals else c.run.approvals["s" := Pending]
  {
    var e := Success("ok", UntilApproval, None, Some(ApprovalRequested));
    CycleAskRuns(c, e);
    assert c.run.ledger[0] in c.run.ledger && Taken(c.run.ledger, "s", 0);
    after, outcome := Succeed(ASK, c, e).run, Succeed(ASK, c, e).outcome;
    SuccessCounts(ASK, c, e, "s");
  }

  lemma CycleAskRuns(c: Config, e: Execution)
    requires c.current == Some("s") && c.run.ledger == CycleLedger() && !c.run.dryRun
    requires e == Success("ok", UntilApproval, None, Some(ApprovalRequested))
    ensures Turn(CycleDefinition(), CycleWorld(false), c) == Succeed(ASK, c, e)
  {
    ThreeByKey(ASK, PAUSE, LEAVE);
    PriorMeaning(c.run.ledger, "s");
    RunsAndSucceeds(CycleDefinition(), CycleWorld(false), ASK, c, e);
  }

  lemma CycleWokenMoves(c0: Config) returns (c1: Config)
    requires c0.current == Some("w") && c0.executed == 0 && !c0.run.dryRun
    requires c0.run.ledger == CycleLedger() && c0.run.approvals == map[]
    ensures Turn(CycleDefinition(), CycleWorld(false), c0) == Continue(c1)
    ensures c1.current == Some("s") && c1.executed == 0 && !c1.run.dryRun
    ensures c1.run.ledger == CycleLedger() && c1.run.approvals == map[]
    ensures c1.run.log == c0.run.log + [Moved("w", ByNext, Some("s"))]
  {
    ThreeByKey(ASK, PAUSE, LEAVE);
    PriorMeaning(c0.run.ledger, "w");
    assert c0.run.ledger[1] in c0.run.ledger;
    c1 := Turn(CycleDefinition(), CycleWorld(false), c0).config;
  }

  lemma CycleWakes(run: Run) returns (after: Run)
    requires run.status == Waiting && run.current == Some("w") && run.resumeAt == Some(1) && !run.dryRun
    requires run.ledger == CycleLedger() && run.approvals == map[]
    ensures Steps(CycleDefinition(), Advance(CycleWorld(false)), run, after)
    ensures after.status == AwaitingApproval && after.current == Some("s") && !after.dryRun
    ensures after.ledger == CycleLedger() && after.approvals == map["s" := Pending]
    ensures Successes(after.log, "s") == Successes(run.log, "s") + 1
  {
    var def, w := CycleDefinition(), CycleWorld(false);
    var c0, outcome := Entry(def, run), Report(run);
    var c1 := CycleWokenMoves(c0);
    SuccessesAppend(run.log, Moved("w", ByNext, Some("s")), "s");
    after, outcome := CycleAsks(c1);
    TwoTurns(def, w, run, c0, c1, after, outcome);
  }

  lemma CycleAsksAgain(run: Run) returns (after: Run)
    requires run.status == Running && run.current == Some("s") && !run.dryRun
    requires run.ledger == CycleLedger() && run.approvals == map["s" := Approved]
    ensures Steps(CycleDefinition(), Advance(CycleWorld(false)), run, after)
    ensures after.status == AwaitingApproval && after.approvals == map["s" := Approved]
    ensures Successes(after.log, "s") == Successes(run.log, "s") + 1
  {
    var def, w := CycleDefinition(), CycleWorld(false);
    var c0, outcome := Entry(def, run), Report(run);
    after, outcome := CycleAsks(c0);
    assert Turns(def, w, c0, 0) == Some(Returned(after, outcome));
    assert Advances(def, w, run, Returned(after, outcome));
  }

  /**
   * Accepted, and always saying where to go next, but with a cycle: after four calls the approval step has
   * succeeded twice, and the run awaits an approval that has been given.
   */
  lemma CycleAsksTwice() returns (calls: seq<Call>, runs: seq<Run>)
    ensures Accepted(CycleDefinition()) && NeverRunsOff(CycleDefinition()) && !Acyclic(CycleDefinition())
    ensures IsHistory(CycleDefinition(), calls, runs) && |calls| == 4 && calls[2] == DecideCall("s", true, true, true)
    ensures Successes(runs[4].log, "s") == 2
    ensures runs[4].status == AwaitingApproval && runs[4].approvals == map["s" := Approved]
  {
    CycleHypotheses();
    calls, runs := CycleHistory();
  }

  lemma CycleHistory() returns (calls: seq<Call>, runs: seq<Run>)
    ensures IsHistory(CycleDefinition(), calls, runs) && |calls| == 4 && calls[2] == DecideCall("s", true, true, true)
    ensures Successes(runs[4].log, "s") == 2
    ensures runs[4].status == AwaitingApproval && runs[4].approvals == map["s" := Approved]
  {
    var def := CycleDefinition();
    var up, down, call := Advance(CycleWorld(false)), Advance(CycleWorld(true)), DecideCall("s", true, true, true);
    var run0 := Begin(def, map[], false);
    var run1 := CycleFails(run0);
    var run2 := CycleWakes(run1);
    var run3 := Decide(run2, "s", true, true, true).value;
    SuccessesAppend(run2.log, Decided("s", Approved), "s");
    var run4 := CycleAsksAgain(run3);
    calls, runs := [down, up, call, up], [run0, run1, run2, run3, run4];
    FourCalls(def, calls, runs);
  }

  // ---------------------------------------------------------------------------
  // 5. A ring that no run reaches, because one question cannot have two answers
  // ---------------------------------------------------------------------------

  const ADMITTED := Condition("admitted")
  const SORT := Step("b", Some(ADMITTED), Some("e"), Some("e"), Branch([Arm(ADMITTED, "e")], Some("r")))
  const AGAIN := Plain("r", CreateTask, Some("r"))
  const FINISH := Plain("e", End, None)

  /** A branch that is admitted to by its own condition never takes its default, where the ring is. */
  function SharedDefinition(): Definition { Three(SORT, AGAIN, FINISH) }

  lemma SharedAccepted()
    ensures Accepted(SharedDefinition())
  {
    assert Targets(SORT) == [Some("e"), Some("e"), Some("e"), Some("r")];
    assert Targets(AGAIN) == [Some("r"), None];
    assert Targets(FINISH) == [None, None];
    AcceptThree(SORT, AGAIN, FINISH);
  }

  lemma SharedNotApart()
    ensures !Apart(SharedDefinition())
  {
    ThreeByKey(SORT, AGAIN, FINISH);
    assert SORT.when == Some(SORT.kind.arms[0].when);
    assert !AsksOnce(ByKey(SharedDefinition().steps)["b"]);
  }

  lemma SharedRing(dry: bool)
    ensures SkipRing(SharedDefinition(), dry)
  {
    var def := SharedDefinition();
    ThreeByKey(SORT, AGAIN, FINISH);
    var path := ["b", "r"];
    assert GoesOn(def, dry, "b", "r") && IsRoute(def, dry, path) && path[|path| - 1] == "r";
    assert PassesOn(def, dry, "r", "r") && IsRing(def, dry, ["r"]);
  }

  predicate AwayFromRing(run: Run) { run.current == Some("b") || run.current == Some("e") }

  predicate LoopAway(c: Config) { c.current in {Some("b"), Some("e"), None} && AwayFromRing(c.run) }

  lemma SharedSorts(w: World, c: Config)
    requires LoopAway(c) && c.current == Some("b")
    ensures Lands(Turn(SharedDefinition(), w, c), AwayFromRing, LoopAway)
    ensures var turned := Turn(SharedDefinition(), w, c); turned.Continue? ==> turned.config.current == Some("e")
  {
    ThreeByKey(SORT, AGAIN, FINISH);
    assert TakeBranch(w, SORT.kind.arms, SORT.kind.fallback, c.context) ==
      match w.holds(ADMITTED, c.context)
      case Holds => Success("e", NoWait, Some(Some("e")), None)
      case Fails => TakeBranch(w, SORT.kind.arms[1..], Some("r"), c.context)
      case Throws => Failure("condition");
  }

  lemma SharedTurn(w: World, c: Config)
    requires LoopAway(c) && Live(c.current)
    ensures Lands(Turn(SharedDefinition(), w, c), AwayFromRing, LoopAway)
    ensures var turned := Turn(SharedDefinition(), w, c); turned.Continue? ==>
      turned.config.current == if c.current == Some("b") then Some("e") else None
  {
    if c.current == Some("b") { SharedSorts(w, c); } else { ThreeByKey(SORT, AGAIN, FINISH); }
  }

  lemma SharedAway(calls: seq<Call>, runs: seq<Run>, i: nat)
    requires IsHistory(SharedDefinition(), calls, runs) && i < |runs|
    ensures AwayFromRing(runs[i])
  {
    forall w, c | LoopAway(c) && Looping(SharedDefinition(), c)
      ensures Lands(Turn(SharedDefinition(), w, c), AwayFromRing, LoopAway)
    {
      SharedTurn(w, c);
    }
    HistoryKeeps(SharedDefinition(), AwayFromRing, LoopAway, calls, runs, i);
  }

  lemma SharedLoopReturns(w: World, c: Config)
    requires LoopAway(c)
    ensures Turns(SharedDefinition(), w, c, 2).Some?
  {
    var def := SharedDefinition();
    if Looping(def, c) {
      SharedTurn(w, c);
      if Turn(def, w, c).Continue? {
        var next := Turn(def, w, c).config;
        if Looping(def, next) { SharedTurn(w, next); }
        assert Turns(def, w, next, 1).Some?;
      }
    }
  }

  /**
   * That no two questions are the same is needed: this accepted definition has a ring and budget enough, and
   * every call of every history comes back.
   */
  lemma SharedQuestionNeverHangs(dry: bool)
    ensures Accepted(SharedDefinition()) && SkipRing(SharedDefinition(), dry) && !Apart(SharedDefinition())
    ensures |SharedDefinition().steps| < SharedDefinition().maxSteps
    ensures !SomeCallHangs(SharedDefinition(), dry)
  {
    var def := SharedDefinition();
    SharedAccepted();
    SharedRing(dry);
    SharedNotApart();
    forall calls, runs, w | IsHistory(def, calls, runs) ensures ComesBack(def, w, runs[|calls|]) {
      var run := runs[|calls|];
      if Idle(run, w.now) {
        assert Advances(def, w, run, Returned(run, Report(run)));
      } else {
        SharedAway(calls, runs, |calls|);
        SharedLoopReturns(w, Entry(def, run));
        assert Returns(def, w, Entry(def, run), Turns(def, w, Entry(def, run), 2).value);
        assert Advances(def, w, run, Turns(def, w, Entry(def, run), 2).value);
      }
    }
  }
}
