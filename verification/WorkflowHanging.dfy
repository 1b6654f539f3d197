/** Definitions on which a call can fail to come back (packages/workflow/src/engine.ts). */
module WorkflowHanging {
  // The converse of WorkflowTermination: a ring of steps that can be passed over is reached by some history,
  // provided that on the way to it and around it no two steps ask the world the same question and that the
  // budget is large enough for both. The history walks once along the way and once around the ring; the next
  // call never returns.

  import opened Prelude
  import opened WorkflowSchema
  import opened WorkflowEngine
  import opened WorkflowSafety
  import opened WorkflowTermination

  // ---------------------------------------------------------------------------
  // What a step asks of the world
  // ---------------------------------------------------------------------------

  datatype Question = AboutCondition(c: Condition) | AboutCapability(capability: string) | AboutDate(field: string)

  function Asks(step: Step): set<Question> {
    (if step.when.Some? then {AboutCondition(step.when.value)} else {})
    + match step.kind
      case Branch(arms, _) => set a | a in arms :: AboutCondition(a.when)
      case AiCapability(capability) => {AboutCapability(capability)}
      case Delay(_, untilField) => if untilField.Some? then {AboutDate(untilField.value)} else {}
      case _ => {}
  }

  /** A branch asks each of its conditions once, and not the one that admits to it. */
  predicate AsksOnce(step: Step) {
    step.kind.Branch? ==>
      (forall i, j :: 0 <= i < j < |step.kind.arms| ==> step.kind.arms[i].when != step.kind.arms[j].when)
      && forall i :: 0 <= i < |step.kind.arms| ==> step.when != Some(step.kind.arms[i].when)
  }

  /** No two steps ask the same question. */
  predicate Apart(def: Definition) {
    var steps := ByKey(def.steps);
    (forall a, b :: a in steps && b in steps && a != b ==> Asks(steps[a]) !! Asks(steps[b]))
    && forall a :: a in steps ==> AsksOnce(steps[a])
  }

  /** No two of these steps do. */
  predicate ApartAlong(def: Definition, keys: seq<string>) {
    var steps := ByKey(def.steps);
    && (forall a, b :: a in keys && b in keys && a in steps && b in steps && a != b ==> Asks(steps[a]) !! Asks(steps[b]))
    && forall a :: a in keys && a in steps ==> AsksOnce(steps[a])
  }

  // ---------------------------------------------------------------------------
  // How a step is left for a target
  // ---------------------------------------------------------------------------

  datatype Manner = BySuccess | ByRejection | ByCondition | ByFailure | ByDefault | ByArm(i: nat)

  function FirstArm(arms: seq<Arm>, t: Target, from: nat := 0): (i: nat)
    requires from <= |arms|
    ensures from <= i <= |arms| && (i < |arms| ==> t == Some(arms[i].next))
    ensures forall k :: from <= k < i ==> t != Some(arms[k].next)
    decreases |arms| - from
  {
    if from == |arms| || t == Some(arms[from].next) then from else FirstArm(arms, t, from + 1)
  }

  function MannerOf(dry: bool, step: Step, t: Target): Manner {
    if Passable(dry, step) && t == step.next then BySuccess
    else if Passable(dry, step) && CanPassTo(dry, step, t) then ByRejection
    else if step.when.Some? && t == step.next then ByCondition
    else if CanFail(dry, step) && t == step.onError then ByFailure
    else if step.kind.Branch? && t == step.kind.fallback then ByDefault
    else if step.kind.Branch? then ByArm(FirstArm(step.kind.arms, t))
    else BySuccess
  }

  predicate Leaves(dry: bool, step: Step, m: Manner, t: Target) {
    match m
    case BySuccess => Passable(dry, step) && t == step.next
    case ByRejection => Passable(dry, step) && !dry && step.kind.Approval? && t == step.kind.onReject
    case ByCondition => step.when.Some? && t == step.next
    case ByFailure => CanFail(dry, step) && t == step.onError
    case ByDefault => step.kind.Branch? && t == step.kind.fallback
    case ByArm(i) => step.kind.Branch? && i < |step.kind.arms| && t == Some(step.kind.arms[i].next)
  }

  lemma MannerLeaves(dry: bool, step: Step, t: Target)
    requires CanGo(dry, step, t)
    ensures Leaves(dry, step, MannerOf(dry, step, t), t)
  {
    if step.kind.Branch? && (exists a :: a in step.kind.arms && t == Some(a.next)) {
      var a :| a in step.kind.arms && t == Some(a.next);
      var k :| 0 <= k < |step.kind.arms| && step.kind.arms[k] == a;
      assert FirstArm(step.kind.arms, t) < |step.kind.arms|;
    }
  }

  // ---------------------------------------------------------------------------
  // A world that answers each step so that it is left in a given manner
  // ---------------------------------------------------------------------------

  function Verdict(step: Step, m: Manner, c: Condition): Verdict {
    if step.when == Some(c) then (if m == ByCondition then Fails else Holds)
    else if m == ByFailure then Throws
    else if step.kind.Branch? && m.ByArm? && m.i < |step.kind.arms| && step.kind.arms[m.i].when == c then Holds
    else Fails
  }

  ghost predicate Answers(w: World, step: Step, m: Manner) {
    && (step.when.Some? ==> forall context :: w.holds(step.when.value, context) == Verdict(step, m, step.when.value))
    && (step.kind.Branch? ==>
          forall i, context :: 0 <= i < |step.kind.arms| ==>
            w.holds(step.kind.arms[i].when, context) == Verdict(step, m, step.kind.arms[i].when))
    && (step.kind.AiCapability? ==> w.knownCapability(step.kind.capability) == (m != ByFailure))
    && (step.kind.Delay? && step.kind.untilField.Some? ==>
          forall context :: w.date(step.kind.untilField.value, context).Some? == (m != ByFailure))
    && (forall context, n ::
          w.act(step.key, context, n) == if m == ByFailure then ActResult.Errored("down") else Done("ok"))
    && w.canSend && forall n :: w.hasInvocation(n)
  }

  /** What executing the step then comes to. */
  ghost predicate RunsTo(dry: bool, step: Step, m: Manner, t: Target, e: Execution) {
    match m
    case ByFailure => e.Failure?
    case ByCondition => true
    case ByDefault => e.Success? && e.wait.NoWait? && e.jump == Some(t)
    case ByArm(_) => e.Success? && e.wait.NoWait? && e.jump == Some(t)
    case _ => e.Success? && e.jump.None? && (dry ==> e.wait.NoWait?)
              && (!dry ==> (e.wait.UntilTime? <==> step.kind.Delay?) && (e.wait.UntilApproval? <==> step.kind.Approval?))
  }

  lemma {:induction false} BranchRuns(w: World, step: Step, m: Manner, context: Context, from: nat)
    requires step.kind.Branch? && AsksOnce(step) && Answers(w, step, m) && from <= |step.kind.arms|
    requires m == ByDefault || m == ByFailure || (m.ByArm? && from <= m.i < |step.kind.arms|)
    requires m == ByFailure ==> from < |step.kind.arms|
    ensures var e := TakeBranch(w, step.kind.arms[from..], step.kind.fallback, context);
      match m
      case ByFailure => e.Failure?
      case ByDefault => e.Success? && e.wait.NoWait? && e.jump == Some(step.kind.fallback)
      case ByArm(i) => e.Success? && e.wait.NoWait? && e.jump == Some(Some(step.kind.arms[i].next))
      case _ => true
    decreases |step.kind.arms| - from
  {
    var arms := step.kind.arms;
    if from < |arms| {
      assert arms[from..][0] == arms[from] && arms[from..][1..] == arms[from + 1..];
      assert w.holds(arms[from].when, context) == Verdict(step, m, arms[from].when);
      if m == ByDefault || (m.ByArm? && m.i > from) { BranchRuns(w, step, m, context, from + 1); }
    }
  }

  lemma StepRuns(w: World, step: Step, m: Manner, t: Target, context: Context, executed: nat, dry: bool)
    requires AsksOnce(step) && Answers(w, step, m) && Leaves(dry, step, m, t)
    ensures RunsTo(dry, step, m, t, Execute(w, step, context, executed, dry))
  {
    if step.kind.Branch? && m != ByCondition {
      BranchRuns(w, step, m, context, 0);
      assert step.kind.arms[0..] == step.kind.arms;
    }
  }

  // ---------------------------------------------------------------------------
  // The plan: a way to the ring and once around it
  // ---------------------------------------------------------------------------

  /** Different steps, the last of which leads back to the one at `back`. */
  datatype Plan = Plan(route: seq<string>, back: nat)

  function KeyAt(plan: Plan, j: nat): string
    requires plan.back < |plan.route| && j <= |plan.route|
  {
    if j < |plan.route| then plan.route[j] else plan.route[plan.back]
  }

  predicate Knows(def: Definition, plan: Plan) {
    && plan.back < |plan.route| && Distinct(plan.route)
    && forall j :: 0 <= j < |plan.route| ==> plan.route[j] in ByKey(def.steps) && plan.route[j] != ""
  }

  function StepAt(def: Definition, plan: Plan, j: nat): Step
    requires Knows(def, plan) && j < |plan.route|
  {
    ByKey(def.steps)[plan.route[j]]
  }

  function MannerAt(def: Definition, dry: bool, plan: Plan, j: nat): Manner
    requires Knows(def, plan) && j < |plan.route|
  {
    MannerOf(dry, StepAt(def, plan, j), Some(KeyAt(plan, j + 1)))
  }

  predicate IsPlan(def: Definition, dry: bool, plan: Plan) {
    && Knows(def, plan) && plan.route[0] == def.startStep
    && (forall j {:trigger StepAt(def, plan, j)} :: 0 <= j < |plan.route| ==> CanGo(dry, StepAt(def, plan, j), Some(KeyAt(plan, j + 1))))
    && forall j {:trigger StepAt(def, plan, j)} :: plan.back <= j < |plan.route| ==>
         Passable(dry, StepAt(def, plan, j)) && CanPassTo(dry, StepAt(def, plan, j), Some(KeyAt(plan, j + 1)))
  }

  /** The place on the route where a question is asked, or its length. */
  function Asker(def: Definition, plan: Plan, q: Question, from: nat := 0): (j: nat)
    requires Knows(def, plan) && from <= |plan.route|
    ensures from <= j <= |plan.route| && (j < |plan.route| ==> q in Asks(StepAt(def, plan, j)))
    ensures forall k :: from <= k < j ==> q !in Asks(StepAt(def, plan, k))
    decreases |plan.route| - from
  {
    if from == |plan.route| || q in Asks(StepAt(def, plan, from)) then from else Asker(def, plan, q, from + 1)
  }

  lemma AskerIs(def: Definition, plan: Plan, q: Question, j: nat)
    requires Knows(def, plan) && ApartAlong(def, plan.route) && j < |plan.route| && q in Asks(StepAt(def, plan, j))
    ensures Asker(def, plan, q) == j
  {
    var k := Asker(def, plan, q);
    assert k <= j;
  }

  predicate FailsAt(def: Definition, dry: bool, plan: Plan, j: nat)
    requires Knows(def, plan)
  {
    j < |plan.route| && MannerAt(def, dry, plan, j) == ByFailure
  }

  function Position(keys: seq<string>, key: string, from: nat := 0): (j: nat)
    requires from <= |keys|
    ensures from <= j <= |keys| && (j < |keys| ==> keys[j] == key) && forall k :: from <= k < j ==> keys[k] != key
    decreases |keys| - from
  {
    if from == |keys| || keys[from] == key then from else Position(keys, key, from + 1)
  }

  function PlanWorld(def: Definition, dry: bool, plan: Plan, now: int): World
    requires Knows(def, plan)
  {
    World((c: Condition, context: Context) =>
            var j := Asker(def, plan, AboutCondition(c));
            if j < |plan.route| then Verdict(StepAt(def, plan, j), MannerAt(def, dry, plan, j), c) else Holds,
          (field: string, context: Context) =>
            if FailsAt(def, dry, plan, Asker(def, plan, AboutDate(field))) then None else Some(0),
          (key: string, context: Context, n: nat) =>
            if FailsAt(def, dry, plan, Position(plan.route, key)) then ActResult.Errored("down") else Done("ok"),
          (capability: string) => !FailsAt(def, dry, plan, Asker(def, plan, AboutCapability(capability))),
          (n: nat) => true, true, now)
  }

  /** A world in which every step of the plan is left as planned. */
  ghost predicate Plays(def: Definition, dry: bool, plan: Plan, w: World)
    requires Knows(def, plan)
  {
    forall j {:trigger StepAt(def, plan, j)} :: 0 <= j < |plan.route| ==>
      Answers(w, StepAt(def, plan, j), MannerAt(def, dry, plan, j))
  }

  lemma HoldsAsPlanned(def: Definition, dry: bool, plan: Plan, now: int, j: nat, c: Condition)
    requires IsPlan(def, dry, plan) && ApartAlong(def, plan.route) && j < |plan.route| && AboutCondition(c) in Asks(StepAt(def, plan, j))
    ensures forall context :: PlanWorld(def, dry, plan, now).holds(c, context) ==
                              Verdict(StepAt(def, plan, j), MannerAt(def, dry, plan, j), c)
  {
    AskerIs(def, plan, AboutCondition(c), j);
  }

  lemma AskedAsPlanned(def: Definition, dry: bool, plan: Plan, now: int, j: nat)
    requires IsPlan(def, dry, plan) && ApartAlong(def, plan.route) && j < |plan.route|
    ensures var w, step, m := PlanWorld(def, dry, plan, now), StepAt(def, plan, j), MannerAt(def, dry, plan, j);
      && (step.kind.AiCapability? ==> w.knownCapability(step.kind.capability) == (m != ByFailure))
      && (step.kind.Delay? && step.kind.untilField.Some? ==>
            forall context :: w.date(step.kind.untilField.value, context).Some? == (m != ByFailure))
  {
    var step := StepAt(def, plan, j);
    if step.kind.AiCapability? { AskerIs(def, plan, AboutCapability(step.kind.capability), j); }
    if step.kind.Delay? && step.kind.untilField.Some? { AskerIs(def, plan, AboutDate(step.kind.untilField.value), j); }
  }

  lemma ActsAsPlanned(def: Definition, dry: bool, plan: Plan, now: int, j: nat)
    requires IsPlan(def, dry, plan) && j < |plan.route|
    ensures var w, step, m := PlanWorld(def, dry, plan, now), StepAt(def, plan, j), MannerAt(def, dry, plan, j);
      forall context, n :: w.act(step.key, context, n) == if m == ByFailure then ActResult.Errored("down") else Done("ok")
  {
    ByKeyMeaning(def.steps);
    assert Position(plan.route, plan.route[j]) == j;
  }

  lemma WorldFor(def: Definition, dry: bool, plan: Plan, now: int) returns (w: World)
    requires IsPlan(def, dry, plan) && ApartAlong(def, plan.route)
    ensures Plays(def, dry, plan, w) && w.now == now
  {
    w := PlanWorld(def, dry, plan, now);
    forall j {:trigger StepAt(def, plan, j)} | 0 <= j < |plan.route|
      ensures Answers(w, StepAt(def, plan, j), MannerAt(def, dry, plan, j))
    {
      PlanAnswers(def, dry, plan, now, w, j);
    }
  }

  lemma PlanAnswers(def: Definition, dry: bool, plan: Plan, now: int, w: World, j: nat)
    requires IsPlan(def, dry, plan) && ApartAlong(def, plan.route) && j < |plan.route| && w == PlanWorld(def, dry, plan, now)
    ensures Answers(w, StepAt(def, plan, j), MannerAt(def, dry, plan, j))
  {
    var step := StepAt(def, plan, j);
    if step.when.Some? { HoldsAsPlanned(def, dry, plan, now, j, step.when.value); }
    if step.kind.Branch? { ArmsAsPlanned(def, dry, plan, now, j); }
    AskedAsPlanned(def, dry, plan, now, j);
    ActsAsPlanned(def, dry, plan, now, j);
  }

  lemma ArmsAsPlanned(def: Definition, dry: bool, plan: Plan, now: int, j: nat)
    requires IsPlan(def, dry, plan) && ApartAlong(def, plan.route) && j < |plan.route| && StepAt(def, plan, j).kind.Branch?
    ensures var step := StepAt(def, plan, j);
      forall i, context :: 0 <= i < |step.kind.arms| ==>
        PlanWorld(def, dry, plan, now).holds(step.kind.arms[i].when, context) ==
        Verdict(step, MannerAt(def, dry, plan, j), step.kind.arms[i].when)
  {
    var step := StepAt(def, plan, j);
    forall i | 0 <= i < |step.kind.arms|
      ensures forall context :: PlanWorld(def, dry, plan, now).holds(step.kind.arms[i].when, context) ==
                                Verdict(step, MannerAt(def, dry, plan, j), step.kind.arms[i].when)
    {
      assert step.kind.arms[i] in step.kind.arms;
      HoldsAsPlanned(def, dry, plan, now, j, step.kind.arms[i].when);
    }
  }

  // ---------------------------------------------------------------------------
  // Where a run that follows the plan is
  // ---------------------------------------------------------------------------

  predicate DoneAt(def: Definition, dry: bool, plan: Plan, run: Run, i: nat)
    requires Knows(def, plan) && i < |plan.route|
  {
    && Prior(run.ledger, plan.route[i]).Some?
    && (!dry && StepAt(def, plan, i).kind.Approval? ==>
          plan.route[i] in run.approvals
          && run.approvals[plan.route[i]] == if MannerAt(def, dry, plan, i) == ByRejection then Rejected else Approved)
  }

  /** Only the first `j` steps of the route have left anything, and those of the ring among them are done. */
  ghost predicate Followed(def: Definition, dry: bool, plan: Plan, run: Run, j: nat)
    requires Knows(def, plan) && j <= |plan.route|
  {
    && run.dryRun == dry && run.status in {Running, Waiting}
    && (forall r :: r in run.ledger ==> r.key in plan.route[..j])
    && (forall k :: k in run.approvals ==> k in plan.route[..j] && run.approvals[k] != Pending)
    && (dry ==> run.approvals == map[])
    && forall i :: plan.back <= i < j ==> DoneAt(def, dry, plan, run, i)
  }

  ghost predicate At(def: Definition, dry: bool, plan: Plan, c: Config, j: nat)
    requires Knows(def, plan) && j <= |plan.route|
  {
    Followed(def, dry, plan, c.run, j) && c.current == Some(KeyAt(plan, j)) && c.executed <= j
  }

  /** The step at `j` has succeeded and the run sleeps, or waits for a person, at it. */
  ghost predicate Rests(def: Definition, dry: bool, plan: Plan, run: Run, j: nat)
    requires Knows(def, plan) && j < |plan.route|
  {
    var k := plan.route[j];
    && !dry && !run.dryRun && run.current == Some(k) && Prior(run.ledger, k).Some?
    && (forall r :: r in run.ledger ==> r.key in plan.route[..j + 1])
    && (forall i :: plan.back <= i < j ==> DoneAt(def, dry, plan, run, i))
    && MannerAt(def, dry, plan, j) in {BySuccess, ByRejection}
    && if StepAt(def, plan, j).kind.Approval?
       then run.status == AwaitingApproval
            && (forall x :: x in run.approvals ==> x in plan.route[..j + 1] && (x != k ==> run.approvals[x] != Pending))
            && k in run.approvals && run.approvals[k] == Pending
       else run.status == Waiting && run.resumeAt.Some? && MannerAt(def, dry, plan, j) == BySuccess
            && forall x :: x in run.approvals ==> x in plan.route[..j + 1] && run.approvals[x] != Pending
  }

  /** What a turn at the `j`-th place comes to. */
  ghost predicate Advanced(def: Definition, dry: bool, plan: Plan, turned: Turned, j: nat)
    requires Knows(def, plan) && j < |plan.route|
  {
    match turned
    case Continue(next) => At(def, dry, plan, next, j + 1)
    case Stop(run, _) => Rests(def, dry, plan, run, j)
    case Raise => false
  }

  lemma NotYet(def: Definition, dry: bool, plan: Plan, c: Config, j: nat)
    requires IsPlan(def, dry, plan) && j < |plan.route| && At(def, dry, plan, c, j)
    ensures forall r :: r in c.run.ledger ==> r.key != plan.route[j]
    ensures plan.route[j] !in c.run.approvals
    ensures Prior(c.run.ledger, plan.route[j]).None? && !Taken(c.run.ledger, plan.route[j], c.executed)
    ensures StepAt(def, plan, j).key == plan.route[j]
  {
    ByKeyMeaning(def.steps);
    PriorMeaning(c.run.ledger, plan.route[j]);
    forall k | k in plan.route[..j] ensures k != plan.route[j] {
      var i :| 0 <= i < j && plan.route[..j][i] == k;
      assert plan.route[i] != plan.route[j];
    }
  }

  /** A row for the `j`-th step leaves what was done done. */
  lemma DoneKept(def: Definition, dry: bool, plan: Plan, before: Run, after: Run, i: nat, row: Row)
    requires Knows(def, plan) && i < |plan.route| && DoneAt(def, dry, plan, before, i)
    requires after.ledger == Record(before.ledger, row)
    requires plan.route[i] in before.approvals ==>
      plan.route[i] in after.approvals && after.approvals[plan.route[i]] == before.approvals[plan.route[i]]
    ensures DoneAt(def, dry, plan, after, i)
  {
    PriorRecord(before.ledger, row, plan.route[i]);
  }

  lemma RouteGrows(plan: Plan, j: nat)
    requires j < |plan.route|
    ensures forall k :: k in plan.route[..j] ==> k in plan.route[..j + 1]
    ensures plan.route[j] in plan.route[..j + 1]
  {
    assert plan.route[..j + 1] == plan.route[..j] + [plan.route[j]];
  }

  lemma RingManner(def: Definition, dry: bool, plan: Plan, j: nat)
    requires IsPlan(def, dry, plan) && plan.back <= j < |plan.route|
    ensures MannerAt(def, dry, plan, j) in {BySuccess, ByRejection}
  {
    assert Passable(dry, StepAt(def, plan, j));
  }

  lemma BypassAdvances(def: Definition, dry: bool, plan: Plan, c: Config, j: nat)
    requires IsPlan(def, dry, plan) && j < |plan.route| && At(def, dry, plan, c, j)
    requires MannerAt(def, dry, plan, j) == ByCondition
    requires Leaves(dry, StepAt(def, plan, j), ByCondition, Some(KeyAt(plan, j + 1)))
    ensures Advanced(def, dry, plan, Bypass(StepAt(def, plan, j), c), j)
  {
    NotYet(def, dry, plan, c, j);
    RouteGrows(plan, j);
    if plan.back <= j { RingManner(def, dry, plan, j); }
  }

  lemma FailureAdvances(def: Definition, dry: bool, plan: Plan, c: Config, j: nat, message: string)
    requires IsPlan(def, dry, plan) && j < |plan.route| && At(def, dry, plan, c, j)
    requires MannerAt(def, dry, plan, j) == ByFailure
    requires Leaves(dry, StepAt(def, plan, j), ByFailure, Some(KeyAt(plan, j + 1)))
    ensures Advanced(def, dry, plan, Failed(StepAt(def, plan, j), c, message), j)
  {
    NotYet(def, dry, plan, c, j);
    RouteGrows(plan, j);
    if plan.back <= j { RingManner(def, dry, plan, j); }
    assert Live(StepAt(def, plan, j).onError);
  }

  /** What is stored once the step at `j` has succeeded. */
  ghost predicate Stored(def: Definition, dry: bool, plan: Plan, run: Run, j: nat, asked: bool)
    requires Knows(def, plan) && j < |plan.route|
  {
    var k := plan.route[j];
    && run.dryRun == dry && Prior(run.ledger, k).Some?
    && (forall r :: r in run.ledger ==> r.key in plan.route[..j + 1])
    && (forall i :: plan.back <= i < j ==> DoneAt(def, dry, plan, run, i))
    && (forall x :: x in run.approvals ==> x in plan.route[..j + 1] && (x != k ==> run.approvals[x] != Pending))
    && (dry ==> run.approvals == map[])
    && (if asked then k in run.approvals && run.approvals[k] == Pending else k !in run.approvals)
  }

  lemma SuccessStored(def: Definition, dry: bool, plan: Plan, c: Config, j: nat, e: Execution)
    requires IsPlan(def, dry, plan) && j < |plan.route| && At(def, dry, plan, c, j)
    requires e.Success? && (dry ==> !e.wait.UntilApproval?)
    ensures Stored(def, dry, plan, AfterSuccess(StepAt(def, plan, j), c, e), j, e.wait.UntilApproval?)
    ensures AfterSuccess(StepAt(def, plan, j), c, e).status == c.run.status
  {
    var step := StepAt(def, plan, j);
    NotYet(def, dry, plan, c, j);
    RouteGrows(plan, j);
    var row := Row(step.key, c.executed, Succeeded, e.output);
    var run := AfterSuccess(step, c, e);
    PriorRecord(c.run.ledger, row, step.key);
    forall i | plan.back <= i < j ensures DoneAt(def, dry, plan, run, i) {
      DoneKept(def, dry, plan, c.run, run, i, row);
    }
  }

  /** A success that does not wait and does not end the run moves it on. */
  lemma SuccessMoves(def: Definition, dry: bool, plan: Plan, c: Config, j: nat, e: Execution)
    requires IsPlan(def, dry, plan) && j < |plan.route| && At(def, dry, plan, c, j)
    requires e.Success? && e.wait.NoWait? && (plan.back <= j ==> dry || !StepAt(def, plan, j).kind.Approval?)
    requires (if e.jump.Some? then e.jump.value else StepAt(def, plan, j).next) == Some(KeyAt(plan, j + 1))
    requires !StepAt(def, plan, j).kind.End?
    ensures Advanced(def, dry, plan, Succeed(StepAt(def, plan, j), c, e), j)
  {
    SuccessStored(def, dry, plan, c, j, e);
    var run, next := AfterSuccess(StepAt(def, plan, j), c, e), Succeed(StepAt(def, plan, j), c, e).config;
    forall i | plan.back <= i < j + 1 ensures DoneAt(def, dry, plan, next.run, i) {
      if i < j { assert DoneAt(def, dry, plan, run, i); }
    }
  }

  /** A success that waits leaves the run resting at the step. */
  lemma SuccessRests(def: Definition, dry: bool, plan: Plan, c: Config, j: nat, e: Execution)
    requires IsPlan(def, dry, plan) && j < |plan.route| && At(def, dry, plan, c, j)
    requires e.Success? && !e.wait.NoWait? && !dry
    requires e.wait.UntilApproval? <==> StepAt(def, plan, j).kind.Approval?
    requires MannerAt(def, dry, plan, j) in {BySuccess, ByRejection}
    requires !StepAt(def, plan, j).kind.Approval? ==> MannerAt(def, dry, plan, j) == BySuccess
    ensures Advanced(def, dry, plan, Succeed(StepAt(def, plan, j), c, e), j)
  {
    NotYet(def, dry, plan, c, j);
    SuccessStored(def, dry, plan, c, j, e);
    var run, after := AfterSuccess(StepAt(def, plan, j), c, e), Succeed(StepAt(def, plan, j), c, e).run;
    forall i | plan.back <= i < j ensures DoneAt(def, dry, plan, after, i) { assert DoneAt(def, dry, plan, run, i); }
  }

  lemma SuccessAdvances(def: Definition, dry: bool, plan: Plan, c: Config, j: nat, e: Execution)
    requires IsPlan(def, dry, plan) && j < |plan.route| && At(def, dry, plan, c, j)
    requires e.Success? && !(MannerAt(def, dry, plan, j) in {ByCondition, ByFailure})
    requires RunsTo(dry, StepAt(def, plan, j), MannerAt(def, dry, plan, j), Some(KeyAt(plan, j + 1)), e)
    requires Leaves(dry, StepAt(def, plan, j), MannerAt(def, dry, plan, j), Some(KeyAt(plan, j + 1)))
    ensures Advanced(def, dry, plan, Succeed(StepAt(def, plan, j), c, e), j)
  {
    if plan.back <= j { RingManner(def, dry, plan, j); }
    if e.wait.NoWait? {
      SuccessMoves(def, dry, plan, c, j, e);
    } else {
      SuccessRests(def, dry, plan, c, j, e);
    }
  }

  /** At its place on the route, each step is left as planned, or rests first. */
  lemma FreshAdvances(def: Definition, dry: bool, plan: Plan, w: World, c: Config, j: nat)
    requires IsPlan(def, dry, plan) && Plays(def, dry, plan, w)
    requires j < |plan.route| && AsksOnce(StepAt(def, plan, j)) && At(def, dry, plan, c, j) && Looping(def, c)
    ensures Advanced(def, dry, plan, Turn(def, w, c), j)
  {
    var step, m, t := StepAt(def, plan, j), MannerAt(def, dry, plan, j), Some(KeyAt(plan, j + 1));
    NotYet(def, dry, plan, c, j);
    MannerLeaves(dry, step, t);
    FreshTurn(def, w, step, m, c);
    if m == ByCondition {
      BypassAdvances(def, dry, plan, c, j);
    } else {
      StepRuns(w, step, m, t, c.context, c.executed, dry);
      match Execute(w, step, c.context, c.executed, dry)
      case Success(output, wait, jump, effect) =>
        SuccessAdvances(def, dry, plan, c, j, Success(output, wait, jump, effect));
      case Failure(message) => FailureAdvances(def, dry, plan, c, j, message);
      case Lost =>
    }
  }

  lemma FreshTurn(def: Definition, w: World, step: Step, m: Manner, c: Config)
    requires c.current == Some(step.key) && IsStep(def, step) && Looping(def, c)
    requires Prior(c.run.ledger, step.key).None? && Answers(w, step, m)
    ensures m == ByCondition && step.when.Some? ==> Turn(def, w, c) == Bypass(step, c)
    ensures m != ByCondition ==> Turn(def, w, c) == Perform(w, step, c)
  {
    if step.when.Some? {
      assert w.holds(step.when.value, c.context) == Verdict(step, m, step.when.value);
    }
  }

  // ---------------------------------------------------------------------------
  // Going round, and waking up
  // ---------------------------------------------------------------------------

  /** A step of the ring that is done is passed over to the next one. */
  lemma PassesOver(def: Definition, dry: bool, plan: Plan, w: World, c: Config, i: nat)
    requires IsPlan(def, dry, plan) && i < |plan.route| && c.run.dryRun == dry && Looping(def, c)
    requires MannerAt(def, dry, plan, i) in {BySuccess, ByRejection}
    requires Leaves(dry, StepAt(def, plan, i), MannerAt(def, dry, plan, i), Some(KeyAt(plan, i + 1)))
    requires dry ==> c.run.approvals == map[]
    requires c.current == Some(plan.route[i]) && DoneAt(def, dry, plan, c.run, i)
    ensures Turn(def, w, c).Continue?
    ensures var next := Turn(def, w, c).config;
      next.current == Some(KeyAt(plan, i + 1)) && next.executed == c.executed
      && next.run == c.run.(log := next.run.log)
  {
    ByKeyMeaning(def.steps);
    assert KeyAt(plan, i + 1) != "";
  }

  lemma PlanLeaves(def: Definition, dry: bool, plan: Plan, j: nat)
    requires IsPlan(def, dry, plan) && j < |plan.route|
    ensures Leaves(dry, StepAt(def, plan, j), MannerAt(def, dry, plan, j), Some(KeyAt(plan, j + 1)))
  {
    assert CanGo(dry, StepAt(def, plan, j), Some(KeyAt(plan, j + 1)));
    MannerLeaves(dry, StepAt(def, plan, j), Some(KeyAt(plan, j + 1)));
  }

  ghost predicate RoundAt(def: Definition, dry: bool, plan: Plan, c: Config, i: nat)
    requires Knows(def, plan)
  {
    && plan.back <= i < |plan.route| && c.current == Some(plan.route[i]) && c.executed < def.maxSteps
    && c.run.dryRun == dry && (dry ==> c.run.approvals == map[])
    && forall k :: plan.back <= k < |plan.route| ==> DoneAt(def, dry, plan, c.run, k)
  }

  lemma RoundStep(def: Definition, dry: bool, plan: Plan, w: World, c: Config, i: nat)
    requires IsPlan(def, dry, plan) && RoundAt(def, dry, plan, c, i)
    ensures Looping(def, c) && Turn(def, w, c).Continue?
    ensures RoundAt(def, dry, plan, Turn(def, w, c).config, if i + 1 < |plan.route| then i + 1 else plan.back)
  {
    RingManner(def, dry, plan, i);
    PlanLeaves(def, dry, plan, i);
    PassesOver(def, dry, plan, w, c, i);
    var next := Turn(def, w, c).config;
    forall k | plan.back <= k < |plan.route| ensures DoneAt(def, dry, plan, next.run, k) {
      assert DoneAt(def, dry, plan, c.run, k);
    }
  }

  ghost predicate Never(def: Definition, w: World, c: Config) { forall n: nat :: Turns(def, w, c, n).None? }

  lemma {:induction false} GoesRound(def: Definition, dry: bool, plan: Plan, w: World, c: Config, i: nat, n: nat)
    requires IsPlan(def, dry, plan) && RoundAt(def, dry, plan, c, i)
    ensures Turns(def, w, c, n).None?
    decreases n
  {
    RoundStep(def, dry, plan, w, c, i);
    if n > 0 {
      GoesRound(def, dry, plan, w, Turn(def, w, c).config, if i + 1 < |plan.route| then i + 1 else plan.back, n - 1);
    }
  }

  /** A run that rests at a delay, or whose approval has been decided as planned. */
  ghost predicate Rested(def: Definition, dry: bool, plan: Plan, run: Run, j: nat)
    requires Knows(def, plan) && j < |plan.route|
  {
    && !dry && !run.dryRun && run.current == Some(plan.route[j]) && run.status in {Running, Waiting}
    && (forall r :: r in run.ledger ==> r.key in plan.route[..j + 1])
    && (forall i :: plan.back <= i < j ==> DoneAt(def, dry, plan, run, i))
    && DoneAt(def, dry, plan, run, j)
    && (forall x :: x in run.approvals ==> x in plan.route[..j + 1] && run.approvals[x] != Pending)
    && MannerAt(def, dry, plan, j) in {BySuccess, ByRejection}
  }

  lemma DelayRested(def: Definition, dry: bool, plan: Plan, run: Run, j: nat)
    requires Knows(def, plan) && j < |plan.route| && Rests(def, dry, plan, run, j) && !StepAt(def, plan, j).kind.Approval?
    ensures Rested(def, dry, plan, run, j)
  {
  }

  lemma WakingTime(def: Definition, dry: bool, plan: Plan, run: Run, j: nat) returns (now: int)
    requires Knows(def, plan) && j < |plan.route| && Rests(def, dry, plan, run, j) && !StepAt(def, plan, j).kind.Approval?
    ensures !Idle(run, now)
  {
    now := run.resumeAt.value;
  }

  /** The person decides as the plan has it. */
  lemma DecisionRested(def: Definition, dry: bool, plan: Plan, run: Run, j: nat)
    requires IsPlan(def, dry, plan) && j < |plan.route| && Rests(def, dry, plan, run, j) && StepAt(def, plan, j).kind.Approval?
    ensures var decided := Decide(run, plan.route[j], MannerAt(def, dry, plan, j) == BySuccess, true, true);
      decided.Ok? && Rested(def, dry, plan, decided.value, j)
  {
    var after := Decide(run, plan.route[j], MannerAt(def, dry, plan, j) == BySuccess, true, true).value;
    forall i | plan.back <= i < j ensures DoneAt(def, dry, plan, after, i) {
      assert DoneAt(def, dry, plan, run, i);
      assert plan.route[i] != plan.route[j];
    }
  }

  /** The next call passes over the step it rested at. */
  lemma WakesUp(def: Definition, dry: bool, plan: Plan, w: World, run: Run, j: nat)
    requires IsPlan(def, dry, plan) && j < |plan.route| && Rested(def, dry, plan, run, j) && def.maxSteps > 0
    ensures Looping(def, Entry(def, run)) && Turn(def, w, Entry(def, run)).Continue?
    ensures At(def, dry, plan, Turn(def, w, Entry(def, run)).config, j + 1)
  {
    var c := Entry(def, run);
    PlanLeaves(def, dry, plan, j);
    PassesOver(def, dry, plan, w, c, j);
    var next := Turn(def, w, c).config;
    forall i | plan.back <= i < j + 1 ensures DoneAt(def, dry, plan, next.run, i) {
      assert DoneAt(def, dry, plan, run, i);
    }
  }

  // ---------------------------------------------------------------------------
  // The history
  // ---------------------------------------------------------------------------

  /** `n` turns lead from `c` to `d`. */
  ghost predicate Reaches(def: Definition, w: World, c: Config, d: Config, n: nat)
    decreases n
  {
    if n == 0 then c == d
    else Looping(def, c) && Turn(def, w, c).Continue? && Reaches(def, w, Turn(def, w, c).config, d, n - 1)
  }

  lemma {:induction false} ReachesOne(def: Definition, w: World, c: Config, d: Config, n: nat)
    requires Reaches(def, w, c, d, n) && Looping(def, d) && Turn(def, w, d).Continue?
    ensures Reaches(def, w, c, Turn(def, w, d).config, n + 1)
    decreases n
  {
    if n > 0 { ReachesOne(def, w, Turn(def, w, c).config, d, n - 1); }
  }

  lemma {:induction false} ReachesStop(def: Definition, w: World, c: Config, d: Config, n: nat)
    requires Reaches(def, w, c, d, n) && Looping(def, d) && Turn(def, w, d).Stop?
    ensures Turns(def, w, c, n) == Some(Returned(Turn(def, w, d).run, Turn(def, w, d).outcome))
    decreases n
  {
    if n > 0 { ReachesStop(def, w, Turn(def, w, c).config, d, n - 1); }
  }

  lemma {:induction false} ReachesNever(def: Definition, w: World, c: Config, d: Config, n: nat, m: nat)
    requires Reaches(def, w, c, d, n) && Never(def, w, d)
    ensures Turns(def, w, c, m).None?
    decreases n
  {
    if n > 0 && m > 0 { ReachesNever(def, w, Turn(def, w, c).config, d, n - 1, m - 1); }
  }

  lemma Extend(def: Definition, calls: seq<Call>, runs: seq<Run>, call: Call, after: Run)
    requires IsHistory(def, calls, runs) && Steps(def, call, runs[|calls|], after)
    ensures IsHistory(def, calls + [call], runs + [after])
  {
    var more, longer := calls + [call], runs + [after];
    assert longer[0] == runs[0];
    forall i {:trigger more[i]} | 0 <= i < |more| ensures Steps(def, more[i], longer[i], longer[i + 1]) {
      if i < |calls| { assert more[i] == calls[i]; }
    }
  }

  /** A history at the end of which the engine is in a call, at the `j`-th place of the plan. */
  ghost predicate Under(
    def: Definition, dry: bool, plan: Plan, calls: seq<Call>, runs: seq<Run>, w: World, c: Config, n: nat, j: nat)
    requires Knows(def, plan) && j <= |plan.route|
  {
    && IsHistory(def, calls, runs) && runs[|calls|].dryRun == dry && !Idle(runs[|calls|], w.now)
    && Plays(def, dry, plan, w) && Reaches(def, w, Entry(def, runs[|calls|]), c, n) && At(def, dry, plan, c, j)
  }

  ghost predicate HangsAt(def: Definition, dry: bool, calls: seq<Call>, runs: seq<Run>, w: World) {
    IsHistory(def, calls, runs) && runs[|calls|].dryRun == dry && !ComesBack(def, w, runs[|calls|])
  }

  /** Followed to the end of the route, the plan leads to a call that does not come back. */
  lemma {:induction false} Drive(
    def: Definition, dry: bool, plan: Plan, calls: seq<Call>, runs: seq<Run>, w: World, c: Config, n: nat, j: nat)
    returns (calls': seq<Call>, runs': seq<Run>, w': World)
    requires IsPlan(def, dry, plan) && ApartAlong(def, plan.route) && |plan.route| < def.maxSteps && j <= |plan.route|
    requires Under(def, dry, plan, calls, runs, w, c, n, j)
    ensures HangsAt(def, dry, calls', runs', w')
    decreases |plan.route| - j
  {
    if j == |plan.route| {
      calls', runs', w' := calls, runs, w;
      NeverBack(def, dry, plan, runs[|calls|], w, c, n);
    } else {
      var more, longer, w2, d, m := OnePlace(def, dry, plan, calls, runs, w, c, n, j);
      calls', runs', w' := Drive(def, dry, plan, more, longer, w2, d, m, j + 1);
    }
  }

  /** One place further, in the same call or in the next one. */
  lemma OnePlace(
    def: Definition, dry: bool, plan: Plan, calls: seq<Call>, runs: seq<Run>, w: World, c: Config, n: nat, j: nat)
    returns (more: seq<Call>, longer: seq<Run>, w': World, d: Config, m: nat)
    requires IsPlan(def, dry, plan) && ApartAlong(def, plan.route) && j < |plan.route| < def.maxSteps
    requires Under(def, dry, plan, calls, runs, w, c, n, j)
    ensures Under(def, dry, plan, more, longer, w', d, m, j + 1)
  {
    if Turn(def, w, c).Continue? {
      more, longer, w', d, m := calls, runs, w, Turn(def, w, c).config, n + 1;
      SameCall(def, dry, plan, calls, runs, w, c, n, j, d);
    } else {
      more, longer, w', d := PlaceRests(def, dry, plan, calls, runs, w, c, n, j);
      m := 1;
    }
  }

  lemma PlaceAdvances(
    def: Definition, dry: bool, plan: Plan, calls: seq<Call>, runs: seq<Run>, w: World, c: Config, n: nat, j: nat)
    requires IsPlan(def, dry, plan) && ApartAlong(def, plan.route) && j < |plan.route| < def.maxSteps
    requires Under(def, dry, plan, calls, runs, w, c, n, j)
    ensures Advanced(def, dry, plan, Turn(def, w, c), j)
  {
    FreshAdvances(def, dry, plan, w, c, j);
  }

  /** The call ends at the place; the next one takes the run on. */
  lemma PlaceRests(
    def: Definition, dry: bool, plan: Plan, calls: seq<Call>, runs: seq<Run>, w: World, c: Config, n: nat, j: nat)
    returns (more: seq<Call>, longer: seq<Run>, w': World, d: Config)
    requires IsPlan(def, dry, plan) && ApartAlong(def, plan.route) && j < |plan.route| < def.maxSteps
    requires Under(def, dry, plan, calls, runs, w, c, n, j)
    requires !Turn(def, w, c).Continue?
    ensures Under(def, dry, plan, more, longer, w', d, 1, j + 1)
  {
    PlaceAdvances(def, dry, plan, calls, runs, w, c, n, j);
    CallEnds(def, calls, runs, w, c, n);
    more, longer, w', d := GoesToSleep(def, dry, plan, calls + [Advance(w)], runs + [Turn(def, w, c).run], j);
  }

  lemma SameCall(
    def: Definition, dry: bool, plan: Plan, calls: seq<Call>, runs: seq<Run>, w: World, c: Config, n: nat, j: nat, d: Config)
    requires Knows(def, plan) && j < |plan.route| && Under(def, dry, plan, calls, runs, w, c, n, j)
    requires IsPlan(def, dry, plan) && ApartAlong(def, plan.route) && |plan.route| < def.maxSteps
    requires Turn(def, w, c) == Continue(d)
    ensures Under(def, dry, plan, calls, runs, w, d, n + 1, j + 1)
  {
    PlaceAdvances(def, dry, plan, calls, runs, w, c, n, j);
    ReachesOne(def, w, Entry(def, runs[|calls|]), c, n);
  }

  lemma CallEnds(def: Definition, calls: seq<Call>, runs: seq<Run>, w: World, c: Config, n: nat)
    requires IsHistory(def, calls, runs) && !Idle(runs[|calls|], w.now)
    requires Reaches(def, w, Entry(def, runs[|calls|]), c, n) && Looping(def, c) && Turn(def, w, c).Stop?
    ensures IsHistory(def, calls + [Advance(w)], runs + [Turn(def, w, c).run])
  {
    var run, outcome := Turn(def, w, c).run, Turn(def, w, c).outcome;
    ReachesStop(def, w, Entry(def, runs[|calls|]), c, n);
    assert Advances(def, w, runs[|calls|], Returned(run, outcome));
    Extend(def, calls, runs, Advance(w), run);
  }

  lemma NeverBack(def: Definition, dry: bool, plan: Plan, run: Run, w: World, c: Config, n: nat)
    requires IsPlan(def, dry, plan) && |plan.route| < def.maxSteps && !Idle(run, w.now)
    requires Reaches(def, w, Entry(def, run), c, n) && At(def, dry, plan, c, |plan.route|)
    ensures !ComesBack(def, w, run)
  {
    forall m: nat ensures Turns(def, w, c, m).None? { GoesRound(def, dry, plan, w, c, plan.back, m); }
    forall m: nat ensures Turns(def, w, Entry(def, run), m).None? { ReachesNever(def, w, Entry(def, run), c, n, m); }
  }

  /** After what the step at `j` waits for, the next call passes over it. */
  lemma GoesToSleep(def: Definition, dry: bool, plan: Plan, calls: seq<Call>, runs: seq<Run>, j: nat)
    returns (more: seq<Call>, longer: seq<Run>, w: World, d: Config)
    requires IsPlan(def, dry, plan) && ApartAlong(def, plan.route) && j < |plan.route| < def.maxSteps
    requires IsHistory(def, calls, runs) && Rests(def, dry, plan, runs[|calls|], j)
    ensures Under(def, dry, plan, more, longer, w, d, 1, j + 1)
  {
    var now;
    more, longer, now := WaitIsOver(def, dry, plan, calls, runs, j);
    w := WorldFor(def, dry, plan, now);
    d := WokenUp(def, dry, plan, more, longer, w, j);
  }

  lemma WaitIsOver(def: Definition, dry: bool, plan: Plan, calls: seq<Call>, runs: seq<Run>, j: nat)
    returns (more: seq<Call>, longer: seq<Run>, now: int)
    requires IsPlan(def, dry, plan) && j < |plan.route|
    requires IsHistory(def, calls, runs) && Rests(def, dry, plan, runs[|calls|], j)
    ensures IsHistory(def, more, longer) && Rested(def, dry, plan, longer[|more|], j) && !Idle(longer[|more|], now)
  {
    if StepAt(def, plan, j).kind.Approval? {
      more, longer := DecisionTaken(def, dry, plan, calls, runs, j);
      now := 0;
    } else {
      DelayRested(def, dry, plan, runs[|calls|], j);
      more, longer := calls, runs;
      now := WakingTime(def, dry, plan, runs[|calls|], j);
    }
  }

  lemma DecisionTaken(def: Definition, dry: bool, plan: Plan, calls: seq<Call>, runs: seq<Run>, j: nat)
    returns (more: seq<Call>, longer: seq<Run>)
    requires IsPlan(def, dry, plan) && j < |plan.route|
    requires IsHistory(def, calls, runs) && Rests(def, dry, plan, runs[|calls|], j) && StepAt(def, plan, j).kind.Approval?
    ensures IsHistory(def, more, longer) && Rested(def, dry, plan, longer[|more|], j) && longer[|more|].status == Running
  {
    longer := PersonDecides(def, dry, plan, calls, runs, j);
    more := calls + [DecideCall(plan.route[j], MannerAt(def, dry, plan, j) == BySuccess, true, true)];
  }

  lemma WokenUp(def: Definition, dry: bool, plan: Plan, calls: seq<Call>, runs: seq<Run>, w: World, j: nat)
    returns (d: Config)
    requires IsPlan(def, dry, plan) && j < |plan.route| < def.maxSteps && Plays(def, dry, plan, w)
    requires IsHistory(def, calls, runs) && Rested(def, dry, plan, runs[|calls|], j) && !Idle(runs[|calls|], w.now)
    ensures Under(def, dry, plan, calls, runs, w, d, 1, j + 1)
  {
    d := NextCall(def, dry, plan, runs[|calls|], w, j);
  }

  lemma PersonDecides(def: Definition, dry: bool, plan: Plan, calls: seq<Call>, runs: seq<Run>, j: nat)
    returns (longer: seq<Run>)
    requires IsPlan(def, dry, plan) && j < |plan.route|
    requires IsHistory(def, calls, runs) && Rests(def, dry, plan, runs[|calls|], j) && StepAt(def, plan, j).kind.Approval?
    ensures var call := DecideCall(plan.route[j], MannerAt(def, dry, plan, j) == BySuccess, true, true);
      IsHistory(def, calls + [call], longer) && Rested(def, dry, plan, longer[|calls| + 1], j)
      && longer[|calls| + 1].status == Running
  {
    var run, approve := runs[|calls|], MannerAt(def, dry, plan, j) == BySuccess;
    DecisionRested(def, dry, plan, run, j);
    var decided := Decide(run, plan.route[j], approve, true, true).value;
    Extend(def, calls, runs, DecideCall(plan.route[j], approve, true, true), decided);
    longer := runs + [decided];
  }

  lemma NextCall(def: Definition, dry: bool, plan: Plan, run: Run, w: World, j: nat) returns (d: Config)
    requires IsPlan(def, dry, plan) && j < |plan.route| < def.maxSteps && Rested(def, dry, plan, run, j)
    ensures Reaches(def, w, Entry(def, run), d, 1) && At(def, dry, plan, d, j + 1)
  {
    WakesUp(def, dry, plan, w, run, j);
    d := Turn(def, w, Entry(def, run)).config;
    assert Reaches(def, w, d, d, 0);
  }

  // ---------------------------------------------------------------------------
  // From a ring to a plan
  // ---------------------------------------------------------------------------

  lemma RotatedRing(def: Definition, dry: bool, ring: seq<string>, a: nat) returns (turned: seq<string>)
    requires IsRing(def, dry, ring) && a < |ring|
    ensures IsRing(def, dry, turned) && turned[0] == ring[a]
    ensures |turned| == |ring| && forall k :: k in turned ==> k in ring
  {
    turned := ring[a..] + ring[..a];
    var n := |ring|;
    forall i, j {:trigger turned[i], turned[j]} | 0 <= i && j == i + 1 < n ensures PassesOn(def, dry, turned[i], turned[j]) {
      assert turned[i] == if i < n - a then ring[a + i] else ring[a + i - n];
      assert turned[j] == if j < n - a then ring[a + j] else ring[a + j - n];
    }
    assert PassesOn(def, dry, turned[n - 1], turned[0]) by {
      if a > 0 { assert turned[n - 1] == ring[a - 1] && turned[0] == ring[a]; }
    }
    forall i, j | 0 <= i < j < n ensures turned[i] != turned[j] {
      assert turned[i] == if i < n - a then ring[a + i] else ring[a + i - n];
      assert turned[j] == if j < n - a then ring[a + j] else ring[a + j - n];
    }
  }

  lemma CutRoute(def: Definition, dry: bool, path: seq<string>, i: nat, j: nat)
    requires IsRoute(def, dry, path) && i < j < |path| && path[i] == path[j]
    ensures IsRoute(def, dry, path[..i] + path[j..])
  {
    var short := path[..i] + path[j..];
    forall m, n {:trigger short[m], short[n]} | 0 <= m && n == m + 1 < |short| ensures GoesOn(def, dry, short[m], short[n]) {
      if n < i {
        assert short[m] == path[m] && short[n] == path[n];
      } else if n == i {
        assert short[m] == path[m] && short[n] == path[j] == path[n];
      } else {
        assert short[m] == path[m + (j - i)] && short[n] == path[n + (j - i)];
      }
    }
  }

  /** The way to the ring need not visit a step twice, nor the ring before its end. */
  lemma {:induction false} Shortened(def: Definition, dry: bool, path: seq<string>, ring: seq<string>)
    returns (way: seq<string>, round: seq<string>)
    requires IsRoute(def, dry, path) && IsRing(def, dry, ring) && path[|path| - 1] == ring[0]
    ensures IsRoute(def, dry, way) && IsRing(def, dry, round) && way[|way| - 1] == round[0]
    ensures Distinct(way) && forall i :: 0 <= i < |way| - 1 ==> way[i] !in round
    ensures |way| <= |path| && |round| == |ring|
    ensures (forall k :: k in way ==> k in path) && forall k :: k in round ==> k in ring
    decreases |path|
  {
    if !Distinct(path) {
      var i, j :| 0 <= i < j < |path| && path[i] == path[j];
      CutRoute(def, dry, path, i, j);
      way, round := Shortened(def, dry, path[..i] + path[j..], ring);
    } else if i :| 0 <= i < |path| - 1 && path[i] in ring {
      var a :| 0 <= a < |ring| && ring[a] == path[i];
      var turned := RotatedRing(def, dry, ring, a);
      var short := path[..i + 1];
      assert forall m, n {:trigger short[m], short[n]} :: 0 <= m && n == m + 1 < |short| ==>
        short[m] == path[m] && short[n] == path[n];
      way, round := Shortened(def, dry, short, turned);
    } else {
      way, round := path, ring;
    }
  }

  /** The way, without its last step, and then the ring. */
  lemma PlanFrom(def: Definition, dry: bool, way: seq<string>, round: seq<string>) returns (plan: Plan)
    requires IsRoute(def, dry, way) && IsRing(def, dry, round) && way[|way| - 1] == round[0]
    requires Distinct(way) && forall i :: 0 <= i < |way| - 1 ==> way[i] !in round
    ensures IsPlan(def, dry, plan) && plan.route == way[..|way| - 1] + round
  {
    plan := Plan(way[..|way| - 1] + round, |way| - 1);
    forall j | 0 <= j < |plan.route| ensures Fits(def, dry, plan, j) { PlaceFits(def, dry, way, round, plan, j); }
    JoinedDistinct(way[..|way| - 1], round);
    assert plan.route[0] == way[0];
    forall j | 0 <= j < |plan.route| ensures plan.route[j] in ByKey(def.steps) && plan.route[j] != "" {
      assert Fits(def, dry, plan, j);
    }
    forall j {:trigger StepAt(def, plan, j)} | 0 <= j < |plan.route|
      ensures CanGo(dry, StepAt(def, plan, j), Some(KeyAt(plan, j + 1)))
      ensures plan.back <= j ==> PassesOn(def, dry, plan.route[j], KeyAt(plan, j + 1))
    {
      assert Fits(def, dry, plan, j);
    }
  }

  predicate Fits(def: Definition, dry: bool, plan: Plan, j: nat) {
    && plan.back < |plan.route| && j < |plan.route|
    && plan.route[j] in ByKey(def.steps) && plan.route[j] != ""
    && CanGo(dry, ByKey(def.steps)[plan.route[j]], Some(KeyAt(plan, j + 1)))
    && (plan.back <= j ==> PassesOn(def, dry, plan.route[j], KeyAt(plan, j + 1)))
  }

  lemma PlaceFits(def: Definition, dry: bool, way: seq<string>, round: seq<string>, plan: Plan, j: nat)
    requires IsRoute(def, dry, way) && IsRing(def, dry, round) && way[|way| - 1] == round[0]
    requires plan == Plan(way[..|way| - 1] + round, |way| - 1) && j < |plan.route|
    ensures Fits(def, dry, plan, j)
  {
    var back := plan.back;
    if j < back {
      assert plan.route[j] == way[j] && KeyAt(plan, j + 1) == way[j + 1];
      assert GoesOn(def, dry, way[j], way[j + 1]);
    } else {
      assert plan.route[j] == round[j - back];
      assert KeyAt(plan, j + 1) == if j - back + 1 < |round| then round[j - back + 1] else round[0];
      assert PassesOn(def, dry, plan.route[j], KeyAt(plan, j + 1));
    }
  }

  lemma JoinedDistinct(a: seq<string>, b: seq<string>)
    requires Distinct(a) && Distinct(b) && forall i :: 0 <= i < |a| ==> a[i] !in b
    ensures Distinct(a + b)
  {
    forall i, j | 0 <= i < j < |a + b| ensures (a + b)[i] != (a + b)[j] {
      if i < |a| <= j { assert (a + b)[i] == a[i] && (a + b)[j] == b[j - |a|]; }
    }
  }

  lemma RouteFits(def: Definition, dry: bool, plan: Plan)
    requires IsPlan(def, dry, plan)
    ensures |plan.route| <= |def.steps|
  {
    KeysBound(def.steps);
    SubsetSize((set k | k in plan.route :: Some(k)), (set k | k in ByKey(def.steps) :: Some(k)));
    SameSize(plan.route);
  }

  lemma {:induction false} SameSize(keys: seq<string>)
    requires Distinct(keys)
    ensures |set k | k in keys :: Some(k)| == |keys|
  {
    var wrapped := seq(|keys|, i requires 0 <= i < |keys| => Some(keys[i]));
    DistinctSize(wrapped);
    assert (set k | k in keys :: Some(k)) == (set x | x in wrapped) by {
      forall k | k in keys ensures Some(k) in wrapped {
        var i :| 0 <= i < |keys| && keys[i] == k;
        assert wrapped[i] == Some(k);
      }
    }
  }

  /** A way to a ring on which no two steps ask the same question, and which fits the budget. */
  ghost predicate OpenRing(def: Definition, dry: bool, path: seq<string>, ring: seq<string>) {
    && IsRing(def, dry, ring) && IsRoute(def, dry, path) && path[|path| - 1] == ring[0]
    && ApartAlong(def, path + ring) && |path| + |ring| <= def.maxSteps
  }

  ghost predicate HasOpenRing(def: Definition, dry: bool) { exists path, ring :: OpenRing(def, dry, path, ring) }

  /** A ring with an open way to it is reached: some history ends before a call that never comes back. */
  lemma RingHangs(def: Definition, dry: bool) returns (calls: seq<Call>, runs: seq<Run>, w: World)
    requires HasOpenRing(def, dry)
    ensures HangsAt(def, dry, calls, runs, w)
  {
    var path, ring :| OpenRing(def, dry, path, ring);
    var way, round := Shortened(def, dry, path, ring);
    var plan := PlanFrom(def, dry, way, round);
    ApartSubset(def, plan.route, path + ring);
    w := WorldFor(def, dry, plan, 0);
    var run := Begin(def, map[], dry);
    calls, runs := [], [run];
    StartsAt(def, dry, plan, run);
    assert Reaches(def, w, Entry(def, run), Entry(def, run), 0);
    calls, runs, w := Drive(def, dry, plan, calls, runs, w, Entry(def, run), 0, 0);
  }

  lemma ApartSubset(def: Definition, keys: seq<string>, more: seq<string>)
    requires ApartAlong(def, more) && forall k :: k in keys ==> k in more
    ensures ApartAlong(def, keys)
  {}

  /** Where all steps are apart and the budget is larger than their number, every ring is open. */
  lemma RingOpens(def: Definition, dry: bool)
    requires SkipRing(def, dry) && Apart(def) && |def.steps| < def.maxSteps
    ensures HasOpenRing(def, dry)
  {
    var ring :| IsRing(def, dry, ring) && Within(def, dry, ring[0]);
    var path :| IsRoute(def, dry, path) && path[|path| - 1] == ring[0];
    var way, round := Shortened(def, dry, path, ring);
    var plan := PlanFrom(def, dry, way, round);
    RouteFits(def, dry, plan);
    assert ApartAlong(def, way + round);
    assert OpenRing(def, dry, way, round);
  }

  lemma StartsAt(def: Definition, dry: bool, plan: Plan, run: Run)
    requires IsPlan(def, dry, plan) && run == Begin(def, map[], dry)
    ensures At(def, dry, plan, Entry(def, run), 0)
    ensures IsHistory(def, [], [run])
  {
  }

  ghost predicate SomeCallHangs(def: Definition, dry: bool) { exists calls, runs, w :: HangsAt(def, dry, calls, runs, w) }

  /**
   * When a call can hang. Some call of some history does not come back only if the definition has a ring of
   * steps that can be passed over and that a run can reach; and it does not whenever there is a way to such a
   * ring along which, and around which, no two steps ask the same question, short enough for the budget. Where
   * no two steps at all ask the same question and the budget is larger than their number, that is one condition.
   */
  lemma HangsIffRing(def: Definition, dry: bool)
    ensures SomeCallHangs(def, dry) ==> SkipRing(def, dry)
    ensures HasOpenRing(def, dry) ==> SomeCallHangs(def, dry)
    ensures Apart(def) && |def.steps| < def.maxSteps ==> (SomeCallHangs(def, dry) <==> SkipRing(def, dry))
  {
    if SomeCallHangs(def, dry) {
      var calls, runs, w :| HangsAt(def, dry, calls, runs, w);
      if !SkipRing(def, dry) { CallsReturn(def, calls, runs, |calls|, w); }
    }
    if Apart(def) && |def.steps| < def.maxSteps && SkipRing(def, dry) { RingOpens(def, dry); }
    if HasOpenRing(def, dry) {
      var calls, runs, w := RingHangs(def, dry);
    }
  }
}
