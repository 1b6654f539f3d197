/** Workflow definitions and their validator (packages/workflow/src/schema.ts). */
module WorkflowSchema {
  import opened Prelude

  /** A condition in the rule language; the engine only ever asks whether it holds. */
  datatype Condition = Condition(text: string)

  /** A nullable step reference. The program tests references for truthiness, so "" counts as absent. */
  type Target = Option<string>

  predicate Live(t: Target) { t.Some? && t.value != "" }

  datatype Arm = Arm(when: Condition, next: string)

  datatype Kind =
    | AiCapability(capability: string)
    | CreateTask
    | SendCommunication
    | UpdateField(table: string, field: string, regulated: bool)
    | Branch(arms: seq<Arm>, fallback: Target)
    | Delay(forMillis: Option<nat>, untilField: Option<string>)
    | Approval(onReject: Target)
    | EmitEvent
    | End

  datatype Step = Step(key: string, when: Option<Condition>, next: Target, onError: Target, kind: Kind)

  datatype Definition = Definition(startStep: string, steps: seq<Step>, maxSteps: nat)

  /** `new Map(steps.map(s => [s.key, s]))`: the last step with a key wins. */
  function ByKey(steps: seq<Step>): map<string, Step> {
    if |steps| == 0 then map[]
    else ByKey(steps[..|steps| - 1])[steps[|steps| - 1].key := steps[|steps| - 1]]
  }

  lemma {:induction false} ByKeyMeaning(steps: seq<Step>)
    ensures forall k :: k in ByKey(steps) <==> k in Keys(steps)
    ensures forall k :: k in ByKey(steps) ==> ByKey(steps)[k] in steps && ByKey(steps)[k].key == k
  {
    if |steps| > 0 {
      var init, last := steps[..|steps| - 1], steps[|steps| - 1];
      ByKeyMeaning(init);
      assert steps == init + [last];
      assert Keys(steps) == Keys(init) + {last.key};
    }
  }

  function Keys(steps: seq<Step>): set<string> { set s | s in steps :: s.key }

  // ---------------------------------------------------------------------------
  // The step graph
  // ---------------------------------------------------------------------------

  function ArmTargets(arms: seq<Arm>): seq<Target> {
    seq(|arms|, i requires 0 <= i < |arms| => Some(arms[i].next))
  }

  /** Every edge out of a step, in the order the validator lists them. */
  function Targets(step: Step): seq<Target> {
    [step.next, step.onError] +
    match step.kind
    case Branch(arms, fallback) => ArmTargets(arms) + [fallback]
    case Approval(onReject) => [onReject]
    case _ => []
  }

  ghost predicate Edge(def: Definition, a: string, b: string) {
    a in ByKey(def.steps) && b != "" && Some(b) in Targets(ByKey(def.steps)[a])
  }

  ghost predicate IsPath(def: Definition, path: seq<string>) {
    |path| > 0 && forall i {:trigger path[i]} :: 0 < i < |path| ==> Edge(def, path[i - 1], path[i])
  }

  ghost predicate Reachable(def: Definition, key: string) {
    exists path :: IsPath(def, path) && path[0] == def.startStep && path[|path| - 1] == key
  }

  lemma ReachableStart(def: Definition)
    ensures Reachable(def, def.startStep)
  {
    var path := [def.startStep];
    assert IsPath(def, path) && path[0] == def.startStep && path[|path| - 1] == def.startStep;
  }

  lemma ReachableEdge(def: Definition, a: string, b: string)
    requires Reachable(def, a) && Edge(def, a, b)
    ensures Reachable(def, b)
  {
    var path :| IsPath(def, path) && path[0] == def.startStep && path[|path| - 1] == a;
    var longer := path + [b];
    forall i {:trigger longer[i]} | 0 < i < |longer| ensures Edge(def, longer[i - 1], longer[i]) {
      if i < |path| { assert longer[i] == path[i] && longer[i - 1] == path[i - 1]; }
    }
    assert IsPath(def, longer) && longer[0] == def.startStep && longer[|longer| - 1] == b;
  }

  /** A set that holds the start and is closed under edges holds everything reachable. */
  lemma {:induction false} ClosedHoldsPath(def: Definition, keys: set<string>, path: seq<string>)
    requires IsPath(def, path) && path[0] in keys
    requires forall a, b :: a in keys && Edge(def, a, b) ==> b in keys
    ensures path[|path| - 1] in keys
  {
    if |path| > 1 {
      var shorter := path[..|path| - 1];
      forall i {:trigger shorter[i]} | 0 < i < |shorter| ensures Edge(def, shorter[i - 1], shorter[i]) {
        assert shorter[i] == path[i] && shorter[i - 1] == path[i - 1];
      }
      ClosedHoldsPath(def, keys, shorter);
      assert Edge(def, path[|path| - 2], path[|path| - 1]);
    }
  }

  // ---------------------------------------------------------------------------
  // What makes a definition acceptable
  // ---------------------------------------------------------------------------

  datatype Reference = ContinuesTo | RoutesErrorsTo | BranchesTo | DefaultsTo | RoutesRejectionTo

  datatype Issue =
    | MalformedShape
    | DuplicateKey(key: string)
    | UnknownStart
    | UnknownTarget(from: string, what: Reference, target: string)
    | DelayWithoutTarget(key: string)
    | NoContinuation(key: string)
    | NoEndStep
    | Unreachable(key: string)

  predicate KeyShape(key: string) {
    1 <= |key| <= 60 && forall c :: c in key ==> 'a' <= c <= 'z' || '0' <= c <= '9' || c == '-'
  }

  predicate StepShape(step: Step) {
    && KeyShape(step.key)
    && (step.kind.Branch? ==> |step.kind.arms| >= 1)
    && (step.kind.Delay? ==> step.kind.forMillis != Some(0))
  }

  /** What the schema library has already guaranteed when the checks below start. */
  predicate Shaped(def: Definition) {
    && def.startStep != ""
    && |def.steps| >= 1
    && 1 <= def.maxSteps <= 200
    && forall s :: s in def.steps ==> StepShape(s)
  }

  predicate Refers(step: Step, what: Reference, target: string) {
    match what
    case ContinuesTo => step.next == Some(target)
    case RoutesErrorsTo => step.onError == Some(target)
    case BranchesTo => step.kind.Branch? && exists a :: a in step.kind.arms && a.next == target
    case DefaultsTo => step.kind.Branch? && step.kind.fallback == Some(target)
    case RoutesRejectionTo => step.kind.Approval? && step.kind.onReject == Some(target)
  }

  /** The defects one step can have, given the keys that exist. */
  predicate StepFlaw(step: Step, keys: set<string>, issue: Issue) {
    match issue
    case UnknownTarget(from, what, target) =>
      from == step.key && Refers(step, what, target) && target != "" && target !in keys
    case DelayWithoutTarget(key) =>
      key == step.key && step.kind.Delay? && step.kind.forMillis.None? && !Live(step.kind.untilField)
    case NoContinuation(key) =>
      key == step.key && !step.kind.End? && !step.kind.Branch? && !Live(step.next)
    case _ => false
  }

  ghost predicate RepeatedKey(steps: seq<Step>, key: string) {
    exists i, j :: 0 <= i < j < |steps| && steps[i].key == key && steps[j].key == key
  }

  /** What each message of the validator asserts about the definition. */
  ghost predicate Flaw(def: Definition, issue: Issue) {
    if !Shaped(def) then issue == MalformedShape
    else match issue
      case MalformedShape => false
      case DuplicateKey(key) => RepeatedKey(def.steps, key)
      case UnknownStart => def.startStep !in Keys(def.steps)
      case NoEndStep => forall s :: s in def.steps ==> !s.kind.End?
      case Unreachable(key) => key in Keys(def.steps) && !Reachable(def, key)
      case _ => SomeStepFlaw(def.steps, Keys(def.steps), issue)
  }

  predicate SomeStepFlaw(steps: seq<Step>, keys: set<string>, issue: Issue) {
    exists s :: s in steps && StepFlaw(s, keys, issue)
  }

  ghost predicate Accepted(def: Definition) { forall issue :: !Flaw(def, issue) }

  // ---------------------------------------------------------------------------
  // The validator
  // ---------------------------------------------------------------------------

  method StepIssues(step: Step, keys: set<string>) returns (issues: seq<Issue>)
    ensures forall issue :: issue in issues <==> StepFlaw(step, keys, issue)
  {
    issues := ReferenceIssue(step.next, step.key, ContinuesTo, keys);
    var more := ReferenceIssue(step.onError, step.key, RoutesErrorsTo, keys);
    issues := issues + more;
    if step.kind.Branch? {
      var arms := step.kind.arms;
      ghost var before := issues;
      for i := 0 to |arms|
        invariant forall issue :: issue in issues <==>
          issue in before ||
          (issue.UnknownTarget? && issue.from == step.key && issue.what == BranchesTo && issue.target != "" &&
           issue.target !in keys && exists j :: 0 <= j < i && arms[j].next == issue.target)
      {
        more := ReferenceIssue(Some(arms[i].next), step.key, BranchesTo, keys);
        issues := issues + more;
      }
      more := ReferenceIssue(step.kind.fallback, step.key, DefaultsTo, keys);
      issues := issues + more;
    }
    if step.kind.Approval? {
      more := ReferenceIssue(step.kind.onReject, step.key, RoutesRejectionTo, keys);
      issues := issues + more;
    }
    if step.kind.Delay? && step.kind.forMillis.None? && !Live(step.kind.untilField) {
      issues := issues + [DelayWithoutTarget(step.key)];
    }
    if !step.kind.End? && !step.kind.Branch? && !Live(step.next) {
      issues := issues + [NoContinuation(step.key)];
    }
  }

  method ReferenceIssue(target: Target, from: string, what: Reference, keys: set<string>)
    returns (issues: seq<Issue>)
    ensures forall issue :: issue in issues <==>
      target.Some? && target.value != "" && target.value !in keys &&
      issue == UnknownTarget(from, what, target.value)
  {
    issues := if Live(target) && target.value !in keys then [UnknownTarget(from, what, target.value)] else [];
  }

  function AllTargets(steps: seq<Step>): set<string> {
    set s, t | s in steps && t in Targets(s) && t.Some? :: t.value
  }

  function LiveTargets(targets: seq<Target>): set<string> { set t | t in targets && Live(t) :: t.value }

  /** Adds the targets not seen before to both the reachable set and the worklist. */
  method PushTargets(targets: seq<Target>, seen: set<string>, queue0: seq<string>)
    returns (reachable: set<string>, queue: seq<string>)
    ensures reachable == seen + LiveTargets(targets)
    ensures forall k :: k in queue <==> k in queue0 || k in reachable - seen
    ensures reachable == seen ==> queue == queue0
  {
    reachable, queue := seen, queue0;
    for i := 0 to |targets|
      invariant reachable == seen + LiveTargets(targets[..i])
      invariant forall k :: k in queue <==> k in queue0 || k in reachable - seen
      invariant reachable == seen ==> queue == queue0
    {
      var t := targets[i];
      assert targets[..i + 1] == targets[..i] + [t];
      assert LiveTargets(targets[..i + 1]) == LiveTargets(targets[..i]) + if Live(t) then {t.value} else {};
      if Live(t) && t.value !in reachable {
        reachable := reachable + {t.value};
        queue := queue + [t.value];
      }
    }
    assert targets[..|targets|] == targets;
  }

  /** The worklist at the heart of the validator: it computes exactly the reachable keys. */
  method ReachableKeys(def: Definition) returns (reachable: set<string>)
    ensures forall key :: key in reachable <==> Reachable(def, key)
  {
    reachable := {def.startStep};
    var queue := [def.startStep];
    var byKey := ByKey(def.steps);
    ghost var universe := {def.startStep} + AllTargets(def.steps);
    ReachableStart(def);
    while |queue| > 0
      invariant def.startStep in reachable && reachable <= universe
      invariant Worklist(def, reachable, queue)
      decreases |universe - reachable|, |queue|
    {
      var key := queue[0];
      ghost var was, waiting := reachable, queue;
      queue := queue[1..];
      if key in byKey {
        reachable, queue := PushTargets(Targets(byKey[key]), reachable, queue);
      }
      SuccessorsReachable(def, key);
      WorklistNext(def, was, waiting, reachable, queue);
      LessToFind(universe, was, Successors(def, key), reachable);
    }
    ClosedHoldsReachable(def, reachable);
  }

  /** Everything found is reachable, and what is not waiting has had its targets found. */
  ghost predicate Worklist(def: Definition, reachable: set<string>, queue: seq<string>) {
    && (forall k :: k in queue ==> k in reachable)
    && (forall k :: k in reachable ==> Reachable(def, k))
    && forall a :: a in reachable && a !in queue ==> Successors(def, a) <= reachable
  }

  lemma LessToFind(universe: set<string>, was: set<string>, found: set<string>, reachable: set<string>)
    requires was <= universe && found <= universe && reachable == was + found
    ensures reachable <= universe && (reachable != was ==> |universe - reachable| < |universe - was|)
  {
    if reachable != was { SmallerSet(universe - reachable, universe - was); }
  }

  /** What was waiting first has been dealt with, and what it leads to has been found and waits. */
  lemma WorklistNext(def: Definition, was: set<string>, waiting: seq<string>, reachable: set<string>, queue: seq<string>)
    requires Worklist(def, was, waiting) && |waiting| > 0
    requires reachable == was + Successors(def, waiting[0])
    requires forall k :: k in queue <==> k in waiting[1..] || k in reachable - was
    ensures Worklist(def, reachable, queue)
  {
    assert waiting == [waiting[0]] + waiting[1..];
    assert waiting[0] in waiting;
    SuccessorsReachable(def, waiting[0]);
  }

  function Successors(def: Definition, key: string): set<string> {
    if key in ByKey(def.steps) then LiveTargets(Targets(ByKey(def.steps)[key])) else {}
  }

  lemma ClosedHoldsReachable(def: Definition, keys: set<string>)
    requires def.startStep in keys
    requires forall a :: a in keys ==> Successors(def, a) <= keys
    ensures forall key :: Reachable(def, key) ==> key in keys
  {
    forall key | Reachable(def, key) ensures key in keys {
      var path :| IsPath(def, path) && path[0] == def.startStep && path[|path| - 1] == key;
      forall a, b | a in keys && Edge(def, a, b) ensures b in keys {
        assert b in Successors(def, a);
      }
      ClosedHoldsPath(def, keys, path);
    }
  }

  lemma SuccessorsReachable(def: Definition, key: string)
    requires Reachable(def, key)
    ensures forall b :: b in Successors(def, key) ==> Reachable(def, b)
    ensures Successors(def, key) <= AllTargets(def.steps)
  {
    ByKeyMeaning(def.steps);
    forall b | b in Successors(def, key) ensures Reachable(def, b) && b in AllTargets(def.steps) {
      ReachableEdge(def, key, b);
    }
  }

  lemma {:induction false} SmallerSet<T>(a: set<T>, b: set<T>)
    requires a < b
    ensures |a| < |b|
  {
    assert b == a + (b - a) && |b| == |a| + |b - a|;
    assert b - a != {};
  }

  method DuplicateIssues(steps: seq<Step>) returns (issues: seq<Issue>, keys: set<string>)
    ensures keys == Keys(steps)
    ensures forall issue :: issue in issues <==> issue.DuplicateKey? && RepeatedKey(steps, issue.key)
  {
    issues, keys := [], {};
    for i := 0 to |steps|
      invariant keys == Keys(steps[..i])
      invariant forall issue :: issue in issues <==> issue.DuplicateKey? && RepeatedKey(steps[..i], issue.key)
    {
      if steps[i].key in keys { issues := issues + [DuplicateKey(steps[i].key)]; }
      keys := keys + {steps[i].key};
    }
    assert steps[..|steps|] == steps;
  }

  method AllStepIssues(steps: seq<Step>, keys: set<string>) returns (issues: seq<Issue>)
    ensures forall issue :: issue in issues <==> SomeStepFlaw(steps, keys, issue)
  {
    issues := [];
    for i := 0 to |steps|
      invariant forall issue :: issue in issues <==> SomeStepFlaw(steps[..i], keys, issue)
    {
      var more := StepIssues(steps[i], keys);
      issues := issues + more;
      assert steps[..i + 1] == steps[..i] + [steps[i]];
    }
    assert steps[..|steps|] == steps;
  }

  method UnreachableIssues(steps: seq<Step>, reachable: set<string>) returns (issues: seq<Issue>)
    ensures forall issue :: issue in issues <==>
      issue.Unreachable? && issue.key in Keys(steps) && issue.key !in reachable
  {
    issues := [];
    for i := 0 to |steps|
      invariant forall issue :: issue in issues <==>
        issue.Unreachable? && issue.key in Keys(steps[..i]) && issue.key !in reachable
    {
      if steps[i].key !in reachable { issues := issues + [Unreachable(steps[i].key)]; }
      assert steps[..i + 1] == steps[..i] + [steps[i]];
    }
    assert steps[..|steps|] == steps;
  }

  /** `parseWorkflowDefinition`: every message is true, every defect has its message. */
  method ParseDefinition(def: Definition) returns (result: Result<Definition, seq<Issue>>)
    ensures result.Ok? <==> Accepted(def)
    ensures result.Ok? ==> result.value == def
    ensures result.Err? ==> forall issue :: issue in result.error <==> Flaw(def, issue)
  {
    if !Shaped(def) {
      assert Flaw(def, MalformedShape);
      return Err([MalformedShape]);
    }
    var issues, keys := DuplicateIssues(def.steps);
    if def.startStep !in keys { issues := issues + [UnknownStart]; }
    var stepIssues := AllStepIssues(def.steps, keys);
    issues := issues + stepIssues;
    if !exists s :: s in def.steps && s.kind.End? { issues := issues + [NoEndStep]; }
    var reachable := ReachableKeys(def);
    var unreachable := UnreachableIssues(def.steps, reachable);
    issues := issues + unreachable;
    forall issue ensures issue in issues <==> Flaw(def, issue) {
      match issue
      case UnknownTarget(_, _, _) => assert issue in stepIssues <==> SomeStepFlaw(def.steps, keys, issue);
      case _ =>
    }
    if |issues| > 0 {
      assert issues[0] in issues;
      return Err(issues);
    }
    return Ok(def);
  }

}
