/** When `advanceRun` comes back (packages/workflow/src/engine.ts). */
module WorkflowTermination {
  // Passing over a step that already succeeded does not count against the step budget, so the budget alone
  // does not stop a definition that loops. Here: without a ring of steps that can be passed over one after
  // another, every call of every history returns. WorkflowHanging has the converse.

  import opened Prelude
  import opened WorkflowSchema
  import opened WorkflowEngine
  import opened WorkflowSafety
  import opened WorkflowOnce

  // ---------------------------------------------------------------------------
  // The part of the step graph a run can really follow
  // ---------------------------------------------------------------------------

  predicate CanSucceed(dry: bool, step: Step) {
    match step.kind
    case Delay(forMillis, untilField) => forMillis.Some? || untilField.Some?
    case UpdateField(table, _, regulated) => dry || regulated || table in WRITABLE_TABLES
    case _ => true
  }

  predicate CanFail(dry: bool, step: Step) {
    match step.kind
    case Branch(arms, _) => |arms| > 0
    case Delay(forMillis, _) => forMillis.None?
    case AiCapability(_) => true
    case End => false
    case _ => !dry
  }

  /** Where a step that succeeded can lead: a rejection takes a person, so not in a dry run. */
  predicate CanPassTo(dry: bool, step: Step, t: Target) {
    t == step.next || (!dry && step.kind.Approval? && t == step.kind.onReject)
  }

  /** A step that is passed over once it has succeeded. */
  predicate Passable(dry: bool, step: Step) { !step.kind.Branch? && !step.kind.End? && CanSucceed(dry, step) }

  predicate CanGo(dry: bool, step: Step, t: Target) {
    || (Passable(dry, step) && CanPassTo(dry, step, t))
    || (step.when.Some? && t == step.next)
    || (CanFail(dry, step) && t == step.onError)
    || (step.kind.Branch? && (t == step.kind.fallback || exists a :: a in step.kind.arms && t == Some(a.next)))
  }

  predicate GoesOn(def: Definition, dry: bool, a: string, b: string) {
    a in ByKey(def.steps) && a != "" && b != "" && CanGo(dry, ByKey(def.steps)[a], Some(b))
  }

  /** A way from the start step. */
  predicate IsRoute(def: Definition, dry: bool, path: seq<string>) {
    && |path| > 0 && path[0] == def.startStep != ""
    && forall i, j {:trigger path[i], path[j]} :: 0 <= i && j == i + 1 < |path| ==> GoesOn(def, dry, path[i], path[j])
  }

  ghost predicate Within(def: Definition, dry: bool, key: string) {
    exists path :: IsRoute(def, dry, path) && path[|path| - 1] == key
  }

  predicate Distinct(keys: seq<string>) { forall i, j :: 0 <= i < j < |keys| ==> keys[i] != keys[j] }

  predicate PassesOn(def: Definition, dry: bool, a: string, b: string) {
    && a in ByKey(def.steps) && a != "" && b != ""
    && Passable(dry, ByKey(def.steps)[a]) && CanPassTo(dry, ByKey(def.steps)[a], Some(b))
  }

  /** Different steps, each of which, once it has succeeded, is passed over to the one after it, and so round. */
  predicate IsRing(def: Definition, dry: bool, ring: seq<string>) {
    && |ring| > 0 && Distinct(ring)
    && (forall i, j {:trigger ring[i], ring[j]} :: 0 <= i && j == i + 1 < |ring| ==> PassesOn(def, dry, ring[i], ring[j]))
    && PassesOn(def, dry, ring[|ring| - 1], ring[0])
  }

  /** The condition a maintainer can check on the definition alone. */
  ghost predicate SkipRing(def: Definition, dry: bool) {
    exists ring :: IsRing(def, dry, ring) && Within(def, dry, ring[0])
  }

  lemma WithinGoesOn(def: Definition, dry: bool, a: string, b: string)
    requires Within(def, dry, a) && GoesOn(def, dry, a, b)
    ensures Within(def, dry, b)
  {
    var path :| IsRoute(def, dry, path) && path[|path| - 1] == a;
    var longer := path + [b];
    forall i, j {:trigger longer[i], longer[j]} | 0 <= i && j == i + 1 < |longer| ensures GoesOn(def, dry, longer[i], longer[j]) {
      if j < |path| { assert longer[i] == path[i] && longer[j] == path[j]; }
    }
    assert IsRoute(def, dry, longer) && longer[|longer| - 1] == b;
  }

  lemma WithinStart(def: Definition, dry: bool)
    requires def.startStep != ""
    ensures Within(def, dry, def.startStep)
  {
    var path := [def.startStep];
    assert IsRoute(def, dry, path) && path[|path| - 1] == def.startStep;
  }

  // ---------------------------------------------------------------------------
  // Every run stays inside it
  // ---------------------------------------------------------------------------

  ghost predicate Leads(def: Definition, dry: bool, t: Target) { Live(t) ==> Within(def, dry, t.value) }

  /** Every row is of a step inside, and a step that succeeded is one that can. */
  ghost predicate RowsWithin(def: Definition, run: Run) {
    forall r :: r in run.ledger ==>
      Within(def, run.dryRun, r.key) && r.key in ByKey(def.steps)
      && (r.status == Succeeded ==> CanSucceed(run.dryRun, ByKey(def.steps)[r.key]))
  }

  ghost predicate RestWithin(def: Definition, run: Run) {
    && Rest(def, run) && RowsWithin(def, run) && Leads(def, run.dryRun, run.current)
    && (!Terminal(run.status) ==> NotEnded(def, run.ledger))
  }

  ghost predicate LoopWithin(def: Definition, c: Config) {
    && AtTurn(def, c) && RowsWithin(def, c.run) && NotEnded(def, c.run.ledger)
    && Leads(def, c.run.dryRun, c.run.current) && Leads(def, c.run.dryRun, c.current)
  }

  /** The part of it that is about where the run has been and goes. */
  ghost predicate LandsWithin(def: Definition, dry: bool, turned: Turned) {
    match turned
    case Continue(c) =>
      c.run.dryRun == dry && RowsWithin(def, c.run) && Leads(def, dry, c.run.current) && Leads(def, dry, c.current)
    case Stop(run, _) => run.dryRun == dry && RowsWithin(def, run) && Leads(def, dry, run.current)
    case Raise => true
  }

  predicate IsStep(def: Definition, step: Step) {
    step.key in ByKey(def.steps) && ByKey(def.steps)[step.key] == step && step.key != ""
  }

  lemma StepLeads(def: Definition, dry: bool, step: Step, t: Target)
    requires IsStep(def, step) && Within(def, dry, step.key) && CanGo(dry, step, t)
    ensures Leads(def, dry, t)
  {
    if Live(t) { WithinGoesOn(def, dry, step.key, t.value); }
  }

  lemma ExecuteCan(w: World, step: Step, context: Context, executed: nat, dry: bool)
    ensures Execute(w, step, context, executed, dry).Success? ==> CanSucceed(dry, step)
    ensures Execute(w, step, context, executed, dry).Failure? ==> CanFail(dry, step)
  {
  }

  lemma ResumeWithin(def: Definition, step: Step, c: Config, row: Row)
    requires LoopWithin(def, c) && IsStep(def, step) && Within(def, c.run.dryRun, step.key)
    requires Prior(c.run.ledger, step.key) == Some(row) && !step.kind.Branch?
    ensures LandsWithin(def, c.run.dryRun, Resume(step, c, row.output))
  {
    PriorMeaning(c.run.ledger, step.key);
    assert Passable(c.run.dryRun, step);
    StepLeads(def, c.run.dryRun, step, step.next);
    match Resume(step, c, row.output)
    case Continue(next) => if next.current != step.next { StepLeads(def, c.run.dryRun, step, next.current); }
    case _ =>
  }

  lemma FailedWithin(def: Definition, step: Step, c: Config, message: string)
    requires LoopWithin(def, c) && IsStep(def, step) && Within(def, c.run.dryRun, step.key)
    requires CanFail(c.run.dryRun, step)
    ensures LandsWithin(def, c.run.dryRun, Failed(step, c, message))
  {
    StepLeads(def, c.run.dryRun, step, step.onError);
  }

  lemma BypassWithin(def: Definition, step: Step, c: Config)
    requires LoopWithin(def, c) && IsStep(def, step) && Within(def, c.run.dryRun, step.key) && step.when.Some?
    ensures LandsWithin(def, c.run.dryRun, Bypass(step, c))
  {
    StepLeads(def, c.run.dryRun, step, step.next);
  }

  lemma FreshWithin(def: Definition, w: World, step: Step, c: Config)
    requires LoopWithin(def, c) && IsStep(def, step) && Within(def, c.run.dryRun, step.key)
    ensures LandsWithin(def, c.run.dryRun, Fresh(w, step, c))
  {
    if step.when.Some? { BypassWithin(def, step, c); }
    ExecuteCan(w, step, c.context, c.executed, c.run.dryRun);
    match Execute(w, step, c.context, c.executed, c.run.dryRun)
    case Failure(message) => FailedWithin(def, step, c, message);
    case Success(_, _, _, _) => SucceedWithin(def, w, step, c);
    case Lost =>
  }

  lemma RowAdded(def: Definition, c: Config, step: Step, e: Execution)
    requires RowsWithin(def, c.run) && IsStep(def, step) && Within(def, c.run.dryRun, step.key)
    requires e.Success? && CanSucceed(c.run.dryRun, step)
    ensures RowsWithin(def, AfterSuccess(step, c, e)) && AfterSuccess(step, c, e).dryRun == c.run.dryRun
  {
  }

  lemma SucceedWithin(def: Definition, w: World, step: Step, c: Config)
    requires LoopWithin(def, c) && IsStep(def, step) && Within(def, c.run.dryRun, step.key)
    requires Execute(w, step, c.context, c.executed, c.run.dryRun).Success?
    ensures LandsWithin(def, c.run.dryRun, Succeed(step, c, Execute(w, step, c.context, c.executed, c.run.dryRun)))
  {
    var dry := c.run.dryRun;
    var e := Execute(w, step, c.context, c.executed, dry);
    ExecuteCan(w, step, c.context, c.executed, dry);
    ExecuteEffect(def, w, step, c.context, c.executed, dry);
    RowAdded(def, c, step, e);
    if step.kind.Branch? {
      TakeBranchShape(w, step.kind.arms, step.kind.fallback, c.context);
      StepLeads(def, dry, step, e.jump.value);
    } else if !step.kind.End? {
      StepLeads(def, dry, step, step.next);
    }
    SucceedLands(def, step, c, e);
  }

  lemma SucceedLands(def: Definition, step: Step, c: Config, e: Execution)
    requires e.Success? && RowsWithin(def, AfterSuccess(step, c, e)) && IsStep(def, step)
    requires Leads(def, c.run.dryRun, Some(step.key)) && Leads(def, c.run.dryRun, c.run.current)
    requires if e.jump.Some? then Leads(def, c.run.dryRun, e.jump.value)
             else (step.kind.End? && e.wait.NoWait?) || Leads(def, c.run.dryRun, step.next)
    ensures LandsWithin(def, c.run.dryRun, Succeed(step, c, e))
  {
  }

  lemma TurnWithin(def: Definition, w: World, c: Config)
    requires LoopWithin(def, c) && Looping(def, c)
    ensures Lands(Turn(def, w, c), run => RestWithin(def, run), x => LoopWithin(def, x))
  {
    TurnKeeps(def, w, c);
    TurnStaysOpen(def, w, c);
    ByKeyMeaning(def.steps);
    var key := c.current.value;
    if key in ByKey(def.steps) {
      var step := ByKey(def.steps)[key];
      var prior := Prior(c.run.ledger, key);
      if prior.Some? && !step.kind.Branch? {
        ResumeWithin(def, step, c, prior.value);
      } else {
        FreshWithin(def, w, step, c);
      }
    }
    assert LandsWithin(def, c.run.dryRun, Turn(def, w, c));
  }

  lemma DecideWithin(def: Definition, run: Run, key: string, approve: bool, permitted: bool, hasNote: bool)
    requires RestWithin(def, run) && Decide(run, key, approve, permitted, hasNote).Ok?
    ensures RestWithin(def, Decide(run, key, approve, permitted, hasNote).value)
  {
    DecideKeeps(def, run, key, approve, permitted, hasNote);
    assert IsPending(run.approvals, key);
  }

  lemma EntryWithin(def: Definition, run: Run)
    requires RestWithin(def, run) && run.status in {Running, Waiting}
    ensures LoopWithin(def, Entry(def, run))
  {
    if def.startStep != "" { WithinStart(def, run.dryRun); }
  }

  lemma BeginWithin(def: Definition, context: Context, dryRun: bool)
    ensures RestWithin(def, Begin(def, context, dryRun))
  {
    if def.startStep != "" { WithinStart(def, dryRun); }
  }

  lemma AfterLoopWithin(def: Definition, c: Config)
    requires LoopWithin(def, c) && !Looping(def, c)
    ensures RestWithin(def, AfterLoop(def, c).run)
  {
    SoundSame(def, c.run, AfterLoop(def, c).run);
  }

  lemma WithinAlways(def: Definition, calls: seq<Call>, runs: seq<Run>, i: nat)
    requires IsHistory(def, calls, runs) && i < |runs|
    ensures RestWithin(def, runs[i])
  {
    var rest, loop := run => RestWithin(def, run), c => LoopWithin(def, c);
    forall context, dryRun ensures rest(Begin(def, context, dryRun)) { BeginWithin(def, context, dryRun); }
    forall run | rest(run) && run.status in {Running, Waiting} ensures loop(Entry(def, run)) { EntryWithin(def, run); }
    forall w, c | loop(c) && Looping(def, c) ensures Lands(Turn(def, w, c), rest, loop) {
      TurnWithin(def, w, c);
    }
    forall c | loop(c) && !Looping(def, c) ensures rest(AfterLoop(def, c).run) { AfterLoopWithin(def, c); }
    forall run, key, approve, permitted, hasNote
      | rest(run) && Decide(run, key, approve, permitted, hasNote).Ok?
      ensures rest(Decide(run, key, approve, permitted, hasNote).value)
    {
      DecideWithin(def, run, key, approve, permitted, hasNote);
    }
    HistoryKeeps(def, rest, loop, calls, runs, i);
  }

  // ---------------------------------------------------------------------------
  // Passing over steps
  // ---------------------------------------------------------------------------

  /** What passing over steps looks at, and leaves alone. */
  datatype Standing = Standing(ledger: seq<Row>, approvals: map<string, ApprovalStatus>)

  function Stands(run: Run): Standing { Standing(run.ledger, run.approvals) }

  /** Where the loop goes from `t` if the step there has already succeeded; `None` if it does not pass over it. */
  function Hop(def: Definition, b: Standing, t: Target): Option<Target> {
    if !Live(t) || t.value !in ByKey(def.steps) || Prior(b.ledger, t.value).None? then None
    else
      var step := ByKey(def.steps)[t.value];
      if step.kind.Branch? || step.kind.End? then None
      else if step.kind.Approval? && t.value in b.approvals && b.approvals[t.value] != Approved then
        if b.approvals[t.value] == Pending || !Live(step.kind.onReject) then None else Some(step.kind.onReject)
      else Some(step.next)
  }

  predicate Escapes(def: Definition, b: Standing, t: Target, hops: nat)
    decreases hops
  {
    var next := Hop(def, b, t);
    next.None? || (hops > 0 && Escapes(def, b, next.value, hops - 1))
  }

  // ---------------------------------------------------------------------------
  // If skipping does not escape within one visit per step, it goes round a ring
  // ---------------------------------------------------------------------------

  /** `t` after `n` hops; stays put once it has left. */
  function After(def: Definition, b: Standing, t: Target, n: nat): Target {
    if n == 0 then t
    else
      var before := After(def, b, t, n - 1);
      if Hop(def, b, before).None? then before else Hop(def, b, before).value
  }

  lemma {:induction false} AfterStep(def: Definition, b: Standing, t: Target, n: nat)
    requires Hop(def, b, t).Some?
    ensures After(def, b, t, n + 1) == After(def, b, Hop(def, b, t).value, n)
  {
    if n > 0 { AfterStep(def, b, t, n - 1); }
  }

  lemma {:induction false} LeavesEscapes(
    def: Definition, b: Standing, t: Target, m: nat, n: nat)
    requires m <= n && Hop(def, b, After(def, b, t, m)).None?
    ensures Escapes(def, b, t, n)
    decreases n
  {
    var next := Hop(def, b, t);
    if next.Some? && m > 0 {
      AfterStep(def, b, t, m - 1);
      LeavesEscapes(def, b, next.value, m - 1, n - 1);
    }
  }

  /** The first `n` positions. */
  function Visited(def: Definition, b: Standing, t: Target, n: nat): (path: seq<Target>)
    ensures |path| == n && forall i :: 0 <= i < n ==> path[i] == After(def, b, t, i)
  {
    seq(n, i requires 0 <= i < n => After(def, b, t, i))
  }

  lemma {:induction false} DistinctSize<T>(xs: seq<T>)
    requires forall i, j :: 0 <= i < j < |xs| ==> xs[i] != xs[j]
    ensures |set x | x in xs| == |xs|
  {
    if |xs| > 0 {
      var init, last := xs[..|xs| - 1], xs[|xs| - 1];
      DistinctSize(init);
      assert xs == init + [last] && last !in init;
      assert (set x | x in xs) == (set x | x in init) + {last};
    }
  }

  lemma {:induction false} KeysBound(steps: seq<Step>)
    ensures |set k | k in ByKey(steps) :: Some(k)| <= |steps|
  {
    if |steps| > 0 {
      var init, key := steps[..|steps| - 1], steps[|steps| - 1].key;
      KeysBound(init);
      assert (set k | k in ByKey(steps) :: Some(k)) == (set k | k in ByKey(init) :: Some(k)) + {Some(key)};
    } else {
      assert (set k | k in ByKey(steps) :: Some(k)) == {};
    }
  }

  /** The first position that has been visited before, if there is any. */
  lemma {:induction false} FirstRepeat<T>(xs: seq<T>) returns (i: nat, j: nat)
    requires exists a, b :: 0 <= a < b < |xs| && xs[a] == xs[b]
    ensures i < j < |xs| && xs[i] == xs[j]
    ensures forall a, b :: 0 <= a < b < j ==> xs[a] != xs[b]
  {
    var init := xs[..|xs| - 1];
    if exists a, b :: 0 <= a < b < |init| && init[a] == init[b] {
      i, j := FirstRepeat(init);
      assert forall a, b :: 0 <= a < b < j ==> init[a] == xs[a] && init[b] == xs[b];
    } else {
      var a, b :| 0 <= a < b < |xs| && xs[a] == xs[b];
      assert forall c, d :: 0 <= c < d < |init| ==> init[c] == xs[c] && init[d] == xs[d];
      i, j := a, b;
    }
  }

  /** More positions than steps: some position comes twice. */
  lemma PositionsRepeat(def: Definition, b: Standing, path: seq<Target>)
    requires |path| > |def.steps| && forall i :: 0 <= i < |path| ==> Hop(def, b, path[i]).Some?
    ensures exists i, j :: 0 <= i < j < |path| && path[i] == path[j]
  {
    if forall i, j :: 0 <= i < j < |path| ==> path[i] != path[j] {
      DistinctSize(path);
      var keys := set k | k in ByKey(def.steps) :: Some(k);
      forall x | x in path ensures x in keys {
        var i :| 0 <= i < |path| && x == path[i];
        assert Hop(def, b, path[i]).Some?;
      }
      SubsetSize((set x | x in path), keys);
      KeysBound(def.steps);
    }
  }

  ghost predicate StandsWithin(def: Definition, dry: bool, b: Standing) {
    && (forall r :: r in b.ledger && r.status == Succeeded ==>
          Within(def, dry, r.key) && r.key in ByKey(def.steps) && CanSucceed(dry, ByKey(def.steps)[r.key]))
    && (dry ==> b.approvals == map[])
  }

  /** One hop follows the ring relation, between steps inside. */
  lemma HopPasses(def: Definition, dry: bool, b: Standing, t: Target)
    requires StandsWithin(def, dry, b) && Hop(def, b, t).Some?
    ensures Within(def, dry, t.value)
    ensures Live(Hop(def, b, t).value) ==> PassesOn(def, dry, t.value, Hop(def, b, t).value.value)
  {
    PriorMeaning(b.ledger, t.value);
  }

  /** Keys that pass on to each other and come round again hold a ring. */
  lemma RingFromKeys(def: Definition, dry: bool, keys: seq<string>)
    requires forall m, n {:trigger keys[m], keys[n]} :: 0 <= m && n == m + 1 < |keys| ==> PassesOn(def, dry, keys[m], keys[n])
    requires forall m :: 0 <= m < |keys| ==> Within(def, dry, keys[m])
    requires exists a, b :: 0 <= a < b < |keys| && keys[a] == keys[b]
    ensures SkipRing(def, dry)
  {
    var i, j := FirstRepeat(keys);
    var ring := keys[i..j];
    forall k, l {:trigger ring[k], ring[l]} | 0 <= k && l == k + 1 < |ring| ensures PassesOn(def, dry, ring[k], ring[l]) {
      assert ring[k] == keys[i + k] && ring[l] == keys[i + l];
    }
    assert PassesOn(def, dry, keys[j - 1], keys[j]);
    assert IsRing(def, dry, ring) && Within(def, dry, ring[0]);
  }

  lemma RingFromSkipping(def: Definition, dry: bool, b: Standing, t: Target)
    requires StandsWithin(def, dry, b) && !Escapes(def, b, t, |def.steps|)
    ensures SkipRing(def, dry)
  {
    var path := Visited(def, b, t, |def.steps| + 1);
    forall m: nat | m <= |def.steps| ensures Hop(def, b, path[m]).Some? {
      if Hop(def, b, After(def, b, t, m)).None? { LeavesEscapes(def, b, t, m, |def.steps|); }
    }
    PositionsRepeat(def, b, path);
    forall m, n {:trigger path[m], path[n]} | 0 <= m && n == m + 1 < |path|
      ensures path[n] == Hop(def, b, path[m]).value
    {
      assert path[m] == After(def, b, t, m) && path[n] == After(def, b, t, n);
    }
    RingFromHops(def, dry, b, path);
  }

  lemma RingFromHops(def: Definition, dry: bool, b: Standing, path: seq<Target>)
    requires StandsWithin(def, dry, b)
    requires forall m :: 0 <= m < |path| ==> Hop(def, b, path[m]).Some?
    requires forall m, n {:trigger path[m], path[n]} :: 0 <= m && n == m + 1 < |path| ==> path[n] == Hop(def, b, path[m]).value
    requires exists i, j :: 0 <= i < j < |path| && path[i] == path[j]
    ensures SkipRing(def, dry)
  {
    var keys := seq(|path|, m requires 0 <= m < |path| => path[m].value);
    forall m | 0 <= m < |keys| ensures Within(def, dry, keys[m]) { HopPasses(def, dry, b, path[m]); }
    forall m, n {:trigger keys[m], keys[n]} | 0 <= m && n == m + 1 < |keys| ensures PassesOn(def, dry, keys[m], keys[n]) {
      assert Hop(def, b, path[n]).Some?;
      HopPasses(def, dry, b, path[m]);
    }
    var i, j :| 0 <= i < j < |path| && path[i] == path[j];
    assert keys[i] == keys[j];
    RingFromKeys(def, dry, keys);
  }

  // ---------------------------------------------------------------------------
  // Every call returns
  // ---------------------------------------------------------------------------

  /** How far a turn gets: it spends budget, or it hops and leaves ledger and approvals alone. */
  predicate Progresses(def: Definition, c: Config, turned: Turned) {
    turned.Continue? ==>
      var next := turned.config;
      next.run.dryRun == c.run.dryRun
      && (next.executed == c.executed + 1
          || (next.executed == c.executed && Stands(next.run) == Stands(c.run) &&
              Hop(def, Stands(c.run), c.current) == Some(next.current)))
  }

  lemma ResumeHops(def: Definition, step: Step, c: Config, row: Row)
    requires IsStep(def, step) && c.current == Some(step.key) && NotEnded(def, c.run.ledger)
    requires Prior(c.run.ledger, step.key) == Some(row) && !step.kind.Branch?
    ensures Progresses(def, c, Resume(step, c, row.output))
  {
    PriorMeaning(c.run.ledger, step.key);
  }

  lemma FreshSpends(def: Definition, w: World, step: Step, c: Config)
    ensures Progresses(def, c, Fresh(w, step, c))
  {
  }

  lemma TurnProgress(def: Definition, w: World, c: Config)
    requires Live(c.current) && NotEnded(def, c.run.ledger)
    ensures Progresses(def, c, Turn(def, w, c))
  {
    ByKeyMeaning(def.steps);
    var key := c.current.value;
    if key in ByKey(def.steps) {
      var step := ByKey(def.steps)[key];
      var prior := Prior(c.run.ledger, key);
      if prior.Some? && !step.kind.Branch? { ResumeHops(def, step, c, prior.value); }
      FreshSpends(def, w, step, c);
    }
  }

  lemma LoopStands(def: Definition, c: Config)
    requires LoopWithin(def, c)
    ensures StandsWithin(def, c.run.dryRun, Stands(c.run))
  {
  }

  lemma TurnGoesOn(def: Definition, w: World, c: Config)
    requires LoopWithin(def, c) && Looping(def, c) && Turn(def, w, c).Continue?
    ensures var next := Turn(def, w, c).config;
      LoopWithin(def, next) && Progresses(def, c, Continue(next))
  {
    TurnProgress(def, w, c);
    TurnWithin(def, w, c);
  }

  lemma EscapesHop(def: Definition, b: Standing, t: Target, hops: nat)
    requires Escapes(def, b, t, hops) && Hop(def, b, t).Some?
    ensures hops > 0 && Escapes(def, b, Hop(def, b, t).value, hops - 1)
  {
  }

  lemma EndsHere(def: Definition, w: World, c: Config)
    requires !Looping(def, c) || !Turn(def, w, c).Continue?
    ensures Turns(def, w, c, 0).Some?
  {
  }

  lemma OneTurnMore(def: Definition, w: World, c: Config, n: nat)
    requires Looping(def, c) && Turn(def, w, c).Continue? && Turns(def, w, Turn(def, w, c).config, n).Some?
    ensures Turns(def, w, c, n + 1) == Turns(def, w, Turn(def, w, c).config, n)
  {
  }

  lemma {:induction false} LoopReturns(def: Definition, w: World, c: Config, hops: nat) returns (n: nat)
    requires LoopWithin(def, c) && !SkipRing(def, c.run.dryRun)
    requires Escapes(def, Stands(c.run), c.current, hops)
    ensures Turns(def, w, c, n).Some?
    decreases if c.executed < def.maxSteps then def.maxSteps - c.executed else 0, hops
  {
    if !Looping(def, c) || !Turn(def, w, c).Continue? {
      EndsHere(def, w, c);
      return 0;
    }
    var next := Turn(def, w, c).config;
    TurnGoesOn(def, w, c);
    if next.executed == c.executed + 1 {
      n := EntersAndReturns(def, w, next);
    } else {
      EscapesHop(def, Stands(c.run), c.current, hops);
      n := LoopReturns(def, w, next, hops - 1);
    }
    OneTurnMore(def, w, c, n);
    n := n + 1;
  }

  /** Without a ring, skipping escapes from wherever the loop is, and so the loop returns. */
  lemma {:induction false} EntersAndReturns(def: Definition, w: World, c: Config) returns (n: nat)
    requires LoopWithin(def, c) && !SkipRing(def, c.run.dryRun)
    ensures Turns(def, w, c, n).Some?
    decreases if c.executed < def.maxSteps then def.maxSteps - c.executed else 0, |def.steps| + 1
  {
    LoopStands(def, c);
    if !Escapes(def, Stands(c.run), c.current, |def.steps|) {
      RingFromSkipping(def, c.run.dryRun, Stands(c.run), c.current);
    }
    n := LoopReturns(def, w, c, |def.steps|);
  }

  /** Without a ring of steps to pass over, every call of every history returns, whatever the world. */
  lemma CallsReturn(def: Definition, calls: seq<Call>, runs: seq<Run>, i: nat, w: World)
    requires IsHistory(def, calls, runs) && i < |runs| && !SkipRing(def, runs[i].dryRun)
    ensures ComesBack(def, w, runs[i])
  {
    var run := runs[i];
    if Idle(run, w.now) {
      assert Advances(def, w, run, Returned(run, Report(run)));
    } else {
      WithinAlways(def, calls, runs, i);
      EntryWithin(def, run);
      var c := Entry(def, run);
      var n := EntersAndReturns(def, w, c);
      assert Returns(def, w, c, Turns(def, w, c, n).value);
      assert Advances(def, w, run, Turns(def, w, c, n).value);
    }
  }

  // ---------------------------------------------------------------------------
  // A sufficient condition read off the step graph
  // ---------------------------------------------------------------------------

  /** `next` and `onReject` between non-branch steps always go to a smaller rank. */
  predicate SkipRanked(def: Definition, rank: map<string, nat>) {
    var steps := ByKey(def.steps);
    forall k :: k in steps && !steps[k].kind.Branch? && !steps[k].kind.End? ==>
      && k in rank
      && RankBelow(steps, rank, steps[k].next, rank[k])
      && (steps[k].kind.Approval? ==> RankBelow(steps, rank, steps[k].kind.onReject, rank[k]))
  }

  predicate RankBelow(steps: map<string, Step>, rank: map<string, nat>, t: Target, bound: nat) {
    Live(t) && t.value in steps && !steps[t.value].kind.Branch? && !steps[t.value].kind.End? ==>
      t.value in rank && rank[t.value] < bound
  }

  lemma RankFalls(def: Definition, rank: map<string, nat>, dry: bool, a: string, b: string)
    requires SkipRanked(def, rank) && PassesOn(def, dry, a, b)
    ensures a in rank
    ensures b in ByKey(def.steps) && Passable(dry, ByKey(def.steps)[b]) ==> b in rank && rank[b] < rank[a]
  {
  }

  lemma {:induction false} RanksFallAlong(def: Definition, rank: map<string, nat>, dry: bool, ring: seq<string>, i: nat)
    requires SkipRanked(def, rank) && IsRing(def, dry, ring) && i < |ring|
    ensures ring[i] in rank && ring[0] in rank && rank[ring[i]] + i <= rank[ring[0]]
    ensures ring[i] in ByKey(def.steps) && Passable(dry, ByKey(def.steps)[ring[i]])
  {
    var last := |ring| - 1;
    if i < last { assert PassesOn(def, dry, ring[i], ring[i + 1]); }
    if i > 0 {
      RanksFallAlong(def, rank, dry, ring, i - 1);
      RankFalls(def, rank, dry, ring[i - 1], ring[i]);
    }
  }

  lemma RingFalls(def: Definition, rank: map<string, nat>, dry: bool, ring: seq<string>)
    requires SkipRanked(def, rank)
    ensures !IsRing(def, dry, ring)
  {
    if IsRing(def, dry, ring) {
      RanksFallAlong(def, rank, dry, ring, |ring| - 1);
      RanksFallAlong(def, rank, dry, ring, 0);
      RankFalls(def, rank, dry, ring[|ring| - 1], ring[0]);
    }
  }

  /** Continuations and rejection routes that descend a rank form no ring. */
  lemma RankedHasNoRing(def: Definition, rank: map<string, nat>, dry: bool)
    requires SkipRanked(def, rank)
    ensures !SkipRing(def, dry)
  {
    if SkipRing(def, dry) {
      var ring :| IsRing(def, dry, ring) && Within(def, dry, ring[0]);
      RingFalls(def, rank, dry, ring);
    }
  }
}
