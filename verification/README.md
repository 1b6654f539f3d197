# Solvenda: a verified model of the core engines

Solvenda is a case-management platform for debt advice. This project models the parts of it whose promises are hard
to check by reading one function, and proves those promises in Dafny:

- **Workflow engine.** `WorkflowSchema` is the definition validator with its reachability worklist, `WorkflowEngine` the
  resumable interpreter as functions on stored runs, `WorkflowRunner` the same interpreter as a class that updates its
  rows in place, proved to do exactly what those functions say. `WorkflowSafety`, `WorkflowReach`, `WorkflowOnce`,
  `WorkflowTermination`, `WorkflowHanging` and `WorkflowAwaiting` are theorems about every history of calls.
  `WorkflowFindings` has the definitions that fail: one that hangs, and three on which a step that succeeded runs again,
  two of them acyclic but running off and one never running off but with a cycle. It also has one that never hangs in
  spite of a ring.
- **Job queue.** `JobQueue`: claims, failures, back-off and reclaiming, over every interleaving with stale workers.
- **Money and codecs.** `Money`, `MoneyText`, `Base32`: largest-remainder distribution, frequency conversion, printing and
  reading amounts, and the base32 codec with its unmasked 32-bit accumulator.
- **Rules and minimisation.** `Rules`, `RuleMeaning`, `RuleLearning`, `Eligibility`: the rule evaluator with unknown
  information, what its operators mean, what learning more can change, which solutions are open. `Context`: what a
  language model is allowed to see.
- **Records with a history.** `Statement`, `StatementHistory`, `Vulnerability`, `Inbox`: stored rows proved equal to a
  function of everything that happened, or consistent in every reachable state.
- **Migration.** `MigrationPlan`, `Migration`, `MigrationProofs`: plan validation, a run with its counters, ledger and
  identity map, and reconciliation.

Every database call runs inside one tenant transaction (`packages/db/src/client.ts:92`), so one call is one atomic step
of the model. Tables are maps or sequences of rows. Clocks, random identifiers, the AI provider, message channels, the
authorisation decision, text scrubbing, date reading and the database's refusals are parameters, universally quantified
in the theorems: the results hold whatever they answer.

## Where the code and its documentation disagree

The model follows the code. Each point below is proved.

- `packages/workflow/src/engine.ts:131` and `packages/workflow/src/schema.ts:107` say the step budget stops a definition
  that loops. Passing over a step that succeeded earlier does not spend budget, so an accepted definition of two tasks
  continuing to each other never returns (`WorkflowFindings.LoopNeverReturns`). Every call of every history returns unless
  the definition has a ring of steps that can be passed over and that a run can reach (`WorkflowTermination.CallsReturn`);
  if it has one, and on the way to it and around it no two steps ask the same question and the budget is enough, some
  history does hang (`WorkflowHanging.HangsIffRing`). Where one question is asked twice, a ring may be out of reach
  (`WorkflowFindings.SharedQuestionNeverHangs`).
- A step that succeeded is said never to run again. The ledger's key holds a sequence number that restarts with every
  call and a colliding row is dropped. A success is lost, and the step runs again, if and only if its slot was taken
  (`WorkflowAwaiting.SuccessLostIff`). So a branch without a default makes a message step send once per call
  (`WorkflowFindings.ResendsForever`), an end step with a condition can leave an approved run waiting forever
  (`WorkflowFindings.ApprovedRunStuck`), and so can a cycle (`WorkflowFindings.CycleAsksTwice`). On acyclic definitions
  that always say where to go next it cannot happen (`WorkflowOnce.AtMostOnce`).
- A run awaiting approval is meant to have something to approve. In every history it has if and only if the step asked
  once (`WorkflowAwaiting.AwaitingIsPendingIff`), and on those definitions always (`WorkflowAwaiting.AwaitingIsPending`).
- A call can report that the run completed while the stored run goes on running: exactly when its loop came to a place
  with nowhere to go (`WorkflowAwaiting.ReportsStoredIff`).
- A job that succeeded or died can change again after its job was taken back from a worker that is still alive, and only
  then (`JobQueue.UndoneIff`): back to the queue or, on its last attempt, dead (`JobQueue.SuccessUndone`).
- An amount entered and a monthly figure do not always survive conversion: `Money.EnteredSurvivesIff` and
  `Money.MonthlySurvivesIff` say for every frequency which do.
- A rule nested deeper than 24 levels can be satisfied before a fact is known and fail to evaluate after
  (`RuleLearning.LearningCanRevokeDeepRule`): exactly when what evaluation then looks at lies deeper
  (`RuleLearning.KeptIff`).
- The ruleset fingerprint is meant to identify the rules behind an evaluation even after they change. Its text tells rule
  sets apart exactly by their keys (`Eligibility.DescribedIff`), so a rule edited under its key leaves it as it was while
  other solutions open (`Eligibility.EditedRuleSameFingerprint`), and different keys can share a hash
  (`Eligibility.KeysCollide`).
- A leaf of the case is meant to be sent or reported as withheld. Sending goes by the keys, reporting by their text
  split at dots: `Context.LeafFate` says exactly which leaves are neither or both, `Context.LosableIff` which keys some
  allowlist can lose, and `Context.DottedKeyVanishes` and `Context.EmptyKeySentAndListed` show one of each.
- The total of a statement's assets is computed and not stored; its column stays nought (`StatementHistory.AssetsNotStored`).
- A message to a snoozed thread removes the time to wake up but not the status (`Inbox.SnoozedWithoutTime`); one to a
  closed thread leaves the closing date (`Inbox.ClosingDateOutlivesClosing`); and a reply the channel failed to deliver
  clears what is owed like one that arrived (`Inbox.DeliveryNeverSeen`).
- Reconciliation looks only at entities that have a row, so an entity missing from the plan, or whose records never
  arrived, does not unbalance it (`MigrationProofs.AbsentEntityUnnoticed`): a balanced run accounts for the whole source
  if and only if the plan names every entity with records (`MigrationProofs.WholeSourceIff`). Columns
  cannot refer to entities whose name has a hyphen (`MigrationProofs.HyphenatedNotReferred`). For a source id written
  twice the ledger names the first row and references lead to the last (`MigrationProofs.LedgerAndReferencesPart`), and
  where a plan names an entity twice a row in between refers to the first (`MigrationProofs.TwiceNamedRefersToFirst`).
- `packages/migration/src/runner.ts:13` promises that a dry run gives the same report as a live one. The totals agree if
  and only if the live run has no row refused and none with nothing to write (`MigrationProofs.SameReportIff`).

## Model

| member | source | states |
|---|---|---|
| WorkflowSchema.ByKeyMeaning | packages/workflow/src/engine.ts:152-158 | the lookup table has exactly the keys of the steps, and each key leads to a step of that key |
| WorkflowSchema.DuplicateIssues | packages/workflow/src/schema.ts:130-135 | exactly the keys that occur twice are reported |
| WorkflowSchema.StepIssues | packages/workflow/src/schema.ts:138-158 | for one step, exactly its references to steps that do not exist and its missing continuation are reported |
| WorkflowSchema.AllStepIssues | packages/workflow/src/schema.ts:144-158 | the same over all steps |
| WorkflowSchema.ReachableKeys | packages/workflow/src/schema.ts:166-181 | the worklist returns the least set closed under the step graph: a key is in it if and only if a path from the start step leads there |
| WorkflowSchema.UnreachableIssues | packages/workflow/src/schema.ts:182-184 | exactly the steps outside that set are reported |
| WorkflowSchema.ParseDefinition | packages/workflow/src/schema.ts:120-188 | a definition is accepted if and only if it has no flaw, and otherwise the messages are exactly its flaws |
| WorkflowEngine.PriorMeaning | packages/workflow/src/engine.ts:168-173 | the prior success found is in the ledger, succeeded, and has the highest sequence; none is found only if there is none |
| WorkflowRunner.WorkflowRun.constructor | packages/workflow/src/engine.ts:73-126 | a new run is at its start step with an empty ledger |
| WorkflowRunner.WorkflowRun.RecordStep | packages/workflow/src/engine.ts:582-597 | a row whose step and sequence are taken is dropped, any other is appended |
| WorkflowRunner.WorkflowRun.PassOver | packages/workflow/src/engine.ts:168-207 | a step that succeeded is not run again and an approval follows its decision, leaving budget and ledger alone |
| WorkflowRunner.WorkflowRun.CommitSuccess | packages/workflow/src/engine.ts:236-266 | the stored run after a success is that of the functional step, whether it waits, ends or moves on |
| WorkflowRunner.WorkflowRun.CommitFailure | packages/workflow/src/engine.ts:222-234 | a failure is recorded and goes to its error route, or fails the run |
| WorkflowRunner.WorkflowRun.RunStep | packages/workflow/src/engine.ts:209-266 | condition, execution and commit together are the functional step |
| WorkflowRunner.WorkflowRun.TakeTurn | packages/workflow/src/engine.ts:160-267 | one pass of the loop body is one functional turn |
| WorkflowRunner.WorkflowRun.Loop | packages/workflow/src/engine.ts:160-277 | whenever the functional loop ends, this one ends with its result |
| WorkflowRunner.WorkflowRun.AdvanceRun | packages/workflow/src/engine.ts:133-277 | a call that comes back at all leaves the run in the state the functional semantics gives, and one that throws leaves it as it was |
| WorkflowRunner.WorkflowRun.DecideApproval | packages/workflow/src/engine.ts:511-556 | an approval is decided once, by someone permitted, with a note if rejected; otherwise nothing changes |
| WorkflowTermination.WithinAlways | packages/workflow/src/engine.ts:133-277 | in every history, wherever the run stands and whatever its ledger shows succeeded lies on a way that steps can really take |
| WorkflowTermination.LoopReturns | packages/workflow/src/engine.ts:160-277 | from where skipping ends the loop returns, by budget left and then hops left |
| WorkflowTermination.CallsReturn | packages/workflow/src/engine.ts:133-277 | every call of every history returns, whatever the world, if no ring of steps to pass over can be reached |
| WorkflowTermination.RankedHasNoRing | packages/workflow/src/engine.ts:168-207 | continuations and rejection routes between non-branch steps that descend a rank are enough for that |
| WorkflowHanging.RingHangs | packages/workflow/src/engine.ts:133-277 | a ring is reached if no two steps on a way to it and around it ask the world the same question and both fit the budget: a history is given, from the start of a run, after which a call never returns |
| WorkflowHanging.HangsIffRing | packages/workflow/src/engine.ts:133-277 | a call of some history never returns only if there is a ring, and it does whenever one has such a way to it; where no two steps at all ask the same question and the budget exceeds the number of steps, it does if and only if there is a ring |
| WorkflowSafety.HistoryKeeps | packages/workflow/src/engine.ts:133-277 | whatever every turn and every decision preserve holds after any sequence of calls |
| WorkflowSafety.SoundAlways | packages/workflow/src/engine.ts:133-277 | the invariant tying ledger, approvals and history together holds in every reachable state |
| WorkflowSafety.ApprovalNeverBypassed | packages/workflow/src/engine.ts:176-203 | outside dry runs the approved path of an approval is only ever taken after a decision to approve, the rejection path after one to reject, and there is one decision at most |
| WorkflowSafety.NotBothPaths | packages/workflow/src/engine.ts:176-203 | no run takes both paths out of one approval |
| WorkflowSafety.DryRunHasNoEffect | packages/workflow/src/engine.ts:300-501 | in every history a dry run performs no effect and asks for no approval |
| WorkflowSafety.RegulatedNeverWritten | packages/workflow/src/engine.ts:385-433 | every field ever written is on the allowlist of tables and is declared unregulated by its step |
| WorkflowSafety.SuccessesAccounted | packages/workflow/src/engine.ts:582-597 | how often a non-branch step succeeds is one if the ledger shows it, plus one for each success whose row was dropped |
| WorkflowReach.AcceptedKnown | packages/workflow/src/schema.ts:144-185 | every reachable key of an accepted definition is a step of it |
| WorkflowReach.VisitsReachable | packages/workflow/src/engine.ts:160-166 | every step a run ever visits is one the validator found reachable |
| WorkflowReach.StepNeverMissing | packages/workflow/src/engine.ts:162-166 | on an accepted definition no call of any history fails because a step does not exist |
| WorkflowOnce.ContinuesAlongEdge | packages/workflow/src/engine.ts:168-266 | wherever a turn goes on to is a live edge out of the step it was at |
| WorkflowOnce.OutcomeIsStored | packages/workflow/src/engine.ts:133-277 | the status a call reports is the one it stored, and never merely running |
| WorkflowOnce.OnceAlways | packages/workflow/src/engine.ts:160-277 | on ranked definitions everything in the ledger and the history lies behind the current step, in every reachable state |
| WorkflowOnce.AtMostOnce | packages/workflow/src/engine.ts:168-207 | on acyclic definitions that always say where to go next, each step runs at most once over all calls and no ledger row is dropped |
| WorkflowAwaiting.SuccessLostIff | packages/workflow/src/engine.ts:582-597 | a step that has just succeeded will be run again if and only if its key and sequence number were taken |
| WorkflowAwaiting.AskedIsPendingIff | packages/workflow/src/engine.ts:449-480 | an approval step that asks leaves something to decide if and only if it had never asked before |
| WorkflowAwaiting.AskAlways | packages/workflow/src/engine.ts:133-277 | in every history the approval rows are those of the approval steps that have succeeded |
| WorkflowAwaiting.AwaitingIsPendingIff | packages/workflow/src/engine.ts:133-277 | in every history what a run awaits is still to be decided if and only if its step has asked once |
| WorkflowAwaiting.AwaitingIsPending | packages/workflow/src/engine.ts:133-277 | on acyclic definitions that always say where to go next a run awaiting approval has it to decide |
| WorkflowAwaiting.ReportsStoredIff | packages/workflow/src/engine.ts:160-277 | a call reports another status than it stored if and only if its loop came to a place with nowhere to go |
| WorkflowFindings.LoopNeverReturns | packages/workflow/src/engine.ts:160-207 | an accepted definition on which the first call never returns |
| WorkflowFindings.ResendsForever | packages/workflow/src/engine.ts:582-597 | for every n, a history of an accepted acyclic definition in which one message step has succeeded n times |
| WorkflowFindings.ApprovedRunStuck | packages/workflow/src/engine.ts:168-207 | a history after which an approved run awaits approval and no call can move it |
| WorkflowFindings.CycleAsksTwice | packages/workflow/src/engine.ts:168-207 | a history of an accepted definition that never runs off but has a cycle, in which one approval step succeeds twice and the run ends awaiting an approval that was given |
| WorkflowFindings.SharedQuestionNeverHangs | packages/workflow/src/engine.ts:168-222 | an accepted definition with a ring and budget enough of which every call of every history returns, because its branch asks the condition that admits to it |
| JobQueue.Queue.constructor | packages/workflow/src/queue.ts:24-38 | the queue starts empty |
| JobQueue.Queue.Enqueue | packages/workflow/src/queue.ts:24-38 | a job with a type and key already present is not inserted again |
| JobQueue.Queue.ClaimJobs | packages/workflow/src/queue.ts:56-83 | the unlocked due jobs with the earliest run times are claimed, each counted as one more attempt, up to the limit |
| JobQueue.Queue.CompleteJob | packages/workflow/src/queue.ts:85-89 | the row becomes succeeded and unlocked, whoever calls |
| JobQueue.Queue.FailJob | packages/workflow/src/queue.ts:97-118 | back to the queue after the back-off while the caller's copy has attempts left, dead otherwise |
| JobQueue.Queue.ReclaimStalled | packages/workflow/src/queue.ts:121-129 | exactly the running jobs locked for too long go back to the queue, and their number is returned |
| JobQueue.BackoffBounds | packages/workflow/src/queue.ts:103-108 | the back-off is between thirty seconds and an hour, never shrinks, and is an hour from the eighth attempt |
| JobQueue.InvAlways | packages/workflow/src/queue.ts:56-129 | the queue's invariant holds in every state of every interleaving |
| JobQueue.AttemptsBounded | packages/workflow/src/queue.ts:56-129 | attempts never exceed the maximum plus the number of reclaims, and a job is running exactly when it is locked |
| JobQueue.OneHolderAlways | packages/workflow/src/queue.ts:56-129 | if only dead workers are reclaimed, each running job has one holder |
| JobQueue.SparedStays | packages/workflow/src/queue.ts:85-129 | from any state with one holder a running job on, while only dead workers are reclaimed, a job that succeeded or died never changes again |
| JobQueue.SettledStays | packages/workflow/src/queue.ts:85-118 | so it does not in any run of which that is true |
| JobQueue.ReclaimingLiveUndoesSuccess | packages/workflow/src/queue.ts:97-129 | otherwise a success can be undone, by four steps that are always possible: back to the queue, or dead if it was the last attempt |
| JobQueue.UndoneIff | packages/workflow/src/queue.ts:56-129 | an operation can be continued to change a settled job if and only if it takes a job from a worker still alive |
| JobQueue.SuccessUndone | packages/workflow/src/queue.ts:24-129 | a run from the empty queue in which it happens, for any limit on attempts |
| Money.RoundAwayNearest | packages/core/src/money.ts:117-119 | the rounding is to the nearest integer, ties away from zero |
| Money.EnteredSurvives | packages/core/src/money.ts:35-48 | weekly, fortnightly, four-weekly and monthly amounts come back from their monthly figure |
| Money.MonthlySurvives | packages/core/src/money.ts:35-48 | monthly figures come back from quarterly, annual and monthly amounts |
| Money.EnteredSurvivesIff | packages/core/src/money.ts:35-48 | for every frequency: an amount survives to monthly and back unless quarterly and no multiple of three, annual and no multiple of twelve, a one-off other than nought, or its monthly figure is outside the safe range |
| Money.MonthlySurvivesIff | packages/core/src/money.ts:35-48 | for every frequency: a monthly figure survives the other way exactly by what it leaves over from thirteen pence, the safe range permitting |
| Money.PayableIff | packages/core/src/money.ts:35-48 | paid at least monthly, those are the figures that some entered amount comes to |
| Money.SortByRemainder | packages/core/src/money.ts:75-79 | a permutation of the indexes, larger remainder first and earlier index first among equals |
| Money.DistributePence | packages/core/src/money.ts:64-87 | errors exactly as documented, and otherwise a largest-remainder split: parts sum to the total and each is the floor or floor plus one of its exact share |
| Money.Bump | packages/core/src/money.ts:81-85 | handing out the spare pennies in order gives exactly that split |
| Money.WholeShareExact | packages/core/src/money.ts:64-87 | a share that is whole gets exactly itself |
| Money.ZeroWeightGetsNothing | packages/core/src/money.ts:64-87 | a zero weight gets nothing |
| Money.LargerWeightNotLess | packages/core/src/money.ts:64-87 | of a non-negative total a strictly larger weight never gets less |
| Money.LeastDeviation | packages/core/src/money.ts:64-87 | no other integer split with that sum has smaller total absolute deviation |
| Money.SplitUnique | packages/core/src/money.ts:64-87 | the properties of the split determine it |
| MoneyText.ReadsAmounts | packages/core/src/money.ts:100-106 | reading accepts exactly the texts of its grammar, each with its value |
| MoneyText.FormatRoundTrip | packages/core/src/money.ts:89-106 | a printed amount reads back as itself if and only if no plus sign was forced onto it |
| MoneyText.FormatInjective | packages/core/src/money.ts:89-98 | no two amounts print alike |
| Base32.EncodeSymbols | packages/auth/src/totp.ts:61-75 | the loop with its stale high bits produces the symbols whose bits are those of the bytes, padded with zeros |
| Base32.DecodeSymbols | packages/auth/src/totp.ts:77-93 | the loop produces the bytes whose bits those symbols begin with |
| Base32.Base32Encode | packages/auth/src/totp.ts:61-75 | the text is the letters of that encoding |
| Base32.Base32Decode | packages/auth/src/totp.ts:77-93 | spaces, padding and case are ignored, any other character is an error, and the rest is decoded |
| Base32.AlphabetIndex | packages/auth/src/totp.ts:11 | looking a letter up is the inverse of the alphabet of RFC 4648, table 3 |
| Base32.EncodingUnique | packages/auth/src/totp.ts:61-75 | there is one encoding and it has ceil(8n/5) symbols |
| Base32.DecodingUnique | packages/auth/src/totp.ts:77-93 | there is one decoding |
| Base32.EncodeDecodes | packages/auth/src/totp.ts:61-93 | what an encoding decodes to is the bytes it came from, with or without padding |
| Base32.RoundTrip | packages/auth/src/totp.ts:61-93 | decoding the encoding of any byte sequence gives it back |
| Base32.DecodeEncodesIff | packages/auth/src/totp.ts:61-93 | encoding what was decoded gives the symbols back if and only if the spare bits are fewer than five and all zero |
| Rules.OnlyMentioned | packages/core/src/rules/engine.ts:48-117 | two sets of facts that agree on what a rule mentions give it the same answer, errors included |
| RuleMeaning.EveryMeaning | packages/core/src/rules/engine.ts:65 | all requirements are met, or the first that is not decides, by its error if it has one |
| RuleMeaning.SomeMeaning | packages/core/src/rules/engine.ts:66 | some alternative is met before any fails to evaluate, and the answer is false only if all are evaluated and none is met |
| RuleMeaning.AndMeaning | packages/core/src/rules/engine.ts:65 | `and` is met if and only if all its parts are |
| RuleMeaning.OrMeaning | packages/core/src/rules/engine.ts:66 | `or` is met if and only if one part is and none before it fails to evaluate |
| RuleMeaning.InMeaning | packages/core/src/rules/engine.ts:87-90 | a value is among the options if and only if one reached without error is the same |
| RuleMeaning.AddMeaning | packages/core/src/rules/engine.ts:101-104 | a sum is the sum of the numbers, unknown ones counting as nought |
| RuleMeaning.ProductMeaning | packages/core/src/rules/engine.ts:110-113 | a product is the product of the numbers, so an unknown factor makes it nought |
| RuleLearning.LearningKeeps | packages/core/src/rules/engine.ts:48-157 | in the monotone part of the language, a satisfied rule is still satisfied after more is known if and only if it still evaluates |
| RuleLearning.ShallowRuleEvaluates | packages/core/src/rules/engine.ts:48-51 | within 24 levels and with finite numbers such a rule always evaluates |
| RuleLearning.ReachMeaning | packages/core/src/rules/engine.ts:48-67 | such a rule evaluates if and only if what evaluation looks at, requirements up to the first that is not met and alternatives up to the first that is, lies within 24 levels |
| RuleLearning.KeptIff | packages/core/src/rules/engine.ts:46-157 | so learning more keeps a satisfied rule satisfied exactly then |
| RuleLearning.LearningNeverRevokes | packages/core/src/rules/engine.ts:48-157 | so filling in unknown facts never turns it from satisfied to unsatisfied |
| RuleLearning.LearningCanRevokeDeepRule | packages/core/src/rules/engine.ts:46-51 | past 24 levels it can |
| Eligibility.JudgeMeaning | packages/core/src/rules/engine.ts:195-223 | a rule that fails to evaluate blocks whatever its severity and carries its error and message |
| Eligibility.BlockersMeaning | packages/core/src/rules/engine.ts:224-227 | the blockers are exactly the keys of the rules that obstruct |
| Eligibility.RuleSetMeaning | packages/core/src/rules/engine.ts:194-228 | a rule set is satisfied if and only if no rule obstructs it |
| Eligibility.RuleSetStaysSatisfied | packages/core/src/advice/eligibility.ts:44-61 | a satisfied set of such rules stays satisfied as more becomes known |
| Eligibility.AvailableMeaning | packages/core/src/advice/eligibility.ts:40-66 | available are exactly the case types of the jurisdiction that no rule obstructs, in the configured order |
| Eligibility.LearningNeverCloses | packages/core/src/advice/eligibility.ts:33-66 | the solutions available before are, in the same order, among those available after |
| Eligibility.BrokenRuleCloses | packages/core/src/advice/eligibility.ts:44-66 | a solution with a rule that fails to evaluate is never available |
| Eligibility.SortedUnique | packages/core/src/advice/eligibility.ts:75-77 | a collection of texts has one sorted form |
| Eligibility.Fingerprint | packages/core/src/advice/eligibility.ts:74-83 | the running hash is the base-31 number of the joined text, reduced once |
| Eligibility.FingerprintSeesOnlyKeys | packages/core/src/advice/eligibility.ts:74-83 | neither the order of case types and rules nor anything but their keys changes it |
| Eligibility.DescribedIff | packages/core/src/advice/eligibility.ts:74-83 | on the keys a definition may use, two rule sets have one text if and only if their case types have the same keys with the same rule keys |
| Eligibility.EditedRuleSameFingerprint | packages/core/src/advice/eligibility.ts:70-83 | two rule sets with one fingerprint under which different solutions are available |
| Eligibility.KeysCollide | packages/core/src/advice/eligibility.ts:74-83 | two rule sets with different keys and one fingerprint |
| Context.SplitJoin | packages/ai/src/context.ts:55-60 | joining segments and splitting the text gives the segments back |
| Context.WriteEffect | packages/ai/src/context.ts:62-71 | writing a part of a whole into a pruning of it: below the path all is as in the whole, elsewhere nothing changes, and what agreed still agrees |
| Context.ReadScrubbed | packages/ai/src/context.ts:73-88 | scrubbing commutes with reading any path |
| Context.PayloadMeaning | packages/ai/src/context.ts:90-105 | for any allowlist, overlapping entries included, the payload holds exactly the scrubbed case under its entries, absent where the case has nothing, and nothing anywhere else |
| Context.PayloadTextsScrubbed | packages/ai/src/context.ts:73-105 | every text anywhere in the payload is the scrubbed form of the text at the same place of the case |
| Context.AppliedCovers | packages/ai/src/context.ts:73-78 | the patterns that applied to any text inside a value are among its redactions |
| Context.NonInterference | packages/ai/src/context.ts:90-105 | two cases that look the same under the entries once scrubbed give the same payload and the same missing fields |
| Context.MissingMeaning | packages/ai/src/context.ts:98-103 | missing are exactly the entries the case does not have |
| Context.EnumeratePaths | packages/ai/src/context.ts:128-139 | the paths listed are exactly those of the leaves |
| Context.IsPermitted | packages/ai/src/context.ts:120-126 | a path is permitted if and only if it is an entry or lies below one |
| Context.AssembleContext | packages/ai/src/context.ts:90-117 | payload, missing, withheld and redactions are those the theorems are about |
| Context.LeafListed | packages/ai/src/context.ts:128-139 | every leaf of a case, under any keys, is listed under the text of its path |
| Context.LeafFate | packages/ai/src/context.ts:90-139 | under any keys, a leaf is neither sent nor listed exactly when the allowlist covers the text of its path split again but neither its path nor anything inside, and both exactly the other way round |
| Context.LosableIff | packages/ai/src/context.ts:90-139 | some allowlist loses a leaf if and only if its keys, written with dots and split again, lead neither to it nor above it |
| Context.EveryLeafAccounted | packages/ai/src/context.ts:90-126 | each leaf whose keys have no dot, the first not empty, is sent scrubbed or withheld, never both, except a list of which an entry names a part |
| Context.WithheldAreLeaves | packages/ai/src/context.ts:107-108 | whatever is withheld is the text of a leaf that no entry covers |
| Context.DottedKeyVanishes | packages/ai/src/context.ts:98-108 | a permitted key with a dot is neither sent nor withheld |
| Context.EmptyKeySentAndListed | packages/ai/src/context.ts:90-139 | a leaf under an empty key is sent and listed as withheld |
| Statement.SumPence | packages/core/src/money.ts:50-57 | the sum, or an error if and only if some amount is outside the safe range |
| Statement.GroupByCategory | packages/core/src/sfs/statement.ts:131-137 | each expenditure category with exactly its lines in order, categories in order of first appearance |
| Statement.FindExceedances | packages/core/src/sfs/statement.ts:139-156 | the exceedances of the given categories, unless a sum is out of range |
| Statement.BuildStatement | packages/core/src/sfs/statement.ts:108-174 | lines, totals and exceedances are those of the specification, errors included |
| Statement.CategoriesMeaning | packages/core/src/sfs/statement.ts:131-137 | the categories are those of the expenditure lines, each once |
| Statement.CategoriesInOrder | packages/core/src/sfs/statement.ts:131-140 | they stand in the order of their first lines |
| Statement.GroupsSumToExpenditure | packages/core/src/sfs/statement.ts:131-159 | the totals of the groups add up to total expenditure |
| Statement.ExceedancesAre | packages/core/src/sfs/statement.ts:139-156 | exceedances keep the order of the categories, and each carries its own figure, total and positive excess |
| Statement.ReportedIff | packages/core/src/sfs/statement.ts:139-156 | a category is reported, once, if and only if it has expenditure totalling more than its figure |
| Statement.ExplanationMeaning | packages/core/src/sfs/statement.ts:146-154 | an explanation counts as provided if and only if some line of the group has a non-blank one |
| Statement.FlaggedIsReported | packages/core/src/sfs/statement.ts:115-156 | with non-negative amounts every line flagged on its own has its category reported |
| Statement.NegativeHidesFlaggedLine | packages/core/src/sfs/statement.ts:115-156 | with a negative amount a flagged line's category may go unreported |
| StatementHistory.Statements.constructor | packages/core/src/case-file/statement-entry.ts:87-97 | before any save the tables are empty |
| StatementHistory.Statements.SaveStatement | packages/core/src/case-file/statement-entry.ts:87-206 | refuses negative or unbuildable input without change; otherwise both tables are those of the history with this save added |
| StatementHistory.Statements.Replace | packages/core/src/case-file/statement-entry.ts:126-182 | every open row of the case is superseded by the new one, all others are untouched, and the new lines are added |
| StatementHistory.Statements.InsertLines | packages/core/src/case-file/statement-entry.ts:156-173 | the new statement's lines are appended in order |
| StatementHistory.Statements.PointAt | packages/core/src/case-file/statement-entry.ts:178-182 | exactly the retired rows that pointed nowhere point at the new one |
| StatementHistory.Statements.LoadCurrentStatement | packages/core/src/case-file/statement-entry.ts:45-79 | gives the lines of the latest save for the case, or says there is none |
| StatementHistory.RowAfter | packages/core/src/case-file/statement-entry.ts:126-131 | in terms of the history, a save changes an earlier row only from current to superseded by it |
| StatementHistory.VersionsRise | packages/core/src/case-file/statement-entry.ts:138-152 | later saves of a case have higher versions |
| StatementHistory.EveryVersionExists | packages/core/src/case-file/statement-entry.ts:138-152 | every number from one to the count of saves is the version of one of them |
| StatementHistory.ChainOfVersions | packages/core/src/case-file/statement-entry.ts:126-182 | only the highest version is current, and every other points at the next |
| StatementHistory.LastIsCurrent | packages/core/src/case-file/statement-entry.ts:45-53 | a case has an open statement if and only if it has been saved |
| StatementHistory.StoredTotalsMatchLines | packages/core/src/case-file/statement-entry.ts:138-173 | the stored income, expenditure and surplus are those of the stored lines, which are the lines that were built |
| StatementHistory.EarlierUnchanged | packages/core/src/case-file/statement-entry.ts:123-182 | no later save changes an earlier statement's figures, version or lines, nor anything of a superseded one |
| StatementHistory.AssetsNotStored | packages/core/src/case-file/statement-entry.ts:138-152 | the stored assets are right if and only if the asset lines total nought |
| Vulnerability.ConsentPermitting | packages/core/src/case-file/vulnerability.ts:160-180 | the latest granted consent that permits, or none if and only if none permits |
| Vulnerability.RequireConsent | packages/core/src/case-file/vulnerability.ts:189-234 | succeeds if and only if one permits, and otherwise the gap named is the true first one |
| Vulnerability.SpecialNamesItsConsent | packages/core/src/case-file/vulnerability.ts:298-464 | in every reachable state a special or health record names a granted consent of its own client with an Article 9 condition |
| Vulnerability.CaptureKeeps | packages/core/src/case-file/consent.ts:76-120 | capturing a consent keeps the file consistent |
| Vulnerability.WithdrawKeeps | packages/core/src/case-file/consent.ts:130-158 | withdrawing keeps it so: every earlier write was under a consent live at the time |
| Vulnerability.WriteKeeps | packages/core/src/case-file/vulnerability.ts:298-464 | writing a row under a live consent keeps the file consistent and logs the write |
| Vulnerability.InsertKeeps | packages/core/src/case-file/vulnerability.ts:312-332 | recording a finding retires the assessment that found nothing |
| Vulnerability.CapturedPermits | packages/core/src/case-file/consent.ts:76-103 | a granted consent captured with an Article 9 condition permits recording under it until it expires |
| Vulnerability.ClientFile.constructor | packages/core/src/case-file/vulnerability.ts:298-302 | an empty file is consistent |
| Vulnerability.ClientFile.CaptureConsent | packages/core/src/case-file/consent.ts:76-120 | refuses blank wording or purpose, and otherwise adds one row |
| Vulnerability.ClientFile.WithdrawConsent | packages/core/src/case-file/consent.ts:130-158 | sets the withdrawal date once and touches nothing else |
| Vulnerability.ClientFile.RecordVulnerability | packages/core/src/case-file/vulnerability.ts:298-347 | succeeds if and only if a special record has a permitting consent and a disclosure has wording; the whole new state is given |
| Vulnerability.ClientFile.RecordNoIndicators | packages/core/src/case-file/vulnerability.ts:357-398 | refused if and only if something is on record; saying it twice returns the first record |
| Vulnerability.ClientFile.AmendVulnerability | packages/core/src/case-file/vulnerability.ts:412-464 | a special record changes only under a consent that permits now, and stays special |
| Vulnerability.ClientFile.CloseVulnerability | packages/core/src/case-file/vulnerability.ts:472-495 | sets the closing status of one record and nothing else |
| Inbox.UpdateDescribes | packages/comms/src/conversations.ts:86-95 | updating the row of a history gives the row of the longer history |
| Inbox.InboxTable.constructor | packages/comms/src/conversations.ts:61-63 | an inbox without threads mirrors the empty history |
| Inbox.InboxTable.ReceiveInbound | packages/comms/src/conversations.ts:61-113 | a message opens a thread or adds one event to the only thread of that account and sender |
| Inbox.InboxTable.SetStatus | packages/comms/src/conversations.ts:258-282 | snoozing needs a time; otherwise one event is added, and an unknown thread changes nothing |
| Inbox.InboxTable.MarkRead | packages/comms/src/conversations.ts:294-299 | one read event |
| Inbox.InboxTable.LinkConversation | packages/comms/src/conversations.ts:182-203 | sets the client and nothing of the thread's state |
| Inbox.InboxTable.ReplyInConversation | packages/comms/src/conversations.ts:333-432 | a note or a reply adds its event exactly when it is allowed, and nothing changes otherwise |
| Inbox.WaitingSince | packages/comms/src/conversations.ts:86-95 | `reply_due_at` and `first_unread_at` are the time of the first message to arrive since the wait last ended |
| Inbox.WaitingIff | packages/comms/src/conversations.ts:272-432 | they are set if and only if a message has arrived that nothing has ended since |
| Inbox.UnreadIsOwed | packages/comms/src/conversations.ts:86-95 | an unread thread is owed a reply, for a message no later than the unread one |
| Inbox.ClosedOwesNothing | packages/comms/src/conversations.ts:272-282 | a closed thread has both null, in every history |
| Inbox.MessageReopens | packages/comms/src/conversations.ts:84-95 | a message to a closed thread opens it and starts both waits |
| Inbox.SnoozedWithoutTime | packages/comms/src/conversations.ts:86-95 | a thread is snoozed with no time if and only if a message arrived after it was snoozed |
| Inbox.RowAsleep | packages/comms/src/conversations.ts:86-282 | the same for every row the table holds, and a closed row has both waits null |
| Inbox.ClosingDateOutlivesClosing | packages/comms/src/conversations.ts:86-95 | a thread that is not closed has a closing date if and only if a message reopened it |
| Inbox.DeliveryNeverSeen | packages/comms/src/conversations.ts:384-432 | two histories that differ only in which replies were delivered have the same row |
| MigrationPlan.FieldIssues | packages/migration/src/mapping.ts:82-98 | exactly the repeated targets, the fields without a source and the required ones among them are reported |
| MigrationPlan.DependencyIssues | packages/migration/src/mapping.ts:100-125 | exactly the dependencies that are missing or late are reported |
| MigrationPlan.ParseMigrationPlan | packages/migration/src/mapping.ts:72-129 | a plan is accepted if and only if it has no flaw, and otherwise the messages are exactly its flaws |
| MigrationPlan.DependencyEarlier | packages/migration/src/mapping.ts:100-125 | in an accepted plan with distinct entities what an entity needs comes strictly earlier |
| Migration.Runner.constructor | packages/migration/src/runner.ts:61-80 | a new run has stored nothing |
| Migration.Runner.RecordOutcome | packages/migration/src/runner.ts:289-302 | the first entry for a source id stays |
| Migration.Runner.BuildTarget | packages/migration/src/runner.ts:239-270 | the row of the specification, or the error of its first failing field |
| Migration.Runner.MigrateRecord | packages/migration/src/runner.ts:167-222 | one record is one step of the run |
| Migration.Runner.MigrateEntity | packages/migration/src/runner.ts:145-237 | counters and unmapped fields are those of its records, and read is created plus updated plus skipped plus failed |
| Migration.Runner.RunMigration | packages/migration/src/runner.ts:61-143 | the stored state is that of the whole run, the totals are those of its log, and the report is clean if and only if nothing failed or went unmapped; a run the database ends early stores nothing |
| Migration.RunOutcomes | packages/migration/src/runner.ts:145-237 | every record read was created, skipped or failed |
| Migration.PassLog | packages/migration/src/runner.ts:145-222 | each record leaves one entry, under its own key, in order |
| MigrationProofs.RunBooks | packages/migration/src/runner.ts:209-302 | in every run the ledger is the first entry per source id and the identity map the last new id |
| MigrationProofs.LedgerAndReferencesPart | packages/migration/src/runner.ts:209-302 | so for a source id written twice they name the first row and the last, which have different ids |
| MigrationProofs.ReferenceResolved | packages/migration/src/runner.ts:239-270 | in a live run of an accepted plan with distinct entities, a reference to a migrated record of a needed entity is built with its new id |
| MigrationProofs.ReferenceWritten | packages/migration/src/runner.ts:200-270 | so the row the database has received for that record at the end of the run holds that id |
| MigrationProofs.TwiceNamedRefersToFirst | packages/migration/src/runner.ts:88-270 | an accepted plan that names an entity twice, after which a row holds another id than the identity map |
| MigrationProofs.HyphenatedNotReferred | packages/migration/src/runner.ts:257-261 | no column without a hyphen refers to an entity with one |
| MigrationProofs.BuildableRegardless | packages/migration/src/runner.ts:239-270 | whether a row can be built does not depend on what has been migrated |
| MigrationProofs.DryRunForetellsLive | packages/migration/src/runner.ts:200-222 | a dry run writes nothing; for each record its outcome is that of a live run if and only if the live run did not have its row refused or find it empty, and then it is created against failed |
| MigrationProofs.SameReportIff | packages/migration/src/runner.ts:10-16 | the promised same report: the totals of the two runs are equal if and only if the live run had no row refused or empty |
| MigrationProofs.BalancedMeaning | packages/migration/src/runner.ts:332-371 | balanced means that each entity with a row has as many rows as were counted and none failed |
| MigrationProofs.BalancedIff | packages/migration/src/runner.ts:332-371 | against true counts a run balances if and only if every planned record has its own row and none failed |
| MigrationProofs.AbsentEntityUnnoticed | packages/migration/src/runner.ts:348-370 | the count given for an entity without rows does not matter |
| MigrationProofs.UnplannedHasNoRow | packages/migration/src/runner.ts:88-96 | records of an entity outside the plan leave no row |
| MigrationProofs.WholeSourceIff | packages/migration/src/runner.ts:88-371 | a balanced run has as many rows as the source has records, for every entity, if and only if the plan names every entity with records |

## Left out

- Overlapping transactions: one call is one atomic step, so two calls running at the same time on one run, one client's
  file or one case are not modelled, except in the job queue, where every interleaving is.
- WorkflowRunner.WorkflowRun.constructor: only the initial state of `startWorkflowRun`; its idempotency check, trigger
  conditions and version choice are not modelled.
- WorkflowHanging.HangsIffRing: that a ring does hang is proved where no two steps on the way to it and around it ask the
  world the same question and both fit the budget, of which the first is needed (`WorkflowFindings.SharedQuestionNeverHangs`);
  that nothing hangs without a ring is proved of every definition.
- WorkflowRunner.WorkflowRun.AdvanceRun: a Dafny method has to end, so it is for calls that come back;
  `WorkflowTermination.CallsReturn` says when they do.
- The simulated effects a dry run reports, audit entries, notifications and permissions: they do not feed back into state.
- Floating point: shares, conversions and rule arithmetic are exact; amounts are held to the program's safe range.
- Money.DistributePence: takes the weights as exact rationals, because rounding errors in a share are not the point.
- Base32.Base32Decode: upper-casing covers ASCII; other letters that upper-case into the alphabet are not modelled.
- Context.PayloadMeaning: treats the payload as a value nobody else holds, reads own properties only, and does not keep
  the order of an object's keys.
- Context.AssembleContext: the payload's hash is left out, since it depends on that order.
- WorkflowOnce.AtMostOnce: needs an acyclic definition that always says where to go next. Neither half can be dropped:
  `WorkflowFindings.ResendsForever` and `WorkflowFindings.CycleAsksTwice`.
- Rules.OnlyMentioned: the path carried in an error message is not part of the answer.
- Eligibility.Fingerprint: gives the number; the sixteen hexadecimal digits that are stored are its rendering. How facts
  are gathered from a case is not modelled either: facts are an input.
- Discrepancies against bank data and suggested questions in `packages/core/src/sfs/statement.ts`:
  filters and wording with no claim beyond their bodies.
- StatementHistory.Statements.LoadCurrentStatement: gives the lines in stored order; the query sorts them by section.
- Vulnerability.ClientFile.AmendVulnerability: indicators, support needs and review dates, which are only copied, are not
  carried; neither are records written before the consent check existed. `reviewVulnerability` sets dates only.
- Inbox.InboxTable.LinkConversation: the case, the linked messages and the remembered identity are not carried.
- Inbox.InboxTable.ReplyInConversation: the note and reply rows and the permission check are not carried.
- Inbox.InboxTable.ReceiveInbound: leaves out the communication and attachment rows, the queue and the matching rules;
  whether an identity is confirmed is an input.
- Migration.Runner.BuildTarget: takes the field transforms as Migration.Runner.RunMigration does.
- Migration.Runner.RunMigration: the run's own row and its statuses are left out. Field transforms are an uninterpreted function of the record, so the reading of dates,
  lookups and pounds is not modelled; the note there about an amount of 12.345 describes input its pattern refuses.
  Whether the database accepts further statements after refusing a row is a parameter, since inside one transaction it
  does not.
- Reconciliation lists at most 500 problems; the model lists all, which does not change whether a run balances.
- Advice decisions, AI proposals and their application, webhooks, sessions, throttling, evidence states, audit
  differences and one-time-password windows: their claims follow from reading one body or repeat shapes proved here.
- Cryptographic hashes and signatures, schemas of input files, user interface and row-level security.
