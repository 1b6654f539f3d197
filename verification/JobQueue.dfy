/** The Postgres-backed job queue (packages/workflow/src/queue.ts). */
module JobQueue {
  import opened Prelude

  type Id = string

  datatype JobStatus = Queued | Running | Succeeded | Dead

  datatype Job = Job(
    jobType: string,
    key: Option<string>,
    status: JobStatus,
    runAfter: int,
    attempts: nat,
    maxAttempts: int,
    lockedBy: Option<string>,
    lockedAt: Option<int>)

  type Jobs = map<Id, Job>

  /** What a worker is handed: a copy, which does not change when the row does. */
  datatype Claim = Claim(id: Id, attempts: nat, maxAttempts: int)

  // ---------------------------------------------------------------------------
  // What each statement does to the table
  // ---------------------------------------------------------------------------

  predicate Deduplicates(jobs: Jobs, jobType: string, key: Option<string>) {
    key.Some? && exists id :: id in jobs && jobs[id].jobType == jobType && jobs[id].key == key
  }

  function Inserted(jobType: string, key: Option<string>, runAfter: int, maxAttempts: int): Job {
    Job(jobType, key, Queued, runAfter, 0, maxAttempts, None, None)
  }

  function Claimable(jobs: Jobs, now: int): set<Id> {
    set id | id in jobs && jobs[id].status == Queued && jobs[id].runAfter <= now
  }

  function Claimed(job: Job, worker: string, now: int): Job {
    job.(status := Running, lockedBy := Some(worker), lockedAt := Some(now), attempts := job.attempts + 1)
  }

  function ClaimRows(jobs: Jobs, ids: set<Id>, worker: string, now: int): Jobs {
    map id | id in jobs :: if id in ids then Claimed(jobs[id], worker, now) else jobs[id]
  }

  function CompleteRow(jobs: Jobs, id: Id): Jobs {
    if id in jobs then jobs[id := jobs[id].(status := Succeeded, lockedBy := None)] else jobs
  }

  function Pow2(n: nat): nat { if n == 0 then 1 else 2 * Pow2(n - 1) }

  /** Milliseconds until the next attempt: exponential, at most an hour. */
  function Backoff(attempts: nat): int { Min(3600, Pow2(attempts) * 15) * 1000 }

  predicate Retries(claim: Claim) { claim.attempts < claim.maxAttempts }

  function FailRow(jobs: Jobs, claim: Claim, now: int): Jobs {
    if claim.id !in jobs then jobs
    else if Retries(claim) then
      jobs[claim.id := jobs[claim.id].(status := Queued, lockedBy := None, runAfter := now + Backoff(claim.attempts))]
    else jobs[claim.id := jobs[claim.id].(status := Dead, lockedBy := None)]
  }

  /** Running jobs locked longer ago than `minutes`. */
  function Stalled(jobs: Jobs, now: int, minutes: nat): set<Id> {
    set id | id in jobs && jobs[id].status == Running && jobs[id].lockedAt.Some? &&
             jobs[id].lockedAt.value < now - minutes * 60_000
  }

  function ReclaimRows(jobs: Jobs, now: int, minutes: nat): Jobs {
    map id | id in jobs ::
      if id in Stalled(jobs, now, minutes) then jobs[id].(status := Queued, lockedBy := None, lockedAt := None)
      else jobs[id]
  }

  // ---------------------------------------------------------------------------
  // The queue
  // ---------------------------------------------------------------------------

  class Queue {
    var jobs: Jobs

    constructor ()
      ensures jobs == map[]
    {
      jobs := map[];
    }

    /** `enqueue`, with `id` the identifier the database generates. */
    method Enqueue(id: Id, jobType: string, key: Option<string>, runAfter: int, maxAttempts: int)
      returns (jobId: Option<Id>)
      requires id !in jobs
      modifies this
      ensures jobId == if Deduplicates(old(jobs), jobType, key) then None else Some(id)
      ensures jobs == if jobId.Some? then old(jobs)[id := Inserted(jobType, key, runAfter, maxAttempts)] else old(jobs)
    {
      if key.Some? && exists other :: other in jobs && jobs[other].jobType == jobType && jobs[other].key == key {
        return None;
      }
      jobs := jobs[id := Inserted(jobType, key, runAfter, maxAttempts)];
      jobId := Some(id);
    }

    /**
     * `claimJobs`: `locked` are the rows other transactions hold, which
     * `SKIP LOCKED` passes over. Takes the earliest claimable jobs, as many as
     * the limit allows, and hands out their new attempt numbers.
     */
    method ClaimJobs(worker: string, now: int, limit: nat, locked: set<Id>) returns (claims: set<Claim>)
      modifies this
      ensures var free, ids := Claimable(old(jobs), now) - locked, set c | c in claims :: c.id;
        && ids <= free && |ids| == Min(limit, |free|)
        && (forall a, b :: a in ids && b in free - ids ==> old(jobs)[a].runAfter <= old(jobs)[b].runAfter)
        && jobs == ClaimRows(old(jobs), ids, worker, now)
        && claims == set id | id in ids :: Claim(id, jobs[id].attempts, jobs[id].maxAttempts)
    {
      var free := Claimable(jobs, now) - locked;
      var ids := {};
      while |ids| < limit && free - ids != {}
        invariant jobs == old(jobs)
        invariant ids <= free && |ids| <= limit
        invariant forall a, b :: a in ids && b in free - ids ==> jobs[a].runAfter <= jobs[b].runAfter
        decreases free - ids
      {
        var id := Earliest(free - ids);
        ids := ids + {id};
      }
      if free - ids == {} { assert ids == free; } else { SubsetSize(ids, free); }
      jobs := ClaimRows(jobs, ids, worker, now);
      claims := set id | id in ids :: Claim(id, jobs[id].attempts, jobs[id].maxAttempts);
      ClaimsOf(jobs, ids, claims);
    }

    method Earliest(ids: set<Id>) returns (first: Id)
      requires ids != {} && ids <= jobs.Keys
      ensures first in ids && forall id :: id in ids ==> jobs[first].runAfter <= jobs[id].runAfter
    {
      first :| first in ids;
      var rest := ids - {first};
      while rest != {}
        invariant rest <= ids && first in ids
        invariant forall id :: id in ids - rest ==> jobs[first].runAfter <= jobs[id].runAfter
        decreases rest
      {
        var id :| id in rest;
        if jobs[id].runAfter < jobs[first].runAfter { first := id; }
        rest := rest - {id};
      }
    }

    method CompleteJob(id: Id)
      modifies this
      ensures jobs == CompleteRow(old(jobs), id)
    {
      if id in jobs { jobs := jobs[id := jobs[id].(status := Succeeded, lockedBy := None)]; }
    }

    /** `failJob`: the decision is taken on the worker's copy, not on the row. */
    method FailJob(claim: Claim, now: int) returns (retrying: bool, nextAttemptAt: Option<int>)
      modifies this
      ensures jobs == FailRow(old(jobs), claim, now)
      ensures retrying == Retries(claim)
      ensures nextAttemptAt == if retrying then Some(now + Backoff(claim.attempts)) else None
    {
      if claim.attempts >= claim.maxAttempts {
        if claim.id in jobs { jobs := jobs[claim.id := jobs[claim.id].(status := Dead, lockedBy := None)]; }
        return false, None;
      }
      var at := now + Backoff(claim.attempts);
      if claim.id in jobs {
        jobs := jobs[claim.id := jobs[claim.id].(status := Queued, lockedBy := None, runAfter := at)];
      }
      return true, Some(at);
    }

    method ReclaimStalled(now: int, minutes: nat) returns (count: nat)
      modifies this
      ensures jobs == ReclaimRows(old(jobs), now, minutes)
      ensures count == |Stalled(old(jobs), now, minutes)|
    {
      count := |Stalled(jobs, now, minutes)|;
      jobs := ReclaimRows(jobs, now, minutes);
    }
  }

  lemma ClaimsOf(jobs: Jobs, ids: set<Id>, claims: set<Claim>)
    requires ids <= jobs.Keys
    requires claims == set id | id in ids :: Claim(id, jobs[id].attempts, jobs[id].maxAttempts)
    ensures (set c | c in claims :: c.id) == ids
  {
    forall id | id in ids ensures id in (set c | c in claims :: c.id) {
      assert Claim(id, jobs[id].attempts, jobs[id].maxAttempts) in claims;
    }
  }

  lemma {:induction false} BackoffBounds(attempts: nat)
    requires attempts >= 1
    ensures 30_000 <= Backoff(attempts) <= 3_600_000
    ensures Backoff(attempts) <= Backoff(attempts + 1)
    ensures attempts >= 8 ==> Backoff(attempts) == 3_600_000
  {
    Pow2AtLeast(attempts, 1);
    if attempts >= 8 { Pow2AtLeast(attempts, 8); }
  }

  lemma {:induction false} Pow2AtLeast(n: nat, m: nat)
    requires n >= m
    ensures Pow2(n) >= Pow2(m)
  {
    if n > m { Pow2AtLeast(n - 1, m); }
  }

  // ---------------------------------------------------------------------------
  // Every interleaving
  // ---------------------------------------------------------------------------

  /**
   * The table together with the claims workers still hold, and per job how
   * often it was reclaimed and which attempts were sent back to be retried.
   */
  datatype System = System(jobs: Jobs, held: set<Claim>, reclaims: map<Id, nat>, retried: map<Id, set<nat>>)

  datatype Op =
    | EnqueueOp(id: Id, jobType: string, key: Option<string>, runAfter: int, maxAttempts: int)
    | ClaimOp(ids: set<Id>, worker: string, now: int)
    | CompleteOp(claim: Claim)
    | FailOp(claim: Claim, now: int)
    | ReclaimOp(now: int, minutes: nat)
    | DieOp(claim: Claim)

  function Start(): System { System(map[], {}, map[], map[]) }

  /** A worker resolves a claim once; a worker that dies resolves it never. */
  predicate Enabled(s: System, op: Op) {
    match op
    case EnqueueOp(id, _, _, _, _) => id !in s.jobs
    case ClaimOp(ids, _, now) => ids <= Claimable(s.jobs, now)
    case CompleteOp(claim) => claim in s.held
    case FailOp(claim, _) => claim in s.held
    case ReclaimOp(_, _) => true
    case DieOp(claim) => claim in s.held
  }

  function Apply(s: System, op: Op): System {
    match op
    case EnqueueOp(id, jobType, key, runAfter, maxAttempts) =>
      if Deduplicates(s.jobs, jobType, key) then s
      else System(s.jobs[id := Inserted(jobType, key, runAfter, maxAttempts)], s.held,
                  s.reclaims[id := 0], s.retried[id := {}])
    case ClaimOp(ids, worker, now) =>
      var jobs := ClaimRows(s.jobs, ids, worker, now);
      s.(jobs := jobs,
         held := s.held + set id | id in ids && id in jobs :: Claim(id, jobs[id].attempts, jobs[id].maxAttempts))
    case CompleteOp(claim) => s.(jobs := CompleteRow(s.jobs, claim.id), held := s.held - {claim})
    case FailOp(claim, now) =>
      s.(jobs := FailRow(s.jobs, claim, now), held := s.held - {claim},
         retried := if Retries(claim) && claim.id in s.retried
                    then s.retried[claim.id := s.retried[claim.id] + {claim.attempts}] else s.retried)
    case ReclaimOp(now, minutes) =>
      s.(jobs := ReclaimRows(s.jobs, now, minutes),
         reclaims := map id | id in s.reclaims ::
           if id in Stalled(s.jobs, now, minutes) then s.reclaims[id] + 1 else s.reclaims[id])
    case DieOp(claim) => s.(held := s.held - {claim})
  }

  ghost predicate Follows(ops: seq<Op>, states: seq<System>) {
    && |states| == |ops| + 1
    && forall i {:trigger ops[i]} :: 0 <= i < |ops| ==> Enabled(states[i], ops[i]) && states[i + 1] == Apply(states[i], ops[i])
  }

  ghost predicate IsRun(ops: seq<Op>, states: seq<System>) { Follows(ops, states) && states[0] == Start() }

  /** One job's part of the invariant. */
  ghost predicate JobOk(s: System, id: Id)
    requires id in s.jobs
  {
    && id in s.reclaims && id in s.retried
    && (s.jobs[id].status == Running <==> s.jobs[id].lockedBy.Some?)
    && (forall n :: n in s.retried[id] ==> 1 <= n < s.jobs[id].maxAttempts)
    && s.jobs[id].attempts + (if s.jobs[id].status == Queued then 1 else 0) <= 1 + s.reclaims[id] + |s.retried[id]|
  }

  ghost predicate ClaimOk(s: System, c: Claim) {
    && c.id in s.jobs && c.id in s.retried
    && 1 <= c.attempts <= s.jobs[c.id].attempts && c.maxAttempts == s.jobs[c.id].maxAttempts
    && c.attempts !in s.retried[c.id]
  }

  ghost predicate Inv(s: System) {
    && (forall id :: id in s.jobs ==> JobOk(s, id))
    && (forall c :: c in s.held ==> ClaimOk(s, c))
    && (forall id :: id in s.retried ==> id in s.jobs && forall n :: n in s.retried[id] ==> n <= s.jobs[id].attempts)
  }

  lemma FailKeepsInv(s: System, claim: Claim, now: int)
    requires Inv(s) && claim in s.held
    ensures Inv(Apply(s, FailOp(claim, now)))
  {
    var t := Apply(s, FailOp(claim, now));
    assert ClaimOk(s, claim);
    forall id | id in t.jobs ensures JobOk(t, id) { FailKeepsJob(s, claim, now, id); }
    forall c | c in t.held ensures ClaimOk(t, c) { FailKeepsClaim(s, claim, now, c); }
  }

  lemma FailKeepsJob(s: System, claim: Claim, now: int, id: Id)
    requires id in s.jobs && JobOk(s, id) && ClaimOk(s, claim)
    ensures id in Apply(s, FailOp(claim, now)).jobs && JobOk(Apply(s, FailOp(claim, now)), id)
  {}

  lemma FailKeepsClaim(s: System, claim: Claim, now: int, c: Claim)
    requires ClaimOk(s, claim) && ClaimOk(s, c) && c != claim
    ensures ClaimOk(Apply(s, FailOp(claim, now)), c)
  {
    assert c.id == claim.id && c.attempts == claim.attempts ==> c == claim;
  }

  lemma ClaimKeepsInv(s: System, ids: set<Id>, worker: string, now: int)
    requires Inv(s) && ids <= Claimable(s.jobs, now)
    ensures Inv(Apply(s, ClaimOp(ids, worker, now)))
  {
    var t := Apply(s, ClaimOp(ids, worker, now));
    forall id | id in t.jobs ensures JobOk(t, id) { assert JobOk(s, id); }
    forall c | c in t.held ensures ClaimOk(t, c) {
      if c in s.held { assert ClaimOk(s, c); } else { assert JobOk(s, c.id); }
    }
  }

  lemma EnqueueKeepsInv(s: System, op: Op)
    requires Inv(s) && op.EnqueueOp? && Enabled(s, op)
    ensures Inv(Apply(s, op))
  {
    var t := Apply(s, op);
    forall id | id in t.jobs ensures JobOk(t, id) { if id in s.jobs { EnqueueKeepsJob(s, op, id); } }
    forall c | c in t.held ensures ClaimOk(t, c) { assert ClaimOk(s, c); }
  }

  lemma EnqueueKeepsJob(s: System, op: Op, id: Id)
    requires op.EnqueueOp? && Enabled(s, op) && id in s.jobs && JobOk(s, id)
    ensures id in Apply(s, op).jobs && JobOk(Apply(s, op), id)
  {}

  lemma ReclaimKeepsInv(s: System, now: int, minutes: nat)
    requires Inv(s)
    ensures Inv(Apply(s, ReclaimOp(now, minutes)))
  {
    var t := Apply(s, ReclaimOp(now, minutes));
    forall id | id in t.jobs ensures JobOk(t, id) { assert JobOk(s, id); }
    forall c | c in t.held ensures ClaimOk(t, c) { assert ClaimOk(s, c); }
  }

  /** The operations that only let go of a claim, and perhaps complete its job. */
  lemma LettingGoKeepsInv(s: System, op: Op)
    requires Inv(s) && (op.CompleteOp? || op.DieOp?) && Enabled(s, op)
    ensures Inv(Apply(s, op))
  {
    var t := Apply(s, op);
    forall id | id in t.jobs ensures JobOk(t, id) { assert JobOk(s, id); }
    forall c | c in t.held ensures ClaimOk(t, c) { assert ClaimOk(s, c); }
  }

  lemma ApplyKeepsInv(s: System, op: Op)
    requires Inv(s) && Enabled(s, op)
    ensures Inv(Apply(s, op))
  {
    match op
    case EnqueueOp(_, _, _, _, _) => EnqueueKeepsInv(s, op);
    case ClaimOp(ids, worker, now) => ClaimKeepsInv(s, ids, worker, now);
    case FailOp(claim, now) => FailKeepsInv(s, claim, now);
    case ReclaimOp(now, minutes) => ReclaimKeepsInv(s, now, minutes);
    case _ => LettingGoKeepsInv(s, op);
  }

  lemma {:induction false} InvAlways(ops: seq<Op>, states: seq<System>, i: nat)
    requires IsRun(ops, states) && i < |states|
    ensures Inv(states[i])
  {
    if i > 0 {
      InvAlways(ops, states, i - 1);
      assert states[i] == Apply(states[i - 1], ops[i - 1]);
      ApplyKeepsInv(states[i - 1], ops[i - 1]);
    }
  }

  lemma {:induction false} BelowSize(ns: set<nat>, bound: int)
    requires forall n :: n in ns ==> 1 <= n < bound
    ensures |ns| <= Max(0, bound - 1)
  {
    if bound <= 1 {
      assert ns == {};
    } else {
      BelowSize(ns - {bound - 1}, bound - 1);
    }
  }

  /**
   * In every interleaving, stale workers included: a job is attempted at most
   * its maximum plus the number of times it was reclaimed, and it is running
   * exactly while somebody is recorded as holding it.
   */
  lemma AttemptsBounded(ops: seq<Op>, states: seq<System>, i: nat, id: Id)
    requires IsRun(ops, states) && i < |states| && id in states[i].jobs
    ensures id in states[i].reclaims
    ensures states[i].jobs[id].attempts <= Max(1, states[i].jobs[id].maxAttempts) + states[i].reclaims[id]
    ensures states[i].jobs[id].status == Running <==> states[i].jobs[id].lockedBy.Some?
  {
    InvAlways(ops, states, i);
    assert JobOk(states[i], id);
    BelowSize(states[i].retried[id], states[i].jobs[id].maxAttempts);
  }

  // ---------------------------------------------------------------------------
  // When only dead workers are reclaimed
  // ---------------------------------------------------------------------------

  /** No job is taken back from a worker that still holds it. */
  predicate SparesLive(s: System, op: Op) {
    op.ReclaimOp? ==> forall c :: c in s.held ==> c.id !in Stalled(s.jobs, op.now, op.minutes)
  }

  ghost predicate Disciplined(ops: seq<Op>, states: seq<System>) {
    IsRun(ops, states) && forall i {:trigger ops[i]} :: 0 <= i < |ops| ==> SparesLive(states[i], ops[i])
  }

  predicate Settled(status: JobStatus) { status == Succeeded || status == Dead }

  /** A held claim is for a running job, and is the only one for it. */
  ghost predicate OneHolder(s: System) {
    && (forall c :: c in s.held ==> c.id in s.jobs && s.jobs[c.id].status == Running)
    && forall c, d :: c in s.held && d in s.held && c.id == d.id ==> c == d
  }

  lemma ApplyKeepsOneHolder(s: System, op: Op)
    requires Inv(s) && OneHolder(s) && Enabled(s, op) && SparesLive(s, op)
    ensures OneHolder(Apply(s, op))
    ensures forall id :: id in s.jobs && Settled(s.jobs[id].status) ==>
      id in Apply(s, op).jobs && Apply(s, op).jobs[id] == s.jobs[id]
  {
    StillOneHolder(s, op);
    forall id | id in s.jobs && Settled(s.jobs[id].status)
      ensures id in Apply(s, op).jobs && Apply(s, op).jobs[id] == s.jobs[id]
    {
      SettledUntouched(s, op, id);
    }
  }

  lemma StillOneHolder(s: System, op: Op)
    requires Inv(s) && OneHolder(s) && Enabled(s, op) && SparesLive(s, op)
    ensures OneHolder(Apply(s, op))
  {}

  lemma SettledUntouched(s: System, op: Op, id: Id)
    requires OneHolder(s) && Enabled(s, op) && id in s.jobs && Settled(s.jobs[id].status)
    ensures id in Apply(s, op).jobs && Apply(s, op).jobs[id] == s.jobs[id]
  {}

  lemma {:induction false} OneHolderAlways(ops: seq<Op>, states: seq<System>, i: nat)
    requires Disciplined(ops, states) && i < |states|
    ensures OneHolder(states[i])
  {
    if i > 0 {
      OneHolderAlways(ops, states, i - 1);
      InvAlways(ops, states, i - 1);
      assert SparesLive(states[i - 1], ops[i - 1]) && states[i] == Apply(states[i - 1], ops[i - 1]);
      ApplyKeepsOneHolder(states[i - 1], ops[i - 1]);
    }
  }

  /** Every operation from the `first` on spares the workers that are still alive. */
  ghost predicate SparingFrom(ops: seq<Op>, states: seq<System>, first: nat)
    requires Follows(ops, states)
  {
    forall i {:trigger ops[i]} :: first <= i < |ops| ==> SparesLive(states[i], ops[i])
  }

  /** From a state with one holder a job on, a job that succeeded or died stays exactly as it is. */
  lemma {:induction false} SparedStays(ops: seq<Op>, states: seq<System>, i: nat, j: nat)
    requires Follows(ops, states) && SparingFrom(ops, states, 0) && i <= j < |states|
    requires Inv(states[0]) && OneHolder(states[0])
    ensures Inv(states[j]) && OneHolder(states[j])
    ensures forall id :: id in states[i].jobs && Settled(states[i].jobs[id].status) ==>
      id in states[j].jobs && states[j].jobs[id] == states[i].jobs[id]
  {
    if j > 0 {
      SparedStays(ops, states, Min(i, j - 1), j - 1);
      assert SparesLive(states[j - 1], ops[j - 1]) && states[j] == Apply(states[j - 1], ops[j - 1]);
      ApplyKeepsInv(states[j - 1], ops[j - 1]);
      ApplyKeepsOneHolder(states[j - 1], ops[j - 1]);
    }
  }

  /** In a run where only dead workers are reclaimed, a job that succeeded or died stays exactly as it is. */
  lemma SettledStays(ops: seq<Op>, states: seq<System>, i: nat, j: nat, id: Id)
    requires Disciplined(ops, states) && i <= j < |states|
    requires id in states[i].jobs && Settled(states[i].jobs[id].status)
    ensures id in states[j].jobs && states[j].jobs[id] == states[i].jobs[id]
  {
    SparedStays(ops, states, i, j);
  }

  // ---------------------------------------------------------------------------
  // Exactly which operations undo a settled job
  // ---------------------------------------------------------------------------

  /** The operation has a continuation, sparing the living from then on, in which a settled job changes. */
  ghost predicate CanUndo(s: System, op: Op) {
    exists ops, states :: IsUndoing(s, op, ops, states)
  }

  ghost predicate IsUndoing(s: System, op: Op, ops: seq<Op>, states: seq<System>) {
    && Follows(ops, states) && states[0] == s && |ops| > 0 && ops[0] == op
    && SparingFrom(ops, states, 1)
    && exists i: nat, j: nat, id: Id :: i <= j < |states| && Changes(states[i], states[j], id)
  }

  predicate Changes(s: System, t: System, id: Id) {
    id in s.jobs && Settled(s.jobs[id].status) && (id in t.jobs ==> t.jobs[id] != s.jobs[id])
  }

  /**
   * A job taken from a worker that is still alive can succeed for another
   * worker and then be put back in the queue by the first, or, if that was its
   * last attempt, be declared dead.
   */
  lemma ReclaimingLiveUndoesSuccess(s: System, claim: Claim, now: int, minutes: nat, worker: string)
    returns (ops: seq<Op>, states: seq<System>)
    requires Inv(s) && claim in s.held
    requires claim.id in Stalled(s.jobs, now, minutes)
    ensures |ops| == 4 && Follows(ops, states) && states[0] == s && ops[0] == ReclaimOp(now, minutes)
    ensures SparingFrom(ops, states, 1)
    ensures claim.id in states[3].jobs && states[3].jobs[claim.id].status == Succeeded
    ensures claim.id in states[4].jobs
    ensures states[4].jobs[claim.id].status == if Retries(claim) then Queued else Dead
  {
    var id := claim.id;
    assert ClaimOk(s, claim);
    var s1 := Apply(s, ReclaimOp(now, minutes));
    var at := Max(now, s1.jobs[id].runAfter);
    var s2 := Apply(s1, ClaimOp({id}, worker, at));
    var second := TakenOver(s, claim, now, minutes, worker, at);
    var s3 := Apply(s2, CompleteOp(second));
    assert id in s3.jobs && s3.jobs[id].status == Succeeded && claim in s3.held;
    ops := [ReclaimOp(now, minutes), ClaimOp({id}, worker, at), CompleteOp(second), FailOp(claim, at)];
    states := FourSteps(s, ops[0], ops[1], ops[2], ops[3]);
    FailedRow(s3, claim, at);
  }

  lemma FailedRow(s: System, claim: Claim, now: int)
    requires claim.id in s.jobs
    ensures var t := Apply(s, FailOp(claim, now));
      claim.id in t.jobs && t.jobs[claim.id].status == if Retries(claim) then Queued else Dead
  {}

  lemma FourSteps(s: System, a: Op, b: Op, c: Op, d: Op) returns (states: seq<System>)
    requires Enabled(s, a) && Enabled(Apply(s, a), b) && Enabled(Apply(Apply(s, a), b), c)
    requires Enabled(Apply(Apply(Apply(s, a), b), c), d)
    requires !b.ReclaimOp? && !c.ReclaimOp? && !d.ReclaimOp?
    ensures Follows([a, b, c, d], states) && SparingFrom([a, b, c, d], states, 1) && |states| == 5
    ensures states[0] == s && states[3] == Apply(Apply(Apply(s, a), b), c) && states[4] == Apply(states[3], d)
  {
    var s1 := Apply(s, a);
    var s2 := Apply(s1, b);
    var s3 := Apply(s2, c);
    states := [s, s1, s2, s3, Apply(s3, d)];
  }

  /** Reclaimed and claimed again, the job is held twice. */
  lemma TakenOver(s: System, claim: Claim, now: int, minutes: nat, worker: string, at: int) returns (second: Claim)
    requires claim in s.held && ClaimOk(s, claim) && claim.id in Stalled(s.jobs, now, minutes)
    requires at >= s.jobs[claim.id].runAfter
    ensures var s1 := Apply(s, ReclaimOp(now, minutes)); var s2 := Apply(s1, ClaimOp({claim.id}, worker, at));
      && Enabled(s1, ClaimOp({claim.id}, worker, at)) && claim.id in s2.jobs
      && claim in s2.held && second in s2.held && second != claim && second.id == claim.id
  {
    var s1 := Apply(s, ReclaimOp(now, minutes));
    assert s1.jobs[claim.id] == s.jobs[claim.id].(status := Queued, lockedBy := None, lockedAt := None);
    assert claim.id in Claimable(s1.jobs, at);
    second := Claim(claim.id, s.jobs[claim.id].attempts + 1, s.jobs[claim.id].maxAttempts);
  }

  lemma SparingCannotUndo(s: System, op: Op, ops: seq<Op>, states: seq<System>, i: nat, j: nat, id: Id)
    requires Inv(s) && OneHolder(s) && SparesLive(s, op)
    requires Follows(ops, states) && states[0] == s && |ops| > 0 && ops[0] == op && SparingFrom(ops, states, 1)
    requires i <= j < |states|
    ensures !Changes(states[i], states[j], id)
  {
    SparedStays(ops, states, i, j);
  }

  /**
   * From a state in which every claim is the only one for a running job, such
   * as every state of a disciplined run: an operation can be continued to undo
   * a settled job if and only if it takes a job from a worker still alive.
   */
  lemma UndoneIff(s: System, op: Op)
    requires Inv(s) && OneHolder(s) && Enabled(s, op)
    ensures CanUndo(s, op) <==> !SparesLive(s, op)
  {
    if SparesLive(s, op) {
      forall ops, states | Follows(ops, states) && states[0] == s && |ops| > 0 && ops[0] == op && SparingFrom(ops, states, 1)
        ensures !IsUndoing(s, op, ops, states)
      {
        forall i: nat, j: nat, id: Id | i <= j < |states| ensures !Changes(states[i], states[j], id) {
          SparingCannotUndo(s, op, ops, states, i, j, id);
        }
      }
    } else {
      var claim :| claim in s.held && claim.id in Stalled(s.jobs, op.now, op.minutes);
      var ops, states := ReclaimingLiveUndoesSuccess(s, claim, op.now, op.minutes, "");
      assert Changes(states[3], states[4], claim.id);
      assert IsUndoing(s, op, ops, states);
    }
  }

  lemma FirstClaim(maxAttempts: int) returns (ops: seq<Op>, states: seq<System>)
    ensures IsRun(ops, states) && |ops| == 2 && Inv(states[2])
    ensures Claim("job", 1, maxAttempts) in states[2].held && "job" in Stalled(states[2].jobs, 60_001, 1)
  {
    ops := [EnqueueOp("job", "", None, 0, maxAttempts), ClaimOp({"job"}, "first", 0)];
    var s1 := Apply(Start(), ops[0]);
    assert s1.jobs["job"] == Inserted("", None, 0, maxAttempts);
    var s2 := Apply(s1, ops[1]);
    states := [Start(), s1, s2];
    InvAlways(ops, states, 2);
  }

  lemma Joined(ops: seq<Op>, states: seq<System>, more: seq<Op>, after: seq<System>)
    requires Follows(ops, states) && Follows(more, after) && after[0] == states[|ops|]
    ensures Follows(ops + more, states[..|ops|] + after)
  {
    var all, path := ops + more, states[..|ops|] + after;
    forall i {:trigger all[i]} | 0 <= i < |all| ensures Enabled(path[i], all[i]) && path[i + 1] == Apply(path[i], all[i]) {
      if i >= |ops| { assert all[i] == more[i - |ops|]; } else { assert all[i] == ops[i] && path[i + 1] == states[i + 1]; }
    }
  }

  /**
   * A run from the empty queue in which it happens, for any limit on attempts:
   * enqueue, claim, reclaim, claim, complete, and the first worker's failure.
   */
  lemma SuccessUndone(maxAttempts: int) returns (ops: seq<Op>, states: seq<System>)
    ensures IsRun(ops, states) && |ops| == 6
    ensures "job" in states[5].jobs && states[5].jobs["job"].status == Succeeded
    ensures "job" in states[6].jobs
    ensures states[6].jobs["job"].status == if maxAttempts > 1 then Queued else Dead
  {
    var start, before := FirstClaim(maxAttempts);
    var rest, after := ReclaimingLiveUndoesSuccess(before[2], Claim("job", 1, maxAttempts), 60_001, 1, "second");
    Joined(start, before, rest, after);
    ops, states := start + rest, before[..2] + after;
  }
}
