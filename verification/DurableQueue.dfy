/** workers.py, PostgresJobQueue, and the claim function of
    migrations/004_document_lifecycle.sql. Each transaction is one step; workers on any
    number of replicas interleave, and a worker may outlive its lease. */
module DurableQueue {
  import opened Sequences
  import opened Arithmetic

  const LEASE := 600.0

  datatype Status = Queued | Running | Completed | Failed

  /** A row of ingestion_jobs. `requeues`, `reclaims` and `ended` record its history: how often
      it was queued again, how often an expired claim was taken over, and which claims
      (numbered by `attempts`) have ended, in order. */
  datatype Job = Job(
    status: Status, attempts: nat, maxAttempts: nat, runAfter: real, createdAt: real, lockedAt: Option<real>, hasBytes: bool,
    requeues: nat, reclaims: nat, ended: seq<nat>)

  /** What a live worker remembers of the job it processes. */
  datatype Claim = Claim(job: nat, attempts: nat, maxAttempts: nat, at: real)

  datatype System = System(jobs: map<nat, Job>, workers: map<nat, Claim>, now: real)

  datatype Result = Success | InputError | OtherError

  datatype Step =
    | Submit(job: nat, maxAttempts: nat)
    | Take(worker: nat, job: nat)
    | Finish(worker: nat, result: Result)
    | Crash(worker: nat)            // also a worker that cannot reach the database to finish
    | Tick(now: real)

  const START := System(map[], map[], 0.0)

  predicate Done(j: Job) { j.status == Completed || j.status == Failed }

  predicate Claimable(j: Job, now: real) {
    || (j.status == Queued && j.runAfter <= now)
    || (j.status == Running && j.lockedAt.Some? && j.lockedAt.value < now - LEASE)
  }

  predicate Enabled(s: System, step: Step) {
    match step
    case Submit(job, maxAttempts) => job !in s.jobs && maxAttempts >= 1
    case Take(worker, job) => worker !in s.workers && job in s.jobs && Claimable(s.jobs[job], s.now)
    case Finish(worker, _) => worker in s.workers && s.workers[worker].job in s.jobs
    case Crash(worker) => worker in s.workers
    case Tick(now) => s.now <= now
  }

  /** The outcome run_once chooses from what the worker remembers. */
  function Verdict(c: Claim, result: Result): Status {
    match result
    case Success => Completed
    case InputError => Failed
    case OtherError => if c.attempts < c.maxAttempts then Queued else Failed
  }

  function NewJob(maxAttempts: nat, now: real): Job {
    Job(Queued, 0, maxAttempts, now, now, None, true, 0, 0, [])
  }

  /** The UPDATE of the claim; taking over a running job ends its former claim. */
  function Claimed(j: Job, now: real): Job {
    var j' := j.(status := Running, attempts := j.attempts + 1, lockedAt := Some(now));
    if j.status == Running then j'.(reclaims := j.reclaims + 1, ended := j.ended + [j.attempts]) else j'
  }

  /** The UPDATE of _finish: it looks only at the job's id. */
  function Finished(j: Job, c: Claim, result: Result, now: real): Job {
    var status := Verdict(c, result);
    j.(status := status, lockedAt := None,
       runAfter := now + if status == Queued then Pow2(c.attempts) else 0.0,
       hasBytes := j.hasBytes && status == Queued,
       requeues := j.requeues + if status == Queued then 1 else 0,
       ended := j.ended + [c.attempts])
  }

  function ClaimOf(s: System, job: nat): Claim
    requires job in s.jobs
  {
    Claim(job, s.jobs[job].attempts + 1, s.jobs[job].maxAttempts, s.now)
  }

  function Next(s: System, step: Step): System
    requires Enabled(s, step)
  {
    match step
    case Submit(job, maxAttempts) => s.(jobs := s.jobs[job := NewJob(maxAttempts, s.now)])
    case Take(worker, job) =>
      System(s.jobs[job := Claimed(s.jobs[job], s.now)], s.workers[worker := ClaimOf(s, job)], s.now)
    case Finish(worker, result) =>
      var c := s.workers[worker];
      System(s.jobs[c.job := Finished(s.jobs[c.job], c, result, s.now)], s.workers - {worker}, s.now)
    case Crash(worker) => s.(workers := s.workers - {worker})
    case Tick(now) => s.(now := now)
  }

  /** ORDER BY run_after, created_at */
  predicate ClaimedBefore(a: Job, b: Job) {
    a.runAfter < b.runAfter || (a.runAfter == b.runAfter && a.createdAt <= b.createdAt)
  }

  function ClaimableIds(jobs: map<nat, Job>, now: real): set<nat> {
    set k | k in jobs && Claimable(jobs[k], now)
  }

  ghost predicate First(jobs: map<nat, Job>, ids: set<nat>, k: nat)
    requires forall i :: i in ids ==> i in jobs
  {
    k in ids && forall i :: i in ids ==>
      || jobs[k].runAfter < jobs[i].runAfter
      || (jobs[k].runAfter == jobs[i].runAfter && jobs[k].createdAt <= jobs[i].createdAt)
  }

  /** The ingestion_jobs table; `workers` records who holds what, on every replica. */
  class PostgresJobQueue {
    var jobs: map<nat, Job>
    ghost var workers: map<nat, Claim>

    ghost function Snapshot(now: real): System
      reads this
    {
      System(jobs, workers, now)
    }

    constructor ()
      ensures Snapshot(0.0) == START
    {
      jobs, workers := map[], map[];
    }

    method SubmitJob(job: nat, maxAttempts: nat, now: real)
      requires Enabled(Snapshot(now), Submit(job, maxAttempts))
      modifies this
      ensures Snapshot(now) == Next(old(Snapshot(now)), Submit(job, maxAttempts))
    {
      jobs := jobs[job := NewJob(maxAttempts, now)];
    }

    /** The row that ORDER BY ... LIMIT 1 picks among the claimable ones. */
    method Oldest(now: real) returns (oldest: Option<nat>)
      ensures oldest.None? <==> ClaimableIds(jobs, now) == {}
      ensures oldest.Some? ==> First(jobs, ClaimableIds(jobs, now), oldest.value)
    {
      var ids := ClaimableIds(jobs, now);
      var left := ids;
      oldest := None;
      while left != {}
        invariant left <= ids && (oldest.None? <==> left == ids)
        invariant oldest.Some? ==> First(jobs, ids - left, oldest.value)
        decreases left
      {
        var k :| k in left;
        if oldest.None? || !ClaimedBefore(jobs[oldest.value], jobs[k]) {
          oldest := Some(k);
        }
        left := left - {k};
      }
      assert ids - left == ids;
    }

    /** claim_ingestion_job(): the oldest claimable job, unless there is none. */
    method ClaimJob(worker: nat, now: real) returns (claimed: Option<Claim>)
      requires worker !in workers
      modifies this
      ensures claimed.None? ==> Snapshot(now) == old(Snapshot(now)) && forall k :: k in jobs ==> !Claimable(jobs[k], now)
      ensures claimed.Some? ==>
                && Enabled(old(Snapshot(now)), Take(worker, claimed.value.job))
                && Snapshot(now) == Next(old(Snapshot(now)), Take(worker, claimed.value.job))
                && workers[worker] == claimed.value
                && First(old(jobs), ClaimableIds(old(jobs), now), claimed.value.job)
    {
      var oldest := Oldest(now);
      if oldest.None? {
        forall k | k in jobs ensures !Claimable(jobs[k], now) {
          assert k !in ClaimableIds(jobs, now);
        }
        return None;
      }
      var k := oldest.value;
      claimed := Some(Claim(k, jobs[k].attempts + 1, jobs[k].maxAttempts, now));
      jobs := jobs[k := Claimed(jobs[k], now)];
      workers := workers[worker := claimed.value];
    }

    /** run_once() after the handler: choose the outcome and write it. */
    method Conclude(worker: nat, c: Claim, result: Result, now: real)
      requires worker in workers && workers[worker] == c && c.job in jobs
      modifies this
      ensures Snapshot(now) == Next(old(Snapshot(now)), Finish(worker, result))
      ensures result == Success ==> jobs[c.job].status == Completed
      ensures result == InputError ==> jobs[c.job].status == Failed
      ensures result == OtherError && c.attempts >= c.maxAttempts ==> jobs[c.job].status == Failed
      ensures result == OtherError && c.attempts < c.maxAttempts ==>
                jobs[c.job].status == Queued && jobs[c.job].runAfter == now + Pow2(c.attempts)
      ensures jobs[c.job].lockedAt == None
    {
      match result {
        case InputError => FinishRow(c, Failed, 0.0, now);
        case OtherError =>
          if c.attempts < c.maxAttempts {
            FinishRow(c, Queued, Pow2(c.attempts), now);
          } else {
            FinishRow(c, Failed, 0.0, now);
          }
        case Success => FinishRow(c, Completed, 0.0, now);
      }
      workers := workers - {worker};
    }

    /** _finish(): the uploaded bytes go once the job can no longer run. */
    method FinishRow(c: Claim, status: Status, retryIn: real, now: real)
      modifies this`jobs
      ensures jobs.Keys == old(jobs.Keys) && forall k :: k in jobs && k != c.job ==> jobs[k] == old(jobs)[k]
      ensures c.job in jobs ==>
                var j := old(jobs)[c.job];
                jobs[c.job] == j.(status := status, lockedAt := None, runAfter := now + retryIn,
                                  hasBytes := j.hasBytes && status != Completed && status != Failed,
                                  requeues := j.requeues + (if status == Queued then 1 else 0), ended := j.ended + [c.attempts])
    {
      if c.job in jobs {
        var j := jobs[c.job];
        var done := status == Completed || status == Failed;
        jobs := jobs[c.job := j.(status := status, lockedAt := None, runAfter := now + retryIn,
                                 hasBytes := if done then false else j.hasBytes,
                                 requeues := j.requeues + (if status == Queued then 1 else 0), ended := j.ended + [c.attempts])];
      }
    }
  }

  /* ---- runs ---- */

  ghost predicate IsRun(steps: seq<Step>, states: seq<System>) {
    && |states| == |steps| + 1 && states[0] == START
    && forall i :: 0 <= i < |steps| ==> Enabled(states[i], steps[i]) && states[i + 1] == Next(states[i], steps[i])
  }

  /** The row still carries the worker's claim. */
  predicate Carries(s: System, worker: nat)
    requires worker in s.workers && s.workers[worker].job in s.jobs
  {
    s.jobs[s.workers[worker].job].lockedAt == Some(s.workers[worker].at)
  }

  /** Only workers whose claim the row still carries finish. */
  ghost predicate Guarded(steps: seq<Step>, states: seq<System>)
    requires IsRun(steps, states)
  {
    forall i :: 0 <= i < |steps| && steps[i].Finish? ==> Carries(states[i], steps[i].worker)
  }

  /** No live worker outlives its lease: one that does has crashed. */
  predicate LeasesHold(s: System) {
    forall w :: w in s.workers ==> s.now <= s.workers[w].at + LEASE
  }

  ghost predicate Leased(states: seq<System>) {
    forall i :: 0 <= i < |states| ==> LeasesHold(states[i])
  }

  /* ---- invariants of guarded runs ---- */

  ghost predicate Sound(j: Job, now: real) {
    && j.maxAttempts >= 1 && j.requeues < j.maxAttempts
    && (j.status == Running <==> j.lockedAt.Some?) && (j.status == Running ==> j.lockedAt.value <= now && j.attempts >= 1)
    && (Done(j) <==> !j.hasBytes)
    && (j.status == Queued ==> j.attempts < j.maxAttempts)
    // every claim ended once, by a finish or a takeover, or is the running one
    && Distinct(j.ended) && (forall k :: k in j.ended ==> 1 <= k <= j.attempts)
    && (forall k :: 1 <= k <= j.attempts ==> (k in j.ended <==> !(j.status == Running && k == j.attempts)))
    && j.attempts == j.requeues + j.reclaims + One(j.status == Running) + One(Done(j))
  }

  /** A live worker's claim is the row's running claim, or it has ended; then the row moved on. */
  predicate Tracked(s: System, w: nat)
    requires w in s.workers
  {
    var c := s.workers[w];
    && c.job in s.jobs && c.at <= s.now
    && var j := s.jobs[c.job];
       && 1 <= c.attempts <= j.attempts && c.maxAttempts == j.maxAttempts
       && (j.status == Running && c.attempts == j.attempts ==> j.lockedAt == Some(c.at))
       && (j.status == Running && c.attempts < j.attempts ==> j.lockedAt.Some? && c.at < j.lockedAt.value)
       && (j.status == Queued ==> c.at < j.runAfter)
  }

  ghost predicate Inv(s: System) {
    && (forall w :: w in s.workers ==> Tracked(s, w))
    && (forall v, w :: v in s.workers && w in s.workers && v != w && s.workers[v].job == s.workers[w].job ==>
          s.workers[v].attempts != s.workers[w].attempts)
    && (forall job :: job in s.jobs ==> Sound(s.jobs[job], s.now))
  }

  /** The lock time identifies the claim: the row carries it exactly when it is the running one. */
  lemma CarriesIff(s: System, w: nat)
    requires Inv(s) && w in s.workers
    ensures var c := s.workers[w];
            c.job in s.jobs && (Carries(s, w) <==> s.jobs[c.job].status == Running && s.jobs[c.job].attempts == c.attempts)
  {
    assert Tracked(s, w);
    assert Sound(s.jobs[s.workers[w].job], s.now);
  }

  lemma ClaimedSound(j: Job, now: real)
    requires Sound(j, now) && Claimable(j, now)
    ensures Sound(Claimed(j, now), now)
  {
    var j' := Claimed(j, now);
    assert j.status == Running ==> j.attempts !in j.ended;
  }

  lemma FinishedSound(j: Job, c: Claim, result: Result, now: real)
    requires Sound(j, now) && j.status == Running && c.attempts == j.attempts && c.maxAttempts == j.maxAttempts
    ensures Sound(Finished(j, c, result, now), now)
  {
    assert j.attempts !in j.ended;
  }

  lemma TakeKeepsInv(s: System, worker: nat, job: nat)
    requires Inv(s) && Enabled(s, Take(worker, job))
    ensures Inv(Next(s, Take(worker, job)))
  {
    var s' := Next(s, Take(worker, job));
    ClaimedSound(s.jobs[job], s.now);
    forall w | w in s'.workers ensures Tracked(s', w) {
      if w != worker {
        assert Tracked(s, w);
      }
    }
    forall v, w | v in s'.workers && w in s'.workers && v != w && s'.workers[v].job == s'.workers[w].job
      ensures s'.workers[v].attempts != s'.workers[w].attempts
    {
      if v != worker { assert Tracked(s, v); }
      if w != worker { assert Tracked(s, w); }
    }
  }

  lemma FinishKeepsInv(s: System, worker: nat, result: Result)
    requires Inv(s) && Enabled(s, Finish(worker, result)) && Carries(s, worker)
    ensures Inv(Next(s, Finish(worker, result)))
  {
    var s' := Next(s, Finish(worker, result));
    var c := s.workers[worker];
    CarriesIff(s, worker);
    assert Tracked(s, worker);
    FinishedSound(s.jobs[c.job], c, result, s.now);
    forall w | w in s'.workers ensures Tracked(s', w) {
      assert Tracked(s, w);
    }
  }

  /** A finish keeps the invariants exactly when the row still carries the claim: otherwise
      the claim ends a second time. */
  lemma FinishKeepsInvIff(s: System, worker: nat, result: Result)
    requires Inv(s) && Enabled(s, Finish(worker, result))
    ensures Inv(Next(s, Finish(worker, result))) <==> Carries(s, worker)
  {
    var c := s.workers[worker];
    CarriesIff(s, worker);
    if Carries(s, worker) {
      FinishKeepsInv(s, worker, result);
    } else {
      var j := s.jobs[c.job];
      var j' := Finished(j, c, result, s.now);
      assert Tracked(s, worker) && Sound(j, s.now);
      assert c.attempts in j.ended;
      var i :| 0 <= i < |j.ended| && j.ended[i] == c.attempts;
      assert j'.ended[i] == j'.ended[|j.ended|];
      assert !Sound(Next(s, Finish(worker, result)).jobs[c.job], s.now);
    }
  }

  lemma StepKeepsInv(s: System, step: Step)
    requires Inv(s) && Enabled(s, step) && (step.Finish? ==> Carries(s, step.worker))
    ensures Inv(Next(s, step))
  {
    match step
    case Submit(job, maxAttempts) => SubmitKeepsInv(s, job, maxAttempts);
    case Take(worker, job) => TakeKeepsInv(s, worker, job);
    case Finish(worker, result) => FinishKeepsInv(s, worker, result);
    case Crash(worker) =>
      forall w | w in Next(s, step).workers ensures Tracked(Next(s, step), w) {
        assert Tracked(s, w);
      }
    case Tick(now) =>
      forall w | w in s.workers ensures Tracked(Next(s, step), w) {
        assert Tracked(s, w);
      }
  }

  lemma SubmitKeepsInv(s: System, job: nat, maxAttempts: nat)
    requires Inv(s) && Enabled(s, Submit(job, maxAttempts))
    ensures Inv(Next(s, Submit(job, maxAttempts)))
  {
    var s' := Next(s, Submit(job, maxAttempts));
    forall w | w in s'.workers ensures Tracked(s', w) {
      assert Tracked(s, w);
    }
  }

  /** In every guarded run, leases or not, every claim is accounted for and ends once. */
  lemma {:induction false} RunKeepsInv(steps: seq<Step>, states: seq<System>, n: nat)
    requires IsRun(steps, states) && Guarded(steps, states) && n < |states|
    ensures Inv(states[n])
  {
    if n > 0 {
      RunKeepsInv(steps, states, n - 1);
      StepKeepsInv(states[n - 1], steps[n - 1]);
    }
  }

  /** In every guarded run: a job that can be claimed still has its uploaded bytes; it was
      requeued at most maxAttempts - 1 times; and it was claimed at most maxAttempts times
      plus once per takeover. */
  lemma QueueIsSafe(steps: seq<Step>, states: seq<System>, n: nat, job: nat)
    requires IsRun(steps, states) && Guarded(steps, states) && n < |states| && job in states[n].jobs
    ensures Claimable(states[n].jobs[job], states[n].now) ==> states[n].jobs[job].hasBytes
    ensures states[n].jobs[job].requeues <= states[n].jobs[job].maxAttempts - 1
    ensures states[n].jobs[job].attempts <= states[n].jobs[job].maxAttempts + states[n].jobs[job].reclaims
  {
    RunKeepsInv(steps, states, n);
    assert Sound(states[n].jobs[job], states[n].now);
  }

  lemma DoneStep(s: System, step: Step, job: nat)
    requires Inv(s) && Enabled(s, step) && (step.Finish? ==> Carries(s, step.worker))
    requires job in s.jobs && Done(s.jobs[job])
    ensures job in Next(s, step).jobs && Next(s, step).jobs[job] == s.jobs[job]
  {
    if step.Finish? {
      CarriesIff(s, step.worker);
    }
  }

  /** Completed and failed are final: the row never changes again. */
  lemma {:induction false} DoneIsAbsorbing(steps: seq<Step>, states: seq<System>, m: nat, n: nat, job: nat)
    requires IsRun(steps, states) && Guarded(steps, states) && m <= n < |states|
    requires job in states[m].jobs && Done(states[m].jobs[job])
    ensures job in states[n].jobs && states[n].jobs[job] == states[m].jobs[job]
  {
    if m < n {
      DoneIsAbsorbing(steps, states, m, n - 1, job);
      RunKeepsInv(steps, states, n - 1);
      DoneStep(states[n - 1], steps[n - 1], job);
    }
  }

  /** Step `i` is a worker's finish of the job with the given result. */
  predicate Finishes(steps: seq<Step>, states: seq<System>, i: nat, job: nat, result: Result)
    requires i < |steps| && i < |states|
  {
    && steps[i].Finish? && steps[i].result == result && steps[i].worker in states[i].workers
    && states[i].workers[steps[i].worker].job == job
  }

  /** It ends the job by failing it: an input error, or any other on the last allowed attempt. */
  predicate FinishesBadly(steps: seq<Step>, states: seq<System>, i: nat, job: nat)
    requires i < |steps| && i < |states|
  {
    || Finishes(steps, states, i, job, InputError)
    || (&& Finishes(steps, states, i, job, OtherError)
        && states[i].workers[steps[i].worker].attempts >= states[i].workers[steps[i].worker].maxAttempts)
  }

  ghost predicate Succeeded(steps: seq<Step>, states: seq<System>, n: nat, job: nat)
    requires n <= |steps| && n <= |states|
  {
    exists i :: 0 <= i < n && Finishes(steps, states, i, job, Success)
  }

  ghost predicate GaveUp(steps: seq<Step>, states: seq<System>, n: nat, job: nat)
    requires n <= |steps| && n <= |states|
  {
    exists i :: 0 <= i < n && FinishesBadly(steps, states, i, job)
  }

  /** One step: who becomes completed or failed, and by which result. */
  lemma OutcomeStep(steps: seq<Step>, states: seq<System>, i: nat, job: nat)
    requires IsRun(steps, states) && Guarded(steps, states) && i < |steps| && Inv(states[i])
    requires job in states[i + 1].jobs && !(job in states[i].jobs && Done(states[i].jobs[job]))
    ensures states[i + 1].jobs[job].status == Completed <==> Finishes(steps, states, i, job, Success)
    ensures states[i + 1].jobs[job].status == Failed <==> FinishesBadly(steps, states, i, job)
  {
  }

  /** In every guarded run a job is completed if and only if a worker finished it with success,
      and failed if and only if one finished it with an input error or, on its last allowed
      attempt, with any other. */
  lemma {:induction false} StatusTellsOutcome(steps: seq<Step>, states: seq<System>, n: nat, job: nat)
    requires IsRun(steps, states) && Guarded(steps, states) && n < |states| && job in states[n].jobs
    ensures states[n].jobs[job].status == Completed <==> Succeeded(steps, states, n, job)
    ensures states[n].jobs[job].status == Failed <==> GaveUp(steps, states, n, job)
  {
    if n > 0 {
      if job in states[n - 1].jobs {
        StatusTellsOutcome(steps, states, n - 1, job);
      } else {
        NotYetFinished(steps, states, n - 1, job);
      }
      OutcomeNext(steps, states, n - 1, job);
    }
  }

  /** The outcome of one more step, when what came before is told by the status. */
  lemma OutcomeNext(steps: seq<Step>, states: seq<System>, i: nat, job: nat)
    requires IsRun(steps, states) && Guarded(steps, states) && i < |steps| && job in states[i + 1].jobs
    requires Succeeded(steps, states, i, job) <==> job in states[i].jobs && states[i].jobs[job].status == Completed
    requires GaveUp(steps, states, i, job) <==> job in states[i].jobs && states[i].jobs[job].status == Failed
    ensures states[i + 1].jobs[job].status == Completed <==> Succeeded(steps, states, i + 1, job)
    ensures states[i + 1].jobs[job].status == Failed <==> GaveUp(steps, states, i + 1, job)
  {
    StatusStep(steps, states, i, job);
    OneMore(steps, states, i, job);
  }

  lemma StatusStep(steps: seq<Step>, states: seq<System>, i: nat, job: nat)
    requires IsRun(steps, states) && Guarded(steps, states) && i < |steps| && job in states[i + 1].jobs
    ensures states[i + 1].jobs[job].status == Completed <==>
              Finishes(steps, states, i, job, Success) || (job in states[i].jobs && states[i].jobs[job].status == Completed)
    ensures states[i + 1].jobs[job].status == Failed <==>
              FinishesBadly(steps, states, i, job) || (job in states[i].jobs && states[i].jobs[job].status == Failed)
  {
    RunKeepsInv(steps, states, i);
    if job in states[i].jobs && Done(states[i].jobs[job]) {
      DoneStep(states[i], steps[i], job);
      NobodyFinishes(states[i], steps[i], job);
    } else {
      OutcomeStep(steps, states, i, job);
    }
  }

  lemma OneMore(steps: seq<Step>, states: seq<System>, n: nat, job: nat)
    requires n < |steps| && n < |states|
    ensures Succeeded(steps, states, n + 1, job) <==> Succeeded(steps, states, n, job) || Finishes(steps, states, n, job, Success)
    ensures GaveUp(steps, states, n + 1, job) <==> GaveUp(steps, states, n, job) || FinishesBadly(steps, states, n, job)
  {
  }

  lemma NobodyFinishes(s: System, step: Step, job: nat)
    requires Inv(s) && Enabled(s, step) && (step.Finish? ==> Carries(s, step.worker))
    requires job in s.jobs && Done(s.jobs[job])
    ensures !(step.Finish? && s.workers[step.worker].job == job)
  {
    if step.Finish? {
      CarriesIff(s, step.worker);
    }
  }

  lemma {:induction false} JobsStay(steps: seq<Step>, states: seq<System>, m: nat, n: nat, job: nat)
    requires IsRun(steps, states) && m <= n < |states| && job in states[m].jobs
    ensures job in states[n].jobs
  {
    if m < n {
      JobsStay(steps, states, m, n - 1, job);
    }
  }

  /** A job that does not exist yet has no finish behind it. */
  lemma NotYetFinished(steps: seq<Step>, states: seq<System>, n: nat, job: nat)
    requires IsRun(steps, states) && n < |states| && job !in states[n].jobs
    ensures !Succeeded(steps, states, n, job) && !GaveUp(steps, states, n, job)
  {
    forall i | 0 <= i < n && steps[i].Finish? && steps[i].worker in states[i].workers
      ensures states[i].workers[steps[i].worker].job != job
    {
      if states[i].workers[steps[i].worker].job == job {
        JobsStay(steps, states, i, n, job);
      }
    }
  }

  /* ---- when a job can be claimed again ---- */

  lemma {:induction false} ClockStands(steps: seq<Step>, states: seq<System>, m: nat, n: nat)
    requires IsRun(steps, states) && m <= n < |states|
    ensures states[m].now <= states[n].now
  {
    if m < n {
      ClockStands(steps, states, m, n - 1);
    }
  }

  /** A job that was sent back stays as it is until its time has come. */
  lemma {:induction false} StaysSentBack(steps: seq<Step>, states: seq<System>, i: nat, k: nat, job: nat)
    requires IsRun(steps, states) && Guarded(steps, states) && i <= k < |states|
    requires job in states[i].jobs && states[i].jobs[job].status == Queued
    ensures job in states[k].jobs
    ensures states[k].jobs[job] == states[i].jobs[job] || states[k].now >= states[i].jobs[job].runAfter
  {
    if i < k {
      StaysSentBack(steps, states, i, k - 1, job);
      SentBackNext(steps, states, k - 1, job);
    }
  }

  lemma SentBackNext(steps: seq<Step>, states: seq<System>, k: nat, job: nat)
    requires IsRun(steps, states) && Guarded(steps, states) && k < |steps| && job in states[k].jobs
    ensures job in states[k + 1].jobs && states[k].now <= states[k + 1].now
    ensures states[k].jobs[job].status == Queued ==>
              states[k + 1].jobs[job] == states[k].jobs[job] || states[k].now >= states[k].jobs[job].runAfter
  {
    RunKeepsInv(steps, states, k);
    SentBackStep(states[k], steps[k], job);
  }

  lemma SentBackStep(s: System, step: Step, job: nat)
    requires Inv(s) && Enabled(s, step) && (step.Finish? ==> Carries(s, step.worker)) && job in s.jobs
    ensures job in Next(s, step).jobs && s.now <= Next(s, step).now
    ensures s.jobs[job].status == Queued ==> Next(s, step).jobs[job] == s.jobs[job] || s.now >= s.jobs[job].runAfter
  {
    if step.Finish? {
      CarriesIff(s, step.worker);
    }
  }

  /** In every guarded run, a job sent back by an error in its n-th attempt is not claimed
      again for 2^n seconds. */
  lemma BacksOff(steps: seq<Step>, states: seq<System>, i: nat, j: nat, job: nat)
    requires IsRun(steps, states) && Guarded(steps, states) && i < j < |steps|
    requires Finishes(steps, states, i, job, OtherError) && !FinishesBadly(steps, states, i, job)
    requires steps[j].Take? && steps[j].job == job
    ensures states[j].now >= states[i].now + Pow2(states[i].workers[steps[i].worker].attempts)
  {
    assert states[i + 1].jobs[job].status == Queued;
    StaysSentBack(steps, states, i + 1, j, job);
  }

  lemma {:induction false} StaysLocked(steps: seq<Step>, states: seq<System>, i: nat, k: nat, job: nat)
    requires IsRun(steps, states) && i < k < |states| && steps[i].Take? && steps[i].job == job
    requires forall f, result :: i < f < k ==> !Finishes(steps, states, f, job, result)
    ensures job in states[k].jobs && states[k].jobs[job].status == Running
    ensures states[k].jobs[job].lockedAt.Some? && states[k].jobs[job].lockedAt.value >= states[i].now
  {
    if i + 1 < k {
      StaysLocked(steps, states, i, k - 1, job);
      ClockStands(steps, states, i, k - 1);
      if steps[k - 1].Finish? {
        assert !Finishes(steps, states, k - 1, job, steps[k - 1].result);
      }
    }
  }

  /** In every run, a claim that nobody has finished is taken over only after its lease. */
  lemma TakenOverAfterLease(steps: seq<Step>, states: seq<System>, i: nat, j: nat, job: nat)
    requires IsRun(steps, states) && i < j < |steps|
    requires steps[i].Take? && steps[i].job == job && steps[j].Take? && steps[j].job == job
    requires forall f, result :: i < f < j ==> !Finishes(steps, states, f, job, result)
    ensures states[j].now > states[i].now + LEASE
  {
    StaysLocked(steps, states, i, j, job);
  }

  /** Whatever the handler does on the last allowed claim ends the job. */
  lemma LastClaimEnds(steps: seq<Step>, states: seq<System>, n: nat, worker: nat, result: Result)
    requires IsRun(steps, states) && Guarded(steps, states) && n < |states| && Enabled(states[n], Finish(worker, result))
    requires Carries(states[n], worker)
    requires var job := states[n].jobs[states[n].workers[worker].job]; job.attempts >= job.maxAttempts
    ensures Done(Next(states[n], Finish(worker, result)).jobs[states[n].workers[worker].job])
  {
    RunKeepsInv(steps, states, n);
    CarriesIff(states[n], worker);
    assert Tracked(states[n], worker);
  }

  /* ---- leases ---- */

  /** Every live worker holds the running claim of its row. */
  ghost predicate AllCarry(s: System) {
    forall w :: w in s.workers ==> s.workers[w].job in s.jobs && Carries(s, w)
  }

  ghost predicate SingleHolder(s: System) {
    forall v, w :: v in s.workers && w in s.workers && s.workers[v].job == s.workers[w].job ==> v == w
  }

  ghost predicate Held(s: System, job: nat) {
    exists w :: w in s.workers && s.workers[w].job == job
  }

  lemma CarryStep(s: System, step: Step)
    requires Inv(s) && AllCarry(s) && LeasesHold(s) && Enabled(s, step)
    ensures AllCarry(Next(s, step))
  {
    match step
    case Take(worker, job) => CarryTake(s, worker, job);
    case Finish(worker, result) => CarryFinish(s, worker, result);
    case _ =>
  }

  lemma CarryTake(s: System, worker: nat, job: nat)
    requires Inv(s) && AllCarry(s) && LeasesHold(s) && Enabled(s, Take(worker, job))
    ensures AllCarry(Next(s, Take(worker, job)))
  {
    HeldIsLocked(s);
    assert !Held(s, job);
  }

  lemma CarryFinish(s: System, worker: nat, result: Result)
    requires Inv(s) && AllCarry(s) && Enabled(s, Finish(worker, result))
    ensures AllCarry(Next(s, Finish(worker, result)))
  {
    SoleHolder(s);
  }

  lemma SoleHolder(s: System)
    requires Inv(s) && AllCarry(s)
    ensures SingleHolder(s)
  {
    forall v, w | v in s.workers && w in s.workers && s.workers[v].job == s.workers[w].job ensures v == w {
      CarriesIff(s, v);
      CarriesIff(s, w);
    }
  }

  lemma {:induction false} LeasedInv(steps: seq<Step>, states: seq<System>, n: nat)
    requires IsRun(steps, states) && Leased(states) && n < |states|
    ensures Inv(states[n]) && AllCarry(states[n])
  {
    if n > 0 {
      LeasedInv(steps, states, n - 1);
      StepKeepsInv(states[n - 1], steps[n - 1]);
      CarryStep(states[n - 1], steps[n - 1]);
    }
  }

  /** While leases hold, the run is guarded, at most one live worker holds a job, and nobody
      can claim a held job. */
  lemma LeasesAreEnough(steps: seq<Step>, states: seq<System>)
    requires IsRun(steps, states) && Leased(states)
    ensures Guarded(steps, states)
    ensures forall n :: 0 <= n < |states| ==> SingleHolder(states[n])
    ensures forall n, job :: 0 <= n < |states| && job in states[n].jobs && Held(states[n], job) ==>
              !Claimable(states[n].jobs[job], states[n].now)
  {
    forall n | 0 <= n < |states|
      ensures AllCarry(states[n]) && SingleHolder(states[n])
      ensures forall job :: job in states[n].jobs && Held(states[n], job) ==> !Claimable(states[n].jobs[job], states[n].now)
    {
      LeasedInv(steps, states, n);
      SoleHolder(states[n]);
      HeldIsLocked(states[n]);
    }
  }

  /** Every running job is held, and none was ever taken over. */
  ghost predicate NoTakeover(s: System) {
    forall job :: job in s.jobs ==> s.jobs[job].reclaims == 0 && (s.jobs[job].status == Running ==> Held(s, job))
  }

  lemma StillHeld(s: System, s': System, job: nat)
    requires Held(s, job) && forall w :: w in s.workers && s.workers[w].job == job ==> w in s'.workers && s'.workers[w] == s.workers[w]
    ensures Held(s', job)
  {
    var w :| w in s.workers && s.workers[w].job == job;
    assert w in s'.workers && s'.workers[w].job == job;
  }

  lemma HeldIsLocked(s: System)
    requires Inv(s) && AllCarry(s) && LeasesHold(s)
    ensures forall job :: job in s.jobs && Held(s, job) ==> !Claimable(s.jobs[job], s.now)
  {
    forall w | w in s.workers ensures !Claimable(s.jobs[s.workers[w].job], s.now) {
      CarriesIff(s, w);
    }
  }

  lemma NoTakeoverStep(s: System, step: Step, job: nat)
    requires NoTakeover(s) && Enabled(s, step) && !step.Crash? && job in Next(s, step).jobs
    requires forall k :: k in s.jobs && Held(s, k) ==> !Claimable(s.jobs[k], s.now)
    ensures var s' := Next(s, step);
            s'.jobs[job].reclaims == 0 && (s'.jobs[job].status == Running ==> Held(s', job))
  {
    var s' := Next(s, step);
    if step.Take? && step.job == job {
      assert step.worker in s'.workers && s'.workers[step.worker].job == job;
    } else if s'.jobs[job].status == Running {
      StillHeld(s, s', job);
    }
  }

  lemma {:induction false} NoCrashNoTakeover(steps: seq<Step>, states: seq<System>, n: nat)
    requires IsRun(steps, states) && Leased(states) && n < |states| && forall i :: 0 <= i < |steps| ==> !steps[i].Crash?
    ensures NoTakeover(states[n])
  {
    if n > 0 {
      NoCrashNoTakeover(steps, states, n - 1);
      LeasedInv(steps, states, n - 1);
      HeldIsLocked(states[n - 1]);
      forall job | job in states[n].jobs
        ensures states[n].jobs[job].reclaims == 0 && (states[n].jobs[job].status == Running ==> Held(states[n], job))
      {
        NoTakeoverStep(states[n - 1], steps[n - 1], job);
      }
    }
  }

  /** Without crashes and while leases hold, no job is claimed more than maxAttempts times. */
  lemma CrashFreeClaims(steps: seq<Step>, states: seq<System>, n: nat, job: nat)
    requires IsRun(steps, states) && Leased(states) && n < |states| && job in states[n].jobs
    requires forall i :: 0 <= i < |steps| ==> !steps[i].Crash?
    ensures states[n].jobs[job].attempts <= states[n].jobs[job].maxAttempts
  {
    LeasesAreEnough(steps, states);
    NoCrashNoTakeover(steps, states, n);
    QueueIsSafe(steps, states, n, job);
  }

  /** A claim keeps single holders exactly when no live worker held the job. */
  lemma TakeKeepsSingleIff(s: System, worker: nat, job: nat)
    requires SingleHolder(s) && Enabled(s, Take(worker, job))
    ensures SingleHolder(Next(s, Take(worker, job))) <==> !Held(s, job)
  {
    var s' := Next(s, Take(worker, job));
    if Held(s, job) {
      var w :| w in s.workers && s.workers[w].job == job;
      assert s'.workers[w].job == s'.workers[worker].job && w != worker;
    }
  }

  /* ---- without them ---- */

  /** A finish leaves a finished job finished exactly when its worker does not ask for a retry. */
  lemma FinishKeepsDoneIff(s: System, worker: nat, result: Result)
    requires Enabled(s, Finish(worker, result)) && Done(s.jobs[s.workers[worker].job])
    ensures var c := s.workers[worker];
            Done(Next(s, Finish(worker, result)).jobs[c.job]) <==> !(result == OtherError && c.attempts < c.maxAttempts)
  {
  }

  function Outlive(): seq<Step> {
    [Submit(0, 2)] + [Take(1, 0)] + [Tick(601.0)] + [Take(2, 0)] + [Finish(2, Success)] + [Finish(1, OtherError)] + [Tick(603.0)]
  }

  lemma Extend(steps: seq<Step>, states: seq<System>, step: Step, s: System)
    requires IsRun(steps, states) && Enabled(Last(states), step) && s == Next(Last(states), step)
    ensures IsRun(steps + [step], states + [s])
  {
  }

  lemma TakenOnce() returns (states: seq<System>, j: Job)
    ensures IsRun([Submit(0, 2)] + [Take(1, 0)], states) && |states| == 3
    ensures Last(states) == System(map[0 := j], map[1 := Claim(0, 1, 2, 0.0)], 0.0)
    ensures j.status == Running && j.lockedAt == Some(0.0) && j.maxAttempts == 2 && j.attempts == 1
  {
    var j0 := NewJob(2, 0.0);
    j := Claimed(j0, 0.0);
    var s1, s2 := System(map[0 := j0], map[], 0.0), System(map[0 := j], map[1 := Claim(0, 1, 2, 0.0)], 0.0);
    assert Next(START, Submit(0, 2)) == s1 && Next(s1, Take(1, 0)) == s2;
    Extend([], [START], Submit(0, 2), s1);
    assert [] + [Submit(0, 2)] == [Submit(0, 2)];
    Extend([Submit(0, 2)], [START] + [s1], Take(1, 0), s2);
    states := [START] + [s1] + [s2];
  }

  /** Two workers come to hold one job, the first after its lease. */
  lemma Overtaken() returns (states: seq<System>, j: Job)
    ensures IsRun([Submit(0, 2)] + [Take(1, 0)] + [Tick(601.0)] + [Take(2, 0)], states)
    ensures Last(states) == System(map[0 := j], map[1 := Claim(0, 1, 2, 0.0)][2 := Claim(0, 2, 2, 601.0)], 601.0)
    ensures j.status == Running && j.lockedAt == Some(601.0) && j.maxAttempts == 2
  {
    var steps := [Submit(0, 2)] + [Take(1, 0)];
    var before, j1 := TakenOnce();
    j := Claimed(j1, 601.0);
    var c1, c2 := Claim(0, 1, 2, 0.0), Claim(0, 2, 2, 601.0);
    var s3, s4 := System(map[0 := j1], map[1 := c1], 601.0), System(map[0 := j], map[1 := c1][2 := c2], 601.0);
    Extend(steps, before, Tick(601.0), s3);
    assert Next(s3, Take(2, 0)) == s4;
    Extend(steps + [Tick(601.0)], before + [s3], Take(2, 0), s4);
    states := before + [s3] + [s4];
  }

  /** A worker that outlives its lease turns a finished job back into a claimable one whose
      bytes are gone: no finish checks that the row still carries its claim. */
  lemma StaleFinishReopens() returns (states: seq<System>)
    ensures IsRun(Outlive(), states) && !Guarded(Outlive(), states)
    ensures 0 in states[5].jobs && Done(states[5].jobs[0])
    ensures var s := Last(states); 0 in s.jobs && s.jobs[0].status == Queued && !s.jobs[0].hasBytes && Claimable(s.jobs[0], s.now)
  {
    var steps := [Submit(0, 2)] + [Take(1, 0)] + [Tick(601.0)] + [Take(2, 0)];
    var before, j := Overtaken();
    var c1, c2 := Claim(0, 1, 2, 0.0), Claim(0, 2, 2, 601.0);
    var j5 := Finished(j, c2, Success, 601.0);
    var j6 := Finished(j5, c1, OtherError, 601.0);
    var s5, s6, s7 := System(map[0 := j5], map[1 := c1], 601.0), System(map[0 := j6], map[], 601.0), System(map[0 := j6], map[], 603.0);
    assert j6.runAfter == 603.0 by { assert Pow2(1) == 2.0 * Pow2(0); }
    assert Next(Last(before), Finish(2, Success)) == s5 by { assert Last(before).workers - {2} == map[1 := c1]; }
    Extend(steps, before, Finish(2, Success), s5);
    assert Next(s5, Finish(1, OtherError)) == s6 by { assert s5.workers - {1} == map[]; }
    Extend(steps + [Finish(2, Success)], before + [s5], Finish(1, OtherError), s6);
    Extend(steps + [Finish(2, Success)] + [Finish(1, OtherError)], before + [s5] + [s6], Tick(603.0), s7);
    states := before + [s5] + [s6] + [s7];
    assert |before| == 5 && states[5] == s5 && !Carries(s5, 1) && Outlive()[5] == Finish(1, OtherError);
  }
}
