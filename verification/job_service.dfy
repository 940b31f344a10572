/**
 Durable job records of the workers: a delivery claims the job of its operation, runs it, and
 reports. The lease is a time span without a token, so exclusion depends on workers reporting
 in time, while the attempt budget and the final states hold on every run.

 A crash is a worker that never reports. Reading and writing a job record is one atomic step.
 */
module JobService {
  import opened Prelude

  type OpId = nat
  type WorkerId = nat

  datatype Settings = Settings(leaseSeconds: nat, deferSeconds: int, defaultMaxAttempts: int)

  datatype Status = Queued | Running | Succeeded | Failed | DeadLetter | Cancelled

  datatype Job = Job(
    status: Status,
    attempts: nat,
    maxAttempts: int,
    retryable: bool,
    availableAt: Instant,
    deadlineAt: Option<Instant>,
    startedAt: Option<Instant>,
    finishedAt: Option<Instant>,
    lastError: Option<string>,
    createdAt: Instant,
    updatedAt: Instant)

  /** What a delivery asks for. */
  datatype Request = Request(maxAttempts: int, retryable: bool, deadlineAt: Option<Instant>)

  datatype Outcome = RunIt | Deduplicated | AlreadyDead | InFlight | Expired

  datatype ClaimResult = ClaimResult(shouldRun: bool, outcome: Outcome, attempt: nat, queueLatency: Option<nat>)

  /** How the job's own work ended. */
  datatype Ending = Completed | Deferred(error: string) | Raised(error: string)

  datatype Grant = Grant(op: OpId, at: Instant)

  datatype Entry =
    | Granted(op: OpId, worker: WorkerId, at: Instant)
    | Reported(op: OpId, worker: WorkerId, at: Instant)

  datatype World = World(
    jobs: map<OpId, Job>,
    workers: map<WorkerId, Grant>,
    seen: set<WorkerId>,
    now: Instant,
    log: seq<Entry>)

  datatype Event =
    | Ensure(op: OpId, request: Request)
    | Deliver(op: OpId, worker: WorkerId, request: Request)
    | Report(worker: WorkerId, ending: Ending)
    | Cancel(op: OpId)
    | Tick(elapsed: nat)

  const DEADLINE_EXCEEDED := "deadline_exceeded"
  const MAX_ATTEMPTS_EXCEEDED := "max_attempts_exceeded"
  const CANCELLED_BY_OPERATOR := "cancelled_by_operator"

  // ---------------------------------------------------------------- the transitions on one job

  /** Python's `x or y` on integers. */
  function Or(x: int, y: int): int {
    if x != 0 then x else y
  }

  function Cut(s: string): (r: string)
    ensures r <= s && |r| == Min(|s|, 500)
  {
    if |s| <= 500 then s else s[..500]
  }

  predicate IsStaleRunning(cfg: Settings, job: Job, now: Instant) {
    var started := if job.startedAt.Some? then job.startedAt.value else job.updatedAt;
    started <= now - cfg.leaseSeconds * SECOND
  }

  predicate DeadlineExpired(job: Job, now: Instant) {
    job.deadlineAt.Some? && job.deadlineAt.value <= now
  }

  function QueuedJob(request: Request, now: Instant): Job {
    Job(Queued, 0, request.maxAttempts, request.retryable, now, request.deadlineAt, None, None, None, now, now)
  }

  function FirstClaim(request: Request, now: Instant): Job {
    Job(Running, 1, request.maxAttempts, request.retryable, now, request.deadlineAt, Some(now), None, None, now, now)
  }

  /** A delivery that finds the job's record. */
  function Reclaim(cfg: Settings, job: Job, request: Request, now: Instant): (Job, ClaimResult) {
    if job.status.Succeeded? then (job, ClaimResult(false, Deduplicated, job.attempts, None))
    else if job.status.DeadLetter? then (job, ClaimResult(false, AlreadyDead, job.attempts, None))
    else if job.status.Running? && !IsStaleRunning(cfg, job, now) then
      (job, ClaimResult(false, InFlight, job.attempts, None))
    else if DeadlineExpired(job, now) then
      (job.(status := DeadLetter, lastError := Some(DEADLINE_EXCEEDED), finishedAt := Some(now), updatedAt := now),
       ClaimResult(false, Expired, job.attempts, None))
    else
      var next := job.attempts + 1;
      var limited := job.(maxAttempts := Or(request.maxAttempts, job.maxAttempts),
                          retryable := request.retryable,
                          deadlineAt := if request.deadlineAt.Some? then request.deadlineAt else job.deadlineAt,
                          updatedAt := now);
      if next > Or(limited.maxAttempts, request.maxAttempts) then
        (limited.(status := DeadLetter, attempts := next, finishedAt := Some(now),
                  lastError := if job.lastError.None? || job.lastError.value == "" then Some(MAX_ATTEMPTS_EXCEEDED)
                               else job.lastError),
         ClaimResult(false, AlreadyDead, next, None))
      else
        (limited.(status := Running, attempts := next, startedAt := Some(now), finishedAt := None, lastError := None),
         ClaimResult(true, RunIt, next, Some(Max(0, now - job.availableAt))))
  }

  function Finished(job: Job, succeeded: bool, error: Option<string>, now: Instant): Job {
    if job.status.Succeeded? || job.status.DeadLetter? then job
    else
      job.(status := if succeeded then Succeeded
                     else if !job.retryable || job.attempts >= Or(job.maxAttempts, 1) then DeadLetter
                     else Failed,
           lastError := if error.Some? && error.value != "" then Some(Cut(error.value)) else None,
           finishedAt := Some(now), updatedAt := now)
  }

  function Released(cfg: Settings, job: Job, error: string, now: Instant): Job {
    if !job.status.Running? then job
    else
      job.(status := Queued, availableAt := now + Max(0, cfg.deferSeconds) * SECOND, startedAt := None,
           finishedAt := None, lastError := Some(Cut(error)), updatedAt := now)
  }

  function AfterReport(cfg: Settings, job: Job, ending: Ending, now: Instant): Job {
    match ending
    case Completed => Finished(job, true, None, now)
    case Raised(error) => Finished(job, false, Some(error), now)
    case Deferred(error) => Released(cfg, job, error, now)
  }

  // ---------------------------------------------------------------- one committed step

  function StepDeliver(cfg: Settings, w: World, op: OpId, worker: WorkerId, request: Request): World {
    if worker in w.seen then w
    else if op !in w.jobs then
      w.(jobs := w.jobs[op := FirstClaim(request, w.now)],
         workers := w.workers[worker := Grant(op, w.now)], seen := w.seen + {worker},
         log := w.log + [Granted(op, worker, w.now)])
    else
      var (job, result) := Reclaim(cfg, w.jobs[op], request, w.now);
      if result.shouldRun then
        w.(jobs := w.jobs[op := job],
           workers := w.workers[worker := Grant(op, w.now)], seen := w.seen + {worker},
           log := w.log + [Granted(op, worker, w.now)])
      else
        w.(jobs := w.jobs[op := job], seen := w.seen + {worker})
  }

  function StepReport(cfg: Settings, w: World, worker: WorkerId, ending: Ending): World {
    if worker !in w.workers || w.workers[worker].op !in w.jobs then w
    else
      var op := w.workers[worker].op;
      w.(jobs := w.jobs[op := AfterReport(cfg, w.jobs[op], ending, w.now)],
         workers := w.workers - {worker},
         log := w.log + [Reported(op, worker, w.now)])
  }

  function Step(cfg: Settings, w: World, e: Event): World {
    match e
    case Ensure(op, request) =>
      if op in w.jobs then w else w.(jobs := w.jobs[op := QueuedJob(request, w.now)])
    case Deliver(op, worker, request) => StepDeliver(cfg, w, op, worker, request)
    case Report(worker, ending) => StepReport(cfg, w, worker, ending)
    case Cancel(op) =>
      if op !in w.jobs || !w.jobs[op].status.Queued? then w
      else w.(jobs := w.jobs[op := w.jobs[op].(status := Cancelled, finishedAt := Some(w.now),
                                               lastError := Some(CANCELLED_BY_OPERATOR), updatedAt := w.now)])
    case Tick(elapsed) => w.(now := w.now + elapsed)
  }

  function Run(cfg: Settings, w: World, es: seq<Event>): World {
    if es == [] then w
    else Step(cfg, Run(cfg, w, es[..|es| - 1]), es[|es| - 1])
  }

  function Start(now: Instant): World {
    World(map[], map[], {}, now, [])
  }

  // ---------------------------------------------------------------- the attempt budget

  function Grants(log: seq<Entry>, op: OpId): nat {
    if log == [] then 0
    else
      var last := log[|log| - 1];
      Grants(log[..|log| - 1], op) + (if last.Granted? && last.op == op then 1 else 0)
  }

  /** The last delivery that was told to run the operation. */
  function LatestGrant(log: seq<Entry>, op: OpId): Option<Entry> {
    if log == [] then None
    else
      var last := log[|log| - 1];
      if last.Granted? && last.op == op then Some(last) else LatestGrant(log[..|log| - 1], op)
  }

  lemma HistoryAppend(log: seq<Entry>, e: Entry, op: OpId)
    ensures Grants(log + [e], op) == Grants(log, op) + (if e.Granted? && e.op == op then 1 else 0)
    ensures LatestGrant(log + [e], op) == if e.Granted? && e.op == op then Some(e) else LatestGrant(log, op)
  {
    assert (log + [e])[..|log|] == log;
  }

  /** Every delivery asks for the same attempt limit. */
  predicate SameLimit(es: seq<Event>, limit: int) {
    forall i :: 0 <= i < |es| && es[i].Deliver? ==> es[i].request.maxAttempts == limit
  }

  ghost predicate JobInv(w: World, op: OpId, limit: int)
    requires op in w.jobs
  {
    var job := w.jobs[op];
    var grants := Grants(w.log, op);
    && grants <= limit
    && grants <= job.attempts <= grants + 1
    && (!job.status.DeadLetter? ==> job.attempts == grants)
    && (grants > 0 ==> job.maxAttempts == limit)
    && (job.status.Running? ==> grants > 0 && LatestGrant(w.log, op).Some?
                                && job.startedAt == Some(LatestGrant(w.log, op).value.at))
    && (job.status.Failed? ==> grants > 0 && job.retryable && job.attempts < job.maxAttempts)
  }

  ghost predicate BudgetInv(w: World, limit: int) {
    && (forall op :: op in w.jobs ==> JobInv(w, op, limit))
    && (forall op :: op !in w.jobs ==> Grants(w.log, op) == 0)
    && (forall x :: x in w.workers ==>
          x in w.seen && w.workers[x].op in w.jobs && Grants(w.log, w.workers[x].op) > 0)
  }

  /** An operation the new log entry is not about keeps its accounts. */
  lemma OtherJobStays(w: World, w': World, op: OpId, limit: int)
    requires if op in w.jobs then JobInv(w, op, limit) else Grants(w.log, op) == 0
    requires op in w.jobs <==> op in w'.jobs
    requires op in w.jobs ==> w'.jobs[op] == w.jobs[op]
    requires w'.log == w.log || (|w'.log| == |w.log| + 1 && w'.log == w.log + [w'.log[|w.log|]] && w'.log[|w.log|].op != op)
    ensures if op in w'.jobs then JobInv(w', op, limit) else Grants(w'.log, op) == 0
  {
    hide Grants, LatestGrant;
    if w'.log != w.log {
      HistoryAppend(w.log, w'.log[|w.log|], op);
    }
  }

  /** The counters after a delivery that found the record, run or not. */
  lemma ReclaimKeepsCounters(cfg: Settings, job: Job, request: Request, now: Instant, grants: nat)
    requires request.maxAttempts >= 1 && grants <= request.maxAttempts
    requires grants <= job.attempts <= grants + 1 && (!job.status.DeadLetter? ==> job.attempts == grants)
    ensures var (job', result) := Reclaim(cfg, job, request, now);
            && (result.shouldRun ==> && job'.status.Running? && job'.attempts == grants + 1 <= request.maxAttempts
                                     && job'.maxAttempts == request.maxAttempts && job'.startedAt == Some(now))
            && (!result.shouldRun && job' != job ==>
                                     && job'.status.DeadLetter? && grants <= job'.attempts <= grants + 1
                                     && (job'.maxAttempts == job.maxAttempts || job'.maxAttempts == request.maxAttempts))
  {
  }

  lemma DeliverKeepsJob(cfg: Settings, w: World, op: OpId, worker: WorkerId, request: Request, limit: int)
    requires if op in w.jobs then JobInv(w, op, limit) else Grants(w.log, op) == 0
    requires limit >= 1 && request.maxAttempts == limit && worker !in w.seen
    ensures op in StepDeliver(cfg, w, op, worker, request).jobs
    ensures JobInv(StepDeliver(cfg, w, op, worker, request), op, limit)
  {
    hide Grants, LatestGrant;
    var w' := StepDeliver(cfg, w, op, worker, request);
    if op in w.jobs {
      ReclaimKeepsCounters(cfg, w.jobs[op], request, w.now, Grants(w.log, op));
    }
    if w'.log != w.log {
      HistoryAppend(w.log, Granted(op, worker, w.now), op);
      assert w'.log == w.log + [Granted(op, worker, w.now)];
    }
  }

  lemma ReportKeepsJob(cfg: Settings, w: World, worker: WorkerId, ending: Ending, limit: int)
    requires worker in w.workers && w.workers[worker].op in w.jobs
    requires JobInv(w, w.workers[worker].op, limit) && Grants(w.log, w.workers[worker].op) > 0 && limit >= 1
    ensures JobInv(StepReport(cfg, w, worker, ending), w.workers[worker].op, limit)
  {
    hide Grants, LatestGrant;
    var op := w.workers[worker].op;
    HistoryAppend(w.log, Reported(op, worker, w.now), op);
  }

  lemma StepKeepsJob(cfg: Settings, w: World, e: Event, limit: int, op: OpId)
    requires BudgetInv(w, limit) && limit >= 1
    requires e.Deliver? ==> e.request.maxAttempts == limit
    ensures var w' := Step(cfg, w, e);
            if op in w'.jobs then JobInv(w', op, limit) else Grants(w'.log, op) == 0
  {
    assert if op in w.jobs then JobInv(w, op, limit) else Grants(w.log, op) == 0;
    match e
    case Deliver(o, worker, request) =>
      if worker !in w.seen {
        if op == o {
          DeliverKeepsJob(cfg, w, o, worker, request, limit);
        } else {
          OtherJobStays(w, StepDeliver(cfg, w, o, worker, request), op, limit);
        }
      }
    case Report(worker, ending) =>
      if worker in w.workers {
        if op == w.workers[worker].op {
          ReportKeepsJob(cfg, w, worker, ending, limit);
        } else {
          OtherJobStays(w, StepReport(cfg, w, worker, ending), op, limit);
        }
      }
    case _ =>
  }

  lemma StepKeepsHolders(cfg: Settings, w: World, e: Event, x: WorkerId)
    requires x in Step(cfg, w, e).workers
    requires x in w.workers ==> x in w.seen && w.workers[x].op in w.jobs && Grants(w.log, w.workers[x].op) > 0
    ensures var w' := Step(cfg, w, e);
            x in w'.seen && w'.workers[x].op in w'.jobs && Grants(w'.log, w'.workers[x].op) > 0
  {
    hide Grants, LatestGrant;
    var w' := Step(cfg, w, e);
    if w'.log != w.log {
      HistoryAppend(w.log, w'.log[|w.log|], w'.workers[x].op);
    }
  }

  lemma StepKeepsBudget(cfg: Settings, w: World, e: Event, limit: int)
    requires BudgetInv(w, limit) && limit >= 1
    requires e.Deliver? ==> e.request.maxAttempts == limit
    ensures BudgetInv(Step(cfg, w, e), limit)
  {
    var w' := Step(cfg, w, e);
    forall op ensures if op in w'.jobs then JobInv(w', op, limit) else Grants(w'.log, op) == 0 {
      StepKeepsJob(cfg, w, e, limit, op);
    }
    forall x | x in w'.workers ensures x in w'.seen && w'.workers[x].op in w'.jobs && Grants(w'.log, w'.workers[x].op) > 0 {
      StepKeepsHolders(cfg, w, e, x);
    }
  }

  lemma {:induction false} RunKeepsBudget(cfg: Settings, w: World, es: seq<Event>, limit: int)
    requires BudgetInv(w, limit) && limit >= 1 && SameLimit(es, limit)
    ensures BudgetInv(Run(cfg, w, es), limit)
  {
    if es != [] {
      RunKeepsBudget(cfg, w, es[..|es| - 1], limit);
      StepKeepsBudget(cfg, Run(cfg, w, es[..|es| - 1]), es[|es| - 1], limit);
    }
  }

  /** The budget. Duplicate deliveries, crashes, deferrals, late reports and cancels in any mix
      never let an operation run more than its limit; the counters stored in the record are
      what they claim to be. */
  lemma RunBudget(cfg: Settings, now: Instant, es: seq<Event>, limit: int, op: OpId)
    requires limit >= 1 && SameLimit(es, limit)
    ensures var w := Run(cfg, Start(now), es);
            && Grants(w.log, op) <= limit
            && (op in w.jobs ==>
                  var job := w.jobs[op];
                  && (!job.status.DeadLetter? ==> job.attempts == Grants(w.log, op))
                  && (job.status.Running? ==> 1 <= job.attempts <= job.maxAttempts == limit)
                  && (job.status.Failed? ==> job.retryable && 1 <= job.attempts < job.maxAttempts))
  {
    RunKeepsBudget(cfg, Start(now), es, limit);
    assert op in Run(cfg, Start(now), es).jobs ==> JobInv(Run(cfg, Start(now), es), op, limit);
  }

  predicate WithinLimit(e: Event, op: OpId, limit: int) {
    (e.Ensure? || e.Deliver?) && e.op == op ==> e.request.maxAttempts <= limit
  }

  predicate AllWithinLimit(es: seq<Event>, op: OpId, limit: int) {
    forall i :: 0 <= i < |es| ==> WithinLimit(es[i], op, limit)
  }

  ghost predicate LimitInv(w: World, op: OpId, limit: int) {
    if op !in w.jobs then Grants(w.log, op) == 0
    else Grants(w.log, op) <= limit && Grants(w.log, op) <= w.jobs[op].attempts && w.jobs[op].maxAttempts <= limit
  }

  lemma StepKeepsLimit(cfg: Settings, w: World, e: Event, op: OpId, limit: int)
    requires limit >= 1 && LimitInv(w, op, limit) && WithinLimit(e, op, limit)
    ensures LimitInv(Step(cfg, w, e), op, limit)
  {
    hide Grants, LatestGrant;
    var w' := Step(cfg, w, e);
    if w'.log != w.log {
      assert w'.log == w.log + [w'.log[|w.log|]];
      HistoryAppend(w.log, w'.log[|w.log|], op);
    }
  }

  /** With limits that differ from delivery to delivery, the grants of an operation never exceed the
      largest one it was queued or delivered with (a first delivery runs under any limit). */
  lemma {:induction false} LargestLimitBounds(cfg: Settings, now: Instant, es: seq<Event>, op: OpId, limit: int)
    requires limit >= 1 && AllWithinLimit(es, op, limit)
    ensures LimitInv(Run(cfg, Start(now), es), op, limit)
    ensures Grants(Run(cfg, Start(now), es).log, op) <= limit
  {
    if es != [] {
      LargestLimitBounds(cfg, now, es[..|es| - 1], op, limit);
      StepKeepsLimit(cfg, Run(cfg, Start(now), es[..|es| - 1]), es[|es| - 1], op, limit);
    }
  }

  /** Succeeded and dead-lettered records are frozen, late reports of old workers included. */
  lemma {:induction false} FinalStatesAreFinal(cfg: Settings, w: World, es: seq<Event>, op: OpId)
    requires op in w.jobs && (w.jobs[op].status.Succeeded? || w.jobs[op].status.DeadLetter?)
    ensures op in Run(cfg, w, es).jobs && Run(cfg, w, es).jobs[op] == w.jobs[op]
  {
    if es != [] {
      FinalStatesAreFinal(cfg, w, es[..|es| - 1], op);
    }
  }

  /** No grant, ever again, on an operation that is final. */
  lemma StepOnFinalGrantsNothing(cfg: Settings, w: World, e: Event, op: OpId)
    requires op in w.jobs && (w.jobs[op].status.Succeeded? || w.jobs[op].status.DeadLetter?)
    ensures Grants(Step(cfg, w, e).log, op) == Grants(w.log, op)
  {
    hide Grants, LatestGrant;
    var w' := Step(cfg, w, e);
    if w'.log != w.log {
      var entry := w'.log[|w.log|];
      assert w'.log == w.log + [entry];
      HistoryAppend(w.log, entry, op);
    }
  }

  /** No grant, ever again, on an operation that is final. */
  lemma {:induction false} FinalMeansNoMoreRuns(cfg: Settings, w: World, es: seq<Event>, op: OpId)
    requires op in w.jobs && (w.jobs[op].status.Succeeded? || w.jobs[op].status.DeadLetter?)
    ensures Grants(Run(cfg, w, es).log, op) == Grants(w.log, op)
  {
    if es != [] {
      FinalMeansNoMoreRuns(cfg, w, es[..|es| - 1], op);
      FinalStatesAreFinal(cfg, w, es[..|es| - 1], op);
      StepOnFinalGrantsNothing(cfg, Run(cfg, w, es[..|es| - 1]), es[|es| - 1], op);
    }
  }

  // ---------------------------------------------------------------- exclusion

  /** The workers' side of the lease: whoever reports does so before the lease is over. */
  predicate InTime(cfg: Settings, w: World, e: Event) {
    e.Report? && e.worker in w.workers ==> w.now < w.workers[e.worker].at + cfg.leaseSeconds * SECOND
  }

  predicate InTimeRun(cfg: Settings, w: World, es: seq<Event>) {
    es == [] || (InTimeRun(cfg, w, es[..|es| - 1]) && InTime(cfg, Run(cfg, w, es[..|es| - 1]), es[|es| - 1]))
  }

  /** The lease of the grant is over. */
  predicate Lapsed(cfg: Settings, w: World, g: Grant) {
    w.now >= g.at + cfg.leaseSeconds * SECOND
  }

  ghost predicate WorkerInv(cfg: Settings, w: World, x: WorkerId)
    requires x in w.workers
  {
    var g := w.workers[x];
    && x in w.seen && g.op in w.jobs
    && (Lapsed(cfg, w, g) || (&& w.jobs[g.op].status.Running? && w.jobs[g.op].startedAt == Some(g.at)
                              && LatestGrant(w.log, g.op) == Some(Granted(g.op, x, g.at))))
  }

  /** A recorded grant is still held, or its worker has reported since. */
  ghost predicate Accounted(w: World, i: nat)
    requires i < |w.log| && w.log[i].Granted?
  {
    var e := w.log[i];
    || (e.worker in w.workers && w.workers[e.worker] == Grant(e.op, e.at))
    || (exists k :: i < k < |w.log| && IsReportOf(w.log[k], e))
  }

  predicate IsReportOf(e: Entry, grant: Entry) {
    e.Reported? && e.op == grant.op && e.worker == grant.worker
  }

  /** Between the grants at `i` and `j` the first one's worker reported or a full lease passed. */
  ghost predicate Separated(cfg: Settings, log: seq<Entry>, i: nat, j: nat)
    requires i < j < |log|
  {
    || log[j].at >= log[i].at + cfg.leaseSeconds * SECOND
    || (exists k :: i < k < j && IsReportOf(log[k], log[i]))
  }

  predicate GrantsOf(log: seq<Entry>, i: nat, j: nat) {
    i < j < |log| && log[i].Granted? && log[j].Granted? && log[i].op == log[j].op
  }

  ghost predicate ExclusionInv(cfg: Settings, w: World) {
    && (forall x :: x in w.workers ==> WorkerInv(cfg, w, x))
    && (forall i: nat :: i < |w.log| && w.log[i].Granted? ==> Accounted(w, i))
    && (forall i: nat, j: nat :: GrantsOf(w.log, i, j) ==> Separated(cfg, w.log, i, j))
  }

  lemma DeliverKeepsWorkers(cfg: Settings, w: World, e: Event)
    requires e.Deliver? && forall x :: x in w.workers ==> WorkerInv(cfg, w, x)
    ensures forall x :: x in Step(cfg, w, e).workers ==> WorkerInv(cfg, Step(cfg, w, e), x)
  {
    hide Grants, LatestGrant;
    var w' := Step(cfg, w, e);
    forall x | x in w'.workers ensures WorkerInv(cfg, w', x) {
      if x in w.workers {
        assert WorkerInv(cfg, w, x);
      }
      if w'.log != w.log {
        HistoryAppend(w.log, w'.log[|w.log|], w'.workers[x].op);
      }
    }
  }

  lemma ReportKeepsWorkers(cfg: Settings, w: World, e: Event)
    requires e.Report? && InTime(cfg, w, e)
    requires forall x :: x in w.workers ==> WorkerInv(cfg, w, x)
    ensures forall x :: x in Step(cfg, w, e).workers ==> WorkerInv(cfg, Step(cfg, w, e), x)
  {
    hide Grants, LatestGrant;
    var w' := Step(cfg, w, e);
    forall x | x in w'.workers ensures WorkerInv(cfg, w', x) {
      assert WorkerInv(cfg, w, x);
      if w'.log != w.log {
        assert WorkerInv(cfg, w, e.worker);
        HistoryAppend(w.log, w'.log[|w.log|], w'.workers[x].op);
      }
    }
  }

  lemma StepKeepsWorkers(cfg: Settings, w: World, e: Event)
    requires InTime(cfg, w, e) && forall x :: x in w.workers ==> WorkerInv(cfg, w, x)
    ensures forall x :: x in Step(cfg, w, e).workers ==> WorkerInv(cfg, Step(cfg, w, e), x)
  {
    if e.Deliver? {
      DeliverKeepsWorkers(cfg, w, e);
    } else if e.Report? {
      ReportKeepsWorkers(cfg, w, e);
    } else {
      forall x | x in Step(cfg, w, e).workers ensures WorkerInv(cfg, Step(cfg, w, e), x) {
        assert WorkerInv(cfg, w, x);
      }
    }
  }

  lemma StepKeepsAccounts(cfg: Settings, w: World, e: Event)
    requires forall x :: x in w.workers ==> WorkerInv(cfg, w, x)
    requires forall i: nat :: i < |w.log| && w.log[i].Granted? ==> Accounted(w, i)
    ensures forall i: nat :: i < |Step(cfg, w, e).log| && Step(cfg, w, e).log[i].Granted? ==> Accounted(Step(cfg, w, e), i)
  {
    var w' := Step(cfg, w, e);
    forall i: nat | i < |w'.log| && w'.log[i].Granted? ensures Accounted(w', i) {
      if i < |w.log| {
        assert w'.log[i] == w.log[i] && Accounted(w, i);
        var grant := w.log[i];
        if grant.worker in w.workers && w.workers[grant.worker] == Grant(grant.op, grant.at) {
          assert WorkerInv(cfg, w, grant.worker);
          if grant.worker !in w'.workers {
            assert IsReportOf(w'.log[|w.log|], grant);
          }
        } else {
          var k :| i < k < |w.log| && IsReportOf(w.log[k], grant);
          assert IsReportOf(w'.log[k], grant);
        }
      }
    }
  }

  /** A new grant of an operation finds every earlier one reported or lapsed. */
  lemma NewGrantIsSeparated(cfg: Settings, w: World, e: Event, i: nat)
    requires ExclusionInv(cfg, w) && e.Deliver?
    requires Step(cfg, w, e).log != w.log && i < |w.log| && w.log[i].Granted? && w.log[i].op == e.op
    ensures Separated(cfg, Step(cfg, w, e).log, i, |w.log|)
  {
    var w' := Step(cfg, w, e);
    var grant := w.log[i];
    assert Accounted(w, i) && w'.log[i] == grant;
    if grant.worker in w.workers && w.workers[grant.worker] == Grant(grant.op, grant.at) {
      assert WorkerInv(cfg, w, grant.worker);
    } else {
      var k :| i < k < |w.log| && IsReportOf(w.log[k], grant);
      assert IsReportOf(w'.log[k], grant);
    }
  }

  lemma StepKeepsExclusion(cfg: Settings, w: World, e: Event)
    requires ExclusionInv(cfg, w) && InTime(cfg, w, e)
    ensures ExclusionInv(cfg, Step(cfg, w, e))
  {
    var w' := Step(cfg, w, e);
    StepKeepsWorkers(cfg, w, e);
    StepKeepsAccounts(cfg, w, e);
    forall i: nat, j: nat | GrantsOf(w'.log, i, j) ensures Separated(cfg, w'.log, i, j) {
      assert w'.log[i] == w.log[i];
      if j < |w.log| {
        assert GrantsOf(w.log, i, j) && Separated(cfg, w.log, i, j);
        if exists k :: i < k < j && IsReportOf(w.log[k], w.log[i]) {
          var k :| i < k < j && IsReportOf(w.log[k], w.log[i]);
          assert IsReportOf(w'.log[k], w'.log[i]);
        }
      } else {
        NewGrantIsSeparated(cfg, w, e, i);
      }
    }
  }

  lemma {:induction false} RunKeepsExclusion(cfg: Settings, w: World, es: seq<Event>)
    requires ExclusionInv(cfg, w) && InTimeRun(cfg, w, es)
    ensures ExclusionInv(cfg, Run(cfg, w, es))
  {
    if es != [] {
      RunKeepsExclusion(cfg, w, es[..|es| - 1]);
      StepKeepsExclusion(cfg, Run(cfg, w, es[..|es| - 1]), es[|es| - 1]);
    }
  }

  /** Exclusion. While workers report in time or never, any two grants of one operation are
      separated by the first worker's report or by a full lease. */
  lemma GrantsAreSeparated(cfg: Settings, now: Instant, es: seq<Event>, i: nat, j: nat)
    requires InTimeRun(cfg, Start(now), es) && GrantsOf(Run(cfg, Start(now), es).log, i, j)
    ensures Separated(cfg, Run(cfg, Start(now), es).log, i, j)
  {
    RunKeepsExclusion(cfg, Start(now), es);
  }

  /** While workers report in time, a record leaves `running` only by the report of the latest
      grant, or through a delivery that comes after a full lease. */
  lemma {:induction false} OnlyLatestGrantEndsRunning(cfg: Settings, now: Instant, es: seq<Event>, e: Event, op: OpId)
    requires InTimeRun(cfg, Start(now), es) && InTime(cfg, Run(cfg, Start(now), es), e)
    requires var w := Run(cfg, Start(now), es); op in w.jobs && w.jobs[op].status.Running?
    requires Step(cfg, Run(cfg, Start(now), es), e).jobs[op] != Run(cfg, Start(now), es).jobs[op]
    ensures var w := Run(cfg, Start(now), es);
            || (e.Report? && e.worker in w.workers
                && LatestGrant(w.log, op) == Some(Granted(op, e.worker, w.workers[e.worker].at)))
            || (e.Deliver? && e.op == op && IsStaleRunning(cfg, w.jobs[op], w.now))
  {
    RunKeepsExclusion(cfg, Start(now), es);
    var w := Run(cfg, Start(now), es);
    if e.Report? {
      assert WorkerInv(cfg, w, e.worker);
    }
  }

  /** A running record belongs to the worker of the latest grant, which has not reported. */
  ghost predicate RunningInv(w: World, op: OpId)
    requires op in w.jobs
  {
    w.jobs[op].status.Running? ==>
      && LatestGrant(w.log, op).Some? && LatestGrant(w.log, op).value.Granted?
      && var g := LatestGrant(w.log, op).value;
         && g.op == op && w.jobs[op].startedAt == Some(g.at)
         && g.worker in w.workers && w.workers[g.worker] == Grant(op, g.at)
  }

  /** Nobody else's start is the one recorded. */
  ghost predicate StartInv(w: World, x: WorkerId)
    requires x in w.workers
  {
    var g := w.workers[x];
    g.op in w.jobs && w.jobs[g.op].status.Running? && w.jobs[g.op].startedAt == Some(g.at) ==>
      LatestGrant(w.log, g.op) == Some(Granted(g.op, x, g.at))
  }

  lemma DeliverKeepsRunning(cfg: Settings, w: World, e: Event, op: OpId)
    requires e.Deliver? && w.workers.Keys <= w.seen && (op in w.jobs ==> RunningInv(w, op))
    requires op in Step(cfg, w, e).jobs
    ensures RunningInv(Step(cfg, w, e), op)
  {
    hide Grants, LatestGrant;
    var w' := Step(cfg, w, e);
    if w'.log != w.log {
      HistoryAppend(w.log, Granted(e.op, e.worker, w.now), op);
    }
  }

  lemma ReportKeepsRunning(cfg: Settings, w: World, e: Event, op: OpId)
    requires e.Report? && op in w.jobs && RunningInv(w, op)
    ensures op in Step(cfg, w, e).jobs && RunningInv(Step(cfg, w, e), op)
  {
    hide Grants, LatestGrant;
    var w' := Step(cfg, w, e);
    if w'.log != w.log {
      HistoryAppend(w.log, Reported(w.workers[e.worker].op, e.worker, w.now), op);
    }
  }

  lemma StepKeepsRunning(cfg: Settings, w: World, e: Event, op: OpId)
    requires w.workers.Keys <= w.seen && (op in w.jobs ==> RunningInv(w, op))
    requires op in Step(cfg, w, e).jobs
    ensures RunningInv(Step(cfg, w, e), op)
  {
    if e.Deliver? {
      DeliverKeepsRunning(cfg, w, e, op);
    } else if e.Report? {
      ReportKeepsRunning(cfg, w, e, op);
    }
  }

  lemma StepKeepsStart(cfg: Settings, w: World, e: Event, x: WorkerId)
    requires cfg.leaseSeconds > 0 && x in Step(cfg, w, e).workers
    requires x in w.workers ==> WorkerInv(cfg, w, x) && StartInv(w, x)
    ensures StartInv(Step(cfg, w, e), x)
  {
    hide Grants, LatestGrant;
    var w' := Step(cfg, w, e);
    if w'.log != w.log {
      assert w'.log == w.log + [w'.log[|w.log|]];
      HistoryAppend(w.log, w'.log[|w.log|], w'.workers[x].op);
    }
  }

  ghost predicate StartsInv(cfg: Settings, w: World) {
    && (forall op :: op in w.jobs ==> RunningInv(w, op))
    && (forall x :: x in w.workers ==> WorkerInv(cfg, w, x))
    && (forall x :: x in w.workers ==> StartInv(w, x))
  }

  lemma StepKeepsStarts(cfg: Settings, w: World, e: Event)
    requires cfg.leaseSeconds > 0 && StartsInv(cfg, w) && InTime(cfg, w, e)
    ensures StartsInv(cfg, Step(cfg, w, e))
  {
    var w' := Step(cfg, w, e);
    StepKeepsWorkers(cfg, w, e);
    assert w.workers.Keys <= w.seen by {
      assert forall x :: x in w.workers ==> WorkerInv(cfg, w, x);
    }
    forall op | op in w'.jobs ensures RunningInv(w', op) {
      assert op in w.jobs ==> RunningInv(w, op);
      StepKeepsRunning(cfg, w, e, op);
    }
    forall x | x in w'.workers ensures StartInv(w', x) {
      assert x in w.workers ==> WorkerInv(cfg, w, x) && StartInv(w, x);
      StepKeepsStart(cfg, w, e, x);
    }
  }

  lemma {:induction false} RunKeepsStarts(cfg: Settings, now: Instant, es: seq<Event>)
    requires cfg.leaseSeconds > 0 && InTimeRun(cfg, Start(now), es)
    ensures StartsInv(cfg, Run(cfg, Start(now), es))
  {
    if es != [] {
      RunKeepsStarts(cfg, now, es[..|es| - 1]);
      StepKeepsStarts(cfg, Run(cfg, Start(now), es[..|es| - 1]), es[|es| - 1]);
    }
  }

  /** When a report does harm. After any run of timely reports, whatever the next one reports on a
      running record ends its run; and the reporter is the worker of the latest grant if and only if
      its own start is the one recorded. Otherwise its lease is over, and the run it ends is that of
      another worker, which is still at it. */
  lemma LateReportEndsNewerRun(cfg: Settings, now: Instant, es: seq<Event>, x: WorkerId, ending: Ending)
    requires cfg.leaseSeconds > 0 && InTimeRun(cfg, Start(now), es)
    requires var w := Run(cfg, Start(now), es);
             x in w.workers && w.workers[x].op in w.jobs && w.jobs[w.workers[x].op].status.Running?
    ensures var w := Run(cfg, Start(now), es);
            var op := w.workers[x].op;
            var w' := Step(cfg, w, Report(x, ending));
            var latest := LatestGrant(w.log, op);
            && latest.Some? && latest.value.Granted?
            && !w'.jobs[op].status.Running?
            && (latest.value.worker == x <==> w.jobs[op].startedAt == Some(w.workers[x].at))
            && (w.jobs[op].startedAt != Some(w.workers[x].at) ==>
                  && Lapsed(cfg, w, w.workers[x])
                  && latest.value.worker in w'.workers && w'.workers[latest.value.worker] == Grant(op, latest.value.at))
  {
    RunKeepsStarts(cfg, now, es);
    var w := Run(cfg, Start(now), es);
    assert RunningInv(w, w.workers[x].op) && WorkerInv(cfg, w, x) && StartInv(w, x);
  }

  /** Such a report can come: a run in which the first of two workers reports last. */
  lemma LateReportCanCome(cfg: Settings, now: Instant)
    ensures var first := Step(cfg, Start(now), Deliver(0, 1, Request(2, true, None)));
            var lapsed := Step(cfg, first, Tick(cfg.leaseSeconds * SECOND));
            var second := Step(cfg, lapsed, Deliver(0, 2, Request(2, true, None)));
            var ended := Step(cfg, second, Report(1, Completed));
            && LatestGrant(second.log, 0) == Some(Granted(0, 2, second.now)) && 2 in second.workers
            && 0 in second.jobs && second.jobs[0].status.Running?
            && 0 in ended.jobs && ended.jobs[0].status.Succeeded? && 2 in ended.workers
  {
    var first := Step(cfg, Start(now), Deliver(0, 1, Request(2, true, None)));
    var lapsed := Step(cfg, first, Tick(cfg.leaseSeconds * SECOND));
    var second := Step(cfg, lapsed, Deliver(0, 2, Request(2, true, None)));
    assert first.jobs[0] == FirstClaim(Request(2, true, None), now) && 1 in first.workers;
    assert Reclaim(cfg, lapsed.jobs[0], Request(2, true, None), lapsed.now).1.shouldRun;
    HistoryAppend(lapsed.log, Granted(0, 2, second.now), 0);
  }

  /** The text kept of an error: its start. */
  predicate KeptText(kept: Option<string>, error: string) {
    kept.Some? && kept.value <= error && |kept.value| == Min(|error|, 500)
  }

  /** What a report does, by the state it finds: final records reject it, a deferral needs a
      running one, and anything else takes it. In particular a queued or cancelled record is
      finished by a worker that was granted earlier. The grant is used up either way. */
  lemma ReportTakesEffect(cfg: Settings, w: World, worker: WorkerId, ending: Ending)
    requires worker in w.workers && w.workers[worker].op in w.jobs
    ensures var op, w' := w.workers[worker].op, Step(cfg, w, Report(worker, ending));
            var job := w.jobs[op];
            && op in w'.jobs && w'.jobs == w.jobs[op := w'.jobs[op]] && w'.workers == w.workers - {worker}
            && w'.log == w.log + [Reported(op, worker, w.now)]
            && var job' := w'.jobs[op];
               if job.status.Succeeded? || job.status.DeadLetter? || (ending.Deferred? && !job.status.Running?)
               then job' == job
               else
                 && job' == job.(status := job'.status, availableAt := job'.availableAt, startedAt := job'.startedAt,
                                 finishedAt := job'.finishedAt, lastError := job'.lastError, updatedAt := w.now)
                 && match ending
                    case Completed =>
                      && job'.status.Succeeded? && job'.lastError.None? && job'.finishedAt == Some(w.now)
                      && job'.startedAt == job.startedAt && job'.availableAt == job.availableAt
                    case Deferred(error) =>
                      && job'.status.Queued? && KeptText(job'.lastError, error)
                      && job'.availableAt == w.now + (if cfg.deferSeconds < 0 then 0 else cfg.deferSeconds) * SECOND
                      && job'.startedAt.None? && job'.finishedAt.None?
                    case Raised(error) =>
                      && job'.finishedAt == Some(w.now) && job'.startedAt == job.startedAt
                      && job'.availableAt == job.availableAt
                      && (if error == "" then job'.lastError.None? else KeptText(job'.lastError, error))
                      && (job'.status.Failed? <==>
                            job.retryable && job.attempts < (if job.maxAttempts == 0 then 1 else job.maxAttempts))
                      && (job'.status.DeadLetter? <==> !job'.status.Failed?)
  {
  }

  /** What queueing adds: a record of its own if and only if the operation has none, due at once, under
      what was asked for. */
  lemma EnsureQueuesOnce(cfg: Settings, w: World, op: OpId, request: Request)
    ensures var w' := Step(cfg, w, Ensure(op, request));
            if op in w.jobs then w' == w
            else
              && op in w'.jobs && w' == w.(jobs := w.jobs[op := w'.jobs[op]])
              && var job := w'.jobs[op];
                 && job.status.Queued? && job.attempts == 0 && job.maxAttempts == request.maxAttempts
                 && job.retryable == request.retryable && job.deadlineAt == request.deadlineAt
                 && job.availableAt == w.now && job.createdAt == w.now && job.updatedAt == w.now
                 && job.startedAt.None? && job.finishedAt.None? && job.lastError.None?
  {
  }

  /** The operator's cancel takes a queued record and no other, and leaves everything else alone. */
  lemma CancelTakesQueuedOnly(cfg: Settings, w: World, op: OpId)
    ensures var w' := Step(cfg, w, Cancel(op));
            if op in w.jobs && w.jobs[op].status.Queued?
            then op in w'.jobs && w' == w.(jobs := w.jobs[op := w'.jobs[op]])
                 && w'.jobs[op] == w.jobs[op].(status := Cancelled, finishedAt := Some(w.now),
                                               lastError := Some("cancelled_by_operator"), updatedAt := w.now)
            else w' == w
  {
  }

  // ---------------------------------------------------------------- what a delivery decides

  /** A worker is at it: running since less than a lease. A running record without a start counts
      from its last update. */
  predicate Busy(cfg: Settings, job: Job, now: Instant) {
    job.status.Running? && job.startedAt.GetOr(job.updatedAt) > now - cfg.leaseSeconds * SECOND
  }

  predicate Overdue(job: Job, now: Instant) {
    job.deadlineAt.Some? && job.deadlineAt.value <= now
  }

  /** The limit in force: the delivery's own, or the record's when the delivery brings none. */
  function LimitInForce(job: Job, request: Request): int {
    if request.maxAttempts == 0 then job.maxAttempts else request.maxAttempts
  }

  /** Still to be decided: neither over nor being worked on. */
  predicate Undecided(cfg: Settings, job: Job, now: Instant) {
    !job.status.Succeeded? && !job.status.DeadLetter? && !Busy(cfg, job, now)
  }

  /** The record calls for this answer to a delivery. */
  predicate CallsFor(cfg: Settings, job: Job, request: Request, now: Instant, outcome: Outcome) {
    match outcome
    case Deduplicated => job.status.Succeeded?
    case InFlight => Busy(cfg, job, now)
    case Expired => Undecided(cfg, job, now) && Overdue(job, now)
    case AlreadyDead =>
      || job.status.DeadLetter?
      || (Undecided(cfg, job, now) && !Overdue(job, now) && job.attempts + 1 > LimitInForce(job, request))
    case RunIt =>
      Undecided(cfg, job, now) && !Overdue(job, now) && job.attempts + 1 <= LimitInForce(job, request)
  }

  /** Every record calls for exactly one answer. */
  lemma OneAnswerIsCalledFor(cfg: Settings, job: Job, request: Request, now: Instant)
    ensures exists o :: CallsFor(cfg, job, request, now, o)
    ensures forall o, p :: CallsFor(cfg, job, request, now, o) && CallsFor(cfg, job, request, now, p) ==> o == p
  {
    assert CallsFor(cfg, job, request, now, Deduplicated) || CallsFor(cfg, job, request, now, InFlight)
           || CallsFor(cfg, job, request, now, Expired) || CallsFor(cfg, job, request, now, AlreadyDead)
           || CallsFor(cfg, job, request, now, RunIt);
  }

  /** Who runs. A delivery by a fresh worker is granted if and only if its operation has no record, or
      the record is neither over nor being worked on, its deadline lies ahead and one more attempt is
      within the limit. */
  lemma WhoRuns(cfg: Settings, w: World, op: OpId, worker: WorkerId, request: Request)
    requires worker !in w.seen && worker !in w.workers
    ensures var w' := Step(cfg, w, Deliver(op, worker, request));
            && (worker in w'.workers
                <==> op !in w.jobs
                     || (var job := w.jobs[op];
                         && !job.status.Succeeded? && !job.status.DeadLetter?
                         && !(job.status.Running? && job.startedAt.GetOr(job.updatedAt) > w.now - cfg.leaseSeconds * SECOND)
                         && !(job.deadlineAt.Some? && job.deadlineAt.value <= w.now)
                         && job.attempts + 1 <= (if request.maxAttempts == 0 then job.maxAttempts else request.maxAttempts)))
            && w'.log == w.log + (if worker in w'.workers then [Granted(op, worker, w.now)] else [])
            && w'.workers == (if worker in w'.workers then w.workers[worker := Grant(op, w.now)] else w.workers)
            && w'.seen == w.seen + {worker} && w'.now == w.now
  {
  }

  /** What a granted delivery leaves: the record runs, from now, on one attempt more, under what the
      delivery asked for; and nothing else changes. */
  lemma GrantedRecord(cfg: Settings, w: World, op: OpId, worker: WorkerId, request: Request)
    requires worker !in w.seen && worker !in w.workers
    requires worker in Step(cfg, w, Deliver(op, worker, request)).workers
    ensures var w' := Step(cfg, w, Deliver(op, worker, request));
            && op in w'.jobs && w'.jobs == w.jobs[op := w'.jobs[op]]
            && var job' := w'.jobs[op];
               && job'.status.Running? && job'.startedAt == Some(w.now) && job'.updatedAt == w.now
               && job'.finishedAt.None? && job'.lastError.None? && job'.retryable == request.retryable
               && job'.attempts == (if op in w.jobs then w.jobs[op].attempts + 1 else 1)
               && job'.maxAttempts == (if op in w.jobs then LimitInForce(w.jobs[op], request) else request.maxAttempts)
               && job'.deadlineAt == (if op in w.jobs && request.deadlineAt.None? then w.jobs[op].deadlineAt
                                      else request.deadlineAt)
               && job'.availableAt == (if op in w.jobs then w.jobs[op].availableAt else w.now)
               && job'.createdAt == (if op in w.jobs then w.jobs[op].createdAt else w.now)
  {
  }

  /** What a refused delivery leaves. A record that is over or being worked on stays as it is; one
      whose deadline has passed is dead-lettered with that reason; one out of attempts is dead-lettered
      with its last error, if it has one. */
  lemma RefusedRecord(cfg: Settings, w: World, op: OpId, worker: WorkerId, request: Request)
    requires op in w.jobs && worker !in w.seen && worker !in w.workers
    requires worker !in Step(cfg, w, Deliver(op, worker, request)).workers
    ensures var w' := Step(cfg, w, Deliver(op, worker, request));
            && w'.workers == w.workers && op in w'.jobs && w'.jobs == w.jobs[op := w'.jobs[op]]
            && var (job, job') := (w.jobs[op], w'.jobs[op]);
               if !Undecided(cfg, job, w.now) then job' == job
               else
                 && job'.status.DeadLetter? && job'.finishedAt == Some(w.now) && job'.updatedAt == w.now
                 && job'.startedAt == job.startedAt && job'.availableAt == job.availableAt && job'.createdAt == job.createdAt
                 && if Overdue(job, w.now)
                    then job'.attempts == job.attempts && job'.lastError == Some("deadline_exceeded")
                         && job'.maxAttempts == job.maxAttempts && job'.retryable == job.retryable
                         && job'.deadlineAt == job.deadlineAt
                    else job'.attempts == job.attempts + 1
                         && job'.lastError == Some(if job.lastError.GetOr("") == "" then "max_attempts_exceeded"
                                                   else job.lastError.value)
                         && job'.maxAttempts == LimitInForce(job, request) && job'.retryable == request.retryable
                         && job'.deadlineAt == (if request.deadlineAt.None? then job.deadlineAt else request.deadlineAt)
  {
  }

  /** Cancelled is not final: the next delivery runs the operation all the same, exactly when it
      is inside its deadline and its attempt limit. */
  lemma CancelledRunsAgain(cfg: Settings, w: World, op: OpId, worker: WorkerId, request: Request)
    requires op in w.jobs && w.jobs[op].status.Cancelled? && worker !in w.seen && worker !in w.workers
    ensures var w' := Step(cfg, w, Deliver(op, worker, request));
            worker in w'.workers
            <==> !DeadlineExpired(w.jobs[op], w.now)
                 && w.jobs[op].attempts < Or(Or(request.maxAttempts, w.jobs[op].maxAttempts), request.maxAttempts)
  {
  }

  /** The delay of a deferral is not enforced by the claim: its decision ignores `availableAt`. */
  lemma ClaimIgnoresAvailability(cfg: Settings, job: Job, request: Request, now: Instant, at: Instant)
    ensures var (before, result) := Reclaim(cfg, job, request, now);
            var (after, result') := Reclaim(cfg, job.(availableAt := at), request, now);
            && result'.shouldRun == result.shouldRun && result'.outcome == result.outcome
            && result'.attempt == result.attempt && after.status == before.status
            && (result.shouldRun ==> after.availableAt == at && result'.queueLatency == Some(Max(0, now - at)))
  {
  }

  // ---------------------------------------------------------------- the code that does it

  /** A competing transaction that commits between this one's read and its insert. */
  datatype Rival = RivalEnsure(request: Request) | RivalClaim(worker: WorkerId, request: Request)

  function RivalEvent(op: OpId, rival: Rival): Event {
    match rival
    case RivalEnsure(request) => Ensure(op, request)
    case RivalClaim(worker, request) => Deliver(op, worker, request)
  }

  class JobStore {
    const cfg: Settings
    var jobs: map<OpId, Job>
    /** The machine the table is part of. */
    ghost var world: World

    ghost predicate Valid()
      reads this
    {
      jobs == world.jobs && world.workers.Keys <= world.seen
    }

    constructor (cfg: Settings, now: Instant)
      ensures Valid() && this.cfg == cfg && world == Start(now)
    {
      this.cfg, this.jobs, this.world := cfg, map[], Start(now);
    }

    /** What the rival commits while nobody holds a record of the operation. */
    method Interfere(op: OpId, rival: Rival, now: Instant)
      requires Valid() && now == world.now && op !in jobs
      requires rival.RivalClaim? ==> rival.worker !in world.seen
      modifies this
      ensures Valid() && world == Step(cfg, old(world), RivalEvent(op, rival)) && op in jobs
      ensures world.now == now
    {
      world := Step(cfg, world, RivalEvent(op, rival));
      jobs := jobs[op := if rival.RivalEnsure? then QueuedJob(rival.request, now) else FirstClaim(rival.request, now)];
    }

    /** The decision on a locked record, field by field. */
    method ClaimExisting(locked: Job, request: Request, now: Instant) returns (existing: Job, result: ClaimResult)
      ensures (existing, result) == Reclaim(cfg, locked, request, now)
      ensures CallsFor(cfg, locked, request, now, result.outcome) && (result.shouldRun <==> result.outcome.RunIt?)
      ensures result.attempt == existing.attempts
      ensures result.shouldRun ==> existing.status.Running? && existing.startedAt == Some(now)
    {
      existing := locked;
      if existing.status.Succeeded? {
        return existing, ClaimResult(false, Deduplicated, existing.attempts, None);
      }
      if existing.status.DeadLetter? {
        return existing, ClaimResult(false, AlreadyDead, existing.attempts, None);
      }
      if existing.status.Running? && !IsStaleRunning(cfg, existing, now) {
        return existing, ClaimResult(false, InFlight, existing.attempts, None);
      }
      existing := existing.(updatedAt := now);
      if DeadlineExpired(existing, now) {
        existing := existing.(status := DeadLetter, lastError := Some(DEADLINE_EXCEEDED), finishedAt := Some(now));
        return existing, ClaimResult(false, Expired, existing.attempts, None);
      }
      var next := existing.attempts + 1;
      existing := existing.(maxAttempts := Or(request.maxAttempts, existing.maxAttempts));
      existing := existing.(retryable := request.retryable);
      if request.deadlineAt.Some? {
        existing := existing.(deadlineAt := request.deadlineAt);
      }
      if next > Or(existing.maxAttempts, request.maxAttempts) {
        existing := existing.(status := DeadLetter, attempts := next);
        if existing.lastError.None? || existing.lastError.value == "" {
          existing := existing.(lastError := Some(MAX_ATTEMPTS_EXCEEDED));
        }
        existing := existing.(finishedAt := Some(now));
        return existing, ClaimResult(false, AlreadyDead, next, None);
      }
      var availableAt := existing.availableAt;
      existing := existing.(status := Running, attempts := next, startedAt := Some(now));
      existing := existing.(finishedAt := None, lastError := None);
      return existing, ClaimResult(true, RunIt, next, Some(Max(0, now - availableAt)));
    }

    /** Insert or lock the record and decide. The unique index makes an insert lose against a
        rival's; the second round then finds the rival's record, so the loop always decides and
        the outcome is that of one atomic delivery. */
    method ClaimJob(op: OpId, worker: WorkerId, request: Request, now: Instant, rival: Option<Rival>)
      returns (result: ClaimResult)
      requires Valid() && now == world.now && worker !in world.seen
      requires rival.Some? && rival.value.RivalClaim? ==> rival.value.worker !in world.seen && rival.value.worker != worker
      modifies this
      ensures Valid()
      ensures var start := if op !in old(jobs) && rival.Some? then Step(cfg, old(world), RivalEvent(op, rival.value))
                           else old(world);
              && world == Step(cfg, start, Deliver(op, worker, request))
              && result.shouldRun == (op !in start.jobs || Reclaim(cfg, start.jobs[op], request, now).1.shouldRun)
              && (op in start.jobs ==> result == Reclaim(cfg, start.jobs[op], request, now).1)
              && (if op in start.jobs then CallsFor(cfg, start.jobs[op], request, now, result.outcome)
                  else result.outcome.RunIt?)
      ensures result.shouldRun <==> worker in world.workers
      ensures result.shouldRun <==> result.outcome.RunIt?
      ensures op in jobs && result.attempt == jobs[op].attempts
      ensures result.shouldRun ==> jobs[op].status.Running? && jobs[op].startedAt == Some(now)
    {
      hide Reclaim;
      ghost var start := world;
      var insertAttempt := 0;
      while insertAttempt < 2
        invariant Valid() && world.now == now && worker !in world.seen
        invariant 0 <= insertAttempt <= 1
        invariant insertAttempt > 0 ==> rival.Some? && op !in start.jobs && op in jobs
        invariant world == if insertAttempt > 0 then Step(cfg, start, RivalEvent(op, rival.value)) else start
      {
        if op !in jobs {
          if rival.Some? {
            Interfere(op, rival.value, now);
            insertAttempt := insertAttempt + 1;
            continue;
          }
          world := Step(cfg, world, Deliver(op, worker, request));
          jobs := jobs[op := Job(Running, 1, request.maxAttempts, request.retryable, now, request.deadlineAt,
                                 Some(now), None, None, now, now)];
          return ClaimResult(true, RunIt, 1, Some(0));
        }
        world := Step(cfg, world, Deliver(op, worker, request));
        var existing, decided := ClaimExisting(jobs[op], request, now);
        jobs := jobs[op := existing];
        return decided;
      }
      assert false;
    }

    /** Insert or find the record; the second round finds what the rival inserted. */
    method EnsureQueuedJob(op: OpId, request: Request, now: Instant, rival: Option<Rival>)
      requires Valid() && now == world.now
      requires rival.Some? && rival.value.RivalClaim? ==> rival.value.worker !in world.seen
      modifies this
      ensures Valid() && op in jobs
      ensures var start := if op !in old(jobs) && rival.Some? then Step(cfg, old(world), RivalEvent(op, rival.value))
                           else old(world);
              world == Step(cfg, start, Ensure(op, request))
    {
      ghost var start := world;
      var insertAttempt := 0;
      while insertAttempt < 2
        invariant Valid() && world.now == now && 0 <= insertAttempt <= 1
        invariant insertAttempt > 0 ==> rival.Some? && op !in start.jobs && op in jobs
        invariant world == if insertAttempt > 0 then Step(cfg, start, RivalEvent(op, rival.value)) else start
      {
        if op in jobs {
          return;
        }
        if rival.Some? {
          Interfere(op, rival.value, now);
          insertAttempt := insertAttempt + 1;
          continue;
        }
        world := Step(cfg, world, Ensure(op, request));
        jobs := jobs[op := Job(Queued, 0, request.maxAttempts, request.retryable, now, request.deadlineAt,
                               None, None, None, now, now)];
        return;
      }
      assert false;
    }

    method FinishJob(op: OpId, succeeded: bool, error: Option<string>, now: Instant)
      modifies this`jobs
      ensures jobs == if op in old(jobs) then old(jobs)[op := Finished(old(jobs)[op], succeeded, error, now)] else old(jobs)
    {
      if op !in jobs {
        return;
      }
      var job := jobs[op];
      if job.status.Succeeded? || job.status.DeadLetter? {
        return;
      }
      var terminal := if succeeded then Succeeded else Failed;
      if !succeeded && (!job.retryable || job.attempts >= Or(job.maxAttempts, 1)) {
        terminal := DeadLetter;
      }
      job := job.(status := terminal);
      job := job.(lastError := if error.Some? && error.value != "" then Some(Cut(error.value)) else None);
      job := job.(finishedAt := Some(now), updatedAt := now);
      jobs := jobs[op := job];
    }

    method ReleaseJobForRetry(op: OpId, delaySeconds: int, error: string, now: Instant)
      requires delaySeconds == cfg.deferSeconds
      modifies this`jobs
      ensures jobs == if op in old(jobs) then old(jobs)[op := Released(cfg, old(jobs)[op], error, now)] else old(jobs)
    {
      if op !in jobs || !jobs[op].status.Running? {
        return;
      }
      var job := jobs[op];
      job := job.(status := Queued, availableAt := now + Max(0, delaySeconds) * SECOND);
      job := job.(startedAt := None, finishedAt := None, lastError := Some(Cut(error)), updatedAt := now);
      jobs := jobs[op := job];
    }

    /** What everybody else does while the runner is at work: they leave `found` in the table. */
    method LetOthersRun(worker: WorkerId, between: seq<Event>, found: map<OpId, Job>)
      requires Valid() && worker in world.workers && world.workers[worker].op in jobs && OthersOnly(between, worker)
      requires found == Run(cfg, world, between).jobs
      modifies this
      ensures Valid() && world == Run(cfg, old(world), between)
      ensures worker in world.workers && world.workers[worker] == old(world).workers[worker]
      ensures world.workers[worker].op in jobs
    {
      OthersKeepTheGrant(cfg, world, between, worker);
      world := Run(cfg, world, between);
      jobs := found;
    }

    /** One delivery from claim to report, `between` which anybody else may act: the runner is called
        exactly when the claim says so, and then exactly one report is filed, on whatever the record
        has become. */
    method RunTracked(op: OpId, worker: WorkerId, maxAttempts: int, retryable: bool, deadlineAt: Option<Instant>,
                      now: Instant, between: seq<Event>, found: map<OpId, Job>, ending: Ending, later: Instant)
      returns (ran: bool, raised: bool)
      requires Valid() && now == world.now && worker !in world.seen && OthersOnly(between, worker)
      requires var request := Request(Or(maxAttempts, cfg.defaultMaxAttempts), retryable, deadlineAt);
               var seen := Run(cfg, Step(cfg, world, Deliver(op, worker, request)), between);
               found == seen.jobs && later == seen.now
      modifies this
      ensures Valid()
      ensures var request := Request(Or(maxAttempts, cfg.defaultMaxAttempts), retryable, deadlineAt);
              var delivered := Step(cfg, old(world), Deliver(op, worker, request));
              && ran == (worker in delivered.workers)
              && ran == (op !in old(jobs) || CallsFor(cfg, old(jobs)[op], request, now, RunIt))
              && world == if ran then Step(cfg, Run(cfg, delivered, between), Report(worker, ending)) else delivered
      ensures raised <==> ran && !ending.Completed?
      ensures worker !in world.workers
    {
      var attemptsLimit := Or(maxAttempts, cfg.defaultMaxAttempts);
      var claim := ClaimJob(op, worker, Request(attemptsLimit, retryable, deadlineAt), now, None);
      if !claim.shouldRun {
        return false, false;
      }
      LetOthersRun(worker, between, found);
      world := Step(cfg, world, Report(worker, ending));
      match ending {
        case Deferred(error) =>
          ReleaseJobForRetry(op, cfg.deferSeconds, error, later);
          return true, true;
        case Raised(error) =>
          FinishJob(op, false, Some(error), later);
          return true, true;
        case Completed =>
          FinishJob(op, true, None, later);
          return true, false;
      }
    }
  }

  predicate OthersOnly(es: seq<Event>, worker: WorkerId) {
    forall i :: 0 <= i < |es| && es[i].Report? ==> es[i].worker != worker
  }

  lemma {:induction false} OthersKeepTheGrant(cfg: Settings, w: World, es: seq<Event>, worker: WorkerId)
    requires worker in w.workers && w.workers.Keys <= w.seen && w.workers[worker].op in w.jobs && OthersOnly(es, worker)
    ensures var w' := Run(cfg, w, es);
            && w'.workers.Keys <= w'.seen && worker in w'.workers && w'.workers[worker] == w.workers[worker]
            && w.workers[worker].op in w'.jobs
  {
    if es != [] {
      OthersKeepTheGrant(cfg, w, es[..|es| - 1], worker);
    }
  }
}
