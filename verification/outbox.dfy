/**
 The transactional outbox: rows are claimed under a fresh lease token, published to the
 broker outside any transaction, and acknowledged by a compare-and-set on the token.

 Every committed transaction is one atomic `Event`. Dispatchers, crashes, the operator's
 cancel and the passing of time interleave freely: a run is any sequence of events, and an
 event whose guard does not hold leaves the world as it is.
 */
module Outbox {
  import opened Prelude

  type RowId = nat
  type JobId = nat
  type Token = nat

  datatype Settings = Settings(maxAttempts: nat, leaseSeconds: nat, eager: bool)

  datatype Status = Pending | Dispatching | Dispatched | DeadLetter | Cancelled {
    predicate Terminal() {
      Dispatched? || DeadLetter? || Cancelled?
    }
  }

  datatype Row = Row(
    jobId: JobId,
    jobType: string,
    payload: string,
    status: Status,
    attempts: nat,
    availableAt: Instant,
    deadlineAt: Option<Instant>,
    lockedAt: Option<Instant>,
    leaseToken: Option<Token>,
    dispatchedAt: Option<Instant>,
    lastError: Option<string>,
    createdAt: Instant)

  /** The ingestion job a row belongs to; only the fields the outbox reads or writes. */
  datatype RagStatus = RagPending | RagQueued | RagRunning | RagCompleted | RagFailed | RagCancelled

  datatype RagJob = RagJob(
    status: RagStatus,
    deadlineAt: Option<Instant>,
    error: Option<string>,
    finishedAt: Option<Instant>,
    heartbeatAt: Option<Instant>)

  datatype OutboxClaim = OutboxClaim(
    outboxId: RowId,
    jobId: JobId,
    jobType: string,
    payload: string,
    attempts: nat,
    leaseToken: Token)

  /** What a dispatcher holds between its claim and its acknowledgement. `at` is the clock
      reading taken just before the broker call. */
  datatype Phase = Claimed | Accepted(at: Instant) | Refused(at: Instant, error: Option<string>)

  datatype Holding = Holding(claim: OutboxClaim, phase: Phase)

  datatype Entry =
    | Enqueued(row: RowId, at: Instant)
    | Claim(row: RowId, token: Token, at: Instant, granted: bool)
    | Publish(row: RowId, token: Token, at: Instant, accepted: bool, jobType: string, payload: string)
    | Ack(row: RowId, token: Token, at: Instant, dispatched: bool, won: bool)

  datatype World = World(
    rows: map<RowId, Row>,
    rag: map<JobId, RagJob>,
    held: map<Token, Holding>,
    issued: set<Token>,
    now: Instant,
    log: seq<Entry>)

  datatype Event =
    | EnqueueRow(row: RowId, job: JobId, jobType: string, payload: string)
    | ClaimRow(row: RowId, token: Token)
    | PublishClaim(token: Token, accepted: bool, error: Option<string>)
    | AckClaim(token: Token)
    | CrashHolder(token: Token)
    | CancelJob(job: JobId)
    | RagProgress(job: JobId, next: RagJob)
    | Tick(elapsed: nat)

  const DEADLINE_REASON := "Outbox delivery deadline exceeded"
  const BUDGET_REASON := "Outbox delivery exceeded the maximum retry count"
  const CANCEL_REASON := "cancelled_by_operator"
  const MAX_BACKOFF_SECONDS: nat := 900

  // ---------------------------------------------------------------- the transitions on one row

  predicate Eligible(cfg: Settings, row: Row, now: Instant) {
    || (row.status.Pending? && row.availableAt <= now)
    || (row.status.Dispatching?
        && (row.lockedAt.None? || row.lockedAt.value <= now - cfg.leaseSeconds * SECOND))
  }

  function Leased(row: Row, token: Token, now: Instant): Row {
    row.(status := Dispatching, attempts := row.attempts + 1, lockedAt := Some(now),
         leaseToken := Some(token))
  }

  function Buried(row: Row, reason: string): Row {
    row.(status := DeadLetter, lastError := Some(reason), lockedAt := None, leaseToken := None,
         dispatchedAt := None)
  }

  function BuriedJob(job: RagJob, reason: string, now: Instant): RagJob {
    if job.status.RagCompleted? then job
    else job.(status := RagFailed, error := Some(reason), finishedAt := Some(now),
              heartbeatAt := Some(now))
  }

  /** Why a claimed row is dead-lettered instead of handed out, if it is. */
  function BurialReason(cfg: Settings, leased: Row, now: Instant): Option<string> {
    if leased.deadlineAt.Some? && leased.deadlineAt.value <= now then Some(DEADLINE_REASON)
    else if leased.attempts > cfg.maxAttempts then Some(BUDGET_REASON)
    else None
  }

  function ClaimOf(id: RowId, leased: Row, token: Token): OutboxClaim {
    OutboxClaim(id, leased.jobId, leased.jobType, leased.payload, leased.attempts, token)
  }

  function Truncated(s: string, limit: nat): (r: string)
    ensures r <= s && |r| == Min(|s|, limit)
  {
    if |s| <= limit then s else s[..limit]
  }

  function FailureText(error: Option<string>): string {
    Truncated(if error.None? || error.value == "" then "Outbox delivery failed" else error.value, 500)
  }

  function BackoffSeconds(attempts: nat): nat {
    Min(60 * attempts, MAX_BACKOFF_SECONDS)
  }

  function AckedRow(row: Row, holding: Holding): Row
    requires !holding.phase.Claimed?
  {
    match holding.phase
    case Accepted(at) =>
      row.(status := Dispatched, lockedAt := None, leaseToken := None, lastError := None,
           dispatchedAt := Some(at))
    case Refused(at, error) =>
      row.(status := Pending, lockedAt := None, leaseToken := None,
           lastError := Some(FailureText(error)), dispatchedAt := None,
           availableAt := at + BackoffSeconds(holding.claim.attempts) * SECOND)
  }

  /** The guard of the acknowledging UPDATE. */
  predicate StillOwns(rows: map<RowId, Row>, claim: OutboxClaim) {
    && claim.outboxId in rows
    && rows[claim.outboxId].status.Dispatching?
    && rows[claim.outboxId].leaseToken == Some(claim.leaseToken)
  }

  function CancelledRow(row: Row, job: JobId): Row {
    if row.jobId == job && (row.status.Pending? || row.status.Dispatching?)
    then row.(status := Cancelled, lastError := Some(CANCEL_REASON))
    else row
  }

  // ---------------------------------------------------------------- one committed transaction

  predicate HasJob(rows: map<RowId, Row>, job: JobId) {
    exists r | r in rows :: rows[r].jobId == job
  }

  function StepEnqueue(cfg: Settings, w: World, e: Event): World
    requires e.EnqueueRow?
  {
    if cfg.eager || HasJob(w.rows, e.job) || e.row in w.rows then w
    else
      var deadline := if e.job in w.rag then w.rag[e.job].deadlineAt else None;
      w.(rows := w.rows[e.row := Row(e.job, e.jobType, e.payload, Pending, 0, w.now, deadline,
                                      None, None, None, None, w.now)],
         log := w.log + [Enqueued(e.row, w.now)])
  }

  predicate Claimable(cfg: Settings, w: World, row: RowId, token: Token) {
    row in w.rows && token !in w.issued && Eligible(cfg, w.rows[row], w.now)
  }

  function StepClaim(cfg: Settings, w: World, row: RowId, token: Token): World {
    if !Claimable(cfg, w, row, token) then w
    else
      var leased := Leased(w.rows[row], token, w.now);
      var reason := BurialReason(cfg, leased, w.now);
      if reason.Some? then
        w.(rows := w.rows[row := Buried(leased, reason.value)],
           rag := if leased.jobId in w.rag
                  then w.rag[leased.jobId := BuriedJob(w.rag[leased.jobId], reason.value, w.now)]
                  else w.rag,
           issued := w.issued + {token},
           log := w.log + [Claim(row, token, w.now, false)])
      else
        w.(rows := w.rows[row := leased],
           held := w.held[token := Holding(ClaimOf(row, leased, token), Claimed)],
           issued := w.issued + {token},
           log := w.log + [Claim(row, token, w.now, true)])
  }

  function StepPublish(w: World, token: Token, accepted: bool, error: Option<string>): World {
    if token !in w.held || !w.held[token].phase.Claimed? then w
    else
      var claim := w.held[token].claim;
      w.(held := w.held[token := Holding(claim, if accepted then Accepted(w.now) else Refused(w.now, error))],
         log := w.log + [Publish(claim.outboxId, token, w.now, accepted, claim.jobType, claim.payload)])
  }

  function StepAck(w: World, token: Token): World {
    if token !in w.held || w.held[token].phase.Claimed? then w
    else
      var holding := w.held[token];
      var id := holding.claim.outboxId;
      var won := StillOwns(w.rows, holding.claim);
      w.(rows := if won then w.rows[id := AckedRow(w.rows[id], holding)] else w.rows,
         held := w.held - {token},
         log := w.log + [Ack(id, token, w.now, holding.phase.Accepted?, won)])
  }

  function StepCancel(w: World, job: JobId): World {
    if job !in w.rag || !(w.rag[job].status.RagPending? || w.rag[job].status.RagQueued?) then w
    else
      w.(rag := w.rag[job := w.rag[job].(status := RagCancelled, error := Some(CANCEL_REASON),
                                         finishedAt := Some(w.now))],
         rows := map r | r in w.rows :: CancelledRow(w.rows[r], job))
  }

  function Step(cfg: Settings, w: World, e: Event): World {
    match e
    case EnqueueRow(_, _, _, _) => StepEnqueue(cfg, w, e)
    case ClaimRow(row, token) => StepClaim(cfg, w, row, token)
    case PublishClaim(token, accepted, error) => StepPublish(w, token, accepted, error)
    case AckClaim(token) => StepAck(w, token)
    case CrashHolder(token) => w.(held := w.held - {token})
    case CancelJob(job) => StepCancel(w, job)
    case RagProgress(job, next) => w.(rag := w.rag[job := next])
    case Tick(elapsed) => w.(now := w.now + elapsed)
  }

  function Run(cfg: Settings, w: World, es: seq<Event>): World {
    if es == [] then w
    else Step(cfg, Run(cfg, w, es[..|es| - 1]), es[|es| - 1])
  }

  function Start(rag: map<JobId, RagJob>, now: Instant): World {
    World(map[], rag, map[], {}, now, [])
  }

  // ---------------------------------------------------------------- reading the history

  function Claims(log: seq<Entry>, r: RowId): nat {
    if log == [] then 0
    else
      var last := log[|log| - 1];
      Claims(log[..|log| - 1], r) + (if last.Claim? && last.row == r then 1 else 0)
  }

  function Grants(log: seq<Entry>, r: RowId): nat {
    if log == [] then 0
    else
      var last := log[|log| - 1];
      Grants(log[..|log| - 1], r) + (if last.Claim? && last.row == r && last.granted then 1 else 0)
  }

  function Publishes(log: seq<Entry>, r: RowId): nat {
    if log == [] then 0
    else
      var last := log[|log| - 1];
      Publishes(log[..|log| - 1], r) + (if last.Publish? && last.row == r then 1 else 0)
  }

  /** Acknowledgements that moved the row to dispatched. */
  function Dispatches(log: seq<Entry>, r: RowId): nat {
    if log == [] then 0
    else
      var last := log[|log| - 1];
      Dispatches(log[..|log| - 1], r) + (if last.Ack? && last.row == r && last.won && last.dispatched then 1 else 0)
  }

  /** The token of the last claim taken on the row. */
  function LatestToken(log: seq<Entry>, r: RowId): Option<Token> {
    if log == [] then None
    else
      var last := log[|log| - 1];
      if last.Claim? && last.row == r then Some(last.token) else LatestToken(log[..|log| - 1], r)
  }

  predicate Touches(e: Entry, r: RowId) {
    e.row == r && (e.Enqueued? || e.Claim? || (e.Ack? && e.won))
  }

  /** When the row was last enqueued, claimed or successfully acknowledged. */
  function LastTouch(log: seq<Entry>, r: RowId): Instant {
    if log == [] then 0
    else if Touches(log[|log| - 1], r) then log[|log| - 1].at
    else LastTouch(log[..|log| - 1], r)
  }

  lemma HistoryAppend(log: seq<Entry>, e: Entry, r: RowId)
    ensures Claims(log + [e], r) == Claims(log, r) + (if e.Claim? && e.row == r then 1 else 0)
    ensures Grants(log + [e], r) == Grants(log, r) + (if e.Claim? && e.row == r && e.granted then 1 else 0)
    ensures Publishes(log + [e], r) == Publishes(log, r) + (if e.Publish? && e.row == r then 1 else 0)
    ensures Dispatches(log + [e], r)
         == Dispatches(log, r) + (if e.Ack? && e.row == r && e.won && e.dispatched then 1 else 0)
    ensures LatestToken(log + [e], r)
         == if e.Claim? && e.row == r then Some(e.token) else LatestToken(log, r)
    ensures LastTouch(log + [e], r) == if Touches(e, r) then e.at else LastTouch(log, r)
  {
    assert (log + [e])[..|log|] == log;
  }

  // ---------------------------------------------------------------- the invariant

  /** Leases on `r` whose holder has not called the broker yet. */
  ghost function Unpublished(held: map<Token, Holding>, r: RowId): set<Token> {
    set t | t in held && held[t].claim.outboxId == r && held[t].phase.Claimed?
  }

  ghost predicate BudgetInv(cfg: Settings, w: World, r: RowId)
    requires r in w.rows
  {
    var row := w.rows[r];
    && Claims(w.log, r) == row.attempts
    && Grants(w.log, r) <= Min(row.attempts, cfg.maxAttempts)
    && row.attempts <= cfg.maxAttempts + 1
    && (!row.status.Terminal() ==> row.attempts <= cfg.maxAttempts)
    && Publishes(w.log, r) + |Unpublished(w.held, r)| <= Grants(w.log, r)
  }

  ghost predicate LeaseInv(cfg: Settings, w: World, r: RowId)
    requires r in w.rows
  {
    var row := w.rows[r];
    && LastTouch(w.log, r) <= w.now
    && (row.status.Dispatching? ==>
          row.leaseToken.Some? && row.leaseToken == LatestToken(w.log, r)
          && row.lockedAt == Some(LastTouch(w.log, r)))
    && (row.status.Pending? ==>
          row.leaseToken.None? && row.lockedAt.None?
          && row.availableAt <= LastTouch(w.log, r) + MAX_BACKOFF_SECONDS * SECOND)
  }

  /** The broker accepted the row's own job at instant `at`. */
  ghost predicate WasPublished(log: seq<Entry>, r: RowId, row: Row, at: Instant) {
    exists i :: 0 <= i < |log| && IsAcceptedPublish(log[i], r, row) && log[i].at == at
  }

  predicate IsAcceptedPublish(e: Entry, r: RowId, row: Row) {
    e.Publish? && e.row == r && e.accepted && e.jobType == row.jobType && e.payload == row.payload
  }

  ghost predicate DispatchInv(w: World, r: RowId)
    requires r in w.rows
  {
    var row := w.rows[r];
    && Dispatches(w.log, r) == (if row.status.Dispatched? then 1 else 0)
    && (row.status.Dispatched? ==>
          row.dispatchedAt.Some? && WasPublished(w.log, r, row, row.dispatchedAt.value))
  }

  ghost predicate HeldInv(w: World, t: Token)
    requires t in w.held
  {
    var h := w.held[t];
    && t in w.issued
    && h.claim.leaseToken == t
    && h.claim.outboxId in w.rows
    && h.claim.jobType == w.rows[h.claim.outboxId].jobType
    && h.claim.payload == w.rows[h.claim.outboxId].payload
    && (!h.phase.Claimed? ==> h.phase.at <= w.now)
    && (h.phase.Accepted? ==>
          WasPublished(w.log, h.claim.outboxId, w.rows[h.claim.outboxId], h.phase.at))
  }

  /** A row that is not in the table has no history. */
  ghost predicate Unknown(w: World, r: RowId) {
    Claims(w.log, r) == Grants(w.log, r) == Publishes(w.log, r) == Dispatches(w.log, r) == 0
  }

  ghost predicate RowInv(cfg: Settings, w: World, r: RowId)
    requires r in w.rows
  {
    BudgetInv(cfg, w, r) && LeaseInv(cfg, w, r) && DispatchInv(w, r)
  }

  ghost predicate Inv(cfg: Settings, w: World) {
    && (forall r :: r in w.rows ==> RowInv(cfg, w, r))
    && (forall t :: t in w.held ==> HeldInv(w, t))
    && (forall r :: r !in w.rows ==> Unknown(w, r))
  }

  /** No row disappears and none changes the job it carries. */
  ghost predicate SameJobs(w: World, w': World) {
    forall r :: r in w.rows ==> && r in w'.rows
                                && w'.rows[r].jobType == w.rows[r].jobType
                                && w'.rows[r].payload == w.rows[r].payload
  }

  lemma PublishedStays(log: seq<Entry>, e: Entry, r: RowId, row: Row, at: Instant)
    requires WasPublished(log, r, row, at)
    ensures WasPublished(log + [e], r, row, at)
  {
    var i :| 0 <= i < |log| && IsAcceptedPublish(log[i], r, row) && log[i].at == at;
    assert (log + [e])[i] == log[i];
  }

  /** Everything about rows and leases that a step does not name survives one more log entry. */
  lemma HeldStays(w: World, w': World, e: Entry, t: Token)
    requires t in w.held && t in w'.held && w'.held[t] == w.held[t]
    requires HeldInv(w, t)
    requires w.issued <= w'.issued && w.now <= w'.now
    requires w'.log == w.log + [e]
    requires SameJobs(w, w')
    ensures HeldInv(w', t)
  {
    var h := w.held[t];
    if h.phase.Accepted? {
      PublishedStays(w.log, e, h.claim.outboxId, w.rows[h.claim.outboxId], h.phase.at);
      var i :| 0 <= i < |w'.log| && IsAcceptedPublish(w'.log[i], h.claim.outboxId, w.rows[h.claim.outboxId])
        && w'.log[i].at == h.phase.at;
      assert IsAcceptedPublish(w'.log[i], h.claim.outboxId, w'.rows[h.claim.outboxId]);
    }
  }

  /** A row the entry is not about keeps its invariant. */
  lemma RowStays(cfg: Settings, w: World, w': World, e: Entry, r: RowId)
    requires r in w.rows && r in w'.rows && w'.rows[r] == w.rows[r]
    requires RowInv(cfg, w, r)
    requires w'.log == w.log + [e] && w'.now == w.now && e.row != r
    requires |Unpublished(w'.held, r)| <= |Unpublished(w.held, r)|
    ensures RowInv(cfg, w', r)
  {
    hide Claims, Grants, Publishes, Dispatches, LatestToken, LastTouch;
    HistoryAppend(w.log, e, r);
    if w.rows[r].status.Dispatched? {
      PublishedStays(w.log, e, r, w.rows[r], w.rows[r].dispatchedAt.value);
    }
  }

  /** The part of the invariant one log entry can change on the rows. */
  ghost predicate RowsInv(cfg: Settings, w: World) {
    forall r :: if r in w.rows then RowInv(cfg, w, r) else Unknown(w, r)
  }

  lemma EnqueueKeepsRows(cfg: Settings, w: World, e: Event)
    requires Inv(cfg, w) && e.EnqueueRow? && StepEnqueue(cfg, w, e) != w
    ensures RowsInv(cfg, StepEnqueue(cfg, w, e))
  {
    hide Claims, Grants, Publishes, Dispatches, LatestToken, LastTouch;
    var w' := StepEnqueue(cfg, w, e);
    var entry := Enqueued(e.row, w.now);
    forall r ensures if r in w'.rows then RowInv(cfg, w', r) else Unknown(w', r) {
      HistoryAppend(w.log, entry, r);
      if r in w.rows {
        RowStays(cfg, w, w', entry, r);
      } else {
        assert Unknown(w, r);
        assert Unpublished(w.held, r) == {} by {
          forall t | t in w.held ensures w.held[t].claim.outboxId != r {
            assert HeldInv(w, t);
          }
        }
      }
    }
  }

  lemma EnqueueKeepsInv(cfg: Settings, w: World, e: Event)
    requires Inv(cfg, w) && e.EnqueueRow?
    ensures Inv(cfg, StepEnqueue(cfg, w, e))
  {
    var w' := StepEnqueue(cfg, w, e);
    if w' != w {
      EnqueueKeepsRows(cfg, w, e);
      forall t | t in w'.held ensures HeldInv(w', t) {
        HeldStays(w, w', Enqueued(e.row, w.now), t);
      }
    }
  }

  lemma FreshTokenIsNotHeld(w: World, token: Token)
    requires forall t :: t in w.held ==> HeldInv(w, t)
    requires token !in w.issued
    ensures token !in w.held
  {
    assert token in w.held ==> HeldInv(w, token);
  }

  /** What a claim changes, in one place: one row, at most one lease, one log entry. */
  lemma ClaimFootprint(cfg: Settings, w: World, row: RowId, token: Token)
    requires Inv(cfg, w) && Claimable(cfg, w, row, token)
    ensures var w' := StepClaim(cfg, w, row, token);
            var leased := Leased(w.rows[row], token, w.now);
            var granted := BurialReason(cfg, leased, w.now).None?;
            && w'.log == w.log + [Claim(row, token, w.now, granted)]
            && w'.rows == w.rows[row := w'.rows[row]]
            && w'.now == w.now && w'.issued == w.issued + {token}
            && token !in w.held && SameJobs(w, w')
            && (forall t :: t in w.held ==> t in w'.held && w'.held[t] == w.held[t])
  {
    FreshTokenIsNotHeld(w, token);
  }

  lemma ClaimUnpublished(cfg: Settings, w: World, row: RowId, token: Token, r: RowId)
    requires Claimable(cfg, w, row, token) && token !in w.held
    ensures Unpublished(StepClaim(cfg, w, row, token).held, r)
         == Unpublished(w.held, r)
            + (if BurialReason(cfg, Leased(w.rows[row], token, w.now), w.now).None? && r == row
               then {token} else {})
  {
  }

  lemma ClaimedRowKeepsBudget(cfg: Settings, w: World, row: RowId, token: Token)
    requires Inv(cfg, w) && Claimable(cfg, w, row, token)
    ensures BudgetInv(cfg, StepClaim(cfg, w, row, token), row)
  {
    hide Claims, Grants, Publishes, Dispatches, LatestToken, LastTouch, LeaseInv, DispatchInv;
    ClaimFootprint(cfg, w, row, token);
    assert RowInv(cfg, w, row);
    HistoryAppend(w.log, Claim(row, token, w.now, StepClaim(cfg, w, row, token).log[|w.log|].granted), row);
    ClaimUnpublished(cfg, w, row, token, row);
  }

  lemma ClaimedRowKeepsLease(cfg: Settings, w: World, row: RowId, token: Token)
    requires Inv(cfg, w) && Claimable(cfg, w, row, token)
    ensures LeaseInv(cfg, StepClaim(cfg, w, row, token), row)
  {
    hide Claims, Grants, Publishes, Dispatches, LatestToken, LastTouch, BudgetInv, DispatchInv;
    ClaimFootprint(cfg, w, row, token);
    assert RowInv(cfg, w, row);
    HistoryAppend(w.log, Claim(row, token, w.now, StepClaim(cfg, w, row, token).log[|w.log|].granted), row);
  }

  lemma ClaimedRowKeepsDispatch(cfg: Settings, w: World, row: RowId, token: Token)
    requires Inv(cfg, w) && Claimable(cfg, w, row, token)
    ensures DispatchInv(StepClaim(cfg, w, row, token), row)
  {
    hide Claims, Grants, Publishes, Dispatches, LatestToken, LastTouch, BudgetInv, LeaseInv;
    ClaimFootprint(cfg, w, row, token);
    assert RowInv(cfg, w, row);
    HistoryAppend(w.log, Claim(row, token, w.now, StepClaim(cfg, w, row, token).log[|w.log|].granted), row);
  }

  lemma ClaimedRowKeepsInv(cfg: Settings, w: World, row: RowId, token: Token)
    requires Inv(cfg, w) && Claimable(cfg, w, row, token)
    ensures RowInv(cfg, StepClaim(cfg, w, row, token), row)
  {
    hide BudgetInv, LeaseInv, DispatchInv, StepClaim;
    assert RowInv(cfg, w, row);
    ClaimedRowKeepsBudget(cfg, w, row, token);
    ClaimedRowKeepsLease(cfg, w, row, token);
    ClaimedRowKeepsDispatch(cfg, w, row, token);
  }

  lemma ClaimKeepsRows(cfg: Settings, w: World, row: RowId, token: Token)
    requires Inv(cfg, w) && Claimable(cfg, w, row, token)
    ensures RowsInv(cfg, StepClaim(cfg, w, row, token))
  {
    hide Claims, Grants, Publishes, Dispatches, LatestToken, LastTouch;
    ClaimFootprint(cfg, w, row, token);
    var w' := StepClaim(cfg, w, row, token);
    var entry := w'.log[|w.log|];
    forall r ensures if r in w'.rows then RowInv(cfg, w', r) else Unknown(w', r) {
      if r == row {
        ClaimedRowKeepsInv(cfg, w, row, token);
      } else if r in w.rows {
        ClaimUnpublished(cfg, w, row, token, r);
        RowStays(cfg, w, w', entry, r);
      } else {
        assert Unknown(w, r);
        HistoryAppend(w.log, entry, r);
      }
    }
  }

  lemma ClaimKeepsInv(cfg: Settings, w: World, row: RowId, token: Token)
    requires Inv(cfg, w)
    ensures Inv(cfg, StepClaim(cfg, w, row, token))
  {
    if Claimable(cfg, w, row, token) {
      ClaimKeepsRows(cfg, w, row, token);
      ClaimFootprint(cfg, w, row, token);
      var w' := StepClaim(cfg, w, row, token);
      forall t | t in w'.held ensures HeldInv(w', t) {
        if t in w.held {
          HeldStays(w, w', w'.log[|w.log|], t);
        }
      }
    }
  }

  lemma PublishedRowKeepsInv(cfg: Settings, w: World, token: Token, accepted: bool, error: Option<string>)
    requires Inv(cfg, w) && token in w.held && w.held[token].phase.Claimed?
    requires w.held[token].claim.outboxId in w.rows
    ensures RowInv(cfg, StepPublish(w, token, accepted, error), w.held[token].claim.outboxId)
  {
    hide Claims, Grants, Publishes, Dispatches, LatestToken, LastTouch;
    var w' := StepPublish(w, token, accepted, error);
    var r := w.held[token].claim.outboxId;
    var entry := w'.log[|w.log|];
    assert RowInv(cfg, w, r);
    HistoryAppend(w.log, entry, r);
    assert Unpublished(w'.held, r) == Unpublished(w.held, r) - {token};
    if w.rows[r].status.Dispatched? {
      PublishedStays(w.log, entry, r, w.rows[r], w.rows[r].dispatchedAt.value);
    }
  }

  lemma PublishFootprint(w: World, token: Token, accepted: bool, error: Option<string>)
    requires token in w.held && w.held[token].phase.Claimed?
    ensures var w' := StepPublish(w, token, accepted, error);
            var claim := w.held[token].claim;
            && w'.log == w.log + [Publish(claim.outboxId, token, w.now, accepted, claim.jobType, claim.payload)]
            && w'.rows == w.rows && w'.now == w.now && w'.issued == w.issued
            && w'.held.Keys == w.held.Keys && (forall t :: t in w.held && t != token ==> w'.held[t] == w.held[t])
  {
  }

  lemma PublishKeepsRows(cfg: Settings, w: World, token: Token, accepted: bool, error: Option<string>)
    requires Inv(cfg, w) && token in w.held && w.held[token].phase.Claimed?
    ensures RowsInv(cfg, StepPublish(w, token, accepted, error))
  {
    hide Claims, Grants, Publishes, Dispatches, LatestToken, LastTouch;
    PublishFootprint(w, token, accepted, error);
    assert HeldInv(w, token);
    var w' := StepPublish(w, token, accepted, error);
    var entry := w'.log[|w.log|];
    forall r ensures if r in w'.rows then RowInv(cfg, w', r) else Unknown(w', r) {
      if r == entry.row {
        PublishedRowKeepsInv(cfg, w, token, accepted, error);
      } else if r in w.rows {
        assert Unpublished(w'.held, r) == Unpublished(w.held, r);
        RowStays(cfg, w, w', entry, r);
      } else {
        assert Unknown(w, r);
        HistoryAppend(w.log, entry, r);
      }
    }
  }

  lemma PublishKeepsInv(cfg: Settings, w: World, token: Token, accepted: bool, error: Option<string>)
    requires Inv(cfg, w)
    ensures Inv(cfg, StepPublish(w, token, accepted, error))
  {
    if token in w.held && w.held[token].phase.Claimed? {
      PublishKeepsRows(cfg, w, token, accepted, error);
      PublishFootprint(w, token, accepted, error);
      var w' := StepPublish(w, token, accepted, error);
      var id := w.held[token].claim.outboxId;
      var entry := w'.log[|w.log|];
      forall t | t in w'.held ensures HeldInv(w', t) {
        if t == token {
          assert HeldInv(w, token);
          assert accepted ==> IsAcceptedPublish(entry, id, w.rows[id]);
        } else {
          HeldStays(w, w', entry, t);
        }
      }
    }
  }

  lemma AckedRowKeepsInv(cfg: Settings, w: World, token: Token)
    requires Inv(cfg, w) && token in w.held && !w.held[token].phase.Claimed?
    requires w.held[token].claim.outboxId in w.rows
    ensures RowInv(cfg, StepAck(w, token), w.held[token].claim.outboxId)
  {
    hide Claims, Grants, Publishes, Dispatches, LatestToken, LastTouch;
    var w' := StepAck(w, token);
    var h := w.held[token];
    var id := h.claim.outboxId;
    var entry := w'.log[|w.log|];
    assert HeldInv(w, token) && RowInv(cfg, w, id);
    HistoryAppend(w.log, entry, id);
    assert Unpublished(w'.held, id) == Unpublished(w.held, id);
    if StillOwns(w.rows, h.claim) && h.phase.Accepted? {
      PublishedStays(w.log, entry, id, w.rows[id], h.phase.at);
      var i :| 0 <= i < |w'.log| && IsAcceptedPublish(w'.log[i], id, w.rows[id]) && w'.log[i].at == h.phase.at;
      assert IsAcceptedPublish(w'.log[i], id, w'.rows[id]);
    } else if w.rows[id].status.Dispatched? {
      PublishedStays(w.log, entry, id, w.rows[id], w.rows[id].dispatchedAt.value);
    }
  }

  lemma AckFootprint(cfg: Settings, w: World, token: Token)
    requires Inv(cfg, w) && token in w.held && !w.held[token].phase.Claimed?
    ensures var w' := StepAck(w, token);
            var id := w.held[token].claim.outboxId;
            && |w'.log| == |w.log| + 1 && w'.log == w.log + [w'.log[|w.log|]] && w'.log[|w.log|].row == id
            && id in w.rows && w'.rows == w.rows[id := w'.rows[id]]
            && w'.now == w.now && w'.issued == w.issued && SameJobs(w, w')
            && (forall t :: t in w'.held ==> t in w.held && w'.held[t] == w.held[t])
            && (forall r :: Unpublished(w'.held, r) == Unpublished(w.held, r))
  {
    assert HeldInv(w, token);
  }

  lemma AckKeepsInv(cfg: Settings, w: World, token: Token)
    requires Inv(cfg, w)
    ensures Inv(cfg, StepAck(w, token))
  {
    hide Claims, Grants, Publishes, Dispatches, LatestToken, LastTouch;
    if token in w.held && !w.held[token].phase.Claimed? {
      AckFootprint(cfg, w, token);
      var w' := StepAck(w, token);
      var entry := w'.log[|w.log|];
      forall r ensures if r in w'.rows then RowInv(cfg, w', r) else Unknown(w', r) {
        if r == entry.row {
          AckedRowKeepsInv(cfg, w, token);
        } else if r in w.rows {
          RowStays(cfg, w, w', entry, r);
        } else {
          assert Unknown(w, r);
          HistoryAppend(w.log, entry, r);
        }
      }
      forall t | t in w'.held ensures HeldInv(w', t) {
        HeldStays(w, w', entry, t);
      }
    }
  }

  lemma CancelledRowKeepsInv(cfg: Settings, w: World, job: JobId, r: RowId)
    requires r in w.rows && RowInv(cfg, w, r)
    requires StepCancel(w, job) != w
    ensures RowInv(cfg, StepCancel(w, job), r)
  {
    var w' := StepCancel(w, job);
    assert w'.rows[r] == CancelledRow(w.rows[r], job);
    assert BudgetInv(cfg, w', r);
    assert LeaseInv(cfg, w', r);
    if w.rows[r].status.Dispatched? {
      assert w'.rows[r] == w.rows[r];
    }
  }

  lemma CancelKeepsInv(cfg: Settings, w: World, job: JobId)
    requires Inv(cfg, w)
    ensures Inv(cfg, StepCancel(w, job))
  {
    var w' := StepCancel(w, job);
    if w' != w {
      forall r | r in w'.rows ensures RowInv(cfg, w', r) {
        CancelledRowKeepsInv(cfg, w, job, r);
      }
      forall t | t in w'.held ensures HeldInv(w', t) {
        QuietHeld(w, w', t);
      }
      forall r | r !in w'.rows ensures Unknown(w', r) {
        assert Unknown(w, r);
      }
    }
  }

  lemma QuietHeld(w: World, w': World, t: Token)
    requires t in w.held && t in w'.held && w'.held[t] == w.held[t] && HeldInv(w, t)
    requires w'.issued == w.issued && w.now <= w'.now && w'.log == w.log
    requires SameJobs(w, w')
    ensures HeldInv(w', t)
  {
    var h := w.held[t];
    if h.phase.Accepted? {
      var i :| 0 <= i < |w.log| && IsAcceptedPublish(w.log[i], h.claim.outboxId, w.rows[h.claim.outboxId])
        && w.log[i].at == h.phase.at;
      assert IsAcceptedPublish(w'.log[i], h.claim.outboxId, w'.rows[h.claim.outboxId]);
    }
  }

  lemma CrashKeepsInv(cfg: Settings, w: World, token: Token)
    requires Inv(cfg, w)
    ensures Inv(cfg, w.(held := w.held - {token}))
  {
    var w' := w.(held := w.held - {token});
    forall r | r in w'.rows ensures RowInv(cfg, w', r) {
      assert RowInv(cfg, w, r);
      assert Unpublished(w'.held, r) == Unpublished(w.held, r) - {token};
    }
    forall t | t in w'.held ensures HeldInv(w', t) {
      QuietHeld(w, w', t);
    }
    forall r | r !in w'.rows ensures Unknown(w', r) {
      assert Unknown(w, r);
    }
  }

  /** The rows, leases and history are untouched: the consumer's progress and the clock. */
  lemma QuietKeepsInv(cfg: Settings, w: World, w': World)
    requires Inv(cfg, w)
    requires w'.rows == w.rows && w'.held == w.held && w'.issued == w.issued && w'.log == w.log
    requires w.now <= w'.now
    ensures Inv(cfg, w')
  {
    forall r | r in w'.rows ensures RowInv(cfg, w', r) {
      assert RowInv(cfg, w, r);
    }
    forall t | t in w'.held ensures HeldInv(w', t) {
      QuietHeld(w, w', t);
    }
    forall r | r !in w'.rows ensures Unknown(w', r) {
      assert Unknown(w, r);
    }
  }

  lemma StepKeepsInv(cfg: Settings, w: World, e: Event)
    requires Inv(cfg, w)
    ensures Inv(cfg, Step(cfg, w, e))
  {
    match e
    case EnqueueRow(_, _, _, _) => EnqueueKeepsInv(cfg, w, e);
    case ClaimRow(row, token) => ClaimKeepsInv(cfg, w, row, token);
    case PublishClaim(token, accepted, error) => PublishKeepsInv(cfg, w, token, accepted, error);
    case AckClaim(token) => AckKeepsInv(cfg, w, token);
    case CrashHolder(token) => CrashKeepsInv(cfg, w, token);
    case CancelJob(job) => CancelKeepsInv(cfg, w, job);
    case RagProgress(_, _) => QuietKeepsInv(cfg, w, Step(cfg, w, e));
    case Tick(_) => QuietKeepsInv(cfg, w, Step(cfg, w, e));
  }

  lemma {:induction false} RunKeepsInv(cfg: Settings, w: World, es: seq<Event>)
    requires Inv(cfg, w)
    ensures Inv(cfg, Run(cfg, w, es))
  {
    if es != [] {
      RunKeepsInv(cfg, w, es[..|es| - 1]);
      StepKeepsInv(cfg, Run(cfg, w, es[..|es| - 1]), es[|es| - 1]);
    }
  }

  lemma {:induction false} ReachableInv(cfg: Settings, rag: map<JobId, RagJob>, now: Instant, es: seq<Event>)
    ensures Inv(cfg, Run(cfg, Start(rag, now), es))
  {
    RunKeepsInv(cfg, Start(rag, now), es);
  }

  // ---------------------------------------------------------------- main results

  /** Fencing. After any run an acknowledgement changes the table exactly when its token is the
      latest one issued for the row and the row is still dispatching; it changes that row only. */
  lemma {:induction false} Fencing(cfg: Settings, rag: map<JobId, RagJob>, now: Instant, es: seq<Event>, token: Token)
    ensures var w := Run(cfg, Start(rag, now), es);
            var w' := Step(cfg, w, AckClaim(token));
            && (w'.rows != w.rows <==>
                  token in w.held && !w.held[token].phase.Claimed?
                  && var id := w.held[token].claim.outboxId;
                     id in w.rows && w.rows[id].status.Dispatching? && LatestToken(w.log, id) == Some(token))
            && (w'.rows != w.rows ==>
                  var id := w.held[token].claim.outboxId;
                  id in w.rows && w'.rows == w.rows[id := AckedRow(w.rows[id], w.held[token])])
  {
    ReachableInv(cfg, rag, now, es);
    var w := Run(cfg, Start(rag, now), es);
    var w' := Step(cfg, w, AckClaim(token));
    if token in w.held && !w.held[token].phase.Claimed? {
      assert HeldInv(w, token);
      var h := w.held[token];
      var id := h.claim.outboxId;
      assert RowInv(cfg, w, id);
      if StillOwns(w.rows, h.claim) {
        assert w'.rows[id].status != w.rows[id].status;
      }
    }
  }

  /** The delivery budget, for every row of every run: publishes stay within the configured
      attempts, claims exceed it by one at most, and the claim that exceeds it ends the row. */
  lemma Budget(cfg: Settings, rag: map<JobId, RagJob>, now: Instant, es: seq<Event>, r: RowId)
    ensures var w := Run(cfg, Start(rag, now), es);
            && Publishes(w.log, r) <= cfg.maxAttempts
            && Claims(w.log, r) <= cfg.maxAttempts + 1
            && Dispatches(w.log, r) <= 1
            && (r in w.rows && Claims(w.log, r) == cfg.maxAttempts + 1 ==> w.rows[r].status.Terminal())
  {
    ReachableInv(cfg, rag, now, es);
    var w := Run(cfg, Start(rag, now), es);
    if r in w.rows {
      assert RowInv(cfg, w, r);
    } else {
      assert Unknown(w, r);
    }
  }

  /** A row is dispatched only after the broker accepted its own job, it is stamped with the
      instant of that publish, and exactly one acknowledgement put it there. */
  lemma DispatchedMeansPublished(cfg: Settings, rag: map<JobId, RagJob>, now: Instant, es: seq<Event>, r: RowId)
    requires r in Run(cfg, Start(rag, now), es).rows
    ensures var w := Run(cfg, Start(rag, now), es);
            && (w.rows[r].status.Dispatched? <==> Dispatches(w.log, r) == 1)
            && (w.rows[r].status.Dispatched? ==>
                  w.rows[r].dispatchedAt.Some? && WasPublished(w.log, r, w.rows[r], w.rows[r].dispatchedAt.value))
  {
    ReachableInv(cfg, rag, now, es);
    assert RowInv(cfg, Run(cfg, Start(rag, now), es), r);
  }

  /** Nothing is lost: a row that has not ended is claimable again once the longer of the lease
      and the longest backoff has passed since it was last touched. */
  lemma NoRowIsStranded(
    cfg: Settings, rag: map<JobId, RagJob>, now: Instant, es: seq<Event>, r: RowId, later: Instant)
    requires r in Run(cfg, Start(rag, now), es).rows
    requires !Run(cfg, Start(rag, now), es).rows[r].status.Terminal()
    requires later >= LastTouch(Run(cfg, Start(rag, now), es).log, r)
                      + Max(MAX_BACKOFF_SECONDS, cfg.leaseSeconds) * SECOND
    ensures Eligible(cfg, Run(cfg, Start(rag, now), es).rows[r], later)
  {
    ReachableInv(cfg, rag, now, es);
    assert RowInv(cfg, Run(cfg, Start(rag, now), es), r);
  }

  /** Each claim of a live row uses one unit of the remaining budget, or ends the row. */
  lemma ClaimMakesProgress(
    cfg: Settings, rag: map<JobId, RagJob>, now: Instant, es: seq<Event>, r: RowId, token: Token)
    requires Claimable(cfg, Run(cfg, Start(rag, now), es), r, token)
    ensures var w := Run(cfg, Start(rag, now), es);
            var w' := Step(cfg, w, ClaimRow(r, token));
            && 0 <= cfg.maxAttempts + 1 - w'.rows[r].attempts < cfg.maxAttempts + 1 - w.rows[r].attempts
            && (w'.rows[r].status.DeadLetter?
                <==> (w.rows[r].deadlineAt.Some? && w.rows[r].deadlineAt.value <= w.now)
                     || w.rows[r].attempts == cfg.maxAttempts)
            && (token in w'.held <==> !w'.rows[r].status.DeadLetter?)
  {
    ReachableInv(cfg, rag, now, es);
    var w := Run(cfg, Start(rag, now), es);
    assert RowInv(cfg, w, r);
    assert token !in w.held by { assert token in w.held ==> HeldInv(w, token); }
  }

  /** What a claim records. It changes the world if and only if its token is fresh and the row is due or
      its lease over; then the row has one attempt more, and is either leased from now under the token,
      with the claim handed out saying what the row says, or given up with the reason. */
  lemma ClaimIsRecorded(cfg: Settings, w: World, r: RowId, token: Token)
    ensures var w' := Step(cfg, w, ClaimRow(r, token));
            && (w' != w <==>
                  && r in w.rows && token !in w.issued
                  && var row := w.rows[r];
                     || (row.status.Pending? && row.availableAt <= w.now)
                     || (row.status.Dispatching?
                         && (row.lockedAt.None? || w.now - row.lockedAt.value >= cfg.leaseSeconds * SECOND)))
            && (w' != w ==>
                  && r in w'.rows && w'.rows == w.rows[r := w'.rows[r]] && w'.issued == w.issued + {token} && w'.now == w.now
                  && var (row, row') := (w.rows[r], w'.rows[r]);
                     && row' == row.(status := row'.status, attempts := row.attempts + 1, lockedAt := row'.lockedAt,
                                     leaseToken := row'.leaseToken, lastError := row'.lastError,
                                     dispatchedAt := row'.dispatchedAt)
                     && var overdue := row.deadlineAt.Some? && row.deadlineAt.value <= w.now;
                        var given := overdue || row.attempts >= cfg.maxAttempts;
                        && w'.log == w.log + [Claim(r, token, w.now, !given)]
                        && if given
                           then row'.status.DeadLetter? && row'.lockedAt.None? && row'.leaseToken.None?
                                && row'.dispatchedAt.None? && w'.held == w.held
                                && row'.lastError == Some(if overdue then "Outbox delivery deadline exceeded"
                                                          else "Outbox delivery exceeded the maximum retry count")
                           else row'.status.Dispatching? && row'.lockedAt == Some(w.now) && row'.leaseToken == Some(token)
                                && row'.lastError == row.lastError && row'.dispatchedAt == row.dispatchedAt
                                && w'.rag == w.rag
                                && w'.held == w.held[token := Holding(OutboxClaim(r, row.jobId, row.jobType, row.payload,
                                                                                  row.attempts + 1, token), Claimed)])
  {
    var w' := Step(cfg, w, ClaimRow(r, token));
    assert Claimable(cfg, w, r, token) <==> token !in w.issued && token in w'.issued;
  }

  /** What a broker call leaves: the answer and the clock for the acknowledgement, and one entry with
      the job of the claim. */
  lemma AnswerIsKept(cfg: Settings, w: World, token: Token, accepted: bool, error: Option<string>)
    requires token in w.held && w.held[token].phase.Claimed?
    ensures var w' := Step(cfg, w, PublishClaim(token, accepted, error));
            var claim := w.held[token].claim;
            && w'.held == w.held[token := Holding(claim, if accepted then Accepted(w.now) else Refused(w.now, error))]
            && w'.log == w.log + [Publish(claim.outboxId, token, w.now, accepted, claim.jobType, claim.payload)]
            && w'.rows == w.rows && w'.rag == w.rag && w'.issued == w.issued && w'.now == w.now
  {
  }

  /** What an acknowledgement records: the answer, on a row that still belongs to the claim, and
      otherwise nothing; the lease is used up either way. */
  lemma AcknowledgementIsRecorded(cfg: Settings, w: World, token: Token)
    requires token in w.held && !w.held[token].phase.Claimed?
    ensures var w' := Step(cfg, w, AckClaim(token));
            var (claim, phase) := (w.held[token].claim, w.held[token].phase);
            var owns := claim.outboxId in w.rows && w.rows[claim.outboxId].status.Dispatching?
                        && w.rows[claim.outboxId].leaseToken == Some(claim.leaseToken);
            && w'.held == w.held - {token} && w'.rag == w.rag && w'.issued == w.issued && w'.now == w.now
            && w'.log == w.log + [Ack(claim.outboxId, token, w.now, phase.Accepted?, owns)]
            && (!owns ==> w'.rows == w.rows)
            && (owns ==>
                  && w'.rows == w.rows[claim.outboxId := w'.rows[claim.outboxId]]
                  && var (row, row') := (w.rows[claim.outboxId], w'.rows[claim.outboxId]);
                     && row' == row.(status := row'.status, availableAt := row'.availableAt, lockedAt := None,
                                     leaseToken := None, dispatchedAt := row'.dispatchedAt, lastError := row'.lastError)
                     && if phase.Accepted?
                        then row'.status.Dispatched? && row'.dispatchedAt == Some(phase.at) && row'.lastError.None?
                             && row'.availableAt == row.availableAt
                        else row'.status.Pending? && row'.dispatchedAt.None? && row'.lastError.Some?
                             && var text := if phase.error.GetOr("") == "" then "Outbox delivery failed"
                                            else phase.error.value;
                                row'.lastError.value <= text && |row'.lastError.value| == Min(|text|, 500))
  {
  }

  // ---------------------------------------------------------------- one row per job

  /** What an enqueue adds: a row of its own if and only if the job has none and is not run in process;
      it is due at once and carries the job's deadline. */
  lemma EnqueueAddsOneRow(cfg: Settings, w: World, r: RowId, job: JobId, jobType: string, payload: string)
    requires r !in w.rows
    ensures var w' := Step(cfg, w, EnqueueRow(r, job, jobType, payload));
            && (w' != w <==> !cfg.eager && forall x :: x in w.rows ==> w.rows[x].jobId != job)
            && (w' != w ==>
                  && r in w'.rows && w'.rows == w.rows[r := w'.rows[r]] && w'.log == w.log + [Enqueued(r, w.now)]
                  && w'.rag == w.rag && w'.held == w.held && w'.issued == w.issued && w'.now == w.now
                  && var row := w'.rows[r];
                     && row.jobId == job && row.jobType == jobType && row.payload == payload
                     && row.status.Pending? && row.attempts == 0 && row.availableAt == w.now && row.createdAt == w.now
                     && row.deadlineAt == (if job in w.rag then w.rag[job].deadlineAt else None)
                     && row.lockedAt.None? && row.leaseToken.None? && row.dispatchedAt.None? && row.lastError.None?)
  {
    var w' := Step(cfg, w, EnqueueRow(r, job, jobType, payload));
    assert w' != w <==> r in w'.rows;
  }

  lemma StepKeepsJobIds(cfg: Settings, w: World, e: Event, r: RowId)
    requires r in w.rows
    ensures r in Step(cfg, w, e).rows && Step(cfg, w, e).rows[r].jobId == w.rows[r].jobId
  {
  }

  /** In every run a job has at most one row. */
  lemma {:induction false} OneRowPerJob(cfg: Settings, rag: map<JobId, RagJob>, now: Instant, es: seq<Event>,
                                       a: RowId, b: RowId)
    requires var w := Run(cfg, Start(rag, now), es);
             a in w.rows && b in w.rows && w.rows[a].jobId == w.rows[b].jobId
    ensures a == b
  {
    var w, e := Run(cfg, Start(rag, now), es[..|es| - 1]), es[|es| - 1];
    if a in w.rows {
      StepKeepsJobIds(cfg, w, e, a);
    }
    if b in w.rows {
      StepKeepsJobIds(cfg, w, e, b);
    }
    if a in w.rows && b in w.rows {
      OneRowPerJob(cfg, rag, now, es[..|es| - 1], a, b);
    }
  }

  /** Giving a row up fails its ingestion job, unless that job had already completed; a claim that
      is handed out leaves every ingestion job alone. */
  lemma BurialFailsTheJob(cfg: Settings, w: World, r: RowId, token: Token, job: JobId)
    requires Claimable(cfg, w, r, token) && job in w.rag
    ensures var w' := Step(cfg, w, ClaimRow(r, token));
            && job in w'.rag && w'.rag.Keys == w.rag.Keys
            && (w'.rag[job] != w.rag[job] ==>
                  w'.rag[job] == RagJob(RagFailed, w.rag[job].deadlineAt, w'.rows[r].lastError, Some(w.now), Some(w.now)))
            && (w'.rag[job].status != w.rag[job].status ==>
                  w'.rows[r].status.DeadLetter? && w.rows[r].jobId == job && w'.rag[job].error == w'.rows[r].lastError)
            && (w'.rows[r].status.DeadLetter? && w.rows[r].jobId == job ==>
                  w'.rag[job].status == if w.rag[job].status.RagCompleted? then RagCompleted else RagFailed)
  {
  }

  /** Terminal rows are frozen: no event, in any continuation, changes any field of them. */
  lemma {:induction false} TerminalIsFinal(cfg: Settings, w: World, es: seq<Event>, r: RowId)
    requires r in w.rows && w.rows[r].status.Terminal()
    ensures r in Run(cfg, w, es).rows && Run(cfg, w, es).rows[r] == w.rows[r]
  {
    if es != [] {
      TerminalIsFinal(cfg, w, es[..|es| - 1], r);
    }
  }

  /** A lease cut off by a later claim or by the operator's cancel never writes again, whatever
      its holder and everyone else do next. */
  lemma {:induction false} CutOffLeaseNeverWins(cfg: Settings, w: World, es: seq<Event>, token: Token)
    requires Inv(cfg, w) && token in w.issued
    requires token in w.held ==> !StillOwns(w.rows, w.held[token].claim)
    ensures var w' := Run(cfg, w, es);
            && token in w'.issued
            && (token in w'.held ==> !StillOwns(w'.rows, w'.held[token].claim))
            && Step(cfg, w', AckClaim(token)).rows == w'.rows
  {
    if es != [] {
      CutOffLeaseNeverWins(cfg, w, es[..|es| - 1], token);
      RunKeepsInv(cfg, w, es[..|es| - 1]);
      var v := Run(cfg, w, es[..|es| - 1]);
      if token in v.held {
        assert HeldInv(v, token);
      }
      CutOffStep(cfg, v, es[|es| - 1], token);
    }
  }

  lemma CutOffStep(cfg: Settings, w: World, e: Event, token: Token)
    requires token in w.issued && (token in w.held ==> w.held[token].claim.leaseToken == token)
    requires token in w.held ==> w.held[token].claim.outboxId in w.rows && !StillOwns(w.rows, w.held[token].claim)
    ensures var w' := Step(cfg, w, e);
            token in w'.issued && (token in w'.held ==> !StillOwns(w'.rows, w'.held[token].claim))
  {
  }

  /** A claimed row is hidden from every other dispatcher for exactly the lease. */
  lemma ClaimHidesRow(cfg: Settings, w: World, r: RowId, token: Token, later: Instant)
    requires Claimable(cfg, w, r, token) && !Step(cfg, w, ClaimRow(r, token)).rows[r].status.DeadLetter?
    ensures Eligible(cfg, Step(cfg, w, ClaimRow(r, token)).rows[r], later)
       <==> later >= w.now + cfg.leaseSeconds * SECOND
  {
  }

  /** A claim that still owns its row says what the row says. */
  ghost predicate OwnerInv(w: World, t: Token)
    requires t in w.held
  {
    var claim := w.held[t].claim;
    && t in w.issued && claim.leaseToken == t
    && (StillOwns(w.rows, claim) ==>
          && claim.attempts == w.rows[claim.outboxId].attempts && claim.jobId == w.rows[claim.outboxId].jobId
          && claim.jobType == w.rows[claim.outboxId].jobType && claim.payload == w.rows[claim.outboxId].payload)
  }

  lemma StepKeepsOwner(cfg: Settings, w: World, e: Event, t: Token)
    requires t in Step(cfg, w, e).held && (t in w.held ==> OwnerInv(w, t))
    ensures OwnerInv(Step(cfg, w, e), t)
  {
  }

  lemma {:induction false} OwnedClaimsMatchTheirRows(cfg: Settings, rag: map<JobId, RagJob>, now: Instant,
                                                    es: seq<Event>, t: Token)
    requires t in Run(cfg, Start(rag, now), es).held
    ensures OwnerInv(Run(cfg, Start(rag, now), es), t)
  {
    var w, e := Run(cfg, Start(rag, now), es[..|es| - 1]), es[|es| - 1];
    if t in w.held {
      OwnedClaimsMatchTheirRows(cfg, rag, now, es[..|es| - 1], t);
    }
    StepKeepsOwner(cfg, w, e, t);
  }

  /** A holder that crashes can write nothing any more, and its row is claimable again exactly when the
      lease is over. */
  lemma CrashIsRecovered(cfg: Settings, w: World, r: RowId, token: Token, elapsed: nat, next: Token)
    requires Claimable(cfg, w, r, token) && !Step(cfg, w, ClaimRow(r, token)).rows[r].status.DeadLetter?
    requires next !in w.issued && next != token
    ensures var claimed := Step(cfg, w, ClaimRow(r, token));
            var later := Step(cfg, Step(cfg, claimed, CrashHolder(token)), Tick(elapsed));
            && later == claimed.(held := claimed.held - {token}, now := w.now + elapsed)
            && Step(cfg, later, AckClaim(token)) == later
            && (forall accepted, error :: Step(cfg, later, PublishClaim(token, accepted, error)) == later)
            && (Claimable(cfg, later, r, next) <==> elapsed >= cfg.leaseSeconds * SECOND)
  {
  }

  /** A job that completed on its own before its row was given up stays completed. */
  lemma CompletedJobIsNotFailed(cfg: Settings, w: World, r: RowId, token: Token, done: RagJob)
    requires r in w.rows && done.status.RagCompleted?
    ensures var job := w.rows[r].jobId;
            var w' := Step(cfg, Step(cfg, w, RagProgress(job, done)), ClaimRow(r, token));
            w'.rag == w.rag[job := done]
  {
  }

  /** After a failed delivery the row rests for one minute per attempt made on it, fifteen at the
      most; and the attempts made are the claims taken. */
  lemma {:induction false} RefusalHidesRow(cfg: Settings, rag: map<JobId, RagJob>, now: Instant, es: seq<Event>,
                                          token: Token, later: Instant)
    requires var w := Run(cfg, Start(rag, now), es);
             token in w.held && w.held[token].phase.Refused? && StillOwns(w.rows, w.held[token].claim)
    ensures var w := Run(cfg, Start(rag, now), es);
            var (id, at) := (w.held[token].claim.outboxId, w.held[token].phase.at);
            var row := Step(cfg, w, AckClaim(token)).rows[id];
            && row.status.Pending? && row.attempts == w.rows[id].attempts == Claims(w.log, id)
            && (Eligible(cfg, row, later)
                <==> later >= at + (if Claims(w.log, id) < 15 then 60 * Claims(w.log, id) else 900) * SECOND)
  {
    OwnedClaimsMatchTheirRows(cfg, rag, now, es, token);
    ReachableInv(cfg, rag, now, es);
    assert RowInv(cfg, Run(cfg, Start(rag, now), es), Run(cfg, Start(rag, now), es).held[token].claim.outboxId);
  }

  /** The operator's cancel reaches the job it names and no other: it changes something if and only if
      that job is pending or queued; then it cancels the job and its unfinished rows, and leaves every
      other row, lease and job alone. */
  lemma CancelReachesItsJobAlone(cfg: Settings, w: World, job: JobId)
    ensures var w' := Step(cfg, w, CancelJob(job));
            && (w' != w <==> job in w.rag && (w.rag[job].status.RagPending? || w.rag[job].status.RagQueued?))
            && (w' != w ==>
                  && job in w'.rag && w'.rag == w.rag[job := w'.rag[job]]
                  && w'.rag[job] == RagJob(RagCancelled, w.rag[job].deadlineAt, Some("cancelled_by_operator"), Some(w.now),
                                           w.rag[job].heartbeatAt)
                  && w'.held == w.held && w'.issued == w.issued && w'.now == w.now && w'.log == w.log
                  && w'.rows.Keys == w.rows.Keys
                  && forall r :: r in w.rows ==>
                       if w.rows[r].jobId != job || w.rows[r].status.Terminal() then w'.rows[r] == w.rows[r]
                       else w'.rows[r] == w.rows[r].(status := Cancelled, lastError := Some("cancelled_by_operator")))
  {
  }

  /** The operator's cancel ends every unfinished row of the job, and a dispatcher that already
      holds a lease on such a row can no longer write to it. */
  lemma {:induction false} CancelWinsTheRace(cfg: Settings, rag: map<JobId, RagJob>, now: Instant, es: seq<Event>,
                                            job: JobId, more: seq<Event>, r: RowId)
    requires var w := Run(cfg, Start(rag, now), es);
             && job in w.rag && (w.rag[job].status.RagPending? || w.rag[job].status.RagQueued?)
             && r in w.rows && w.rows[r].jobId == job && !w.rows[r].status.Terminal()
    ensures var w := Run(cfg, Start(rag, now), es);
            var cancelled := Step(cfg, w, CancelJob(job));
            var w' := Run(cfg, cancelled, more);
            && r in w'.rows && w'.rows[r].status.Cancelled? && w'.rows[r].attempts == w.rows[r].attempts
  {
    TerminalIsFinal(cfg, Step(cfg, Run(cfg, Start(rag, now), es), CancelJob(job)), more, r);
  }

  // ---------------------------------------------------------------- the code that does it

  function ClaimEvents(picked: seq<RowId>, tokens: seq<Token>): seq<Event>
    requires |picked| <= |tokens|
  {
    seq(|picked|, i requires 0 <= i < |picked| => ClaimRow(picked[i], tokens[i]))
  }

  predicate Distinct<T(==)>(s: seq<T>) {
    forall i, j :: 0 <= i < j < |s| ==> s[i] != s[j]
  }

  /** The table in creation order: what the claiming query scans. */
  ghost predicate IsScan(rows: map<RowId, Row>, scan: seq<RowId>) {
    && Distinct(scan)
    && (forall r :: r in scan <==> r in rows)
    && (forall i, j :: 0 <= i < j < |scan| ==> rows[scan[i]].createdAt <= rows[scan[j]].createdAt)
  }

  /** WHERE claimable, skipping rows another transaction has locked, LIMIT `limit`. */
  function Select(cfg: Settings, rows: map<RowId, Row>, scan: seq<RowId>, locked: set<RowId>, now: Instant,
                  limit: nat): (picked: seq<RowId>)
    requires forall r :: r in scan ==> r in rows
    ensures |picked| <= limit
    ensures forall r :: r in picked ==> r in scan && r !in locked && Eligible(cfg, rows[r], now)
  {
    if scan == [] || limit == 0 then []
    else if scan[0] !in locked && Eligible(cfg, rows[scan[0]], now)
    then [scan[0]] + Select(cfg, rows, scan[1..], locked, now, limit - 1)
    else Select(cfg, rows, scan[1..], locked, now, limit)
  }

  lemma {:induction false} SelectIsDistinct(cfg: Settings, rows: map<RowId, Row>, scan: seq<RowId>,
                                            locked: set<RowId>, now: Instant, limit: nat)
    requires Distinct(scan) && forall r :: r in scan ==> r in rows
    ensures Distinct(Select(cfg, rows, scan, locked, now, limit))
  {
    if scan != [] && limit != 0 {
      var taken := scan[0] !in locked && Eligible(cfg, rows[scan[0]], now);
      SelectIsDistinct(cfg, rows, scan[1..], locked, now, if taken then limit - 1 else limit);
    }
  }

  /** The pass takes the oldest work first: a claimable row is passed over only when the batch
      is full, and then by rows that are not younger. */
  lemma {:induction false} SelectTakesOldest(cfg: Settings, rows: map<RowId, Row>, scan: seq<RowId>,
                                             locked: set<RowId>, now: Instant, limit: nat, r: RowId)
    requires forall x :: x in scan ==> x in rows
    requires forall i, j :: 0 <= i < j < |scan| ==> rows[scan[i]].createdAt <= rows[scan[j]].createdAt
    requires r in scan && r !in locked && Eligible(cfg, rows[r], now)
    ensures var picked := Select(cfg, rows, scan, locked, now, limit);
            r in picked || (|picked| == limit
                            && forall p :: p in picked ==> rows[p].createdAt <= rows[r].createdAt)
  {
    if scan != [] && limit != 0 && r != scan[0] {
      var taken := scan[0] !in locked && Eligible(cfg, rows[scan[0]], now);
      SelectTakesOldest(cfg, rows, scan[1..], locked, now, if taken then limit - 1 else limit, r);
    }
  }

  /** What the broker answered to one publish. */
  datatype Answer = Answer(accepted: bool, error: Option<string>)

  ghost function DispatchedRows(rows: map<RowId, Row>): set<RowId> {
    set r | r in rows && rows[r].status.Dispatched?
  }

  ghost function Delivered(before: map<RowId, Row>, after: map<RowId, Row>): set<RowId> {
    DispatchedRows(after) - DispatchedRows(before)
  }

  /** The lease is recorded, unpublished, and its row still belongs to it. */
  ghost predicate Outstanding(rows: map<RowId, Row>, held: map<Token, Holding>, claim: OutboxClaim) {
    && StillOwns(rows, claim)
    && claim.leaseToken in held && held[claim.leaseToken] == Holding(claim, Claimed)
  }

  /** From index `i` on, the claims are outstanding and no token occurs twice. */
  ghost predicate Batch(claims: seq<OutboxClaim>, rows: map<RowId, Row>, held: map<Token, Holding>, i: nat) {
    && (forall k :: i <= k < |claims| ==> Outstanding(rows, held, claims[k]))
    && (forall k, j :: i <= k < j < |claims| ==> claims[k].leaseToken != claims[j].leaseToken)
  }

  /** The claims of those `tokens` that are held, in order. */
  function HeldClaims(held: map<Token, Holding>, tokens: seq<Token>): seq<OutboxClaim> {
    if tokens == [] then []
    else
      var last := tokens[|tokens| - 1];
      HeldClaims(held, tokens[..|tokens| - 1]) + (if last in held then [held[last].claim] else [])
  }

  lemma {:induction false} HeldClaimsFrame(held: map<Token, Holding>, held': map<Token, Holding>, tokens: seq<Token>)
    requires forall t :: t in tokens ==> (t in held <==> t in held') && (t in held ==> held[t] == held'[t])
    ensures HeldClaims(held, tokens) == HeldClaims(held', tokens)
  {
    if tokens != [] {
      assert tokens[|tokens| - 1] in tokens;
      HeldClaimsFrame(held, held', tokens[..|tokens| - 1]);
    }
  }

  lemma HeldClaimsGrow(held: map<Token, Holding>, held': map<Token, Holding>, tokens: seq<Token>, token: Token)
    requires token !in tokens && token !in held
    requires held' == held || (token in held' && held' == held[token := held'[token]])
    ensures HeldClaims(held', tokens + [token])
         == HeldClaims(held, tokens) + (if token in held' then [held'[token].claim] else [])
  {
    assert (tokens + [token])[..|tokens|] == tokens;
    HeldClaimsFrame(held, held', tokens);
  }

  /** Distinct claimable rows and distinct fresh tokens for them. */
  ghost predicate ClaimBatch(cfg: Settings, w: World, picked: seq<RowId>, tokens: seq<Token>) {
    && |tokens| == |picked| && Distinct(picked) && Distinct(tokens)
    && w.held.Keys <= w.issued
    && (forall r :: r in picked ==> r in w.rows && Eligible(cfg, w.rows[r], w.now))
    && (forall t :: t in tokens ==> t !in w.issued)
  }

  lemma ClaimOne(cfg: Settings, start: World, picked: seq<RowId>, tokens: seq<Token>, i: nat)
    requires i < |picked| == |tokens|
    ensures Run(cfg, start, ClaimEvents(picked[..i + 1], tokens[..i + 1]))
         == StepClaim(cfg, Run(cfg, start, ClaimEvents(picked[..i], tokens[..i])), picked[i], tokens[i])
  {
    var es := ClaimEvents(picked[..i + 1], tokens[..i + 1]);
    assert es[..i] == ClaimEvents(picked[..i], tokens[..i]);
  }

  lemma {:induction false} ClaimRunRows(cfg: Settings, start: World, picked: seq<RowId>, tokens: seq<Token>)
    requires |tokens| == |picked|
    ensures var w := Run(cfg, start, ClaimEvents(picked, tokens));
            && w.now == start.now && w.rows.Keys == start.rows.Keys
            && (forall r :: r in w.rows && r !in picked ==> w.rows[r] == start.rows[r])
            && (forall t :: t in w.issued ==> t in start.issued || t in tokens)
            && (forall t :: t in w.held && t !in tokens ==> t in start.held)
  {
    if picked != [] {
      var n := |picked| - 1;
      ClaimRunRows(cfg, start, picked[..n], tokens[..n]);
      ClaimOne(cfg, start, picked, tokens, n);
      assert picked[..n + 1] == picked && tokens[..n + 1] == tokens;
      assert picked == picked[..n] + [picked[n]] && tokens == tokens[..n] + [tokens[n]];
    }
  }

  /** When its turn comes, each selected row is still claimable and its token still fresh. */
  lemma NextIsClaimable(cfg: Settings, start: World, picked: seq<RowId>, tokens: seq<Token>, i: nat)
    requires ClaimBatch(cfg, start, picked, tokens) && i < |picked|
    ensures var v := Run(cfg, start, ClaimEvents(picked[..i], tokens[..i]));
            && Claimable(cfg, v, picked[i], tokens[i])
            && tokens[i] !in v.held && tokens[i] !in tokens[..i] && tokens[..i + 1] == tokens[..i] + [tokens[i]]
            && v.rows[picked[i]] == start.rows[picked[i]] && v.now == start.now
  {
    ClaimRunRows(cfg, start, picked[..i], tokens[..i]);
    assert picked[i] in picked && picked[i] !in picked[..i];
    assert tokens[i] in tokens && tokens[i] !in tokens[..i];
  }

  /** A lease a claiming transaction hands out is on its own row and still owns it. */
  lemma {:induction false} ClaimRunLease(cfg: Settings, start: World, picked: seq<RowId>, tokens: seq<Token>, k: nat)
    requires ClaimBatch(cfg, start, picked, tokens) && k < |picked|
    ensures var w := Run(cfg, start, ClaimEvents(picked, tokens));
            tokens[k] in w.held ==>
              && w.held[tokens[k]].claim.outboxId == picked[k] && w.held[tokens[k]].claim.leaseToken == tokens[k]
              && Outstanding(w.rows, w.held, w.held[tokens[k]].claim)
  {
    var n := |picked| - 1;
    NextIsClaimable(cfg, start, picked, tokens, n);
    ClaimOne(cfg, start, picked, tokens, n);
    assert picked[..n + 1] == picked && tokens[..n + 1] == tokens;
    if k < n {
      ClaimRunLease(cfg, start, picked[..n], tokens[..n], k);
    }
  }

  /** Claiming neither dispatches a row nor undoes a dispatch. */
  lemma {:induction false} ClaimRunDispatchesNothing(
    cfg: Settings, start: World, picked: seq<RowId>, tokens: seq<Token>, r: RowId)
    requires |tokens| == |picked| && r in start.rows
    ensures var w := Run(cfg, start, ClaimEvents(picked, tokens));
            r in w.rows && (w.rows[r].status.Dispatched? <==> start.rows[r].status.Dispatched?)
  {
    if picked != [] {
      var n := |picked| - 1;
      ClaimRunDispatchesNothing(cfg, start, picked[..n], tokens[..n], r);
      ClaimOne(cfg, start, picked, tokens, n);
      assert picked[..n + 1] == picked && tokens[..n + 1] == tokens;
    }
  }

  lemma {:induction false} HeldClaimsAreHeld(held: map<Token, Holding>, tokens: seq<Token>)
    requires Distinct(tokens)
    requires forall k :: 0 <= k < |tokens| && tokens[k] in held ==> held[tokens[k]].claim.leaseToken == tokens[k]
    ensures var claims := HeldClaims(held, tokens);
            && |claims| <= |tokens|
            && (forall i :: 0 <= i < |claims| ==> claims[i].leaseToken in tokens && claims[i].leaseToken in held
                                                  && claims[i] == held[claims[i].leaseToken].claim)
            && (forall i, j :: 0 <= i < j < |claims| ==> claims[i].leaseToken != claims[j].leaseToken)
  {
    if tokens != [] {
      var n := |tokens| - 1;
      HeldClaimsAreHeld(held, tokens[..n]);
      assert tokens == tokens[..n] + [tokens[n]] && tokens[n] !in tokens[..n];
    }
  }

  /** The claims handed out by a claiming transaction: all live, no token twice. */
  lemma ClaimRunBatch(cfg: Settings, start: World, picked: seq<RowId>, tokens: seq<Token>)
    requires ClaimBatch(cfg, start, picked, tokens)
    ensures var w := Run(cfg, start, ClaimEvents(picked, tokens));
            Batch(HeldClaims(w.held, tokens), w.rows, w.held, 0) && |HeldClaims(w.held, tokens)| <= |tokens|
  {
    var w := Run(cfg, start, ClaimEvents(picked, tokens));
    forall k | 0 <= k < |tokens| && tokens[k] in w.held
      ensures w.held[tokens[k]].claim.leaseToken == tokens[k]
              && Outstanding(w.rows, w.held, w.held[tokens[k]].claim)
    {
      ClaimRunLease(cfg, start, picked, tokens, k);
    }
    HeldClaimsAreHeld(w.held, tokens);
  }

  // ---------------------------------------------------------------- publishing among rivals

  /** One claim's turn in the dispatcher's loop: what everybody else does before the broker call, the
      clock then, the broker's answer, what everybody else does before it is recorded, and what the
      tables then hold. */
  datatype Turn = Turn(
    before: seq<Event>,
    at: Instant,
    answer: Answer,
    between: seq<Event>,
    rows: map<RowId, Row>,
    rag: map<JobId, RagJob>)

  /** Others neither claim, publish, acknowledge nor drop with these tokens. */
  predicate ByOthers(e: Event, mine: set<Token>) {
    match e
    case ClaimRow(_, token) => token !in mine
    case PublishClaim(token, _, _) => token !in mine
    case AckClaim(token) => token !in mine
    case CrashHolder(token) => token !in mine
    case _ => true
  }

  predicate AllByOthers(es: seq<Event>, mine: set<Token>) {
    forall i :: 0 <= i < |es| ==> ByOthers(es[i], mine)
  }

  /** Acknowledgements with these tokens that moved a row to dispatched. */
  function Deliveries(log: seq<Entry>, mine: set<Token>): nat {
    if log == [] then 0
    else
      var last := log[|log| - 1];
      Deliveries(log[..|log| - 1], mine) + (if last.Ack? && last.token in mine && last.dispatched && last.won then 1 else 0)
  }

  lemma DeliveriesAppend(log: seq<Entry>, e: Entry, mine: set<Token>)
    ensures Deliveries(log + [e], mine)
            == Deliveries(log, mine) + (if e.Ack? && e.token in mine && e.dispatched && e.won then 1 else 0)
  {
    assert (log + [e])[..|log|] == log;
  }

  /** The leases of these tokens and their deliveries are the same in both worlds. */
  predicate SameForMine(w: World, w': World, mine: set<Token>) {
    && w'.held.Keys <= w'.issued
    && (forall t :: t in mine ==> (t in w.held <==> t in w'.held) && (t in w.held ==> w'.held[t] == w.held[t]))
    && Deliveries(w'.log, mine) == Deliveries(w.log, mine)
  }

  lemma OthersStep(cfg: Settings, w: World, e: Event, mine: set<Token>)
    requires w.held.Keys <= w.issued && ByOthers(e, mine)
    ensures SameForMine(w, Step(cfg, w, e), mine)
  {
    hide Deliveries;
    var w' := Step(cfg, w, e);
    if w'.log != w.log {
      assert w'.log == w.log + [w'.log[|w.log|]];
      DeliveriesAppend(w.log, w'.log[|w.log|], mine);
    }
  }

  lemma {:induction false} OthersRun(cfg: Settings, w: World, es: seq<Event>, mine: set<Token>)
    requires w.held.Keys <= w.issued && AllByOthers(es, mine)
    ensures SameForMine(w, Run(cfg, w, es), mine)
  {
    if es != [] {
      hide Step, Deliveries;
      OthersRun(cfg, w, es[..|es| - 1], mine);
      OthersStep(cfg, Run(cfg, w, es[..|es| - 1]), es[|es| - 1], mine);
    }
  }

  lemma {:induction false} RunConcat(cfg: Settings, w: World, a: seq<Event>, b: seq<Event>)
    ensures Run(cfg, w, a + b) == Run(cfg, Run(cfg, w, a), b)
  {
    if b == [] {
      assert a + b == a;
    } else {
      hide Step;
      RunConcat(cfg, w, a, b[..|b| - 1]);
      assert (a + b)[..|a + b| - 1] == a + b[..|b| - 1];
    }
  }

  function PublishEvent(claim: OutboxClaim, turn: Turn): Event {
    PublishClaim(claim.leaseToken, turn.answer.accepted, turn.answer.error)
  }

  /** The world in which the answer of the turn is recorded. */
  function BeforeAck(cfg: Settings, w: World, claim: OutboxClaim, turn: Turn): World {
    Run(cfg, Step(cfg, Run(cfg, w, turn.before), PublishEvent(claim, turn)), turn.between)
  }

  function AfterTurn(cfg: Settings, w: World, claim: OutboxClaim, turn: Turn): World {
    Step(cfg, BeforeAck(cfg, w, claim, turn), AckClaim(claim.leaseToken))
  }

  function TurnEvents(claim: OutboxClaim, turn: Turn): seq<Event> {
    turn.before + [PublishEvent(claim, turn)] + turn.between + [AckClaim(claim.leaseToken)]
  }

  function Script(claims: seq<OutboxClaim>, turns: seq<Turn>): seq<Event>
    requires |claims| <= |turns|
  {
    if claims == [] then []
    else Script(claims[..|claims| - 1], turns) + TurnEvents(claims[|claims| - 1], turns[|claims| - 1])
  }

  lemma RunOne(cfg: Settings, w: World, e: Event)
    ensures Run(cfg, w, [e]) == Step(cfg, w, e)
  {
    assert [e][..0] == [] && Run(cfg, w, []) == w;
  }

  lemma TurnIsARun(cfg: Settings, w: World, claim: OutboxClaim, turn: Turn)
    ensures Run(cfg, w, TurnEvents(claim, turn)) == AfterTurn(cfg, w, claim, turn)
  {
    hide Step, Run;
    var publish, ack := [PublishEvent(claim, turn)], [AckClaim(claim.leaseToken)];
    RunConcat(cfg, w, turn.before + publish + turn.between, ack);
    RunConcat(cfg, w, turn.before + publish, turn.between);
    RunConcat(cfg, w, turn.before, publish);
    RunOne(cfg, Run(cfg, w, turn.before), publish[0]);
    RunOne(cfg, BeforeAck(cfg, w, claim, turn), ack[0]);
  }

  /** The turn reads the clock and the tables as they are, and its rivals are others. */
  predicate TurnFits(cfg: Settings, w: World, claim: OutboxClaim, turn: Turn, mine: set<Token>) {
    && AllByOthers(turn.before, mine) && AllByOthers(turn.between, mine)
    && turn.at == Run(cfg, w, turn.before).now
    && turn.rows == BeforeAck(cfg, w, claim, turn).rows && turn.rag == BeforeAck(cfg, w, claim, turn).rag
  }

  ghost predicate TurnsFit(cfg: Settings, w: World, claims: seq<OutboxClaim>, turns: seq<Turn>, mine: set<Token>)
    requires |claims| <= |turns|
  {
    forall i :: 0 <= i < |claims| ==> TurnFits(cfg, Run(cfg, w, Script(claims[..i], turns)), claims[i], turns[i], mine)
  }

  predicate Alone(turn: Turn) {
    turn.before == [] && turn.between == []
  }

  function RecordedAnswer(turn: Turn): Phase {
    if turn.answer.accepted then Accepted(turn.at) else Refused(turn.at, turn.answer.error)
  }

  /** What a turn leaves alone, and what it adds: one delivery exactly when the answer was an
      acceptance and the row still belongs to the claim when it is recorded. */
  lemma OneTurn(cfg: Settings, w: World, claim: OutboxClaim, turn: Turn, mine: set<Token>)
    requires w.held.Keys <= w.issued && claim.leaseToken in mine && TurnFits(cfg, w, claim, turn, mine)
    requires claim.leaseToken in w.held && w.held[claim.leaseToken] == Holding(claim, Claimed)
    ensures var (seen, w') := (BeforeAck(cfg, w, claim, turn), AfterTurn(cfg, w, claim, turn));
            && seen.held.Keys <= seen.issued && w'.held.Keys <= w'.issued
            && claim.leaseToken in seen.held && seen.held[claim.leaseToken] == Holding(claim, RecordedAnswer(turn))
            && (forall t :: t in mine && t != claim.leaseToken ==>
                  (t in w.held <==> t in w'.held) && (t in w.held ==> w'.held[t] == w.held[t]))
            && Deliveries(w'.log, mine)
               == Deliveries(w.log, mine) + (if turn.answer.accepted && StillOwns(seen.rows, claim) then 1 else 0)
            && (Alone(turn) ==> seen.rows == w.rows)
  {
    hide Deliveries;
    var called := Run(cfg, w, turn.before);
    OthersRun(cfg, w, turn.before, mine);
    var published := Step(cfg, called, PublishEvent(claim, turn));
    DeliveriesAppend(called.log, published.log[|called.log|], mine);
    OthersRun(cfg, published, turn.between, mine);
    var seen := BeforeAck(cfg, w, claim, turn);
    var w' := AfterTurn(cfg, w, claim, turn);
    DeliveriesAppend(seen.log, w'.log[|seen.log|], mine);
  }

  lemma DispatchedStays(cfg: Settings, w: World, es: seq<Event>)
    ensures DispatchedRows(w.rows) <= DispatchedRows(Run(cfg, w, es).rows)
  {
    forall r | r in DispatchedRows(w.rows) ensures r in DispatchedRows(Run(cfg, w, es).rows) {
      TerminalIsFinal(cfg, w, es, r);
    }
  }

  lemma DispatchedStaysInTurn(cfg: Settings, w: World, claim: OutboxClaim, turn: Turn)
    ensures DispatchedRows(w.rows) <= DispatchedRows(BeforeAck(cfg, w, claim, turn).rows)
    ensures DispatchedRows(w.rows) <= DispatchedRows(AfterTurn(cfg, w, claim, turn).rows)
  {
    hide Step;
    DispatchedStays(cfg, w, turn.before);
    var called := Run(cfg, w, turn.before);
    DispatchedStays(cfg, called, [PublishEvent(claim, turn)]);
    RunOne(cfg, called, PublishEvent(claim, turn));
    DispatchedStays(cfg, Step(cfg, called, PublishEvent(claim, turn)), turn.between);
    DispatchedStays(cfg, BeforeAck(cfg, w, claim, turn), [AckClaim(claim.leaseToken)]);
    RunOne(cfg, BeforeAck(cfg, w, claim, turn), AckClaim(claim.leaseToken));
  }

  lemma DispatchedRowsGrow(before: map<RowId, Row>, id: RowId, row: Row)
    requires id in before && before[id].status.Dispatching?
    ensures id !in DispatchedRows(before)
    ensures DispatchedRows(before[id := row]) == DispatchedRows(before) + (if row.status.Dispatched? then {id} else {})
  {
  }

  /** What recording the answer does to the set of dispatched rows. */
  lemma AckDispatches(cfg: Settings, seen: World, claim: OutboxClaim, turn: Turn)
    requires claim.leaseToken in seen.held && seen.held[claim.leaseToken] == Holding(claim, RecordedAnswer(turn))
    ensures var wins := turn.answer.accepted && StillOwns(seen.rows, claim);
            && (wins ==> claim.outboxId !in DispatchedRows(seen.rows))
            && DispatchedRows(Step(cfg, seen, AckClaim(claim.leaseToken)).rows)
               == DispatchedRows(seen.rows) + (if wins then {claim.outboxId} else {})
  {
    hide DispatchedRows;
    if StillOwns(seen.rows, claim) {
      DispatchedRowsGrow(seen.rows, claim.outboxId, AckedRow(seen.rows[claim.outboxId], seen.held[claim.leaseToken]));
    }
  }

  lemma MovedSetGrows(moved: set<RowId>, start: set<RowId>, before: set<RowId>, seen: set<RowId>, after: set<RowId>,
                      id: RowId, wins: bool)
    requires moved <= before - start && start <= before <= seen
    requires after == (if wins then seen + {id} else seen) && (wins ==> id !in seen)
    ensures var moved' := if wins then moved + {id} else moved;
            && |moved'| == |moved| + (if wins then 1 else 0) && moved' <= after - start
            && (seen == before && moved == before - start ==> moved' == after - start)
  {
  }

  /** The rows a dispatcher has moved, after one more turn: each counted once, each dispatched now
      and not before; and all there are, as long as it is alone. */
  lemma MovedGrows(cfg: Settings, start: World, w: World, seen: World, claim: OutboxClaim, turn: Turn, moved: set<RowId>)
    requires DispatchedRows(start.rows) <= DispatchedRows(w.rows) <= DispatchedRows(seen.rows)
    requires claim.leaseToken in seen.held && seen.held[claim.leaseToken] == Holding(claim, RecordedAnswer(turn))
    requires moved <= Delivered(start.rows, w.rows)
    ensures var w' := Step(cfg, seen, AckClaim(claim.leaseToken));
            var wins := turn.answer.accepted && StillOwns(seen.rows, claim);
            var moved' := if wins then moved + {claim.outboxId} else moved;
            && |moved'| == |moved| + (if wins then 1 else 0)
            && moved' <= Delivered(start.rows, w'.rows)
            && (seen.rows == w.rows && moved == Delivered(start.rows, w.rows) ==> moved' == Delivered(start.rows, w'.rows))
  {
    AckDispatches(cfg, seen, claim, turn);
    hide Step, StillOwns, DispatchedRows;
    MovedSetGrows(moved, DispatchedRows(start.rows), DispatchedRows(w.rows), DispatchedRows(seen.rows),
                  DispatchedRows(Step(cfg, seen, AckClaim(claim.leaseToken)).rows), claim.outboxId,
                  turn.answer.accepted && StillOwns(seen.rows, claim));
  }

  /** From index `i` on, the claims are leased and unpublished, and no token occurs twice. */
  ghost predicate Unspent(claims: seq<OutboxClaim>, held: map<Token, Holding>, i: nat) {
    && (forall k :: i <= k < |claims| ==>
          claims[k].leaseToken in held && held[claims[k].leaseToken] == Holding(claims[k], Claimed))
    && (forall k, j :: i <= k < j < |claims| ==> claims[k].leaseToken != claims[j].leaseToken)
  }

  /** The loop after `i` turns: where the machine is, which claims are left, and what was moved. */
  ghost predicate LoopInv(cfg: Settings, start: World, w: World, claims: seq<OutboxClaim>, turns: seq<Turn>, i: nat,
                          mine: set<Token>, moved: set<RowId>)
    requires i <= |claims| <= |turns|
  {
    && w == Run(cfg, start, Script(claims[..i], turns))
    && w.held.Keys <= w.issued && Unspent(claims, w.held, i)
    && (forall k :: 0 <= k < |claims| ==> claims[k].leaseToken in mine)
    && Deliveries(w.log, mine) - Deliveries(start.log, mine) == |moved|
    && moved <= Delivered(start.rows, w.rows)
    && ((forall k :: 0 <= k < i ==> Alone(turns[k])) ==> moved == Delivered(start.rows, w.rows))
  }

  lemma LoopStarts(cfg: Settings, w: World, claims: seq<OutboxClaim>, turns: seq<Turn>, mine: set<Token>)
    requires |claims| <= |turns| && w.held.Keys <= w.issued && Unspent(claims, w.held, 0)
    requires forall k :: 0 <= k < |claims| ==> claims[k].leaseToken in mine
    ensures LoopInv(cfg, w, w, claims, turns, 0, mine, {})
  {
  }

  lemma LoopEnds(cfg: Settings, start: World, w: World, claims: seq<OutboxClaim>, turns: seq<Turn>,
                 mine: set<Token>, moved: set<RowId>)
    requires |claims| <= |turns| && LoopInv(cfg, start, w, claims, turns, |claims|, mine, moved)
    ensures w == Run(cfg, start, Script(claims, turns))
    ensures |moved| == Deliveries(w.log, mine) - Deliveries(start.log, mine) && moved <= Delivered(start.rows, w.rows)
    ensures (forall k :: 0 <= k < |claims| ==> Alone(turns[k])) ==> moved == Delivered(start.rows, w.rows)
  {
    assert claims[..|claims|] == claims;
  }

  lemma UnspentHead(claims: seq<OutboxClaim>, held: map<Token, Holding>, i: nat)
    requires i < |claims| && Unspent(claims, held, i)
    ensures claims[i].leaseToken in held && held[claims[i].leaseToken] == Holding(claims[i], Claimed)
  {
  }

  lemma UnspentTail(claims: seq<OutboxClaim>, held: map<Token, Holding>, held': map<Token, Holding>, i: nat,
                    mine: set<Token>)
    requires i < |claims| && Unspent(claims, held, i) && forall k :: 0 <= k < |claims| ==> claims[k].leaseToken in mine
    requires forall t :: t in mine && t != claims[i].leaseToken && t in held ==> t in held' && held'[t] == held[t]
    ensures Unspent(claims, held', i + 1)
  {
  }

  /** One turn of the loop. */
  lemma LoopTurn(cfg: Settings, start: World, w: World, claims: seq<OutboxClaim>, turns: seq<Turn>, i: nat,
                 mine: set<Token>, moved: set<RowId>)
    requires i < |claims| <= |turns| && LoopInv(cfg, start, w, claims, turns, i, mine, moved)
    requires TurnsFit(cfg, start, claims, turns, mine)
    ensures TurnFits(cfg, w, claims[i], turns[i], mine) && claims[i].leaseToken in mine
    ensures claims[i].leaseToken in w.held && w.held[claims[i].leaseToken] == Holding(claims[i], Claimed)
    ensures var wins := turns[i].answer.accepted && StillOwns(turns[i].rows, claims[i]);
            var moved' := if wins then moved + {claims[i].outboxId} else moved;
            && |moved'| == |moved| + (if wins then 1 else 0)
            && LoopInv(cfg, start, AfterTurn(cfg, w, claims[i], turns[i]), claims, turns, i + 1, mine, moved')
  {
    hide Run, BeforeAck, Deliveries, Delivered, DispatchedRows, Step, Unspent;
    UnspentHead(claims, w.held, i);
    assert TurnFits(cfg, w, claims[i], turns[i], mine);
    OneTurn(cfg, w, claims[i], turns[i], mine);
    UnspentTail(claims, w.held, AfterTurn(cfg, w, claims[i], turns[i]).held, i, mine);
    DispatchedStays(cfg, start, Script(claims[..i], turns));
    DispatchedStaysInTurn(cfg, w, claims[i], turns[i]);
    MovedGrows(cfg, start, w, BeforeAck(cfg, w, claims[i], turns[i]), claims[i], turns[i], moved);
    ScriptGrows(cfg, claims, turns, i, start);
  }

  lemma ScriptGrows(cfg: Settings, claims: seq<OutboxClaim>, turns: seq<Turn>, i: nat, start: World)
    requires i < |claims| <= |turns|
    ensures Run(cfg, start, Script(claims[..i + 1], turns))
            == AfterTurn(cfg, Run(cfg, start, Script(claims[..i], turns)), claims[i], turns[i])
  {
    hide Run, AfterTurn, TurnEvents;
    assert claims[..i + 1][..i] == claims[..i] && claims[..i + 1][i] == claims[i];
    RunConcat(cfg, start, Script(claims[..i], turns), TurnEvents(claims[i], turns[i]));
    TurnIsARun(cfg, Run(cfg, start, Script(claims[..i], turns)), claims[i], turns[i]);
  }

  class OutboxStore {
    const cfg: Settings
    var rows: map<RowId, Row>
    var rag: map<JobId, RagJob>
    /** The machine the tables are part of. */
    ghost var world: World

    ghost predicate Valid()
      reads this
    {
      rows == world.rows && rag == world.rag && world.held.Keys <= world.issued
    }

    constructor (cfg: Settings, rag: map<JobId, RagJob>, now: Instant)
      ensures Valid() && this.cfg == cfg && world == Start(rag, now)
    {
      this.cfg, this.rows, this.rag, this.world := cfg, map[], rag, Start(rag, now);
    }

    method EnqueueJobEvent(id: RowId, job: JobId, jobType: string, payload: string, now: Instant)
      requires Valid() && now == world.now && id !in rows
      modifies this
      ensures Valid() && world == Step(cfg, old(world), EnqueueRow(id, job, jobType, payload))
    {
      world := Step(cfg, world, EnqueueRow(id, job, jobType, payload));
      if cfg.eager {
        return;
      }
      var found := HasJob(rows, job);
      if found {
        return;
      }
      var deadline := None;
      if job in rag {
        deadline := rag[job].deadlineAt;
      }
      rows := rows[id := Row(job, jobType, payload, Pending, 0, now, deadline, None, None, None, None, now)];
    }

    method DeadLetterRow(id: RowId, reason: string, now: Instant)
      requires id in rows
      modifies this`rows, this`rag
      ensures rows == old(rows)[id := Buried(old(rows)[id], reason)]
      ensures var job := rows[id].jobId;
              rag == if job in old(rag) then old(rag)[job := BuriedJob(old(rag)[job], reason, now)] else old(rag)
    {
      var row := rows[id];
      row := row.(status := DeadLetter);
      row := row.(lastError := Some(reason));
      row := row.(lockedAt := None);
      row := row.(leaseToken := None);
      row := row.(dispatchedAt := None);
      rows := rows[id := row];
      if row.jobId in rag {
        var job := rag[row.jobId];
        if !job.status.RagCompleted? {
          job := job.(status := RagFailed, error := Some(reason));
          job := job.(finishedAt := Some(now), heartbeatAt := Some(now));
        }
        rag := rag[row.jobId := job];
      }
    }

    /** The claiming transaction's work on one row. */
    method LeaseRow(id: RowId, token: Token, now: Instant) returns (claim: Option<OutboxClaim>)
      requires Valid() && now == world.now && Claimable(cfg, world, id, token)
      modifies this
      ensures Valid() && world == Step(cfg, old(world), ClaimRow(id, token))
      ensures rows == old(rows)[id := rows[id]] && (rows[id].status.Dispatching? || rows[id].status.DeadLetter?)
      ensures world.held == match claim
                            case None => old(world).held
                            case Some(c) => old(world).held[token := Holding(c, Claimed)]
      ensures claim.Some? ==> claim.value.leaseToken == token && claim.value.outboxId == id && StillOwns(rows, claim.value)
    {
      world := Step(cfg, world, ClaimRow(id, token));
      var row := rows[id];
      row := row.(status := Dispatching, attempts := row.attempts + 1);
      row := row.(lockedAt := Some(now), leaseToken := Some(token));
      rows := rows[id := row];
      if row.deadlineAt.Some? && row.deadlineAt.value <= now {
        DeadLetterRow(id, DEADLINE_REASON, now);
        return None;
      }
      if row.attempts > cfg.maxAttempts {
        DeadLetterRow(id, BUDGET_REASON, now);
        return None;
      }
      return Some(OutboxClaim(id, row.jobId, row.jobType, row.payload, row.attempts, token));
    }

    /** One claiming transaction over the selected rows; `tokens` are the fresh lease tokens.
        It is the machine's run of those claims and hands out exactly the leases recorded. */
    method ClaimPendingJobEvents(picked: seq<RowId>, tokens: seq<Token>, now: Instant)
      returns (claims: seq<OutboxClaim>)
      requires Valid() && now == world.now
      requires ClaimBatch(cfg, world, picked, tokens)
      modifies this
      ensures Valid() && world == Run(cfg, old(world), ClaimEvents(picked, tokens))
      ensures claims == HeldClaims(world.held, tokens)
    {
      claims := [];
      ghost var start := world;
      for i := 0 to |picked|
        invariant Valid() && world == Run(cfg, start, ClaimEvents(picked[..i], tokens[..i]))
        invariant claims == HeldClaims(world.held, tokens[..i])
      {
        NextIsClaimable(cfg, start, picked, tokens, i);
        ClaimOne(cfg, start, picked, tokens, i);
        ghost var held := world.held;
        var claim := LeaseRow(picked[i], tokens[i], now);
        HeldClaimsGrow(held, world.held, tokens[..i], tokens[i]);
        if claim.Some? {
          claims := claims + [claim.value];
        }
      }
      assert picked[..|picked|] == picked && tokens[..|picked|] == tokens;
    }

    /** The acknowledging transaction of a publish whose clock reading was `at`. */
    method AcknowledgeClaim(claim: OutboxClaim, answer: Answer, at: Instant) returns (won: bool)
      requires Valid() && claim.leaseToken in world.held
      requires world.held[claim.leaseToken]
            == Holding(claim, if answer.accepted then Accepted(at) else Refused(at, answer.error))
      modifies this
      ensures Valid() && world == Step(cfg, old(world), AckClaim(claim.leaseToken))
      ensures won <==> StillOwns(old(rows), claim)
    {
      world := Step(cfg, world, AckClaim(claim.leaseToken));
      if claim.outboxId !in rows {
        return false;
      }
      var row := rows[claim.outboxId];
      if !(row.status.Dispatching? && row.leaseToken == Some(claim.leaseToken)) {
        return false;
      }
      row := row.(status := if answer.accepted then Dispatched else Pending);
      row := row.(lockedAt := None, leaseToken := None);
      row := row.(lastError := if answer.accepted then None else Some(FailureText(answer.error)));
      if answer.accepted {
        row := row.(dispatchedAt := Some(at));
      } else {
        row := row.(availableAt := at + Min(60 * claim.attempts, 900) * SECOND, dispatchedAt := None);
      }
      rows := rows[claim.outboxId := row];
      return true;
    }

    /** The broker call for one claim and the transaction that records its answer; anybody else may
        act before either. The answer is recorded exactly when the row still belongs to the claim. */
    method PublishAndAcknowledge(claim: OutboxClaim, turn: Turn, ghost mine: set<Token>) returns (won: bool)
      requires Valid() && claim.leaseToken in mine && TurnFits(cfg, world, claim, turn, mine)
      requires claim.leaseToken in world.held && world.held[claim.leaseToken] == Holding(claim, Claimed)
      modifies this
      ensures Valid() && world == AfterTurn(cfg, old(world), claim, turn)
      ensures won <==> StillOwns(turn.rows, claim)
    {
      OneTurn(cfg, world, claim, turn, mine);
      world := BeforeAck(cfg, world, claim, turn);
      rows, rag := turn.rows, turn.rag;
      hide Run;
      won := AcknowledgeClaim(claim, turn.answer, turn.at);
    }

    /** The dispatcher's loop over its claims, among rivals. It counts the acknowledgements with its
        own tokens that moved a row to dispatched; these are so many rows, which are dispatched now and
        were not before, and nobody else's if nobody else acts. */
    method PublishAll(claims: seq<OutboxClaim>, turns: seq<Turn>, ghost mine: set<Token>)
      returns (dispatched: nat, ghost moved: set<RowId>)
      requires Valid() && |claims| <= |turns| && Unspent(claims, world.held, 0)
      requires TurnsFit(cfg, world, claims, turns, mine) && forall k :: 0 <= k < |claims| ==> claims[k].leaseToken in mine
      modifies this
      ensures Valid() && world == Run(cfg, old(world), Script(claims, turns))
      ensures dispatched == Deliveries(world.log, mine) - Deliveries(old(world).log, mine)
      ensures dispatched == |moved| && moved <= Delivered(old(rows), rows)
      ensures (forall k :: 0 <= k < |claims| ==> Alone(turns[k])) ==> moved == Delivered(old(rows), rows)
    {
      ghost var start := world;
      dispatched, moved := 0, {};
      LoopStarts(cfg, start, claims, turns, mine);
      hide Run, AfterTurn, BeforeAck, Script, Deliveries, Delivered, Unspent, TurnFits, TurnsFit, LoopInv, StillOwns;
      for i := 0 to |claims|
        invariant Valid() && LoopInv(cfg, start, world, claims, turns, i, mine, moved) && dispatched == |moved|
      {
        LoopTurn(cfg, start, world, claims, turns, i, mine, moved);
        var won := PublishAndAcknowledge(claims[i], turns[i], mine);
        if turns[i].answer.accepted && won {
          dispatched := dispatched + 1;
          moved := moved + {claims[i].outboxId};
        }
      }
      LoopEnds(cfg, start, world, claims, turns, mine, moved);
    }

    /** One dispatcher pass among rivals: it is a run of the machine, and the number it reports is the
        number of acknowledgements with its own tokens that moved a row to dispatched. */
    method DispatchPendingJobEvents(
      scan: seq<RowId>, locked: set<RowId>, limit: nat, tokens: seq<Token>, turns: seq<Turn>, now: Instant)
      returns (dispatched: nat, ghost claiming: seq<Event>, ghost publishing: seq<Event>, ghost moved: set<RowId>)
      requires Valid() && now == world.now && IsScan(rows, scan)
      requires |tokens| == limit <= |turns| && Distinct(tokens) && forall t :: t in tokens ==> t !in world.issued
      requires var picked := Select(cfg, rows, scan, locked, now, limit);
               var claimed := Run(cfg, world, ClaimEvents(picked, tokens[..|picked|]));
               var claims := HeldClaims(claimed.held, tokens[..|picked|]);
               |claims| <= |turns| && TurnsFit(cfg, claimed, claims, turns, set t | t in tokens)
      modifies this
      ensures Valid() && world == Run(cfg, Run(cfg, old(world), claiming), publishing)
      ensures var mine := set t | t in tokens;
              dispatched == Deliveries(world.log, mine) - Deliveries(old(world).log, mine)
      ensures dispatched == |moved| && moved <= Delivered(old(rows), rows)
      ensures (forall k :: 0 <= k < |turns| ==> Alone(turns[k])) ==> moved == Delivered(old(rows), rows)
    {
      ghost var mine := set t | t in tokens;
      var picked := Select(cfg, rows, scan, locked, now, limit);
      SelectIsDistinct(cfg, rows, scan, locked, now, limit);
      ghost var used := tokens[..|picked|];
      claiming := ClaimEvents(picked, used);
      ghost var start := world;
      var claims := ClaimPendingJobEvents(picked, tokens[..|picked|], now);
      ClaimedBatchIsReady(cfg, start, picked, used, mine);
      publishing := Script(claims, turns);
      hide Run, Deliveries, DispatchedRows, TurnsFit, ClaimEvents, Script, HeldClaims, Select, Unspent;
      dispatched, moved := PublishAll(claims, turns, mine);
    }
  }

  lemma BatchIsUnspent(claims: seq<OutboxClaim>, rows: map<RowId, Row>, held: map<Token, Holding>)
    requires Batch(claims, rows, held, 0)
    ensures Unspent(claims, held, 0)
  {
    forall k | 0 <= k < |claims|
      ensures claims[k].leaseToken in held && held[claims[k].leaseToken] == Holding(claims[k], Claimed)
    {
      assert Outstanding(rows, held, claims[k]);
    }
  }

  lemma {:induction false} ClaimRunDeliversNothing(cfg: Settings, start: World, picked: seq<RowId>, tokens: seq<Token>,
                                                   mine: set<Token>)
    requires |tokens| == |picked|
    ensures Deliveries(Run(cfg, start, ClaimEvents(picked, tokens)).log, mine) == Deliveries(start.log, mine)
  {
    if picked != [] {
      hide Deliveries;
      var n := |picked| - 1;
      ClaimRunDeliversNothing(cfg, start, picked[..n], tokens[..n], mine);
      ClaimOne(cfg, start, picked, tokens, n);
      assert picked[..n + 1] == picked && tokens[..n + 1] == tokens;
      var v := Run(cfg, start, ClaimEvents(picked[..n], tokens[..n]));
      var w := StepClaim(cfg, v, picked[n], tokens[n]);
      if w.log != v.log {
        DeliveriesAppend(v.log, w.log[|v.log|], mine);
      }
    }
  }

  /** What the loop finds after a claiming transaction: unspent claims with tokens of the batch, and
      neither a delivery nor a dispatched row more than before. */
  lemma ClaimedBatchIsReady(cfg: Settings, start: World, picked: seq<RowId>, tokens: seq<Token>, mine: set<Token>)
    requires ClaimBatch(cfg, start, picked, tokens) && forall t :: t in tokens ==> t in mine
    ensures var w := Run(cfg, start, ClaimEvents(picked, tokens));
            var claims := HeldClaims(w.held, tokens);
            && Unspent(claims, w.held, 0) && (forall k :: 0 <= k < |claims| ==> claims[k].leaseToken in mine)
            && Deliveries(w.log, mine) == Deliveries(start.log, mine)
            && DispatchedRows(w.rows) == DispatchedRows(start.rows)
  {
    var w := Run(cfg, start, ClaimEvents(picked, tokens));
    ClaimRunBatch(cfg, start, picked, tokens);
    ClaimRunDeliversNothing(cfg, start, picked, tokens, mine);
    BatchIsUnspent(HeldClaims(w.held, tokens), w.rows, w.held);
    ClaimRunRows(cfg, start, picked, tokens);
    forall r | r in w.rows ensures w.rows[r].status.Dispatched? <==> start.rows[r].status.Dispatched? {
      ClaimRunDispatchesNothing(cfg, start, picked, tokens, r);
    }
    forall k | 0 <= k < |tokens| && tokens[k] in w.held ensures w.held[tokens[k]].claim.leaseToken == tokens[k] {
      ClaimRunLease(cfg, start, picked, tokens, k);
    }
    HeldClaimsAreHeld(w.held, tokens);
  }
}
