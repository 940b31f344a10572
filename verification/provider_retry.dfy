/**
 Posting to a provider with retries under one deadline. What each turn of the loop meets - the
 clock, the answer, the proposed pause - is its environment; times are in seconds.
 */
module ProviderRetry {
  import opened Prelude

  const MAX_HTTP_RETRIES: nat := 3

  datatype Answer = Response(status: int) | TimedOut | TransportFailed | OtherError

  /** The clock before the attempt, the answer, the clock after it, and the pause to be made. */
  datatype Turn = Turn(before: real, answer: Answer, after: real, delay: real)

  datatype Settings = Settings(maxRetries: int, timeoutSeconds: real, idempotent: bool)

  datatype Metadata = Metadata(attempts: nat, retries: nat, lastStatus: Option<int>, deadlineExceeded: bool)

  datatype Outcome =
    | Returned(status: int, metadata: Metadata)
    | DeadlineExceeded(metadata: Metadata)
    | TransportError(metadata: Metadata)
    | Escaped

  function MaxRetries(cfg: Settings): nat {
    Min(MAX_HTTP_RETRIES, Max(0, cfg.maxRetries))
  }

  function Budget(cfg: Settings): (seconds: real)
    ensures seconds > 0.0
  {
    if cfg.timeoutSeconds < 0.001 then 0.001 else cfg.timeoutSeconds
  }

  predicate RetryableStatus(status: int) {
    status in {429, 502, 503, 504}
  }

  predicate MayRetry(answer: Answer) {
    match answer
    case Response(status) => RetryableStatus(status)
    case OtherError => false
    case _ => true
  }

  function StatusOf(answer: Answer): Option<int> {
    match answer
    case Response(status) => Some(status)
    case _ => None
  }

  /** The turns happen in order, each pause lasts, and pauses are not negative. */
  predicate ClockRuns(start: real, turns: seq<Turn>) {
    && (turns != [] ==> start <= turns[0].before)
    && (forall i :: 0 <= i < |turns| ==> turns[i].before <= turns[i].after && 0.0 <= turns[i].delay)
    && (forall i {:trigger turns[i]} :: 0 < i < |turns| ==> turns[i - 1].after + turns[i - 1].delay <= turns[i].before)
  }

  /** The turn is followed by a pause and another turn. */
  predicate GoesOn(cfg: Settings, deadline: real, turns: seq<Turn>, i: nat)
    requires i < |turns|
  {
    && turns[i].before < deadline
    && cfg.idempotent && i < MaxRetries(cfg) && MayRetry(turns[i].answer)
    && turns[i].delay < deadline - turns[i].after
  }

  /** Every turn before the `k`th goes on and the `k`th does not. */
  predicate EndsAt(cfg: Settings, deadline: real, turns: seq<Turn>, k: nat)
    requires k < |turns|
  {
    !GoesOn(cfg, deadline, turns, k) && forall i :: 0 <= i < k ==> GoesOn(cfg, deadline, turns, i)
  }

  /** How many posts are made when the loop ends in turn `k`: the last one only if it found time. */
  function PostsBy(deadline: real, turns: seq<Turn>, k: nat): nat
    requires k < |turns|
  {
    if turns[k].before < deadline then k + 1 else k
  }

  /** What the caller sees when the loop ends in turn `k` after `posts` posts. A deadline error may
      report the status of the answer that was not worth waiting to retry. */
  predicate Justified(cfg: Settings, deadline: real, turns: seq<Turn>, k: nat, posts: nat, outcome: Outcome)
    requires k < |turns|
  {
    var t := turns[k];
    var lastChance := !cfg.idempotent || k == MaxRetries(cfg);
    match outcome
    case Returned(status, m) =>
      && posts == k + 1 && t.answer == Response(status)
      && (lastChance || !RetryableStatus(status))
      && m == Metadata(posts, posts - 1, Some(status), false)
    case DeadlineExceeded(m) =>
      && (posts == k ==> m == Metadata(posts, Max(0, posts - 1), None, true))
      && (posts == k + 1 ==>
            && m == Metadata(posts, posts - 1, StatusOf(t.answer), false)
            && (t.answer.TimedOut? || !lastChance) && MayRetry(t.answer)
            && (lastChance || deadline - t.after <= t.delay))
    case TransportError(m) =>
      posts == k + 1 && t.answer.TransportFailed? && lastChance && m == Metadata(posts, posts - 1, None, false)
    case Escaped => posts == k + 1 && t.answer.OtherError?
  }

  function Total(turns: seq<Turn>): real {
    if turns == [] then 0.0 else Total(turns[..|turns| - 1]) + turns[|turns| - 1].delay
  }

  /** The clauses above leave no choice: where the loop ends and what the caller sees are settled
      by the turns. */
  lemma OutcomeIsDetermined(cfg: Settings, deadline: real, turns: seq<Turn>, k: nat, o: Outcome, k': nat, o': Outcome)
    requires k < |turns| && k' < |turns| && k <= MaxRetries(cfg) && k' <= MaxRetries(cfg)
    requires EndsAt(cfg, deadline, turns, k) && EndsAt(cfg, deadline, turns, k')
    requires Justified(cfg, deadline, turns, k, PostsBy(deadline, turns, k), o)
    requires Justified(cfg, deadline, turns, k', PostsBy(deadline, turns, k'), o')
    ensures k == k' && o == o'
  {
    if k < k' || k' < k {
      assert false;
    }
  }

  /** The posts: at most one more than the configured retries, of which three count; one at most
      when the request is not idempotent; each begun before the deadline; and none after an answer
      that may not be retried. */
  lemma PostsAreBounded(cfg: Settings, deadline: real, turns: seq<Turn>, k: nat)
    requires k < |turns| && k <= MaxRetries(cfg) && EndsAt(cfg, deadline, turns, k)
    ensures var posts := PostsBy(deadline, turns, k);
            && posts <= 1 + Min(3, Max(0, cfg.maxRetries)) && (!cfg.idempotent ==> posts <= 1)
            && (forall i :: 0 <= i < posts ==> turns[i].before < deadline)
            && (forall i :: 0 <= i < posts - 1 ==> MayRetry(turns[i].answer))
  {
    assert k > 0 ==> GoesOn(cfg, deadline, turns, 0);
    forall i | 0 <= i < k ensures turns[i].before < deadline && MayRetry(turns[i].answer) {
      assert GoesOn(cfg, deadline, turns, i);
    }
  }

  /** Which turns go on: those of an idempotent request that found time, met an answer worth retrying,
      have a retry left of three at the most, and have time for the pause. */
  lemma GoesOnMeans(cfg: Settings, start: real, turns: seq<Turn>, i: nat)
    requires i < |turns|
    ensures var deadline := start + (if cfg.timeoutSeconds < 0.001 then 0.001 else cfg.timeoutSeconds);
            GoesOn(cfg, start + Budget(cfg), turns, i)
            <==> && cfg.idempotent && i < 3 && i < cfg.maxRetries && turns[i].before < deadline
                 && turns[i].after + turns[i].delay < deadline
                 && match turns[i].answer
                    case Response(status) => status == 429 || status == 502 || status == 503 || status == 504
                    case TimedOut => true
                    case TransportFailed => true
                    case OtherError => false
  {
  }

  /** Retries are made while they may be: with no end to retryable answers in time, an idempotent
      request is posted once more than the configured retries, of which three count. */
  lemma RetriesAreUsedUp(cfg: Settings, start: real, turns: seq<Turn>, k: nat)
    requires k < |turns| && k <= MaxRetries(cfg) && EndsAt(cfg, start + Budget(cfg), turns, k) && cfg.idempotent
    requires var deadline := start + (if cfg.timeoutSeconds < 0.001 then 0.001 else cfg.timeoutSeconds);
             turns[k].before < deadline && turns[k].after + turns[k].delay < deadline
    requires turns[k].answer.TimedOut? || turns[k].answer.TransportFailed? || turns[k].answer == Response(503)
    ensures PostsBy(start + Budget(cfg), turns, k)
            == 1 + (if cfg.maxRetries < 0 then 0 else if cfg.maxRetries > 3 then 3 else cfg.maxRetries)
  {
    GoesOnMeans(cfg, start, turns, k);
  }

  /** What the caller sees, by the last turn: a deadline error where the clock has run out; an answer
      that is final, or the last that may be asked for, as it is; and a deadline error again where the
      pause would not fit. */
  lemma WhatTheCallerSees(cfg: Settings, start: real, turns: seq<Turn>, k: nat, outcome: Outcome)
    requires k < |turns| && k <= MaxRetries(cfg) && EndsAt(cfg, start + Budget(cfg), turns, k)
    requires Justified(cfg, start + Budget(cfg), turns, k, PostsBy(start + Budget(cfg), turns, k), outcome)
    ensures var deadline := start + (if cfg.timeoutSeconds < 0.001 then 0.001 else cfg.timeoutSeconds);
            var last := !cfg.idempotent || k >= 3 || k >= cfg.maxRetries;
            if turns[k].before >= deadline
            then outcome == DeadlineExceeded(Metadata(k, if k == 0 then 0 else k - 1, None, true))
            else match turns[k].answer
                 case OtherError => outcome == Escaped
                 case TimedOut => outcome == DeadlineExceeded(Metadata(k + 1, k, None, false))
                 case TransportFailed =>
                   outcome == if last then TransportError(Metadata(k + 1, k, None, false))
                              else DeadlineExceeded(Metadata(k + 1, k, None, false))
                 case Response(status) =>
                   outcome == if last || !(status == 429 || status == 502 || status == 503 || status == 504)
                              then Returned(status, Metadata(k + 1, k, Some(status), false))
                              else DeadlineExceeded(Metadata(k + 1, k, Some(status), false))
  {
    GoesOnMeans(cfg, start, turns, k);
  }

  lemma {:induction false} PausesAddUp(start: real, turns: seq<Turn>, k: nat)
    requires ClockRuns(start, turns) && k < |turns|
    ensures start + Total(turns[..k]) <= turns[k].before
  {
    if k > 0 {
      assert turns[..k][..k - 1] == turns[..k - 1];
      assert turns[..k][k - 1] == turns[k - 1];
      PausesAddUp(start, turns, k - 1);
    }
  }

  /** The pauses: each is shorter than what is left before the deadline, so all of them together
      are shorter than the whole budget. */
  lemma PausesFitTheBudget(cfg: Settings, start: real, turns: seq<Turn>, k: nat)
    requires ClockRuns(start, turns) && k < |turns| && EndsAt(cfg, start + Budget(cfg), turns, k)
    ensures forall i :: 0 <= i < k ==> turns[i].delay < start + Budget(cfg) - turns[i].after
    ensures Total(turns[..k]) < Budget(cfg)
  {
    forall i | 0 <= i < k ensures turns[i].delay < start + Budget(cfg) - turns[i].after {
      assert GoesOn(cfg, start + Budget(cfg), turns, i);
    }
    if k > 0 {
      PausesAddUp(start, turns, k - 1);
      assert turns[..k][..k - 1] == turns[..k - 1];
      assert turns[..k][k - 1] == turns[k - 1];
    }
  }

  /** Reported attempts are posts made, and reported retries all but the first of them. */
  lemma MetadataIsTrue(cfg: Settings, deadline: real, turns: seq<Turn>, k: nat, outcome: Outcome)
    requires k < |turns| && Justified(cfg, deadline, turns, k, PostsBy(deadline, turns, k), outcome)
    ensures !outcome.Escaped? ==>
              && outcome.metadata.attempts == PostsBy(deadline, turns, k)
              && outcome.metadata.retries == Max(0, PostsBy(deadline, turns, k) - 1)
  {
  }

  /** The loop, once it has started posting, always returns or raises from inside. */
  method PostWithRetry(cfg: Settings, start: real, turns: seq<Turn>)
    returns (outcome: Outcome, posts: nat, sleeps: seq<real>)
    requires ClockRuns(start, turns) && |turns| > MaxRetries(cfg)
    ensures var k := |sleeps|;
            && k <= MaxRetries(cfg) && EndsAt(cfg, start + Budget(cfg), turns, k)
            && posts == PostsBy(start + Budget(cfg), turns, k)
            && Justified(cfg, start + Budget(cfg), turns, k, posts, outcome)
            && forall i :: 0 <= i < k ==> sleeps[i] == turns[i].delay
  {
    var deadline := start + Budget(cfg);
    var maxRetries := MaxRetries(cfg);
    posts, sleeps := 0, [];
    for attempt := 0 to maxRetries + 1
      invariant posts == attempt == |sleeps| <= maxRetries
      invariant forall i :: 0 <= i < attempt ==> GoesOn(cfg, deadline, turns, i) && sleeps[i] == turns[i].delay
    {
      var turn := turns[attempt];
      var remaining := deadline - turn.before;
      if remaining <= 0.0 {
        return DeadlineExceeded(Metadata(attempt, Max(0, attempt - 1), None, true)), posts, sleeps;
      }
      var metadata := Metadata(attempt + 1, attempt, None, false);
      posts := posts + 1;
      var late := turn.delay >= (if deadline - turn.after < 0.0 then 0.0 else deadline - turn.after);
      match turn.answer {
        case OtherError =>
          return Escaped, posts, sleeps;
        case TimedOut =>
          if !cfg.idempotent || attempt == maxRetries || late {
            return DeadlineExceeded(metadata), posts, sleeps;
          }
        case TransportFailed =>
          if !cfg.idempotent || attempt == maxRetries {
            return TransportError(metadata), posts, sleeps;
          }
          if late {
            return DeadlineExceeded(metadata), posts, sleeps;
          }
        case Response(status) =>
          metadata := metadata.(lastStatus := Some(status));
          if !cfg.idempotent || !RetryableStatus(status) || attempt == maxRetries {
            return Returned(status, metadata), posts, sleeps;
          }
          if late {
            return DeadlineExceeded(metadata), posts, sleeps;
          }
      }
      sleeps := sleeps + [turn.delay];
      assert GoesOn(cfg, deadline, turns, attempt);
    }
    assert false;
  }
}
