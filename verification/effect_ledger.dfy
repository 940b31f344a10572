/**
 The ledger of externally visible effects: an effect is claimed before it is executed and its
 outcome recorded afterwards, so that a repeated delivery does not repeat it.

 Each ledger transaction is one atomic event. Any caller may begin, complete or vanish at any
 time; nothing ties a completion to the claim it belongs to.
 */
module EffectLedger {
  import opened Prelude

  /** `digest` stands for the hex SHA-256 digest of a string. */
  datatype Settings = Settings(leaseSeconds: nat, digest: string -> string)

  datatype Status = InFlight | Succeeded | Failed

  datatype Key = Key(operationId: string, effectType: string)

  /** An empty `providerKey` stands for a missing one. */
  datatype Effect = Effect(
    status: Status,
    payloadHash: string,
    attempts: nat,
    providerKey: string,
    lastError: Option<string>,
    startedAt: Instant,
    completedAt: Option<Instant>)

  datatype EffectClaim = EffectClaim(shouldExecute: bool, status: Status, attempts: nat, providerKey: string)

  datatype Error = PayloadMismatch | UnsupportedStatus

  datatype Entry =
    | Granted(key: Key, at: Instant, payloadHash: string, providerKey: string)
    | RecordedSuccess(key: Key, at: Instant)
    | RecordedFailure(key: Key, at: Instant)

  datatype World = World(effects: map<Key, Effect>, now: Instant, log: seq<Entry>)

  datatype Event =
    | Begin(key: Key, payloadHash: string, suggestedKey: string)
    | Complete(key: Key, status: Status, error: Option<string>)
    | Tick(elapsed: nat)

  // ---------------------------------------------------------------- the transitions

  function OrElse(s: string, default: string): string {
    if s != "" then s else default
  }

  function ProviderKeyFor(cfg: Settings, operationId: string): string {
    "<" + cfg.digest(operationId) + "@generic-app.invalid>"
  }

  function RequestedKey(cfg: Settings, key: Key, suggestedKey: string): string {
    OrElse(suggestedKey, ProviderKeyFor(cfg, key.operationId))
  }

  predicate IsStale(cfg: Settings, effect: Effect, now: Instant) {
    effect.startedAt <= now - cfg.leaseSeconds * SECOND
  }

  /** The record says nobody is at work on the effect and it has not been done. */
  predicate Open(cfg: Settings, effect: Effect, now: Instant) {
    effect.status.Failed? || (effect.status.InFlight? && IsStale(cfg, effect, now))
  }

  function FirstEffect(payloadHash: string, providerKey: string, now: Instant): Effect {
    Effect(InFlight, payloadHash, 1, providerKey, None, now, None)
  }

  function Reopened(effect: Effect, providerKey: string, now: Instant): Effect {
    effect.(status := InFlight, attempts := effect.attempts + 1, providerKey := OrElse(effect.providerKey, providerKey),
            lastError := None, startedAt := now, completedAt := None)
  }

  function Completed(effect: Effect, status: Status, error: Option<string>, now: Instant): Effect {
    effect.(status := status, lastError := Shortened(error), completedAt := Some(now))
  }

  function Shortened(error: Option<string>): Option<string> {
    if error.None? || error.value == "" then None
    else Some(if |error.value| <= 500 then error.value else error.value[..500])
  }

  function ClaimFrom(effect: Effect, shouldExecute: bool, fallback: string): EffectClaim {
    EffectClaim(shouldExecute, effect.status, effect.attempts, OrElse(effect.providerKey, fallback))
  }

  /** One beginning: the ledger after it and what the caller is told. */
  function StepBegin(cfg: Settings, w: World, e: Event): (World, Result<EffectClaim, Error>)
    requires e.Begin?
  {
    var requested := RequestedKey(cfg, e.key, e.suggestedKey);
    if e.key !in w.effects then
      var effect := FirstEffect(e.payloadHash, requested, w.now);
      (w.(effects := w.effects[e.key := effect],
          log := w.log + [Granted(e.key, w.now, e.payloadHash, requested)]),
       Success(ClaimFrom(effect, true, requested)))
    else if w.effects[e.key].payloadHash != e.payloadHash then (w, Failure(PayloadMismatch))
    else if !Open(cfg, w.effects[e.key], w.now) then (w, Success(ClaimFrom(w.effects[e.key], false, requested)))
    else
      var effect := Reopened(w.effects[e.key], requested, w.now);
      (w.(effects := w.effects[e.key := effect],
          log := w.log + [Granted(e.key, w.now, effect.payloadHash, effect.providerKey)]),
       Success(ClaimFrom(effect, true, requested)))
  }

  function StepComplete(w: World, e: Event): World
    requires e.Complete?
  {
    if e.status.InFlight? || e.key !in w.effects || w.effects[e.key].status.Succeeded? then w
    else
      w.(effects := w.effects[e.key := Completed(w.effects[e.key], e.status, e.error, w.now)],
         log := w.log + [if e.status.Succeeded? then RecordedSuccess(e.key, w.now) else RecordedFailure(e.key, w.now)])
  }

  function Step(cfg: Settings, w: World, e: Event): World {
    match e
    case Begin(_, _, _) => StepBegin(cfg, w, e).0
    case Complete(_, _, _) => StepComplete(w, e)
    case Tick(elapsed) => w.(now := w.now + elapsed)
  }

  function Run(cfg: Settings, w: World, es: seq<Event>): World {
    if es == [] then w
    else Step(cfg, Run(cfg, w, es[..|es| - 1]), es[|es| - 1])
  }

  function Start(now: Instant): World {
    World(map[], now, [])
  }

  // ---------------------------------------------------------------- reading the history

  function Grants(log: seq<Entry>, key: Key): nat {
    if log == [] then 0
    else
      var last := log[|log| - 1];
      Grants(log[..|log| - 1], key) + (if last.Granted? && last.key == key then 1 else 0)
  }

  /** The position of the last entry about the key, or -1. */
  function LastIndex(log: seq<Entry>, key: Key): (k: int)
    ensures -1 <= k < |log|
    ensures k >= 0 ==> log[k].key == key
    ensures forall i :: k < i < |log| ==> log[i].key != key
  {
    if log == [] then -1
    else if log[|log| - 1].key == key then |log| - 1
    else LastIndex(log[..|log| - 1], key)
  }

  /** Two grants of one key with a recorded failure or a full lease between them. */
  ghost predicate Separated(cfg: Settings, log: seq<Entry>, i: nat, j: nat)
    requires i < j < |log|
  {
    || log[j].at >= log[i].at + cfg.leaseSeconds * SECOND
    || (exists k :: i < k < j && log[k].RecordedFailure? && log[k].key == log[i].key)
  }

  predicate GrantsOf(log: seq<Entry>, i: nat, j: nat) {
    i < j < |log| && log[i].Granted? && log[j].Granted? && log[i].key == log[j].key
  }

  // ---------------------------------------------------------------- the invariant

  /** The record agrees with the last thing that happened to the key. */
  ghost predicate KeyInv(w: World, key: Key)
    requires key in w.effects
  {
    var effect := w.effects[key];
    var k := LastIndex(w.log, key);
    && k >= 0
    && effect.attempts == Grants(w.log, key)
    && effect.providerKey != ""
    && match effect.status
       case InFlight => w.log[k].Granted? && w.log[k].at == effect.startedAt
       case Succeeded => w.log[k].RecordedSuccess?
       case Failed => w.log[k].RecordedFailure?
  }

  ghost predicate LogInv(w: World) {
    && (forall i :: 0 <= i < |w.log| ==> w.log[i].at <= w.now && w.log[i].key in w.effects)
    && (forall i, j :: 0 <= i < j < |w.log| ==> w.log[i].at <= w.log[j].at)
    && (forall i :: 0 <= i < |w.log| && w.log[i].Granted? ==>
          && w.log[i].payloadHash == w.effects[w.log[i].key].payloadHash
          && w.log[i].providerKey == w.effects[w.log[i].key].providerKey)
  }

  ghost predicate Inv(cfg: Settings, w: World) {
    && (forall key :: key in w.effects ==> KeyInv(w, key))
    && LogInv(w)
    && (forall i: nat, j: nat :: GrantsOf(w.log, i, j) ==> Separated(cfg, w.log, i, j))
  }

  lemma KeyAppend(log: seq<Entry>, e: Entry, key: Key)
    ensures Grants(log + [e], key) == Grants(log, key) + (if e.Granted? && e.key == key then 1 else 0)
    ensures LastIndex(log + [e], key) == if e.key == key then |log| else LastIndex(log, key)
  {
    assert (log + [e])[..|log|] == log;
  }

  lemma {:induction false} NoEntryNoGrant(log: seq<Entry>, key: Key)
    requires LastIndex(log, key) == -1
    ensures Grants(log, key) == 0
  {
    if log != [] {
      assert log[|log| - 1].key != key;
      NoEntryNoGrant(log[..|log| - 1], key);
    }
  }

  /** What a step that writes changes: one entry, one record, never its payload or key. */
  lemma StepFootprint(cfg: Settings, w: World, e: Event)
    requires forall key :: key in w.effects ==> KeyInv(w, key)
    ensures var w' := Step(cfg, w, e);
            && w.now <= w'.now
            && (w'.log == w.log ==> w'.effects == w.effects)
            && (w'.log != w.log ==>
                  && !e.Tick? && |w'.log| == |w.log| + 1 && w'.log == w.log + [w'.log[|w.log|]]
                  && var entry := w'.log[|w.log|];
                     && entry.at == w.now && entry.key == e.key && entry.key in w'.effects
                     && w'.effects == w.effects[entry.key := w'.effects[entry.key]]
                     && (entry.key in w.effects ==>
                           && w'.effects[entry.key].payloadHash == w.effects[entry.key].payloadHash
                           && w'.effects[entry.key].providerKey == w.effects[entry.key].providerKey)
                     && (entry.Granted? ==> && e.Begin?
                                            && entry.payloadHash == w'.effects[entry.key].payloadHash
                                            && entry.providerKey == w'.effects[entry.key].providerKey))
  {
    assert e.Begin? && e.key in w.effects ==> KeyInv(w, e.key);
    assert e.Complete? && e.key in w.effects ==> KeyInv(w, e.key);
  }

  lemma WrittenKeyAgrees(cfg: Settings, w: World, e: Event, key: Key)
    requires key in w.effects ==> KeyInv(w, key)
    requires key !in w.effects ==> LastIndex(w.log, key) == -1
    requires !e.Tick? && e.key == key && Step(cfg, w, e).log != w.log
    ensures key in Step(cfg, w, e).effects && KeyInv(Step(cfg, w, e), key)
  {
    hide Grants, LastIndex, FirstGrant;
    var w' := Step(cfg, w, e);
    var entry := w'.log[|w.log|];
    assert w'.log == w.log + [entry];
    KeyAppend(w.log, entry, key);
    if key !in w.effects {
      NoEntryNoGrant(w.log, key);
    }
  }

  lemma StepKeepsKey(cfg: Settings, w: World, e: Event, key: Key)
    requires forall k :: k in w.effects ==> KeyInv(w, k)
    requires key !in w.effects ==> LastIndex(w.log, key) == -1
    requires key in Step(cfg, w, e).effects
    ensures KeyInv(Step(cfg, w, e), key)
  {
    hide Grants, LastIndex, FirstGrant;
    var w' := Step(cfg, w, e);
    StepFootprint(cfg, w, e);
    if w'.log == w.log {
      assert KeyInv(w, key);
    } else if e.key == key {
      WrittenKeyAgrees(cfg, w, e, key);
    } else {
      assert w'.log[|w.log|].key != key && KeyInv(w, key);
      KeyAppend(w.log, w'.log[|w.log|], key);
    }
  }

  lemma StepKeepsLog(cfg: Settings, w: World, e: Event)
    requires LogInv(w) && forall key :: key in w.effects ==> KeyInv(w, key)
    ensures LogInv(Step(cfg, w, e))
  {
    StepFootprint(cfg, w, e);
    var w' := Step(cfg, w, e);
    forall i | 0 <= i < |w'.log|
      ensures w'.log[i].at <= w'.now && w'.log[i].key in w'.effects
      ensures w'.log[i].Granted? ==> && w'.log[i].payloadHash == w'.effects[w'.log[i].key].payloadHash
                                     && w'.log[i].providerKey == w'.effects[w'.log[i].key].providerKey
    {
      assert i < |w.log| ==> w'.log[i] == w.log[i];
    }
  }

  /** A grant on a record that exists comes after a failure or a full lease. */
  lemma NewGrantIsSeparated(cfg: Settings, w: World, e: Event, i: nat)
    requires Inv(cfg, w) && e.Begin? && Step(cfg, w, e).log != w.log
    requires i < |w.log| && w.log[i].Granted? && w.log[i].key == e.key
    ensures Separated(cfg, Step(cfg, w, e).log, i, |w.log|)
  {
    var w' := Step(cfg, w, e);
    assert e.key in w.effects && KeyInv(w, e.key);
    var k := LastIndex(w.log, e.key);
    assert i <= k;
    assert w'.log[i] == w.log[i] && w'.log[k] == w.log[k];
    if w.effects[e.key].status.InFlight? && i < k {
      assert w.log[i].at <= w.log[k].at;
    }
  }

  lemma StepKeepsSeparation(cfg: Settings, w: World, e: Event, i: nat, j: nat)
    requires Inv(cfg, w) && GrantsOf(Step(cfg, w, e).log, i, j)
    ensures Separated(cfg, Step(cfg, w, e).log, i, j)
  {
    StepFootprint(cfg, w, e);
    var log := Step(cfg, w, e).log;
    assert log[i] == w.log[i];
    if j < |w.log| {
      assert GrantsOf(w.log, i, j) && Separated(cfg, w.log, i, j);
      assert forall k :: i < k <= j ==> log[k] == w.log[k];
    } else {
      NewGrantIsSeparated(cfg, w, e, i);
    }
  }

  lemma StepKeepsInv(cfg: Settings, w: World, e: Event)
    requires Inv(cfg, w)
    ensures Inv(cfg, Step(cfg, w, e))
  {
    var w' := Step(cfg, w, e);
    StepKeepsLog(cfg, w, e);
    forall key | key in w'.effects ensures KeyInv(w', key) {
      assert key in w.effects ==> KeyInv(w, key);
      StepKeepsKey(cfg, w, e, key);
    }
    forall i: nat, j: nat | GrantsOf(w'.log, i, j) ensures Separated(cfg, w'.log, i, j) {
      StepKeepsSeparation(cfg, w, e, i, j);
    }
  }

  lemma {:induction false} RunKeepsInv(cfg: Settings, w: World, es: seq<Event>)
    requires Inv(cfg, w)
    ensures Inv(cfg, Run(cfg, w, es))
  {
    if es != [] {
      RunKeepsInv(cfg, w, es[..|es| - 1]);
      StepKeepsInv(cfg, Run(cfg, w, es[..|es| - 1]), es[|es| - 1]);
    }
  }

  // ---------------------------------------------------------------- main results

  /** Two executions of one effect, in any run at all: a failure was recorded between them or a
      full lease passed; and both carry the same provider key and the same payload. */
  lemma GrantsAreSeparated(cfg: Settings, now: Instant, es: seq<Event>, i: nat, j: nat)
    requires GrantsOf(Run(cfg, Start(now), es).log, i, j)
    ensures var log := Run(cfg, Start(now), es).log;
            && Separated(cfg, log, i, j)
            && log[i].payloadHash == log[j].payloadHash && log[i].providerKey == log[j].providerKey
            && log[i].providerKey != ""
  {
    RunKeepsInv(cfg, Start(now), es);
    var w := Run(cfg, Start(now), es);
    assert KeyInv(w, w.log[i].key);
  }

  /** The attempts counter of the record is the number of executions handed out. */
  lemma {:induction false} AttemptsCountGrants(cfg: Settings, now: Instant, es: seq<Event>, key: Key)
    ensures var w := Run(cfg, Start(now), es);
            Grants(w.log, key) == if key in w.effects then w.effects[key].attempts else 0
  {
    RunKeepsInv(cfg, Start(now), es);
    var w := Run(cfg, Start(now), es);
    if key in w.effects {
      assert KeyInv(w, key);
    } else {
      NoEntryNoGrant(w.log, key);
    }
  }

  /** What a caller is told to do: execute exactly when the effect is unknown, failed, or claimed
      more than a lease ago; never under another payload, never after a success. */
  lemma WhoExecutes(cfg: Settings, w: World, e: Event)
    requires e.Begin?
    ensures var answer := StepBegin(cfg, w, e).1;
            && (answer.Failure? <==> e.key in w.effects && w.effects[e.key].payloadHash != e.payloadHash)
            && (answer.Success? && answer.value.shouldExecute <==>
                  e.key !in w.effects || (w.effects[e.key].payloadHash == e.payloadHash && !w.effects[e.key].status.Succeeded?
                                          && (w.effects[e.key].status.InFlight? ==>
                                                w.now - w.effects[e.key].startedAt >= cfg.leaseSeconds * SECOND)))
            && (answer.Success? ==> answer.value.providerKey != "")
            && (answer.Success? && !answer.value.shouldExecute ==> StepBegin(cfg, w, e).0 == w)
  {
  }

  lemma StepAfterSuccess(cfg: Settings, w: World, e: Event, key: Key)
    requires key in w.effects && w.effects[key].status.Succeeded?
    ensures var w' := Step(cfg, w, e);
            && key in w'.effects && w'.effects[key] == w.effects[key]
            && Grants(w'.log, key) == Grants(w.log, key)
  {
    hide Grants, LastIndex, FirstGrant;
    var w' := Step(cfg, w, e);
    if w'.log != w.log {
      var entry := w'.log[|w.log|];
      assert w'.log == w.log + [entry] && (entry.key != key || !entry.Granted?);
      KeyAppend(w.log, entry, key);
    }
  }

  /** A recorded success is final: no later completion or claim changes the record and nobody is
      told to execute again. */
  lemma {:induction false} SuccessIsFinal(cfg: Settings, w: World, es: seq<Event>, key: Key)
    requires key in w.effects && w.effects[key].status.Succeeded?
    ensures var w' := Run(cfg, w, es);
            && key in w'.effects && w'.effects[key] == w.effects[key]
            && Grants(w'.log, key) == Grants(w.log, key)
  {
    if es != [] {
      SuccessIsFinal(cfg, w, es[..|es| - 1], key);
      StepAfterSuccess(cfg, Run(cfg, w, es[..|es| - 1]), es[|es| - 1], key);
    }
  }

  /** What one beginning records and tells, in any run: an execution is a record that is in flight from
      now on, on one attempt more, under the key it had or else the one asked for; and the caller is
      told the state, the attempts and the key that are on record. */
  lemma BeginningIsRecorded(cfg: Settings, now: Instant, es: seq<Event>, e: Event)
    requires e.Begin? && StepBegin(cfg, Run(cfg, Start(now), es), e).1.Success?
    ensures var w := Run(cfg, Start(now), es);
            var (w', answer) := StepBegin(cfg, w, e);
            && e.key in w'.effects && w'.effects == w.effects[e.key := w'.effects[e.key]] && w'.now == w.now
            && var (effect, told) := (w'.effects[e.key], answer.value);
               && told.status == effect.status && told.attempts == effect.attempts && told.providerKey == effect.providerKey
               && effect.payloadHash == e.payloadHash
               && (told.shouldExecute ==>
                     && effect.status.InFlight? && effect.startedAt == w.now && effect.completedAt.None?
                     && effect.lastError.None?
                     && effect.attempts == (if e.key in w.effects then w.effects[e.key].attempts else 0) + 1
                     && effect.providerKey == (if e.key in w.effects then w.effects[e.key].providerKey
                                               else if e.suggestedKey != "" then e.suggestedKey
                                               else "<" + cfg.digest(e.key.operationId) + "@generic-app.invalid>"))
  {
    RunKeepsInv(cfg, Start(now), es);
    var w := Run(cfg, Start(now), es);
    assert e.key in w.effects ==> KeyInv(w, e.key);
  }

  /** What a completion records: it changes the ledger if and only if it reports an outcome of an
      effect that is on record and has not succeeded; then that effect has exactly that outcome. */
  lemma CompletionIsRecorded(cfg: Settings, w: World, key: Key, status: Status, error: Option<string>)
    ensures var w' := Step(cfg, w, Complete(key, status, error));
            && (w' != w <==> !status.InFlight? && key in w.effects && !w.effects[key].status.Succeeded?)
            && (w' != w ==>
                  && key in w'.effects && w'.effects.Keys == w.effects.Keys && w'.now == w.now
                  && (forall k :: k in w.effects && k != key ==> w'.effects[k] == w.effects[k])
                  && var (before, after) := (w.effects[key], w'.effects[key]);
                     && after.status == status && after.completedAt == Some(w.now)
                     && (after.lastError.Some? <==> error.GetOr("") != "")
                     && (after.lastError.Some? ==>
                           after.lastError.value <= error.value && |after.lastError.value| == Min(|error.value|, 500))
                     && after.payloadHash == before.payloadHash && after.attempts == before.attempts
                     && after.providerKey == before.providerKey && after.startedAt == before.startedAt)
  {
    var w' := Step(cfg, w, Complete(key, status, error));
    assert w' != w ==> |w'.log| == |w.log| + 1;
    assert !status.InFlight? && key in w.effects && !w.effects[key].status.Succeeded? ==> |w'.log| == |w.log| + 1;
  }

  /** Done once: after a success was reported of an effect on record, whatever everyone does, the
      record stays and nobody is told to execute it again. */
  lemma SuccessEndsTheEffect(cfg: Settings, w: World, key: Key, error: Option<string>, es: seq<Event>, again: Event)
    requires key in w.effects && again.Begin? && again.key == key
    ensures var done := Step(cfg, w, Complete(key, Succeeded, error));
            var w' := Run(cfg, done, es);
            && key in w'.effects && key in done.effects && w'.effects[key] == done.effects[key]
            && w'.effects[key].status.Succeeded? && Grants(w'.log, key) == Grants(w.log, key)
            && Step(cfg, w', again) == w'
            && var answer := StepBegin(cfg, w', again).1;
               if again.payloadHash == w.effects[key].payloadHash
               then answer.Success? && !answer.value.shouldExecute && answer.value.status.Succeeded?
               else answer == Failure(PayloadMismatch)
  {
    var done := Step(cfg, w, Complete(key, Succeeded, error));
    SuccessIsFinal(cfg, done, es, key);
    if done.log != w.log {
      KeyAppend(w.log, done.log[|w.log|], key);
    }
  }

  /** A reported failure opens the effect again at once: the next beginning with its payload executes. */
  lemma FailureReopensTheEffect(cfg: Settings, w: World, key: Key, error: Option<string>, suggestedKey: string)
    requires key in w.effects && !w.effects[key].status.Succeeded?
    ensures var failed := Step(cfg, w, Complete(key, Failed, error));
            var answer := StepBegin(cfg, failed, Begin(key, w.effects[key].payloadHash, suggestedKey)).1;
            answer.Success? && answer.value.shouldExecute && answer.value.attempts == w.effects[key].attempts + 1
  {
  }

  /** Whoever was told to execute and vanished is replaced after a lease: until then the next beginning
      with the payload waits, and from then on it executes. */
  lemma AbandonedEffectIsTakenOver(cfg: Settings, w: World, key: Key, elapsed: nat, suggestedKey: string)
    requires key in w.effects && w.effects[key].status.InFlight?
    ensures var later := Step(cfg, w, Tick(elapsed));
            var answer := StepBegin(cfg, later, Begin(key, w.effects[key].payloadHash, suggestedKey)).1;
            && later == w.(now := w.now + elapsed) && answer.Success?
            && (answer.value.shouldExecute <==> elapsed >= w.effects[key].startedAt + cfg.leaseSeconds * SECOND - w.now)
  {
  }

  predicate OnlyClaims(es: seq<Event>, key: Key) {
    forall i :: 0 <= i < |es| && es[i].Complete? ==> es[i].key != key
  }

  predicate Begins(es: seq<Event>, key: Key) {
    exists i :: 0 <= i < |es| && es[i].Begin? && es[i].key == key
  }

  /** When the key was first granted. */
  function FirstGrant(log: seq<Entry>, key: Key): Option<Instant> {
    if log == [] then None
    else
      var earlier := FirstGrant(log[..|log| - 1], key);
      var last := log[|log| - 1];
      if earlier.None? && last.Granted? && last.key == key then Some(last.at) else earlier
  }

  lemma FirstGrantAppend(log: seq<Entry>, e: Entry, key: Key)
    ensures FirstGrant(log + [e], key)
            == if FirstGrant(log, key).None? && e.Granted? && e.key == key then Some(e.at) else FirstGrant(log, key)
  {
    assert (log + [e])[..|log|] == log;
  }

  /** The race so far: the first grant is the only one and its record is untouched. */
  ghost predicate OneGrantSoFar(w: World, key: Key) {
    && Grants(w.log, key) == (if key in w.effects then 1 else 0)
    && (FirstGrant(w.log, key).Some? <==> key in w.effects)
    && (key in w.effects ==> w.effects[key].status.InFlight? && Some(w.effects[key].startedAt) == FirstGrant(w.log, key))
  }

  lemma RaceStep(cfg: Settings, w: World, e: Event, key: Key)
    requires OneGrantSoFar(w, key) && (e.Complete? ==> e.key != key)
    requires FirstGrant(w.log, key).Some? ==> w.now < FirstGrant(w.log, key).value + cfg.leaseSeconds * SECOND
    ensures OneGrantSoFar(Step(cfg, w, e), key)
    ensures FirstGrant(w.log, key).Some? ==> FirstGrant(Step(cfg, w, e).log, key) == FirstGrant(w.log, key)
    ensures key in Step(cfg, w, e).effects <==> key in w.effects || (e.Begin? && e.key == key)
  {
    hide Grants, LastIndex, FirstGrant;
    var w' := Step(cfg, w, e);
    if w'.log != w.log {
      assert w'.log == w.log + [w'.log[|w.log|]];
      KeyAppend(w.log, w'.log[|w.log|], key);
      FirstGrantAppend(w.log, w'.log[|w.log|], key);
    }
  }

  /** However many deliveries race to be first, exactly one executes, as long as none reports
      and the lease of the first grant has not passed. */
  lemma {:induction false} FirstClaimHasOneWinner(cfg: Settings, now: Instant, es: seq<Event>, key: Key)
    requires OnlyClaims(es, key)
    requires var w := Run(cfg, Start(now), es);
             FirstGrant(w.log, key).Some? ==> w.now < FirstGrant(w.log, key).value + cfg.leaseSeconds * SECOND
    ensures OneGrantSoFar(Run(cfg, Start(now), es), key)
    ensures Grants(Run(cfg, Start(now), es).log, key) == (if Begins(es, key) then 1 else 0)
  {
    if es != [] {
      var n := |es| - 1;
      var v := Run(cfg, Start(now), es[..n]);
      FirstGrantStays(cfg, v, es[n], key);
      FirstClaimHasOneWinner(cfg, now, es[..n], key);
      RaceStep(cfg, v, es[n], key);
      assert Begins(es, key) <==> Begins(es[..n], key) || (es[n].Begin? && es[n].key == key) by {
        assert es == es[..n] + [es[n]];
        assert Begins(es[..n], key) ==> exists i :: 0 <= i < n && es[..n][i] == es[i] && es[i].Begin? && es[i].key == key;
      }
    }
  }

  lemma FirstGrantStays(cfg: Settings, w: World, e: Event, key: Key)
    ensures w.now <= Step(cfg, w, e).now
    ensures FirstGrant(w.log, key).Some? ==> FirstGrant(Step(cfg, w, e).log, key) == FirstGrant(w.log, key)
  {
    hide Grants, LastIndex, FirstGrant;
    var w' := Step(cfg, w, e);
    if w'.log != w.log {
      assert w'.log == w.log + [w'.log[|w.log|]];
      FirstGrantAppend(w.log, w'.log[|w.log|], key);
    }
  }

  // ---------------------------------------------------------------- the payload fingerprint

  /** The bytes that are hashed: every part, empty when missing, closed by a NUL. */
  function HashInput(parts: seq<Option<string>>): string {
    if parts == [] then [] else parts[0].GetOr("") + ['\0'] + HashInput(parts[1..])
  }

  predicate NulFree(parts: seq<Option<string>>) {
    forall i :: 0 <= i < |parts| ==> '\0' !in parts[i].GetOr("")
  }

  lemma FirstPart(a: string, b: string, s: string, t: string)
    requires '\0' !in a && '\0' !in b && a + ['\0'] + s == b + ['\0'] + t
    ensures a == b && s == t
  {
    var x, y := a + ['\0'] + s, b + ['\0'] + t;
    assert x[|a|] == '\0' && y[|b|] == '\0';
    assert forall k :: 0 <= k < |a| ==> x[k] == a[k] && a[k] in a;
    assert forall k :: 0 <= k < |b| ==> y[k] == b[k] && b[k] in b;
    assert |a| == |b|;
    assert a == x[..|a|] && b == y[..|b|] && s == x[|a| + 1..] && t == y[|b| + 1..];
  }

  /** Two payloads without NULs, or two of one length of which one is without, share a hash input
      exactly when they agree part by part, a missing part counting as an empty one. */
  lemma {:induction false} HashInputIsFaithful(p: seq<Option<string>>, q: seq<Option<string>>)
    requires NulFree(p) && (NulFree(q) || |p| == |q|)
    ensures HashInput(p) == HashInput(q) <==> SameParts(p, q)
  {
    if !NulFree(q) {
      NulsOfPayload(p);
      NulsOfPayload(q);
      assert !SameParts(p, q) by {
        var i :| 0 <= i < |q| && '\0' in q[i].GetOr("");
        assert p[i].GetOr("") != q[i].GetOr("");
      }
    } else if p != [] && q != [] {
      HashInputIsFaithful(p[1..], q[1..]);
      SamePartsFromTheFront(p, q);
      if HashInput(p) == HashInput(q) {
        FirstPart(p[0].GetOr(""), q[0].GetOr(""), HashInput(p[1..]), HashInput(q[1..]));
      }
    }
  }

  predicate SameParts(p: seq<Option<string>>, q: seq<Option<string>>) {
    |p| == |q| && forall i :: 0 <= i < |p| ==> p[i].GetOr("") == q[i].GetOr("")
  }

  lemma SamePartsFromTheFront(p: seq<Option<string>>, q: seq<Option<string>>)
    requires p != [] && q != []
    ensures SameParts(p, q) <==> p[0].GetOr("") == q[0].GetOr("") && SameParts(p[1..], q[1..])
  {
    if p[0].GetOr("") == q[0].GetOr("") && SameParts(p[1..], q[1..]) {
      assert forall i :: 1 <= i < |p| ==> p[i] == p[1..][i - 1] && q[i] == q[1..][i - 1];
    }
  }

  function Nuls(s: string): nat {
    if s == [] then 0 else (if s[0] == '\0' then 1 else 0) + Nuls(s[1..])
  }

  lemma {:induction false} NulsAppend(s: string, t: string)
    ensures Nuls(s + t) == Nuls(s) + Nuls(t)
    ensures Nuls(s) == 0 <==> '\0' !in s
  {
    if s == [] {
      assert s + t == t;
    } else {
      assert (s + t)[1..] == s[1..] + t;
      assert s == [s[0]] + s[1..];
      NulsAppend(s[1..], t);
    }
  }

  /** A hash input has as many NULs as the payload has parts exactly when no part contains one. */
  lemma {:induction false} NulsOfPayload(p: seq<Option<string>>)
    ensures Nuls(HashInput(p)) >= |p|
    ensures Nuls(HashInput(p)) == |p| <==> NulFree(p)
  {
    if p != [] {
      NulsOfPayload(p[1..]);
      var first := p[0].GetOr("");
      NulsAppend(first, []);
      NulsAppend(first, ['\0']);
      NulsAppend(first + ['\0'], HashInput(p[1..]));
      assert Nuls(['\0']) == 1 by {
        assert ['\0'][1..] == [];
      }
      assert NulFree(p) <==> '\0' !in first && NulFree(p[1..]) by {
        assert forall i :: 1 <= i < |p| ==> p[i] == p[1..][i - 1];
        assert forall i :: 0 <= i < |p| - 1 ==> p[1..][i] == p[i + 1];
      }
    }
  }

  ghost predicate Collides(p: seq<Option<string>>) {
    exists q: seq<Option<string>> :: |q| == |p| && !SameParts(p, q) && HashInput(q) == HashInput(p)
  }

  /** Payloads of one length: some other one has this one's fingerprint input if and only if there
      are two parts at least and a part contains a NUL. */
  lemma CollidesExactlyWhen(p: seq<Option<string>>)
    ensures Collides(p) <==> |p| >= 2 && !NulFree(p)
  {
    if Collides(p) {
      var q :| |q| == |p| && !SameParts(p, q) && HashInput(q) == HashInput(p);
      if NulFree(p) {
        HashInputIsFaithful(p, q);
        assert false;
      } else if |p| < 2 {
        OnePartIsRead(p, q);
        assert false;
      }
    } else if |p| >= 2 && !NulFree(p) {
      var k :| 0 <= k < |p| && '\0' in p[k].GetOr("");
      var part := p[k].GetOr("");
      var n :| 0 <= n < |part| && part[n] == '\0';
      if k + 1 < |p| {
        MoveTailOn(p, k, n);
      } else {
        MoveHeadBack(p, k, n);
      }
    }
  }

  lemma OnePartIsRead(p: seq<Option<string>>, q: seq<Option<string>>)
    requires |p| == |q| < 2 && HashInput(p) == HashInput(q)
    ensures SameParts(p, q)
  {
    if |p| == 1 {
      var a, b := p[0].GetOr(""), q[0].GetOr("");
      assert HashInput(p) == a + ['\0'] && HashInput(q) == b + ['\0'];
      assert a == (a + ['\0'])[..|a|] && b == (b + ['\0'])[..|b|];
    }
  }

  /** The hash input is read off two neighbouring parts and what surrounds them. */
  lemma {:induction false} HashInputAround(p: seq<Option<string>>, k: nat)
    requires k + 1 < |p|
    ensures HashInput(p)
            == HashInput(p[..k]) + (p[k].GetOr("") + ['\0'] + p[k + 1].GetOr("") + ['\0']) + HashInput(p[k + 2..])
  {
    if k == 0 {
      assert p[1..][1..] == p[2..] && p[1..][0] == p[1];
    } else {
      HashInputAround(p[1..], k - 1);
      assert p[1..][..k - 1] == p[..k][1..] && p[1..][k - 1 + 2..] == p[k + 2..];
    }
  }

  lemma Regroup(p: seq<Option<string>>, k: nat, x: string, y: string)
    requires k + 1 < |p| && (p[k].GetOr("") != x || p[k + 1].GetOr("") != y)
    requires x + ['\0'] + y == p[k].GetOr("") + ['\0'] + p[k + 1].GetOr("")
    ensures Collides(p)
  {
    var q := p[k := Some(x)][k + 1 := Some(y)];
    HashInputAround(p, k);
    HashInputAround(q, k);
    assert q[..k] == p[..k] && q[k + 2..] == p[k + 2..];
    assert !SameParts(p, q) by {
      assert q[k].GetOr("") == x && q[k + 1].GetOr("") == y;
    }
  }

  /** What follows the NUL in a part goes to the next one, */
  lemma MoveTailOn(p: seq<Option<string>>, k: nat, n: nat)
    requires k + 1 < |p| && n < |p[k].GetOr("")| && p[k].GetOr("")[n] == '\0'
    ensures Collides(p)
  {
    var part := p[k].GetOr("");
    var x, y := part[..n], part[n + 1..] + ['\0'] + p[k + 1].GetOr("");
    assert part == part[..n] + ['\0'] + part[n + 1..];
    Regroup(p, k, x, y);
  }

  /** or, in the last part, what precedes it to the one before. */
  lemma MoveHeadBack(p: seq<Option<string>>, k: nat, n: nat)
    requires 0 < k < |p| && n < |p[k].GetOr("")| && p[k].GetOr("")[n] == '\0'
    ensures Collides(p)
  {
    var part := p[k].GetOr("");
    var x, y := p[k - 1].GetOr("") + ['\0'] + part[..n], part[n + 1..];
    assert part == part[..n] + ['\0'] + part[n + 1..];
    Regroup(p, k - 1, x, y);
  }

  // ---------------------------------------------------------------- the code that does it

  class Ledger {
    const cfg: Settings
    var effects: map<Key, Effect>
    /** The machine the table is part of. */
    ghost var world: World

    ghost predicate Valid()
      reads this
    {
      effects == world.effects
    }

    constructor (cfg: Settings, now: Instant)
      ensures Valid() && this.cfg == cfg && world == Start(now)
    {
      this.cfg, this.effects, this.world := cfg, map[], Start(now);
    }

    /** Insert or lock the record and decide. `rival` is the payload and provider key of a
        transaction that inserts the same record between this one's read and its insert, if any;
        the unique constraint sends this one round again, and the outcome is that of one atomic
        beginning after the rival's. */
    method BeginExternalEffect(key: Key, payloadHash: string, suggestedKey: string, now: Instant,
                               rival: Option<(string, string)>)
      returns (answer: Result<EffectClaim, Error>)
      requires Valid() && now == world.now
      modifies this
      ensures Valid()
      ensures var start := if key !in old(effects) && rival.Some?
                           then Step(cfg, old(world), Begin(key, rival.value.0, rival.value.1)) else old(world);
              (world, answer) == StepBegin(cfg, start, Begin(key, payloadHash, suggestedKey))
    {
      var requested := OrElse(suggestedKey, ProviderKeyFor(cfg, key.operationId));
      ghost var start := world;
      var insertAttempt := 0;
      while insertAttempt < 2
        invariant Valid() && world.now == now && 0 <= insertAttempt <= 1
        invariant insertAttempt > 0 ==> rival.Some? && key !in start.effects && key in effects
        invariant world == if insertAttempt > 0 then Step(cfg, start, Begin(key, rival.value.0, rival.value.1)) else start
      {
        if key in effects {
          var existing := effects[key];
          if existing.payloadHash != payloadHash {
            return Failure(PayloadMismatch);
          }
          if existing.status.Succeeded? {
            return Success(EffectClaim(false, existing.status, existing.attempts, OrElse(existing.providerKey, requested)));
          }
          if existing.status.InFlight? && !IsStale(cfg, existing, now) {
            return Success(EffectClaim(false, existing.status, existing.attempts, OrElse(existing.providerKey, requested)));
          }
          existing := existing.(status := InFlight, attempts := existing.attempts + 1);
          existing := existing.(providerKey := OrElse(existing.providerKey, requested));
          existing := existing.(lastError := None, startedAt := now, completedAt := None);
          world := StepBegin(cfg, world, Begin(key, payloadHash, suggestedKey)).0;
          effects := effects[key := existing];
          return Success(EffectClaim(true, existing.status, existing.attempts, OrElse(existing.providerKey, requested)));
        }
        if rival.Some? {
          world := Step(cfg, world, Begin(key, rival.value.0, rival.value.1));
          effects := effects[key := FirstEffect(rival.value.0, RequestedKey(cfg, key, rival.value.1), now)];
          insertAttempt := insertAttempt + 1;
          continue;
        }
        world := StepBegin(cfg, world, Begin(key, payloadHash, suggestedKey)).0;
        effects := effects[key := Effect(InFlight, payloadHash, 1, requested, None, now, None)];
        return Success(EffectClaim(true, InFlight, 1, requested));
      }
      assert false;
    }

    method CompleteExternalEffect(key: Key, status: Status, error: Option<string>, now: Instant)
      returns (failed: Option<Error>)
      requires Valid() && now == world.now
      modifies this
      ensures Valid() && world == Step(cfg, old(world), Complete(key, status, error))
      ensures failed == if status.InFlight? then Some(UnsupportedStatus) else None
    {
      world := Step(cfg, world, Complete(key, status, error));
      if status.InFlight? {
        return Some(UnsupportedStatus);
      }
      if key !in effects || effects[key].status.Succeeded? {
        return None;
      }
      var effect := effects[key];
      effect := effect.(status := status);
      effect := effect.(lastError := Shortened(error));
      effect := effect.(completedAt := Some(now));
      effects := effects[key := effect];
      return None;
    }
  }
}
