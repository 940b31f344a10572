/**
 The coordinated cache loader: a caller that misses takes its process's lock, looks again, waits
 for the distributed lock or for somebody else's value, and only then runs the loader.

 A caller runs undisturbed between two awaits, so each event below is one such stretch; callers of
 any number of processes interleave. One cache key and its distributed lock are modelled. The
 value `None` is the source's null, which its cache reads cannot tell from absence.
 */
module SingleFlight {
  import opened Prelude
  import LeaseLock

  const LOCK_TTL_SECONDS: nat := 10
  const WAIT_SECONDS: nat := 5
  const POLL_MICROSECONDS: nat := 50_000

  type Caller = nat
  type Process = nat
  type Value = string

  datatype Config = Config(processOf: Caller -> Process, redisEnabled: bool, lockKey: string)

  datatype Outcome = Raised | Returned(value: Option<Value>)

  datatype Route = Hit | Filled | Loaded

  datatype Phase =
    | Idle
    | Waiting
    | Inside
    | Polling(deadline: Instant)
    | Peeking(deadline: Instant)
    | Acquiring(deadline: Instant)
    | Rereading
    | Loading(token: Option<string>)
    | Storing(token: Option<string>, loaded: Option<Value>)
    | Releasing(token: Option<string>, outcome: Outcome)
    | Done(answer: Option<Value>, route: Route)
    | Failed

  /** `inside` is who holds each process's lock; `started` and `results` log the loader's runs. */
  datatype World = World(
    phases: map<Caller, Phase>,
    inside: map<Process, Caller>,
    cache: Option<Value>,
    lock: LeaseLock.World,
    started: seq<Caller>,
    results: seq<Option<Value>>)

  datatype Event =
    | Look(caller: Caller, visible: bool)
    | Enter(caller: Caller)
    | CheckClock(caller: Caller)
    | TryLock(caller: Caller, uuid: string, reply: LeaseLock.Reply)
    | LoadEnds(caller: Caller, value: Option<Value>)
    | StoreEnds(caller: Caller, kept: bool)
    | LetGo(caller: Caller, delivered: bool)
    | Raise(caller: Caller)
    | Elsewhere(found: Value)
    | Drop
    | Tick(elapsed: nat)

  // ---------------------------------------------------------------- the transitions

  function PhaseOf(w: World, c: Caller): Phase {
    if c in w.phases then w.phases[c] else Idle
  }

  function Move(w: World, c: Caller, phase: Phase): World {
    w.(phases := w.phases[c := phase])
  }

  /** Move on and leave the process's lock. */
  function Leave(cfg: Config, w: World, c: Caller, phase: Phase): World {
    w.(phases := w.phases[c := phase], inside := w.inside - {cfg.processOf(c)})
  }

  function StartLoading(w: World, c: Caller, token: Option<string>): World {
    w.(phases := w.phases[c := Loading(token)], started := w.started + [c])
  }

  function LockTtl(key: string): nat {
    LOCK_TTL_SECONDS
  }

  function StepLook(cfg: Config, w: World, c: Caller, visible: bool): World {
    var seen := if visible then w.cache else None;
    match PhaseOf(w, c)
    case Idle => Move(w, c, if seen.Some? then Done(seen, Hit) else Waiting)
    case Inside =>
      if seen.Some? then Leave(cfg, w, c, Done(seen, Hit))
      else if cfg.redisEnabled then Move(w, c, Polling(w.lock.now + WAIT_SECONDS * SECOND))
      else StartLoading(w, c, None)
    case Peeking(deadline) => Move(w, c, if seen.Some? then Rereading else Acquiring(deadline))
    case Rereading => Leave(cfg, w, c, Done(seen, Filled))
    case _ => w
  }

  /** The head of the waiting loop. */
  function StepCheckClock(w: World, c: Caller): World {
    match PhaseOf(w, c)
    case Polling(deadline) =>
      if w.lock.now >= deadline then StartLoading(w, c, None) else Move(w, c, Peeking(deadline))
    case _ => w
  }

  function StepTryLock(cfg: Config, w: World, c: Caller, uuid: string, reply: LeaseLock.Reply): World {
    var phase := PhaseOf(w, c);
    if !phase.Acquiring? || uuid in w.lock.issued || !LeaseLock.IsUuidHex(uuid) then w
    else
      var attempt := LeaseLock.TryAcquire(cfg.lockKey, uuid, reply, LeaseLock.Skip);
      var (lock, token) := LeaseLock.StepTryAcquire(LockTtl, w.lock, attempt);
      var w' := w.(lock := lock);
      if !reply.Answered? then StartLoading(w', c, None)
      else if token.Some? then StartLoading(w', c, token)
      else Move(w', c, Polling(phase.deadline))
  }

  function StepLetGo(cfg: Config, w: World, c: Caller, delivered: bool): World {
    var phase := PhaseOf(w, c);
    if !phase.Releasing? then w
    else
      var lock := if phase.token.None? then w.lock
                  else LeaseLock.StepRelease(w.lock, LeaseLock.Release(cfg.lockKey, phase.token.value, delivered));
      var next := match phase.outcome case Raised => Failed case Returned(v) => Done(v, Loaded);
      Leave(cfg, w.(lock := lock), c, next)
  }

  function StepRaise(cfg: Config, w: World, c: Caller): World {
    match PhaseOf(w, c)
    case Idle => Move(w, c, Failed)
    case Waiting => Move(w, c, Failed)
    case Inside => Leave(cfg, w, c, Failed)
    case Polling(_) => Leave(cfg, w, c, Failed)
    case Peeking(_) => Leave(cfg, w, c, Failed)
    case Acquiring(_) => Leave(cfg, w, c, Failed)
    case Rereading => Leave(cfg, w, c, Failed)
    case Loading(token) => Move(w, c, Releasing(token, Raised))
    case Storing(token, _) => Move(w, c, Releasing(token, Raised))
    case _ => w
  }

  function Step(cfg: Config, w: World, e: Event): World {
    match e
    case Look(c, visible) => StepLook(cfg, w, c, visible)
    case Enter(c) =>
      if PhaseOf(w, c).Waiting? && cfg.processOf(c) !in w.inside
      then Move(w.(inside := w.inside[cfg.processOf(c) := c]), c, Inside) else w
    case CheckClock(c) => StepCheckClock(w, c)
    case TryLock(c, uuid, reply) => StepTryLock(cfg, w, c, uuid, reply)
    case LoadEnds(c, value) =>
      if PhaseOf(w, c).Loading?
      then Move(w, c, Storing(PhaseOf(w, c).token, value)).(results := w.results + [value]) else w
    case StoreEnds(c, kept) =>
      var phase := PhaseOf(w, c);
      if phase.Storing?
      then Move(w, c, Releasing(phase.token, Returned(phase.loaded))).(cache := if kept then phase.loaded else w.cache)
      else w
    case LetGo(c, delivered) => StepLetGo(cfg, w, c, delivered)
    case Raise(c) => StepRaise(cfg, w, c)
    case Elsewhere(v) => w.(cache := Some(v))
    case Drop => w.(cache := None)
    case Tick(elapsed) => w.(lock := w.lock.(now := w.lock.now + elapsed))
  }

  function Run(cfg: Config, w: World, es: seq<Event>): World {
    if es == [] then w
    else Step(cfg, Run(cfg, w, es[..|es| - 1]), es[|es| - 1])
  }

  function Start(now: Instant): World {
    World(map[], map[], None, LeaseLock.Start(now), [], [])
  }

  // ---------------------------------------------------------------- the invariant

  /** Past the process's lock and not yet out again. */
  predicate HoldsProcessLock(p: Phase) {
    p.Inside? || p.Polling? || p.Peeking? || p.Acquiring? || p.Rereading? || p.Loading? || p.Storing? || p.Releasing?
  }

  function TokenOf(p: Phase): Option<string> {
    if p.Loading? || p.Storing? || p.Releasing? then p.token else None
  }

  predicate InsideInv(cfg: Config, w: World, c: Caller) {
    HoldsProcessLock(PhaseOf(w, c)) <==> cfg.processOf(c) in w.inside && w.inside[cfg.processOf(c)] == c
  }

  predicate TokenInv(cfg: Config, w: World, c: Caller) {
    var token := TokenOf(PhaseOf(w, c));
    token.Some? ==> LeaseLock.TokenHolder(w.lock, token.value) && w.lock.running[token.value].key == cfg.lockKey
  }

  predicate CallerInv(cfg: Config, w: World, c: Caller) {
    InsideInv(cfg, w, c) && TokenInv(cfg, w, c)
  }

  predicate DistinctTokens(w: World, a: Caller, b: Caller) {
    a != b && TokenOf(PhaseOf(w, a)).Some? ==> TokenOf(PhaseOf(w, a)) != TokenOf(PhaseOf(w, b))
  }

  ghost predicate Inv(cfg: Config, w: World) {
    && (forall c :: CallerInv(cfg, w, c))
    && (forall p :: p in w.inside ==> cfg.processOf(w.inside[p]) == p)
    && (forall a, b :: DistinctTokens(w, a, b))
    && LeaseLock.Inv(LockTtl, w.lock)
  }

  /** Only the caller that acts changes phase, and lock handles other than its own stay. */
  lemma StepFootprint(cfg: Config, w: World, e: Event, c: Caller)
    requires e.Elsewhere? || e.Drop? || e.Tick? || e.caller != c
    ensures PhaseOf(Step(cfg, w, e), c) == PhaseOf(w, c)
  {
  }

  lemma LockKeepsInv(cfg: Config, w: World, e: Event)
    requires Inv(cfg, w)
    ensures LeaseLock.Inv(LockTtl, Step(cfg, w, e).lock)
    ensures Step(cfg, w, e).lock.issued >= w.lock.issued
  {
    hide LeaseLock.Inv;
    match e {
      case TryLock(c, uuid, reply) =>
        LeaseLock.StepKeepsInv(LockTtl, w.lock, LeaseLock.TryAcquire(cfg.lockKey, uuid, reply, LeaseLock.Skip));
      case LetGo(c, delivered) =>
        if PhaseOf(w, c).Releasing? && PhaseOf(w, c).token.Some? {
          LeaseLock.StepKeepsInv(LockTtl, w.lock, LeaseLock.Release(cfg.lockKey, PhaseOf(w, c).token.value, delivered));
        }
      case Tick(elapsed) =>
        LeaseLock.StepKeepsInv(LockTtl, w.lock, LeaseLock.Tick(elapsed));
      case _ =>
    }
  }

  /** A caller's token: the old one, none, or the one of its own attempt, never issued before. */
  lemma TokenComesFresh(cfg: Config, w: World, e: Event, c: Caller)
    ensures var was, later := TokenOf(PhaseOf(w, c)), TokenOf(PhaseOf(Step(cfg, w, e), c));
            || later == was || later == None
            || (e.TryLock? && e.caller == c && later == Some(e.uuid) && e.uuid !in w.lock.issued)
  {
  }

  lemma HeldTokenWasIssued(cfg: Config, w: World, c: Caller)
    requires Inv(cfg, w) && TokenOf(PhaseOf(w, c)).Some?
    ensures TokenOf(PhaseOf(w, c)).value in w.lock.issued
  {
    assert CallerInv(cfg, w, c);
    assert LeaseLock.HolderInv(LockTtl, w.lock, TokenOf(PhaseOf(w, c)).value);
  }

  lemma StepKeepsInside(cfg: Config, w: World, e: Event, c: Caller)
    requires InsideInv(cfg, w, c)
    requires e.Elsewhere? || e.Drop? || e.Tick? || InsideInv(cfg, w, e.caller)
    ensures InsideInv(cfg, Step(cfg, w, e), c)
  {
  }

  lemma StepKeepsToken(cfg: Config, w: World, e: Event, c: Caller)
    requires Inv(cfg, w)
    ensures TokenInv(cfg, Step(cfg, w, e), c)
  {
    hide InsideInv, LeaseLock.Inv;
    assert CallerInv(cfg, w, c);
    TokenComesFresh(cfg, w, e, c);
    if e.TryLock? && LeaseLock.IsUuidHex(e.uuid) {
      LeaseLock.HexIsNotFailOpen(e.uuid);
    }
    if e.LetGo? {
      assert CallerInv(cfg, w, e.caller) && DistinctTokens(w, e.caller, c);
    }
  }

  lemma StepKeepsInv(cfg: Config, w: World, e: Event)
    requires Inv(cfg, w)
    ensures Inv(cfg, Step(cfg, w, e))
  {
    var w' := Step(cfg, w, e);
    LockKeepsInv(cfg, w, e);
    forall c ensures CallerInv(cfg, w', c) {
      assert CallerInv(cfg, w, c);
      assert e.Elsewhere? || e.Drop? || e.Tick? || CallerInv(cfg, w, e.caller);
      StepKeepsInside(cfg, w, e, c);
      StepKeepsToken(cfg, w, e, c);
    }
    forall a, b ensures DistinctTokens(w', a, b) {
      assert DistinctTokens(w, a, b);
      TokenComesFresh(cfg, w, e, a);
      TokenComesFresh(cfg, w, e, b);
      if TokenOf(PhaseOf(w, a)).Some? {
        HeldTokenWasIssued(cfg, w, a);
      }
      if TokenOf(PhaseOf(w, b)).Some? {
        HeldTokenWasIssued(cfg, w, b);
      }
    }
  }

  lemma {:induction false} RunKeepsInv(cfg: Config, now: Instant, es: seq<Event>)
    ensures Inv(cfg, Run(cfg, Start(now), es))
  {
    if es != [] {
      RunKeepsInv(cfg, now, es[..|es| - 1]);
      StepKeepsInv(cfg, Run(cfg, Start(now), es[..|es| - 1]), es[|es| - 1]);
    }
  }

  // ---------------------------------------------------------------- exclusion

  /** In one process, at most one caller at a time is anywhere past the process's lock; loader
      runs, in particular, never overlap. */
  lemma LoadsNeverOverlap(cfg: Config, now: Instant, es: seq<Event>, a: Caller, b: Caller)
    requires var w := Run(cfg, Start(now), es);
             HoldsProcessLock(PhaseOf(w, a)) && HoldsProcessLock(PhaseOf(w, b)) && cfg.processOf(a) == cfg.processOf(b)
    ensures a == b
  {
    RunKeepsInv(cfg, now, es);
    var w := Run(cfg, Start(now), es);
    assert CallerInv(cfg, w, a) && CallerInv(cfg, w, b);
  }

  /** Across processes, two callers that both load under a distributed lock token do so at once
      only if one of them has had its token for the lock's whole time to live. */
  lemma TokenLoadsDoNotOverlap(cfg: Config, now: Instant, es: seq<Event>, a: Caller, b: Caller)
    requires var w := Run(cfg, Start(now), es); TokenOf(PhaseOf(w, a)).Some? && TokenOf(PhaseOf(w, b)).Some? && a != b
    ensures var w := Run(cfg, Start(now), es);
            exists c | c == a || c == b ::
              var token := TokenOf(PhaseOf(w, c)).value;
              token in w.lock.running && w.lock.now >= w.lock.running[token].since + 10 * SECOND
  {
    RunKeepsInv(cfg, now, es);
    var w := Run(cfg, Start(now), es);
    assert CallerInv(cfg, w, a) && CallerInv(cfg, w, b) && DistinctTokens(w, a, b);
    var ta, tb := TokenOf(PhaseOf(w, a)).value, TokenOf(PhaseOf(w, b)).value;
    assert LeaseLock.HolderInv(LockTtl, w.lock, ta) && LeaseLock.HolderInv(LockTtl, w.lock, tb);
    assert LeaseLock.Overstayed(LockTtl, w.lock, ta) || LeaseLock.Overstayed(LockTtl, w.lock, tb);
  }

  lemma TokenStaysWithItsCaller(cfg: Config, w: World, e: Event, c: Caller, token: string)
    requires TokenOf(PhaseOf(w, c)) == Some(token) && token in Step(cfg, w, e).lock.running
    ensures TokenOf(PhaseOf(Step(cfg, w, e), c)) == Some(token)
  {
  }

  lemma TokensComeFromAttempts(cfg: Config, w: World, e: Event, token: string)
    requires LeaseLock.TokenHolder(Step(cfg, w, e).lock, token) && !LeaseLock.TokenHolder(w.lock, token)
    ensures e.TryLock? && TokenOf(PhaseOf(Step(cfg, w, e), e.caller)) == Some(token)
  {
  }

  /** Every token that was gained belongs to a caller that has yet to release it: none outlives its
      caller's load, whether the loader, the storing or the caller failed. */
  lemma {:induction false} NoTokenIsLeftBehind(cfg: Config, now: Instant, es: seq<Event>, token: string)
    requires LeaseLock.TokenHolder(Run(cfg, Start(now), es).lock, token)
    ensures exists c :: TokenOf(PhaseOf(Run(cfg, Start(now), es), c)) == Some(token)
  {
    if es != [] {
      var v, e := Run(cfg, Start(now), es[..|es| - 1]), es[|es| - 1];
      hide Step, TokenOf, PhaseOf;
      if LeaseLock.TokenHolder(v.lock, token) {
        NoTokenIsLeftBehind(cfg, now, es[..|es| - 1], token);
        var c :| TokenOf(PhaseOf(v, c)) == Some(token);
        TokenStaysWithItsCaller(cfg, v, e, c, token);
      } else {
        TokensComeFromAttempts(cfg, v, e, token);
      }
    }
  }

  // ---------------------------------------------------------------- one load for everybody

  ghost predicate OneProcess(cfg: Config) {
    forall a: Caller, b: Caller :: cfg.processOf(a) == cfg.processOf(b)
  }

  /** The cache is not lost, rewritten or unreachable, and the loader returns something and neither
      it nor the storing raises; callers may raise anywhere else. */
  predicate Quiet(w: World, e: Event) {
    match e
    case Look(_, visible) => visible
    case LoadEnds(_, value) => value.Some?
    case StoreEnds(_, kept) => kept
    case Raise(c) => !PhaseOf(w, c).Loading? && !PhaseOf(w, c).Storing?
    case Elsewhere(_) => false
    case Drop => false
    case _ => true
  }

  predicate QuietRun(cfg: Config, w: World, es: seq<Event>) {
    es == [] || (QuietRun(cfg, w, es[..|es| - 1]) && Quiet(Run(cfg, w, es[..|es| - 1]), es[|es| - 1]))
  }

  /** Before the value is cached only the lock holder may have started a load, and nobody has an
      answer; afterwards nobody can start one, and every answer is the value. */
  predicate OneLoadCaller(w: World, c: Caller) {
    var p := PhaseOf(w, c);
    if w.cache.None? then
      && !p.Rereading? && !p.Releasing? && !p.Done?
      && (p.Loading? ==> w.started == [c] && w.results == [])
      && (p.Storing? ==> w.started == [c] && w.results == [p.loaded] && p.loaded.Some?)
    else
      || p.Idle? || p.Waiting? || p.Inside? || p.Failed?
      || (p.Releasing? && p.outcome == Returned(w.cache))
      || (p.Done? && p.answer == w.cache)
  }

  predicate OneLoadLog(w: World) {
    if w.cache.None? then
      || (w.started == [] && w.results == [])
      || (|w.started| == 1 && (PhaseOf(w, w.started[0]).Loading? || PhaseOf(w, w.started[0]).Storing?))
    else |w.started| == 1 && w.results == [w.cache]
  }

  ghost predicate OneLoadInv(w: World) {
    OneLoadLog(w) && forall c :: OneLoadCaller(w, c)
  }

  lemma QuietKeepsLog(cfg: Config, w: World, e: Event)
    requires OneProcess(cfg) && Inv(cfg, w) && OneLoadInv(w) && Quiet(w, e)
    ensures OneLoadLog(Step(cfg, w, e))
  {
    hide LeaseLock.Inv;
    if !e.Tick? {
      assert OneLoadCaller(w, e.caller) && CallerInv(cfg, w, e.caller);
      if w.started != [] {
        assert OneLoadCaller(w, w.started[0]) && CallerInv(cfg, w, w.started[0]);
        assert cfg.processOf(w.started[0]) == cfg.processOf(e.caller);
      }
    }
  }

  lemma QuietKeepsActing(cfg: Config, w: World, e: Event)
    requires OneProcess(cfg) && Inv(cfg, w) && OneLoadInv(w) && Quiet(w, e) && !e.Tick?
    ensures OneLoadCaller(Step(cfg, w, e), e.caller)
  {
    hide LeaseLock.Inv, TokenInv;
    assert OneLoadCaller(w, e.caller) && CallerInv(cfg, w, e.caller);
    if w.started != [] {
      assert CallerInv(cfg, w, w.started[0]);
      assert cfg.processOf(w.started[0]) == cfg.processOf(e.caller);
    }
  }

  lemma QuietKeepsOthers(cfg: Config, w: World, e: Event, c: Caller)
    requires OneProcess(cfg) && Inv(cfg, w) && OneLoadInv(w) && Quiet(w, e)
    requires e.Tick? || c != e.caller
    ensures OneLoadCaller(Step(cfg, w, e), c)
  {
    hide LeaseLock.Inv, TokenInv;
    assert OneLoadCaller(w, c) && CallerInv(cfg, w, c);
    if !e.Tick? {
      assert OneLoadCaller(w, e.caller) && CallerInv(cfg, w, e.caller);
      assert cfg.processOf(c) == cfg.processOf(e.caller);
    }
  }

  lemma QuietKeepsCaller(cfg: Config, w: World, e: Event, c: Caller)
    requires OneProcess(cfg) && Inv(cfg, w) && OneLoadInv(w) && Quiet(w, e)
    ensures OneLoadCaller(Step(cfg, w, e), c)
  {
    hide Inv, OneLoadInv, OneLoadCaller, Step;
    if e.Tick? || c != e.caller {
      QuietKeepsOthers(cfg, w, e, c);
    } else {
      QuietKeepsActing(cfg, w, e);
    }
  }

  lemma {:induction false} QuietRuns(cfg: Config, now: Instant, es: seq<Event>)
    requires OneProcess(cfg) && QuietRun(cfg, Start(now), es)
    ensures OneLoadInv(Run(cfg, Start(now), es))
  {
    if es != [] {
      var w := Run(cfg, Start(now), es[..|es| - 1]);
      QuietRuns(cfg, now, es[..|es| - 1]);
      RunKeepsInv(cfg, now, es[..|es| - 1]);
      QuietKeepsLog(cfg, w, es[|es| - 1]);
      var e := es[|es| - 1];
      forall c ensures OneLoadCaller(Step(cfg, w, e), c) {
        QuietKeepsCaller(cfg, w, e, c);
      }
    }
  }

  /** Single flight: if loads return something and the cache keeps it, any number of callers of one
      process, however they interleave, cause at most one load; and as soon as one has its answer
      there has been exactly one, whose result is that answer. */
  lemma OneLoadForAll(cfg: Config, now: Instant, es: seq<Event>, c: Caller)
    requires OneProcess(cfg) && QuietRun(cfg, Start(now), es)
    ensures var w := Run(cfg, Start(now), es);
            && |w.started| <= 1
            && (PhaseOf(w, c).Done? ==>
                  |w.started| == 1 && w.results == [PhaseOf(w, c).answer] && PhaseOf(w, c).answer.Some?)
  {
    QuietRuns(cfg, now, es);
    assert OneLoadCaller(Run(cfg, Start(now), es), c);
  }

  // ---------------------------------------------------------------- null answers

  /** Nothing empties the cache or hides it; loaders that return, return something. */
  predicate KeepsValues(e: Event) {
    match e
    case Look(_, visible) => visible
    case LoadEnds(_, value) => value.Some?
    case Drop => false
    case _ => true
  }

  predicate SomethingFor(w: World, c: Caller) {
    match PhaseOf(w, c)
    case Rereading => w.cache.Some?
    case Storing(_, loaded) => loaded.Some?
    case Releasing(_, outcome) => outcome.Returned? ==> outcome.value.Some?
    case Done(answer, _) => answer.Some?
    case _ => true
  }

  lemma KeepsSomething(cfg: Config, w: World, e: Event, c: Caller)
    requires KeepsValues(e) && SomethingFor(w, c)
    requires e.Elsewhere? || e.Drop? || e.Tick? || SomethingFor(w, e.caller)
    ensures SomethingFor(Step(cfg, w, e), c)
    ensures w.cache.Some? ==> Step(cfg, w, e).cache.Some?
  {
  }

  /** No caller is answered with null, for any number of processes, failures and outside writes. */
  lemma {:induction false} NoNullAnswers(cfg: Config, now: Instant, es: seq<Event>, c: Caller)
    requires forall i :: 0 <= i < |es| ==> KeepsValues(es[i])
    ensures SomethingFor(Run(cfg, Start(now), es), c)
  {
    if es != [] {
      hide SomethingFor, Step;
      var w := Run(cfg, Start(now), es[..|es| - 1]);
      var e := es[|es| - 1];
      NoNullAnswers(cfg, now, es[..|es| - 1], c);
      if !(e.Elsewhere? || e.Drop? || e.Tick?) {
        NoNullAnswers(cfg, now, es[..|es| - 1], e.caller);
      }
      KeepsSomething(cfg, w, e, c);
    }
  }

  /** But a caller that was told the cache is filled answers with null, without loading, whenever
      the value is lost or cannot be read before it looks again. */
  lemma FilledCanVanish(cfg: Config, w: World, c: Caller, visible: bool)
    requires PhaseOf(w, c).Rereading?
    ensures PhaseOf(Step(cfg, Step(cfg, w, Drop), Look(c, visible)), c) == Done(None, Filled)
    ensures PhaseOf(Step(cfg, w, Look(c, false)), c) == Done(None, Filled)
    ensures Step(cfg, Step(cfg, w, Drop), Look(c, visible)).started == w.started
  {
  }

  predicate NullAnswer(p: Phase) {
    p.Done? && p.answer.None?
  }

  /** Those are the two ways to answer null: the look after "filled" finds nothing, or the caller's own
      load returned null. */
  lemma NullAnswerExactlyWhen(cfg: Config, w: World, e: Event, c: Caller)
    requires !NullAnswer(PhaseOf(w, c))
    ensures NullAnswer(PhaseOf(Step(cfg, w, e), c))
            <==> (e.Look? && e.caller == c && PhaseOf(w, c).Rereading? && (w.cache.None? || !e.visible))
                 || (e.LetGo? && e.caller == c && PhaseOf(w, c).Releasing? && PhaseOf(w, c).outcome == Returned(None))
  {
    if e.Elsewhere? || e.Drop? || e.Tick? || e.caller != c {
      StepFootprint(cfg, w, e, c);
    }
  }

  // ---------------------------------------------------------------- what a caller's turn does

  /** Whoever looks first, or again inside its process's lock, and finds the value answers with it at
      once, loads nothing, and leaves its process's lock to others. */
  lemma FoundIsAnswered(cfg: Config, w: World, c: Caller)
    requires w.cache.Some? && (PhaseOf(w, c).Idle? || PhaseOf(w, c).Inside?)
    ensures var w' := Step(cfg, w, Look(c, true));
            && PhaseOf(w', c) == Done(w.cache, Hit) && w'.started == w.started && w'.cache == w.cache && w'.lock == w.lock
            && (PhaseOf(w, c).Inside? ==> cfg.processOf(c) !in w'.inside)
  {
  }

  /** A caller that missed twice waits five seconds at most for the distributed lock; with Redis off it
      loads at once, without a token. */
  lemma MissedTwice(cfg: Config, w: World, c: Caller, visible: bool)
    requires PhaseOf(w, c).Inside? && (w.cache.None? || !visible)
    ensures var w' := Step(cfg, w, Look(c, visible));
            if cfg.redisEnabled then w' == w.(phases := w.phases[c := Polling(w.lock.now + 5 * SECOND)])
            else w' == w.(phases := w.phases[c := Loading(None)], started := w.started + [c])
  {
  }

  /** A waiting caller takes what somebody elsewhere has stored: it is told so at its next look, answers
      with the value and starts no load. */
  lemma WaitersTakeOthersValues(cfg: Config, w: World, c: Caller, v: Value)
    requires PhaseOf(w, c).Peeking?
    ensures var told := Step(cfg, Step(cfg, w, Elsewhere(v)), Look(c, true));
            var answered := Step(cfg, told, Look(c, true));
            && PhaseOf(told, c).Rereading? && PhaseOf(answered, c) == Done(Some(v), Filled)
            && answered.started == w.started && answered.lock == w.lock && answered.cache == Some(v)
            && cfg.processOf(c) !in answered.inside
  {
  }

  /** A load ends as its parts do: what the loader returned is the answer whether or not the cache kept
      it, and it is in the cache exactly if it was kept; the token is given back. */
  lemma LoadIsAnswered(cfg: Config, w: World, c: Caller, value: Option<Value>, kept: bool, delivered: bool)
    requires PhaseOf(w, c).Loading?
    ensures var stored := Step(cfg, Step(cfg, w, LoadEnds(c, value)), StoreEnds(c, kept));
            var answered := Step(cfg, stored, LetGo(c, delivered));
            && answered.cache == (if kept then value else w.cache) && answered.results == w.results + [value]
            && PhaseOf(answered, c) == Done(value, Loaded) && answered.started == w.started
            && cfg.processOf(c) !in answered.inside
            && (PhaseOf(w, c).token.None? ==> answered.lock == w.lock)
            && (PhaseOf(w, c).token.Some? ==> PhaseOf(w, c).token.value !in answered.lock.running)
  {
  }

  /** However a caller fails, it ends without an answer, its process's lock is free, nothing is stored,
      and a token it had is given back. A caller that has nothing left to do cannot fail. */
  lemma FailingLeavesNothingBehind(cfg: Config, w: World, c: Caller, delivered: bool)
    requires !PhaseOf(w, c).Releasing?
    ensures var raised := Step(cfg, w, Raise(c));
            var over := Step(cfg, raised, LetGo(c, delivered));
            && raised.cache == w.cache && raised.started == w.started && raised.results == w.results
            && over.cache == w.cache && over.started == w.started && over.results == w.results
            && (if PhaseOf(w, c).Done? || PhaseOf(w, c).Failed? then over == w else PhaseOf(over, c).Failed?)
            && (HoldsProcessLock(PhaseOf(w, c)) ==> cfg.processOf(c) !in over.inside)
            && (TokenOf(PhaseOf(w, c)).Some? ==> TokenOf(PhaseOf(w, c)).value !in over.lock.running)
            && (TokenOf(PhaseOf(w, c)).None? ==> over.lock == w.lock)
  {
  }

  // ---------------------------------------------------------------- loading twice

  predicate LooksLateOrHit(p: Phase) {
    p.Idle? || p.Waiting? || p.Inside? || p.Failed? || (p.Done? && p.route.Hit? && p.answer.Some?)
  }

  lemma LateLookerStep(cfg: Config, w: World, e: Event, c: Caller)
    requires w.cache.Some? && LooksLateOrHit(PhaseOf(w, c)) && KeepsValues(e)
    ensures LooksLateOrHit(PhaseOf(Step(cfg, w, e), c))
  {
  }

  /** A caller that has yet to look inside its process's lock never loads a value that is there. */
  lemma {:induction false} LateLookersDoNotLoad(cfg: Config, w: World, es: seq<Event>, c: Caller)
    requires w.cache.Some? && LooksLateOrHit(PhaseOf(w, c))
    requires forall x :: SomethingFor(w, x)
    requires forall i :: 0 <= i < |es| ==> KeepsValues(es[i])
    ensures var w' := Run(cfg, w, es);
            w'.cache.Some? && (forall x :: SomethingFor(w', x)) && LooksLateOrHit(PhaseOf(w', c))
  {
    if es != [] {
      hide SomethingFor, Step, LooksLateOrHit;
      LateLookersDoNotLoad(cfg, w, es[..|es| - 1], c);
      var v := Run(cfg, w, es[..|es| - 1]);
      var e := es[|es| - 1];
      forall x ensures SomethingFor(Step(cfg, v, e), x) {
        assert SomethingFor(v, x);
        assert e.Elsewhere? || e.Drop? || e.Tick? || SomethingFor(v, e.caller);
        KeepsSomething(cfg, v, e, x);
      }
      assert v.cache.Some? ==> Step(cfg, v, e).cache.Some? by {
        KeepsSomething(cfg, v, e, c);
      }
      LateLookerStep(cfg, v, e, c);
    }
  }

  /** The two moments at which a load starts although the value is there: the clock check of a waiter
      whose deadline has passed, and an attempt on the distributed lock that wins it or gets no
      answer. Neither is followed by another look. */
  predicate Reloads(cfg: Config, w: World, e: Event) {
    || (e.CheckClock? && PhaseOf(w, e.caller).Polling? && w.lock.now >= PhaseOf(w, e.caller).deadline)
    || (e.TryLock? && PhaseOf(w, e.caller).Acquiring?
        && e.uuid !in w.lock.issued && LeaseLock.IsUuidHex(e.uuid)
        && (!e.reply.Answered? || !LeaseLock.Live(w.lock.locks, cfg.lockKey, w.lock.now)))
  }

  lemma StoredValueIsReloadedExactlyWhen(cfg: Config, w: World, e: Event)
    requires w.cache.Some? && KeepsValues(e)
    ensures Step(cfg, w, e).started != w.started <==> Reloads(cfg, w, e)
    ensures Reloads(cfg, w, e) ==> Step(cfg, w, e).started == w.started + [e.caller] && Step(cfg, w, e).cache == w.cache
  {
  }

  predicate KeepValues(es: seq<Event>) {
    forall i :: 0 <= i < |es| ==> KeepsValues(es[i])
  }

  /** A stored value stays through any run that keeps values. */
  lemma {:induction false} StoredValueStays(cfg: Config, w: World, es: seq<Event>)
    requires w.cache.Some? && (forall x :: SomethingFor(w, x)) && KeepValues(es)
    ensures Run(cfg, w, es).cache.Some? && forall x :: SomethingFor(Run(cfg, w, es), x)
  {
    if es != [] {
      hide SomethingFor, Step;
      var v, e := Run(cfg, w, es[..|es| - 1]), es[|es| - 1];
      StoredValueStays(cfg, w, es[..|es| - 1]);
      assert e.Elsewhere? || e.Drop? || e.Tick? || SomethingFor(v, e.caller);
      forall x ensures SomethingFor(Step(cfg, v, e), x) {
        assert SomethingFor(v, x);
        KeepsSomething(cfg, v, e, x);
      }
      assert Step(cfg, v, e).cache.Some? by {
        assert SomethingFor(v, 0);
        KeepsSomething(cfg, v, e, 0);
      }
    }
  }

  /** Over a run: nobody loads a stored value again if and only if neither moment occurs. */
  lemma {:induction false} RunReloadsExactlyWhen(cfg: Config, w: World, es: seq<Event>)
    requires w.cache.Some? && (forall x :: SomethingFor(w, x)) && KeepValues(es)
    ensures |Run(cfg, w, es).started| >= |w.started|
    ensures Run(cfg, w, es).started == w.started <==> NeitherMoment(cfg, w, es)
  {
    if es != [] {
      hide SomethingFor, Step, Reloads;
      var n := |es| - 1;
      RunReloadsExactlyWhen(cfg, w, es[..n]);
      StoredValueStays(cfg, w, es[..n]);
      StoredValueIsReloadedExactlyWhen(cfg, Run(cfg, w, es[..n]), es[n]);
    }
  }

  predicate NeitherMoment(cfg: Config, w: World, es: seq<Event>) {
    es == [] || (NeitherMoment(cfg, w, es[..|es| - 1]) && !Reloads(cfg, Run(cfg, w, es[..|es| - 1]), es[|es| - 1]))
  }

  /** Some run that keeps the value has the caller start a load of it. */
  ghost predicate MayReload(cfg: Config, w: World, c: Caller) {
    exists es, e :: KeepValues(es) && KeepsValues(e) && LoadsNext(cfg, Run(cfg, w, es), e, c)
  }

  predicate LoadsNext(cfg: Config, w: World, e: Event, c: Caller) {
    Step(cfg, w, e).started == w.started + [c]
  }

  /** Past the looks of the waiting loop: on its way back to the clock, or to the distributed lock. */
  predicate Waits(p: Phase) {
    p.Polling? || p.Acquiring?
  }

  lemma WaitStep(cfg: Config, w: World, e: Event, c: Caller)
    requires w.cache.Some? && KeepsValues(e) && !Waits(PhaseOf(w, c))
    ensures !Waits(PhaseOf(Step(cfg, w, e), c)) && !LoadsNext(cfg, w, e, c)
  {
    StoredValueIsReloadedExactlyWhen(cfg, w, e);
    assert (w.started + [c])[|w.started|] == c;
    assert Reloads(cfg, w, e) ==> (w.started + [e.caller])[|w.started|] == e.caller;
  }

  lemma {:induction false} OthersNeverReload(cfg: Config, w: World, es: seq<Event>, c: Caller)
    requires w.cache.Some? && (forall x :: SomethingFor(w, x)) && KeepValues(es) && !Waits(PhaseOf(w, c))
    ensures !Waits(PhaseOf(Run(cfg, w, es), c))
  {
    if es != [] {
      hide SomethingFor, Step, Waits;
      OthersNeverReload(cfg, w, es[..|es| - 1], c);
      StoredValueStays(cfg, w, es[..|es| - 1]);
      WaitStep(cfg, Run(cfg, w, es[..|es| - 1]), es[|es| - 1], c);
    }
  }

  /** Once a value is stored, who can still load it again: exactly the callers that are between a
      missed look inside their process's lock and their next check of the deadline. (`uuid` is the
      token of one more attempt.) */
  lemma WhoMayReload(cfg: Config, w: World, c: Caller, uuid: string)
    requires w.cache.Some? && (forall x :: SomethingFor(w, x))
    requires uuid !in w.lock.issued && LeaseLock.IsUuidHex(uuid)
    ensures MayReload(cfg, w, c) <==> Waits(PhaseOf(w, c))
  {
    if MayReload(cfg, w, c) {
      var es, e :| KeepValues(es) && KeepsValues(e) && LoadsNext(cfg, Run(cfg, w, es), e, c);
      if !Waits(PhaseOf(w, c)) {
        OthersNeverReload(cfg, w, es, c);
        StoredValueStays(cfg, w, es);
        WaitStep(cfg, Run(cfg, w, es), e, c);
        assert false;
      }
    } else if PhaseOf(w, c).Acquiring? {
      var none: seq<Event>, attempt := [], TryLock(c, uuid, LeaseLock.NeverRan);
      assert KeepValues(none) && KeepsValues(attempt) && LoadsNext(cfg, Run(cfg, w, none), attempt, c);
    } else if PhaseOf(w, c).Polling? {
      var wait := Tick(if PhaseOf(w, c).deadline <= w.lock.now then 0 else PhaseOf(w, c).deadline - w.lock.now);
      assert [wait][..0] == [] && Run(cfg, w, [wait]) == Step(cfg, Run(cfg, w, []), wait);
      var es, check := [wait], CheckClock(c);
      assert KeepValues(es) && KeepsValues(check) && LoadsNext(cfg, Run(cfg, w, es), check, c);
    }
  }

  /** The five steps from the first look to the attempt on the distributed lock. */
  function Approach(cfg: Config, w: World, c: Caller): World {
    var inside := Step(cfg, Step(cfg, w, Look(c, true)), Enter(c));
    Step(cfg, Step(cfg, Step(cfg, inside, Look(c, true)), CheckClock(c)), Look(c, true))
  }

  lemma ApproachReachesTheLock(cfg: Config, w: World, c: Caller)
    requires cfg.redisEnabled && w.cache.None? && PhaseOf(w, c).Idle? && cfg.processOf(c) !in w.inside
    ensures var w' := Approach(cfg, w, c);
            && PhaseOf(w', c) == Acquiring(w.lock.now + WAIT_SECONDS * SECOND)
            && (forall x :: x != c ==> PhaseOf(w', x) == PhaseOf(w, x))
            && w'.inside == w.inside[cfg.processOf(c) := c]
            && w'.cache == None && w'.lock == w.lock && w'.started == w.started && w'.results == w.results
  {
    var w1 := Step(cfg, w, Look(c, true));
    assert PhaseOf(w1, c) == Waiting;
    var w2 := Step(cfg, w1, Enter(c));
    assert PhaseOf(w2, c) == Inside;
    var w3 := Step(cfg, w2, Look(c, true));
    assert PhaseOf(w3, c) == Polling(w.lock.now + WAIT_SECONDS * SECOND);
    var w4 := Step(cfg, w3, CheckClock(c));
    assert PhaseOf(w4, c) == Peeking(w.lock.now + WAIT_SECONDS * SECOND);
  }

  /** Winning the distributed lock is followed by a load at once, whatever the cache holds; */
  lemma EarlyLookersReload(cfg: Config, w: World, c: Caller, uuid: string)
    requires PhaseOf(w, c).Acquiring? && uuid !in w.lock.issued && LeaseLock.IsUuidHex(uuid)
    requires !LeaseLock.Live(w.lock.locks, cfg.lockKey, w.lock.now)
    ensures var w' := Step(cfg, w, TryLock(c, uuid, LeaseLock.Answered));
            PhaseOf(w', c) == Loading(Some(uuid)) && w'.cache == w.cache && w'.started == w.started + [c]
  {
  }

  /** and so is a deadline found passed. */
  lemma TimedOutWaitersReload(cfg: Config, w: World, c: Caller)
    requires PhaseOf(w, c).Polling? && w.lock.now >= PhaseOf(w, c).deadline
    ensures var w' := Step(cfg, w, CheckClock(c));
            PhaseOf(w', c) == Loading(None) && w'.cache == w.cache && w'.started == w.started + [c]
  {
  }

  /** The rest of a load under a token: run the loader, store, give the lock back. */
  function FinishLoad(cfg: Config, w: World, c: Caller, x: Value): World {
    Step(cfg, Step(cfg, Step(cfg, w, LoadEnds(c, Some(x))), StoreEnds(c, true)), LetGo(c, true))
  }

  lemma FinishLoadFreesTheLock(cfg: Config, w: World, c: Caller, token: string, x: Value)
    requires PhaseOf(w, c) == Loading(Some(token)) && LeaseLock.IsUuidHex(token)
    requires LeaseLock.Live(w.lock.locks, cfg.lockKey, w.lock.now) && w.lock.locks[cfg.lockKey].token == token
    ensures var w' := FinishLoad(cfg, w, c, x);
            && PhaseOf(w', c) == Done(Some(x), Loaded)
            && (forall y :: y != c ==> PhaseOf(w', y) == PhaseOf(w, y))
            && w'.cache == Some(x) && cfg.lockKey !in w'.lock.locks
            && w'.lock.issued == w.lock.issued && w'.started == w.started
  {
    LeaseLock.HexIsNotFailOpen(token);
    var stored := Step(cfg, Step(cfg, w, LoadEnds(c, Some(x))), StoreEnds(c, true));
    assert PhaseOf(stored, c) == Releasing(Some(token), Returned(Some(x))) && stored.lock == w.lock;
  }

  /** So "loaded once" fails across processes, with nothing lost and no error: both callers look
      before the first has stored, and the second wins the lock after the first gave it back. */
  lemma LoadedTwice(cfg: Config, a: Caller, b: Caller, u: string, v: string, x: Value, now: Instant)
    requires cfg.redisEnabled && cfg.processOf(a) != cfg.processOf(b) && u != v
    requires LeaseLock.IsUuidHex(u) && LeaseLock.IsUuidHex(v)
    ensures var both := Approach(cfg, Approach(cfg, Start(now), a), b);
            var done := FinishLoad(cfg, Step(cfg, both, TryLock(a, u, LeaseLock.Answered)), a, x);
            var again := Step(cfg, done, TryLock(b, v, LeaseLock.Answered));
            && PhaseOf(done, a) == Done(Some(x), Loaded) && done.cache == Some(x)
            && again.started == [a, b] && PhaseOf(again, b) == Loading(Some(v)) && again.cache == Some(x)
  {
    hide Approach, FinishLoad;
    ApproachReachesTheLock(cfg, Start(now), a);
    var one := Approach(cfg, Start(now), a);
    ApproachReachesTheLock(cfg, one, b);
    var both := Approach(cfg, one, b);
    EarlyLookersReload(cfg, both, a, u);
    var locked := Step(cfg, both, TryLock(a, u, LeaseLock.Answered));
    assert PhaseOf(locked, b).Acquiring? && locked.lock.issued == {u};
    FinishLoadFreesTheLock(cfg, locked, a, u, x);
    var done := FinishLoad(cfg, locked, a, x);
    EarlyLookersReload(cfg, done, b, v);
  }

  // ---------------------------------------------------------------- waiting

  datatype Attempt = Token(token: string) | Refused | Unavailable

  /** What one turn of the waiting loop meets: the clock at its head, the look, the attempt. */
  datatype Poll = Poll(at: Instant, seen: bool, attempt: Attempt)

  datatype Verdict = TimedOut | FilledByOther | Owns(token: string) | LockUnavailable

  /** The clock is read first after `start`, advances by the pause at least, and passes the deadline. */
  predicate ClockRuns(polls: seq<Poll>, start: Instant) {
    && polls != [] && polls[0].at >= start && polls[|polls| - 1].at >= start + WAIT_SECONDS * SECOND
    && forall i {:trigger polls[i]} :: 0 < i < |polls| ==> polls[i].at >= polls[i - 1].at + POLL_MICROSECONDS
  }

  lemma {:induction false} PollsAdvance(polls: seq<Poll>, start: Instant, i: nat)
    requires ClockRuns(polls, start) && i < |polls|
    ensures polls[i].at >= start + 50_000 * i
  {
    if i > 0 {
      PollsAdvance(polls, start, i - 1);
    }
  }

  lemma SomePolls(polls: seq<Poll>, start: Instant)
    requires ClockRuns(polls, start)
    ensures polls != []
  {
  }

  lemma FewTurns(polls: seq<Poll>, start: Instant, turns: nat)
    requires ClockRuns(polls, start) && turns < |polls|
    requires forall i :: 0 <= i < turns ==> polls[i].at < start + WAIT_SECONDS * SECOND
    ensures turns <= 100
    ensures turns == |polls| - 1 ==> polls[turns].at >= start + WAIT_SECONDS * SECOND
  {
    if turns > 100 {
      PollsAdvance(polls, start, 100);
    }
  }

  /** Turn `i` is the first that finds the deadline passed or the value, or whose attempt on the lock is
      not refused. */
  predicate EndsAt(polls: seq<Poll>, start: Instant, i: nat) {
    && i < |polls|
    && (polls[i].at >= start + WAIT_SECONDS * SECOND || polls[i].seen || !polls[i].attempt.Refused?)
    && forall j :: 0 <= j < i ==>
         polls[j].at < start + WAIT_SECONDS * SECOND && !polls[j].seen && polls[j].attempt.Refused?
  }

  lemma {:induction false} WaitEnds(polls: seq<Poll>, start: Instant, i: nat)
    requires ClockRuns(polls, start) && i < |polls|
    requires forall j :: 0 <= j < i ==>
               polls[j].at < start + WAIT_SECONDS * SECOND && !polls[j].seen && polls[j].attempt.Refused?
    ensures exists k: nat :: EndsAt(polls, start, k)
    decreases |polls| - i
  {
    hide ClockRuns;
    FewTurns(polls, start, i);
    if polls[i].at >= start + WAIT_SECONDS * SECOND || polls[i].seen || !polls[i].attempt.Refused? {
      assert EndsAt(polls, start, i);
    } else {
      WaitEnds(polls, start, i + 1);
    }
  }

  /** A caller that missed twice, by the turn its wait ends at: before the deadline, whoever sees the
      value loads nothing and answers what it reads next, and whoever gets the lock loads under its
      token and gives that back; everybody else loads without a token. */
  predicate LoadFits(end: Option<Poll>, deadline: Instant, reread: Option<Value>, loaded: Outcome,
                     outcome: Outcome, loads: nat, released: seq<string>) {
    if end.Some? && end.value.at < deadline && end.value.seen
    then loads == 0 && released == [] && outcome == Returned(reread)
    else if end.Some? && end.value.at < deadline && end.value.attempt.Token?
    then loads == 1 && released == [end.value.attempt.token] && outcome == loaded
    else loads == 1 && released == [] && outcome == loaded
  }

  /** The wait ends at the first turn that decides, with that turn's verdict, and within 101 turns. */
  method WaitForDistributedLock(enabled: bool, start: Instant, polls: seq<Poll>) returns (verdict: Verdict, turns: nat)
    requires enabled ==> ClockRuns(polls, start)
    ensures !enabled ==> verdict == TimedOut && turns == 0
    ensures enabled ==>
              && turns < |polls| && turns <= 100
              && EndsAt(polls, start, turns)
              && (verdict.TimedOut? <==> polls[turns].at >= start + WAIT_SECONDS * SECOND)
              && (verdict.FilledByOther? <==> polls[turns].at < start + WAIT_SECONDS * SECOND && polls[turns].seen)
              && (verdict.Owns? <==> polls[turns].at < start + WAIT_SECONDS * SECOND && !polls[turns].seen
                                     && polls[turns].attempt.Token?)
              && (verdict.Owns? ==> polls[turns].attempt == Token(verdict.token))
  {
    turns := 0;
    if !enabled {
      return TimedOut, 0;
    }
    hide ClockRuns;
    SomePolls(polls, start);
    var deadline := start + WAIT_SECONDS * SECOND;
    while polls[turns].at < deadline
      invariant turns < |polls|
      invariant forall i :: 0 <= i < turns ==> polls[i].at < deadline && !polls[i].seen && polls[i].attempt.Refused?
      decreases |polls| - turns
    {
      FewTurns(polls, start, turns);
      if polls[turns].seen {
        return FilledByOther, turns;
      }
      match polls[turns].attempt {
        case Unavailable => return LockUnavailable, turns;
        case Token(token) => return Owns(token), turns;
        case Refused =>
      }
      turns := turns + 1;
    }
    FewTurns(polls, start, turns);
    return TimedOut, turns;
  }

  /** One caller's way through, by what its awaits meet: two looks, the wait, another look if it was
      told the cache is filled, or the loader's outcome and the storing. The loader runs exactly when
      both looks missed and nobody filled the cache; and whatever it and the storing do, the token the
      wait gained is released, that token and no other. */
  method CoordinatedCacheLoad(first: Option<Value>, second: Option<Value>, enabled: bool, start: Instant,
                              polls: seq<Poll>, reread: Option<Value>, loader: Outcome, storingRaises: bool)
    returns (outcome: Outcome, verdict: Verdict, loads: nat, released: seq<string>)
    requires enabled ==> ClockRuns(polls, start)
    ensures first.Some? || second.Some? ==>
              loads == 0 && released == [] && outcome == Returned(if first.Some? then first else second)
    ensures first.None? && second.None? ==>
              && loads == (if verdict.FilledByOther? then 0 else 1)
              && released == (if verdict.Owns? then [verdict.token] else [])
              && outcome == (if verdict.FilledByOther? then Returned(reread) else if storingRaises then Raised else loader)
    ensures first.None? && second.None? && enabled ==>
              && (exists i: nat :: EndsAt(polls, start, i))
              && forall i: nat :: EndsAt(polls, start, i) ==>
                   LoadFits(Some(polls[i]), start + WAIT_SECONDS * SECOND, reread, if storingRaises then Raised else loader,
                            outcome, loads, released)
    ensures first.None? && second.None? && !enabled ==>
              LoadFits(None, start + WAIT_SECONDS * SECOND, reread, if storingRaises then Raised else loader,
                       outcome, loads, released)
  {
    verdict, loads, released := TimedOut, 0, [];
    if first.Some? {
      return Returned(first), verdict, loads, released;
    }
    if second.Some? {
      return Returned(second), verdict, loads, released;
    }
    var turns;
    verdict, turns := WaitForDistributedLock(enabled, start, polls);
    if verdict.FilledByOther? {
      return Returned(reread), verdict, loads, released;
    }
    var token := if verdict.Owns? then Some(verdict.token) else None;
    loads := 1;
    outcome := loader;
    if loader.Returned? && storingRaises {
      outcome := Raised;
    }
    if token.Some? {
      released := [token.value];
    }
  }
}
