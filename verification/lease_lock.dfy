/**
 Expiring locks kept in Redis: taken with SET NX EX under a fresh token, given back by a script
 that deletes the key only while it still holds that token.

 Each Redis command is one atomic event. A command may fail before or after it took effect, a
 holder may crash or outlive its lease, and releases may come late or not at all.
 */
module LeaseLock {
  import opened Prelude

  const FAIL_OPEN_PREFIX: string := "redis-unavailable:"

  datatype Lease = Lease(token: string, expiresAt: Instant)

  /** How a SET command went: answered, never run, or run with its answer lost. */
  datatype Reply = Answered | NeverRan | AnswerLost

  datatype OnError = Proceed | Skip

  /** A run that was allowed to start, and since when. */
  datatype Ticket = Ticket(key: string, since: Instant)

  datatype World = World(locks: map<string, Lease>, now: Instant, issued: set<string>, running: map<string, Ticket>)

  datatype Event =
    | TryAcquire(key: string, uuid: string, reply: Reply, onError: OnError)
    | Release(key: string, handle: string, delivered: bool)
    | Crash(handle: string)
    | Tick(elapsed: nat)

  // ---------------------------------------------------------------- the transitions

  /** The shape of `uuid4().hex`. */
  predicate IsUuidHex(s: string) {
    |s| == 32 && forall i :: 0 <= i < |s| ==> '0' <= s[i] <= '9' || 'a' <= s[i] <= 'f'
  }

  const HEX_DIGITS: string := "0123456789abcdef"

  /** The tokens are the strings of 32 lower-case hexadecimal digits. */
  lemma TokensAreHex(s: string)
    ensures IsUuidHex(s) <==> |s| == 32 && forall i :: 0 <= i < |s| ==> s[i] in HEX_DIGITS
  {
    forall i | 0 <= i < |s| ensures s[i] in HEX_DIGITS <==> '0' <= s[i] <= '9' || 'a' <= s[i] <= 'f' {
      HexDigitsAreRanges(s[i]);
    }
  }

  lemma HexDigitsAreRanges(c: char)
    ensures c in HEX_DIGITS <==> '0' <= c <= '9' || 'a' <= c <= 'f'
  {
    if '0' <= c <= '9' {
      assert HEX_DIGITS[(c as int) - ('0' as int)] == c;
    } else if 'a' <= c <= 'f' {
      assert HEX_DIGITS[(c as int) - ('a' as int) + 10] == c;
    }
  }

  predicate IsFailOpen(handle: string) {
    FAIL_OPEN_PREFIX <= handle
  }

  /** Redis holds the key and it has not expired. */
  predicate Live(locks: map<string, Lease>, key: string, now: Instant) {
    key in locks && now < locks[key].expiresAt
  }

  function SetIfAbsent(locks: map<string, Lease>, key: string, token: string, seconds: nat, now: Instant)
    : map<string, Lease>
  {
    if Live(locks, key, now) then locks else locks[key := Lease(token, now + seconds * SECOND)]
  }

  function CompareAndDelete(locks: map<string, Lease>, key: string, token: string, now: Instant): map<string, Lease> {
    if Live(locks, key, now) && locks[key].token == token then locks - {key} else locks
  }

  /** One attempt: the world after it and the handle the caller gets, if it may run.
      Tokens are fresh, so an attempt with a used one does not happen. */
  function StepTryAcquire(ttl: string -> nat, w: World, e: Event): (World, Option<string>)
    requires e.TryAcquire?
  {
    if e.uuid in w.issued || !IsUuidHex(e.uuid) then (w, None)
    else
      var handle :=
        if e.reply.Answered? then (if Live(w.locks, e.key, w.now) then None else Some(e.uuid))
        else if e.onError.Proceed? then Some(FAIL_OPEN_PREFIX + e.uuid)
        else None;
      (World(if e.reply.NeverRan? then w.locks else SetIfAbsent(w.locks, e.key, e.uuid, ttl(e.key), w.now),
             w.now,
             w.issued + {e.uuid},
             if handle.Some? then w.running[handle.value := Ticket(e.key, w.now)] else w.running),
       handle)
  }

  function StepRelease(w: World, e: Event): World
    requires e.Release?
  {
    var acts := e.handle != [] && !IsFailOpen(e.handle) && e.delivered;
    w.(locks := if acts then CompareAndDelete(w.locks, e.key, e.handle, w.now) else w.locks,
       running := w.running - {e.handle})
  }

  function Step(ttl: string -> nat, w: World, e: Event): World {
    match e
    case TryAcquire(_, _, _, _) => StepTryAcquire(ttl, w, e).0
    case Release(_, _, _) => StepRelease(w, e)
    case Crash(handle) => w.(running := w.running - {handle})
    case Tick(elapsed) => w.(now := w.now + elapsed)
  }

  function Run(ttl: string -> nat, w: World, es: seq<Event>): World {
    if es == [] then w
    else Step(ttl, Run(ttl, w, es[..|es| - 1]), es[|es| - 1])
  }

  function Start(now: Instant): World {
    World(map[], now, {}, map[])
  }

  // ---------------------------------------------------------------- the invariant

  /** The run has been going for as long as its lease lasts. */
  predicate Overstayed(ttl: string -> nat, w: World, handle: string)
    requires handle in w.running
  {
    w.now >= w.running[handle].since + ttl(w.running[handle].key) * SECOND
  }

  predicate TokenHolder(w: World, handle: string) {
    handle in w.running && !IsFailOpen(handle)
  }

  /** A run that got a token still has its lease, unless it has overstayed it. */
  predicate HolderInv(ttl: string -> nat, w: World, handle: string)
    requires handle in w.running
  {
    var t := w.running[handle];
    && handle in w.issued && IsUuidHex(handle) && t.since <= w.now
    && (!Overstayed(ttl, w, handle) ==>
          t.key in w.locks && w.locks[t.key] == Lease(handle, t.since + ttl(t.key) * SECOND))
  }

  predicate LeaseInv(ttl: string -> nat, w: World, key: string)
    requires key in w.locks
  {
    && w.locks[key].token in w.issued && IsUuidHex(w.locks[key].token)
    && w.locks[key].expiresAt <= w.now + ttl(key) * SECOND
  }

  ghost predicate Inv(ttl: string -> nat, w: World) {
    && (forall h :: TokenHolder(w, h) ==> HolderInv(ttl, w, h))
    && (forall k :: k in w.locks ==> LeaseInv(ttl, w, k))
  }

  lemma HexIsNotFailOpen(token: string)
    requires IsUuidHex(token)
    ensures token != [] && !IsFailOpen(token)
  {
    assert FAIL_OPEN_PREFIX[0] == 'r';
  }

  lemma PrefixedIsFailOpen(uuid: string)
    ensures IsFailOpen(FAIL_OPEN_PREFIX + uuid)
  {
  }

  lemma StepKeepsInv(ttl: string -> nat, w: World, e: Event)
    requires Inv(ttl, w)
    ensures Inv(ttl, Step(ttl, w, e))
  {
    var w' := Step(ttl, w, e);
    forall h | TokenHolder(w', h) ensures HolderInv(ttl, w', h) {
      if e.TryAcquire? {
        PrefixedIsFailOpen(e.uuid);
      }
      assert TokenHolder(w, h) ==> HolderInv(ttl, w, h);
    }
    forall k | k in w'.locks ensures LeaseInv(ttl, w', k) {
      assert k in w.locks ==> LeaseInv(ttl, w, k);
    }
  }

  lemma {:induction false} RunKeepsInv(ttl: string -> nat, w: World, es: seq<Event>)
    requires Inv(ttl, w)
    ensures Inv(ttl, Run(ttl, w, es)) && Run(ttl, w, es).now >= w.now
  {
    if es != [] {
      RunKeepsInv(ttl, w, es[..|es| - 1]);
      StepKeepsInv(ttl, Run(ttl, w, es[..|es| - 1]), es[|es| - 1]);
    }
  }

  // ---------------------------------------------------------------- main results

  /** Exclusion: two runs that got tokens for one key are under way at once only if one of them
      has outlived its lease. */
  lemma AtMostOneHolder(ttl: string -> nat, now: Instant, es: seq<Event>, a: string, b: string)
    requires var w := Run(ttl, Start(now), es);
             && TokenHolder(w, a) && TokenHolder(w, b) && w.running[a].key == w.running[b].key
             && !Overstayed(ttl, w, a) && !Overstayed(ttl, w, b)
    ensures a == b
  {
    RunKeepsInv(ttl, Start(now), es);
    var w := Run(ttl, Start(now), es);
    assert HolderInv(ttl, w, a) && HolderInv(ttl, w, b);
  }

  predicate ReleasesToken(e: Event, key: string, token: string) {
    e.Release? && e.key == key && e.handle == token
  }

  /** Ownership: until it expires, a lease stays exactly as it is, whatever acquisitions, crashes
      and releases by others happen; only a release of its own key with its own token ends it. */
  lemma {:induction false} LeaseSurvives(ttl: string -> nat, w: World, es: seq<Event>, key: string)
    requires key in w.locks
    requires forall i :: 0 <= i < |es| ==> !ReleasesToken(es[i], key, w.locks[key].token)
    requires Run(ttl, w, es).now < w.locks[key].expiresAt
    ensures key in Run(ttl, w, es).locks && Run(ttl, w, es).locks[key] == w.locks[key]
  {
    if es != [] {
      LeaseSurvives(ttl, w, es[..|es| - 1], key);
    }
  }

  /** Its own release does end it, at once and without touching any other key, when the command
      gets through; the key is then free. */
  lemma OwnReleaseFrees(ttl: string -> nat, w: World, key: string)
    requires Inv(ttl, w) && Live(w.locks, key, w.now)
    ensures Step(ttl, w, Release(key, w.locks[key].token, true)).locks == w.locks - {key}
  {
    assert LeaseInv(ttl, w, key);
    HexIsNotFailOpen(w.locks[key].token);
  }

  /** Who may run: with an answer from Redis, exactly when no lease is live; without one, exactly
      when the schedule proceeds on errors, and then under a handle that no release acts on. */
  lemma WhoMayRun(ttl: string -> nat, w: World, e: Event)
    requires e.TryAcquire? && e.uuid !in w.issued && IsUuidHex(e.uuid)
    ensures var handle := StepTryAcquire(ttl, w, e).1;
            && (handle.Some? <==> if e.reply.Answered? then !Live(w.locks, e.key, w.now) else e.onError.Proceed?)
            && (handle.Some? ==> (IsFailOpen(handle.value) <==> !e.reply.Answered?))
            && (handle.Some? && e.reply.Answered? ==>
                  Step(ttl, w, e).locks == w.locks[e.key := Lease(handle.value, w.now + ttl(e.key) * SECOND)])
  {
    HexIsNotFailOpen(e.uuid);
  }

  /** What an attempt leaves behind: a lease exactly when its SET took effect on a free key, and a ticket
      for the handle it returned; nothing else changes. */
  lemma AttemptIsRecorded(ttl: string -> nat, w: World, e: Event)
    requires e.TryAcquire? && e.uuid !in w.issued && IsUuidHex(e.uuid)
    ensures var (w', handle) := StepTryAcquire(ttl, w, e);
            && w'.locks == (if !e.reply.NeverRan? && !(e.key in w.locks && w.now < w.locks[e.key].expiresAt)
                            then w.locks[e.key := Lease(e.uuid, w.now + ttl(e.key) * SECOND)] else w.locks)
            && w'.running == (if handle.Some? then w.running[handle.value := Ticket(e.key, w.now)] else w.running)
            && w'.issued == w.issued + {e.uuid} && w'.now == w.now
            && (handle.Some? ==> handle.value == (if e.reply.Answered? then e.uuid else "redis-unavailable:" + e.uuid))
  {
  }

  /** A lock is given back by its own release alone: one that gets through, with the token of the live
      lease on that very key. Any other release, and a crash, leave every lock alone. */
  lemma OnlyOwnReleasesDelete(ttl: string -> nat, w: World, key: string, handle: string, delivered: bool)
    requires Inv(ttl, w)
    ensures var released, crashed := Step(ttl, w, Release(key, handle, delivered)), Step(ttl, w, Crash(handle));
            && released == w.(locks := released.locks, running := w.running - {handle})
            && crashed == w.(running := w.running - {handle})
            && released.locks == (if delivered && key in w.locks && w.now < w.locks[key].expiresAt
                                     && w.locks[key].token == handle
                                  then w.locks - {key} else w.locks)
  {
    if key in w.locks {
      assert LeaseInv(ttl, w, key);
      HexIsNotFailOpen(w.locks[key].token);
    }
  }

  /** Left alone, a lease runs out when its time to live is over, and not before. */
  lemma LeaseRunsOut(ttl: string -> nat, w: World, e: Event, elapsed: nat)
    requires e.TryAcquire? && e.uuid !in w.issued && IsUuidHex(e.uuid) && !e.reply.NeverRan?
    requires !Live(w.locks, e.key, w.now)
    ensures var later := Step(ttl, Step(ttl, w, e), Tick(elapsed));
            later.now == w.now + elapsed && (Live(later.locks, e.key, later.now) <==> elapsed < ttl(e.key) * SECOND)
  {
  }

  /** A fail-open handle never deletes a lock, nor does an empty one. */
  lemma FailOpenNeverDeletes(ttl: string -> nat, w: World, e: Event)
    requires e.TryAcquire? && !e.reply.Answered? && e.uuid !in w.issued && IsUuidHex(e.uuid)
    ensures var (w', handle) := StepTryAcquire(ttl, w, e);
            && (forall key, delivered, v ::
                  Step(ttl, v, Release(key, handle.GetOr([]), delivered)).locks == v.locks)
            && (handle.Some? ==> !TokenHolder(w', handle.value))
  {
  }

  /** When only the answer was lost, nobody holds the token that Redis keeps: the key refuses
      every later attempt for a whole lease, even after the run it let through has released. */
  lemma {:induction false} LostAnswerBlocksTheKey(ttl: string -> nat, w: World, e: Event, es: seq<Event>, next: Event)
    requires e.TryAcquire? && e.reply.AnswerLost? && e.uuid !in w.issued && IsUuidHex(e.uuid)
    requires !Live(w.locks, e.key, w.now)
    requires forall i :: 0 <= i < |es| ==> !ReleasesToken(es[i], e.key, e.uuid)
    requires next.TryAcquire? && next.key == e.key && next.reply.Answered?
    requires Run(ttl, Step(ttl, w, e), es).now < w.now + ttl(e.key) * SECOND
    ensures StepTryAcquire(ttl, Run(ttl, Step(ttl, w, e), es), next).1 == None
  {
    LeaseSurvives(ttl, Step(ttl, w, e), es, e.key);
  }

  /** Recovery: once a lease time has passed with no attempt on the key, it is free, whatever
      its holder did. */
  lemma {:induction false} FreeAfterALeaseTime(ttl: string -> nat, w: World, es: seq<Event>, key: string)
    requires Inv(ttl, w)
    requires forall i :: 0 <= i < |es| ==> !(es[i].TryAcquire? && es[i].key == key)
    ensures key in Run(ttl, w, es).locks ==> Run(ttl, w, es).locks[key].expiresAt <= w.now + ttl(key) * SECOND
    ensures Run(ttl, w, es).now >= w.now + ttl(key) * SECOND ==> !Live(Run(ttl, w, es).locks, key, Run(ttl, w, es).now)
  {
    if es == [] {
      assert key in w.locks ==> LeaseInv(ttl, w, key);
    } else {
      FreeAfterALeaseTime(ttl, w, es[..|es| - 1], key);
    }
  }

  // ---------------------------------------------------------------- the code that does it

  class LockClient {
    const ttl: string -> nat
    var locks: map<string, Lease>
    ghost var world: World

    ghost predicate Valid()
      reads this
    {
      Inv(ttl, world) && world.locks == locks
    }

    constructor (ttl: string -> nat, now: Instant)
      ensures Valid() && this.ttl == ttl && world == Start(now)
    {
      this.ttl, locks, world := ttl, map[], Start(now);
    }

    /** SET NX EX. */
    method SetKey(key: string, token: string, now: Instant) returns (acquired: bool)
      modifies `locks
      ensures locks == SetIfAbsent(old(locks), key, token, ttl(key), now)
      ensures acquired <==> !Live(old(locks), key, now)
    {
      acquired := key !in locks || now >= locks[key].expiresAt;
      if acquired {
        locks := locks[key := Lease(token, now + ttl(key) * SECOND)];
      }
    }

    /** The release script. */
    method DeleteIfOwned(key: string, token: string, now: Instant)
      modifies `locks
      ensures locks == CompareAndDelete(old(locks), key, token, now)
    {
      if key in locks && now < locks[key].expiresAt && locks[key].token == token {
        locks := locks - {key};
      }
    }

    method TryAcquireBeatLock(key: string, uuid: string, reply: Reply, onError: OnError, now: Instant)
      returns (handle: Option<string>)
      requires Valid() && now == world.now && IsUuidHex(uuid) && uuid !in world.issued
      modifies this
      ensures Valid()
      ensures (world, handle) == StepTryAcquire(ttl, old(world), TryAcquire(key, uuid, reply, onError))
    {
      ghost var e := TryAcquire(key, uuid, reply, onError);
      StepKeepsInv(ttl, world, e);
      world := Step(ttl, world, e);
      var acquired := false;
      if !reply.NeverRan? {
        acquired := SetKey(key, uuid, now);
      }
      if !reply.Answered? {
        return if onError.Proceed? then Some(FAIL_OPEN_PREFIX + uuid) else None;
      }
      return if acquired then Some(uuid) else None;
    }

    method ReleaseBeatLock(key: string, handle: Option<string>, delivered: bool, now: Instant)
      requires Valid() && now == world.now
      modifies this
      ensures Valid()
      ensures world == if handle.None? then old(world) else Step(ttl, old(world), Release(key, handle.value, delivered))
    {
      if handle.None? {
        return;
      }
      ghost var e := Release(key, handle.value, delivered);
      StepKeepsInv(ttl, world, e);
      world := Step(ttl, world, e);
      if handle.value == [] || FAIL_OPEN_PREFIX <= handle.value {
        return;
      }
      if delivered {
        DeleteIfOwned(key, handle.value, now);
      }
    }
  }
}
