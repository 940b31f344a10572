/**
 Refresh-token sessions: a sign-in opens a session, a refresh trades its token for the next one,
 logout and password reset revoke.

 A refresh reads the session and rotates it in a later statement; a reset lists the user's sessions
 and revokes them when it commits. Any number of both may be under way, and anything may happen
 between the two halves. Token hashes are fresh and never collide.
 */
module RefreshSessions {
  import opened Prelude

  type TokenHash = nat
  type UserId = nat
  type AttemptId = nat

  /** The row under its token hash. `lineage` is the hash of the sign-in's own session; it is
      bookkeeping of the model, not a column. */
  datatype Session = Session(user: UserId, lineage: TokenHash, revoked: bool, expiresAt: Instant)

  datatype Rotation = Rotation(spent: TokenHash, issued: TokenHash)

  datatype World = World(
    sessions: map<TokenHash, Session>,
    now: Instant,
    refreshes: map<AttemptId, TokenHash>,
    resets: map<AttemptId, set<TokenHash>>,
    log: seq<Rotation>)

  datatype Event =
    | SignIn(user: UserId, token: TokenHash)
    | ReadForRefresh(attempt: AttemptId, token: TokenHash, userMayRefresh: bool)
    | Rotate(attempt: AttemptId, next: TokenHash)
    | Revoke(token: TokenHash)
    | ListForReset(attempt: AttemptId, user: UserId)
    | CommitReset(attempt: AttemptId)
    | Vanish(attempt: AttemptId)
    | Tick(elapsed: nat)

  // ---------------------------------------------------------------- the transitions

  /** What counts as an active session everywhere but in the first check of a refresh. */
  predicate Live(s: Session, now: Instant) {
    !s.revoked && now < s.expiresAt
  }

  /** That first check: it lets a session pass at the very instant it expires. */
  predicate PassesRead(s: Session, now: Instant) {
    !s.revoked && !(s.expiresAt < now)
  }

  function Spend(s: Session): Session {
    s.(revoked := true)
  }

  function RevokeEach(sessions: map<TokenHash, Session>, tokens: set<TokenHash>): map<TokenHash, Session> {
    map t | t in sessions :: if t in tokens then Spend(sessions[t]) else sessions[t]
  }

  function LiveTokens(sessions: map<TokenHash, Session>, user: UserId, now: Instant): set<TokenHash> {
    set t | t in sessions && sessions[t].user == user && Live(sessions[t], now)
  }

  /** The conditional update wins: the row is still unrevoked and unexpired now. */
  predicate RotationWins(w: World, e: Event)
    requires e.Rotate?
  {
    && e.attempt in w.refreshes && e.next !in w.sessions
    && w.refreshes[e.attempt] in w.sessions && Live(w.sessions[w.refreshes[e.attempt]], w.now)
  }

  function StepRotate(lifetime: nat, w: World, e: Event): World
    requires e.Rotate?
  {
    var ended := w.(refreshes := w.refreshes - {e.attempt});
    if !RotationWins(w, e) then ended
    else
      var token := w.refreshes[e.attempt];
      var s := w.sessions[token];
      ended.(sessions := w.sessions[token := Spend(s)][e.next := Session(s.user, s.lineage, false, w.now + lifetime)],
             log := w.log + [Rotation(token, e.next)])
  }

  function Step(lifetime: nat, w: World, e: Event): World {
    match e
    case SignIn(user, token) =>
      if token in w.sessions then w
      else w.(sessions := w.sessions[token := Session(user, token, false, w.now + lifetime)])
    case ReadForRefresh(attempt, token, userMayRefresh) =>
      if token in w.sessions && PassesRead(w.sessions[token], w.now) && userMayRefresh
      then w.(refreshes := w.refreshes[attempt := token]) else w
    case Rotate(_, _) => StepRotate(lifetime, w, e)
    case Revoke(token) => w.(sessions := RevokeEach(w.sessions, {token}))
    case ListForReset(attempt, user) => w.(resets := w.resets[attempt := LiveTokens(w.sessions, user, w.now)])
    case CommitReset(attempt) =>
      if attempt !in w.resets then w
      else w.(sessions := RevokeEach(w.sessions, w.resets[attempt]), resets := w.resets - {attempt})
    case Vanish(attempt) => w.(refreshes := w.refreshes - {attempt}, resets := w.resets - {attempt})
    case Tick(elapsed) => w.(now := w.now + elapsed)
  }

  function Run(lifetime: nat, w: World, es: seq<Event>): World {
    if es == [] then w
    else Step(lifetime, Run(lifetime, w, es[..|es| - 1]), es[|es| - 1])
  }

  function Start(now: Instant): World {
    World(map[], now, map[], map[], [])
  }

  // ---------------------------------------------------------------- what steps preserve

  function Rotations(log: seq<Rotation>, token: TokenHash): nat {
    if log == [] then 0
    else Rotations(log[..|log| - 1], token) + (if log[|log| - 1].spent == token then 1 else 0)
  }

  /** No row goes; users, lineages and expiries stay; revocation is never undone. */
  predicate Extends(before: map<TokenHash, Session>, after: map<TokenHash, Session>) {
    forall t :: t in before ==>
      && t in after && after[t].user == before[t].user && after[t].lineage == before[t].lineage
      && after[t].expiresAt == before[t].expiresAt && (before[t].revoked ==> after[t].revoked)
  }

  lemma StepExtends(lifetime: nat, w: World, e: Event)
    ensures Extends(w.sessions, Step(lifetime, w, e).sessions) && w.now <= Step(lifetime, w, e).now
  {
  }

  /** Revocation is final, and so is everything else a row says, over any run. */
  lemma {:induction false} RevocationIsFinal(lifetime: nat, w: World, es: seq<Event>)
    ensures Extends(w.sessions, Run(lifetime, w, es).sessions) && w.now <= Run(lifetime, w, es).now
  {
    if es != [] {
      RevocationIsFinal(lifetime, w, es[..|es| - 1]);
      StepExtends(lifetime, Run(lifetime, w, es[..|es| - 1]), es[|es| - 1]);
    }
  }

  /** A lineage starts with a session of its own name and user, and a row is rotated once at most,
      ending up revoked. */
  predicate RowInv(w: World, t: TokenHash)
    requires t in w.sessions
  {
    var s := w.sessions[t];
    && s.lineage in w.sessions && w.sessions[s.lineage].lineage == s.lineage && w.sessions[s.lineage].user == s.user
    && Rotations(w.log, t) <= 1 && (Rotations(w.log, t) == 1 ==> s.revoked)
  }

  /** Two rows of one lineage are not both unrevoked. */
  predicate PairInv(w: World, a: TokenHash, b: TokenHash)
    requires a in w.sessions && b in w.sessions
  {
    a != b && w.sessions[a].lineage == w.sessions[b].lineage ==> w.sessions[a].revoked || w.sessions[b].revoked
  }

  predicate LogInv(w: World) {
    forall i :: 0 <= i < |w.log| ==> w.log[i].spent in w.sessions && w.log[i].issued in w.sessions
  }

  ghost predicate Inv(w: World) {
    && (forall t :: t in w.sessions ==> RowInv(w, t))
    && (forall a, b :: a in w.sessions && b in w.sessions ==> PairInv(w, a, b))
    && LogInv(w)
  }

  lemma RotationsAppend(log: seq<Rotation>, r: Rotation, t: TokenHash)
    ensures Rotations(log + [r], t) == Rotations(log, t) + (if r.spent == t then 1 else 0)
  {
    assert (log + [r])[..|log|] == log;
  }

  lemma {:induction false} UnseenIsUnspent(log: seq<Rotation>, t: TokenHash)
    requires forall i :: 0 <= i < |log| ==> log[i].spent != t
    ensures Rotations(log, t) == 0
  {
    if log != [] {
      UnseenIsUnspent(log[..|log| - 1], t);
    }
  }

  lemma StepKeepsRow(lifetime: nat, w: World, e: Event, t: TokenHash)
    requires Inv(w) && t in Step(lifetime, w, e).sessions
    ensures RowInv(Step(lifetime, w, e), t)
  {
    hide Rotations;
    StepExtends(lifetime, w, e);
    if t in w.sessions {
      assert RowInv(w, t);
    } else {
      UnseenIsUnspent(w.log, t);
    }
    if e.Rotate? && RotationWins(w, e) {
      assert RowInv(w, w.refreshes[e.attempt]);
      RotationsAppend(w.log, Rotation(w.refreshes[e.attempt], e.next), t);
    }
  }

  lemma StepKeepsPair(lifetime: nat, w: World, e: Event, a: TokenHash, b: TokenHash)
    requires Inv(w) && a in Step(lifetime, w, e).sessions && b in Step(lifetime, w, e).sessions
    ensures PairInv(Step(lifetime, w, e), a, b)
  {
    StepExtends(lifetime, w, e);
    assert a in w.sessions ==> RowInv(w, a);
    assert b in w.sessions ==> RowInv(w, b);
    assert a in w.sessions && b in w.sessions ==> PairInv(w, a, b);
    if e.Rotate? && RotationWins(w, e) {
      var token := w.refreshes[e.attempt];
      assert RowInv(w, token);
      assert a in w.sessions ==> PairInv(w, a, token);
      assert b in w.sessions ==> PairInv(w, b, token);
    }
  }

  lemma StepKeepsInv(lifetime: nat, w: World, e: Event)
    requires Inv(w)
    ensures Inv(Step(lifetime, w, e))
  {
    var w' := Step(lifetime, w, e);
    forall t | t in w'.sessions ensures RowInv(w', t) {
      StepKeepsRow(lifetime, w, e, t);
    }
    forall a, b | a in w'.sessions && b in w'.sessions ensures PairInv(w', a, b) {
      StepKeepsPair(lifetime, w, e, a, b);
    }
    StepExtends(lifetime, w, e);
  }

  lemma {:induction false} RunKeepsInv(lifetime: nat, now: Instant, es: seq<Event>)
    ensures Inv(Run(lifetime, Start(now), es))
  {
    if es != [] {
      RunKeepsInv(lifetime, now, es[..|es| - 1]);
      StepKeepsInv(lifetime, Run(lifetime, Start(now), es[..|es| - 1]), es[|es| - 1]);
    }
  }

  // ---------------------------------------------------------------- main results

  /** Each token wins a rotation at most once, in any interleaving, and is revoked by it. */
  lemma {:induction false} RotatedAtMostOnce(lifetime: nat, now: Instant, es: seq<Event>, t: TokenHash)
    ensures var w := Run(lifetime, Start(now), es);
            && Rotations(w.log, t) <= 1
            && (Rotations(w.log, t) == 1 ==> t in w.sessions && w.sessions[t].revoked)
  {
    RunKeepsInv(lifetime, now, es);
    var w := Run(lifetime, Start(now), es);
    if t in w.sessions {
      assert RowInv(w, t);
    } else {
      UnseenIsUnspent(w.log, t);
    }
  }

  /** Every sign-in's lineage has at most one unrevoked session, and one user. */
  lemma OneUnrevokedPerLineage(lifetime: nat, now: Instant, es: seq<Event>, a: TokenHash, b: TokenHash)
    requires var w := Run(lifetime, Start(now), es);
             a in w.sessions && b in w.sessions && w.sessions[a].lineage == w.sessions[b].lineage
    ensures var w := Run(lifetime, Start(now), es);
            && w.sessions[a].user == w.sessions[b].user
            && (!w.sessions[a].revoked && !w.sessions[b].revoked ==> a == b)
  {
    RunKeepsInv(lifetime, now, es);
    var w := Run(lifetime, Start(now), es);
    assert RowInv(w, a) && RowInv(w, b) && PairInv(w, a, b);
  }

  predicate Dead(w: World, t: TokenHash) {
    t in w.sessions && !Live(w.sessions[t], w.now)
  }

  lemma {:induction false} DeadForever(lifetime: nat, w: World, es: seq<Event>, t: TokenHash)
    requires Dead(w, t)
    ensures Dead(Run(lifetime, w, es), t)
  {
    RevocationIsFinal(lifetime, w, es);
  }

  lemma DeadRotatesNoMore(lifetime: nat, w: World, e: Event, t: TokenHash)
    requires Dead(w, t)
    ensures Rotations(Step(lifetime, w, e).log, t) == Rotations(w.log, t)
  {
    hide Rotations;
    if e.Rotate? && RotationWins(w, e) {
      RotationsAppend(w.log, Rotation(w.refreshes[e.attempt], e.next), t);
    }
  }

  lemma {:induction false} DeadIsNeverSpent(lifetime: nat, w: World, es: seq<Event>, t: TokenHash)
    requires Dead(w, t)
    ensures Rotations(Run(lifetime, w, es).log, t) == Rotations(w.log, t)
  {
    if es != [] {
      DeadIsNeverSpent(lifetime, w, es[..|es| - 1], t);
      DeadForever(lifetime, w, es[..|es| - 1], t);
      DeadRotatesNoMore(lifetime, Run(lifetime, w, es[..|es| - 1]), es[|es| - 1], t);
    }
  }

  /** Logout: the session of the token is revoked and nothing else changes; and in no continuation does
      a refresh with that token win, under way though it may have been. */
  lemma LogoutEndsTheSession(lifetime: nat, w: World, token: TokenHash, es: seq<Event>, e: Event)
    requires token in w.sessions
    ensures var out := Step(lifetime, w, Revoke(token));
            var w' := Run(lifetime, out, es);
            && out == w.(sessions := w.sessions[token := w.sessions[token].(revoked := true)])
            && token in w'.sessions && w'.sessions[token].revoked && Rotations(w'.log, token) == Rotations(w.log, token)
            && (e.Rotate? && e.attempt in w'.refreshes && w'.refreshes[e.attempt] == token ==>
                  Step(lifetime, w', e).sessions == w'.sessions && Step(lifetime, w', e).log == w'.log)
  {
    var out := Step(lifetime, w, Revoke(token));
    assert out.sessions == w.sessions[token := w.sessions[token].(revoked := true)];
    RevocationIsFinal(lifetime, out, es);
    DeadIsNeverSpent(lifetime, out, es, token);
  }

  /** A session lives from its sign-in until its lifetime is over or it is revoked, and no longer,
      whatever happens. */
  lemma {:induction false} SessionLivesItsLifetime(lifetime: nat, w: World, user: UserId, token: TokenHash, es: seq<Event>)
    requires token !in w.sessions
    ensures var begun := Step(lifetime, w, SignIn(user, token));
            var w' := Run(lifetime, begun, es);
            && token in begun.sessions && begun.sessions[token].user == user && !begun.sessions[token].revoked
            && begun == w.(sessions := w.sessions[token := begun.sessions[token]])
            && token in w'.sessions && w'.sessions[token].user == user
            && (Dead(w', token) <==> w'.sessions[token].revoked || w'.now >= w.now + lifetime)
  {
    RevocationIsFinal(lifetime, Step(lifetime, w, SignIn(user, token)), es);
  }

  /** Which refreshes go on past the read: those of an unrevoked session whose expiry has not passed,
      by a user who may refresh. The others leave nothing behind. */
  lemma ReadLetsThrough(lifetime: nat, w: World, attempt: AttemptId, token: TokenHash, userMayRefresh: bool)
    ensures var w' := Step(lifetime, w, ReadForRefresh(attempt, token, userMayRefresh));
            if token in w.sessions && !w.sessions[token].revoked && w.now <= w.sessions[token].expiresAt && userMayRefresh
            then w' == w.(refreshes := w.refreshes[attempt := token]) else w' == w
  {
  }

  /** Left alone, a session expires with its lifetime. */
  lemma SessionExpires(lifetime: nat, w: World, user: UserId, token: TokenHash, elapsed: nat)
    requires token !in w.sessions
    ensures var later := Step(lifetime, Step(lifetime, w, SignIn(user, token)), Tick(elapsed));
            later.now == w.now + elapsed && (Dead(later, token) <==> elapsed >= lifetime)
  {
  }

  /** A refresh or reset that was given up has no second half. */
  lemma GivenUpHasNoSecondHalf(lifetime: nat, w: World, attempt: AttemptId, e: Event)
    requires (e.Rotate? || e.CommitReset?) && e.attempt == attempt
    ensures var gone := Step(lifetime, w, Vanish(attempt));
            && gone == w.(refreshes := gone.refreshes, resets := gone.resets)
            && Step(lifetime, gone, e).sessions == w.sessions && Step(lifetime, gone, e).log == w.log
            && (forall a :: a != attempt ==>
                  (a in gone.refreshes <==> a in w.refreshes) && (a in gone.resets <==> a in w.resets))
  {
  }

  /** Once a token is dead, a refresh with it fails whatever it read and whenever it read it: of
      concurrent refreshes of one token, the first to rotate is the only one. */
  lemma LateRotationLoses(lifetime: nat, w: World, es: seq<Event>, e: Event)
    requires e.Rotate? && var w' := Run(lifetime, w, es); e.attempt in w'.refreshes && Dead(w, w'.refreshes[e.attempt])
    ensures var w' := Run(lifetime, w, es);
            Step(lifetime, w', e).sessions == w'.sessions && Step(lifetime, w', e).log == w'.log
  {
    DeadForever(lifetime, w, es, Run(lifetime, w, es).refreshes[e.attempt]);
  }

  /** A winning rotation kills its token and puts one session, of the same lineage and user and with a
      lifetime of its own, in its place; so the next rotation in the lineage needs the token just
      issued. A losing one leaves the rows alone. */
  lemma RotationHandsOver(lifetime: nat, w: World, e: Event)
    requires e.Rotate? && e.attempt in w.refreshes && e.next !in w.sessions
    ensures var (w', token) := (Step(lifetime, w, e), w.refreshes[e.attempt]);
            && w'.refreshes == w.refreshes - {e.attempt} && w'.resets == w.resets && w'.now == w.now
            && if token in w.sessions && !w.sessions[token].revoked && w.sessions[token].expiresAt > w.now
               then Dead(w', token) && (lifetime > 0 ==> Live(w'.sessions[e.next], w'.now))
                    && w'.log == w.log + [Rotation(token, e.next)]
                    && w'.sessions == w.sessions[token := w.sessions[token].(revoked := true)]
                         [e.next := Session(w.sessions[token].user, w.sessions[token].lineage, false, w.now + lifetime)]
               else w'.sessions == w.sessions && w'.log == w.log
  {
  }

  lemma OnlyTheNextRotates(lifetime: nat, now: Instant, es: seq<Event>, next: Event, again: Event)
    requires var w := Run(lifetime, Start(now), es);
             && next.Rotate? && RotationWins(w, next)
             && again.Rotate? && RotationWins(Step(lifetime, w, next), again)
             && w.sessions[w.refreshes[next.attempt]].lineage
                == Step(lifetime, w, next).sessions[Step(lifetime, w, next).refreshes[again.attempt]].lineage
    ensures Step(lifetime, Run(lifetime, Start(now), es), next).refreshes[again.attempt] == next.next
  {
    RunKeepsInv(lifetime, now, es);
    var w := Run(lifetime, Start(now), es);
    StepKeepsInv(lifetime, w, next);
    var w' := Step(lifetime, w, next);
    assert PairInv(w', w'.refreshes[again.attempt], next.next);
  }

  /** At the instant of expiry the read lets a refresh through and the rotation always refuses it;
      at any other instant, with nothing in between, they agree. */
  lemma ReadAndRotationDisagreeAtExpiry(lifetime: nat, w: World, attempt: AttemptId, t: TokenHash, next: TokenHash)
    requires t in w.sessions && next !in w.sessions && PassesRead(w.sessions[t], w.now)
    ensures RotationWins(Step(lifetime, w, ReadForRefresh(attempt, t, true)), Rotate(attempt, next))
            <==> w.now != w.sessions[t].expiresAt
  {
  }

  // ---------------------------------------------------------------- password reset

  lemma {:induction false} ResetStaysListed(lifetime: nat, w: World, es: seq<Event>, attempt: AttemptId)
    requires attempt in w.resets && forall i :: 0 <= i < |es| ==> !Touches(es[i], attempt)
    ensures attempt in Run(lifetime, w, es).resets && Run(lifetime, w, es).resets[attempt] == w.resets[attempt]
  {
    if es != [] {
      ResetStaysListed(lifetime, w, es[..|es| - 1], attempt);
    }
  }

  predicate Touches(e: Event, attempt: AttemptId) {
    (e.ListForReset? || e.CommitReset? || e.Vanish?) && e.attempt == attempt
  }

  /** A reset, whatever happens between its two halves: every session the user had at its listing
      is dead when it commits, and the sessions of the user that live on are exactly the live ones
      opened in between. */
  lemma {:induction false} ResetEndsWhatItListed(lifetime: nat, w: World, attempt: AttemptId, user: UserId, es: seq<Event>)
    requires forall i :: 0 <= i < |es| ==> !Touches(es[i], attempt)
    ensures var listed := Step(lifetime, w, ListForReset(attempt, user));
            var before := Run(lifetime, listed, es);
            var after := Step(lifetime, before, CommitReset(attempt));
            && (forall t :: t in w.sessions && w.sessions[t].user == user ==> Dead(after, t))
            && (forall t :: t in after.sessions && after.sessions[t].user == user && Live(after.sessions[t], after.now)
                  <==> t in before.sessions && before.sessions[t].user == user && Live(before.sessions[t], before.now)
                       && t !in w.sessions)
  {
    var listed := Step(lifetime, w, ListForReset(attempt, user));
    var before := Run(lifetime, listed, es);
    var after := Step(lifetime, before, CommitReset(attempt));
    ResetStaysListed(lifetime, listed, es, attempt);
    RevocationIsFinal(lifetime, listed, es);
    forall t | t in w.sessions && w.sessions[t].user == user ensures Dead(after, t) {
      assert t in before.sessions && t in after.sessions;
    }
    assert forall t :: t in after.sessions && t !in w.sessions ==> after.sessions[t] == before.sessions[t];
  }

  /** And it reaches nobody else: the commit revokes the sessions that were the user's own and live at the
      listing, and leaves every other row, of this user or another, as it is. */
  lemma {:induction false} ResetReachesItsUserAlone(lifetime: nat, w: World, attempt: AttemptId, user: UserId,
                                                   es: seq<Event>)
    requires forall i :: 0 <= i < |es| ==> !Touches(es[i], attempt)
    ensures var before := Run(lifetime, Step(lifetime, w, ListForReset(attempt, user)), es);
            var after := Step(lifetime, before, CommitReset(attempt));
            && after.sessions.Keys == before.sessions.Keys && after.now == before.now && after.log == before.log
            && after.refreshes == before.refreshes && after.resets == before.resets - {attempt}
            && (forall t :: t in before.sessions && before.sessions[t].user != user ==>
                  after.sessions[t] == before.sessions[t])
            && (forall t :: t in before.sessions ==>
                  var wasListed := t in w.sessions && w.sessions[t].user == user && !w.sessions[t].revoked
                                   && w.sessions[t].expiresAt > w.now;
                  after.sessions[t] == before.sessions[t].(revoked := before.sessions[t].revoked || wasListed))
  {
    var listed := Step(lifetime, w, ListForReset(attempt, user));
    ResetStaysListed(lifetime, listed, es, attempt);
    RevocationIsFinal(lifetime, listed, es);
  }

  /** So a reset leaves the user signed in nowhere exactly when nothing opened a session of the
      user in between that still lives; a refresh that rotates there does. */
  lemma ResetMissesARotation(lifetime: nat, w: World, attempt: AttemptId, user: UserId, refresh: AttemptId,
                             t: TokenHash, next: TokenHash)
    requires lifetime > 0 && t in w.sessions && w.sessions[t].user == user && Live(w.sessions[t], w.now)
    requires next !in w.sessions && refresh in w.refreshes && w.refreshes[refresh] == t
    ensures var listed := Step(lifetime, w, ListForReset(attempt, user));
            var after := Step(lifetime, Step(lifetime, listed, Rotate(refresh, next)), CommitReset(attempt));
            && next in after.sessions && after.sessions[next].user == user && Live(after.sessions[next], after.now)
            && after.sessions[t].revoked
  {
    var listed := Step(lifetime, w, ListForReset(attempt, user));
    var rotated := Step(lifetime, listed, Rotate(refresh, next));
    assert next !in listed.resets[attempt] && rotated.resets == listed.resets;
  }

  // ---------------------------------------------------------------- the code that does it

  class SessionStore {
    const lifetime: nat
    var order: seq<TokenHash>
    var sessions: map<TokenHash, Session>
    ghost var world: World

    ghost predicate Valid()
      reads this
    {
      && Inv(world) && world.sessions == sessions
      && forall t :: t in order <==> t in sessions
    }

    constructor (lifetime: nat, now: Instant)
      ensures Valid() && this.lifetime == lifetime && world == Start(now)
    {
      this.lifetime, order, sessions, world := lifetime, [], map[], Start(now);
    }

    method CreateRefreshSession(user: UserId, token: TokenHash, lineage: TokenHash, expiresAt: Instant)
      requires token !in order
      modifies `order, `sessions
      ensures order == old(order) + [token]
      ensures sessions == old(sessions)[token := Session(user, lineage, false, expiresAt)]
    {
      order := order + [token];
      sessions := sessions[token := Session(user, lineage, false, expiresAt)];
    }

    method OpenSession(user: UserId, token: TokenHash, now: Instant)
      requires Valid() && now == world.now && token !in sessions
      modifies this
      ensures Valid() && world == Step(lifetime, old(world), SignIn(user, token))
    {
      StepKeepsInv(lifetime, world, SignIn(user, token));
      world := Step(lifetime, world, SignIn(user, token));
      CreateRefreshSession(user, token, token, now + lifetime);
    }

    /** The check behind every access token: revoked and expired sessions are not found, the instant
        of expiry included. */
    method GetActiveSession(token: TokenHash, now: Instant) returns (session: Option<Session>)
      ensures session.Some? <==> token in sessions && Live(sessions[token], now)
      ensures session.Some? ==> session.value == sessions[token]
    {
      if token !in sessions || sessions[token].revoked {
        return None;
      }
      if sessions[token].expiresAt <= now {
        return None;
      }
      return Some(sessions[token]);
    }

    /** The first half of a refresh: the row it may go on with. */
    method BeginRefresh(attempt: AttemptId, token: TokenHash, userMayRefresh: bool, now: Instant)
      returns (session: Option<Session>)
      requires Valid() && now == world.now
      modifies `world
      ensures Valid() && world == Step(lifetime, old(world), ReadForRefresh(attempt, token, userMayRefresh))
      ensures session.Some? <==> token in sessions && PassesRead(sessions[token], now) && userMayRefresh
      ensures session.Some? ==> session.value == sessions[token] && world.refreshes == old(world.refreshes)[attempt := token]
    {
      StepKeepsInv(lifetime, world, ReadForRefresh(attempt, token, userMayRefresh));
      world := Step(lifetime, world, ReadForRefresh(attempt, token, userMayRefresh));
      if token !in sessions || sessions[token].revoked {
        return None;
      }
      if sessions[token].expiresAt < now || !userMayRefresh {
        return None;
      }
      return Some(sessions[token]);
    }

    /** UPDATE ... WHERE not revoked and not expired; how many rows it changed. */
    method RotateRefreshSession(token: TokenHash, now: Instant) returns (rowcount: nat)
      modifies `sessions
      ensures rowcount == if token in old(sessions) && Live(old(sessions)[token], now) then 1 else 0
      ensures sessions == if rowcount == 1 then old(sessions)[token := Spend(old(sessions)[token])] else old(sessions)
    {
      rowcount := 0;
      if token in sessions && !sessions[token].revoked && sessions[token].expiresAt > now {
        sessions := sessions[token := sessions[token].(revoked := true)];
        rowcount := 1;
      }
    }

    /** The second half, with the row read before: rotate and open the next session, or fail. */
    method FinishRefresh(attempt: AttemptId, token: TokenHash, session: Session, next: TokenHash, now: Instant)
      returns (rotated: bool)
      requires Valid() && now == world.now && next !in sessions
      requires attempt in world.refreshes && world.refreshes[attempt] == token
      requires token in sessions ==> sessions[token].user == session.user && sessions[token].lineage == session.lineage
      modifies this
      ensures Valid() && world == Step(lifetime, old(world), Rotate(attempt, next))
      ensures rotated <==> RotationWins(old(world), Rotate(attempt, next))
    {
      StepKeepsInv(lifetime, world, Rotate(attempt, next));
      world := Step(lifetime, world, Rotate(attempt, next));
      var rowcount := RotateRefreshSession(token, now);
      rotated := rowcount == 1;
      if rotated {
        CreateRefreshSession(session.user, next, session.lineage, now + lifetime);
      }
    }

    method Logout(token: TokenHash)
      requires Valid()
      modifies this
      ensures Valid() && world == Step(lifetime, old(world), Revoke(token))
    {
      StepKeepsInv(lifetime, world, Revoke(token));
      world := Step(lifetime, world, Revoke(token));
      if token in sessions {
        sessions := sessions[token := sessions[token].(revoked := true)];
      }
    }

    method ListActiveSessions(attempt: AttemptId, user: UserId, now: Instant) returns (active: seq<TokenHash>)
      requires Valid() && now == world.now
      modifies `world
      ensures Valid() && world == Step(lifetime, old(world), ListForReset(attempt, user))
      ensures forall t :: t in active <==>
                t in sessions && sessions[t].user == user && !sessions[t].revoked && sessions[t].expiresAt > now
      ensures attempt in world.resets && forall t :: t in active <==> t in world.resets[attempt]
    {
      active := [];
      for i := 0 to |order|
        invariant forall t :: t in active <==> t in order[..i] && sessions[t].user == user && Live(sessions[t], now)
      {
        var s := sessions[order[i]];
        if s.user == user && !s.revoked && s.expiresAt > now {
          active := active + [order[i]];
        }
        assert order[..i + 1] == order[..i] + [order[i]];
      }
      assert order[..|order|] == order;
      StepKeepsInv(lifetime, world, ListForReset(attempt, user));
      world := Step(lifetime, world, ListForReset(attempt, user));
    }

    /** The loop over what was listed. */
    method RevokeAll(listed: seq<TokenHash>)
      modifies `sessions
      ensures sessions == RevokeEach(old(sessions), set t | t in listed)
    {
      for i := 0 to |listed|
        invariant sessions.Keys == old(sessions).Keys
        invariant forall t :: t in sessions ==>
                    sessions[t] == if t in listed[..i] then Spend(old(sessions)[t]) else old(sessions)[t]
      {
        assert listed[..i + 1] == listed[..i] + [listed[i]];
        if listed[i] in sessions {
          sessions := sessions[listed[i] := sessions[listed[i]].(revoked := true)];
        }
      }
      assert listed[..|listed|] == listed;
    }

    method ResetPassword(attempt: AttemptId, listed: seq<TokenHash>)
      requires Valid() && attempt in world.resets
      requires forall t :: t in listed <==> t in world.resets[attempt]
      modifies this
      ensures Valid() && world == Step(lifetime, old(world), CommitReset(attempt))
    {
      StepKeepsInv(lifetime, world, CommitReset(attempt));
      RevokeAll(listed);
      assert (set t | t in listed) == world.resets[attempt];
      world := Step(lifetime, world, CommitReset(attempt));
    }
  }
}
