/**
 Fixed-window rate limiting: a window opens at the first call that finds none, counts the calls in
 it, and is forgotten when it expires. Redis keeps the windows by a script; when it is unreachable
 a bounded table in the process does.
 */
module RateLimit {
  import opened Prelude

  type Key = string

  const MAX_KEYS: nat := 10_000

  datatype Window = Window(count: nat, expiresAt: Instant)

  // ---------------------------------------------------------------- one key

  /** One more call: in the open window, or opening the next one. */
  function Bump(was: Option<Window>, length: nat, now: Instant): Window {
    if was.None? || was.value.expiresAt <= now then Window(1, now + length)
    else Window(was.value.count + 1, was.value.expiresAt)
  }

  /** The window after calls at these times. */
  function WindowAfter(length: nat, times: seq<Instant>): Option<Window> {
    if times == [] then None
    else Some(Bump(WindowAfter(length, times[..|times| - 1]), length, times[|times| - 1]))
  }

  predicate Ascending(times: seq<Instant>) {
    forall i, j :: 0 <= i < j < |times| ==> times[i] <= times[j]
  }

  /** A call is let through unless its count exceeds the limit. */
  predicate LetThrough(limit: int, w: Window) {
    w.count <= limit
  }

  /** How many calls between two instants, both included, were let through. */
  function Accepted(length: nat, limit: int, times: seq<Instant>, from: Instant, to: Instant): nat {
    if times == [] then 0
    else
      Accepted(length, limit, times[..|times| - 1], from, to)
      + (if from <= times[|times| - 1] <= to && LetThrough(limit, WindowAfter(length, times).value) then 1 else 0)
  }

  /** The current window holds the last call; what came before it came before its start. */
  lemma {:induction false} LastCallIsInside(length: nat, times: seq<Instant>)
    requires length > 0 && times != [] && Ascending(times)
    ensures var w := WindowAfter(length, times).value;
            w.count >= 1 && w.expiresAt - length <= times[|times| - 1] < w.expiresAt
  {
    if |times| > 1 {
      LastCallIsInside(length, times[..|times| - 1]);
    }
  }

  /** The rule itself: since the current window opened, exactly the first `limit` calls were let
      through. Hence a call is let through if and only if fewer than `limit` were before it. */
  lemma {:induction false} FirstOfEachWindow(length: nat, limit: nat, times: seq<Instant>, to: Instant)
    requires length > 0 && times != [] && Ascending(times) && times[|times| - 1] <= to
    ensures var w := WindowAfter(length, times).value;
            Accepted(length, limit, times, w.expiresAt - length, to) == Min(w.count, limit)
  {
    var init, last := times[..|times| - 1], times[|times| - 1];
    LastCallIsInside(length, times);
    if init == [] {
      assert Accepted(length, limit, init, last, to) == 0;
    } else {
      LastCallIsInside(length, init);
      var w := WindowAfter(length, init).value;
      if w.expiresAt <= last {
        NoneAfterTheLast(length, limit, init, last, to);
      } else {
        FirstOfEachWindow(length, limit, init, to);
      }
    }
  }

  lemma {:induction false} NoneAfterTheLast(length: nat, limit: int, times: seq<Instant>, from: Instant, to: Instant)
    requires forall i :: 0 <= i < |times| ==> times[i] < from
    ensures Accepted(length, limit, times, from, to) == 0
  {
    if times != [] {
      NoneAfterTheLast(length, limit, times[..|times| - 1], from, to);
    }
  }

  /** In the calls so far, what the interval has let through, by where the current window began:
      before the interval, inside it, or after it. */
  lemma {:induction false} AcceptedByWindowStart(length: nat, limit: nat, times: seq<Instant>, from: Instant, span: nat)
    requires 0 < length && span <= length && limit > 0 && times != [] && Ascending(times)
    ensures var w := WindowAfter(length, times).value;
            var start := w.expiresAt - length;
            var some := Accepted(length, limit, times, from, from + span);
            && (start < from ==> some <= Min(w.count, limit) - 1)
            && (from <= start < from + length ==> some <= limit - 1 + Min(w.count, limit))
            && (from + length <= start <= from + span ==> some <= limit + Min(w.count, limit))
            && (from + span < start ==> some <= if span < length then 2 * limit - 1 else 2 * limit)
  {
    hide WindowAfter;
    var init, last := times[..|times| - 1], times[|times| - 1];
    LastCallIsInside(length, times);
    OneMoreWindow(length, times);
    if init == [] {
      assert Accepted(length, limit, init, from, from + span) == 0;
    } else {
      LastCallIsInside(length, init);
      AcceptedByWindowStart(length, limit, init, from, span);
      if last < from {
        NoneAfterTheLast(length, limit, init, from, from + span);
      }
      if WindowAfter(length, init).value.expiresAt - length == from && span == length {
        FirstOfEachWindow(length, limit, init, from + span);
      }
    }
  }

  lemma OneMoreWindow(length: nat, times: seq<Instant>)
    requires times != []
    ensures WindowAfter(length, times) ==
            Some(Bump(WindowAfter(length, times[..|times| - 1]), length, times[|times| - 1]))
    ensures WindowAfter(length, []) == None
    ensures |times| > 1 ==> WindowAfter(length, times[..|times| - 1]).Some?
  {
  }

  /** The bound holds for every limit, and no call at all passes a limit below one. */
  lemma {:induction false} AtMostTwoWindows(length: nat, limit: int, times: seq<Instant>, from: Instant, span: nat)
    requires 0 < length && span <= length && Ascending(times)
    ensures Accepted(length, limit, times, from, from + span) <= Bound(length, limit, span)
  {
    if limit <= 0 {
      if times != [] {
        LastCallIsInside(length, times);
        AtMostTwoWindows(length, limit, times[..|times| - 1], from, span);
      }
    } else if times != [] {
      AcceptedByWindowStart(length, limit, times, from, span);
      LastCallIsInside(length, times);
    }
  }

  function Bound(length: nat, limit: int, span: nat): nat {
    if limit <= 0 then 0 else if span < length then 2 * limit - 1 else 2 * limit
  }

  /** `n` calls at one instant. */
  function Burst(at: Instant, n: nat): (times: seq<Instant>)
    ensures |times| == n && forall i :: 0 <= i < n ==> times[i] == at
  {
    if n == 0 then [] else Burst(at, n - 1) + [at]
  }

  /** One call at 0, and bursts just before and just after the window it opens ends. */
  function Worst(length: nat, limit: nat, n: nat): seq<Instant>
    requires limit > 0
  {
    [0] + Burst(length - 1, limit - 1) + Burst(length, n)
  }

  lemma OneMoreCall(length: nat, limit: int, times: seq<Instant>, at: Instant, from: Instant, to: Instant)
    ensures WindowAfter(length, times + [at]) == Some(Bump(WindowAfter(length, times), length, at))
    ensures Accepted(length, limit, times + [at], from, to)
            == Accepted(length, limit, times, from, to)
               + (if from <= at <= to && LetThrough(limit, WindowAfter(length, times + [at]).value) then 1 else 0)
  {
    assert (times + [at])[..|times|] == times;
  }

  lemma {:induction false} FirstBurst(length: nat, limit: nat, from: Instant, n: nat)
    requires length > 1 && 0 < limit && 0 <= from < length && n < limit
    ensures WindowAfter(length, [0] + Burst(length - 1, n)) == Some(Window(1 + n, length))
    ensures Accepted(length, limit, [0] + Burst(length - 1, n), from, length) == n + (if from == 0 then 1 else 0)
  {
    var times := [0] + Burst(length - 1, n);
    if n == 0 {
      assert times == [0] && times[..0] == [];
      assert Accepted(length, limit, [], from, length) == 0;
    } else {
      FirstBurst(length, limit, from, n - 1);
      assert times == [0] + Burst(length - 1, n - 1) + [length - 1];
      OneMoreCall(length, limit, [0] + Burst(length - 1, n - 1), length - 1, from, length);
    }
  }

  lemma WorstGrows(length: nat, limit: nat, n: nat)
    requires length > 0 && limit > 0
    ensures Worst(length, limit, 0) == [0] + Burst(length - 1, limit - 1)
    ensures n > 0 ==> Worst(length, limit, n) == Worst(length, limit, n - 1) + [length]
  {
    assert [0] + Burst(length - 1, limit - 1) + [] == [0] + Burst(length - 1, limit - 1);
  }

  lemma {:induction false} SecondBurst(length: nat, limit: nat, from: Instant, n: nat)
    requires length > 1 && 0 < limit && 0 <= from < length && n <= limit
    ensures n > 0 ==> WindowAfter(length, Worst(length, limit, n)) == Some(Window(n, 2 * length))
    ensures Accepted(length, limit, Worst(length, limit, n), from, length) == limit - 1 + n + (if from == 0 then 1 else 0)
  {
    hide WindowAfter, Accepted, Worst, Burst;
    WorstGrows(length, limit, n);
    FirstBurst(length, limit, from, limit - 1);
    if n > 0 {
      SecondBurst(length, limit, from, n - 1);
      OneMoreCall(length, limit, Worst(length, limit, n - 1), length, from, length);
    }
  }

  /** Both bounds are attained: in a full window's length, and already within two microseconds. */
  lemma BoundsAreTight(length: nat, limit: nat)
    requires length > 2 && limit > 0
    ensures Ascending(Worst(length, limit, limit))
    ensures Accepted(length, limit, Worst(length, limit, limit), 0, length) == Bound(length, limit, length)
    ensures Accepted(length, limit, Worst(length, limit, limit), length - 1, length) == Bound(length, limit, 1)
  {
    SecondBurst(length, limit, 0, limit);
    SecondBurst(length, limit, length - 1, limit);
  }

  /** Whole seconds until the window ends, at least one: what a refused caller is told. */
  function RetryAfter(w: Window, now: Instant): int {
    Max(1, (w.expiresAt - now) / SECOND)
  }

  /** Calling again after any advertised time, with no call between, opens a new window if and only
      if that long was left. The fallback advises the whole seconds left, one at least: its advice
      suffices if and only if the time left was whole seconds or less than one, and is too short
      otherwise. */
  lemma AdviceSuffices(length: nat, w: Window, now: Instant, advice: int)
    requires now < w.expiresAt && length > 0 && w.count >= 1
    ensures Bump(Some(w), length, now + advice * SECOND).count == 1 <==> advice * SECOND >= w.expiresAt - now
    ensures var left := w.expiresAt - now;
            Bump(Some(w), length, now + RetryAfter(w, now) * SECOND).count == 1
            <==> (left % SECOND == 0 || left < SECOND)
  {
    var left := w.expiresAt - now;
    assert left == left / SECOND * SECOND + left % SECOND;
  }

  // ---------------------------------------------------------------- the bounded table

  /** An insertion-ordered dictionary: its keys, oldest first, and their windows. */
  datatype Table = Table(order: seq<Key>, entries: map<Key, Window>)

  datatype Op =
    | Increment(key: Key, length: nat, at: Instant)
    | Read(key: Key, at: Instant)
    | Clear(key: Key, at: Instant)

  function Entry(t: Table, k: Key): Option<Window> {
    if k in t.entries then Some(t.entries[k]) else None
  }

  function ExpiryOf(t: Table, k: Key): Instant {
    if k in t.entries then t.entries[k].expiresAt else 0
  }

  function Drop(t: Table, k: Key): Table {
    Table(Without(t.order, k), t.entries - {k})
  }

  /** The first key among those that expire soonest. */
  function Soonest(t: Table, n: nat): (i: nat)
    requires 0 < n <= |t.order|
    ensures i < n
    ensures forall j :: 0 <= j < n ==> ExpiryOf(t, t.order[i]) <= ExpiryOf(t, t.order[j])
    ensures forall j :: 0 <= j < i ==> ExpiryOf(t, t.order[i]) < ExpiryOf(t, t.order[j])
  {
    if n == 1 then 0
    else
      var i := Soonest(t, n - 1);
      if ExpiryOf(t, t.order[n - 1]) < ExpiryOf(t, t.order[i]) then n - 1 else i
  }

  function Written(t: Table, k: Key, w: Window): Table {
    Table(if k in t.entries then t.order else t.order + [k], t.entries[k := w])
  }

  /** What one key too many costs. */
  function Evicted(t: Table): Option<Key> {
    if |t.order| > MAX_KEYS then Some(t.order[Soonest(t, |t.order|)]) else None
  }

  function Capped(t: Table): Table {
    if Evicted(t).Some? then Drop(t, Evicted(t).value) else t
  }

  function AfterIncrement(t: Table, k: Key, length: nat, now: Instant): Table {
    Capped(Written(t, k, Bump(Entry(t, k), length, now)))
  }

  function AfterRead(t: Table, k: Key, now: Instant): Table {
    if k in t.entries && t.entries[k].expiresAt <= now then Drop(t, k) else t
  }

  function Step(t: Table, op: Op): Table {
    match op
    case Increment(k, length, now) => AfterIncrement(t, k, length, now)
    case Read(k, now) => AfterRead(t, k, now)
    case Clear(k, _) => Drop(t, k)
  }

  function Run(ops: seq<Op>): Table {
    if ops == [] then Table([], map[]) else Step(Run(ops[..|ops| - 1]), ops[|ops| - 1])
  }

  ghost predicate WellFormed(t: Table) {
    NoDuplicates(t.order) && forall k :: k in t.order <==> k in t.entries
  }

  lemma DropKeepsForm(t: Table, k: Key)
    requires WellFormed(t)
    ensures WellFormed(Drop(t, k))
    ensures |Drop(t, k).order| == |t.order| - (if k in t.entries then 1 else 0)
  {
    WithoutRemoves(t.order, k);
  }

  lemma WrittenKeepsForm(t: Table, k: Key, w: Window)
    requires WellFormed(t)
    ensures WellFormed(Written(t, k, w))
  {
    if k !in t.order {
      AppendKeepsDistinct(t.order, k);
    }
  }

  lemma IncrementKeepsForm(t: Table, k: Key, length: nat, now: Instant)
    requires WellFormed(t) && |t.order| <= MAX_KEYS
    ensures WellFormed(AfterIncrement(t, k, length, now)) && |AfterIncrement(t, k, length, now).order| <= MAX_KEYS
  {
    var t' := Written(t, k, Bump(Entry(t, k), length, now));
    WrittenKeepsForm(t, k, Bump(Entry(t, k), length, now));
    if Evicted(t').Some? {
      DropKeepsForm(t', Evicted(t').value);
    }
  }

  /** The table never exceeds its cap. */
  lemma {:induction false} NeverTooManyKeys(ops: seq<Op>)
    ensures WellFormed(Run(ops)) && |Run(ops).order| <= 10_000
  {
    if ops != [] {
      var t := Run(ops[..|ops| - 1]);
      NeverTooManyKeys(ops[..|ops| - 1]);
      match ops[|ops| - 1]
      case Increment(k, length, now) => IncrementKeepsForm(t, k, length, now);
      case Read(k, _) => DropKeepsForm(t, k);
      case Clear(k, _) => DropKeepsForm(t, k);
    }
  }

  lemma SoonestIsSoonest(t: Table, x: Key)
    requires WellFormed(t) && x in t.entries && t.order != []
    ensures ExpiryOf(t, t.order[Soonest(t, |t.order|)]) <= ExpiryOf(t, x)
  {
    assert x in t.order;
    var j :| 0 <= j < |t.order| && t.order[j] == x;
  }

  /** A call beyond the cap costs a key that expires no later than any other; everything else
      keeps its window. */
  lemma EvictsSoonest(t: Table, k: Key, length: nat, now: Instant)
    requires WellFormed(t) && |t.order| == MAX_KEYS && k !in t.entries
    ensures var t' := AfterIncrement(t, k, length, now);
            var all := t.entries[k := Window(1, now + length)];
            exists out | out in all ::
              t'.entries == all - {out} && forall x :: x in all ==> all[out].expiresAt <= all[x].expiresAt
  {
    hide Soonest;
    var w := Window(1, now + length);
    var t' := Written(t, k, w);
    WrittenKeepsForm(t, k, w);
    var out := Evicted(t').value;
    assert out in t'.order;
    forall x | x in t'.entries ensures t'.entries[out].expiresAt <= t'.entries[x].expiresAt {
      SoonestIsSoonest(t', x);
    }
    assert AfterIncrement(t, k, length, now).entries == t'.entries - {out};
  }

  /** Reading decides nothing: it takes out the key's own expired entry and no other, and no later call
      is counted differently for it. */
  lemma ReadsDecideNothing(t: Table, k: Key, j: Key, length: nat, now: Instant)
    ensures var t' := Step(t, Read(k, now));
            && t'.entries == (if k in t.entries && t.entries[k].expiresAt <= now then t.entries - {k} else t.entries)
            && (forall x :: x in t'.order <==> x in t.order && (x == k && k in t.entries ==> now < t.entries[k].expiresAt))
            && Bump(Entry(t', j), length, now) == Bump(Entry(t, j), length, now)
  {
    WithoutRemoves(t.order, k);
  }

  /** After clearing, the key starts afresh, and every other key is as it was. */
  lemma ClearingStartsAfresh(t: Table, k: Key, length: nat, now: Instant)
    ensures var t' := Step(t, Clear(k, now));
            && t'.entries == t.entries - {k} && (forall x :: x in t'.order <==> x in t.order && x != k)
            && Bump(Entry(t', k), length, now) == Window(1, now + length)
  {
    WithoutRemoves(t.order, k);
  }

  lemma NewcomerIsSoonest(t: Table, k: Key, w: Window)
    requires WellFormed(t) && k !in t.entries
    ensures var t' := Written(t, k, w);
            t'.order[Soonest(t', |t'.order|)] == k <==> forall x :: x in t.entries ==> w.expiresAt < t.entries[x].expiresAt
  {
    hide Soonest, NoDuplicates;
    var t' := Written(t, k, w);
    var i := Soonest(t', |t'.order|);
    if t'.order[i] == k {
      assert t'.order[|t.order|] == k;
      assert k !in t.order;
      assert i == |t.order|;
      forall x | x in t.entries ensures w.expiresAt < t.entries[x].expiresAt {
        var j :| 0 <= j < |t.order| && t.order[j] == x;
        assert t'.order[j] == x;
      }
    } else {
      assert t'.order[i] == t.order[i] && t.order[i] in t.order;
      assert t'.order[|t.order|] == k;
    }
  }

  /** A full table forgets a newcomer at once, and so never counts it past one, exactly when its
      window would end before every other. */
  lemma NewcomerIsForgotten(t: Table, k: Key, length: nat, now: Instant)
    requires WellFormed(t) && |t.order| == MAX_KEYS && k !in t.entries
    ensures AfterIncrement(t, k, length, now).entries == t.entries
            <==> forall x :: x in t.entries ==> now + length < t.entries[x].expiresAt
  {
    hide Soonest;
    var w := Window(1, now + length);
    var t' := Written(t, k, w);
    NewcomerIsSoonest(t, k, w);
    var out := t'.order[Soonest(t', |t'.order|)];
    assert AfterIncrement(t, k, length, now).entries == t'.entries - {out};
    if out == k {
      assert t'.entries - {k} == t.entries;
    } else {
      assert k in t'.entries - {out};
    }
  }

  /** Keys that tell themselves apart by their length. */
  function NthKey(n: nat): Key {
    if n == 0 then [] else NthKey(n - 1) + ['k']
  }

  lemma {:induction false} NthKeyHasItsLength(n: nat)
    ensures |NthKey(n)| == n
  {
    if n > 0 {
      NthKeyHasItsLength(n - 1);
    }
  }

  /** One call to each of `n` keys. */
  function Fill(length: nat, n: nat): seq<Op> {
    if n == 0 then [] else Fill(length, n - 1) + [Increment(NthKey(n - 1), length, 0)]
  }

  ghost predicate Filled(t: Table, length: nat, n: nat) {
    && |t.order| == n && WellFormed(t)
    && (forall k :: k in t.entries ==> |k| < n && t.entries[k].expiresAt == length)
  }

  lemma FillNext(t: Table, length: nat, n: nat)
    requires n < MAX_KEYS && Filled(t, length, n)
    ensures Filled(AfterIncrement(t, NthKey(n), length, 0), length, n + 1)
  {
    NthKeyHasItsLength(n);
    WrittenKeepsForm(t, NthKey(n), Bump(Entry(t, NthKey(n)), length, 0));
  }

  lemma {:induction false} FillFills(length: nat, n: nat)
    requires n <= MAX_KEYS
    ensures Filled(Run(Fill(length, n)), length, n)
  {
    hide Filled, AfterIncrement, NthKey, Fill, Run;
    if n == 0 {
      EmptyIsFilled(length);
    } else {
      FillFills(length, n - 1);
      FillNext(Run(Fill(length, n - 1)), length, n - 1);
      FillStep(length, n);
    }
  }

  lemma FillStep(length: nat, n: nat)
    requires n > 0
    ensures Run(Fill(length, n)) == AfterIncrement(Run(Fill(length, n - 1)), NthKey(n - 1), length, 0)
  {
    hide AfterIncrement, NthKey;
    var ops := Fill(length, n);
    assert ops[..|ops| - 1] == Fill(length, n - 1);
  }

  lemma EmptyIsFilled(length: nat)
    ensures Filled(Run(Fill(length, 0)), length, 0)
  {
  }

  /** It does happen: once the table is full of longer windows, calls to a new key with a shorter one
      leave no trace. */
  lemma NewcomerCanBeForgotten(length: nat, short: nat)
    requires short < length
    ensures var t := Run(Fill(length, MAX_KEYS));
            var newcomer := NthKey(MAX_KEYS);
            && |t.order| == MAX_KEYS && newcomer !in t.entries
            && AfterIncrement(t, newcomer, short, 0).entries == t.entries
  {
    FillFills(length, MAX_KEYS);
    NthKeyHasItsLength(MAX_KEYS);
    var t := Run(Fill(length, MAX_KEYS));
    hide Run, Fill, AfterIncrement, NthKey;
    NewcomerIsForgotten(t, NthKey(MAX_KEYS), short, 0);
  }

  // ---------------------------------------------------------------- the table keeps each key's windows

  predicate Chronological(ops: seq<Op>) {
    |ops| <= 1 || (Chronological(ops[..|ops| - 1]) && ops[|ops| - 2].at <= ops[|ops| - 1].at)
  }

  predicate OneLength(ops: seq<Op>, k: Key, length: nat) {
    forall i :: 0 <= i < |ops| && ops[i].Increment? && ops[i].key == k ==> ops[i].length == length
  }

  /** The key is never cleared, and evicted only when its window is over. */
  predicate Undisturbed(ops: seq<Op>, k: Key) {
    ops == [] || (Undisturbed(ops[..|ops| - 1], k) && Spares(Run(ops[..|ops| - 1]), ops[|ops| - 1], k))
  }

  predicate Spares(t: Table, op: Op, k: Key) {
    match op
    case Increment(j, length, now) =>
      var t' := Written(t, j, Bump(Entry(t, j), length, now));
      Evicted(t') == Some(k) ==> ExpiryOf(t', k) <= now
    case Read(_, _) => true
    case Clear(j, _) => j != k
  }

  /** When the key was called. */
  function TimesOf(ops: seq<Op>, k: Key): seq<Instant> {
    if ops == [] then []
    else
      var earlier := TimesOf(ops[..|ops| - 1], k);
      var last := ops[|ops| - 1];
      if last.Increment? && last.key == k then earlier + [last.at] else earlier
  }

  lemma {:induction false} TimesAreInOrder(ops: seq<Op>, k: Key)
    requires Chronological(ops)
    ensures Ascending(TimesOf(ops, k))
    ensures forall i :: 0 <= i < |TimesOf(ops, k)| ==> ops != [] && TimesOf(ops, k)[i] <= ops[|ops| - 1].at
  {
    if ops != [] {
      TimesAreInOrder(ops[..|ops| - 1], k);
    }
  }

  /** The entry is the key's window; it is missing only while that is over. */
  predicate Agrees(entry: Option<Window>, w: Option<Window>, now: Instant) {
    entry == w || (entry.None? && w.Some? && w.value.expiresAt <= now)
  }

  lemma StepAgrees(t: Table, op: Op, k: Key, length: nat, w: Option<Window>, before: Instant)
    requires length > 0 && before <= op.at && Agrees(Entry(t, k), w, before) && Spares(t, op, k)
    requires op.Increment? && op.key == k ==> op.length == length
    ensures var w' := if op.Increment? && op.key == k then Some(Bump(w, length, op.at)) else w;
            && Agrees(Entry(Step(t, op), k), w', op.at)
            && (op.Increment? && op.key == k ==> Bump(Entry(t, k), length, op.at) == w'.value)
  {
  }

  lemma {:induction false} TableKeepsWindows(ops: seq<Op>, k: Key, length: nat)
    requires length > 0 && ops != [] && Chronological(ops) && OneLength(ops, k, length) && Undisturbed(ops, k)
    ensures Agrees(Entry(Run(ops), k), WindowAfter(length, TimesOf(ops, k)), ops[|ops| - 1].at)
    ensures var last := ops[|ops| - 1];
            last.Increment? && last.key == k ==>
              Some(Bump(Entry(Run(ops[..|ops| - 1]), k), length, last.at)) == WindowAfter(length, TimesOf(ops, k))
  {
    hide Step, Spares, Bump;
    var n := |ops| - 1;
    var init, last := ops[..n], ops[n];
    if init != [] {
      TableKeepsWindows(init, k, length);
    }
    var before := if init == [] then last.at else init[n - 1].at;
    StepAgrees(Run(init), last, k, length, WindowAfter(length, TimesOf(init, k)), before);
    OneMoreCall(length, 0, TimesOf(init, k), last.at, 0, 0);
  }

  /** How many calls to the key between two instants the table let through. */
  function AcceptedCalls(ops: seq<Op>, k: Key, limit: int, from: Instant, to: Instant): nat {
    if ops == [] then 0
    else
      var init, last := ops[..|ops| - 1], ops[|ops| - 1];
      AcceptedCalls(init, k, limit, from, to)
      + (if last.Increment? && last.key == k && from <= last.at <= to
            && LetThrough(limit, Bump(Entry(Run(init), k), last.length, last.at)) then 1 else 0)
  }

  lemma {:induction false} CallsAreWindowCalls(ops: seq<Op>, k: Key, length: nat, limit: int, from: Instant, to: Instant)
    requires length > 0 && Chronological(ops) && OneLength(ops, k, length) && Undisturbed(ops, k)
    ensures AcceptedCalls(ops, k, limit, from, to) == Accepted(length, limit, TimesOf(ops, k), from, to)
  {
    if ops != [] {
      hide Step, Spares, Bump;
      var n := |ops| - 1;
      var init, last := ops[..n], ops[n];
      CallsAreWindowCalls(init, k, length, limit, from, to);
      TableKeepsWindows(ops, k, length);
      hide WindowAfter, Run;
      OneMoreCall(length, limit, TimesOf(init, k), last.at, from, to);
    }
  }

  /** The promise: whatever happens to other keys, a key whose windows have one length, that is not
      cleared and not evicted early, has at most `2 * limit - 1` calls let through in any stretch
      shorter than its window, and at most `2 * limit` in one as long. */
  lemma FixedWindowBound(ops: seq<Op>, k: Key, length: nat, limit: int, from: Instant, span: nat)
    requires 0 < length && span <= length
    requires Chronological(ops) && OneLength(ops, k, length) && Undisturbed(ops, k)
    ensures AcceptedCalls(ops, k, limit, from, from + span) <= Bound(length, limit, span)
  {
    hide *;
    CallsAreWindowCalls(ops, k, length, limit, from, from + span);
    TimesAreInOrder(ops, k);
    AtMostTwoWindows(length, limit, TimesOf(ops, k), from, span);
  }

  // ---------------------------------------------------------------- the code that does it

  /** How the two commands of a call went: neither took effect, the script counted but its answer or
      the time to live did not come, or both were answered. */
  datatype RedisReply = NotReached | CountedOnly | Answered(ttl: int)

  class RateLimiter {
    var order: seq<Key>
    var entries: map<Key, Window>
    var redis: map<Key, Window>

    ghost function Fallback(): Table
      reads this
    {
      Table(order, entries)
    }

    ghost predicate Valid()
      reads this
    {
      && WellFormed(Fallback()) && |order| <= MAX_KEYS
      && forall k :: k in redis ==> redis[k].count >= 1
    }

    constructor ()
      ensures Valid() && Fallback() == Run([]) && redis == map[]
    {
      order, entries, redis := [], map[], map[];
    }

    /** The script: INCR, and EXPIRE after the first. */
    method RunScript(key: Key, windowSeconds: nat, now: Instant) returns (count: nat)
      requires Valid()
      modifies `redis
      ensures Valid()
      ensures var was := if key in old(redis) then Some(old(redis)[key]) else None;
              redis == old(redis)[key := Bump(was, windowSeconds * SECOND, now)]
      ensures count == redis[key].count
    {
      count := 1;
      var expiresAt := None;
      if key in redis && now < redis[key].expiresAt {
        count := redis[key].count + 1;
        expiresAt := Some(redis[key].expiresAt);
      }
      if count == 1 {
        expiresAt := Some(now + windowSeconds * SECOND);
      }
      redis := redis[key := Window(count, expiresAt.value)];
    }

    method SoonestKey() returns (k: Key)
      requires order != []
      ensures k == order[Soonest(Fallback(), |order|)]
    {
      var best := 0;
      for i := 1 to |order|
        invariant best == Soonest(Fallback(), i)
      {
        if ExpiryOf(Table(order, entries), order[i]) < ExpiryOf(Table(order, entries), order[best]) {
          best := i;
        }
      }
      return order[best];
    }

    /** A table over its cap gives up the key that expires soonest. */
    method Evict()
      modifies `order, `entries
      ensures Fallback() == Capped(old(Fallback()))
    {
      if |order| > MAX_KEYS {
        var oldest := SoonestKey();
        order := Without(order, oldest);
        entries := entries - {oldest};
      }
    }

    method LocalIncrement(key: Key, windowSeconds: nat, now: Instant) returns (count: nat, ttl: int)
      requires Valid()
      modifies `order, `entries
      ensures Valid() && Fallback() == AfterIncrement(old(Fallback()), key, windowSeconds * SECOND, now)
      ensures var w := Bump(Entry(old(Fallback()), key), windowSeconds * SECOND, now);
              count == w.count && ttl == RetryAfter(w, now)
    {
      IncrementKeepsForm(Fallback(), key, windowSeconds * SECOND, now);
      ghost var written := Written(Fallback(), key, Bump(Entry(Fallback(), key), windowSeconds * SECOND, now));
      hide WellFormed, Without, Soonest, Capped;
      var expiresAt;
      if key in entries {
        count, expiresAt := entries[key].count, entries[key].expiresAt;
      } else {
        count, expiresAt := 0, now;
        order := order + [key];
      }
      if expiresAt <= now {
        count, expiresAt := 0, now + windowSeconds * SECOND;
      }
      count := count + 1;
      entries := entries[key := Window(count, expiresAt)];
      assert Fallback() == written;
      Evict();
      ttl := Max(1, (expiresAt - now) / SECOND);
    }

    method LocalRead(key: Key, now: Instant) returns (found: Option<(nat, int)>)
      requires Valid()
      modifies `order, `entries
      ensures Valid() && Fallback() == AfterRead(old(Fallback()), key, now)
      ensures found == match Entry(old(Fallback()), key)
                       case None => None
                       case Some(w) => if w.expiresAt <= now then None else Some((w.count, RetryAfter(w, now)))
    {
      DropKeepsForm(Fallback(), key);
      if key !in entries {
        return None;
      }
      var entry := entries[key];
      if entry.expiresAt <= now {
        order := Without(order, key);
        entries := entries - {key};
        return None;
      }
      return Some((entry.count, RetryAfter(entry, now)));
    }

    /** With both answers from Redis its count decides; without one of them the table counts the call
        as well, although the script may have counted it already. */
    method CheckRateLimit(key: Key, maxAttempts: int, windowSeconds: nat, reply: RedisReply, now: Instant)
      returns (refused: Option<int>)
      requires Valid()
      modifies this
      ensures Valid()
      ensures if reply.NotReached? then redis == old(redis)
              else key in redis && redis == old(redis)[key := redis[key]]
                   && var was := if key in old(redis) then Some(old(redis)[key]) else None;
                      redis[key] == Bump(was, windowSeconds * SECOND, now)
      ensures reply.Answered? ==>
                && Fallback() == old(Fallback())
                && refused == if LetThrough(maxAttempts, redis[key]) then None else Some(Max(1, reply.ttl))
      ensures !reply.Answered? ==>
                && Fallback() == Step(old(Fallback()), Increment(key, windowSeconds * SECOND, now))
                && var w := Bump(Entry(old(Fallback()), key), windowSeconds * SECOND, now);
                   refused == if LetThrough(maxAttempts, w) then None else Some(RetryAfter(w, now))
    {
      var count, ttl;
      if !reply.NotReached? {
        count := RunScript(key, windowSeconds, now);
      }
      if reply.Answered? {
        ttl := Max(1, reply.ttl);
      } else {
        count, ttl := LocalIncrement(key, windowSeconds, now);
      }
      return if count > maxAttempts then Some(Max(1, ttl)) else None;
    }

    method ClearRateLimit(key: Key, redisUp: bool)
      requires Valid()
      modifies this
      ensures Valid() && Fallback() == Drop(old(Fallback()), key)
      ensures redis == if redisUp then old(redis) - {key} else old(redis)
    {
      DropKeepsForm(Fallback(), key);
      if redisUp {
        redis := redis - {key};
      }
      order := Without(order, key);
      entries := entries - {key};
    }
  }
}
