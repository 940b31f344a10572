/**
 The in-process cache: entries expire, and beyond `maxsize` keys the least recently touched one
 goes. The ordered dictionary is its key order, oldest first, together with its entries.
 */
module LocalCache {
  import opened Prelude

  type Key = nat
  type Value = string

  datatype Entry = Entry(value: Value, expiresAt: Instant)

  datatype Store = Store(order: seq<Key>, entries: map<Key, Entry>)

  datatype Op =
    | Get(key: Key, at: Instant)
    | Put(key: Key, value: Value, ttlSeconds: int, at: Instant)
    | Delete(keys: seq<Key>, at: Instant)

  // ---------------------------------------------------------------- the operations on values

  function Drop(s: Store, k: Key): Store {
    Store(Without(s.order, k), s.entries - {k})
  }

  function MoveToEnd(s: Store, k: Key): Store {
    s.(order := Without(s.order, k) + [k])
  }

  function Lookup(s: Store, k: Key, now: Instant): Option<Value> {
    if k in s.entries && now < s.entries[k].expiresAt then Some(s.entries[k].value) else None
  }

  function AfterGet(s: Store, k: Key, now: Instant): Store {
    if k !in s.entries then s
    else if now >= s.entries[k].expiresAt then Drop(s, k)
    else MoveToEnd(s, k)
  }

  function Evict(maxsize: nat, s: Store): Store
    decreases |s.order|
  {
    if |s.order| <= maxsize then s
    else Evict(maxsize, Store(s.order[1..], s.entries - {s.order[0]}))
  }

  function AfterPut(maxsize: nat, s: Store, k: Key, v: Value, expiresAt: Instant): Store {
    Evict(maxsize, MoveToEnd(s.(entries := s.entries[k := Entry(v, expiresAt)]), k))
  }

  function AfterDelete(s: Store, keys: seq<Key>): Store
    decreases keys
  {
    if keys == [] then s else AfterDelete(Drop(s, keys[0]), keys[1..])
  }

  function Step(maxsize: nat, s: Store, op: Op): Store {
    match op
    case Get(k, now) => AfterGet(s, k, now)
    case Put(k, v, ttl, now) => AfterPut(maxsize, s, k, v, now + ttl * SECOND)
    case Delete(keys, _) => AfterDelete(s, keys)
  }

  function Run(maxsize: nat, ops: seq<Op>): Store {
    if ops == [] then Store([], map[])
    else Step(maxsize, Run(maxsize, ops[..|ops| - 1]), ops[|ops| - 1])
  }

  // ---------------------------------------------------------------- well-formed stores

  ghost predicate WellFormed(s: Store) {
    NoDuplicates(s.order) && forall k :: k in s.order <==> k in s.entries
  }

  lemma MoveToEndKeepsForm(s: Store, k: Key)
    requires NoDuplicates(s.order) && forall x :: x in s.entries <==> x in s.order || x == k
    ensures WellFormed(MoveToEnd(s, k))
    ensures |MoveToEnd(s, k).order| == |s.order| + (if k in s.order then 0 else 1)
  {
    WithoutRemoves(s.order, k);
    AppendKeepsDistinct(Without(s.order, k), k);
  }

  lemma DropKeepsForm(s: Store, k: Key)
    requires WellFormed(s)
    ensures WellFormed(Drop(s, k)) && |Drop(s, k).order| <= |s.order|
  {
    WithoutRemoves(s.order, k);
  }

  lemma {:induction false} DeleteKeepsForm(s: Store, keys: seq<Key>)
    requires WellFormed(s)
    ensures WellFormed(AfterDelete(s, keys)) && |AfterDelete(s, keys).order| <= |s.order|
    ensures forall k :: k in AfterDelete(s, keys).entries <==> k in s.entries && k !in keys
    ensures forall k :: k in AfterDelete(s, keys).entries ==> AfterDelete(s, keys).entries[k] == s.entries[k]
    decreases keys
  {
    if keys != [] {
      assert keys == [keys[0]] + keys[1..];
      DropKeepsForm(s, keys[0]);
      DeleteKeepsForm(Drop(s, keys[0]), keys[1..]);
    }
  }

  /** One key too many costs the oldest one, and only it. */
  lemma EvictOne(maxsize: nat, s: Store)
    requires WellFormed(s) && |s.order| <= maxsize + 1
    ensures WellFormed(Evict(maxsize, s)) && |Evict(maxsize, s).order| <= maxsize
    ensures Evict(maxsize, s) == if |s.order| <= maxsize then s
                                 else Store(s.order[1..], s.entries - {s.order[0]})
  {
    if |s.order| == maxsize + 1 {
      var t := Store(s.order[1..], s.entries - {s.order[0]});
      assert s.order == [s.order[0]] + s.order[1..];
      assert Evict(maxsize, t) == t;
    }
  }

  /** After any run the cache is well formed and holds at most `maxsize` keys. */
  lemma {:induction false} NeverTooLarge(maxsize: nat, ops: seq<Op>)
    ensures WellFormed(Run(maxsize, ops)) && |Run(maxsize, ops).order| <= maxsize
  {
    if ops != [] {
      NeverTooLarge(maxsize, ops[..|ops| - 1]);
      var s := Run(maxsize, ops[..|ops| - 1]);
      match ops[|ops| - 1]
      case Get(k, now) =>
        if k in s.entries {
          DropKeepsForm(s, k);
          MoveToEndKeepsForm(s, k);
        }
      case Put(k, v, ttl, now) =>
        var t := s.(entries := s.entries[k := Entry(v, now + ttl * SECOND)]);
        MoveToEndKeepsForm(t, k);
        EvictOne(maxsize, MoveToEnd(t, k));
      case Delete(keys, _) =>
        DeleteKeepsForm(s, keys);
    }
  }

  // ---------------------------------------------------------------- hits

  /** The last put of the key that no delete has followed. */
  function LastPut(ops: seq<Op>, k: Key): Option<Entry> {
    if ops == [] then None
    else
      match ops[|ops| - 1]
      case Put(key, value, ttl, at) =>
        if key == k then Some(Entry(value, at + ttl * SECOND)) else LastPut(ops[..|ops| - 1], k)
      case Delete(keys, _) => if k in keys then None else LastPut(ops[..|ops| - 1], k)
      case Get(_, _) => LastPut(ops[..|ops| - 1], k)
  }

  /** Whatever is held is what was put last: an entry survives neither a newer put nor a delete. */
  lemma {:induction false} HeldIsLastPut(maxsize: nat, ops: seq<Op>, k: Key)
    requires k in Run(maxsize, ops).entries
    ensures LastPut(ops, k) == Some(Run(maxsize, ops).entries[k])
  {
    var n := |ops| - 1;
    var s := Run(maxsize, ops[..n]);
    NeverTooLarge(maxsize, ops[..n]);
    match ops[n]
    case Get(key, now) => HeldIsLastPut(maxsize, ops[..n], k);
    case Put(key, v, ttl, now) =>
      var t := s.(entries := s.entries[key := Entry(v, now + ttl * SECOND)]);
      MoveToEndKeepsForm(t, key);
      EvictOne(maxsize, MoveToEnd(t, key));
      if key != k {
        HeldIsLastPut(maxsize, ops[..n], k);
      }
    case Delete(keys, _) =>
      DeleteKeepsForm(s, keys);
      HeldIsLastPut(maxsize, ops[..n], k);
  }

  /** A hit returns the value put last, before it expires. */
  lemma HitIsFresh(maxsize: nat, ops: seq<Op>, k: Key, now: Instant)
    requires Lookup(Run(maxsize, ops), k, now).Some?
    ensures var put := LastPut(ops, k);
            put.Some? && Lookup(Run(maxsize, ops), k, now) == Some(put.value.value) && now < put.value.expiresAt
  {
    HeldIsLastPut(maxsize, ops, k);
  }

  // ---------------------------------------------------------------- retention

  /** The key an operation moves to the recent end, if any: puts, and gets that hit. */
  function Touched(s: Store, op: Op): Option<Key> {
    match op
    case Get(k, now) => if Lookup(s, k, now).Some? then Some(k) else None
    case Put(k, _, _, _) => Some(k)
    case Delete(_, _) => None
  }

  /** The other keys touched since `k` was. */
  function TouchedSince(maxsize: nat, ops: seq<Op>, k: Key): set<Key> {
    if ops == [] then {}
    else
      var touched := Touched(Run(maxsize, ops[..|ops| - 1]), ops[|ops| - 1]);
      if touched == Some(k) then {}
      else TouchedSince(maxsize, ops[..|ops| - 1], k) + (if touched.Some? then {touched.value} else {})
  }

  /** The keys more recent than `k` in the order. */
  function Later(order: seq<Key>, k: Key): set<Key> {
    if order == [] then {}
    else if order[0] == k then Elements(order[1..])
    else Later(order[1..], k)
  }

  lemma {:induction false} LaterAtEnd(order: seq<Key>, k: Key)
    requires k !in order
    ensures Later(order + [k], k) == {}
  {
    if order == [] {
      assert [k][1..] == [];
    } else {
      assert (order + [k])[1..] == order[1..] + [k];
      LaterAtEnd(order[1..], k);
    }
  }

  lemma {:induction false} LaterAppend(order: seq<Key>, j: Key, k: Key)
    requires k in order && j != k
    ensures Later(order + [j], k) == Later(order, k) + {j}
  {
    assert (order + [j])[1..] == order[1..] + [j];
    if order[0] != k {
      LaterAppend(order[1..], j, k);
    }
  }

  lemma {:induction false} LaterWithout(order: seq<Key>, j: Key, k: Key)
    requires k in order && j != k
    ensures Later(Without(order, j), k) == Later(order, k) - {j}
  {
    WithoutRemoves(order[1..], j);
    if order[0] == k {
      assert Without(order, j)[1..] == Without(order[1..], j);
    } else {
      LaterWithout(order[1..], j, k);
      if order[0] != j {
        assert Without(order, j)[1..] == Without(order[1..], j);
      }
    }
  }

  lemma {:induction false} SizeOfDistinct(order: seq<Key>)
    requires NoDuplicates(order)
    ensures |Elements(order)| == |order|
  {
    if order != [] {
      SizeOfDistinct(order[1..]);
    }
  }

  lemma {:induction false} FewerAreLater(order: seq<Key>, k: Key)
    requires NoDuplicates(order) && k in order
    ensures |Later(order, k)| < |order|
  {
    if order[0] == k {
      SizeOfDistinct(order[1..]);
    } else {
      FewerAreLater(order[1..], k);
    }
  }

  /** All operations happen by `until`, in particular none later than the key's expiry. */
  predicate AllBy(ops: seq<Op>, until: Instant) {
    forall i :: 0 <= i < |ops| ==> ops[i].at <= until
  }

  /** No deletes, and no get that finds an expired entry: evictions are the only removals. */
  ghost predicate OnlyEvictions(maxsize: nat, ops: seq<Op>) {
    forall i :: 0 <= i < |ops| ==>
      && !ops[i].Delete?
      && (ops[i].Get? && ops[i].key in Run(maxsize, ops[..i]).entries ==>
            Lookup(Run(maxsize, ops[..i]), ops[i].key, ops[i].at).Some?)
  }

  /** What the order says about a key: more recent keys were touched since; and if nothing but
      eviction removes keys, they are all the keys touched since. */
  ghost predicate Tracks(maxsize: nat, ops: seq<Op>, k: Key) {
    var s := Run(maxsize, ops);
    && k in s.entries
    && Later(s.order, k) <= TouchedSince(maxsize, ops, k)
    && (OnlyEvictions(maxsize, ops) ==> Later(s.order, k) == TouchedSince(maxsize, ops, k))
  }

  lemma OnlyEvictionsPrefix(maxsize: nat, ops: seq<Op>)
    requires ops != [] && OnlyEvictions(maxsize, ops)
    ensures var init, last := ops[..|ops| - 1], ops[|ops| - 1];
            && OnlyEvictions(maxsize, init) && !last.Delete?
            && (last.Get? && last.key in Run(maxsize, init).entries ==>
                  Lookup(Run(maxsize, init), last.key, last.at).Some?)
  {
    var init := ops[..|ops| - 1];
    forall i | 0 <= i < |init| ensures init[i] == ops[i] && init[..i] == ops[..i] {
    }
  }

  /** Touching another key makes it later than `k`. */
  lemma MoveOther(s: Store, j: Key, k: Key)
    requires k in s.order && j != k
    ensures k in MoveToEnd(s, j).order && Later(MoveToEnd(s, j).order, k) == Later(s.order, k) + {j}
  {
    WithoutRemoves(s.order, j);
    LaterWithout(s.order, j, k);
    LaterAppend(Without(s.order, j), j, k);
  }

  lemma MoveSelf(s: Store, k: Key)
    ensures k in MoveToEnd(s, k).order && Later(MoveToEnd(s, k).order, k) == {}
  {
    WithoutRemoves(s.order, k);
    LaterAtEnd(Without(s.order, k), k);
  }

  /** Putting another key makes it later than `k`, or evicts `k` when `maxsize` keys are later. */
  lemma PutOther(maxsize: nat, s: Store, j: Key, v: Value, expiresAt: Instant, k: Key)
    requires WellFormed(s) && |s.order| <= maxsize && k in s.order && j != k
    ensures var s' := AfterPut(maxsize, s, j, v, expiresAt);
            && (k in s'.entries ==>
                  k in s'.order && Later(s'.order, k) == Later(s.order, k) + {j} && s'.entries[k] == s.entries[k])
            && (k !in s'.entries ==> |Later(s.order, k) + {j}| == maxsize)
  {
    var t := s.(entries := s.entries[j := Entry(v, expiresAt)]);
    MoveToEndKeepsForm(t, j);
    MoveOther(t, j, k);
    var moved := MoveToEnd(t, j);
    EvictOne(maxsize, moved);
    if |moved.order| == maxsize + 1 && moved.order[0] == k {
      SizeOfDistinct(moved.order[1..]);
    }
  }

  /** A put brings in no other key. */
  lemma PutAddsOne(maxsize: nat, s: Store, j: Key, v: Value, expiresAt: Instant)
    requires WellFormed(s) && |s.order| <= maxsize
    ensures forall k :: k in AfterPut(maxsize, s, j, v, expiresAt).entries ==> k == j || k in s.order
  {
    var t := s.(entries := s.entries[j := Entry(v, expiresAt)]);
    MoveToEndKeepsForm(t, j);
    EvictOne(maxsize, MoveToEnd(t, j));
  }

  /** Putting the key itself: it is held and most recent, if anything can be held. */
  lemma PutSelf(maxsize: nat, s: Store, k: Key, v: Value, expiresAt: Instant)
    requires WellFormed(s) && |s.order| <= maxsize
    ensures var s' := AfterPut(maxsize, s, k, v, expiresAt);
            && (k in s'.entries <==> maxsize >= 1)
            && (k in s'.entries ==> Later(s'.order, k) == {} && s'.entries[k] == Entry(v, expiresAt))
  {
    var t := s.(entries := s.entries[k := Entry(v, expiresAt)]);
    MoveToEndKeepsForm(t, k);
    MoveSelf(t, k);
    var moved := MoveToEnd(t, k);
    EvictOne(maxsize, moved);
    assert moved.order[|moved.order| - 1] == k;
    if |moved.order| == maxsize + 1 >= 2 {
      assert moved.order[1..][|moved.order| - 2] == k;
    }
  }

  lemma GetTracks(maxsize: nat, ops: seq<Op>, k: Key)
    requires ops != [] && ops[|ops| - 1].Get? && Tracks(maxsize, ops[..|ops| - 1], k)
    requires ops[|ops| - 1].key == k ==> ops[|ops| - 1].at < Run(maxsize, ops[..|ops| - 1]).entries[k].expiresAt
    ensures Tracks(maxsize, ops, k)
  {
    hide OnlyEvictions, Later;
    var n := |ops| - 1;
    var s := Run(maxsize, ops[..n]);
    var j := ops[n].key;
    NeverTooLarge(maxsize, ops[..n]);
    if OnlyEvictions(maxsize, ops) {
      OnlyEvictionsPrefix(maxsize, ops);
    }
    if j == k {
      MoveSelf(s, k);
    } else {
      WithoutRemoves(s.order, j);
      LaterWithout(s.order, j, k);
      MoveOther(s, j, k);
    }
  }

  lemma PutTracks(maxsize: nat, ops: seq<Op>, k: Key)
    requires ops != [] && ops[|ops| - 1].Put? && ops[|ops| - 1].key != k && Tracks(maxsize, ops[..|ops| - 1], k)
    requires |TouchedSince(maxsize, ops, k)| < maxsize
    ensures Tracks(maxsize, ops, k)
  {
    hide OnlyEvictions, Evict, Later;
    var n := |ops| - 1;
    var s := Run(maxsize, ops[..n]);
    var op := ops[n];
    NeverTooLarge(maxsize, ops[..n]);
    if OnlyEvictions(maxsize, ops) {
      OnlyEvictionsPrefix(maxsize, ops);
    }
    PutOther(maxsize, s, op.key, op.value, op.at + op.ttlSeconds * SECOND, k);
    SubsetIsSmaller(Later(s.order, k) + {op.key}, TouchedSince(maxsize, ops, k));
  }

  lemma {:induction false} DeleteLater(s: Store, keys: seq<Key>, k: Key)
    requires WellFormed(s) && k in s.order && k !in keys
    ensures k in AfterDelete(s, keys).order && Later(AfterDelete(s, keys).order, k) <= Later(s.order, k)
    decreases keys
  {
    if keys != [] {
      assert keys == [keys[0]] + keys[1..];
      DropKeepsForm(s, keys[0]);
      WithoutRemoves(s.order, keys[0]);
      LaterWithout(s.order, keys[0], k);
      DeleteLater(Drop(s, keys[0]), keys[1..], k);
    }
  }

  /** Retention: a key that was put, not deleted, not expired, and since whose last touch fewer
      than `maxsize` other keys were touched, is still held. */
  lemma {:induction false} RecentKeyIsHeld(maxsize: nat, ops: seq<Op>, k: Key, until: Instant)
    requires LastPut(ops, k).Some? && until < LastPut(ops, k).value.expiresAt && AllBy(ops, until)
    requires |TouchedSince(maxsize, ops, k)| < maxsize
    ensures Tracks(maxsize, ops, k)
    ensures Lookup(Run(maxsize, ops), k, until) == Some(LastPut(ops, k).value.value)
  {
    var n := |ops| - 1;
    var s := Run(maxsize, ops[..n]);
    NeverTooLarge(maxsize, ops[..n]);
    if ops[n].Put? && ops[n].key == k {
      PutSelf(maxsize, s, k, ops[n].value, ops[n].at + ops[n].ttlSeconds * SECOND);
    } else if Touched(s, ops[n]) == Some(k) {
      HeldIsLastPut(maxsize, ops[..n], k);
      RecentAgain(maxsize, ops, k);
    } else {
      SubsetIsSmaller(TouchedSince(maxsize, ops[..n], k), TouchedSince(maxsize, ops, k));
      RecentKeyIsHeld(maxsize, ops[..n], k, until);
      HeldIsLastPut(maxsize, ops[..n], k);
      match ops[n]
      case Get(_, _) => GetTracks(maxsize, ops, k);
      case Put(_, _, _, _) => PutTracks(maxsize, ops, k);
      case Delete(keys, _) =>
        DeleteLater(s, keys, k);
        DeleteKeepsForm(s, keys);
        assert !OnlyEvictions(maxsize, ops);
    }
    HeldIsLastPut(maxsize, ops, k);
  }

  /** A hit puts the key back at the recent end. */
  lemma RecentAgain(maxsize: nat, ops: seq<Op>, k: Key)
    requires ops != [] && ops[|ops| - 1].Get? && ops[|ops| - 1].key == k
    requires Lookup(Run(maxsize, ops[..|ops| - 1]), k, ops[|ops| - 1].at).Some?
    ensures Tracks(maxsize, ops, k)
  {
    NeverTooLarge(maxsize, ops[..|ops| - 1]);
    MoveSelf(Run(maxsize, ops[..|ops| - 1]), k);
  }

  /** When keys leave by eviction alone, the rule is exact: an unexpired key that was put is held
      if and only if fewer than `maxsize` other keys were touched since it last was. */
  lemma {:induction false} EvictionIsExactlyLru(maxsize: nat, ops: seq<Op>, k: Key, until: Instant)
    requires LastPut(ops, k).Some? && until < LastPut(ops, k).value.expiresAt && AllBy(ops, until)
    requires OnlyEvictions(maxsize, ops)
    ensures k in Run(maxsize, ops).entries <==> |TouchedSince(maxsize, ops, k)| < maxsize
  {
    if |TouchedSince(maxsize, ops, k)| < maxsize {
      RecentKeyIsHeld(maxsize, ops, k, until);
    } else if k in Run(maxsize, ops).entries {
      HeldTracks(maxsize, ops, k);
      NeverTooLarge(maxsize, ops);
      FewerAreLater(Run(maxsize, ops).order, k);
    }
  }

  lemma HeldThroughGet(maxsize: nat, ops: seq<Op>, k: Key)
    requires ops != [] && ops[|ops| - 1].Get? && ops[|ops| - 1].key != k && k in Run(maxsize, ops[..|ops| - 1]).entries
    requires ops[|ops| - 1].key in Run(maxsize, ops[..|ops| - 1]).entries ==>
               Lookup(Run(maxsize, ops[..|ops| - 1]), ops[|ops| - 1].key, ops[|ops| - 1].at).Some?
    requires Later(Run(maxsize, ops[..|ops| - 1]).order, k) == TouchedSince(maxsize, ops[..|ops| - 1], k)
    ensures Later(Run(maxsize, ops).order, k) == TouchedSince(maxsize, ops, k)
  {
    hide Later;
    var s := Run(maxsize, ops[..|ops| - 1]);
    NeverTooLarge(maxsize, ops[..|ops| - 1]);
    MoveOther(s, ops[|ops| - 1].key, k);
  }

  lemma HeldThroughPut(maxsize: nat, ops: seq<Op>, k: Key)
    requires ops != [] && ops[|ops| - 1].Put? && ops[|ops| - 1].key != k && k in Run(maxsize, ops).entries
    requires k in Run(maxsize, ops[..|ops| - 1]).entries ==>
               Later(Run(maxsize, ops[..|ops| - 1]).order, k) == TouchedSince(maxsize, ops[..|ops| - 1], k)
    ensures k in Run(maxsize, ops[..|ops| - 1]).entries
    ensures Later(Run(maxsize, ops).order, k) == TouchedSince(maxsize, ops, k)
  {
    hide Later, AfterPut;
    var s, op := Run(maxsize, ops[..|ops| - 1]), ops[|ops| - 1];
    NeverTooLarge(maxsize, ops[..|ops| - 1]);
    PutAddsOne(maxsize, s, op.key, op.value, op.at + op.ttlSeconds * SECOND);
    PutOther(maxsize, s, op.key, op.value, op.at + op.ttlSeconds * SECOND, k);
  }

  lemma PutThenHeld(maxsize: nat, ops: seq<Op>, k: Key)
    requires ops != [] && ops[|ops| - 1].Put? && ops[|ops| - 1].key == k && k in Run(maxsize, ops).entries
    ensures Later(Run(maxsize, ops).order, k) == {} == TouchedSince(maxsize, ops, k)
  {
    hide Later, AfterPut;
    var op := ops[|ops| - 1];
    NeverTooLarge(maxsize, ops[..|ops| - 1]);
    PutSelf(maxsize, Run(maxsize, ops[..|ops| - 1]), k, op.value, op.at + op.ttlSeconds * SECOND);
  }

  lemma {:induction false} HeldTracks(maxsize: nat, ops: seq<Op>, k: Key)
    requires k in Run(maxsize, ops).entries && OnlyEvictions(maxsize, ops)
    ensures Later(Run(maxsize, ops).order, k) == TouchedSince(maxsize, ops, k)
  {
    hide OnlyEvictions, Later, AfterPut, TouchedSince;
    var n := |ops| - 1;
    OnlyEvictionsPrefix(maxsize, ops);
    if ops[n].key == k {
      if ops[n].Get? {
        RecentAgain(maxsize, ops, k);
      } else {
        PutThenHeld(maxsize, ops, k);
      }
    } else if ops[n].Get? {
      HeldTracks(maxsize, ops[..n], k);
      HeldThroughGet(maxsize, ops, k);
    } else {
      if k in Run(maxsize, ops[..n]).entries {
        HeldTracks(maxsize, ops[..n], k);
      }
      HeldThroughPut(maxsize, ops, k);
    }
  }

  // ---------------------------------------------------------------- the code that does it

  class LocalTTLCache {
    const maxsize: nat
    var order: seq<Key>
    var entries: map<Key, Entry>

    ghost function Contents(): Store
      reads this
    {
      Store(order, entries)
    }

    constructor (maxsize: nat)
      ensures this.maxsize == maxsize && Contents() == Run(maxsize, [])
    {
      this.maxsize, this.order, this.entries := maxsize, [], map[];
    }

    method Read(key: Key, now: Instant) returns (value: Option<Value>)
      modifies this
      ensures Contents() == AfterGet(old(Contents()), key, now)
      ensures value == Lookup(old(Contents()), key, now)
    {
      if key !in entries {
        return None;
      }
      var entry := entries[key];
      if now >= entry.expiresAt {
        order := Without(order, key);
        entries := entries - {key};
        return None;
      }
      order := Without(order, key) + [key];
      return Some(entry.value);
    }

    method Write(key: Key, value: Value, ttlSeconds: int, now: Instant)
      modifies this
      ensures Contents() == AfterPut(maxsize, old(Contents()), key, value, now + ttlSeconds * SECOND)
    {
      entries := entries[key := Entry(value, now + ttlSeconds * SECOND)];
      order := Without(order, key) + [key];
      ghost var written := Contents();
      while |order| > maxsize
        invariant Evict(maxsize, Contents()) == Evict(maxsize, written)
        decreases |order|
      {
        entries := entries - {order[0]};
        order := order[1..];
      }
    }

    method Remove(keys: seq<Key>)
      modifies this
      ensures Contents() == AfterDelete(old(Contents()), keys)
    {
      for i := 0 to |keys|
        invariant AfterDelete(Contents(), keys[i..]) == AfterDelete(old(Contents()), keys)
      {
        assert keys[i..][1..] == keys[i + 1..];
        order := Without(order, keys[i]);
        entries := entries - {keys[i]};
      }
    }
  }
}
