/** Small vocabulary shared by every model: optional values, instants, key orders. */
module Prelude {

  datatype Option<+T> = None | Some(value: T) {
    function GetOr(default: T): T {
      match this
      case Some(v) => v
      case None => default
    }
  }

  datatype Result<+T, +E> = Success(value: T) | Failure(error: E)

  /** A point in time, in microseconds: the resolution of the source's timestamps. */
  type Instant = int

  const SECOND: int := 1_000_000

  function Min(x: int, y: int): int {
    if x <= y then x else y
  }

  function Max(x: int, y: int): int {
    if x >= y then x else y
  }

  /** The sequence with every occurrence of `k` taken out. */
  function Without<T(==)>(order: seq<T>, k: T): seq<T> {
    if order == [] then []
    else if order[0] == k then Without(order[1..], k)
    else [order[0]] + Without(order[1..], k)
  }

  predicate NoDuplicates<T(==)>(order: seq<T>) {
    order == [] || (order[0] !in order[1..] && NoDuplicates(order[1..]))
  }

  lemma {:induction false} WithoutRemoves<T>(order: seq<T>, k: T)
    ensures forall x :: x in Without(order, k) <==> x in order && x != k
    ensures |Without(order, k)| <= |order|
    ensures NoDuplicates(order) ==> NoDuplicates(Without(order, k))
    ensures NoDuplicates(order) && k in order ==> |Without(order, k)| == |order| - 1
    ensures k !in order ==> Without(order, k) == order
  {
    if order != [] {
      WithoutRemoves(order[1..], k);
      assert order == [order[0]] + order[1..];
      if order[0] != k {
        assert Without(order, k)[1..] == Without(order[1..], k);
      }
    }
  }

  lemma {:induction false} AppendKeepsDistinct<T>(order: seq<T>, k: T)
    requires NoDuplicates(order) && k !in order
    ensures NoDuplicates(order + [k])
  {
    if order == [] {
      assert [k][1..] == [];
    } else {
      assert (order + [k])[1..] == order[1..] + [k];
      AppendKeepsDistinct(order[1..], k);
    }
  }

  function Elements<T(==,!new)>(s: seq<T>): (r: set<T>)
    ensures forall x :: x in r <==> x in s
    ensures |r| <= |s|
  {
    if s == [] then {} else {s[0]} + Elements(s[1..])
  }

  lemma SubsetIsSmaller<T>(a: set<T>, b: set<T>)
    requires a <= b
    ensures |a| <= |b|
  {
    assert b == a + (b - a);
  }
}
