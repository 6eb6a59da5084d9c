/** Python list operations the core relies on: `list.index`, `list.remove` and
    duplicate-freedom. */
module SeqUtil {

  predicate Distinct<T(==)>(xs: seq<T>) {
    forall i, j | 0 <= i < j < |xs| :: xs[i] != xs[j]
  }

  /** `xs.index(x)`: the position of the first occurrence. */
  function IndexOf<T(==)>(xs: seq<T>, x: T): (i: nat)
    requires x in xs
    ensures i < |xs| && xs[i] == x && forall j | 0 <= j < i :: xs[j] != x
  {
    if xs[0] == x then 0
    else
      var j := IndexOf(xs[1..], x);
      assert forall k | 0 <= k < j :: xs[1..][k] == xs[k + 1];
      j + 1
  }

  /** `xs.remove(x)` with `ValueError` swallowed: drops the first occurrence, if any,
      and keeps the rest in order. */
  function RemoveFirst<T(==)>(xs: seq<T>, x: T): (r: seq<T>)
    ensures x !in xs ==> r == xs
    ensures x in xs ==> |r| == |xs| - 1 && multiset(r) == multiset(xs) - multiset{x}
    ensures x in xs ==> forall k | 0 <= k < |r| :: r[k] == if k < IndexOf(xs, x) then xs[k] else xs[k + 1]
  {
    if x in xs then
      var i := IndexOf(xs, x);
      assert xs == xs[..i] + [x] + xs[i + 1..];
      assert multiset(xs) == multiset(xs[..i]) + multiset{x} + multiset(xs[i + 1..]);
      xs[..i] + xs[i + 1..]
    else xs
  }

  /** In a duplicate-free list, removing `x` removes exactly `x` and keeps the rest
      duplicate-free and in order. */
  lemma {:induction false} RemoveFirstDistinct<T>(xs: seq<T>, x: T)
    requires Distinct(xs)
    ensures Distinct(RemoveFirst(xs, x))
    ensures forall y :: y in RemoveFirst(xs, x) <==> y in xs && y != x
  {
    if x in xs {
      var i := IndexOf(xs, x);
      var r := xs[..i] + xs[i + 1..];
      assert forall k | 0 <= k < |r| :: r[k] == if k < i then xs[k] else xs[k + 1];
      forall y | y in xs && y != x ensures y in r {
        var k :| 0 <= k < |xs| && xs[k] == y;
        if k < i { assert r[k] == y; } else { assert r[k - 1] == y; }
      }
    }
  }

  /** Appending a new element keeps a list duplicate-free. */
  lemma {:induction false} AppendDistinct<T>(xs: seq<T>, x: T)
    requires Distinct(xs) && x !in xs
    ensures Distinct(xs + [x])
  {
  }

  /** Prepending a new element keeps a list duplicate-free. */
  lemma {:induction false} PrependDistinct<T>(xs: seq<T>, x: T)
    requires Distinct(xs) && x !in xs
    ensures Distinct([x] + xs)
  {
    var r := [x] + xs;
    forall i, j | 0 <= i < j < |r| ensures r[i] != r[j] {
      if i == 0 { assert r[j] == xs[j - 1]; }
      else { assert r[i] == xs[i - 1] && r[j] == xs[j - 1]; }
    }
  }
}
