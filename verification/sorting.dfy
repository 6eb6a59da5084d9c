/** Python's stable `list.sort(key=...)` for the integer keys the downloaders use
    (`-mtime` for stored files, `-int(rating)` for search rows): ascending by the
    key, with equal keys kept in their original order. */
module StableSort {

  /** Non-decreasing by key. */
  predicate Sorted<T>(xs: seq<T>, key: T -> int) {
    forall i, j | 0 <= i < j < |xs| :: key(xs[i]) <= key(xs[j])
  }

  /** The elements with key `k`, in order. */
  function WithKey<T>(xs: seq<T>, key: T -> int, k: int): seq<T> {
    if xs == [] then [] else (if key(xs[0]) == k then [xs[0]] else []) + WithKey(xs[1..], key, k)
  }

  /** Puts `x` in front of the first element whose key is not smaller. */
  function Insert<T>(x: T, s: seq<T>, key: T -> int): (r: seq<T>)
    ensures |r| == |s| + 1
  {
    if s == [] || key(x) <= key(s[0]) then [x] + s
    else
      assert s == [s[0]] + s[1..];
      [s[0]] + Insert(x, s[1..], key)
  }

  /** `sorted(xs, key=key)`. */
  function Sort<T>(xs: seq<T>, key: T -> int): (r: seq<T>)
    ensures |r| == |xs|
  {
    if xs == [] then [] else Insert(xs[0], Sort(xs[1..], key), key)
  }

  lemma {:induction false} InsertPermutes<T>(x: T, s: seq<T>, key: T -> int)
    ensures multiset(Insert(x, s, key)) == multiset{x} + multiset(s)
    decreases |s|
  {
    if s != [] && key(x) > key(s[0]) {
      InsertPermutes(x, s[1..], key);
      assert s == [s[0]] + s[1..];
    }
  }

  /** The result is a permutation of the input. */
  lemma {:induction false} SortPermutes<T>(xs: seq<T>, key: T -> int)
    ensures multiset(Sort(xs, key)) == multiset(xs)
    decreases |xs|
  {
    if xs != [] {
      SortPermutes(xs[1..], key);
      InsertPermutes(xs[0], Sort(xs[1..], key), key);
      assert xs == [xs[0]] + xs[1..];
    }
  }

  lemma {:induction false} InsertSorted<T>(x: T, s: seq<T>, key: T -> int)
    requires Sorted(s, key)
    ensures Sorted(Insert(x, s, key), key)
    decreases |s|
  {
    if s != [] && key(x) > key(s[0]) {
      InsertSorted(x, s[1..], key);
      var rest := Insert(x, s[1..], key);
      forall i | 0 <= i < |s[1..]| ensures key(s[1..][i]) >= key(s[0]) {
        assert s[1..][i] == s[i + 1];
      }
      InsertAbove(x, s[1..], key, key(s[0]));
      var r := [s[0]] + rest;
      forall i, j | 0 <= i < j < |r| ensures key(r[i]) <= key(r[j]) {
        assert r[j] == rest[j - 1];
        if i > 0 {
          assert r[i] == rest[i - 1];
        }
      }
    }
  }

  /** A lower bound on the keys of `x` and `s` bounds the keys after the insertion. */
  lemma {:induction false} InsertAbove<T>(x: T, s: seq<T>, key: T -> int, b: int)
    requires key(x) >= b && forall i | 0 <= i < |s| :: key(s[i]) >= b
    ensures forall i | 0 <= i < |Insert(x, s, key)| :: key(Insert(x, s, key)[i]) >= b
    decreases |s|
  {
    if s != [] && key(x) > key(s[0]) {
      forall i | 0 <= i < |s[1..]| ensures key(s[1..][i]) >= b {
        assert s[1..][i] == s[i + 1];
      }
      InsertAbove(x, s[1..], key, b);
      var rest := Insert(x, s[1..], key);
      forall i | 0 <= i < |[s[0]] + rest| ensures key(([s[0]] + rest)[i]) >= b {
        if i > 0 { assert ([s[0]] + rest)[i] == rest[i - 1]; }
      }
    } else {
      forall i | 0 <= i < |[x] + s| ensures key(([x] + s)[i]) >= b {
        if i > 0 { assert ([x] + s)[i] == s[i - 1]; }
      }
    }
  }

  /** The result is in key order. */
  lemma {:induction false} SortSorted<T>(xs: seq<T>, key: T -> int)
    ensures Sorted(Sort(xs, key), key)
    decreases |xs|
  {
    if xs != [] {
      SortSorted(xs[1..], key);
      InsertSorted(xs[0], Sort(xs[1..], key), key);
    }
  }

  lemma {:induction false} WithKeyAppend<T>(a: seq<T>, b: seq<T>, key: T -> int, k: int)
    ensures WithKey(a + b, key, k) == WithKey(a, key, k) + WithKey(b, key, k)
    decreases |a|
  {
    if a != [] {
      assert (a + b)[1..] == a[1..] + b;
      WithKeyAppend(a[1..], b, key, k);
    } else {
      assert a + b == b;
    }
  }

  /** Inserting keeps every key class in order, with `x` first in its own class: `x`
      only passes elements whose key is smaller than its own. */
  lemma {:induction false} InsertWithKey<T>(x: T, s: seq<T>, key: T -> int, k: int)
    ensures WithKey(Insert(x, s, key), key, k) == (if key(x) == k then [x] else []) + WithKey(s, key, k)
    decreases |s|
  {
    if s != [] && key(x) > key(s[0]) {
      InsertWithKey(x, s[1..], key, k);
      PassHead(x, s, key, k);
    } else {
      WithKeyCons(x, s, key, k);
    }
  }

  lemma {:induction false} PassHead<T>(x: T, s: seq<T>, key: T -> int, k: int)
    requires s != [] && key(x) > key(s[0])
    requires WithKey(Insert(x, s[1..], key), key, k) == (if key(x) == k then [x] else []) + WithKey(s[1..], key, k)
    ensures WithKey(Insert(x, s, key), key, k) == (if key(x) == k then [x] else []) + WithKey(s, key, k)
  {
    var rest := Insert(x, s[1..], key);
    var head := if key(s[0]) == k then [s[0]] else [];
    var mine := if key(x) == k then [x] else [];
    var tail := WithKey(s[1..], key, k);
    WithKeyCons(s[0], rest, key, k);
    WithKeyCons(s[0], s[1..], key, k);
    assert s == [s[0]] + s[1..];
    if key(s[0]) == k {
      assert mine == [];
      assert [] + (head + tail) == head + tail;
    } else {
      assert head == [];
      assert [] + (mine + tail) == mine + tail;
    }
  }

  lemma {:induction false} WithKeyCons<T>(x: T, s: seq<T>, key: T -> int, k: int)
    ensures WithKey([x] + s, key, k) == (if key(x) == k then [x] else []) + WithKey(s, key, k)
  {
    assert ([x] + s)[1..] == s;
  }

  /** Stability: each key class appears in the result exactly as in the input. */
  lemma {:induction false} SortStable<T>(xs: seq<T>, key: T -> int, k: int)
    ensures WithKey(Sort(xs, key), key, k) == WithKey(xs, key, k)
    decreases |xs|
  {
    if xs != [] {
      SortStable(xs[1..], key, k);
      InsertWithKey(xs[0], Sort(xs[1..], key), key, k);
    }
  }
}
