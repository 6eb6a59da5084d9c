/** The round-robin listing behind `QueueManager.get_queue_tracks` and the position
    arithmetic of `get_track_position` (core/QueueManager.py): round `i` takes the
    `i`-th track of every queued user, in queue order, skipping users with fewer
    tracks; rounds follow each other until one comes out empty. */
module RoundRobin {

  type Uid = int

  /** Every listed user has a playlist. */
  predicate Covers<T>(pl: map<Uid, seq<T>>, users: seq<Uid>) {
    forall i | 0 <= i < |users| :: users[i] in pl
  }

  /** The longest playlist among `users`. */
  function Longest<T>(pl: map<Uid, seq<T>>, users: seq<Uid>): (m: nat)
    requires Covers(pl, users)
    ensures forall j | 0 <= j < |users| :: |pl[users[j]]| <= m
  {
    if users == [] then 0
    else
      var rest := Longest(pl, users[1..]);
      assert forall j | 1 <= j < |users| :: users[j] == users[1..][j - 1];
      if |pl[users[0]]| >= rest then |pl[users[0]]| else rest
  }

  /** Round `i`: the `i`-th track of each user that has one, in queue order. */
  function Round<T>(pl: map<Uid, seq<T>>, users: seq<Uid>, i: nat): (r: seq<T>)
    requires Covers(pl, users)
    ensures |r| <= |users|
    ensures r != [] <==> exists j | 0 <= j < |users| :: |pl[users[j]]| > i
  {
    if users == [] then []
    else
      var rest := Round(pl, users[1..], i);
      assert forall j | 1 <= j < |users| :: users[j] == users[1..][j - 1];
      (if |pl[users[0]]| > i then [pl[users[0]][i]] else []) + rest
  }

  /** The `while True` loop from round `i` on: it stops at the first empty round. */
  function Listing<T>(pl: map<Uid, seq<T>>, users: seq<Uid>, i: nat): seq<T>
    requires Covers(pl, users)
    decreases Longest(pl, users) - i
  {
    var r := Round(pl, users, i);
    if r == [] then [] else r + Listing(pl, users, i + 1)
  }

  /** Python's `tracks[offset:]` (limit 0) or `tracks[offset:offset + limit]`. */
  function Window<T>(xs: seq<T>, offset: nat, limit: nat): (r: seq<T>)
    ensures offset >= |xs| ==> r == []
    ensures offset < |xs| ==> r == xs[offset..if limit == 0 || offset + limit > |xs| then |xs| else offset + limit]
  {
    var start := if offset > |xs| then |xs| else offset;
    var stop := if limit == 0 || offset + limit > |xs| then |xs| else offset + limit;
    xs[start..stop]
  }

  /** How many of `users` have more than `k` tracks. */
  function Ahead<T>(pl: map<Uid, seq<T>>, users: seq<Uid>, k: nat): nat
    requires Covers(pl, users)
  {
    if users == [] then 0
    else (if |pl[users[0]]| > k then 1 else 0) + Ahead(pl, users[1..], k)
  }

  /** `sum(min(len(playlist), k) for each user)`. */
  function SumMin<T>(pl: map<Uid, seq<T>>, users: seq<Uid>, k: nat): nat
    requires Covers(pl, users)
  {
    if users == [] then 0
    else (if |pl[users[0]]| < k then |pl[users[0]]| else k) + SumMin(pl, users[1..], k)
  }

  /** The total number of tracks of `users`. */
  function Total<T>(pl: map<Uid, seq<T>>, users: seq<Uid>): nat
    requires Covers(pl, users)
  {
    if users == [] then 0 else |pl[users[0]]| + Total(pl, users[1..])
  }

  lemma {:induction false} RoundLength<T>(pl: map<Uid, seq<T>>, users: seq<Uid>, k: nat)
    requires Covers(pl, users)
    ensures |Round(pl, users, k)| == Ahead(pl, users, k)
    decreases |users|
  {
    if users != [] {
      RoundLength(pl, users[1..], k);
    }
  }

  /** Each round adds one track per user still holding tracks at that depth. */
  lemma {:induction false} SumMinStep<T>(pl: map<Uid, seq<T>>, users: seq<Uid>, k: nat)
    requires Covers(pl, users)
    ensures SumMin(pl, users, k + 1) == SumMin(pl, users, k) + Ahead(pl, users, k)
    decreases |users|
  {
    if users != [] {
      SumMinStep(pl, users[1..], k);
    }
  }

  /** Past the longest playlist, every playlist is counted in full. */
  lemma {:induction false} SumMinSaturates<T>(pl: map<Uid, seq<T>>, users: seq<Uid>, k: nat)
    requires Covers(pl, users)
    requires forall j | 0 <= j < |users| :: |pl[users[j]]| <= k
    ensures SumMin(pl, users, k) == Total(pl, users)
    decreases |users|
  {
    if users != [] {
      assert forall j | 1 <= j < |users| :: users[j] == users[1..][j - 1];
      SumMinSaturates(pl, users[1..], k);
      assert SumMin(pl, users, k) == |pl[users[0]]| + SumMin(pl, users[1..], k);
    }
  }

  lemma {:induction false} AheadPrefix<T>(pl: map<Uid, seq<T>>, users: seq<Uid>, p: nat, k: nat)
    requires Covers(pl, users) && p < |users|
    ensures Ahead(pl, users[..p + 1], k) == Ahead(pl, users[..p], k) + (if |pl[users[p]]| > k then 1 else 0)
    decreases p
  {
    if p > 0 {
      assert users[..p + 1][1..] == users[1..][..p];
      assert users[..p][1..] == users[1..][..p - 1];
      AheadPrefix(pl, users[1..], p - 1, k);
    } else {
      assert users[..1][1..] == [];
    }
  }

  /** Within round `k`, the user at queue position `p` comes after exactly the users
      ahead of it that also reach depth `k`. */
  lemma {:induction false} RoundIndex<T>(pl: map<Uid, seq<T>>, users: seq<Uid>, k: nat, p: nat)
    requires Covers(pl, users) && p < |users| && |pl[users[p]]| > k
    ensures Ahead(pl, users[..p], k) < |Round(pl, users, k)|
    ensures Round(pl, users, k)[Ahead(pl, users[..p], k)] == pl[users[p]][k]
    decreases p
  {
    var head: seq<T> := if |pl[users[0]]| > k then [pl[users[0]][k]] else [];
    var rest := Round(pl, users[1..], k);
    assert Round(pl, users, k) == head + rest;
    if p > 0 {
      assert users[..p][1..] == users[1..][..p - 1];
      RoundIndex(pl, users[1..], k, p - 1);
    }
  }

  /** The listing from round `i`, indexed at the global position of track `k` of the
      user at queue position `p`, finds that track. */
  lemma {:induction false} ListingIndexFrom<T>(pl: map<Uid, seq<T>>, users: seq<Uid>, i: nat, k: nat, p: nat)
    requires Covers(pl, users) && p < |users| && |pl[users[p]]| > k && i <= k
    ensures SumMin(pl, users, i) <= SumMin(pl, users, k)
    ensures var g := SumMin(pl, users, k) - SumMin(pl, users, i) + Ahead(pl, users[..p], k);
      g < |Listing(pl, users, i)| && Listing(pl, users, i)[g] == pl[users[p]][k]
    decreases k - i
  {
    if i == k {
      ListingIndexHere(pl, users, k, p);
    } else {
      ListingIndexFrom(pl, users, i + 1, k, p);
      ListingIndexStep(pl, users, i, k, p);
    }
  }

  lemma {:induction false} ListingIndexHere<T>(pl: map<Uid, seq<T>>, users: seq<Uid>, k: nat, p: nat)
    requires Covers(pl, users) && p < |users| && |pl[users[p]]| > k
    ensures var g := Ahead(pl, users[..p], k);
      g < |Listing(pl, users, k)| && Listing(pl, users, k)[g] == pl[users[p]][k]
  {
    assert |pl[users[p]]| > k;
    ListingUnfold(pl, users, k);
    RoundIndex(pl, users, k, p);
    IndexLeft(Round(pl, users, k), Listing(pl, users, k + 1), Ahead(pl, users[..p], k));
  }

  /** Moving the listing's start back one round shifts every position by that
      round's length. */
  lemma {:induction false} ListingIndexStep<T>(pl: map<Uid, seq<T>>, users: seq<Uid>, i: nat, k: nat, p: nat)
    requires Covers(pl, users) && p < |users| && |pl[users[p]]| > k && i < k
    requires SumMin(pl, users, i + 1) <= SumMin(pl, users, k)
    requires var g := SumMin(pl, users, k) - SumMin(pl, users, i + 1) + Ahead(pl, users[..p], k);
      g < |Listing(pl, users, i + 1)| && Listing(pl, users, i + 1)[g] == pl[users[p]][k]
    ensures SumMin(pl, users, i) <= SumMin(pl, users, k)
    ensures var g := SumMin(pl, users, k) - SumMin(pl, users, i) + Ahead(pl, users[..p], k);
      g < |Listing(pl, users, i)| && Listing(pl, users, i)[g] == pl[users[p]][k]
  {
    var r := Round(pl, users, i);
    var rest := Listing(pl, users, i + 1);
    var a := Ahead(pl, users[..p], k);
    assert |pl[users[p]]| > i;
    ListingUnfold(pl, users, i);
    SumMinStep(pl, users, i);
    RoundLength(pl, users, i);
    var j := SumMin(pl, users, k) - SumMin(pl, users, i + 1) + a;
    var g := SumMin(pl, users, k) - SumMin(pl, users, i) + a;
    assert g == |r| + j;
    IndexRight(r, rest, j, g);
  }

  /** A round that is not empty is followed by the rest of the listing. */
  lemma {:induction false} ListingUnfold<T>(pl: map<Uid, seq<T>>, users: seq<Uid>, i: nat)
    requires Covers(pl, users) && exists j | 0 <= j < |users| :: |pl[users[j]]| > i
    ensures Round(pl, users, i) != []
    ensures Listing(pl, users, i) == Round(pl, users, i) + Listing(pl, users, i + 1)
  {
  }

  lemma {:induction false} IndexLeft<T>(a: seq<T>, b: seq<T>, j: nat)
    requires j < |a|
    ensures j < |a + b| && (a + b)[j] == a[j]
  {
  }

  lemma {:induction false} IndexRight<T>(a: seq<T>, b: seq<T>, j: nat, g: int)
    requires j < |b| && g == |a| + j
    ensures 0 <= g < |a + b| && (a + b)[g] == b[j]
  {
  }

  lemma {:induction false} SumMinZero<T>(pl: map<Uid, seq<T>>, users: seq<Uid>)
    requires Covers(pl, users)
    ensures SumMin(pl, users, 0) == 0
    decreases |users|
  {
    if users != [] {
      SumMinZero(pl, users[1..]);
    }
  }

  /** The global position of track `k` (0-based) of the user at queue position `p`:
      the tracks of all earlier rounds, then the users ahead of it in round `k`. */
  lemma {:induction false} ListingIndex<T>(pl: map<Uid, seq<T>>, users: seq<Uid>, k: nat, p: nat)
    requires Covers(pl, users) && p < |users| && |pl[users[p]]| > k
    ensures var g := SumMin(pl, users, k) + Ahead(pl, users[..p], k);
      g < |Listing(pl, users, 0)| && Listing(pl, users, 0)[g] == pl[users[p]][k]
  {
    SumMinZero(pl, users);
    ListingIndexFrom(pl, users, 0, k, p);
  }

  /** Every track of every listed user appears: the listing is as long as all the
      playlists together. */
  lemma {:induction false} ListingLengthFrom<T>(pl: map<Uid, seq<T>>, users: seq<Uid>, i: nat)
    requires Covers(pl, users)
    ensures SumMin(pl, users, i) + |Listing(pl, users, i)| == Total(pl, users)
    decreases Longest(pl, users) - i
  {
    var r := Round(pl, users, i);
    RoundLength(pl, users, i);
    if r == [] {
      assert forall j | 0 <= j < |users| :: |pl[users[j]]| <= i;
      SumMinSaturates(pl, users, i);
    } else {
      SumMinStep(pl, users, i);
      ListingLengthFrom(pl, users, i + 1);
    }
  }

  lemma {:induction false} ListingLength<T>(pl: map<Uid, seq<T>>, users: seq<Uid>)
    requires Covers(pl, users)
    ensures |Listing(pl, users, 0)| == Total(pl, users)
  {
    SumMinZero(pl, users);
    ListingLengthFrom(pl, users, 0);
  }
}
