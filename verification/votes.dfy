/** Votes on queued tracks (`vote_up`, `vote_down` and `get_all_tracks` of
    core/QueueManager.py): a vote replaces one track of one playlist with a copy whose
    `haters` list differs, and leaves the queue, the backlog and every other track
    alone. */
module TrackVotes {
  import opened Wrappers
  import opened Songs
  import opened SeqUtil
  import opened RoundRobin
  import opened PlayQueue

  /** `get_all_tracks()`: every playlist in dict order. */
  function AllTracks(owners: seq<Uid>, pl: map<Uid, seq<Song>>): (r: seq<Song>)
    requires Covers(pl, owners)
    ensures forall t :: t in r <==> exists i | 0 <= i < |owners| :: t in pl[owners[i]]
  {
    if owners == [] then [] else pl[owners[0]] + AllTracks(owners[1..], pl)
  }

  /** Applies `f` to the track at `where`, if any. */
  function UpdateAt(q: Queue, where: Option<(Uid, nat)>, f: Song -> Song): (r: Queue)
    requires where.Some? ==> where.value.0 in q.playlists && where.value.1 < |q.playlists[where.value.0]|
    ensures where.None? ==> r == q
    ensures where.Some? ==> var (u, k) := where.value;
      r == q.(playlists := q.playlists[u := q.playlists[u][k := f(q.playlists[u][k])]])
  {
    match where
    case None => q
    case Some((u, k)) => q.(playlists := q.playlists[u := q.playlists[u][k := f(q.playlists[u][k])]])
  }

  /** Which track `next(t for t in get_all_tracks() if t.id == track_id)` finds. */
  function FindAnywhere(q: Queue, tid: int): (r: Option<(Uid, nat)>)
    requires Valid(q)
    ensures r.Some? ==>
      r.value.0 in q.playlists && r.value.1 < |q.playlists[r.value.0]| && q.playlists[r.value.0][r.value.1].id == tid
    ensures r.Some? ==>
      exists i :: FirstHolder(q.playlists, q.owners, tid, i)
        && q.owners[i] == r.value.0 && FindIn(q.playlists[q.owners[i]], tid) == Some(r.value.1)
    ensures r.None? ==> forall u, k | u in q.playlists && 0 <= k < |q.playlists[u]| :: q.playlists[u][k].id != tid
  {
    ValidCovers(q);
    var r := Locate(q.playlists, q.owners, tid);
    assert r.None? ==> forall u, k | u in q.playlists && 0 <= k < |q.playlists[u]| :: q.playlists[u][k].id != tid by {
      if r.None? {
        forall u, k | u in q.playlists && 0 <= k < |q.playlists[u]| ensures q.playlists[u][k].id != tid {
          assert u in q.owners;
          var j :| 0 <= j < |q.owners| && q.owners[j] == u;
        }
      }
    }
    r
  }

  /** `vote_down(user_id, track_id)`: the voter joins the track's haters at most once;
      an unknown track changes nothing. */
  function VoteDown(q: Queue, user: int, tid: int): (r: Queue)
    requires Valid(q)
    ensures FindAnywhere(q, tid).None? ==> r == q
    ensures FindAnywhere(q, tid).Some? ==> var (u, k) := FindAnywhere(q, tid).value;
      r == q.(playlists := q.playlists[u := q.playlists[u][k := AddHater(q.playlists[u][k], user)]])
      && user in r.playlists[u][k].haters
  {
    UpdateAt(q, FindAnywhere(q, tid), (s: Song) => AddHater(s, user))
  }

  /** `vote_up(user_id, track_id)`: the voter's first entry leaves the track's
      haters, if there is one; an unknown track changes nothing. */
  function VoteUp(q: Queue, user: int, tid: int): (r: Queue)
    requires Valid(q)
    ensures FindAnywhere(q, tid).None? ==> r == q
    ensures FindAnywhere(q, tid).Some? ==> var (u, k) := FindAnywhere(q, tid).value;
      var s := q.playlists[u][k];
      r == q.(playlists := q.playlists[u := q.playlists[u][k := RemoveHaterCorrected(s, user)]])
      && (Distinct(s.haters) ==> user !in r.playlists[u][k].haters)
  {
    UpdateAt(q, FindAnywhere(q, tid), (s: Song) => RemoveHaterCorrected(s, user))
  }

  /** Voting down and then up leaves a track that the voter did not hate as it was. */
  lemma {:induction false} VoteDownThenUpRestores(q: Queue, user: int, tid: int)
    requires Valid(q)
    requires FindAnywhere(q, tid).Some? ==> var (u, k) := FindAnywhere(q, tid).value;
      user !in q.playlists[u][k].haters
    ensures Valid(VoteDown(q, user, tid)) && VoteUp(VoteDown(q, user, tid), user, tid) == q
  {
    VotesKeepValid(q, user, tid);
    match FindAnywhere(q, tid)
    case None =>
    case Some((u, k)) =>
      var s := q.playlists[u][k];
      var s1 := AddHater(s, user);
      var q1 := SetTrack(q, u, k, s1);
      assert VoteDown(q, user, tid) == q1;
      HatersKeepFind(q, u, k, s1, tid);
      RemoveHaterUndoesAdd(s, user);
      SetTrackTwice(q, u, k, s1);
  }

  /** The manager with the `k`-th track of `u`'s playlist replaced by `s`. */
  function SetTrack(q: Queue, u: Uid, k: nat, s: Song): Queue
    requires u in q.playlists && k < |q.playlists[u]|
  {
    q.(playlists := q.playlists[u := q.playlists[u][k := s]])
  }

  lemma {:induction false} SetTrackTwice(q: Queue, u: Uid, k: nat, s: Song)
    requires u in q.playlists && k < |q.playlists[u]|
    ensures SetTrack(SetTrack(q, u, k, s), u, k, q.playlists[u][k]) == q
  {
    assert q.playlists[u][k := s][k := q.playlists[u][k]] == q.playlists[u];
    assert q.playlists[u := q.playlists[u]] == q.playlists;
  }

  /** Replacing a track by one with the same id leaves `FindAnywhere` where it was. */
  lemma {:induction false} HatersKeepFind(q: Queue, u: Uid, k: nat, s: Song, tid: int)
    requires Valid(q) && u in q.playlists && k < |q.playlists[u]| && s.id == q.playlists[u][k].id
    requires Valid(SetTrack(q, u, k, s))
    ensures FindAnywhere(SetTrack(q, u, k, s), tid) == FindAnywhere(q, tid)
  {
    var q1 := SetTrack(q, u, k, s);
    ValidCovers(q);
    ValidCovers(q1);
    forall j | 0 <= j < |q.owners|
      ensures |q.playlists[q.owners[j]]| == |q1.playlists[q.owners[j]]|
      ensures forall i | 0 <= i < |q.playlists[q.owners[j]]| :: q.playlists[q.owners[j]][i].id == q1.playlists[q.owners[j]][i].id
    {
    }
    LocateIgnoresHaters(q.playlists, q1.playlists, q.owners, tid);
  }

  /** Votes touch only haters, so both keep the manager valid. */
  lemma {:induction false} VotesKeepValid(q: Queue, user: int, tid: int)
    requires Valid(q)
    ensures Valid(VoteDown(q, user, tid)) && Valid(VoteUp(q, user, tid))
  {
    match FindAnywhere(q, tid)
    case None =>
    case Some((u, k)) =>
      var s := q.playlists[u][k];
      ReplaceKeepsOwner(u, q.playlists[u], k, AddHater(s, user));
      ReplaceKeepsOwner(u, q.playlists[u], k, RemoveHaterCorrected(s, user));
  }

  lemma {:induction false} ReplaceKeepsOwner(u: Uid, tracks: seq<Song>, k: nat, t: Song)
    requires OwnedBy(u, tracks) && k < |tracks| && t.userId == u
    ensures OwnedBy(u, tracks[k := t])
  {
    forall x | x in tracks[k := t] ensures x.userId == u {
      var j :| 0 <= j < |tracks| && tracks[k := t][j] == x;
      if j != k { assert x == tracks[j]; }
    }
  }

  /** The search by id only looks at ids, so changing haters does not move it. */
  lemma {:induction false} LocateIgnoresHaters(pl1: map<Uid, seq<Song>>, pl2: map<Uid, seq<Song>>, users: seq<Uid>, tid: int)
    requires Covers(pl1, users) && Covers(pl2, users)
    requires forall j | 0 <= j < |users| ::
      |pl1[users[j]]| == |pl2[users[j]]| && (forall k | 0 <= k < |pl1[users[j]]| :: pl1[users[j]][k].id == pl2[users[j]][k].id)
    ensures Locate(pl1, users, tid) == Locate(pl2, users, tid)
    decreases |users|
  {
    if users != [] {
      FindInIgnoresHaters(pl1[users[0]], pl2[users[0]], tid);
      LocateIgnoresHaters(pl1, pl2, users[1..], tid);
    }
  }

  lemma {:induction false} FindInIgnoresHaters(a: seq<Song>, b: seq<Song>, tid: int)
    requires |a| == |b| && forall k | 0 <= k < |a| :: a[k].id == b[k].id
    ensures FindIn(a, tid) == FindIn(b, tid)
    decreases |a|
  {
    if a != [] {
      FindInIgnoresHaters(a[1..], b[1..], tid);
    }
  }

  /** Every playlist owner has a playlist. */
  lemma {:induction false} ValidCovers(q: Queue)
    requires Valid(q)
    ensures Covers(q.playlists, q.owners)
  {
    forall i | 0 <= i < |q.owners| ensures q.owners[i] in q.playlists {
      var u := q.owners[i];
      assert u in q.owners;
      assert forall v :: v in q.owners <==> v in q.playlists;
      assert u in q.playlists;
    }
  }
}
