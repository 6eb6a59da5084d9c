/** `QueueManager` (core/QueueManager.py): per-user playlists, the round-robin queue of
    users, and the fallback backlog that plays when no user has a track queued.
    The lock only serialises calls, so every method is a function from one state to the
    next. Tracks are compared by value where the source compares `Song` objects by
    identity. */
module PlayQueue {
  import opened Wrappers
  import opened Songs
  import opened SeqUtil
  import opened RoundRobin

  /** The playlist for tracks managed by admins. */
  const AdminUid: Uid := -1

  datatype QueueError = KeyError | ValueError | AttributeError

  /** The manager's state. `owners` is the insertion order of the `playlists` dict;
      `played` is `backlog_played`; `counter` is the class counter `Song.counter`. */
  datatype Queue = Queue(
    owners: seq<Uid>,
    playlists: map<Uid, seq<Song>>,
    queue: seq<Uid>,
    backlog: seq<Song>,
    played: seq<Song>,
    counter: int)

  /** The constructor with an already populated backlog (file and directory loading
      are not part of this model). */
  function Init(backlog: seq<Song>, counter: int): (q: Queue)
    ensures Valid(q) && q.queue == [] && q.playlists == map[AdminUid := []]
  {
    Queue([AdminUid], map[AdminUid := []], [], backlog, [], counter)
  }

  /** What every method keeps: the admin playlist exists, `owners` lists the playlists
      once each, the queue holds distinct users that all have a non-empty playlist,
      and every track sits in its owner's playlist. */
  ghost predicate Valid(q: Queue) {
    AdminUid in q.playlists
    && Distinct(q.owners) && (forall u :: u in q.owners <==> u in q.playlists)
    && QueueOk(q.queue, q.playlists)
    && (forall u | u in q.playlists :: OwnedBy(u, q.playlists[u]))
  }

  /** The queue lists distinct users, each with a non-empty playlist. */
  ghost predicate QueueOk(queue: seq<Uid>, pl: map<Uid, seq<Song>>) {
    Distinct(queue) && forall i | 0 <= i < |queue| :: queue[i] in pl && |pl[queue[i]]| > 0
  }

  /** Every track of a playlist belongs to that playlist's user. */
  ghost predicate OwnedBy(u: Uid, tracks: seq<Song>) {
    forall t | t in tracks :: t.userId == u
  }

  /** `[uid for uid in self.queue if uid in self.playlists]`. */
  function Listed(q: Queue): (users: seq<Uid>)
    ensures Covers(q.playlists, users)
    ensures forall u :: u in users <==> u in q.queue && u in q.playlists
    ensures Valid(q) ==> users == q.queue
  {
    Known(q.queue, q.playlists)
  }

  function Known(queue: seq<Uid>, pl: map<Uid, seq<Song>>): (users: seq<Uid>)
    ensures Covers(pl, users)
    ensures forall u :: u in users <==> u in queue && u in pl
    ensures (forall i | 0 <= i < |queue| :: queue[i] in pl) ==> users == queue
  {
    if queue == [] then []
    else
      var rest := Known(queue[1..], pl);
      assert forall u :: u in queue <==> u == queue[0] || u in queue[1..];
      assert forall i | 1 <= i < |queue| :: queue[i] == queue[1..][i - 1];
      if queue[0] in pl then [queue[0]] + rest else rest
  }

  /** The whole round-robin listing, before `offset` and `limit` are applied. */
  function QueueTracks(q: Queue): seq<Song> {
    Listing(q.playlists, Listed(q), 0)
  }

  /** `pos` is the 1-based place of `t` in `xs`. */
  predicate PlacedAt(xs: seq<Song>, pos: Option<nat>, t: Song) {
    pos.Some? && 1 <= pos.value <= |xs| && xs[pos.value - 1] == t
  }

  /** `get_queue_tracks(offset, limit)`. */
  function GetQueueTracks(q: Queue, offset: nat, limit: nat): (r: seq<Song>)
    ensures limit > 0 ==> |r| <= limit
    ensures r != [] ==> offset + |r| <= |QueueTracks(q)|
    ensures forall i | 0 <= i < |r| :: r[i] == QueueTracks(q)[offset + i]
    ensures limit == 0 ==> |r| == if offset <= |QueueTracks(q)| then |QueueTracks(q)| - offset else 0
    ensures var left := if offset <= |QueueTracks(q)| then |QueueTracks(q)| - offset else 0;
      limit > 0 ==> |r| == if limit < left then limit else left
  {
    Window(QueueTracks(q), offset, limit)
  }

  /** Paging: a page of `limit` tracks followed by everything after it is the whole
      listing from `offset` on. */
  lemma {:induction false} GetQueueTracksPages(q: Queue, offset: nat, limit: nat)
    requires limit > 0
    ensures GetQueueTracks(q, offset, limit) + GetQueueTracks(q, offset + limit, 0) == GetQueueTracks(q, offset, 0)
  {
  }

  /** `add_track`: a fresh song, appended to its owner's playlist (created if absent). */
  function AddTrack(q: Queue, path: string, title: Option<string>, artist: Option<string>,
                    duration: int, userId: Uid): (r: (Queue, Song))
    ensures r.1.id == q.counter + 1 == r.0.counter && r.1.userId == userId && r.1.media == path
    ensures r.0.playlists.Keys == q.playlists.Keys + {userId}
    ensures r.0.playlists[userId] == (if userId in q.playlists then q.playlists[userId] else []) + [r.1]
    ensures forall u | u in q.playlists && u != userId :: r.0.playlists[u] == q.playlists[u]
    ensures r.0.queue == q.queue && r.0.backlog == q.backlog && r.0.played == q.played
    ensures Valid(q) ==> Valid(r.0)
  {
    var (track, counter) := NewSong(q.counter, path, title, artist, duration, userId, None);
    var before := if userId in q.playlists then q.playlists[userId] else [];
    var owners := if userId in q.playlists then q.owners else q.owners + [userId];
    var r := q.(owners := owners, playlists := q.playlists[userId := before + [track]], counter := counter);
    assert Valid(q) ==> Valid(r) by {
      if Valid(q) {
        if userId !in q.playlists { AppendDistinct(q.owners, userId); }
        assert OwnedBy(userId, before + [track]);
      }
    }
    (r, track)
  }

  /** The first track with id `tid` in a list of tracks. */
  function FindIn(tracks: seq<Song>, tid: int): (r: Option<nat>)
    ensures r.Some? ==> r.value < |tracks| && tracks[r.value].id == tid
    ensures r.Some? ==> forall k | 0 <= k < r.value :: tracks[k].id != tid
    ensures r.None? ==> forall k | 0 <= k < |tracks| :: tracks[k].id != tid
  {
    if tracks == [] then None
    else if tracks[0].id == tid then Some(0)
    else match FindIn(tracks[1..], tid)
      case None => None
      case Some(k) => Some(k + 1)
  }

  /** `users[i]` is the first of `users` whose playlist holds a track with id `tid`. */
  predicate FirstHolder(pl: map<Uid, seq<Song>>, users: seq<Uid>, tid: int, i: int) {
    Covers(pl, users) && 0 <= i < |users| && FindIn(pl[users[i]], tid).Some?
    && forall j | 0 <= j < i :: FindIn(pl[users[j]], tid).None?
  }

  /** The first of `users` whose playlist holds a track with id `tid`, and where. */
  function Locate(pl: map<Uid, seq<Song>>, users: seq<Uid>, tid: int): (r: Option<(Uid, nat)>)
    requires Covers(pl, users)
    ensures r.Some? ==> r.value.0 in users && r.value.1 < |pl[r.value.0]| && pl[r.value.0][r.value.1].id == tid
    ensures r.Some? ==>
      exists i :: FirstHolder(pl, users, tid, i) && users[i] == r.value.0
        && FindIn(pl[users[i]], tid) == Some(r.value.1)
    ensures r.None? ==> forall j, k | 0 <= j < |users| && 0 <= k < |pl[users[j]]| :: pl[users[j]][k].id != tid
  {
    if users == [] then None
    else match FindIn(pl[users[0]], tid)
      case Some(k) =>
        assert FirstHolder(pl, users, tid, 0);
        Some((users[0], k))
      case None =>
        var r := Locate(pl, users[1..], tid);
        assert forall j | 1 <= j < |users| :: users[j] == users[1..][j - 1];
        if r.Some? then
          var i :| FirstHolder(pl, users[1..], tid, i) && users[1..][i] == r.value.0
            && FindIn(pl[users[1..][i]], tid) == Some(r.value.1);
          assert FirstHolder(pl, users, tid, i + 1);
          r
        else r
  }

  /** `get_track(tid)`: searches the playlists of queued users only. */
  function GetTrack(q: Queue, tid: int): (r: Option<Song>)
    ensures r.Some? ==> r.value.id == tid && exists u | u in q.queue && u in q.playlists :: r.value in q.playlists[u]
    ensures r.Some? ==>
      exists i :: FirstHolder(q.playlists, Listed(q), tid, i)
        && r.value == q.playlists[Listed(q)[i]][FindIn(q.playlists[Listed(q)[i]], tid).value]
    ensures r.None? ==> forall t | t in QueueTracksOf(q) :: t.id != tid
  {
    match Locate(q.playlists, Listed(q), tid)
    case None => None
    case Some((u, k)) => Some(q.playlists[u][k])
  }

  /** The tracks of queued users, user by user. */
  ghost function QueueTracksOf(q: Queue): (r: set<Song>) {
    set u, k | u in Listed(q) && 0 <= k < |q.playlists[u]| :: q.playlists[u][k]
  }

  /** The position part of `get_track_position` for a track known to be in the
      playlist of a queued user: `loc` is its 1-based place in the playlist, `glob`
      the number of tracks in earlier rounds plus the users up to and including the
      owner that reach this round. */
  function Position(q: Queue, owner: Uid, track: Song): (r: (nat, nat))
    requires QueueOk(q.queue, q.playlists) && owner in q.queue && track in q.playlists[owner]
    ensures PlacedAt(q.playlists[owner], Some(r.0), track)
    ensures PlacedAt(QueueTracks(q), Some(r.1), track)
  {
    var k := IndexOf(q.playlists[owner], track);
    var p := IndexOf(q.queue, owner);
    var glob := SumMin(q.playlists, q.queue, k) + Ahead(q.playlists, q.queue[..p + 1], k);
    PlacedAtIndex(q.playlists[owner], k, track);
    InListing(q, k, p, glob);
    (k + 1, glob)
  }

  /** The `k`-th track of the `p`-th queued user comes after `glob - 1` others. */
  lemma {:induction false} InListing(q: Queue, k: nat, p: nat, glob: nat)
    requires QueueOk(q.queue, q.playlists) && p < |q.queue| && k < |q.playlists[q.queue[p]]|
    requires glob == SumMin(q.playlists, q.queue, k) + Ahead(q.playlists, q.queue[..p + 1], k)
    ensures PlacedAt(QueueTracks(q), Some(glob), q.playlists[q.queue[p]][k])
  {
    var pl, users := q.playlists, q.queue;
    AheadPrefix(pl, users, p, k);
    var g := SumMin(pl, users, k) + Ahead(pl, users[..p], k);
    assert glob == g + 1;
    ListingIndex(pl, users, k, p);
    ListedIsQueue(q);
    PlacedAtIndex(QueueTracks(q), g, pl[users[p]][k]);
  }

  lemma {:induction false} PlacedAtIndex(xs: seq<Song>, g: nat, t: Song)
    requires g < |xs| && xs[g] == t
    ensures PlacedAt(xs, Some(g + 1), t)
  {
  }

  lemma {:induction false} ListedIsQueue(q: Queue)
    requires QueueOk(q.queue, q.playlists)
    ensures QueueTracks(q) == Listing(q.playlists, q.queue, 0)
  {
    assert Listed(q) == q.queue;
  }

  /** `get_track_position(track)`: `(None, None)` for no track; `queue.index` raises
      `ValueError` when the owner is not queued, and so does `list.index` when the
      track is not in the owner's playlist. */
  function GetTrackPosition(q: Queue, track: Option<Song>): (r: Result<(Option<nat>, Option<nat>), QueueError>)
    requires Valid(q)
    ensures track.None? ==> r == Ok((None, None))
    ensures track.Some? && track.value.userId !in q.queue ==> r == Err(QueueError.ValueError)
    ensures track.Some? && track.value.userId in q.queue ==>
      (r.Ok? <==> track.value in q.playlists[track.value.userId])
    ensures r.Ok? && track.Some? ==>
      PlacedAt(q.playlists[track.value.userId], r.value.0, track.value)
      && PlacedAt(QueueTracks(q), r.value.1, track.value)
  {
    match track
    case None => Ok((None, None))
    case Some(t) =>
      if t.userId !in q.queue then Err(QueueError.ValueError)
      else if t !in q.playlists[t.userId] then Err(QueueError.ValueError)
      else
        var (loc, glob) := Position(q, t.userId, t);
        Ok((Some(loc), Some(glob)))
  }

  /** A track found by `get_track` belongs to a queued owner. */
  lemma {:induction false} GetTrackOwner(q: Queue, tid: int)
    requires Valid(q) && GetTrack(q, tid).Some?
    ensures var t := GetTrack(q, tid).value;
      t.userId in q.queue && t in q.playlists[t.userId]
  {
    var t := GetTrack(q, tid).value;
    var u :| u in q.queue && u in q.playlists && t in q.playlists[u];
    var k :| 0 <= k < |q.playlists[u]| && q.playlists[u][k] == t;
  }

  /** `remove_track(tid)`: the track leaves its owner's playlist, the owner leaves the
      queue if that empties it, and the track's global position from before the
      removal is returned; an unknown id changes nothing and gives `None`. */
  function RemoveTrack(q: Queue, tid: int): (r: (Queue, Option<nat>))
    requires Valid(q)
    ensures GetTrack(q, tid).None? ==> r == (q, None)
    ensures GetTrack(q, tid).Some? ==> var t := GetTrack(q, tid).value;
      PlacedAt(QueueTracks(q), r.1, t)
      && r.0.playlists == q.playlists[t.userId := RemoveFirst(q.playlists[t.userId], t)]
      && (r.0.playlists[t.userId] == [] ==> r.0.queue == RemoveFirst(q.queue, t.userId))
      && (r.0.playlists[t.userId] != [] ==> r.0.queue == q.queue)
    ensures r.0 == q.(playlists := r.0.playlists, queue := r.0.queue)
  {
    match GetTrack(q, tid)
    case None => (q, None)
    case Some(t) =>
      GetTrackOwner(q, tid);
      var (_, glob) := Position(q, t.userId, t);
      var u := t.userId;
      var rest := RemoveFirst(q.playlists[u], t);
      var queue := if rest == [] then RemoveFirst(q.queue, u) else q.queue;
      (q.(playlists := q.playlists[u := rest], queue := queue), Some(glob))
  }

  /** Removing a track keeps the manager valid. */
  lemma {:induction false} RemoveTrackValid(q: Queue, tid: int)
    requires Valid(q)
    ensures Valid(RemoveTrack(q, tid).0)
  {
    if GetTrack(q, tid).Some? {
      var t := GetTrack(q, tid).value;
      GetTrackOwner(q, tid);
      var u := t.userId;
      var rest := RemoveFirst(q.playlists[u], t);
      var queue := if rest == [] then RemoveFirst(q.queue, u) else q.queue;
      RemoveKeepsOwner(u, q.playlists[u], t);
      RemovedQueueOk(q.queue, q.playlists, u, rest);
      ReplaceValid(q, u, rest, queue);
    }
  }

  /** The queue after `remove_track`: the owner stays only while they have tracks. */
  lemma {:induction false} RemovedQueueOk(queue: seq<Uid>, pl: map<Uid, seq<Song>>, u: Uid, rest: seq<Song>)
    requires QueueOk(queue, pl)
    ensures QueueOk(if rest == [] then RemoveFirst(queue, u) else queue, pl[u := rest])
  {
    var after := if rest == [] then RemoveFirst(queue, u) else queue;
    var pl1 := pl[u := rest];
    RemoveFirstDistinct(queue, u);
    forall j | 0 <= j < |after| ensures after[j] in pl1 && |pl1[after[j]]| > 0 {
      assert after[j] in queue;
    }
  }

  /** Replacing one user's playlist, and the queue, keeps the manager valid when the
      new playlist belongs to that user and the new queue is well formed. */
  lemma {:induction false} ReplaceValid(q: Queue, u: Uid, xs: seq<Song>, queue: seq<Uid>)
    requires Valid(q) && u in q.playlists && OwnedBy(u, xs) && QueueOk(queue, q.playlists[u := xs])
    ensures Valid(q.(playlists := q.playlists[u := xs], queue := queue))
  {
    var pl := q.playlists[u := xs];
    assert pl.Keys == q.playlists.Keys;
    forall v | v in pl ensures OwnedBy(v, pl[v]) {
      if v != u { assert pl[v] == q.playlists[v]; }
    }
  }

  lemma {:induction false} RemoveKeepsOwner(u: Uid, tracks: seq<Song>, t: Song)
    requires OwnedBy(u, tracks)
    ensures OwnedBy(u, RemoveFirst(tracks, t))
  {
    forall x | x in RemoveFirst(tracks, t) ensures x.userId == u {
      assert x in multiset(RemoveFirst(tracks, t));
    }
  }

  /** `[x] + xs` with the first `x` taken out of `xs`: a move to the front. */
  function MoveToFront(xs: seq<Song>, x: Song): (r: seq<Song>)
    requires x in xs
    ensures |r| == |xs| && r[0] == x && multiset(r) == multiset(xs)
  {
    [x] + RemoveFirst(xs, x)
  }

  /** `raise_track(tid)`: the track moves to the front of its owner's playlist. The
      owner is read before the `None` test, so an unknown id raises `AttributeError`. */
  function RaiseTrack(q: Queue, tid: int): (r: Result<Queue, QueueError>)
    requires Valid(q)
    ensures r.Err? <==> GetTrack(q, tid).None?
    ensures r.Err? ==> r.error == AttributeError
    ensures r.Ok? ==> var t := GetTrack(q, tid).value;
      t.userId in q.playlists && t in q.playlists[t.userId]
      && r.value == q.(playlists := q.playlists[t.userId := MoveToFront(q.playlists[t.userId], t)])
  {
    match GetTrack(q, tid)
    case None => Err(AttributeError)
    case Some(t) =>
      GetTrackOwner(q, tid);
      var u := t.userId;
      Ok(q.(playlists := q.playlists[u := MoveToFront(q.playlists[u], t)]))
  }

  /** Raising a track keeps the manager valid and the round-robin listing the same
      length. */
  lemma {:induction false} RaiseTrackValid(q: Queue, tid: int)
    requires Valid(q) && RaiseTrack(q, tid).Ok?
    ensures Valid(RaiseTrack(q, tid).value)
  {
    var t := GetTrack(q, tid).value;
    var u := t.userId;
    var moved := MoveToFront(q.playlists[u], t);
    MoveKeepsOwner(u, q.playlists[u], t);
    var pl := q.playlists[u := moved];
    forall j | 0 <= j < |q.queue| ensures q.queue[j] in pl && |pl[q.queue[j]]| > 0 {
    }
    ReplaceValid(q, u, moved, q.queue);
    assert RaiseTrack(q, tid).value == q.(playlists := pl, queue := q.queue);
  }

  lemma {:induction false} MoveKeepsOwner(u: Uid, tracks: seq<Song>, t: Song)
    requires OwnedBy(u, tracks) && t in tracks
    ensures OwnedBy(u, MoveToFront(tracks, t))
  {
    var moved := MoveToFront(tracks, t);
    forall x | x in moved ensures x.userId == u {
      assert x in multiset(moved);
      assert x in multiset(tracks);
    }
  }

  /** `play_next(track)`: the track goes to the front of its owner's playlist and the
      owner to the front of the queue; a missing playlist raises `KeyError`. */
  function PlayNext(q: Queue, track: Song): (r: Result<(Queue, nat), QueueError>)
    ensures r.Err? <==> track.userId !in q.playlists
    ensures r.Ok? ==> var u := track.userId;
      r.value.0.playlists == q.playlists[u := [track] + q.playlists[u]]
      && r.value.0.queue == [u] + RemoveFirst(q.queue, u)
      && r.value.1 == |q.playlists[u]| + 1
      && r.value.0 == q.(playlists := r.value.0.playlists, queue := r.value.0.queue)
  {
    var u := track.userId;
    if u !in q.playlists then Err(KeyError)
    else
      var pl := [track] + q.playlists[u];
      Ok((q.(playlists := q.playlists[u := pl], queue := [u] + RemoveFirst(q.queue, u)), |pl|))
  }

  /** After `play_next`, the track heads the round-robin listing. */
  lemma {:induction false} PlayNextHeadsListing(q: Queue, track: Song)
    requires Valid(q) && track.userId in q.playlists
    ensures var r := PlayNext(q, track).value.0;
      Valid(r) && QueueTracks(r) != [] && QueueTracks(r)[0] == track
  {
    var u := track.userId;
    var r := PlayNext(q, track).value.0;
    RemoveFirstDistinct(q.queue, u);
    PrependDistinct(RemoveFirst(q.queue, u), u);
    forall j | 0 <= j < |r.queue| ensures r.queue[j] in r.playlists && |r.playlists[r.queue[j]]| > 0 {
      if j > 0 { assert r.queue[j] in RemoveFirst(q.queue, u); }
    }
    assert OwnedBy(u, [track] + q.playlists[u]);
    assert Valid(r);
    ListingIndex(r.playlists, r.queue, 0, 0);
    SumMinZero(r.playlists, r.queue);
  }

  /** The position of the first queued user with a non-empty playlist. */
  function FirstNonEmpty(queue: seq<Uid>, pl: map<Uid, seq<Song>>): (r: Option<nat>)
    requires Covers(pl, queue)
    ensures r.Some? ==>
      r.value < |queue| && |pl[queue[r.value]]| > 0 && forall j | 0 <= j < r.value :: pl[queue[j]] == []
    ensures r.None? ==> forall j | 0 <= j < |queue| :: pl[queue[j]] == []
  {
    if queue == [] then None
    else if |pl[queue[0]]| > 0 then Some(0)
    else
      assert forall j | 1 <= j < |queue| :: queue[j] == queue[1..][j - 1];
      match FirstNonEmpty(queue[1..], pl)
      case None => None
      case Some(j) => Some(j + 1)
  }

  /** After a backlog song plays: once the backlog is no longer longer than
      `backlog_played`, the played song at `pick` (the `random.randrange` draw) goes
      back to the end of the backlog. */
  function Recycle(backlog: seq<Song>, played: seq<Song>, pick: nat): (r: (seq<Song>, seq<Song>))
    requires played != []
    ensures multiset(r.0) + multiset(r.1) == multiset(backlog) + multiset(played)
    ensures |backlog| <= |played| ==>
      r.0 == backlog + [played[pick % |played|]] && |r.1| == |played| - 1
    ensures |backlog| > |played| ==> r == (backlog, played)
  {
    if |backlog| <= |played| then
      var i := pick % |played|;
      assert played == played[..i] + [played[i]] + played[i + 1..];
      (backlog + [played[i]], played[..i] + played[i + 1..])
    else (backlog, played)
  }

  /** The `while track is None` loop over the backlog: songs whose media file is
      missing are dropped, and the first playable one is appended to `played` and
      then recycled. Returns the song, the new backlog and played lists, and the
      dropped songs. */
  function FromBacklog(backlog: seq<Song>, played: seq<Song>, isFile: string -> bool, pick: nat):
    (r: (Option<Song>, seq<Song>, seq<Song>, seq<Song>))
    ensures forall k | 0 <= k < |r.3| :: !isFile(r.3[k].media)
    ensures r.0.None? <==> forall k | 0 <= k < |backlog| :: !isFile(backlog[k].media)
    ensures r.0.None? ==> r.1 == [] && r.2 == played && r.3 == backlog
    ensures r.0.Some? ==>
      isFile(r.0.value.media) && |r.3| < |backlog| && backlog[..|r.3|] == r.3 && backlog[|r.3|] == r.0.value
    decreases |backlog|
  {
    if backlog == [] then (None, [], played, [])
    else
      var track := backlog[0];
      var rest := backlog[1..];
      if !isFile(track.media) then
        var r := FromBacklog(rest, played, isFile, pick);
        DroppedStep(backlog, r.3, isFile);
        (r.0, r.1, r.2, [track] + r.3)
      else
        var r := Recycle(rest, played + [track], pick);
        (Some(track), r.0, r.1, [])
  }

  /** The drawn song joins `backlog_played`, and the backlog after it is recycled
      together with that list. */
  lemma {:induction false} FromBacklogRecycles(backlog: seq<Song>, played: seq<Song>, isFile: string -> bool, pick: nat)
    ensures var r := FromBacklog(backlog, played, isFile, pick);
      r.0.Some? ==> (r.1, r.2) == Recycle(backlog[|r.3| + 1..], played + [r.0.value], pick)
    decreases |backlog|
  {
    if backlog != [] && !isFile(backlog[0].media) {
      FromBacklogRecycles(backlog[1..], played, isFile, pick);
      FromBacklogSkips(backlog, played, isFile, pick);
      var r := FromBacklog(backlog[1..], played, isFile, pick);
      if r.0.Some? { assert backlog[1..][|r.3| + 1..] == backlog[|r.3| + 2..]; }
    }
  }

  /** The backlog loop loses no song: what it does not drop for missing media ends
      up in the backlog or in `backlog_played`. */
  lemma {:induction false} FromBacklogConserves(backlog: seq<Song>, played: seq<Song>, isFile: string -> bool, pick: nat)
    ensures var r := FromBacklog(backlog, played, isFile, pick);
      multiset(r.1) + multiset(r.2) + multiset(r.3) == multiset(backlog) + multiset(played)
    decreases |backlog|
  {
    if backlog != [] {
      var track := backlog[0];
      var rest := backlog[1..];
      assert backlog == [track] + rest;
      var whole := multiset(backlog) + multiset(played);
      assert whole == multiset{track} + multiset(rest) + multiset(played);
      if !isFile(track.media) {
        FromBacklogConserves(rest, played, isFile, pick);
        var r := FromBacklog(rest, played, isFile, pick);
        FromBacklogSkips(backlog, played, isFile, pick);
        assert multiset([track] + r.3) == multiset{track} + multiset(r.3);
        ShiftOne(multiset(r.1), multiset(r.2), multiset(r.3), multiset(rest), multiset(played), track);
      } else {
        var r := Recycle(rest, played + [track], pick);
        assert FromBacklog(backlog, played, isFile, pick) == (Some(track), r.0, r.1, []);
        assert multiset(played + [track]) == multiset(played) + multiset{track};
      }
    }
  }

  lemma {:induction false} ShiftOne<T>(a: multiset<T>, b: multiset<T>, c: multiset<T>, d: multiset<T>, e: multiset<T>, x: T)
    requires a + b + c == d + e
    ensures a + b + (multiset{x} + c) == multiset{x} + d + e
  {
    forall y ensures (a + b + (multiset{x} + c))[y] == (multiset{x} + d + e)[y] {
      assert (a + b + c)[y] == (d + e)[y];
    }
  }

  /** A song with missing media joins the dropped list and the loop goes on. */
  lemma {:induction false} FromBacklogSkips(backlog: seq<Song>, played: seq<Song>, isFile: string -> bool, pick: nat)
    requires backlog != [] && !isFile(backlog[0].media)
    ensures var r := FromBacklog(backlog[1..], played, isFile, pick);
      FromBacklog(backlog, played, isFile, pick) == (r.0, r.1, r.2, [backlog[0]] + r.3)
  {
  }

  /** The list step of `FromBacklog`'s prefix and membership facts. */
  lemma {:induction false} DroppedStep(backlog: seq<Song>, dropped: seq<Song>, isFile: string -> bool)
    requires backlog != [] && !isFile(backlog[0].media)
    ensures (forall k | 0 <= k < |backlog[1..]| :: !isFile(backlog[1..][k].media)) <==>
      (forall k | 0 <= k < |backlog| :: !isFile(backlog[k].media))
    ensures |dropped| < |backlog[1..]| && backlog[1..][..|dropped|] == dropped ==>
      backlog[..|dropped| + 1] == [backlog[0]] + dropped && backlog[|dropped| + 1] == backlog[1..][|dropped|]
    ensures (forall k | 0 <= k < |dropped| :: !isFile(dropped[k].media)) ==>
      forall k | 0 <= k < |[backlog[0]] + dropped| :: !isFile(([backlog[0]] + dropped)[k].media)
  {
    var rest := backlog[1..];
    if forall k | 0 <= k < |rest| :: !isFile(rest[k].media) {
      forall k | 0 <= k < |backlog| ensures !isFile(backlog[k].media) {
        if k > 0 { assert backlog[k] == rest[k - 1]; }
      }
    }
    if forall k | 0 <= k < |dropped| :: !isFile(dropped[k].media) {
      forall k | 0 <= k < |[backlog[0]] + dropped| ensures !isFile(([backlog[0]] + dropped)[k].media) {
        if k > 0 { assert ([backlog[0]] + dropped)[k] == dropped[k - 1]; }
      }
    }
  }

  /** The outcome of `pop_first_track`. `MissingQueueMedia` marks the case where the
      popped queue track has no media file: the source then continues iterating over
      the queue it has just mutated, which this model does not follow. */
  datatype Pop =
    | Popped(track: Song, next: Queue)
    | Nothing(next: Queue)
    | MissingQueueMedia(track: Song, next: Queue)

  /** `pop_first_track()`, up to the first queue track it takes. */
  function PopFirstTrack(q: Queue, isFile: string -> bool, pick: nat): (r: Pop)
    requires Valid(q)
    ensures q.queue != [] ==>
      var u := q.queue[0]; var t := q.playlists[u][0];
      !r.Nothing? && r.track == t
      && r.next.playlists == q.playlists[u := q.playlists[u][1..]]
      && r.next.queue == q.queue[1..] + (if |q.playlists[u]| > 1 then [u] else [])
      && r.next == q.(playlists := r.next.playlists, queue := r.next.queue)
      && (r.Popped? <==> isFile(t.media))
    ensures q.queue == [] ==>
      !r.MissingQueueMedia? && r.next == q.(backlog := r.next.backlog, played := r.next.played)
      && (r.Nothing? <==> forall k | 0 <= k < |q.backlog| :: !isFile(q.backlog[k].media))
      && (r.Popped? ==> isFile(r.track.media) && r.track in q.backlog)
    ensures q.queue == [] && r.Nothing? ==> r.next.backlog == [] && r.next.played == q.played
    ensures q.queue == [] && r.Popped? ==>
      exists k :: FirstPlayable(q.backlog, isFile, k) && r.track == q.backlog[k]
        && (r.next.backlog, r.next.played) == Recycle(q.backlog[k + 1..], q.played + [r.track], pick)
  {
    match FirstNonEmpty(q.queue, q.playlists)
    case Some(i) =>
      var u := q.queue[i];
      var t := q.playlists[u][0];
      var rest := q.playlists[u][1..];
      var queue := RemoveFirst(q.queue, u) + (if rest != [] then [u] else []);
      assert i == 0 && IndexOf(q.queue, u) == 0;
      var next := q.(playlists := q.playlists[u := rest], queue := queue);
      if isFile(t.media) then Popped(t, next) else MissingQueueMedia(t, next)
    case None => PopBacklog(q, isFile, pick)
  }

  /** Position `k` holds the first backlog song whose media file exists. */
  predicate FirstPlayable(backlog: seq<Song>, isFile: string -> bool, k: int) {
    0 <= k < |backlog| && isFile(backlog[k].media) && forall j | 0 <= j < k :: !isFile(backlog[j].media)
  }

  /** The backlog part of `pop_first_track()`, reached when no queued user has a track. */
  function PopBacklog(q: Queue, isFile: string -> bool, pick: nat): (r: Pop)
    ensures !r.MissingQueueMedia? && r.next == q.(backlog := r.next.backlog, played := r.next.played)
    ensures r.Nothing? <==> forall k | 0 <= k < |q.backlog| :: !isFile(q.backlog[k].media)
    ensures r.Nothing? ==> r.next.backlog == [] && r.next.played == q.played
    ensures r.Popped? ==>
      exists k :: FirstPlayable(q.backlog, isFile, k) && r.track == q.backlog[k]
        && (r.next.backlog, r.next.played) == Recycle(q.backlog[k + 1..], q.played + [r.track], pick)
  {
    var b := FromBacklog(q.backlog, q.played, isFile, pick);
    var next := q.(backlog := b.1, played := b.2);
    if b.0.None? then Nothing(next)
    else
      var k := |b.3|;
      DrawnFromBacklog(q.backlog, q.played, isFile, pick);
      assert FirstPlayable(q.backlog, isFile, k) && b.0.value == q.backlog[k]
        && (next.backlog, next.played) == Recycle(q.backlog[k + 1..], q.played + [b.0.value], pick);
      Popped(b.0.value, next)
  }

  /** A draw takes the first playable backlog song and recycles what follows it. */
  lemma {:induction false} DrawnFromBacklog(backlog: seq<Song>, played: seq<Song>, isFile: string -> bool, pick: nat)
    ensures var b := FromBacklog(backlog, played, isFile, pick);
      b.0.Some? ==>
        FirstPlayable(backlog, isFile, |b.3|) && b.0.value == backlog[|b.3|]
        && (b.1, b.2) == Recycle(backlog[|b.3| + 1..], played + [b.0.value], pick)
  {
    var b := FromBacklog(backlog, played, isFile, pick);
    FromBacklogRecycles(backlog, played, isFile, pick);
    if b.0.Some? { FirstPlayableAfterDrops(backlog, b.3, isFile); }
  }

  lemma {:induction false} FirstPlayableAfterDrops(backlog: seq<Song>, dropped: seq<Song>, isFile: string -> bool)
    requires |dropped| < |backlog| && backlog[..|dropped|] == dropped && isFile(backlog[|dropped|].media)
    requires forall k | 0 <= k < |dropped| :: !isFile(dropped[k].media)
    ensures FirstPlayable(backlog, isFile, |dropped|)
  {
    assert forall j | 0 <= j < |dropped| :: backlog[j] == dropped[j];
  }

  /** A queue pop rotates the user to the back, or drops them once their playlist is
      empty, and keeps the manager valid. */
  lemma {:induction false} PopFirstTrackValid(q: Queue, isFile: string -> bool, pick: nat)
    requires Valid(q)
    ensures Valid(PopFirstTrack(q, isFile, pick).next)
  {
    if q.queue != [] {
      var u := q.queue[0];
      RotateValid(q);
      assert PopFirstTrack(q, isFile, pick).next == Rotated(q);
    }
  }

  /** The manager after the first queued user's head track is taken: that user goes to
      the back of the queue, or leaves it once their playlist is empty. */
  function Rotated(q: Queue): Queue
    requires Valid(q) && q.queue != []
  {
    var u := q.queue[0];
    q.(playlists := q.playlists[u := q.playlists[u][1..]],
       queue := q.queue[1..] + (if |q.playlists[u]| > 1 then [u] else []))
  }

  lemma {:induction false} RotateValid(q: Queue)
    requires Valid(q) && q.queue != []
    ensures Valid(Rotated(q))
  {
    var u := q.queue[0];
    var r := Rotated(q);
    assert q.queue == [u] + q.queue[1..];
    assert u !in q.queue[1..];
    assert OwnedBy(u, q.playlists[u][1..]);
    forall j | 0 <= j < |r.queue| ensures r.queue[j] in r.playlists && |r.playlists[r.queue[j]]| > 0 {
      if j < |q.queue| - 1 { assert r.queue[j] == q.queue[j + 1]; }
    }
    if |q.playlists[u]| > 1 { AppendDistinct(q.queue[1..], u); }
  }

  /** The queue track `pop_first_track` takes is the head of the round-robin listing. */
  lemma {:induction false} PopTakesListingHead(q: Queue, isFile: string -> bool, pick: nat)
    requires Valid(q) && q.queue != []
    ensures QueueTracks(q) != [] && PopFirstTrack(q, isFile, pick).track == QueueTracks(q)[0]
  {
    SumMinZero(q.playlists, q.queue);
    ListingIndex(q.playlists, q.queue, 0, 0);
  }

  /** `get_first_track()`: the track `pop_first_track` would try first. */
  function GetFirstTrack(q: Queue): (r: Option<Song>)
    requires Valid(q)
    ensures q.queue != [] ==> r == Some(q.playlists[q.queue[0]][0])
    ensures q.queue == [] ==> r == if q.backlog == [] then None else Some(q.backlog[0])
  {
    match FirstNonEmpty(q.queue, q.playlists)
    case Some(i) => Some(q.playlists[q.queue[i]][0])
    case None => if q.backlog == [] then None else Some(q.backlog[0])
  }

  /** When its media file exists, the first track is the one that plays next. */
  lemma {:induction false} PopPlaysFirstTrack(q: Queue, isFile: string -> bool, pick: nat)
    requires Valid(q) && GetFirstTrack(q).Some? && isFile(GetFirstTrack(q).value.media)
    ensures PopFirstTrack(q, isFile, pick) == Popped(GetFirstTrack(q).value, PopFirstTrack(q, isFile, pick).next)
  {
    if q.queue == [] {
      var b := q.backlog;
      assert b == [b[0]] + b[1..];
    }
  }

  /** Backlog recycling: the songs of backlog and `backlog_played` are conserved except
      for those dropped for missing media, and a pop from a backlog with a playable
      song always yields one. */
  lemma {:induction false} BacklogConserved(q: Queue, isFile: string -> bool, pick: nat)
    requires Valid(q) && q.queue == []
    ensures var (t, b, p, dropped) := FromBacklog(q.backlog, q.played, isFile, pick);
      var r := PopFirstTrack(q, isFile, pick);
      r.next.backlog == b && r.next.played == p
      && multiset(b) + multiset(p) + multiset(dropped) == multiset(q.backlog) + multiset(q.played)
      && (r.Nothing? ==> b == [] && dropped == q.backlog)
  {
    FromBacklogConserves(q.backlog, q.played, isFile, pick);
  }

  /** `add_to_queue(user_id)`: a queued user keeps its place and gets its 0-based
      index; a new user with tracks is appended and gets the new queue length (its
      1-based place); a user with an empty playlist gets `None`; a user with no
      playlist at all makes `self.playlists[user_id]` raise `KeyError`. */
  function AddToQueue(q: Queue, uid: Uid): (r: Result<(Queue, Option<nat>), QueueError>)
    ensures uid in q.queue ==> r == Ok((q, Some(IndexOf(q.queue, uid))))
    ensures uid !in q.queue && uid !in q.playlists ==> r == Err(KeyError)
    ensures uid !in q.queue && uid in q.playlists && q.playlists[uid] == [] ==> r == Ok((q, None))
    ensures uid !in q.queue && uid in q.playlists && q.playlists[uid] != [] ==>
      r == Ok((q.(queue := q.queue + [uid]), Some(|q.queue| + 1)))
    ensures r.Ok? ==> Distinct(q.queue) ==> Distinct(r.value.0.queue)
  {
    if uid in q.queue then Ok((q, Some(IndexOf(q.queue, uid))))
    else if uid !in q.playlists then Err(KeyError)
    else if |q.playlists[uid]| > 0 then
      assert Distinct(q.queue) ==> Distinct(q.queue + [uid]) by {
        if Distinct(q.queue) { AppendDistinct(q.queue, uid); }
      }
      Ok((q.(queue := q.queue + [uid]), Some(|q.queue| + 1)))
    else Ok((q, None))
  }

  /** `remove_from_queue(user_id)`: the user's 0-based index, and the user leaves the
      queue; an absent user gives `None` and changes nothing. */
  function RemoveFromQueue(q: Queue, uid: Uid): (r: (Queue, Option<nat>))
    ensures uid !in q.queue ==> r == (q, None)
    ensures uid in q.queue ==> r.1 == Some(IndexOf(q.queue, uid)) && r.0 == q.(queue := RemoveFirst(q.queue, uid))
    ensures Distinct(q.queue) ==> uid !in r.0.queue
  {
    if uid in q.queue then
      assert Distinct(q.queue) ==> uid !in RemoveFirst(q.queue, uid) by {
        if Distinct(q.queue) { RemoveFirstDistinct(q.queue, uid); }
      }
      (q.(queue := RemoveFirst(q.queue, uid)), Some(IndexOf(q.queue, uid)))
    else (q, None)
  }

  /** Joining and then leaving restores the queue; the index `remove_from_queue`
      reports is one less than the position `add_to_queue` reported. */
  lemma {:induction false} AddThenRemoveRestores(q: Queue, uid: Uid)
    requires uid !in q.queue && uid in q.playlists && q.playlists[uid] != []
    ensures var (q1, pos) := AddToQueue(q, uid).value;
      var (q2, idx) := RemoveFromQueue(q1, uid);
      q2 == q && pos.Some? && idx == Some(pos.value - 1)
  {
    var q1 := q.(queue := q.queue + [uid]);
    assert IndexOf(q1.queue, uid) == |q.queue|;
    assert q1.queue[..|q.queue|] + q1.queue[|q.queue| + 1..] == q.queue;
  }

  /** `raise_user_in_queue(user_id)`: a queued user moves to the front; anyone else
      changes nothing. */
  function RaiseUserInQueue(q: Queue, uid: Uid): (r: Queue)
    ensures uid !in q.queue ==> r == q
    ensures uid in q.queue ==> r == q.(queue := [uid] + RemoveFirst(q.queue, uid)) && r.queue[0] == uid
    ensures multiset(r.queue) == multiset(q.queue)
    ensures Valid(q) ==> Valid(r)
  {
    if uid in q.queue then
      var r := q.(queue := [uid] + RemoveFirst(q.queue, uid));
      assert Valid(q) ==> Valid(r) by {
        if Valid(q) {
          RemoveFirstDistinct(q.queue, uid);
          PrependDistinct(RemoveFirst(q.queue, uid), uid);
          forall j | 0 <= j < |r.queue| ensures r.queue[j] in r.playlists && |r.playlists[r.queue[j]]| > 0 {
            if j > 0 { assert r.queue[j] in RemoveFirst(q.queue, uid); }
          }
        }
      }
      r
    else q
  }
}
