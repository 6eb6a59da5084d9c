/** The policy rules of the orchestrator `Core` (core/Core.py): user lookup and the
    permission checks of the user actions, vote validation, and the request quota of
    `download_action`. The peewee tables become a map of user rows and a request log,
    and the clock is a parameter. */
module CorePolicy {
  import opened Wrappers
  import opened Songs
  import opened SeqUtil
  import opened RoundRobin
  import opened PlayQueue
  import opened TrackVotes

  /** The exceptions the rules raise. `AttributeError` is an attribute read off
      `None`; `DoesNotExist` is peewee's `User.get` on a missing row. */
  datatype CoreError =
    | UserBanned
    | PermissionDenied
    | UserRequestQuotaReached
    | DownloadFailed
    | ValueError
    | AttributeError
    | DoesNotExist
    | ZeroDivisionError
    | QueueFailure(error: QueueError)

  // ------------------------------------------------------------------ users

  /** A row of the `User` table. */
  datatype UserRow = UserRow(banned: bool, superuser: bool)

  /** A user as `get_user` returns it. */
  datatype User = User(id: int, banned: bool, superuser: bool)

  /** `stud_board_user`: the unsaved fallback user behind the admin playlist. */
  const Fallback := User(AdminUid, false, false)

  type UserDb = map<int, UserRow>

  /** `get_user(uid)`: the fallback user for -1, `None` for an unknown id, and
      `UserBanned` for a banned one. */
  function GetUser(db: UserDb, uid: int): (r: Result<Option<User>, CoreError>)
    ensures r.Err? <==> uid != AdminUid && uid in db && db[uid].banned
    ensures r.Err? ==> r.error == UserBanned
    ensures r.Ok? && r.value.Some? ==> r.value.value.id == uid && !r.value.value.banned
    ensures r == Ok(None) <==> uid != AdminUid && uid !in db
  {
    if uid == AdminUid then Ok(Some(Fallback))
    else if uid !in db then Ok(None)
    else if db[uid].banned then Err(UserBanned)
    else Ok(Some(User(uid, false, db[uid].superuser)))
  }

  /** `user = self.get_user(uid)` followed by a read of `user.superuser`: for an unknown
      id the read is off `None`. */
  function Actor(db: UserDb, uid: int): (r: Result<User, CoreError>)
    ensures r.Ok? <==> GetUser(db, uid).Ok? && GetUser(db, uid).value.Some?
    ensures r.Ok? ==> r.value == GetUser(db, uid).value.value
    ensures r.Err? && GetUser(db, uid).Ok? ==> r.error == CoreError.AttributeError
  {
    match GetUser(db, uid)
    case Err(e) => Err(e)
    case Ok(None) => Err(CoreError.AttributeError)
    case Ok(Some(u)) => Ok(u)
  }

  /** Whether a user is a superuser in the table (the fallback user is not). */
  predicate IsSuperuser(db: UserDb, uid: int) {
    uid != AdminUid && uid in db && !db[uid].banned && db[uid].superuser
  }

  /** `switch_track`'s check: a superuser, or the owner of the current track. */
  function MaySwitch(db: UserDb, uid: int, current: Option<Song>): (r: Result<User, CoreError>)
    ensures r.Ok? ==> IsSuperuser(db, uid) || (current.Some? && current.value.userId == uid)
    ensures Actor(db, uid).Ok? && (IsSuperuser(db, uid) || (current.Some? && current.value.userId == uid)) ==> r.Ok?
  {
    var u :- Actor(db, uid);
    if !u.superuser && !(current.Some? && uid == current.value.userId) then Err(PermissionDenied)
    else Ok(u)
  }

  /** The owner-or-superuser check of `delete_track` and `raise_track`: a non-superuser
      reads `song.user_id` off what `get_track` found, which raises for an unknown id. */
  function MayTouchTrack(db: UserDb, q: Queue, uid: int, tid: int): (r: Result<User, CoreError>)
    ensures r.Ok? ==> IsSuperuser(db, uid) || (GetTrack(q, tid).Some? && GetTrack(q, tid).value.userId == uid)
    ensures Actor(db, uid).Ok? && !IsSuperuser(db, uid) && GetTrack(q, tid).None? ==> r == Err(CoreError.AttributeError)
    ensures Actor(db, uid).Ok? && (IsSuperuser(db, uid) || (GetTrack(q, tid).Some? && GetTrack(q, tid).value.userId == uid)) ==> r.Ok?
  {
    var u :- Actor(db, uid);
    if u.superuser then Ok(u)
    else match GetTrack(q, tid)
      case None => Err(CoreError.AttributeError)
      case Some(t) => if u.id != t.userId then Err(PermissionDenied) else Ok(u)
  }

  /** The superuser-only check of `raise_user`, `stop_playback` and the admin actions. */
  function MustBeSuperuser(db: UserDb, uid: int): (r: Result<User, CoreError>)
    ensures r.Ok? <==> IsSuperuser(db, uid)
    ensures r.Err? && Actor(db, uid).Ok? ==> r.error == PermissionDenied
  {
    var u :- Actor(db, uid);
    if !u.superuser then Err(PermissionDenied) else Ok(u)
  }

  /** `delete_track(user_id, song_id)`: the removed track's global position. */
  function DeleteTrack(db: UserDb, q: Queue, uid: int, tid: int): (r: Result<(Queue, Option<nat>), CoreError>)
    requires Valid(q)
    ensures r.Ok? <==> MayTouchTrack(db, q, uid, tid).Ok?
    ensures r.Ok? ==> r.value == RemoveTrack(q, tid)
  {
    var _ :- MayTouchTrack(db, q, uid, tid);
    Ok(RemoveTrack(q, tid))
  }

  /** `raise_track(user_id, track_id)`; the queue's own `CoreError.AttributeError` for an unknown
      id reaches superusers too. */
  function RaiseTrackAction(db: UserDb, q: Queue, uid: int, tid: int): (r: Result<Queue, CoreError>)
    requires Valid(q)
    ensures r.Ok? <==> MayTouchTrack(db, q, uid, tid).Ok? && GetTrack(q, tid).Some?
    ensures r.Ok? ==> r.value == PlayQueue.RaiseTrack(q, tid).value
  {
    var _ :- MayTouchTrack(db, q, uid, tid);
    match PlayQueue.RaiseTrack(q, tid)
    case Err(_) => Err(CoreError.AttributeError)
    case Ok(q1) => Ok(q1)
  }

  /** `raise_user(user_id, handled_user_id)`. */
  function RaiseUser(db: UserDb, q: Queue, uid: int, handled: int): (r: Result<Queue, CoreError>)
    ensures r.Ok? <==> IsSuperuser(db, uid)
    ensures r.Ok? ==> r.value == RaiseUserInQueue(q, handled)
  {
    var _ :- MustBeSuperuser(db, uid);
    Ok(RaiseUserInQueue(q, handled))
  }

  /** `stop_playback(user_id)`: the current track goes back to the head of its owner's
      playlist and the owner to the head of the queue. With no current track
      `play_next(None)` reads `None.user_id`. */
  function StopPlayback(db: UserDb, q: Queue, uid: int, current: Option<Song>): (r: Result<Queue, CoreError>)
    ensures r.Ok? <==> IsSuperuser(db, uid) && current.Some? && current.value.userId in q.playlists
    ensures IsSuperuser(db, uid) && current.None? ==> r == Err(CoreError.AttributeError)
    ensures r.Ok? ==> r.value == PlayNext(q, current.value).value.0
  {
    var _ :- MustBeSuperuser(db, uid);
    match current
    case None => Err(CoreError.AttributeError)
    case Some(t) =>
      match PlayNext(q, t)
      case Err(e) => Err(QueueFailure(e))
      case Ok((q1, _)) => Ok(q1)
  }

  /** After a stop, the interrupted track is the first of the round-robin listing
      again. */
  lemma {:induction false} StopRequeuesCurrent(db: UserDb, q: Queue, uid: int, current: Option<Song>)
    requires Valid(q) && StopPlayback(db, q, uid, current).Ok?
    ensures var r := StopPlayback(db, q, uid, current).value;
      Valid(r) && QueueTracks(r) != [] && QueueTracks(r)[0] == current.value
  {
    PlayNextHeadsListing(q, current.value);
  }

  /** `vote_song(user_id, sign, song_id)`: the queue after the vote, and the user whose
      activity is stored. The vote happens before the activity is stored, so for an
      unknown user it counts and `store_user_activity(None)` then raises. */
  function VoteSong(db: UserDb, q: Queue, uid: int, sign: string, tid: int): (r: (Queue, Result<int, CoreError>))
    requires Valid(q)
    ensures sign != "up" && sign != "down" ==> r.0 == q && r.1.Err?
    ensures GetUser(db, uid).Ok? && sign == "up" ==> r.0 == VoteUp(q, uid, tid)
    ensures GetUser(db, uid).Ok? && sign == "down" ==> r.0 == VoteDown(q, uid, tid)
    ensures GetUser(db, uid).Err? ==> r == (q, Err(UserBanned))
    ensures r.1.Ok? <==> Actor(db, uid).Ok? && (sign == "up" || sign == "down")
    ensures r.1.Ok? ==> r.1.value == uid
    ensures Valid(r.0)
  {
    VotesKeepValid(q, uid, tid);
    match GetUser(db, uid)
    case Err(e) => (q, Err(e))
    case Ok(user) =>
      var q1 :=
        if sign == "up" then Ok(VoteUp(q, uid, tid))
        else if sign == "down" then Ok(VoteDown(q, uid, tid))
        else Err(CoreError.ValueError);
      match q1
      case Err(e) => (q, Err(e))
      case Ok(q2) => (q2, if user.None? then Err(CoreError.AttributeError) else Ok(user.value.id))
  }

  /** A banned user is turned away by every action before anything changes. */
  lemma {:induction false} BannedUsersAreRefused(db: UserDb, q: Queue, uid: int, tid: int, sign: string, current: Option<Song>)
    requires Valid(q) && uid != AdminUid && uid in db && db[uid].banned
    ensures MaySwitch(db, uid, current) == Err(UserBanned)
    ensures DeleteTrack(db, q, uid, tid) == Err(UserBanned)
    ensures RaiseTrackAction(db, q, uid, tid) == Err(UserBanned)
    ensures RaiseUser(db, q, uid, tid) == Err(UserBanned)
    ensures StopPlayback(db, q, uid, current) == Err(UserBanned)
    ensures VoteSong(db, q, uid, sign, tid) == (q, Err(UserBanned))
  {
  }

  // ------------------------------------------------------------------ quota

  /** A row of the `Request` table; `time` on the model's clock. */
  datatype Request = Request(user: int, text: string, time: int)

  /** `user_requests_limit_interval` and `user_requests_limit`. */
  datatype QuotaConfig = QuotaConfig(interval: int, limit: int)

  const DefaultQuota := QuotaConfig(600, 10)

  /** The positions in `log` of the user's requests at or after `since`. */
  ghost function Since(log: seq<Request>, uid: int, since: int): set<int> {
    set i | 0 <= i < |log| && log[i].user == uid && log[i].time >= since
  }

  /** The user's requests logged at or after `since`. */
  function CountSince(log: seq<Request>, uid: int, since: int): (n: nat)
    ensures n <= |log|
    ensures n == |Since(log, uid, since)|
  {
    if log == [] then 0
    else
      var rest := CountSince(log[..|log| - 1], uid, since);
      var last := log[|log| - 1];
      SinceSnoc(log, uid, since);
      rest + (if last.user == uid && last.time >= since then 1 else 0)
  }

  lemma {:induction false} SinceSnoc(log: seq<Request>, uid: int, since: int)
    requires log != []
    ensures var last := log[|log| - 1];
      |Since(log, uid, since)| == |Since(log[..|log| - 1], uid, since)| + (if last.user == uid && last.time >= since then 1 else 0)
  {
    var prefix := log[..|log| - 1];
    var last := log[|log| - 1];
    var hit := last.user == uid && last.time >= since;
    assert Since(log, uid, since) == Since(prefix, uid, since) + (if hit then {|log| - 1} else {});
  }

  /** `check_requests_quota(user)` at time `now`. */
  function HasQuota(log: seq<Request>, uid: int, now: int, cfg: QuotaConfig): bool {
    CountSince(log, uid, now - cfg.interval) < cfg.limit
  }

  /** What the downloader was given: `text`, `result` or `file`. */
  datatype DownloadInput = Text(text: string) | SearchResult(id: string) | File(id: string)

  /** The truth test of `if text: ... elif result: ... elif file:`. An empty text is
      falsy; a search result and a file are non-empty dictionaries and so truthy. */
  predicate HasData(input: Option<DownloadInput>) {
    input.Some? && !(input.value.Text? && input.value.text == "")
  }

  /** What `download_action` returns: the queued track and its local and global
      positions. */
  datatype Downloaded = Downloaded(q: Queue, track: Song, local: Option<nat>, global: Option<nat>)

  /** The part of `download_action` up to the second quota test: the quota test
      before the download at `now`, the download itself (its response is a
      parameter), then the request log entry and the quota test again at `later`,
      the clock reading after the download. The log is returned also on failure,
      because a request logged before the second test stays logged. */
  function Admit(db: UserDb, log: seq<Request>, uid: int, now: int, later: int, cfg: QuotaConfig,
                 input: Option<DownloadInput>,
                 response: Option<(string, Option<string>, Option<string>, int)>):
    (r: (seq<Request>, Result<(string, Option<string>, Option<string>, int), CoreError>))
    ensures r.1.Ok? ==> Actor(db, uid).Ok? && HasData(input) && response == Some(r.1.value) && uid in db
    ensures Actor(db, uid).Ok? && (Actor(db, uid).value.superuser || HasQuota(log, uid, now, cfg)) && !HasData(input) ==>
      r == (log, Err(CoreError.ValueError))
    ensures r.0 == log || (response.Some? && r.0 == log + [Request(uid, RequestText(response.value), later)])
    ensures r.1.Ok? ==> r.0 == log + [Request(uid, RequestText(response.value), later)]
    ensures GetUser(db, uid).Err? ==> r == (log, Err(UserBanned))
    ensures Actor(db, uid).Ok? && !Actor(db, uid).value.superuser && !HasQuota(log, uid, now, cfg) ==>
      r == (log, Err(UserRequestQuotaReached))
    ensures r.1.Ok? && !db[uid].superuser ==> HasQuota(r.0, uid, later, cfg)
  {
    match GetUser(db, uid)
    case Err(e) => (log, Err(e))
    case Ok(user) =>
      if !HasQuota(log, uid, now, cfg) && (user.None? || !user.value.superuser) then
        (log, Err(if user.None? then CoreError.AttributeError else UserRequestQuotaReached))
      else if !HasData(input) then (log, Err(CoreError.ValueError))
      else if user.None? then (log, Err(CoreError.AttributeError))
      else if response.None? then (log, Err(DownloadFailed))
      else if uid !in db then (log, Err(DoesNotExist))
      else
        var log1 := log + [Request(uid, RequestText(response.value), later)];
        if !db[uid].superuser && !HasQuota(log1, uid, later, cfg) then (log1, Err(UserRequestQuotaReached))
        else (log1, Ok(response.value))
  }

  /** `download_action`: admission, then the track joins its owner's playlist and the
      owner the queue. */
  function DownloadAction(db: UserDb, q: Queue, log: seq<Request>, uid: int, now: int, later: int, cfg: QuotaConfig,
                          input: Option<DownloadInput>,
                          response: Option<(string, Option<string>, Option<string>, int)>):
    (r: (seq<Request>, Result<Downloaded, CoreError>))
    requires Valid(q)
    ensures r.0 == Admit(db, log, uid, now, later, cfg, input, response).0
    ensures r.1.Ok? <==> Admit(db, log, uid, now, later, cfg, input, response).1.Ok?
    ensures r.1.Err? ==> r.1.error == Admit(db, log, uid, now, later, cfg, input, response).1.error
    ensures r.1.Ok? ==>
      var d := r.1.value;
      Valid(d.q) && d.track.userId == uid && d.track.media == response.value.0 && uid in d.q.queue
      && PlacedAt(QueueTracks(d.q), d.global, d.track)
  {
    var (log1, admitted) := Admit(db, log, uid, now, later, cfg, input, response);
    match admitted
    case Err(e) => (log1, Err(e))
    case Ok((path, title, artist, duration)) => (log1, Ok(Enqueue(q, path, title, artist, duration, uid)))
  }

  /** `Request.text`: `(artist or "") + " - " + (title or "")`. */
  function RequestText(response: (string, Option<string>, Option<string>, int)): string {
    response.2.GetOr("") + " - " + response.1.GetOr("")
  }

  /** The tail of `download_action`: `add_track`, `add_to_queue` unless already queued,
      and `get_track_position` of the new track. */
  function Enqueue(q: Queue, path: string, title: Option<string>, artist: Option<string>, duration: int, uid: int):
    (r: Downloaded)
    requires Valid(q)
    ensures Valid(r.q)
    ensures r.track.userId == uid && r.track.media == path && r.track.id == q.counter + 1
    ensures uid in r.q.queue && r.q.playlists[uid] == (if uid in q.playlists then q.playlists[uid] else []) + [r.track]
    ensures PlacedAt(r.q.playlists[uid], r.local, r.track)
    ensures PlacedAt(QueueTracks(r.q), r.global, r.track)
  {
    var added := AddTrack(q, path, title, artist, duration, uid);
    var track := added.1;
    var q2 := Join(added.0, uid);
    assert track in q2.playlists[uid];
    var pos := GetTrackPosition(q2, Some(track));
    Placed(q2, track, pos);
    Downloaded(q2, track, pos.value.0, pos.value.1)
  }

  /** What `get_track_position` gives for a track of a queued user. */
  lemma {:induction false} Placed(q: Queue, track: Song, pos: Result<(Option<nat>, Option<nat>), QueueError>)
    requires Valid(q) && track.userId in q.queue && track in q.playlists[track.userId]
    requires pos == GetTrackPosition(q, Some(track))
    ensures pos.Ok? && PlacedAt(q.playlists[track.userId], pos.value.0, track)
    ensures PlacedAt(QueueTracks(q), pos.value.1, track)
  {
    var t := Some(track);
    assert t.value == track;
    assert pos.Ok?;
  }

  /** `if not is_in_queue(uid): add_to_queue(uid)` for a user with tracks. */
  function Join(q: Queue, uid: int): (r: Queue)
    requires Valid(q) && uid in q.playlists && q.playlists[uid] != []
    ensures Valid(r) && uid in r.queue && r.playlists == q.playlists
    ensures uid in q.queue ==> r == q
    ensures uid !in q.queue ==> r == AddToQueue(q, uid).value.0
  {
    if uid in q.queue then q
    else
      var r := AddToQueue(q, uid).value.0;
      assert r.queue == q.queue + [uid];
      forall i | 0 <= i < |r.queue| ensures r.queue[i] in r.playlists && |r.playlists[r.queue[i]]| > 0 {
        if i < |q.queue| { assert r.queue[i] == q.queue[i]; }
      }
      r
  }

  /** The second quota test: a non-superuser's download that would be their
      `user_requests_limit`-th request in the window ending at `later` is refused.
      When the first test at `now` passed, the request was downloaded and logged
      before the refusal; otherwise the first test already refused it. */
  lemma {:induction false} LimitReachingDownloadRejected(db: UserDb, log: seq<Request>, uid: int, now: int, later: int,
                                      cfg: QuotaConfig, input: Option<DownloadInput>,
                                      response: Option<(string, Option<string>, Option<string>, int)>)
    requires uid in db && uid != AdminUid && !db[uid].superuser && !db[uid].banned
    requires HasData(input) && response.Some? && cfg.interval >= 0
    requires CountSince(log, uid, later - cfg.interval) + 1 == cfg.limit
    ensures var r := Admit(db, log, uid, now, later, cfg, input, response);
      r.1 == Err(UserRequestQuotaReached)
      && r.0 == (if HasQuota(log, uid, now, cfg) then log + [Request(uid, RequestText(response.value), later)] else log)
  {
    CountAppend(log, Request(uid, RequestText(response.value), later), uid, later - cfg.interval);
  }

  /** Every successful download of a non-superuser keeps their count in the window
      ending at `later`, the new request included, below the limit. */
  lemma {:induction false} DownloadStaysUnderLimit(db: UserDb, log: seq<Request>, uid: int, now: int, later: int,
                                cfg: QuotaConfig, input: Option<DownloadInput>,
                                response: Option<(string, Option<string>, Option<string>, int)>)
    requires uid in db && !db[uid].superuser && cfg.interval >= 0
    requires Admit(db, log, uid, now, later, cfg, input, response).1.Ok?
    ensures var r := Admit(db, log, uid, now, later, cfg, input, response);
      CountSince(r.0, uid, later - cfg.interval) < cfg.limit
      && CountSince(r.0, uid, later - cfg.interval) == CountSince(log, uid, later - cfg.interval) + 1
  {
    CountAppend(log, Request(uid, RequestText(response.value), later), uid, later - cfg.interval);
  }

  lemma {:induction false} CountAppend(log: seq<Request>, req: Request, uid: int, since: int)
    ensures CountSince(log + [req], uid, since)
      == CountSince(log, uid, since) + (if req.user == uid && req.time >= since then 1 else 0)
  {
    assert (log + [req])[..|log|] == log;
  }
}
