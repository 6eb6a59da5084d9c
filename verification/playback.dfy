/** The playback rules of the orchestrator `Core` (core/Core.py): the song rating test
    and the skip loop and owner notifications of `play_next_track`. The set of recently
    active users, the file-existence test and the random draws of the backlog are
    parameters. */
module Playback {
  import opened Wrappers
  import opened Songs
  import opened SeqUtil
  import opened PlayQueue
  import opened CorePolicy

  // ---------------------------------------------------------------- rating

  type Positive = n: nat | n > 0 witness 1

  /** `song_rating_threshold` as the fraction `num / den`, and `song_rating_cnt_min`. */
  datatype RatingConfig = RatingConfig(num: int, den: Positive, minCount: int)

  /** The defaults: a threshold of 0.3 and at least three haters. */
  const DefaultRating := RatingConfig(3, 10, 3)

  /** `check_song_rating_values(all_users, voted_users)`: true keeps the song. The
      division is reached only once the count test passes, and then raises for no
      active users. */
  function CheckRatingValues(all: nat, voted: nat, cfg: RatingConfig): (r: Result<bool, CoreError>)
    ensures r.Err? <==> voted >= cfg.minCount && all == 0
    ensures r.Err? ==> r.error == ZeroDivisionError
    ensures r.Ok? && all > 0 ==>
      (r.value <==> !(voted >= cfg.minCount && (voted as real) / (all as real) >= (cfg.num as real) / (cfg.den as real)))
    ensures r.Ok? && voted < cfg.minCount ==> r.value
  {
    if voted < cfg.minCount then Ok(true)
    else if all == 0 then Err(ZeroDivisionError)
    else
      RatioOrder(voted, all, cfg.num, cfg.den);
      Ok(voted * cfg.den < cfg.num * all)
  }

  /** Comparing two fractions by cross-multiplying. */
  lemma {:induction false} RatioOrder(a: int, b: int, c: int, d: int)
    requires b > 0 && d > 0
    ensures (a as real) / (b as real) >= (c as real) / (d as real) <==> a * d >= c * b
  {
    var x := (a as real) / (b as real);
    var y := (c as real) / (d as real);
    assert x * (b as real) == a as real;
    assert y * (d as real) == c as real;
    assert (a * d) as real == x * (b as real) * (d as real);
    assert (c * b) as real == y * (d as real) * (b as real);
    if x >= y {
      assert x * ((b * d) as real) >= y * ((b * d) as real);
    } else {
      assert x * ((b * d) as real) < y * ((b * d) as real);
    }
  }

  /** More haters never rescue a song that the test already rejects. */
  lemma {:induction false} MoreHatersNeverHelp(all: nat, voted: nat, more: nat, cfg: RatingConfig)
    requires CheckRatingValues(all, voted, cfg) == Ok(false) && more >= voted
    ensures CheckRatingValues(all, more, cfg) == Ok(false)
  {
    assert voted * cfg.den <= more * cfg.den;
  }

  /** When the haters counted are among the active users and the minimum count is
      positive, the division never sees zero. */
  lemma {:induction false} CountedHatersNeverDivideByZero(all: nat, voted: nat, cfg: RatingConfig)
    requires voted <= all && cfg.minCount > 0
    ensures CheckRatingValues(all, voted, cfg).Ok?
  {
  }

  /** The recently active users among a song's haters (`User.id << track.haters`
      filtered by activity). */
  function ActiveHaters(t: Song, active: set<int>): (r: set<int>)
    ensures r <= active
    ensures forall h | h in active :: h in r <==> h in t.haters
  {
    set h | h in t.haters && h in active
  }

  lemma {:induction false} SubsetCardinality(a: set<int>, b: set<int>)
    requires a <= b
    ensures |a| <= |b|
  {
    assert b == a + (b - a);
  }

  /** The rating of a popped track against the recently active users. */
  function Rating(t: Song, active: set<int>, cfg: RatingConfig): (r: Result<bool, CoreError>)
    ensures cfg.minCount > 0 ==> r.Ok?
  {
    SubsetCardinality(ActiveHaters(t, active), active);
    CheckRatingValues(|active|, |ActiveHaters(t, active)|, cfg)
  }

  // ------------------------------------------------------- play_next_track

  /** A message to one user's frontends. */
  datatype Notice =
    | Skipped(user: int, track: Song)
    | NowPlaying(user: int, track: Song)
    | NextIsYours(user: int, track: Song)
    | BothYours(user: int, track: Song, next: Song)

  /** How the `while True` loop of `play_next_track` ended. */
  datatype LoopEnd =
    | Found(track: Song)
    | Empty
    | MissingMedia(track: Song)
    | Failed(error: CoreError)
    | OutOfPicks

  /** The loop: pop, rate, and on a bad rating skip to the next pop. Each pop takes the
      next entry of `picks` as its `random.randrange` draw, so the model runs out of
      picks where the source would go on. Returns the queue, the skipped tracks and
      how the loop ended. */
  function SkipLoop(q: Queue, isFile: string -> bool, picks: seq<nat>, active: set<int>, cfg: RatingConfig):
    (r: (Queue, seq<Song>, LoopEnd))
    requires Valid(q)
    ensures Valid(r.0)
    ensures |r.1| <= |picks|
    ensures r.2.OutOfPicks? ==> |r.1| == |picks|
    ensures RatedDown(r.1, isFile, active, cfg)
    ensures r.2.Found? ==> Rating(r.2.track, active, cfg) == Ok(true) && isFile(r.2.track.media)
    ensures r.2.Failed? ==> cfg.minCount <= 0
    decreases |picks|
  {
    if picks == [] then (q, [], OutOfPicks)
    else
      PopFirstTrackValid(q, isFile, picks[0]);
      match PopFirstTrack(q, isFile, picks[0])
      case Nothing(q1) => (q1, [], Empty)
      case MissingQueueMedia(t, q1) => (q1, [], MissingMedia(t))
      case Popped(t, q1) =>
        assert isFile(t.media);
        match Rating(t, active, cfg)
        case Err(e) => (q1, [], Failed(e))
        case Ok(true) => (q1, [], Found(t))
        case Ok(false) =>
          var (q2, skipped, end) := SkipLoop(q1, isFile, picks[1..], active, cfg);
          RatedDownCons(t, skipped, isFile, active, cfg);
          (q2, [t] + skipped, end)
  }

  /** Every skipped track is on disk and was rated to be skipped. */
  predicate RatedDown(skipped: seq<Song>, isFile: string -> bool, active: set<int>, cfg: RatingConfig) {
    forall i | 0 <= i < |skipped| :: Rating(skipped[i], active, cfg) == Ok(false) && isFile(skipped[i].media)
  }

  lemma {:induction false} RatedDownCons(t: Song, skipped: seq<Song>, isFile: string -> bool, active: set<int>, cfg: RatingConfig)
    requires Rating(t, active, cfg) == Ok(false) && isFile(t.media) && RatedDown(skipped, isFile, active, cfg)
    ensures RatedDown([t] + skipped, isFile, active, cfg)
  {
    forall i | 0 <= i < |[t] + skipped|
      ensures Rating(([t] + skipped)[i], active, cfg) == Ok(false) && isFile(([t] + skipped)[i].media)
    {
      if i > 0 { assert ([t] + skipped)[i] == skipped[i - 1]; }
    }
  }

  /** The owner notices once the next track is chosen. The sentinel user -1 is never
      notified; one owner of both tracks gets one combined message; otherwise the next
      track's owner is told first, then the current one. */
  function PlayNotices(current: Song, next: Option<Song>): (r: seq<Notice>)
    ensures forall i | 0 <= i < |r| :: r[i].user != AdminUid
    ensures forall i, j | 0 <= i < j < |r| :: r[i].user != r[j].user
    ensures forall u :: u in Recipients(r) <==>
      u != AdminUid && (u == current.userId || (next.Some? && u == next.value.userId))
    ensures current.userId != AdminUid && next.Some? && next.value.userId == current.userId ==>
      |r| == 1 && r[0].BothYours?
    ensures !(current.userId != AdminUid && next.Some? && next.value.userId == current.userId) ==>
      forall i | 0 <= i < |r| :: !r[i].BothYours?
    ensures forall i | 0 <= i < |r| :: !r[i].Skipped?
    ensures forall i | 0 <= i < |r| :: r[i].NowPlaying? ==> r[i] == NowPlaying(current.userId, current)
    ensures forall i | 0 <= i < |r| :: r[i].NextIsYours? ==> next.Some? && r[i] == NextIsYours(next.value.userId, next.value)
    ensures forall i | 0 <= i < |r| :: r[i].BothYours? ==> next.Some? && r[i] == BothYours(current.userId, current, next.value)
    ensures forall i, j | 0 <= i < j < |r| :: !(r[i].NowPlaying? && r[j].NextIsYours?)
  {
    var cur := if current.userId == AdminUid then None else Some(current.userId);
    var nxt := if next.None? || next.value.userId == AdminUid then None else Some(next.value.userId);
    if cur.Some? && nxt.Some? && cur == nxt then
      var r := [BothYours(cur.value, current, next.value)];
      r
    else
      var a: seq<Notice> := if nxt.Some? then [NextIsYours(nxt.value, next.value)] else [];
      var b: seq<Notice> := if cur.Some? then [NowPlaying(cur.value, current)] else [];
      var r := a + b;
      assert Recipients(r) == (if nxt.Some? then {nxt.value} else {}) + (if cur.Some? then {cur.value} else {}) by {
        if nxt.Some? && cur.Some? {
          assert r[1..] == b && b[1..] == [];
          assert Recipients(b) == {cur.value};
          assert Recipients(r) == {nxt.value} + Recipients(b);
        } else if nxt.Some? {
          assert r == a && a[1..] == [];
        } else if cur.Some? {
          assert r == b && b[1..] == [];
        } else {
          assert r == [];
        }
      }
      r
  }

  /** The users a list of notices goes to. */
  function Recipients(notices: seq<Notice>): set<int> {
    if notices == [] then {} else {notices[0].user} + Recipients(notices[1..])
  }

  /** The outcome of `play_next_track`. `Stopped` is the `backend.stop()` return;
      `Switched` carries the new current track and the one after it. */
  datatype Played =
    | Switched(q: Queue, track: Song, next: Option<Song>, notices: seq<Notice>)
    | Stopped(q: Queue, notices: seq<Notice>)
    | Unfinished(q: Queue, end: LoopEnd, notices: seq<Notice>)

  function SkipNotices(skipped: seq<Song>): (r: seq<Notice>)
    ensures |r| == |skipped|
    ensures forall i | 0 <= i < |r| :: r[i] == Skipped(skipped[i].userId, skipped[i])
  {
    if skipped == [] then [] else [Skipped(skipped[0].userId, skipped[0])] + SkipNotices(skipped[1..])
  }

  /** `play_next_track()`: every skipped track's owner is told, in order, before the
      notices about the track that starts. */
  function PlayNextTrack(q: Queue, isFile: string -> bool, picks: seq<nat>, active: set<int>, cfg: RatingConfig):
    (r: Played)
    requires Valid(q)
    ensures Valid(r.q)
    ensures r.Switched? ==>
      Rating(r.track, active, cfg) == Ok(true) && isFile(r.track.media)
      && r.next == GetFirstTrack(r.q)
      && r.notices == SkipNotices(SkipLoop(q, isFile, picks, active, cfg).1) + PlayNotices(r.track, r.next)
    ensures r.Stopped? ==> r.notices == SkipNotices(SkipLoop(q, isFile, picks, active, cfg).1)
    ensures var l := SkipLoop(q, isFile, picks, active, cfg);
      (r.Switched? <==> l.2.Found?) && (r.Switched? ==> r.track == l.2.track && r.q == l.0)
    ensures r.Stopped? <==> SkipLoop(q, isFile, picks, active, cfg).2.Empty?
  {
    var (q1, skipped, end) := SkipLoop(q, isFile, picks, active, cfg);
    var skips := SkipNotices(skipped);
    match end
    case Found(t) =>
      var next := GetFirstTrack(q1);
      Switched(q1, t, next, skips + PlayNotices(t, next))
    case Empty => Stopped(q1, skips)
    case _ => Unfinished(q1, end, skips)
  }

  /** With a positive minimum count the rating never divides by zero, and a queued
      user's track with good media and no active haters starts at once. */
  lemma {:induction false} GoodHeadPlaysAtOnce(q: Queue, isFile: string -> bool, picks: seq<nat>, active: set<int>, cfg: RatingConfig)
    requires Valid(q) && q.queue != [] && picks != [] && cfg.minCount > 0
    requires var t := q.playlists[q.queue[0]][0]; isFile(t.media) && ActiveHaters(t, active) == {}
    ensures var r := PlayNextTrack(q, isFile, picks, active, cfg);
      r.Switched? && r.track == q.playlists[q.queue[0]][0] && r.track == QueueTracks(q)[0]
  {
    PopTakesListingHead(q, isFile, picks[0]);
  }

  /** How successive pops stop: a pop with nothing to play, a queue track whose media
      file is missing, or no draw left. */
  datatype PopsEnd = RanDry | NoMedia(track: Song) | NoPicks

  /** Reference definition: the tracks that successive pops yield, one pop per draw,
      until a pop yields no playable track, and how the pops stopped. */
  function PopTracks(q: Queue, isFile: string -> bool, picks: seq<nat>): (r: (seq<Song>, PopsEnd))
    requires Valid(q)
    ensures |r.0| <= |picks|
    ensures r.1.NoPicks? <==> |r.0| == |picks|
    decreases |picks|
  {
    if picks == [] then ([], NoPicks)
    else
      PopFirstTrackValid(q, isFile, picks[0]);
      match PopFirstTrack(q, isFile, picks[0])
      case Popped(t, q1) => var p := PopTracks(q1, isFile, picks[1..]); ([t] + p.0, p.1)
      case Nothing(_) => ([], RanDry)
      case MissingQueueMedia(t, _) => ([], NoMedia(t))
  }

  /** The loop end that a stop of the pops leads to. */
  function EndOf(e: PopsEnd): LoopEnd {
    match e
    case RanDry => Empty
    case NoMedia(t) => MissingMedia(t)
    case NoPicks => OutOfPicks
  }

  /** One turn of the loop next to one pop: a popped track rated down is skipped and
      both the loop and the pops go on from the popped state; any other pop or
      rating ends both at once. */
  lemma {:induction false} LoopStep(q: Queue, isFile: string -> bool, picks: seq<nat>, active: set<int>, cfg: RatingConfig)
    requires Valid(q) && picks != []
    ensures var p := PopFirstTrack(q, isFile, picks[0]);
      var r := SkipLoop(q, isFile, picks, active, cfg);
      var pops := PopTracks(q, isFile, picks);
      Valid(p.next)
      && (p.Popped? && Rating(p.track, active, cfg) == Ok(false) ==>
            var rest := SkipLoop(p.next, isFile, picks[1..], active, cfg);
            var tail := PopTracks(p.next, isFile, picks[1..]);
            r.1 == [p.track] + rest.1 && r.2 == rest.2 && pops == ([p.track] + tail.0, tail.1))
      && (!(p.Popped? && Rating(p.track, active, cfg) == Ok(false)) ==> r.1 == [])
      && (p.Popped? ==> pops.0 != [] && pops.0[0] == p.track)
      && (p.Popped? && Rating(p.track, active, cfg) == Ok(true) ==> r.2 == Found(p.track))
      && (p.Popped? && Rating(p.track, active, cfg).Err? ==> r.2 == Failed(Rating(p.track, active, cfg).error))
      && (!p.Popped? ==> pops.0 == [] && r.2 == EndOf(pops.1))
  {
    PopFirstTrackValid(q, isFile, picks[0]);
  }

  /** The loop skips a prefix of the successive pops, and the track it finds is the
      pop right after them: with the rating clauses of `SkipLoop`, it stops at the
      first popped track not rated down. */
  lemma {:induction false} SkipLoopFollowsPops(q: Queue, isFile: string -> bool, picks: seq<nat>, active: set<int>, cfg: RatingConfig)
    requires Valid(q)
    ensures var r := SkipLoop(q, isFile, picks, active, cfg);
      var pops := PopTracks(q, isFile, picks).0;
      |r.1| <= |pops| && r.1 == pops[..|r.1|]
      && (r.2.Found? ==> |r.1| < |pops| && pops[|r.1|] == r.2.track)
    decreases |picks|
  {
    if picks != [] {
      LoopStep(q, isFile, picks, active, cfg);
      var p := PopFirstTrack(q, isFile, picks[0]);
      if p.Popped? && Rating(p.track, active, cfg) == Ok(false) {
        SkipLoopFollowsPops(p.next, isFile, picks[1..], active, cfg);
        var rest := SkipLoop(p.next, isFile, picks[1..], active, cfg);
        ConsPrefix(p.track, rest.1, PopTracks(p.next, isFile, picks[1..]).0);
      }
    }
  }

  /** How the loop ends is decided by the pops: a rating that fails is the pop right
      after the skipped ones, and a loop that neither finds a track nor fails has
      skipped every pop and ends the way the pops stopped. */
  lemma {:induction false} SkipLoopEnds(q: Queue, isFile: string -> bool, picks: seq<nat>, active: set<int>, cfg: RatingConfig)
    requires Valid(q)
    ensures var r := SkipLoop(q, isFile, picks, active, cfg);
      EndsLikePops(r.1, r.2, PopTracks(q, isFile, picks), active, cfg)
    decreases |picks|
  {
    if picks != [] {
      LoopStep(q, isFile, picks, active, cfg);
      var p := PopFirstTrack(q, isFile, picks[0]);
      if p.Popped? && Rating(p.track, active, cfg) == Ok(false) {
        SkipLoopEnds(p.next, isFile, picks[1..], active, cfg);
        var rest := SkipLoop(p.next, isFile, picks[1..], active, cfg);
        EndsLikePopsCons(p.track, rest.1, rest.2, PopTracks(p.next, isFile, picks[1..]), active, cfg);
      }
    }
  }

  /** A failed rating is the pop right after the skipped tracks; an end that is
      neither found nor failed means every pop was skipped and the pops stopped that way. */
  predicate EndsLikePops(skipped: seq<Song>, end: LoopEnd, pops: (seq<Song>, PopsEnd), active: set<int>, cfg: RatingConfig) {
    (end.Failed? ==> |skipped| < |pops.0| && Rating(pops.0[|skipped|], active, cfg) == Err(end.error))
    && (!end.Found? && !end.Failed? ==> skipped == pops.0 && end == EndOf(pops.1))
  }

  lemma {:induction false} EndsLikePopsCons(t: Song, skipped: seq<Song>, end: LoopEnd, pops: (seq<Song>, PopsEnd), active: set<int>, cfg: RatingConfig)
    requires EndsLikePops(skipped, end, pops, active, cfg)
    ensures EndsLikePops([t] + skipped, end, ([t] + pops.0, pops.1), active, cfg)
  {
    if end.Failed? { assert ([t] + pops.0)[|skipped| + 1] == pops.0[|skipped|]; }
  }

  /** `play_next_track` stops playback exactly when every track the pops yield is on
      disk and rated down and the pops then ran dry. */
  lemma {:induction false} StopsWhenPopsRunDry(q: Queue, isFile: string -> bool, picks: seq<nat>, active: set<int>, cfg: RatingConfig)
    requires Valid(q)
    ensures var pops := PopTracks(q, isFile, picks);
      PlayNextTrack(q, isFile, picks, active, cfg).Stopped? <==> pops.1.RanDry? && RatedDown(pops.0, isFile, active, cfg)
  {
    var r := SkipLoop(q, isFile, picks, active, cfg);
    var pops := PopTracks(q, isFile, picks);
    SkipLoopFollowsPops(q, isFile, picks, active, cfg);
    SkipLoopEnds(q, isFile, picks, active, cfg);
    if pops.1.RanDry? && RatedDown(pops.0, isFile, active, cfg) {
      if r.2.Found? || r.2.Failed? {
        assert false;
      }
    }
  }

  /** A prefix stays a prefix, at the same distance, with one element put in front. */
  lemma {:induction false} ConsPrefix<T>(t: T, a: seq<T>, b: seq<T>)
    requires |a| <= |b| && a == b[..|a|]
    ensures [t] + a == ([t] + b)[..|a| + 1]
    ensures |a| < |b| ==> ([t] + b)[|a| + 1] == b[|a|]
  {
  }
}
