/** The `Song` record of core/models.py: id assignment from the class counter, the
    dictionary form used for persistence and for the web page, titles and haters. */
module Songs {
  import opened Wrappers
  import opened JsonValue
  import opened SeqUtil

  /** A track. `title`, `artist` and `lyrics` may be `None` in the source. */
  datatype Song = Song(
    id: int,
    title: Option<string>,
    artist: Option<string>,
    duration: int,
    userId: int,
    media: string,
    lyrics: Option<string>,
    haters: seq<int>)

  /** The errors the record's methods can raise. */
  datatype SongError = ValueError

  /** `Song(media_path, title, artist, duration, user_id, forced_id)` together with the
      class counter `Song.counter` before and after the call. */
  function NewSong(counter: int, media: string, title: Option<string>, artist: Option<string>,
                   duration: int, userId: int, forcedId: Option<int>): (r: (Song, int))
    ensures forcedId.None? ==> r.0.id == r.1 == counter + 1
    ensures forcedId.Some? ==> r.0.id == forcedId.value && r.1 == counter
    ensures r.0.title == title && r.0.artist == artist && r.0.duration == duration
    ensures r.0.userId == userId && r.0.media == media
    ensures r.0.lyrics.None? && r.0.haters == []
  {
    var id := if forcedId.None? then counter + 1 else forcedId.value;
    (Song(id, title, artist, duration, userId, media, None, []), if forcedId.None? then counter + 1 else counter)
  }

  /** Songs made without a forced id receive strictly increasing ids, each above every
      id handed out before. */
  lemma {:induction false} FreshIdsIncrease(counter: int, a: (string, Option<string>, Option<string>, int, int),
                         b: (string, Option<string>, Option<string>, int, int))
    ensures var (s1, c1) := NewSong(counter, a.0, a.1, a.2, a.3, a.4, None);
            var (s2, c2) := NewSong(c1, b.0, b.1, b.2, b.3, b.4, None);
            counter < s1.id < s2.id && c2 == s2.id
  {
  }

  /** The dictionary `to_dict` produces. `haters` is optional because `from_dict`
      accepts dictionaries without that key. */
  datatype SongDict = SongDict(
    id: int,
    title: Option<string>,
    artist: Option<string>,
    duration: int,
    userId: int,
    media: string,
    haters: Option<seq<int>>)

  /** `Song.to_dict(track)`; with no song it is the placeholder the web page shows. */
  function ToDict(s: Option<Song>): (d: SongDict)
    ensures s.Some? ==> d.id == s.value.id && d.haters == Some(s.value.haters)
    ensures s.None? ==> d == SongDict(0, Some(""), Some(""), 1, 0, "", Some([]))
  {
    match s
    case Some(t) => SongDict(t.id, t.title, t.artist, t.duration, t.userId, t.media, Some(t.haters))
    case None => SongDict(0, Some(""), Some(""), 1, 0, "", Some([]))
  }

  /** `Song.from_dict(d)`: a song with the forced id of the dictionary. */
  function FromDict(d: SongDict, counter: int): (r: (Song, int))
    ensures r.1 == counter
    ensures r.0.id == d.id
  {
    var (s, c) := NewSong(counter, d.media, d.title, d.artist, d.duration, d.userId, Some(d.id));
    (s.(haters := d.haters.GetOr([])), c)
  }

  /** Reading back what `to_dict` wrote restores every stored field and leaves the
      counter alone; only `lyrics` is not stored. */
  lemma {:induction false} DictRoundTrip(s: Song, counter: int)
    ensures FromDict(ToDict(Some(s)), counter) == (s.(lyrics := None), counter)
  {
  }

  /** And a dictionary read and written again is the same dictionary, with the
      missing `haters` key filled in as an empty list. */
  lemma {:induction false} DictRoundTripBack(d: SongDict, counter: int)
    ensures ToDict(Some(FromDict(d, counter).0)) == d.(haters := Some(d.haters.GetOr([])))
  {
  }

  function JsonOpt(s: Option<string>): Json {
    match s
    case Some(v) => Str(v)
    case None => Null
  }

  /** The JSON object `json.dumps` writes for a song dictionary. */
  function DictToJson(d: SongDict): (j: Json)
    ensures Get(j, "title") == JsonOpt(d.title)
    ensures Get(j, "duration") == Num(d.duration)
  {
    var hs := d.haters.GetOr([]);
    var haters := Arr(seq(|hs|, i requires 0 <= i < |hs| => Num(hs[i])));
    var fs := [("id", Num(d.id)), ("title", JsonOpt(d.title)), ("artist", JsonOpt(d.artist)),
               ("duration", Num(d.duration)), ("user_id", Num(d.userId)), ("media", Str(d.media)),
               ("haters", haters)];
    SevenFields(Num(d.id), JsonOpt(d.title), JsonOpt(d.artist), Num(d.duration), Num(d.userId), Str(d.media), haters);
    Obj(fs)
  }

  /** In the seven-field song object, `title` and `duration` each appear once. */
  lemma {:induction false} SevenFields(id: Json, title: Json, artist: Json, duration: Json, user: Json, media: Json, haters: Json)
    ensures var fs := [("id", id), ("title", title), ("artist", artist), ("duration", duration),
                       ("user_id", user), ("media", media), ("haters", haters)];
      Get(Obj(fs), "title") == title && Get(Obj(fs), "duration") == duration
  {
    var fs := [("id", id), ("title", title), ("artist", artist), ("duration", duration),
               ("user_id", user), ("media", media), ("haters", haters)];
    var tail := [("user_id", user), ("media", media), ("haters", haters)];
    assert fs == [("id", id)] + [("title", title)] + ([("artist", artist), ("duration", duration)] + tail);
    GetUnshadowed([("id", id)], "title", title, [("artist", artist), ("duration", duration)] + tail);
    assert fs == [("id", id), ("title", title), ("artist", artist)] + [("duration", duration)] + tail;
    GetUnshadowed([("id", id), ("title", title), ("artist", artist)], "duration", duration, tail);
  }

  /** `os.path.basename` (POSIX): everything after the last `/`. */
  function Basename(p: string): (r: string)
    ensures |r| <= |p| && r == p[|p| - |r|..]
    ensures forall i | 0 <= i < |r| :: r[i] != '/'
    ensures |r| < |p| ==> p[|p| - |r| - 1] == '/'
  {
    if p == [] then []
    else if p[|p| - 1] == '/' then []
    else Basename(p[..|p| - 1]) + [p[|p| - 1]]
  }

  /** True when `name[..k]` holds a character other than `.`. */
  predicate HasNonDotBefore(name: string, k: nat)
    requires k <= |name|
  {
    exists i | 0 <= i < k :: name[i] != '.'
  }

  /** The index of the last `.` in `name`, if any. */
  function LastDot(name: string): (r: Option<nat>)
    ensures r.Some? ==> r.value < |name| && name[r.value] == '.'
    ensures r.Some? ==> forall i | r.value < i < |name| :: name[i] != '.'
    ensures r.None? ==> forall i | 0 <= i < |name| :: name[i] != '.'
  {
    if name == [] then None
    else if name[|name| - 1] == '.' then Some(|name| - 1)
    else LastDot(name[..|name| - 1])
  }

  /** `os.path.splitext(name)[0]` for a name without `/`: the last extension is cut
      off unless every character before its dot is a dot (".bashrc" stays whole). */
  function StripExtension(name: string): (r: string)
    ensures |r| <= |name| && r == name[..|r|]
    ensures |r| < |name| ==> name[|r|] == '.' && HasNonDotBefore(name, |r|)
    ensures |r| < |name| ==> forall i | |r| < i < |name| :: name[i] != '.'
  {
    match LastDot(name)
    case None => name
    case Some(k) => if HasNonDotBefore(name, k) then name[..k] else name
  }

  predicate NonEmpty(s: Option<string>) {
    s.Some? && |s.value| > 0
  }

  /** `Song.full_title()`. */
  function FullTitle(s: Song): (r: string)
    ensures NonEmpty(s.artist) && NonEmpty(s.title) ==> r == s.artist.value + " \U{2014} " + s.title.value
    ensures NonEmpty(s.artist) && !NonEmpty(s.title) ==> r == s.artist.value
    ensures !NonEmpty(s.artist) && NonEmpty(s.title) ==> r == s.title.value
    ensures !NonEmpty(s.artist) && !NonEmpty(s.title) ==> r == StripExtension(Basename(s.media))
  {
    if NonEmpty(s.artist) && NonEmpty(s.title) then s.artist.value + " \U{2014} " + s.title.value
    else if NonEmpty(s.artist) then s.artist.value
    else if NonEmpty(s.title) then s.title.value
    else StripExtension(Basename(s.media))
  }

  /** The base name of `dir/name` is `name` when `name` has no `/`. */
  lemma {:induction false} BasenameOfPath(dir: string, name: string)
    requires forall i | 0 <= i < |name| :: name[i] != '/'
    ensures Basename(dir + "/" + name) == name
    decreases |name|
  {
    var p := dir + "/" + name;
    if name != [] {
      assert p[..|p| - 1] == dir + "/" + name[..|name| - 1];
      BasenameOfPath(dir, name[..|name| - 1]);
      assert name == name[..|name| - 1] + [name[|name| - 1]];
    } else {
      assert p[|p| - 1] == '/';
    }
  }

  lemma {:induction false} LastDotExample()
    ensures LastDot("abc.mp3") == Some(3)
  {
    var b := "abc.mp3";
    assert b[..6] == "abc.mp" && b[..5] == "abc.m" && b[..4] == "abc.";
    assert LastDot(b[..4]) == Some(3);
  }

  /** The nameless fallback is the file name of the media without its extension. */
  lemma {:induction false} FullTitleFromMedia()
    ensures FullTitle(Song(1, None, Some(""), 10, 5, "media/abc.mp3", None, [])) == "abc"
  {
    var s := Song(1, None, Some(""), 10, 5, "media/abc.mp3", None, []);
    assert !NonEmpty(s.artist) && !NonEmpty(s.title);
    BasenameOfPath("media", "abc.mp3");
    assert s.media == "media" + "/" + "abc.mp3";
    var b := Basename(s.media);
    LastDotExample();
    assert b[0] != '.';
    assert HasNonDotBefore(b, 3);
    assert b[..3] == "abc";
  }

  /** `add_hater(user_id)`. */
  function AddHater(s: Song, user: int): (r: Song)
    ensures user in r.haters
    ensures r == s.(haters := r.haters)
    ensures forall u :: u in r.haters <==> u in s.haters || u == user
    ensures Distinct(s.haters) ==> Distinct(r.haters)
    ensures user in s.haters ==> r == s
  {
    if user in s.haters then s else s.(haters := s.haters + [user])
  }

  /** Voting down twice is voting down once. */
  lemma {:induction false} AddHaterIdempotent(s: Song, user: int)
    ensures AddHater(AddHater(s, user), user) == AddHater(s, user)
  {
  }

  /** `remove_hater(user_id)` as written: the guard is inverted, so a present hater is
      kept and an absent one makes `list.remove` raise `ValueError`. */
  function RemoveHater(s: Song, user: int): (r: Result<Song, SongError>)
    ensures r.Err? <==> user !in s.haters
    ensures r.Ok? ==> r.value == s
  {
    if user !in s.haters then Err(ValueError) else Ok(s)
  }

  /** Consequently no call ever takes a hater off the list. */
  lemma {:induction false} RemoveHaterNeverRemoves(s: Song, user: int)
    ensures RemoveHater(s, user).Ok? ==> user in RemoveHater(s, user).value.haters
  {
  }

  /** `remove_hater(user_id)` with the guard it evidently means (`in`): the first entry
      of a present hater leaves the list, and an absent one changes nothing. This is
      what `vote_up` does inline. */
  function RemoveHaterCorrected(s: Song, user: int): (r: Song)
    ensures r == s.(haters := r.haters)
    ensures user !in s.haters ==> r == s
    ensures user in s.haters ==> |r.haters| == |s.haters| - 1
    ensures Distinct(s.haters) ==> user !in r.haters && Distinct(r.haters)
  {
    var r := s.(haters := RemoveFirst(s.haters, user));
    assert Distinct(s.haters) ==> user !in r.haters && Distinct(r.haters) by {
      if Distinct(s.haters) { RemoveFirstDistinct(s.haters, user); }
    }
    r
  }

  /** The corrected removal undoes `add_hater` for a user who was not a hater. */
  lemma {:induction false} RemoveHaterUndoesAdd(s: Song, user: int)
    requires user !in s.haters
    ensures RemoveHaterCorrected(AddHater(s, user), user) == s
  {
    var h := AddHater(s, user).haters;
    assert h == s.haters + [user];
    assert IndexOf(h, user) == |s.haters|;
    assert h[..|s.haters|] == s.haters;
  }

  /** `has_lyrics()`. */
  function HasLyrics(s: Song): (r: bool)
    ensures r <==> s.lyrics != None && s.lyrics != Some("")
  {
    match s.lyrics
    case None => false
    case Some(l) => l != ""
  }
}
