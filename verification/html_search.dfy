/** The HTML downloader (downloaders/HtmlDownloader.py): turning a search page into
    ranked results, the search cache, and the checks `download` makes before it
    fetches anything. The page is given as the five lists its XPath queries return;
    the SHA-1 of a link is an abstract `hash`. */
module HtmlSearch {
  import opened Wrappers
  import opened Decimal
  import opened SeqUtil
  import opened StableSort
  import Captions
  import Downloads

  type Failure = Downloads.Failure

  /** `int()` of a string that is not a number. */
  const ValueError: Failure := Downloads.Foreign("ValueError")

  /** What the XPath queries of a search page return. */
  datatype Page = Page(titles: seq<string>, artists: seq<string>, durations: seq<string>,
                       ratings: seq<string>, links: seq<string>)

  /** One `zip` row of the page, before clean-up. */
  datatype RawRow = RawRow(title: string, artist: string, duration: string, rating: string, link: string)

  /** A cached search row: the duration in seconds, the rating as cleaned text. */
  datatype Song = Song(title: string, artist: string, duration: int, rating: string, link: string)

  /** A row of the search result list. */
  datatype Hit = Hit(id: string, artist: string, title: string, duration: int)

  type Cache = map<string, Song>

  function Min(a: int, b: int): int { if a < b then a else b }

  /** `zip(titles, artists, durations, ratings, links)`: as long as the shortest list. */
  function Zip(p: Page): (rows: seq<RawRow>)
    ensures |rows| == Min(Min(Min(|p.titles|, |p.artists|), Min(|p.durations|, |p.ratings|)), |p.links|)
    ensures forall i | 0 <= i < |rows| ::
      rows[i] == RawRow(p.titles[i], p.artists[i], p.durations[i], p.ratings[i], p.links[i])
  {
    var n := Min(Min(Min(|p.titles|, |p.artists|), Min(|p.durations|, |p.ratings|)), |p.links|);
    seq(n, i requires 0 <= i < n => RawRow(p.titles[i], p.artists[i], p.durations[i], p.ratings[i], p.links[i]))
  }

  // ------------------------------------------------------------------ durations

  /** `s.split(sep)`: the pieces between separators, empty ones included. */
  function Split(s: string, sep: char): (parts: seq<string>)
    ensures |parts| >= 1
    ensures forall i | 0 <= i < |parts| :: sep !in parts[i]
    decreases |s|
  {
    if sep !in s then [s]
    else
      var i := IndexOf(s, sep);
      [s[..i]] + Split(s[i + 1..], sep)
  }

  /** `sep.join(parts)`. */
  function Join(parts: seq<string>, sep: char): string
    requires |parts| >= 1
  {
    if |parts| == 1 then parts[0] else parts[0] + [sep] + Join(parts[1..], sep)
  }

  /** Joining the pieces gives back the text. */
  lemma {:induction false} JoinSplit(s: string, sep: char)
    ensures Join(Split(s, sep), sep) == s
    decreases |s|
  {
    if sep in s {
      var i := IndexOf(s, sep);
      var rest := Split(s[i + 1..], sep);
      JoinSplit(s[i + 1..], sep);
      JoinCons(s[..i], rest, sep);
      assert s == s[..i] + [sep] + s[i + 1..];
    }
  }

  lemma {:induction false} JoinCons(a: string, rest: seq<string>, sep: char)
    requires |rest| >= 1
    ensures Join([a] + rest, sep) == a + [sep] + Join(rest, sep)
  {
    assert ([a] + rest)[1..] == rest;
  }

  /** Splitting a join of separator-free pieces gives back the pieces. */
  lemma {:induction false} SplitJoin(parts: seq<string>, sep: char)
    requires |parts| >= 1 && forall i | 0 <= i < |parts| :: sep !in parts[i]
    ensures Split(Join(parts, sep), sep) == parts
    decreases |parts|
  {
    if |parts| > 1 {
      var tail := Join(parts[1..], sep);
      assert forall i | 0 <= i < |parts| - 1 :: parts[1..][i] == parts[i + 1];
      SplitJoin(parts[1..], sep);
      assert Join(parts, sep) == parts[0] + [sep] + tail;
      SplitAfterFirst(parts[0], tail, sep);
      HeadTail(parts);
    }
  }

  lemma {:induction false} HeadTail<T>(xs: seq<T>)
    requires xs != []
    ensures [xs[0]] + xs[1..] == xs
  {
  }

  /** Text with no separator, a separator, then anything splits after the first piece. */
  lemma {:induction false} SplitAfterFirst(a: string, tail: string, sep: char)
    requires sep !in a
    ensures Split(a + [sep] + tail, sep) == [a] + Split(tail, sep)
  {
    var s := a + [sep] + tail;
    assert s[|a|] == sep;
    assert forall j | 0 <= j < |a| :: s[j] == a[j];
    var i := IndexOf(s, sep);
    assert i == |a|;
    assert s[..i] == a;
    assert s[i + 1..] == tail;
  }

  /** The `t = t * 60 + int(part)` loop over the pieces. */
  function Fold(parts: seq<string>, t: int): Option<int> {
    if parts == [] then Some(t)
    else match ParseInt(parts[0])
      case None => None
      case Some(v) => Fold(parts[1..], t * 60 + v)
  }

  /** A `[h:]m:s` duration in seconds; `None` is the `ValueError` of a bad piece. */
  function ParseDuration(text: string): Option<int> {
    Fold(Split(text, ':'), 0)
  }

  /** The duration this module reads back is the one the captions write: for any
      non-negative number of seconds, `m:ss` parses to that number. */
  lemma {:induction false} DurationRoundTrip(seconds: nat)
    ensures ParseDuration(Captions.FormatDuration(seconds)) == Some(seconds)
  {
    var m := IntToString(seconds / 60);
    var ss := Pad2(seconds % 60);
    assert Captions.FormatDuration(seconds) == m + [':'] + ss;
    IntToStringRoundTrip(seconds / 60);
    Captions.NonNegativeDigits(seconds / 60);
    ReadBack(m, ss, seconds);
  }

  /** Reading back the minutes and the two-digit seconds `FormatDuration` writes. */
  lemma {:induction false} ReadBack(m: string, ss: string, seconds: nat)
    requires m != [] && AllDigits(m) && ParseInt(m) == Some(seconds / 60)
    requires ss != [] && AllDigits(ss) && DigitsValue(ss) == seconds % 60
    ensures ParseDuration(m + [':'] + ss) == Some(seconds)
  {
    ParseDigits(m);
    MinutesSeconds(m, ss);
  }

  /** `m:ss` with digits on both sides is `m * 60 + ss` seconds. */
  lemma {:induction false} MinutesSeconds(m: string, ss: string)
    requires m != [] && ss != [] && AllDigits(m) && AllDigits(ss)
    ensures ParseDuration(m + [':'] + ss) == Some(DigitsValue(m) * 60 + DigitsValue(ss))
  {
    SplitPair(m, ss);
    FoldDigits(m, ss);
  }

  /** Digits on both sides of one colon split into exactly those two pieces. */
  lemma {:induction false} SplitPair(m: string, ss: string)
    requires AllDigits(m) && AllDigits(ss)
    ensures Split(m + [':'] + ss, ':') == [m, ss]
  {
    NoColon(m);
    NoColon(ss);
    assert Join([m, ss], ':') == m + [':'] + ss;
    SplitJoin([m, ss], ':');
  }

  /** Two runs of digits fold to minutes times sixty plus seconds. */
  lemma {:induction false} FoldDigits(m: string, ss: string)
    requires m != [] && ss != [] && AllDigits(m) && AllDigits(ss)
    ensures Fold([m, ss], 0) == Some(DigitsValue(m) * 60 + DigitsValue(ss))
  {
    var a := DigitsValue(m);
    var b := DigitsValue(ss);
    ParseDigits(m);
    ParseDigits(ss);
    FoldTwo(m, ss, a, b);
  }

  /** Two pieces that parse to `a` and `b` fold to `a * 60 + b`. */
  lemma {:induction false} FoldTwo(m: string, ss: string, a: int, b: int)
    requires ParseInt(m) == Some(a) && ParseInt(ss) == Some(b)
    ensures Fold([m, ss], 0) == Some(a * 60 + b)
  {
    assert [m, ss][1..] == [ss];
    assert Fold([m, ss], 0) == Fold([ss], a);
    assert [ss][1..] == [];
    assert Fold([ss], a) == Fold([], a * 60 + b);
  }

  lemma {:induction false} NoColon(s: string)
    requires AllDigits(s)
    ensures ':' !in s
  {
    forall i | 0 <= i < |s| ensures s[i] != ':' { assert IsDigit(s[i]); }
  }

  // -------------------------------------------------------------------- ratings

  /** `s.replace(c, "")`. */
  function RemoveAll(s: string, c: char): (r: string)
    ensures c !in r && |r| <= |s|
    ensures forall x | x != c :: multiset(r)[x] == multiset(s)[x]
  {
    if s == [] then []
    else
      assert s == [s[0]] + s[1..];
      (if s[0] == c then [] else [s[0]]) + RemoveAll(s[1..], c)
  }

  /** `s.rstrip(c)`: every trailing `c` goes. */
  function RStrip(s: string, c: char): (r: string)
    ensures |r| <= |s| && r == s[..|r|]
    ensures r != [] ==> r[|r| - 1] != c
    ensures forall i | |r| <= i < |s| :: s[i] == c
  {
    if s != [] && s[|s| - 1] == c then RStrip(s[..|s| - 1], c) else s
  }

  /** A rating as shown (`1,234`, `12K`) made into digits: commas go, and a trailing
      `K` becomes `000`. */
  function CleanRating(rating: string): (r: string)
    ensures ',' !in r
    ensures var s := RemoveAll(rating, ',');
      if s != [] && s[|s| - 1] == 'K' then r == RStrip(s, 'K') + "000" else r == s
  {
    var s := RemoveAll(rating, ',');
    if s != [] && s[|s| - 1] == 'K' then RStrip(s, 'K') + "000" else s
  }

  /** `12K` is twelve thousand. */
  lemma {:induction false} ThousandsRating(digits: string)
    requires digits != [] && AllDigits(digits)
    ensures ParseInt(CleanRating(digits + "K")) == Some(DigitsValue(digits) * 1000)
  {
    var s := digits + "K";
    assert RemoveAll(digits, ',') == digits by { RemoveNoOp(digits, ','); }
    RemoveAllAppend(digits, "K", ',');
    assert RemoveAll("K", ',') == "K";
    assert RStrip(s, 'K') == RStrip(digits, 'K');
    assert RStrip(digits, 'K') == digits;
    DigitsAppend(digits, "000");
    ParseDigits(digits + "000");
  }

  lemma {:induction false} RemoveNoOp(s: string, c: char)
    requires c !in s
    ensures RemoveAll(s, c) == s
  {
    if s != [] {
      assert c !in s[1..];
      RemoveNoOp(s[1..], c);
    }
  }

  lemma {:induction false} RemoveAllAppend(a: string, b: string, c: char)
    ensures RemoveAll(a + b, c) == RemoveAll(a, c) + RemoveAll(b, c)
  {
    if a != [] {
      assert (a + b)[1..] == a[1..] + b;
      RemoveAllAppend(a[1..], b, c);
    } else {
      assert a + b == b;
    }
  }

  lemma {:induction false} AppendZero(a: string)
    requires AllDigits(a)
    ensures AllDigits(a + "0") && DigitsValue(a + "0") == DigitsValue(a) * 10
  {
    assert (a + "0")[..|a|] == a;
  }

  lemma {:induction false} DigitsAppend(a: string, b: string)
    requires AllDigits(a) && b == "000"
    ensures AllDigits(a + b) && DigitsValue(a + b) == DigitsValue(a) * 1000
  {
    AppendZero(a);
    AppendZero(a + "0");
    AppendZero(a + "0" + "0");
    assert a + "0" + "0" + "0" == a + b;
  }

  // ----------------------------------------------------------------- search

  /** One row after the clean-up loop: the duration in seconds and the rating cleaned. */
  function Normalise(row: RawRow): (r: Result<Song, Failure>)
    ensures r.Ok? <==> ParseDuration(row.duration).Some?
    ensures r.Err? ==> r.error == ValueError
    ensures r.Ok? ==> r.value == Song(row.title, row.artist, ParseDuration(row.duration).value,
                                      CleanRating(row.rating), row.link)
  {
    match ParseDuration(row.duration)
    case None => Err(ValueError)
    case Some(t) => Ok(Song(row.title, row.artist, t, CleanRating(row.rating), row.link))
  }

  function NormaliseAll(rows: seq<RawRow>): (r: Result<seq<Song>, Failure>)
    ensures r.Ok? <==> forall i | 0 <= i < |rows| :: Normalise(rows[i]).Ok?
    ensures r.Ok? ==> |r.value| == |rows| && forall i | 0 <= i < |rows| :: r.value[i] == Normalise(rows[i]).value
    ensures r.Err? ==> r.error == ValueError
  {
    var r := Collect(rows, Normalise);
    assert r.Err? ==> r.error == ValueError by {
      if r.Err? {
        var i :| 0 <= i < |rows| && Normalise(rows[i]) == Err(r.error);
      }
    }
    r
  }

  /** Applies `f` to each element in order and stops at the first failure, which it
      passes on. */
  function Collect<A, B, E>(xs: seq<A>, f: A -> Result<B, E>): (r: Result<seq<B>, E>)
    ensures r.Ok? <==> forall i | 0 <= i < |xs| :: f(xs[i]).Ok?
    ensures r.Ok? ==> |r.value| == |xs| && forall i | 0 <= i < |xs| :: r.value[i] == f(xs[i]).value
    ensures r.Err? ==> exists i | 0 <= i < |xs| :: f(xs[i]) == Err(r.error) && forall j | 0 <= j < i :: f(xs[j]).Ok?
    decreases |xs|
  {
    if xs == [] then Ok([])
    else
      var first :- f(xs[0]);
      assert forall i | 1 <= i < |xs| :: xs[1..][i - 1] == xs[i];
      var rest :- Collect(xs[1..], f);
      Ok([first] + rest)
  }

  /** The number a cleaned rating denotes (only read once every rating is a number). */
  function RatingValue(s: Song): int { ParseInt(s.rating).GetOr(0) }

  /** The sort key `-int(rating)`. */
  function ByRating(s: Song): int { -RatingValue(s) }

  predicate AllRated(songs: seq<Song>) {
    forall i | 0 <= i < |songs| :: ParseInt(songs[i].rating).Some?
  }

  /** `songs.sort(key=lambda song: -int(song["rating"]))`: every key is computed, so
      one rating that is not a number fails the whole sort. */
  function Rank(songs: seq<Song>): (r: Result<seq<Song>, Failure>)
    ensures r.Err? <==> !AllRated(songs)
    ensures r.Err? ==> r.error == ValueError
    ensures r.Ok? ==>
      (|r.value| == |songs| && multiset(r.value) == multiset(songs)
       && forall i, j | 0 <= i < j < |r.value| :: RatingValue(r.value[i]) >= RatingValue(r.value[j]))
  {
    if !AllRated(songs) then Err(ValueError)
    else
      SortSorted(songs, ByRating);
      SortPermutes(songs, ByRating);
      var sorted := Sort(songs, ByRating);
      assert forall i, j | 0 <= i < j < |sorted| :: ByRating(sorted[i]) <= ByRating(sorted[j]);
      Ok(sorted)
  }

  /** Equal ratings keep their page order: the rows whose sort key `-int(rating)` is
      `k` come out of the ranking in the order they had on the page. */
  lemma {:induction false} RankIsStable(songs: seq<Song>, k: int)
    requires Rank(songs).Ok?
    ensures WithKey(Rank(songs).value, ByRating, k) == WithKey(songs, ByRating, k)
  {
    RankSorts(songs);
    SortStable(songs, ByRating, k);
  }

  lemma {:induction false} RankSorts(songs: seq<Song>)
    requires AllRated(songs)
    ensures Rank(songs) == Ok(Sort(songs, ByRating))
  {
  }

  /** How many rows the result loop keeps: it appends before testing the limit, so at
      least one row goes out whatever the limit. */
  function Taken(found: nat, limit: int): (n: nat)
    requires found >= 1
    ensures 1 <= n <= found
    ensures limit >= 1 ==> n == Min(limit, found)
  {
    if limit <= 1 then 1 else Min(limit, found)
  }

  /** The id of a row: the hex SHA-1 of its link. */
  function Id(hash: string -> string, s: Song): string { hash(s.link) }

  /** The ids of a list of songs. */
  function Ids(hash: string -> string, songs: seq<Song>): set<string> {
    set i | 0 <= i < |songs| :: Id(hash, songs[i])
  }

  /** The cache after storing each song under its id, in order: the new keys are the
      songs' ids, every other entry is untouched, and each new entry has that id. */
  function Remember(cache: Cache, songs: seq<Song>, hash: string -> string): (c: Cache)
    ensures c.Keys == cache.Keys + Ids(hash, songs)
    ensures forall k | k in cache && k !in Ids(hash, songs) :: c[k] == cache[k]
    ensures forall k | k in Ids(hash, songs) :: Id(hash, c[k]) == k
  {
    if songs == [] then cache
    else
      var n := |songs| - 1;
      var prev := Remember(cache, songs[..n], hash);
      IdsSnoc(hash, songs);
      prev[Id(hash, songs[n]) := songs[n]]
  }

  lemma {:induction false} IdsSnoc(hash: string -> string, songs: seq<Song>)
    requires songs != []
    ensures Ids(hash, songs) == Ids(hash, songs[..|songs| - 1]) + {Id(hash, songs[|songs| - 1])}
  {
    var n := |songs| - 1;
    assert forall i | 0 <= i < n :: songs[..n][i] == songs[i];
    forall k | k in Ids(hash, songs) ensures k in Ids(hash, songs[..n]) + {Id(hash, songs[n])} {
      var i :| 0 <= i < |songs| && Id(hash, songs[i]) == k;
      if i < n { assert Id(hash, songs[..n][i]) == k; }
    }
  }

  /** The position of the last song with id `k`. */
  function LastWith(hash: string -> string, songs: seq<Song>, k: string): (i: nat)
    requires k in Ids(hash, songs)
    ensures i < |songs| && Id(hash, songs[i]) == k
    ensures forall j | i < j < |songs| :: Id(hash, songs[j]) != k
    decreases |songs|
  {
    var n := |songs| - 1;
    IdsSnoc(hash, songs);
    if Id(hash, songs[n]) == k then n
    else
      var i := LastWith(hash, songs[..n], k);
      assert forall j | 0 <= j < n :: songs[..n][j] == songs[j];
      i
  }

  /** `self.cache[id] = song` overwrites: under each new id sits the last song with
      that id. */
  lemma {:induction false} RememberKeepsLast(cache: Cache, songs: seq<Song>, hash: string -> string)
    ensures var c := Remember(cache, songs, hash);
      forall k | k in Ids(hash, songs) :: c[k] == songs[LastWith(hash, songs, k)]
    decreases |songs|
  {
    if songs != [] {
      var n := |songs| - 1;
      RememberKeepsLast(cache, songs[..n], hash);
      IdsSnoc(hash, songs);
      forall k | k in Ids(hash, songs)
        ensures Remember(cache, songs, hash)[k] == songs[LastWith(hash, songs, k)]
      {
        if k != Id(hash, songs[n]) {
          assert songs[..n][LastWith(hash, songs[..n], k)] == songs[LastWith(hash, songs, k)];
        }
      }
    }
  }

  function HitOf(hash: string -> string, s: Song): Hit {
    Hit(Id(hash, s), s.artist, s.title, s.duration)
  }

  function Hits(hash: string -> string, songs: seq<Song>): (r: seq<Hit>)
    ensures |r| == |songs| && forall i | 0 <= i < |r| :: r[i] == HitOf(hash, songs[i])
  {
    if songs == [] then [] else [HitOf(hash, songs[0])] + Hits(hash, songs[1..])
  }

  /** `search(query, limit=...)` given the reply to the page request (`status`, `page`):
      the hits and the cache afterwards. A blank query asks nothing. */
  function Search(cache: Cache, query: string, status: int, page: Page, limit: int, hash: string -> string):
    (r: Result<(seq<Hit>, Cache), Failure>)
    ensures Strip(query) == [] ==> r == Ok(([], cache))
    ensures Strip(query) != [] && status != 200 ==> r == Err(Downloads.BadReturnStatus(status))
    ensures Strip(query) != [] && status == 200 ==> r == Answer(cache, Zip(page), limit, hash)
    ensures r.Err? ==> r.error.BadReturnStatus? || r.error.NothingFound? || r.error == ValueError
  {
    if Strip(query) == [] then Ok(([], cache))
    else if status != 200 then Err(Downloads.BadReturnStatus(status))
    else Answer(cache, Zip(page), limit, hash)
  }

  /** The rows of a page that came back: no rows is `NothingFound`, a bad duration or
      rating is `ValueError`, and otherwise the best-rated rows, cut to the limit,
      become the hits and go into the cache. */
  function Answer(cache: Cache, rows: seq<RawRow>, limit: int, hash: string -> string):
    (r: Result<(seq<Hit>, Cache), Failure>)
    ensures r == Err(Downloads.NothingFound) <==> rows == []
    ensures rows != [] ==> (r.Err? <==> NormaliseAll(rows).Err? || !AllRated(NormaliseAll(rows).value))
    ensures r.Err? ==> r.error.NothingFound? || r.error == ValueError
    ensures r.Ok? ==>
      var ranked := Rank(NormaliseAll(rows).value).value;
      var n := Taken(|ranked|, limit);
      r.value.0 == Hits(hash, ranked[..n]) && r.value.1 == Remember(cache, ranked[..n], hash)
  {
    var songs :- NormaliseAll(rows);
    var ranked :- Rank(songs);
    if |ranked| == 0 then Err(Downloads.NothingFound)
    else
      var n := Taken(|ranked|, limit);
      Ok((Hits(hash, ranked[..n]), Remember(cache, ranked[..n], hash)))
  }

  /** The hits come best-rated first, at most `limit` of them when the limit is
      positive, and each is in the cache under its id. */
  lemma {:induction false} SearchResults(cache: Cache, query: string, status: int, page: Page, limit: int, hash: string -> string)
    requires Search(cache, query, status, page, limit, hash).Ok?
    ensures var (hits, c) := Search(cache, query, status, page, limit, hash).value;
      (limit >= 1 ==> |hits| <= limit)
      && (Strip(query) != [] ==> |hits| >= 1)
      && forall i | 0 <= i < |hits| :: hits[i].id in c && Id(hash, c[hits[i].id]) == hits[i].id
  {
  }

  // --------------------------------------------------------------- download

  /** The user-facing text of the cache-miss error ("internal error: the requested
      song is missing from the search cache"). */
  const CacheMissMessage: string := "Внутренняя ошибка (запрошенная песня отсутствует в кэше поиска)"

  /** The checks `download(query)` makes before any request: the id must come from an
      earlier search, and the song must not be longer than `max_duration`. */
  function DownloadCheck(cache: Cache, id: string, maxDuration: int): (r: Result<Song, Failure>)
    ensures r.Ok? <==> id in cache && cache[id].duration <= maxDuration
    ensures r.Ok? ==> r.value == cache[id]
    ensures id !in cache ==> r == Err(Downloads.OtherDownloaderError(CacheMissMessage))
    ensures id in cache && cache[id].duration > maxDuration ==> r == Err(Downloads.MediaIsTooLong(cache[id].duration))
  {
    if id !in cache then Err(Downloads.OtherDownloaderError(CacheMissMessage))
    else if cache[id].duration > maxDuration then Err(Downloads.MediaIsTooLong(cache[id].duration))
    else Ok(cache[id])
  }

  /** A hit from a search is never a cache miss afterwards: downloading it either
      proceeds with a song of the same id or is refused as too long. */
  lemma {:induction false} SearchedHitsDownload(cache: Cache, query: string, status: int, page: Page, limit: int,
                             hash: string -> string, i: nat, maxDuration: int)
    requires Search(cache, query, status, page, limit, hash).Ok?
    requires i < |Search(cache, query, status, page, limit, hash).value.0|
    ensures var (hits, c) := Search(cache, query, status, page, limit, hash).value;
      var r := DownloadCheck(c, hits[i].id, maxDuration);
      (r.Ok? && Id(hash, r.value) == hits[i].id) || r.error.MediaIsTooLong?
  {
    SearchResults(cache, query, status, page, limit, hash);
  }
}
