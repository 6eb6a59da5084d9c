/** `MasterDownloader` (downloaders/MasterDownloader.py): the registry of downloaders,
    the choice of the downloader that handles a request, the mapping of downloader
    exceptions to user messages, and the trimming of the media directory. Each
    downloader is a record of its name, its acceptance tests and the outcomes of its
    `download` and `search` (network work is outside the model). */
module Downloads {
  import opened Wrappers
  import opened SeqUtil
  import opened StableSort

  /** What a downloader raises: the `DownloaderException` family (with
      `OtherDownloaderError` for the base class and its remaining subclasses) or any
      other exception, `Foreign`. */
  datatype Failure =
    | MediaIsTooLong(seconds: int)
    | MediaIsTooBig(bytes: int)
    | MediaSizeUnspecified
    | BadReturnStatus(code: int)
    | ApiError
    | UrlOrNetworkProblem
    | UrlProblem
    | NothingFound
    | OtherDownloaderError(message: string)
    | Foreign(name: string)

  /** A call to a downloader: its value, or the exception it raised. */
  datatype Attempt<T> = Succeeded(value: T) | Raised(failure: Failure)

  /** The user messages passed to the callback, by what they report. */
  datatype Message =
    | TooLong(seconds: int)
    | TooBig(bytes: int)
    | SizeUnspecified
    | Unavailable(code: int)
    | ApiUnavailable
    | NetworkProblem
    | NothingFoundMessage
    | Custom(text: string)

  /** A downloader: `get_name()`, `is_acceptable(kind, query)` for download kinds and
      for `"search"`, and what `download` and `search` return or raise. */
  datatype Downloader<-Q, R, H> = Downloader(
    name: string,
    accepts: (string, Q) -> bool,
    acceptsSearch: string -> bool,
    download: Q -> Attempt<R>,
    search: (string, int) -> Attempt<seq<H>>)

  function Names<Q, R, H>(ds: seq<Downloader<Q, R, H>>): (r: seq<string>)
    ensures |r| == |ds| && forall i | 0 <= i < |ds| :: r[i] == ds[i].name
  {
    if ds == [] then [] else [ds[0].name] + Names(ds[1..])
  }

  /** The position of a name in the registry. */
  function Find<Q, R, H>(reg: seq<Downloader<Q, R, H>>, name: string): (r: Option<nat>)
    ensures r.Some? ==> r.value < |reg| && reg[r.value].name == name
    ensures r.None? ==> forall i | 0 <= i < |reg| :: reg[i].name != name
  {
    if reg == [] then None
    else if reg[0].name == name then Some(0)
    else match Find(reg[1..], name)
      case None => None
      case Some(i) => Some(i + 1)
  }

  /** One step of `OrderedDict([(d.get_name(), d) for d in downloaders])`: a known name
      keeps its place and takes the new downloader; a new name goes last. */
  function Register<Q, R, H>(reg: seq<Downloader<Q, R, H>>, d: Downloader<Q, R, H>): (r: seq<Downloader<Q, R, H>>)
    ensures Find(reg, d.name).Some? ==>
      (|r| == |reg| && r[Find(reg, d.name).value] == d
       && forall i | 0 <= i < |reg| && i != Find(reg, d.name).value :: r[i] == reg[i])
    ensures Find(reg, d.name).None? ==> |r| == |reg| + 1 && r[..|reg|] == reg && r[|reg|] == d
  {
    match Find(reg, d.name)
    case Some(i) => reg[i := d]
    case None => reg + [d]
  }

  /** The handler table built from the constructor's list. */
  function Registry<Q, R, H>(ds: seq<Downloader<Q, R, H>>): seq<Downloader<Q, R, H>> {
    if ds == [] then [] else Register(Registry(ds[..|ds| - 1]), ds[|ds| - 1])
  }

  /** The position of the last downloader given under a name. */
  function Last<Q, R, H>(ds: seq<Downloader<Q, R, H>>, name: string): (r: Option<nat>)
    ensures r.None? <==> forall j | 0 <= j < |ds| :: ds[j].name != name
    ensures r.Some? ==>
      (r.value < |ds| && ds[r.value].name == name
       && forall k | r.value < k < |ds| :: ds[k].name != name)
  {
    if ds == [] then None
    else if ds[|ds| - 1].name == name then Some(|ds| - 1)
    else Last(ds[..|ds| - 1], name)
  }

  /** What the handler table promises about the list it was built from: each name
      once, exactly the names given, and under each name the last downloader given
      with it. */
  ghost predicate Table<Q, R, H>(reg: seq<Downloader<Q, R, H>>, ds: seq<Downloader<Q, R, H>>) {
    Distinct(Names(reg))
    && (forall n :: n in Names(reg) <==> n in Names(ds))
    && forall i | 0 <= i < |reg| :: Last(ds, reg[i].name).Some? && reg[i] == ds[Last(ds, reg[i].name).value]
  }

  lemma {:induction false} LastAppend<Q, R, H>(ds: seq<Downloader<Q, R, H>>, d: Downloader<Q, R, H>, name: string)
    ensures Last(ds + [d], name) == if name == d.name then Some(|ds|) else Last(ds, name)
  {
    assert (ds + [d])[..|ds|] == ds;
  }

  lemma {:induction false} RegisterKeepsTable<Q, R, H>(reg: seq<Downloader<Q, R, H>>, ds: seq<Downloader<Q, R, H>>, d: Downloader<Q, R, H>)
    requires Table(reg, ds)
    ensures Table(Register(reg, d), ds + [d])
  {
    match Find(reg, d.name)
    case Some(p) => ReplaceKeepsTable(reg, ds, d, p);
    case None => AppendKeepsTable(reg, ds, d);
  }

  lemma {:induction false} ReplaceKeepsTable<Q, R, H>(reg: seq<Downloader<Q, R, H>>, ds: seq<Downloader<Q, R, H>>, d: Downloader<Q, R, H>, p: nat)
    requires Table(reg, ds) && p < |reg| && reg[p].name == d.name
    ensures Table(reg[p := d], ds + [d])
  {
    ReplaceSameNames(reg, d, p);
    NamesAppend(ds, d);
    ReplaceEntries(reg, ds, d, p);
  }

  /** Replacing a downloader by one of the same name leaves the names as they were. */
  lemma {:induction false} ReplaceSameNames<Q, R, H>(reg: seq<Downloader<Q, R, H>>, d: Downloader<Q, R, H>, p: nat)
    requires p < |reg| && reg[p].name == d.name
    ensures Names(reg[p := d]) == Names(reg)
  {
  }

  lemma {:induction false} NamesAppend<Q, R, H>(ds: seq<Downloader<Q, R, H>>, d: Downloader<Q, R, H>)
    ensures Names(ds + [d]) == Names(ds) + [d.name]
  {
  }

  lemma {:induction false} ReplaceEntries<Q, R, H>(reg: seq<Downloader<Q, R, H>>, ds: seq<Downloader<Q, R, H>>, d: Downloader<Q, R, H>, p: nat)
    requires Table(reg, ds) && p < |reg| && reg[p].name == d.name
    ensures var r := reg[p := d];
      forall i | 0 <= i < |r| :: Last(ds + [d], r[i].name).Some? && r[i] == (ds + [d])[Last(ds + [d], r[i].name).value]
  {
    var r := reg[p := d];
    var ds' := ds + [d];
    forall i | 0 <= i < |r| ensures Last(ds', r[i].name).Some? && r[i] == ds'[Last(ds', r[i].name).value] {
      LastAppend(ds, d, r[i].name);
      if i != p {
        assert Names(reg)[i] != Names(reg)[p];
        assert ds'[Last(ds, reg[i].name).value] == ds[Last(ds, reg[i].name).value];
      }
    }
  }

  lemma {:induction false} AppendKeepsTable<Q, R, H>(reg: seq<Downloader<Q, R, H>>, ds: seq<Downloader<Q, R, H>>, d: Downloader<Q, R, H>)
    requires Table(reg, ds) && forall i | 0 <= i < |reg| :: reg[i].name != d.name
    ensures Table(reg + [d], ds + [d])
  {
    var r := reg + [d];
    var ds' := ds + [d];
    NamesAppend(ds, d);
    NamesAppend(reg, d);
    AppendDistinct(Names(reg), d.name);
    assert Distinct(Names(r));
    assert forall n :: n in Names(r) <==> n in Names(ds') by {
      forall n ensures n in Names(r) <==> n in Names(ds') {
        assert n in Names(r) <==> n in Names(reg) || n == d.name;
        assert n in Names(ds') <==> n in Names(ds) || n == d.name;
      }
    }
    forall i | 0 <= i < |r| ensures Last(ds', r[i].name).Some? && r[i] == ds'[Last(ds', r[i].name).value] {
      LastAppend(ds, d, r[i].name);
      if i < |reg| {
        assert r[i] == reg[i];
        assert ds'[Last(ds, reg[i].name).value] == ds[Last(ds, reg[i].name).value];
      } else {
        assert r[i] == d && ds'[|ds|] == d;
      }
    }
  }

  /** The handler table keeps the promise of `Table` for any list of downloaders. */
  lemma {:induction false} RegistryIsTable<Q, R, H>(ds: seq<Downloader<Q, R, H>>)
    ensures Table(Registry(ds), ds)
    decreases |ds|
  {
    if ds != [] {
      var init := ds[..|ds| - 1];
      assert init + [ds[|ds| - 1]] == ds;
      RegistryIsTable(init);
      RegisterKeepsTable(Registry(init), init, ds[|ds| - 1]);
    }
  }

  // ---------------------------------------------------------------- download

  /** The outcome of `thread_download`. `Reported` is the `break` after a callback
      message, which returns `None`. */
  datatype DownloadOutcome<R> =
    | Done(result: R, deleted: seq<StoredFile>)
    | Reported(message: Message)
    | NotAccepted
    | Reraised(failure: Failure)
    | KeyError

  /** The callback message for an exception `thread_download` recognises; other
      exceptions are re-raised. */
  function DownloadMessage(f: Failure): (m: Option<Message>)
    ensures m.None? <==> f.Foreign?
    ensures f.OtherDownloaderError? ==> m == Some(Custom(f.message))
    ensures f.MediaIsTooLong? ==> m == Some(TooLong(f.seconds))
    ensures f.BadReturnStatus? ==> m == Some(Unavailable(f.code))
    ensures f.MediaIsTooBig? ==> m == Some(TooBig(f.bytes))
    ensures f.MediaSizeUnspecified? ==> m == Some(SizeUnspecified)
    ensures f.ApiError? ==> m == Some(ApiUnavailable)
    ensures f.UrlOrNetworkProblem? || f.UrlProblem? ==> m == Some(NetworkProblem)
    ensures f.NothingFound? ==> m == Some(NothingFoundMessage)
  {
    match f
    case MediaIsTooLong(s) => Some(TooLong(s))
    case MediaIsTooBig(b) => Some(TooBig(b))
    case MediaSizeUnspecified => Some(SizeUnspecified)
    case BadReturnStatus(c) => Some(Unavailable(c))
    case ApiError => Some(ApiUnavailable)
    case UrlOrNetworkProblem => Some(NetworkProblem)
    case UrlProblem => Some(NetworkProblem)
    case NothingFound => Some(NothingFoundMessage)
    case OtherDownloaderError(text) => Some(Custom(text))
    case Foreign(_) => None
  }

  /** The first handler whose acceptance test holds. */
  function FirstAccepting<Q, R, H>(hs: seq<Downloader<Q, R, H>>, kind: string, query: Q): (r: Option<nat>)
    ensures r.None? <==> forall i | 0 <= i < |hs| :: !hs[i].accepts(kind, query)
    ensures r.Some? ==>
      (r.value < |hs| && hs[r.value].accepts(kind, query)
       && forall j | 0 <= j < r.value :: !hs[j].accepts(kind, query))
  {
    if hs == [] then None
    else if hs[0].accepts(kind, query) then Some(0)
    else match FirstAccepting(hs[1..], kind, query)
      case None => None
      case Some(i) => Some(i + 1)
  }

  /** The `for handler_name in handlers` loop: the first accepting downloader's result,
      or its single message, or its foreign exception; nobody after it is asked. */
  function TryHandlers<Q, R, H>(hs: seq<Downloader<Q, R, H>>, kind: string, query: Q,
                                files: seq<StoredFile>, storageLimit: int): (r: DownloadOutcome<R>)
    ensures FirstAccepting(hs, kind, query).None? <==> r.NotAccepted?
    ensures FirstAccepting(hs, kind, query).Some? ==>
      var d := hs[FirstAccepting(hs, kind, query).value];
      match d.download(query)
      case Succeeded(v) => r == Done(v, FilterStorage(files, storageLimit))
      case Raised(f) => if f.Foreign? then r == Reraised(f) else r == Reported(DownloadMessage(f).value)
  {
    if hs == [] then NotAccepted
    else if !hs[0].accepts(kind, query) then TryHandlers(hs[1..], kind, query, files, storageLimit)
    else match hs[0].download(query)
      case Succeeded(v) => Done(v, FilterStorage(files, storageLimit))
      case Raised(f) => if f.Foreign? then Reraised(f) else Reported(DownloadMessage(f).value)
  }

  /** `thread_download(kind, query, callback)`. `pinned` is `query["downloader"]`,
      read only for a search result; `files` is the media directory after the
      download. */
  function ThreadDownload<Q, R, H>(reg: seq<Downloader<Q, R, H>>, kind: string, query: Q, pinned: Option<string>,
                                   files: seq<StoredFile>, storageLimit: int): (r: DownloadOutcome<R>)
    ensures kind == "search_result" ==>
      (r.KeyError? <==> pinned.None? || Find(reg, pinned.value).None?)
    ensures kind == "search_result" && !r.KeyError? ==>
      r == TryHandlers([reg[Find(reg, pinned.value).value]], kind, query, files, storageLimit)
    ensures kind != "search_result" ==> r == TryHandlers(reg, kind, query, files, storageLimit)
  {
    if kind == "search_result" then
      if pinned.None? then KeyError
      else match Find(reg, pinned.value)
        case None => KeyError
        case Some(i) => TryHandlers([reg[i]], kind, query, files, storageLimit)
    else TryHandlers(reg, kind, query, files, storageLimit)
  }

  /** A search result goes to the downloader that produced it and to no other, even
      when an earlier one would accept it. */
  lemma {:induction false} SearchResultIsPinned<Q, R, H>(reg: seq<Downloader<Q, R, H>>, query: Q, name: string,
                                      files: seq<StoredFile>, storageLimit: int)
    requires Find(reg, name).Some?
    ensures var d := reg[Find(reg, name).value];
      var r := ThreadDownload(reg, "search_result", query, Some(name), files, storageLimit);
      (r.NotAccepted? <==> !d.accepts("search_result", query))
      && (d.accepts("search_result", query) && d.download(query).Succeeded? ==>
          r == Done(d.download(query).value, FilterStorage(files, storageLimit)))
  {
    var d := reg[Find(reg, name).value];
    assert FirstAccepting([d], "search_result", query) == if d.accepts("search_result", query) then Some(0) else None;
  }

  // ------------------------------------------------------------------ search

  /** A search row tagged with the downloader that found it (`r["downloader"]`). */
  datatype Tagged<H> = Tagged(row: H, downloader: string)

  /** The outcome of `thread_search`, with the messages sent on the way. */
  datatype SearchOutcome<H> =
    | Results(rows: seq<Tagged<H>>, messages: seq<Message>)
    | NoResult(messages: seq<Message>)
    | SearchReraised(failure: Failure, messages: seq<Message>)

  /** Search failures that report and move on to the next downloader. */
  predicate FallsThrough(f: Failure) {
    f.BadReturnStatus? || f.ApiError? || f.UrlOrNetworkProblem? || f.UrlProblem?
  }

  /** Python's `xs[0:stop]` for any integer `stop`: a negative stop counts from the end. */
  function SliceTo<T>(xs: seq<T>, stop: int): (r: seq<T>)
    ensures 0 <= stop ==> r == xs[..if stop < |xs| then stop else |xs|]
    ensures stop < 0 ==> r == xs[..if |xs| + stop > 0 then |xs| + stop else 0]
  {
    if stop >= 0 then xs[..if stop < |xs| then stop else |xs|]
    else xs[..if |xs| + stop > 0 then |xs| + stop else 0]
  }

  /** Python's `xs[start:]` for any integer `start`. */
  function SliceFrom<T>(xs: seq<T>, start: int): (r: seq<T>)
    ensures 0 <= start ==> r == xs[if start < |xs| then start else |xs|..]
    ensures start < 0 ==> r == xs[if |xs| + start > 0 then |xs| + start else 0..]
  {
    if start >= 0 then xs[if start < |xs| then start else |xs|..]
    else xs[if |xs| + start > 0 then |xs| + start else 0..]
  }

  function Tag<H>(rows: seq<H>, name: string): (r: seq<Tagged<H>>)
    ensures |r| == |rows| && forall i | 0 <= i < |r| :: r[i] == Tagged(rows[i], name)
  {
    if rows == [] then [] else [Tagged(rows[0], name)] + Tag(rows[1..], name)
  }

  function Prepend<H>(m: Message, o: SearchOutcome<H>): (r: SearchOutcome<H>)
    ensures r.Results? == o.Results? && r.NoResult? == o.NoResult? && r.SearchReraised? == o.SearchReraised?
    ensures r.messages == [m] + o.messages
    ensures r.Results? ==> r.rows == o.rows
    ensures r.SearchReraised? ==> r.failure == o.failure
  {
    match o
    case Results(rows, ms) => Results(rows, [m] + ms)
    case NoResult(ms) => NoResult([m] + ms)
    case SearchReraised(f, ms) => SearchReraised(f, [m] + ms)
  }

  /** `thread_search(query, callback, limit)`: downloaders are asked in order; a
      transport failure reports and falls through, `NothingFound` ends with no rows,
      any other exception is re-raised, and the first success is cut to
      `search_max_results` and tagged. Running off the end returns `None`. */
  function ThreadSearch<Q, R, H>(reg: seq<Downloader<Q, R, H>>, query: string, limit: int, resultsLimit: int):
    (r: SearchOutcome<H>)
    ensures forall i | 0 <= i < |r.messages| :: r.messages[i].Unavailable? || r.messages[i].ApiUnavailable? || r.messages[i].NetworkProblem?
    ensures r.NoResult? ==> forall i | 0 <= i < |reg| :: reg[i].acceptsSearch(query) ==>
      reg[i].search(query, limit).Raised? && FallsThrough(reg[i].search(query, limit).failure)
    ensures r.Results? && resultsLimit >= 0 ==> |r.rows| <= resultsLimit
    decreases |reg|
  {
    if reg == [] then NoResult([])
    else
      var d := reg[0];
      var rest := ThreadSearch(reg[1..], query, limit, resultsLimit);
      assert forall i | 1 <= i < |reg| :: reg[i] == reg[1..][i - 1];
      if !d.acceptsSearch(query) then rest
      else match d.search(query, limit)
        case Succeeded(rows) =>
          var cut := if resultsLimit < |rows| then resultsLimit else |rows|;
          Results(Tag(SliceTo(rows, cut), d.name), [])
        case Raised(f) =>
          if f.BadReturnStatus? then Prepend(Unavailable(f.code), rest)
          else if f.ApiError? then Prepend(ApiUnavailable, rest)
          else if f.UrlOrNetworkProblem? || f.UrlProblem? then Prepend(NetworkProblem, rest)
          else if f.NothingFound? then Results([], [])
          else SearchReraised(f, [])
  }

  /** How many of the downloaders accept a search query. */
  function CountAccepting<Q, R, H>(hs: seq<Downloader<Q, R, H>>, query: string): (n: nat)
    ensures n <= |hs|
  {
    if hs == [] then 0
    else (if hs[0].acceptsSearch(query) then 1 else 0) + CountAccepting(hs[1..], query)
  }

  /** The first downloader that accepts a search and succeeds answers it; every
      accepting downloader before it failed in a way that falls through, and each of
      them sent exactly one message. */
  lemma {:induction false} SearchFallsThrough<Q, R, H>(reg: seq<Downloader<Q, R, H>>, query: string, limit: int,
                                                       resultsLimit: int, i: nat)
    requires i < |reg| && reg[i].acceptsSearch(query) && reg[i].search(query, limit).Succeeded?
    requires forall j | 0 <= j < i :: reg[j].acceptsSearch(query) ==>
      reg[j].search(query, limit).Raised? && FallsThrough(reg[j].search(query, limit).failure)
    ensures var r := ThreadSearch(reg, query, limit, resultsLimit);
      r.Results? && r.rows == Tag(SliceTo(reg[i].search(query, limit).value, resultsLimit), reg[i].name)
      && |r.messages| == CountAccepting(reg[..i], query)
    decreases i
  {
    var d := reg[0];
    if i == 0 {
      var rows := d.search(query, limit).value;
      var cut := if resultsLimit < |rows| then resultsLimit else |rows|;
      assert SliceTo(rows, cut) == SliceTo(rows, resultsLimit);
    } else {
      var tail := reg[1..];
      assert tail[i - 1] == reg[i];
      assert forall j | 0 <= j < i - 1 :: tail[j] == reg[j + 1];
      SearchFallsThrough(tail, query, limit, resultsLimit, i - 1);
      SkipFailing(reg, query, limit, resultsLimit);
      CountStep(reg, query, i);
    }
  }

  /** A first downloader that declines or falls through leaves the rest's answer as
      it is, with one more message when it had accepted. */
  lemma {:induction false} SkipFailing<Q, R, H>(reg: seq<Downloader<Q, R, H>>, query: string, limit: int, resultsLimit: int)
    requires reg != []
    requires reg[0].acceptsSearch(query) ==>
      reg[0].search(query, limit).Raised? && FallsThrough(reg[0].search(query, limit).failure)
    ensures var r := ThreadSearch(reg, query, limit, resultsLimit);
      var rest := ThreadSearch(reg[1..], query, limit, resultsLimit);
      r.Results? == rest.Results? && (r.Results? ==> r.rows == rest.rows)
      && |r.messages| == (if reg[0].acceptsSearch(query) then 1 else 0) + |rest.messages|
  {
  }

  lemma {:induction false} CountStep<Q, R, H>(reg: seq<Downloader<Q, R, H>>, query: string, i: nat)
    requires 0 < i <= |reg|
    ensures CountAccepting(reg[..i], query)
      == (if reg[0].acceptsSearch(query) then 1 else 0) + CountAccepting(reg[1..][..i - 1], query)
  {
    assert reg[..i][1..] == reg[1..][..i - 1];
  }

  // ----------------------------------------------------------------- storage

  /** A file of the media directory and its modification time. */
  datatype StoredFile = StoredFile(path: string, mtime: int)

  function NewestFirst(f: StoredFile): int { -f.mtime }

  /** `_filter_storage()`: the files deleted once the directory holds more than
      `files_storage_limit` files; newest first, so the oldest go. */
  function FilterStorage(files: seq<StoredFile>, limit: int): (deleted: seq<StoredFile>)
    ensures |files| <= limit ==> deleted == []
    ensures |files| > limit ==> deleted == SliceFrom(Sort(files, NewestFirst), limit)
  {
    if |files| <= limit then [] else SliceFrom(Sort(files, NewestFirst), limit)
  }

  /** With a non-negative limit, exactly `limit` files stay, no kept file is older than
      a deleted one, and kept and deleted files together are the directory. */
  lemma {:induction false} FilterStorageKeepsNewest(files: seq<StoredFile>, limit: nat)
    requires |files| > limit
    ensures var sorted := Sort(files, NewestFirst);
      var deleted := FilterStorage(files, limit);
      var kept := sorted[..limit];
      |deleted| == |files| - limit
      && multiset(kept) + multiset(deleted) == multiset(files)
      && forall k, d | 0 <= k < |kept| && 0 <= d < |deleted| :: kept[k].mtime >= deleted[d].mtime
  {
    var sorted := Sort(files, NewestFirst);
    SortSorted(files, NewestFirst);
    SortPermutes(files, NewestFirst);
    assert sorted == sorted[..limit] + sorted[limit..];
    forall k, d | 0 <= k < limit && 0 <= d < |sorted| - limit
      ensures sorted[..limit][k].mtime >= sorted[limit..][d].mtime
    {
      assert NewestFirst(sorted[k]) <= NewestFirst(sorted[limit + d]);
    }
  }
}
