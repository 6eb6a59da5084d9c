# tg_dj core in Dafny

A Dafny model of the logic at the heart of tg_dj, a collaborative DJ. Users queue tracks, and a round-robin queue decides what plays. A fallback backlog fills the silence. A status web page follows the current track over a WebSocket.

Each component becomes one module of immutable records and total functions. The contracts state what the Python and JavaScript promise.

- `Wson` (wson.dfy) is the browser message dispatcher `WSON` (web/static/wson.js). It holds handler and pending-request tables keyed by message name, the outbox, and dispatch of parsed frames key by key.
- `Page` (page.dfy) is the status page glue (web/static/socket.js). It makes two subscriptions and arms a one-shot liveness check on an abstract clock.
- `WebServer` (web_server.dfy) is the server half (web/server.py). It covers the `ws_clients` registry, single-key envelopes, broadcasts and the keep-alive coroutine, driven by a sequence of events.
- `PlayQueue` (queue.dfy) and `RoundRobin` (round_robin.dfy) are `QueueManager` (core/QueueManager.py).
  - They cover playlists, the user queue, the backlog and its recycling.
  - They define the round-robin listing and the global position that indexes it.
- `TrackVotes` (votes.dfy) holds the votes of `QueueManager`: `vote_up`, `vote_down` and the search by id through `get_all_tracks`.
- `Songs` (songs.dfy) is the `Song` record (core/models.py): the id counter, the dictionary round trip, `full_title` and the hater list.
- `Playback` (playback.dfy) holds the playback rules of `Core` (core/Core.py): the rating test and the skip loop with notices of `play_next_track`.
- `CorePolicy` (core_policy.dfy) holds the other rules of `Core`:
  - `get_user` and the permission checks;
  - `vote_song`;
  - the request quota of `download_action`.
- `Downloads` (master_downloader.dfy) is `MasterDownloader`: the handler table, `thread_download`, `thread_search` and `_filter_storage`.
- `HtmlSearch` (html_search.dfy) covers the HTML downloader's search-page processing and the cache checks of `download`.
- `Localization` (localization.dfy) covers the `.loc` parser, `EnLanguage.render`, `TemplateValue.__call__` and the loading of a directory of scopes (core/JinjaEnvironmentManager.py).
- `Captions` (captions.dfy) covers `make_caption` (utils.py) and the template filters `f_format_duration` and `f_make_caption` (frontend/jinja_env.py, core/JinjaEnvironmentManager.py).
- `ConfigEnv` (config_env.dfy) covers `read_config_and_environment` (run.py), including the interpolation syntax check that `ConfigParser.set` applies to each value.
- Support modules:
  - `Wrappers`: `Option` and `Result`.
  - `SeqUtil`: `list.index`, `list.remove` and duplicate-freedom.
  - `Decimal`: `str(int)`, `int(str)` and `str.strip`, with Python's whitespace sets.
  - `JsonValue`: JSON values as JavaScript reads them.
  - `StableSort`: Python's stable `sort(key=...)`.

Python exceptions become `Err` values of a `Result`. A JavaScript value that may be absent is an `Option`. Calls into code outside the core become parameters:
- `os.path.isfile` is a predicate.
- `random.randrange` draws are given as numbers.
- The SHA-1 of a link is an abstract function.
- Downloader outcomes and the clock are parameters.

Python's `%`, `//` and `divmod` by a positive divisor round toward negative infinity. For those operands they agree with Dafny's Euclidean `%` and `/`, which the model uses directly.

## Model

| member | source | states |
|---|---|---|
| Wson.On | web/static/wson.js:39-41 | `on(msg, h)` makes `h` the single handler for `msg`; handlers of other names, pending requests and the outbox are unchanged |
| Wson.Off | web/static/wson.js:42-44 | `off(msg)` deletes only the handler for `msg`; the remaining handlers keep their callbacks and nothing else changes |
| Wson.OffUndoesOn | web/static/wson.js:39-44 | `off` after `on` for a name that had no handler restores the client exactly |
| Wson.SetOnOpen | web/static/wson.js:32-34 | `onopen(h)` replaces the one open callback; nothing else changes |
| Wson.SetOnClose | web/static/wson.js:35-37 | `onclose(h)` replaces the one close callback; nothing else changes |
| Wson.LifecycleCallbacksReplace | web/static/wson.js:32-37 | setting a lifecycle callback twice keeps only the second, so there is no list of callbacks |
| Wson.OrEmpty | web/static/wson.js:57 | `data \|\| {}` is never falsy and keeps any truthy value |
| Wson.Send | web/static/wson.js:56-61 | `send` appends exactly one frame: a single-key object `{msg: data}`, with a falsy `data` replaced by `{}`. Everything sent before stays, and the tables are untouched |
| Wson.Fetch | web/static/wson.js:46-54 | `fetch` stores its resolver under `msg` and overwrites any earlier one, then sends `{msg: args or {}}`; the handlers are untouched |
| Wson.FirstPayload | web/static/wson.js:17-20 | a name of the frame has a payload exactly when it is among the frame's keys |
| Wson.Dispatch | web/static/wson.js:19-29 | after one frame the pending requests are those the frame did not name, with their resolvers. Every resolution is of a pending request, with that name's payload. Every pending request the frame names is resolved, once |
| Wson.DispatchInvokesHandlers | web/static/wson.js:19-23 | the handler invocations of a frame are one per key that has a handler, in key order, with the key's payload, whatever requests are pending |
| Wson.DispatchIgnoresUnknownNames | web/static/wson.js:19-29 | keys with neither a handler nor a pending request cause no invocation and change nothing |
| Wson.Reach | web/static/wson.js:19-23 | the loop finishes exactly the keys before the first one whose handler throws on its payload, or every key if none does |
| Wson.OnMessage | web/static/wson.js:12-30 | a malformed frame throws before any dispatch and changes nothing. A parsed frame changes only the pending requests: it drops the names of the keys before the first throwing handler, or all its names if none throws. It throws exactly when some key's handler throws, and the throwing invocation is its last call. A frame of unknown names is inert |
| Wson.QuietFrameIsDispatch | web/static/wson.js:19-29 | when no handler throws, a frame is exactly the key-by-key dispatch of all its keys |
| Wson.ThrowKeepsLaterRequests | web/static/wson.js:21-27 | a throwing handler leaves the request of its own key, and of later keys not named before it, pending with its resolver, and none of them is resolved |
| Wson.Receive | web/static/wson.js:12-30 | over any sequence of frames, whichever handlers throw, handlers and outbox stay and pending requests only shrink. Each resolution is of a request that was pending, and no name is resolved twice |
| Wson.DeliveredRequestsGone | web/static/wson.js:25-28 | a request resolved by a frame is no longer pending afterwards |
| Wson.ResolvedRequestIsDeleted | web/static/wson.js:25-28 | after a frame dispatched key `n`, no later frame resolves `n` again (until a new `fetch`) |
| Wson.SecondFetchOrphansFirst | web/static/wson.js:46-53 | after two `fetch` calls for one name, the first promise is never resolved by any frames |
| Wson.MalformedFrameIsInert | web/static/wson.js:15-17 | a frame `JSON.parse` rejects makes no difference to what follows |
| JsonValue.Get | web/static/wson.js:22 | a property read is `undefined` on a non-object and for an absent key |
| JsonValue.GetUnshadowed | web/static/wson.js:16-22 | a key's last binding is what a read finds |
| JsonValue.Envelope | web/server.py:58 | the single-key envelope `{name: payload}` has one field, and reading `name` gives the payload |
| Page.Load | web/static/socket.js:4-27 | after load the page has exactly the `update` and `keep_alive` subscriptions, no pending request and nothing sent. `last_keep_alive` is the load time and the check is armed but has not run |
| Page.ToNumber | web/static/socket.js:19 | `undefined` converts to NaN and a number to itself |
| Page.GreaterThan | web/static/socket.js:19 | `a > b` holds only when `a` converts to a number greater than `b` |
| Page.LivenessCheck | web/static/socket.js:17-24 | the check never reloads: `.minute` of a number is `undefined`, `undefined > 3` is false, so it logs whatever the delay and the `.minute > 3` reload branch is never taken |
| Page.OnUpdate | web/static/socket.js:7-10 | `on_update(data)` sets title and duration to `data.title` and `data.duration`, and every other field keeps its value; it throws on `null` or `undefined` |
| Page.OnKeepAlive | web/static/socket.js:12-14 | `on_keep_alive` sets `last_keep_alive` to the clock and changes nothing else |
| Page.RunCalls | web/static/socket.js:7-14 | running handlers never changes the client, the load time or the check's state |
| Page.Step | web/static/socket.js:17-24 | a tick changes nothing but the check. The check runs once, at the first tick 60000 ms after load, and appends its effect |
| Page.ArriveKeepsSubscriptions | web/static/socket.js:26-27 | frames never change the page's subscriptions |
| Page.OtherMessagesInvokeNothing | web/static/socket.js:26-27 | `progress` and `stop_playback` frames leave the page exactly as it was |
| Page.KeepAliveFrameStamps | web/static/socket.js:12-14 | a `keep_alive` frame only stamps `last_keep_alive` with the arrival time |
| Page.UpdateFrameCopiesTrack | web/static/socket.js:7-10 | an `update` frame copies the payload's title and duration into the page |
| Page.NullUpdateAbortsFrame | web/static/socket.js:7-10 | an `update` with a `null` payload throws inside `onmessage`, so a `keep_alive` later in the same frame is never run and the page is unchanged |
| Page.CheckRunsOnceAndNeverReloads | web/static/socket.js:17-24 | over any events, the check has run exactly when some tick reached 60000 ms after load. It ran at most once and only logged |
| Page.PageNeverReloads | web/static/socket.js:19-20 | from page load on, no sequence of events ever reloads the page |
| WebServer.LateKeepAlives | web/server.py:52-55 | counts the `keep_alive` sends attempted after close; never more than the sends |
| WebServer.OnClose | web/server.py:44-50 | `on_close` clears `active` and removes the connection from `ws_clients`, ignoring its absence |
| WebServer.OnCloseTwiceIsHarmless | web/server.py:44-50 | a second `on_close` changes nothing more |
| WebServer.Send | web/server.py:57-63 | `send` writes exactly one envelope `{msg: data}` to a writable connection and changes no other connection. On a closed transport it writes nothing and runs `on_close` instead, which drops the client from the registry |
| WebServer.CurrentStateAsWritten | web/server.py:223-228 | with the imported record class, the state is the track's dictionary and the progress; with no track there is none (`to_dict` raises). The server imports the older record class at line 21, and its `to_dict` (brain/models.py, lines 54-63) has no branch for no track |
| WebServer.OpenWithoutTrackRaises | web/server.py:36-42 | with nothing playing, a page connecting to the server as written is registered but gets neither `update` nor `progress`, where the corrected `open` sends both |
| WebServer.CurrentState | web/server.py:223-228 | the corrected state: the track's dictionary, or the placeholder dictionary with title "" and duration 1 when nothing plays; the progress passes through. The placeholder is the one in core/models.py, lines 71-80 |
| WebServer.Connect | web/server.py:27-42 | with the corrected `get_current_state`, a new handler starts its keep-alive coroutine and is active. It is appended to `ws_clients`, then sent `update` and `progress` in that order, and no other connection changes |
| WebServer.ConnectAsWritten | web/server.py:27-42 | as written, a new handler is started, active and appended to `ws_clients` whatever plays. With a track it is sent `update` and `progress`; with none, `open` raises before either send and nothing is sent |
| WebServer.Disconnect | web/server.py:44-50 | a closed transport leaves the connection unwritable, inactive and out of the registry |
| WebServer.Step | web/server.py:27-63 | an open of a known connection, and a close, a lost transport or a wake-up of an unknown one, changes nothing |
| WebServer.Break | web/server.py:59-63 | a transport that breaks without notice leaves the registry as it is until the next write fails |
| WebServer.WakeKeepAlive | web/server.py:52-55 | on waking, the coroutine sends `keep_alive {}` whatever `active` says, then sleeps again exactly when still active |
| WebServer.BroadcastFrom | web/server.py:236-242 | a broadcast keeps the set of connections and only ever removes clients from the registry |
| WebServer.UpdateState | web/server.py:230-242 | a track broadcasts `update` with the track's dictionary; no track broadcasts `stop_playback` with `{}` |
| WebServer.BroadcastReachesEveryone | web/server.py:236-242 | when every registered client is writable, a broadcast writes exactly one envelope to each client and nothing to anyone else |
| WebServer.BroadcastSkipsNextAfterFailure | web/server.py:236-242 | with clients 1, 2, 3 and client 1 unwritable, client 2 gets nothing from that broadcast and client 3 gets the update, because the iterated list shrank |
| WebServer.FailingHeadDropsOut | web/server.py:236-238 | a failing first client leaves the list, and the loop continues at position 1. The failed write runs `on_close` from `send` |
| WebServer.LastOfTwoReceives | web/server.py:237-238 | at position 1 of two clients, only the second is written to |
| WebServer.SendValid | web/server.py:44-63 | a send keeps the registry equal to the set of active connections, without duplicates. It adds a late keep-alive only for a `keep_alive` sent on an inactive connection |
| WebServer.StepValid | web/server.py:27-63 | every event keeps the registry equal to the active connections, without duplicates, and keeps the keep-alive discipline |
| WebServer.BroadcastValid | web/server.py:236-242 | broadcasts keep the server valid |
| WebServer.Run | web/server.py:27-63 | any interleaving of opens, closes, broken transports, wake-ups and track changes keeps the server valid |
| WebServer.AtMostOneKeepAliveAfterClose | web/server.py:52-55 | the coroutine attempts at most one `keep_alive` after its connection closed, and then it has returned |
| PlayQueue.Init | core/QueueManager.py:33-39 | a new manager has only the empty admin playlist (-1) and an empty queue, and is valid |
| PlayQueue.Listed | core/QueueManager.py:208 | the users iterated are the queued users that have a playlist, which in a valid manager is the queue itself |
| PlayQueue.GetQueueTracks | core/QueueManager.py:206-225 | the result is the round-robin listing from `offset`, entry for entry. It has all the remaining entries for limit 0, and exactly the smaller of `limit` and the number remaining otherwise |
| PlayQueue.GetQueueTracksPages | core/QueueManager.py:206-225 | a page of `limit` tracks followed by the listing after it is the listing from `offset` |
| PlayQueue.AddTrack | core/QueueManager.py:118-127 | a fresh track with id `counter + 1` goes to the end of its owner's playlist, which is created if absent. The queue, the backlog and the other playlists are unchanged, and validity is kept |
| PlayQueue.FindIn | core/QueueManager.py:172-174 | the first track of a playlist with the id, or none has it |
| PlayQueue.Locate | core/QueueManager.py:170-175 | the first listed user whose playlist holds the id, with no earlier user holding it, and the first position of the id in that playlist; or no listed user holds it |
| PlayQueue.GetTrack | core/QueueManager.py:169-175 | `get_track` returns the first track with the id, in queue order and then playlist order, among the queued users' playlists; or no queued user has one |
| PlayQueue.Position | core/QueueManager.py:183-190 | `loc` is the 1-based place of the track in its owner's playlist, and `glob` is its 1-based place in the round-robin listing |
| PlayQueue.InListing | core/QueueManager.py:187-188 | the sum-of-minimums formula of `glob` points at the track in the listing |
| PlayQueue.ListedIsQueue | core/QueueManager.py:208 | in a well-formed queue, the listing is built over the whole queue |
| PlayQueue.GetTrackPosition | core/QueueManager.py:177-190 | `(None, None)` for no track; `ValueError` when the owner is not queued or the track is not in their playlist. Otherwise `loc` and `glob` index the playlist and the round-robin listing at that track |
| PlayQueue.GetTrackOwner | core/QueueManager.py:169-175 | a track `get_track` finds is in its owner's playlist, and the owner is queued |
| PlayQueue.RemoveTrack | core/QueueManager.py:129-141 | `remove_track` takes the track's first occurrence out of its owner's playlist. The owner leaves the queue if that empties it, and the global position from before the removal is returned. An unknown id changes nothing and gives `None` |
| PlayQueue.RemoveTrackValid | core/QueueManager.py:129-141 | removing a track keeps the manager valid |
| PlayQueue.RemovedQueueOk | core/QueueManager.py:135-137 | the queue after a removal still lists distinct users with non-empty playlists |
| PlayQueue.MoveToFront | core/QueueManager.py:148-149 | remove-then-insert-at-0 puts the track first and permutes the playlist |
| PlayQueue.RaiseTrack | core/QueueManager.py:143-151 | `raise_track` moves the track to the front of its owner's playlist and changes nothing else. An unknown id raises `AttributeError`, because the owner is read before the `None` test |
| PlayQueue.RaiseTrackValid | core/QueueManager.py:143-151 | raising a track keeps the manager valid |
| PlayQueue.PlayNext | core/QueueManager.py:153-167 | `play_next` puts the track in front of its owner's playlist and the owner in front of the queue, and returns the new playlist length. A missing playlist raises `KeyError` |
| PlayQueue.PlayNextHeadsListing | core/QueueManager.py:153-167 | after `play_next` the manager is valid and the track heads the round-robin listing |
| PlayQueue.FirstNonEmpty | core/QueueManager.py:231-234 | the first queued user with a track, or every queued playlist is empty |
| PlayQueue.Recycle | core/QueueManager.py:259-261 | once the backlog is no longer than the played list, the drawn played song goes back to the end of the backlog; songs are conserved |
| PlayQueue.FromBacklog | core/QueueManager.py:248-264 | songs with missing media are dropped from the front of the backlog. The first playable song is taken, or `None` exactly when no backlog song is playable, in which case the backlog is emptied |
| PlayQueue.FromBacklogRecycles | core/QueueManager.py:255-261 | a drawn song is appended to `backlog_played`, and the backlog after it and that list are recycled as `Recycle` does with the `randrange` draw |
| PlayQueue.FromBacklogConserves | core/QueueManager.py:248-264 | backlog, played list and dropped songs together are the songs of backlog and played list before |
| PlayQueue.FromBacklogSkips | core/QueueManager.py:251-254 | a backlog head with missing media is dropped and the loop continues |
| PlayQueue.PopFirstTrack | core/QueueManager.py:227-266 | from a non-empty queue it takes the head track of the first queued user. That user goes to the back of the queue, or leaves it when their playlist is now empty, missing media is flagged, and nothing but the playlists and the queue changes. From an empty queue it draws the first backlog song whose file exists, every song before it having no file, and changes only the backlog and `backlog_played`, which become the recycled lists of the rest of the backlog and the played list plus the drawn song; `None` means no backlog song is playable, the backlog is then empty and `backlog_played` unchanged |
| PlayQueue.PopBacklog | core/QueueManager.py:248-266 | with no queued user, only the backlog and the played list change. `None` comes exactly when no backlog song has its media file, and then the backlog is empty. Otherwise the first song with its media file is taken, and the rest of the backlog with the played list plus that song is recycled |
| PlayQueue.PopFirstTrackValid | core/QueueManager.py:231-238 | a pop keeps the manager valid |
| PlayQueue.PopTakesListingHead | core/QueueManager.py:206-246 | the queue track `pop_first_track` takes is the first entry of `get_queue_tracks()` |
| PlayQueue.GetFirstTrack | core/QueueManager.py:268-275 | the head of the first queued user's playlist, else the backlog head, else `None` |
| PlayQueue.PopPlaysFirstTrack | core/QueueManager.py:227-275 | when its media exists, the track `get_first_track` announces is the one `pop_first_track` plays |
| PlayQueue.BacklogConserved | core/QueueManager.py:248-266 | with no queued user, backlog plus played list are conserved except for songs dropped for missing media, and `None` leaves the backlog empty |
| PlayQueue.AddToQueue | core/QueueManager.py:291-302 | a queued user keeps its place and gets its 0-based index. A new user with tracks is appended and gets the new length, which is its 1-based place. An empty playlist gives `None`, a missing one `KeyError`, and the queue never gains a duplicate |
| PlayQueue.RemoveFromQueue | core/QueueManager.py:304-312 | the user's 0-based index, and the user leaves the queue; an absent user gives `None` and changes nothing |
| PlayQueue.AddThenRemoveRestores | core/QueueManager.py:291-312 | joining then leaving restores the manager, and the reported index is the reported position minus one |
| PlayQueue.RaiseUserInQueue | core/QueueManager.py:314-320 | a queued user moves to the front with the rest in order; anyone else changes nothing. The queue is permuted and validity kept |
| TrackVotes.UpdateAt | core/QueueManager.py:324-342 | the found track is replaced in place and nothing else changes |
| TrackVotes.AllTracks | core/QueueManager.py:192-196 | `get_all_tracks()` holds exactly the tracks of the listed playlists |
| TrackVotes.FindAnywhere | core/QueueManager.py:192-196 | `next(...)` over `get_all_tracks()` finds the first track with the id, in the playlists' insertion order and then playlist order; or no playlist has one |
| TrackVotes.VoteDown | core/QueueManager.py:334-342 | the voter joins the found track's haters, at most once; an unknown id changes nothing |
| TrackVotes.VoteUp | core/QueueManager.py:324-332 | the voter's entry leaves the found track's haters, and with distinct haters the voter is gone. An unknown id changes nothing |
| TrackVotes.VoteDownThenUpRestores | core/QueueManager.py:324-342 | a down vote then an up vote by a voter who was not a hater leaves the manager as it was |
| TrackVotes.SetTrackTwice | core/QueueManager.py:324-342 | writing a track and then the old one back restores the manager |
| TrackVotes.HatersKeepFind | core/QueueManager.py:326-328 | changing haters does not move the track the id search finds |
| TrackVotes.VotesKeepValid | core/QueueManager.py:324-342 | both votes keep the manager valid |
| TrackVotes.LocateIgnoresHaters | core/QueueManager.py:170-175 | `get_track` depends only on the ids of the tracks |
| RoundRobin.Longest | core/QueueManager.py:210-220 | no listed playlist is longer than the bound the loop stops at |
| RoundRobin.Round | core/QueueManager.py:213-217 | round `i` holds at most one track per user, and is empty exactly when no user has an `i`-th track |
| RoundRobin.Window | core/QueueManager.py:222-225 | Python's `tracks[offset:]` for limit 0 and `tracks[offset:offset + limit]` otherwise |
| RoundRobin.RoundLength | core/QueueManager.py:213-217 | round `k` has one track per user with more than `k` tracks |
| RoundRobin.SumMinStep | core/QueueManager.py:187 | each round adds one to the sum-of-minimums per user still holding tracks |
| RoundRobin.SumMinSaturates | core/QueueManager.py:187 | past the longest playlist, the sum of minimums counts every track |
| RoundRobin.RoundIndex | core/QueueManager.py:188 | within round `k`, a user's track comes after exactly the users ahead of them that reach depth `k` |
| RoundRobin.ListingIndex | core/QueueManager.py:187-221 | the formula `sum(min(len, loc - 1)) + count(ahead with len >= loc)` is the 0-based index of the track in the round-robin listing, plus one |
| RoundRobin.ListingLength | core/QueueManager.py:206-221 | the listing holds every track of every listed user exactly as many times as the playlists do in total |
| Songs.NewSong | core/models.py:37-52 | without `forced_id` the id is `counter + 1` and the counter advances to it; with one, the id is forced and the counter unchanged. Fields are copied, lyrics unset and haters empty |
| Songs.FreshIdsIncrease | core/models.py:37-42 | two songs created in turn get strictly increasing ids above the old counter |
| Songs.ToDict | core/models.py:60-80 | the dictionary of a song carries its id and haters; no song gives the placeholder `{0, "", "", 1, 0, "", []}` |
| Songs.FromDict | core/models.py:101-106 | `from_dict` keeps the dictionary's id and does not advance the counter |
| Songs.DictRoundTrip | core/models.py:60-106 | `from_dict(to_dict(s))` is `s` with lyrics reset, and the counter is untouched |
| Songs.DictRoundTripBack | core/models.py:60-106 | `to_dict(from_dict(d))` is `d`, with absent haters read as `[]` |
| Songs.DictToJson | core/models.py:60-70 | the JSON of a dictionary reads back its title and duration |
| Songs.Basename | core/models.py:90 | `os.path.basename`: the suffix after the last `/`, free of `/` |
| Songs.LastDot | core/models.py:90 | the last `.` of a name, or none |
| Songs.StripExtension | core/models.py:90 | `os.path.splitext(...)[0]`: a prefix ending before the last dot when that dot follows a non-dot, otherwise the whole name |
| Songs.FullTitle | core/models.py:82-90 | "artist — title" when both are non-empty, else the non-empty one, else the media base name without extension |
| Songs.BasenameOfPath | core/models.py:90 | the base name of `dir/name` is `name` |
| Songs.FullTitleFromMedia | core/models.py:82-90 | a song with no title and an empty artist is titled "abc" after its media `media/abc.mp3` |
| Songs.AddHater | core/models.py:92-94 | the user is a hater afterwards, the other haters stay, no duplicate is created and nothing else changes |
| Songs.AddHaterIdempotent | core/models.py:92-94 | adding a hater twice is adding once |
| Songs.RemoveHater | core/models.py:96-98 | as written: an absent user raises `ValueError` and a present one is kept |
| Songs.RemoveHaterNeverRemoves | core/models.py:96-98 | no call ever removes a hater |
| Songs.RemoveHaterCorrected | core/models.py:96-98 | the evident intent: a present hater's entry leaves the list, an absent one changes nothing, and with distinct haters the user is gone. The inline removal in `vote_up` does the same |
| Songs.RemoveHaterUndoesAdd | core/models.py:92-98 | the corrected removal undoes `add_hater` for a user who was not a hater |
| Songs.HasLyrics | core/models.py:124-125 | lyrics are neither `None` nor "" |
| Playback.CheckRatingValues | core/Core.py:199-202 | a song is kept iff fewer than `song_rating_cnt_min` voted or `voted / all` is below the threshold. The division raises `ZeroDivisionError` exactly when the count test passes with no active users |
| Playback.RatioOrder | core/Core.py:202 | the float comparison of two ratios is the cross-multiplied integer comparison |
| Playback.MoreHatersNeverHelp | core/Core.py:199-202 | a song rejected with some haters stays rejected with more |
| Playback.CountedHatersNeverDivideByZero | core/Core.py:199-202 | haters counted among the active users with a positive minimum never reach a zero division |
| Playback.ActiveHaters | core/Core.py:273-282 | the active users among the haters: a subset of the active users |
| Playback.Rating | core/Core.py:282-283 | with a positive minimum the rating of a popped track never raises |
| Playback.SkipLoop | core/Core.py:276-291 | the loop keeps the queue valid, and every skipped track was on disk and rated down. The track it stops at is on disk and rated up, and a run out of draws has used every draw for a skip |
| Playback.SkipLoopFollowsPops | core/Core.py:276-291 | the skipped tracks are the first of the successive pops, in pop order, and the track the loop finds is the very next pop; so the loop stops at the first popped track not rated down |
| Playback.PopTracks | core/QueueManager.py:227-266 | successive pops use one draw each, and they stop for lack of draws exactly when every draw yielded a track |
| Playback.PlayNotices | core/Core.py:302-319 | user -1 is never told and nobody is told twice. The recipients are exactly the owners of the current and next tracks other than -1. One owner of both gets one combined message about both tracks. Otherwise the next track's owner gets "next is yours" about the next track, and only after it the current owner gets "now playing" about the current track |
| Playback.SkipNotices | core/Core.py:286-291 | each skipped track's owner is told, in order |
| Playback.LoopStep | core/Core.py:276-291 | one turn of the loop next to one pop: a track rated down is skipped and both go on from the popped state, a track rated up is found, a failed rating fails, and a pop with nothing playable ends both the loop and the pops |
| Playback.SkipLoopEnds | core/Core.py:276-291 | a failing rating belongs to the pop right after the skipped tracks; a loop that neither finds a track nor fails has skipped every pop, and it ends empty, on missing media or out of draws exactly as the pops stopped |
| Playback.StopsWhenPopsRunDry | core/Core.py:276-291 | `play_next_track` stops playback exactly when every track the successive pops yield is on disk and rated down and the next pop returns nothing |
| Playback.PlayNextTrack | core/Core.py:269-328 | it switches exactly when the loop found a track, and plays that track on the queue the loop left; the track is on disk and rated up, and the next track is `get_first_track` after the pop. Skip notices come first, then the play notices. It stops exactly when the loop ended on an empty pop, with only the skip notices; `StopsWhenPopsRunDry` says when that is in terms of the pops |
| Playback.GoodHeadPlaysAtOnce | core/Core.py:269-297 | the head of the round-robin listing, on disk and with no active haters, starts at once |
| CorePolicy.GetUser | core/Core.py:149-158 | the fallback user for -1, `None` for an unknown id, `UserBanned` exactly for a banned row, otherwise the row |
| CorePolicy.Actor | core/Core.py:149-158 | reading `superuser` off `get_user` succeeds exactly for a found user and raises `AttributeError` for `None` |
| CorePolicy.MaySwitch | core/Core.py:337-344 | `switch_track` passes only a superuser or the owner of the current track, and passes every such found user |
| CorePolicy.MayTouchTrack | core/Core.py:346-364 | only a superuser or the owner of the track passes. A non-superuser naming an unknown track raises `AttributeError` |
| CorePolicy.MustBeSuperuser | core/Core.py:368-380 | passes exactly superusers; other found users get `PermissionDenied` |
| CorePolicy.DeleteTrack | core/Core.py:346-356 | `delete_track` is `remove_track` exactly when the check passes |
| CorePolicy.RaiseTrackAction | core/Core.py:358-366 | `raise_track` succeeds exactly for a permitted user and a found track |
| CorePolicy.RaiseUser | core/Core.py:368-374 | `raise_user_in_queue` runs exactly for a superuser |
| CorePolicy.StopPlayback | core/Core.py:376-386 | a superuser with a current track puts it back at the head; without one `play_next(None)` raises `AttributeError` |
| CorePolicy.StopRequeuesCurrent | core/Core.py:376-383 | after a stop the interrupted track heads the round-robin listing again |
| CorePolicy.VoteSong | core/Core.py:479-488 | only "up" and "down" are accepted; anything else raises and changes nothing. A banned user changes nothing. Activity is stored only after a valid vote, for a found user |
| CorePolicy.BannedUsersAreRefused | core/Core.py:149-158 | a banned user gets `UserBanned` from every action, and nothing changes |
| CorePolicy.CountSince | core/Core.py:177-179 | the count of the user's requests in the window |
| CorePolicy.Admit | core/Core.py:207-239 | a download passes only for a found user, with a truthy input and a response. A found user within quota (or a superuser) with no input or an empty text gets `ValueError` and nothing is logged. The first quota test reads the clock before the download; the request is logged with the clock read after the download, and the second quota test runs at that later time. A non-superuser over quota is refused, and a passing non-superuser stays under quota at the later time |
| CorePolicy.DownloadAction | core/Core.py:207-249 | the track joins its owner's playlist and the owner the queue, and the returned global position indexes the listing at the new track |
| CorePolicy.Enqueue | core/Core.py:241-247 | the new track ends its owner's playlist, the owner is queued, and both positions point at the track |
| CorePolicy.Placed | core/QueueManager.py:177-190 | a queued owner's track gets positions that index the playlist and the listing |
| CorePolicy.Join | core/Core.py:244-245 | `add_to_queue` runs only for a user who is not yet queued |
| CorePolicy.LimitReachingDownloadRejected | core/Core.py:236-239 | a download that would be a non-superuser's `user_requests_limit`-th request in the window ending after the download is refused. If the first test passed, the request was logged before the refusal |
| CorePolicy.DownloadStaysUnderLimit | core/Core.py:236-239 | a non-superuser's successful download adds one request to the window ending after the download and stays under the limit there |
| Downloads.Names | downloaders/MasterDownloader.py:29 | the names of the downloaders, in order |
| Downloads.Find | downloaders/MasterDownloader.py:69 | `self.handlers[name]` finds the entry with the name, or none has it |
| Downloads.Register | downloaders/MasterDownloader.py:29 | an `OrderedDict` insert keeps a known name's place with the new value, and appends a new name |
| Downloads.RegistryIsTable | downloaders/MasterDownloader.py:29 | the handler table has each name once, exactly the given names, and the last downloader given under each |
| Downloads.DownloadMessage | downloaders/MasterDownloader.py:89-108 | each of the nine recognised downloader exceptions maps to its own message, the two network exceptions to the same one, and carries the exception's argument where the text uses it; any other exception is re-raised |
| Downloads.FirstAccepting | downloaders/MasterDownloader.py:74-79 | the first handler whose acceptance test holds, or none accepts |
| Downloads.TryHandlers | downloaders/MasterDownloader.py:73-111 | no acceptor raises `NotAccepted`; otherwise only the first acceptor is asked. Its result comes back after storage trimming, a recognised failure gives one message and `None`, and any other exception is re-raised |
| Downloads.ThreadDownload | downloaders/MasterDownloader.py:65-111 | a search result goes only to the downloader it names, and a missing name raises `KeyError`; other kinds go to all downloaders in order |
| Downloads.SearchResultIsPinned | downloaders/MasterDownloader.py:67-69 | a search result is downloaded by the named downloader even when an earlier one would accept it |
| Downloads.SliceTo | downloaders/MasterDownloader.py:129 | Python's `xs[0:stop]` for any integer stop |
| Downloads.SliceFrom | downloaders/MasterDownloader.py:59 | Python's `xs[start:]` for any integer start |
| Downloads.Tag | downloaders/MasterDownloader.py:133-134 | each row is tagged with the downloader's name |
| Downloads.ThreadSearch | downloaders/MasterDownloader.py:114-148 | only transport failures are reported. No result means every acceptor fell through, and the rows number at most `search_max_results` |
| Downloads.SearchFallsThrough | downloaders/MasterDownloader.py:117-143 | the first acceptor that succeeds answers, cut to the limit and tagged, after one message per earlier acceptor |
| Downloads.SkipFailing | downloaders/MasterDownloader.py:119-143 | a declining or falling-through first downloader leaves the rest's answer, plus one message if it accepted |
| Downloads.CountAccepting | downloaders/MasterDownloader.py:119-121 | the number of acceptors is bounded by the downloaders |
| Downloads.FilterStorage | downloaders/MasterDownloader.py:45-62 | nothing goes at or under the limit; above it, the files after the `limit` newest go |
| Downloads.FilterStorageKeepsNewest | downloaders/MasterDownloader.py:54-61 | exactly `limit` files stay, no kept file is older than a deleted one, and kept and deleted files together are the directory |
| StableSort.Sort | downloaders/HtmlDownloader.py:93 | `sort` keeps the number of elements; the three rows below state the permutation, the order and the stability |
| StableSort.SortPermutes | downloaders/HtmlDownloader.py:93 | sorting permutes the list |
| StableSort.SortSorted | downloaders/HtmlDownloader.py:93 | the result is in key order |
| StableSort.SortStable | downloaders/HtmlDownloader.py:93 | each key class keeps its input order |
| StableSort.InsertWithKey | downloaders/HtmlDownloader.py:93 | insertion puts the new element first among its own key class |
| HtmlSearch.Zip | downloaders/HtmlDownloader.py:79-81 | `zip` of the five lists is as long as the shortest, row by row |
| HtmlSearch.Split | downloaders/HtmlDownloader.py:84 | `split(":")` gives at least one piece, none containing the separator |
| HtmlSearch.JoinSplit | downloaders/HtmlDownloader.py:84 | joining the pieces gives back the text |
| HtmlSearch.SplitJoin | downloaders/HtmlDownloader.py:84 | splitting a join of separator-free pieces gives back the pieces |
| HtmlSearch.DurationRoundTrip | downloaders/HtmlDownloader.py:84-88 | the fold `t * 60 + int(part)` reads back any non-negative duration the filter writes |
| HtmlSearch.MinutesSeconds | downloaders/HtmlDownloader.py:84-88 | `m:ss` is `m * 60 + ss` seconds |
| HtmlSearch.RemoveAll | downloaders/HtmlDownloader.py:89 | `replace(c, "")` removes every `c` and keeps every other character |
| HtmlSearch.RStrip | downloaders/HtmlDownloader.py:91 | `rstrip(c)` removes exactly the trailing run of `c` |
| HtmlSearch.CleanRating | downloaders/HtmlDownloader.py:89-91 | commas go, and a trailing `K` run becomes `000` |
| HtmlSearch.ThousandsRating | downloaders/HtmlDownloader.py:89-91 | `12K` is twelve thousand |
| HtmlSearch.Normalise | downloaders/HtmlDownloader.py:83-91 | a row normalises exactly when its duration parses |
| HtmlSearch.NormaliseAll | downloaders/HtmlDownloader.py:83-91 | every row normalises or the loop raises `ValueError` |
| HtmlSearch.Rank | downloaders/HtmlDownloader.py:93 | one non-numeric rating raises `ValueError`; otherwise the rows are permuted into descending rating |
| HtmlSearch.RankIsStable | downloaders/HtmlDownloader.py:93 | equal ratings keep page order |
| HtmlSearch.Taken | downloaders/HtmlDownloader.py:99-112 | `min(limit, n)` rows for a positive limit, and always at least one |
| HtmlSearch.Remember | downloaders/HtmlDownloader.py:100-102 | the cache gains the rows' ids and keeps every other entry; each new entry has its id |
| HtmlSearch.RememberKeepsLast | downloaders/HtmlDownloader.py:100-102 | under each id is the last row with that id |
| HtmlSearch.Hits | downloaders/HtmlDownloader.py:104-109 | one result per row, with the row's id, artist, title and duration |
| HtmlSearch.Search | downloaders/HtmlDownloader.py:56-114 | a blank query returns `[]` with no request. A non-200 status raises `BadReturnStatus`, and otherwise the rows are answered |
| HtmlSearch.Answer | downloaders/HtmlDownloader.py:79-114 | `NothingFound` exactly for no rows. `ValueError` for a bad duration or rating. Otherwise the best-rated rows, cut by the limit, become the hits and enter the cache |
| HtmlSearch.SearchResults | downloaders/HtmlDownloader.py:93-114 | at most `limit` hits for a positive limit, at least one for a non-blank query, and each cached under its id |
| HtmlSearch.DownloadCheck | downloaders/HtmlDownloader.py:124-131 | an uncached id raises `DownloaderException` with the downloader's cache-miss message; a song longer than `max_duration` raises `MediaIsTooLong`; otherwise the cached song is downloaded |
| HtmlSearch.SearchedHitsDownload | downloaders/HtmlDownloader.py:100-131 | a hit just returned is never a cache miss |
| Localization.Finalize | core/JinjaEnvironmentManager.py:230-240 | `;` stores the value under the key and resets to state 0, keeping the key; a stored key raises |
| Localization.Step | core/JinjaEnvironmentManager.py:122-235 | one character never leaves the states 0 to 11. Only the `;` of state 3 stores a value. A fault names the state and the character, except for a plural block closed with fewer than two forms and a key stored twice, and state 11 (after `/`) accepts nothing |
| Localization.ParseAppend | core/JinjaEnvironmentManager.py:120-121 | reading two texts in turn is reading their concatenation |
| Localization.ParseKeepsGood | core/JinjaEnvironmentManager.py:122-229 | every step keeps keys and values well formed |
| Localization.Parse | core/JinjaEnvironmentManager.py:79-240 | every key of a parsed file is a letter then letters and digits; every value is quote-free strings and letters-only parameters, with no plural block |
| Localization.ReadKey | core/JinjaEnvironmentManager.py:122-147 | a key then ` = ` reaches the value state with that key |
| Localization.ReadValue | core/JinjaEnvironmentManager.py:148-182 | printed strings and parameters joined by ` + ` read back as exactly those parts |
| Localization.ReadEntry | core/JinjaEnvironmentManager.py:120-240 | an entry stores its value under its key, or stops at a stored key |
| Localization.Store | core/JinjaEnvironmentManager.py:230-235 | storing entries one by one fails only with `DuplicateKey` for one of the entries' keys; the row below states when it succeeds and what it stores |
| Localization.StoreAll | core/JinjaEnvironmentManager.py:230-235 | storing succeeds exactly when the keys are new and distinct, and adds them all |
| Localization.ReadScope | core/JinjaEnvironmentManager.py:120-240 | printed entries parse as storing them one by one |
| Localization.ParsePrinted | core/JinjaEnvironmentManager.py:79-240 | a file in the format parses back to its entries exactly when its keys are distinct |
| Localization.PluralBlockDropped | core/JinjaEnvironmentManager.py:183-227 | a block with two or more forms is read and dropped; with fewer it raises |
| Localization.ReadForms | core/JinjaEnvironmentManager.py:209-227 | quoted forms are collected in order |
| Localization.CommaBetweenFormsRejected | core/JinjaEnvironmentManager.py:209-220 | a comma between forms raises |
| Localization.CommentRejected | core/JinjaEnvironmentManager.py:123-124 | `/` leads to a state with no branch, so comments raise |
| Localization.Render | core/JinjaEnvironmentManager.py:273-279 | exactly two forms are required, else the call fails with the form count; the result is one of the forms, and a count of one gets the singular |
| Localization.RenderSingularIffOne | core/JinjaEnvironmentManager.py:276-279 | the singular is chosen for one and only for one |
| Localization.Fill | core/JinjaEnvironmentManager.py:290-317 | the loop succeeds exactly when every part renders |
| Localization.FillTexts | core/JinjaEnvironmentManager.py:299-300 | a value of strings renders as those strings |
| Localization.CallAsWritten | core/JinjaEnvironmentManager.py:287-317 | positional arguments or a failing part raise; otherwise the call returns `None` |
| Localization.Call | core/JinjaEnvironmentManager.py:287-317 | the corrected call fails exactly when the written one does, with the same error, and positional arguments are refused |
| Localization.CallLosesText | core/JinjaEnvironmentManager.py:287-317 | `k = "hi";` called gives `None` as written and "hi" corrected |
| Localization.ParsedTextRenders | core/JinjaEnvironmentManager.py:79-317 | a parsed string-only entry renders as its strings |
| Localization.ScopeName | core/JinjaEnvironmentManager.py:58 | `split(".")[0]` is the text before the first dot, or the whole name when it has no dot |
| Localization.LoadScopes | core/JinjaEnvironmentManager.py:46-58 | loads exactly when every `.loc` file parses. The scopes are the names of the `.loc` files, and the last file wins |
| Localization.LoadWith | core/JinjaEnvironmentManager.py:46-58 | for any reader of a file's text, the loop succeeds exactly when every scope file is read, and the last entry, if a scope file, gives its scope |
| Localization.LoadWithNames | core/JinjaEnvironmentManager.py:46-58 | a successful load has a scope for exactly the names of the scope files |
| Localization.LoadWithLastFileWins | core/JinjaEnvironmentManager.py:46-58 | for any reader, a scope file that no later same-named file replaces gives its scope |
| Localization.LoadScopesLastFileWins | core/JinjaEnvironmentManager.py:46-58 | every `.loc` file with no later file of the same scope name decides its scope: the loaded scope is that file's parse |
| Captions.DigitForm | utils.py:32-34 | the loop finds the last digit exactly when it is 1 to 4 |
| Captions.MakeCaption | utils.py:29-35 | a number ending in 11-19 takes `forms[5]`, a last digit of 1-4 takes `forms[digit]`, and every other number `forms[5]`. The result starts with the stem, and six forms never raise |
| Captions.CaptionPeriodic | utils.py:29-35 | the caption depends only on the number mod 100 |
| Captions.FormatDuration | frontend/jinja_env.py:5-6 | "m:ss": two seconds digits worth `s mod 60`, and minutes parsing to `s div 60` |
| Captions.FormatDurationHour | frontend/jinja_env.py:5-6 | 3600 seconds is "60:00" |
| Captions.FormatDurationNegative | frontend/jinja_env.py:5-6 | -1 second is "-1:59", because `divmod` floors |
| Captions.FormatCaption | frontend/jinja_env.py:9-10 | the number, a space, then `make_caption`; it raises exactly when `make_caption` does |
| Decimal.IntToStringRoundTrip | frontend/jinja_env.py:5-6 | `int(str(n)) == n` for every integer |
| Decimal.ParseInt | downloaders/HtmlDownloader.py:87 | `int(s)` succeeds only when `s` holds a digit; the round trip and the whitespace rows pin the rest |
| Decimal.NatToStringValue | frontend/jinja_env.py:5-6 | `str(n)` has the value `n` |
| Decimal.Pad2 | frontend/jinja_env.py:6 | `{:02d}` of 0-99 is two digits with that value |
| Decimal.Strip | downloaders/HtmlDownloader.py:59 | `strip()` keeps a contiguous middle of the text, removes only Python whitespace (ASCII and Unicode) on either side, and leaves text that neither starts nor ends with whitespace |
| Decimal.SpaceBeforeDigits | downloaders/HtmlDownloader.py:87 | `int` skips a leading whitespace character of its own set, non-ASCII spaces included |
| Decimal.SeparatorBeforeDigits | downloaders/HtmlDownloader.py:87 | a separator U+001C to U+001F is stripped by `strip()` but makes `int()` fail |
| ConfigEnv.Lower | run.py:44 | `optionxform` lower-cases ASCII letters, character by character |
| ConfigEnv.LastPrefixIndex | run.py:36-38 | the last candidate that is a prefix, or none |
| ConfigEnv.ScanPicksLastPrefix | run.py:35-38 | the loop ends with the last matching candidate |
| ConfigEnv.KeyAfter | run.py:42 | the key is the remainder after the section and one more character |
| ConfigEnv.Target | run.py:28-42 | only `DJ_` names qualify; the section is the last candidate prefixing the rest |
| ConfigEnv.ReferenceLength | run.py:44 | a match of `%(name)s` at the start of a value, as `config.set`'s syntax check matches it: `%(`, a non-empty name with no `)`, then `)s` |
| ConfigEnv.ReferenceLengthMatches | run.py:44 | every such reference at the start of a value is matched, with its full length |
| ConfigEnv.PlainValueAccepted | run.py:44 | a value without `%` always passes `config.set`'s interpolation check |
| ConfigEnv.ReferenceAccepted | run.py:44 | plain text followed by a well-formed `%(name)s` passes `config.set`'s check |
| ConfigEnv.TrailingPercentRejected | run.py:44 | plain text ending in a lone `%` (such as `100%`) makes `config.set` raise `ValueError` |
| ConfigEnv.EscapedPercentAccepted | run.py:44 | plain text ending in `%%` passes the check |
| ConfigEnv.ApplyVar | run.py:28-44 | a qualifying variable sets its one key, unless its value has bad interpolation syntax, which raises `ValueError`; anything else changes nothing |
| ConfigEnv.ApplyEnvironment | run.py:28-46 | the loop completes exactly when every variable it would set has a value that passes the interpolation check, and it keeps the sections |
| ConfigEnv.ApplyEnvironmentUntouched | run.py:28-46 | when the loop completes, keys no variable targets keep their values |
| ConfigEnv.ApplyEnvironmentLastWins | run.py:28-46 | when the loop completes, the last variable targeting a key sets it |
| ConfigEnv.LastPrefixNotLongest | run.py:36-38 | with sections `core` and `co`, `DJ_core_verbosity` sets `e_verbosity` in `co` |

## Left out

- Tornado, asyncio and threads are not modelled. Events run one callback to completion, in order, and the `QueueManager` lock only serialises calls.
- The WebSocket transport, `JSON.parse` and `JSON.stringify` are abstract: frames are parsed key lists or `Malformed`. `location.reload`, the DOM and `console.log` become effects and page fields.
- The clock is explicit: events carry `Date.now()` values, and the server's 60-second sleep is a `Wake` event.
- Peewee tables become a map of users and a request log, and the set of recently active users is a parameter. `store_user_activity` appears only as which user is stored.
- Network, files and libraries are left out. `requests`, lxml, SHA-1, mutagen and `os` file operations are parameters. `Song.fetch_lyrics` and the backend calls are out.
- `load_init`, `cleanup` and `populate_backlog` (file persistence and shuffling) are left out; the manager starts from a given backlog.
- The notification text of `enqueue` in core/Core.py is not modelled; its queue effect is `PlayQueue.AddToQueue`.
- `ban_user`, `unban_user`, `get_state`, `get_queue` and `search_action` are outside this model.
- The front-ends, streamers, the other downloaders, the proxy handlers, brain/ and web/static/aav.js are not part of this model.
- Playback.SkipLoop: each pop consumes one given `random.randrange` draw, so a run that exhausts the draws ends as `Unfinished` where the source would continue.
- Playback.PlayNextTrack: a loop that runs out of draws yields `Unfinished`, which the source never does.
- PlayQueue.PopFirstTrack: when the popped queue track has no media file, the source keeps iterating the queue it has just mutated. The model stops with `MissingQueueMedia` and does not follow that path.
- CorePolicy.Admit: the Windows branch that drops the first two characters of the downloaded path (core/Core.py:233-234) is not modelled; the path is used as the downloader returns it.
- CorePolicy.Admit: the request's timestamp (`Request.time`, core/models.py:28) and the second quota test (core/Core.py:177) share one clock reading taken after the download. The source reads the clock twice, moments apart; the gap could only matter for a zero-length interval, where the source would not count the new request.
- Playback.CheckRatingValues: the float threshold (0.3) is a rational `num / den`, and the comparison is exact rather than IEEE.
- Page.ToNumber: only `undefined`, `null`, booleans and numbers convert; strings, arrays and objects are read as NaN.
- Wson: message names that are properties of `Object.prototype` (`toString`, `__proto__`, `constructor`, ...) are ordinary names here. In the browser `name in handlers` finds the built-in and calls it.
- JsonValue.Get: numbers are integers; floating-point JSON numbers are not modelled. Built-in properties of non-objects (a string's `length`) read as `undefined`; no modelled read uses one.
- Songs and PlayQueue: songs are compared by value. `Song` defines no `__eq__`, so the source's `list.remove`, `list.index` and `==` compare objects by identity; the two agree only while no two distinct song objects carry equal fields.
- Downloads.DownloadMessage: the exception's argument is part of each failure. A `DownloaderException` raised without arguments makes `e.args[0]` (downloaders/MasterDownloader.py:89-106) raise `IndexError`; that path is not modelled.
- Wson: web/static/socket.js calls `WSON(...)` without `new`, and wson.js is not in strict mode, so `this` is `window`: the methods are set on it (replacing `window.fetch`) and `return this` hands it back. The model keeps the client's state apart from the rest of the page; overwriting the global `fetch` is left out.
- Decimal.ParseInt: digit-group underscores and non-ASCII digits are not accepted.
- ConfigEnv.Lower: only ASCII letters are lower-cased.
- ConfigEnv: interpolation is only checked for syntax, as `config.set` does. Values are stored raw, and expanding `%(name)s` on a later `get` is outside this model.
- Localization.Render: `count == 1` is decided on an integer or a float of 1.0; other numeric types are not modelled.
- Localization.Parse: the input is the file's text after text-mode reading has turned `\r\n` and `\r` into `\n`, read character by character. Decoding and that newline translation are not modelled, and the line splitting of `readlines` does not change the result.
- HtmlSearch.Search: the XPath results are given as the five lists, and the SHA-1 id of a link is an abstract function.
- WebServer.Connect: the event model (`Step`, `Run`) connects pages with the corrected `get_current_state`. The as-written connection is `ConnectAsWritten`, and what Tornado does after `open` raises is not modelled.
- WebServer.CurrentState: the progress value is passed through as given; the backend's computation is not modelled.

## Findings

| source | as written | input that shows it | evidently intended | confidence | as-written member | corrected member |
|---|---|---|---|---|---|---|
| core/models.py:96-98 | `remove_hater` removes only when the user is *not* a hater, so it raises `ValueError` for a non-hater and never removes a hater | a song with haters `[7]` and `remove_hater(7)` keeps `[7]`; `remove_hater(8)` raises | remove the user when present | not executed | Songs.RemoveHater, Songs.RemoveHaterNeverRemoves | Songs.RemoveHaterCorrected, Songs.RemoveHaterUndoesAdd |
| web/server.py:21, web/server.py:223-228 | `get_current_state` calls `Song.to_dict(None)` on the record class from brain/models.py, which has no branch for no track and raises | a page connecting while nothing plays receives no `update` or `progress` | use the placeholder dictionary of the core/models.py record | not executed | WebServer.CurrentStateAsWritten, WebServer.ConnectAsWritten, WebServer.OpenWithoutTrackRaises | WebServer.CurrentState, WebServer.Connect |
| core/JinjaEnvironmentManager.py:287-317 | `TemplateValue.__call__` builds the string but never returns it | the value `k = "hi";` called with no arguments gives `None` | return the built string | not executed | Localization.CallAsWritten, Localization.CallLosesText | Localization.Call, Localization.ParsedTextRenders |
