# Torrent Player core, modelled in Dafny

Torrent Player is a small Flask web app. It lists movies from the YTS catalog, picks a torrent for the chosen quality, downloads it through libtorrent and tells the browser, over a socket, when the largest video file is on disk and can be streamed. This project models the sequential logic behind the app in three modules, one per source file:

- `YtsScraper` (`yts_scraper.dfy`) models the catalog client's pure part. It projects raw API movie objects onto the fixed field sets of a listing entry and a detail record. A JSON key is absent, null or present, and `get` with a default only fills the absent case. It also models `get_best_torrent`: the quality fallback order over `2160p/1080p/720p/480p`, with the preferred quality first, a first-match search in list order, and the first torrent as the fall-back.
- `Torrents` (`torrent_manager.dfy`) models the download manager. `TorrentManager` is a class whose `activeTorrents` map, from info-hash to record, is changed by add, pause, resume and remove. Each of these touches one key. The per-torrent monitor loop is modelled one iteration at a time by `MonitorStep`. That step copies an engine status snapshot into the record, fills the file list once, reports to the callback, and marks a finished torrent "completed" after the callback has run. The module also has the bounds-checked file-path lookup, with Python's negative indexing and `IndexError`, and the order-preserving video-file filter.
- `WebApp` (`app.dfy`) models the web layer. `Server` is a class holding the session map. It covers the `play_movie` chain of guarded steps, each with its own HTTP failure code, and the status query. It also covers the progress callback a torrent's monitor calls and one tick of the video-readiness loop. That tick watches the largest video file, taking the first of equals as Python's `max` does. `MonitorTick` wires one manager monitor step to the session's progress callback. It shows that the session receives the engine's state string, never "completed".

The transfer engine, the catalog, the filesystem and the socket are not called. Instead, they appear as inputs and outputs:

- the engine is the info-hash an add returns (None when it raises), a status snapshot per tick, and whether a control call succeeds;
- the catalog is the movie record a lookup returns;
- the filesystem is the set of paths that exist;
- the socket is the events returned as values.

## Model

| member | source | states |
|---|---|---|
| YtsScraper.ProcessMovie | yts_scraper.py:92-106 | each of the eleven plain listing fields is the raw value when present and None when absent or null; `genres` and `torrents` are the raw list when present, the empty list when absent, and None for an explicit null |
| YtsScraper.ProcessMovies | yts_scraper.py:86-108 | the result has the input's length and its i-th entry is the projection of the i-th movie (order preserved) |
| YtsScraper.ProcessMovieDetails | yts_scraper.py:110-132 | the detail record agrees with the listing projection on its thirteen shared fields; `cast` is the raw list when present, empty when absent, None for an explicit null; `director`, `imdb_code` and `yt_trailer_code` are the raw value when present and None otherwise |
| YtsScraper.Without | yts_scraper.py:146 | the comprehension keeps exactly the qualities different from the preferred one |
| YtsScraper.QualityOrder | yts_scraper.py:143-146 | the search order holds exactly the four known qualities; a known preference comes first; an unknown preference leaves the fixed order |
| YtsScraper.KnownPreferenceFirst | yts_scraper.py:143-146 | for a known preference the order is that quality followed by the other three in their fixed order |
| YtsScraper.WithoutDistinct | yts_scraper.py:146 | removing the k-th of distinct qualities leaves the ones before and after it, in order |
| YtsScraper.WithoutAbsent | yts_scraper.py:146 | removing a quality that is not listed leaves the list unchanged |
| YtsScraper.KnownQualitiesDistinct | yts_scraper.py:143 | the four known quality strings are pairwise different |
| YtsScraper.Prefer1080pOrder | yts_scraper.py:143-146 | preferring 1080p searches 1080p, 2160p, 720p, 480p |
| YtsScraper.FirstWithQuality | yts_scraper.py:149-151 | the inner loop finds the first torrent in list order with the given quality, or reports that none has it |
| YtsScraper.SearchIndex | yts_scraper.py:148-154 | on a non-empty list the search yields a valid index |
| YtsScraper.SearchFindsEarliestQuality | yts_scraper.py:148-151 | when no torrent has an earlier quality of the order, the search returns the first torrent with the earliest matching quality |
| YtsScraper.SearchFallsBackToFirst | yts_scraper.py:153-154 | when no torrent has any quality of the order, the search returns the first torrent |
| YtsScraper.GetBestTorrent | yts_scraper.py:134-154 | the result is None exactly when the movie's torrent list is null or empty; otherwise it is an element of that list |
| YtsScraper.BestTorrentPicksEarliestQuality | yts_scraper.py:143-151 | the chosen torrent has the earliest quality of the search order that any torrent has, and is the first in list order with it |
| YtsScraper.BestTorrentHonoursPreference | yts_scraper.py:143-151 | when some torrent has the known preferred quality, the first such torrent is chosen |
| YtsScraper.BestTorrentDefaultsToFirst | yts_scraper.py:153-154 | when no torrent has a known quality, the first torrent is chosen |
| YtsScraper.EmptyDescriptorOnlyAsFallback | yts_scraper.py:148-154 | when every descriptor is a real JSON object and the empty object is chosen, no torrent has a known quality and the empty object is the first of the list |
| YtsScraper.UnknownPreferenceIgnored | yts_scraper.py:144-146 | an unknown preference chooses as the preference 2160p does |
| YtsScraper.FallbackSkipsToNextQuality | yts_scraper.py:143-151 | preferring 1080p among [720p, 480p] chooses the 720p torrent |
| YtsScraper.FallbackPrefersHigherQuality | yts_scraper.py:143-151 | preferring 1080p among [2160p, 720p] chooses the 2160p torrent |
| Torrents.EndsWithAppended | torrent_manager.py:239 | a string ends with any suffix appended to it |
| Torrents.LowerAppend | torrent_manager.py:238 | lower-casing a concatenation lower-cases each part |
| Torrents.Mp4IsVideo | torrent_manager.py:234-239 | every path with the `.mp4` extension is a video file |
| Torrents.UpperCaseExtensionIsVideo | torrent_manager.py:234-239 | the test ignores case: every path with the `.MKV` extension is a video file |
| Torrents.Join | torrent_manager.py:152 | the POSIX join ends with the file's path; an absolute path replaces the directory; otherwise the result starts with the directory |
| Torrents.VideoListingSound | torrent_manager.py:229-247 | every listed entry is a file with a video extension (after lower-casing), carrying its index in the full list, its path, size and looked-up local path; indices strictly increase |
| Torrents.VideoListingComplete | torrent_manager.py:237-245 | every file with a video extension appears in the listing under its own index |
| Torrents.AllVideoKept | torrent_manager.py:237-245 | when every file is a video file, the listing keeps all of them, in order |
| Torrents.ClassifyIdempotent | torrent_manager.py:229-247 | listing the entries of a video listing again keeps every entry, in order, unchanged except that its index becomes its position in the new list |
| Torrents.BuildFileList | torrent_manager.py:94-104 | the list is produced exactly when every priority query succeeds, and then holds one entry per engine file in index order with path, size and priority |
| Torrents.TorrentManager.constructor | torrent_manager.py:13-14 | the store starts empty, with the given download directory |
| Torrents.TorrentManager.AddTorrent | torrent_manager.py:27-70 | returns the engine's info-hash; if the engine raises nothing changes; otherwise the record under that hash is (re)set to status "downloading", zero progress, rates and peers, no files, with the url and callback |
| Torrents.TorrentManager.MonitorStep | torrent_manager.py:76-120 | an unknown id or a failed status query stops with no change; otherwise progress is fraction times 100, rates and peers are copied, status is the engine's state (even over "paused"), the file list is filled only while empty and metadata is known, the callback sees the engine's state, and a finished torrent becomes "completed" and stops; other records are unchanged |
| Torrents.TorrentManager.GetTorrentStatus | torrent_manager.py:122-126 | the record under the id, or None exactly when the id is unknown |
| Torrents.TorrentManager.GetTorrentFiles | torrent_manager.py:128-136 | the record's file list, or empty for an unknown id |
| Torrents.TorrentManager.GetFilePath | torrent_manager.py:138-153 | None for an unknown id, an index at or past the end, or a joined path that does not exist; IndexError exactly for an index below minus the length; otherwise, with a negative index counting from the end, the download directory joined with that file's path when it exists |
| Torrents.TorrentManager.PrioritizeFile | torrent_manager.py:155-170 | fails for an unknown id; for a known id succeeds exactly when the engine accepts |
| Torrents.TorrentManager.PauseTorrent | torrent_manager.py:172-186 | succeeds exactly for a known id the engine pauses, and then only that record's status becomes "paused"; otherwise nothing changes |
| Torrents.TorrentManager.ResumeTorrent | torrent_manager.py:188-202 | succeeds exactly for a known id the engine resumes, and then only that record's status becomes "downloading"; otherwise nothing changes |
| Torrents.TorrentManager.RemoveTorrent | torrent_manager.py:204-227 | succeeds exactly for a known id the engine removes, and then exactly that key is deleted; otherwise nothing changes |
| Torrents.TorrentManager.GetVideoFiles | torrent_manager.py:229-247 | the loop yields the video listing of the record's files (the lemmas above give its meaning) |
| WebApp.LargestVideo | app.py:297 | the watched file has maximal size, and every earlier file is strictly smaller (the first of equals) |
| WebApp.WatchedFileIsLargestWithLowestIndex | app.py:293-297 | on a torrent's video listing, the watched file is the largest, with the lowest file index among equally large ones |
| WebApp.Server.constructor | app.py:28-41 | no sessions, with the manager and the streaming flag fixed at start-up |
| WebApp.Server.PlayMovie | app.py:149-222 | 503 with nothing changed when streaming is unavailable; otherwise the session is created first; 404 for an unknown movie, 400 when no torrent is chosen or the chosen descriptor is the empty object (which Python treats as false), 500 when the add raises or returns an empty id, leaving the session as it was; on success the torrent is added with the session as its callback, and the session gets the torrent id, the movie and "downloading", keeping its progress; the status query then finds the new record |
| WebApp.Server.GetStatus | app.py:224-245 | not found exactly for an unknown session; otherwise its status, progress and movie, and the torrent record only when the session's torrent id is set, non-empty, the manager exists and the record is still stored |
| WebApp.Server.NewSessionReportsReady | app.py:47-54 | a fresh session reports "ready", progress 0 and no torrent or movie |
| WebApp.Server.OnTorrentProgress | app.py:265-279 | nothing for an unknown session; otherwise progress and status are set from the info (defaults 0 and "downloading") and the event carries the just-set values with rate and peers (default 0) |
| WebApp.Server.ReadinessTick | app.py:281-315 | stops unchanged unless the manager exists and the session's torrent is still the bound one; once the largest video file's local path is set and exists, the session alone becomes "ready_to_play", the video-ready event carries `/api/video/<session>` and the movie, and the loop stops; otherwise it continues unchanged |
| WebApp.Server.MonitorTick | app.py:189-192 | a monitor step whose callback reports to the session that started it: the session's progress and status become the engine's values, never "completed", while the stored record becomes "completed" on finish; the record otherwise changes as in the monitor step (progress, rates, peers, one-time file fill, handle, url and callback kept) and no other record changes |

## Left out

- Progress as a float: progress is a `real`, so `status.progress * 100` is exact here and floating-point rounding is not modelled.
- Threads and sleeps: the monitor and readiness loops are modelled one tick at a time, as `Tick` results. Their scheduling, daemon lifetimes and interleaving with requests are not modelled.
- Record aliasing: the monitor thread in the source keeps a reference to the record dict it found at start (torrent_manager.py:76) and loops while the key is stored (torrent_manager.py:82). When a stored hash is added again, with or without a remove in between, the new dict replaces the old one under the key and a second monitor starts, while the first monitor keeps running: it goes on writing to the replaced dict and calling that dict's callback, the lambda of the session that first started the torrent. So in the source, if session B plays a hash that session A started, A keeps receiving progress and status. Records here are values in the map with one monitor per key, so after the overwrite only B's callback is modelled (`MonitorTick`), and the old monitor's writes and callbacks are not.
- Torrents.TorrentManager.RemoveTorrent: `delete_files=True`, which removes the files with `os.remove`, is not modelled. Filesystem effects are out of scope, as is `cleanup`, which uses `shutil.rmtree`.
- Torrents.TorrentManager.AddTorrent: a failure to start the monitor thread after the record is stored is not modelled. In the source this would leave the record in place and return None.
- The engine session set-up and settings, the `tempfile.mkdtemp` download directory and the listening ports are not modelled. The directory is a constructor argument.
- `get_movies`, `search_movies` and `get_movie_details` are not modelled: they are HTTP requests, JSON decoding and their error branches. The catalog's answer is an input to `PlayMovie`. The `/api/movies`, `/api/movie` and `/api/torrent` routes, the socket handlers and the browser client are not modelled either.
- WebApp.Server.PlayMovie: a request body that is not a JSON object, and exceptions raised inside the handler (the 500 branch at app.py:217-222), are not modelled. A key given an explicit JSON null, rather than omitted, is treated as omitted.
- WebApp.Server.ReadinessTick: exceptions inside the loop, which end it, are not modelled. An id is "set" when it is non-empty; a session's torrent id is never empty (`Server.Valid`).
- WebApp.Server.GetStatus: the model returns the stored record as a value. In the source, the record holds the engine handle and the callback function (torrent_manager.py:46, 48), which JSON serialisation at app.py:238-245 cannot encode, so the real endpoint fails with a server error whenever a record is found, for instance right after every successful play. Serialisation is not modelled.
- `str.lower` is modelled for ASCII letters only; other characters are left unchanged.
- `os.path.exists` is modelled as a set of existing paths, `onDisk`. The readiness tick's second existence check reads the same set as the listing's.
- The socket transport, `socketio.emit`, is not modelled: events are returned values, and nothing checks who receives them.
