/**
 * The web layer's session state: the registry of WebSessions, the play
 * request's chain of guarded steps, the status query, the progress callback a
 * torrent's monitor calls, and one tick of the video-readiness loop. The
 * catalog lookup, the engine's answers and the filesystem are inputs; the
 * events pushed over the socket are returned as values.
 */
module WebApp {
  import opened Wrappers
  import opened YtsScraper
  import opened Torrents

  /** The per-client state of `WebSession`. */
  datatype WebSession = WebSession(
    sessionId: string,
    currentMovies: seq<Movie>,
    currentTorrentId: Option<string>,
    currentMovie: Option<MovieDetails>,
    downloadProgress: real,
    status: string)

  /** A session as `WebSession.__init__` creates it. */
  function NewSession(sessionId: string): WebSession {
    WebSession(sessionId, [], None, None, 0.0, "ready")
  }

  /** The keys `_on_torrent_progress` reads from the info it is given; each may be absent. */
  datatype ProgressInfo = ProgressInfo(
    progress: Option<real>,
    status: Option<string>,
    downloadRate: Option<int>,
    peers: Option<int>)

  /** The info a monitor passes: its torrent record, which always carries all four keys. */
  function InfoOf(rec: TorrentRecord): ProgressInfo {
    ProgressInfo(Some(rec.progress), Some(rec.status), Some(rec.downloadRate), Some(rec.peers))
  }

  /** The events pushed to clients. */
  datatype Event =
    | TorrentProgress(sessionId: string, progress: real, status: string, downloadRate: int, peers: int)
    | VideoReady(sessionId: string, videoPath: string, movie: Option<MovieDetails>)

  /** The answer to a play request: the torrent id, or an HTTP error code and message. */
  datatype PlayResponse = Started(torrentId: string) | PlayFailed(code: nat, error: string)

  /** The answer to a status query. */
  datatype StatusResponse =
    | SessionNotFound
    | SessionStatus(status: string, progress: real, torrentStatus: Option<TorrentRecord>,
                    currentMovie: Option<MovieDetails>, streamingAvailable: bool)

  const UnavailableMessage := "Torrent functionality not available. Please install libtorrent."
  const MovieNotFoundMessage := "Movie not found"
  const NoTorrentMessage := "No torrent available for this quality"
  const StartFailedMessage := "Failed to start torrent"

  /** The URL a ready session's video is served from. */
  function VideoUrl(sessionId: string): string {
    "/api/video/" + sessionId
  }

  /**
   * The file the readiness loop watches: a video file of maximal size, the first
   * of several equally large ones, as Python's `max` picks.
   */
  function LargestVideo(vs: seq<VideoFile>): (k: nat)
    requires vs != []
    ensures k < |vs|
    ensures forall j :: 0 <= j < |vs| ==> vs[j].size <= vs[k].size
    ensures forall j :: 0 <= j < k ==> vs[j].size < vs[k].size
  {
    if |vs| == 1 then 0
    else
      var k := LargestVideo(vs[..|vs| - 1]);
      if vs[|vs| - 1].size > vs[k].size then |vs| - 1 else k
  }

  /**
   * On a torrent's video listing, the watched file is the largest video file
   * and, among equally large ones, the one with the lowest file index.
   */
  lemma WatchedFileIsLargestWithLowestIndex(dir: string, files: seq<FileEntry>, onDisk: set<string>)
    requires VideoListing(dir, files, onDisk, |files|) != []
    ensures var vs := VideoListing(dir, files, onDisk, |files|);
      var k := LargestVideo(vs);
      forall j :: 0 <= j < |vs| ==>
        vs[j].size < vs[k].size || (vs[j].size == vs[k].size && vs[k].index <= vs[j].index)
  {
    VideoListingSound(dir, files, onDisk, |files|);
  }

  /** The readiness test on the watched file: its local path is set, non-empty, and exists. */
  predicate Playable(v: VideoFile, onDisk: set<string>) {
    v.localPath.Some? && v.localPath.value != "" && v.localPath.value in onDisk
  }

  /** `if torrent:` on a chosen descriptor: there is one and it is not the empty JSON object. */
  predicate Truthy(t: Option<Torrent>) {
    t.Some? && !t.value.noKeys
  }

  class Server {
    /** Whether the engine binding and the manager came up at start-up. */
    const streamingAvailable: bool
    const manager: TorrentManager
    var activeSessions: map<string, WebSession>

    /**
     * Sessions are filed under their own id, a session's torrent id is never the
     * empty string, and without streaming no session is ever created.
     */
    ghost predicate Valid()
      reads this, manager
    {
      && manager.Valid()
      && (forall id :: id in activeSessions ==>
            activeSessions[id].sessionId == id && activeSessions[id].currentTorrentId != Some(""))
      && (!streamingAvailable ==> activeSessions == map[])
    }

    constructor (streamingAvailable: bool, manager: TorrentManager)
      requires manager.Valid()
      ensures Valid()
      ensures this.streamingAvailable == streamingAvailable && this.manager == manager
      ensures activeSessions == map[]
    {
      this.streamingAvailable := streamingAvailable;
      this.manager := manager;
      activeSessions := map[];
    }

    /**
     * `play_movie`. `quality` and `sessionId` are the request's keys (None when
     * absent), `movie` the catalog's answer for the requested id, and `added`
     * the engine's answer to adding the chosen torrent (its info-hash, or None
     * when it raises). Each guard fails with its own code; the session is
     * created on first sight before the movie lookup, and only a started
     * torrent changes it.
     */
    method PlayMovie(quality: Option<string>, sessionId: Option<string>, movie: Option<MovieDetails>,
                     added: Option<string>) returns (r: PlayResponse)
      requires Valid()
      modifies this, manager
      ensures Valid()
      ensures !streamingAvailable ==>
        && r == PlayFailed(503, UnavailableMessage)
        && activeSessions == old(activeSessions)
        && manager.activeTorrents == old(manager.activeTorrents)
      ensures streamingAvailable ==>
        var sid := sessionId.GetOr("default");
        var before := if sid in old(activeSessions) then old(activeSessions)[sid] else NewSession(sid);
        var chosen := if movie.Some? then GetBestTorrent(movie.value, quality.GetOr("720p")) else None;
        && activeSessions.Keys == old(activeSessions).Keys + {sid}
        && (forall other :: other in old(activeSessions) && other != sid ==>
              activeSessions[other] == old(activeSessions)[other])
        && (movie.None? ==> r == PlayFailed(404, MovieNotFoundMessage))
        && (movie.Some? && !Truthy(chosen) ==> r == PlayFailed(400, NoTorrentMessage))
        && (!Truthy(chosen) || added.None? ==> manager.activeTorrents == old(manager.activeTorrents))
        && (Truthy(chosen) && added.Some? ==>
              manager.activeTorrents == old(manager.activeTorrents)[added.value :=
                TorrentRecord(added.value, chosen.value.url, Some(sid), "downloading", 0.0, 0, 0, 0, [])])
        && (Truthy(chosen) && (added.None? || added.value == "") ==> r == PlayFailed(500, StartFailedMessage))
        && (r.PlayFailed? ==> activeSessions[sid] == before)
        && (Truthy(chosen) && added.Some? && added.value != "" ==>
              && r == Started(added.value)
              && activeSessions[sid] ==
                   before.(currentTorrentId := added, currentMovie := movie, status := "downloading"))
      ensures r.Started? ==>
        var sid := sessionId.GetOr("default");
        && GetStatus(sid).SessionStatus?
        && GetStatus(sid).status == "downloading"
        && GetStatus(sid).torrentStatus == Some(manager.activeTorrents[r.torrentId])
        && manager.activeTorrents[r.torrentId].status == "downloading"
    {
      if !streamingAvailable {
        return PlayFailed(503, UnavailableMessage);
      }
      var q := quality.GetOr("720p");
      var sid := sessionId.GetOr("default");
      if sid !in activeSessions {
        activeSessions := activeSessions[sid := NewSession(sid)];
      }
      var session := activeSessions[sid];
      if movie.None? {
        return PlayFailed(404, MovieNotFoundMessage);
      }
      var torrent := GetBestTorrent(movie.value, q);
      if !Truthy(torrent) {
        return PlayFailed(400, NoTorrentMessage);
      }
      var torrentId := manager.AddTorrent(torrent.value.url, Some(sid), added);
      if torrentId.Some? && torrentId.value != "" {
        session := session.(currentTorrentId := torrentId, currentMovie := movie, status := "downloading");
        activeSessions := activeSessions[sid := session];
        return Started(torrentId.value);
      }
      return PlayFailed(500, StartFailedMessage);
    }

    /**
     * `get_status`: 404 for an unknown session; otherwise its status, progress and
     * movie, and the torrent's record only when the session has a torrent id, the
     * manager exists and the record is still in the store.
     */
    function GetStatus(sessionId: string): (r: StatusResponse)
      reads this, manager
      ensures r.SessionNotFound? <==> sessionId !in activeSessions
      ensures r.SessionStatus? ==>
        var s := activeSessions[sessionId];
        && r.status == s.status && r.progress == s.downloadProgress
        && r.currentMovie == s.currentMovie && r.streamingAvailable == streamingAvailable
        && (r.torrentStatus.Some? <==>
              streamingAvailable && s.currentTorrentId.Some? && s.currentTorrentId.value != "" &&
              s.currentTorrentId.value in manager.activeTorrents)
        && (r.torrentStatus.Some? ==> r.torrentStatus.value == manager.activeTorrents[s.currentTorrentId.value])
    {
      if sessionId !in activeSessions then SessionNotFound
      else
        var s := activeSessions[sessionId];
        var torrentStatus :=
          if s.currentTorrentId.Some? && s.currentTorrentId.value != "" && streamingAvailable
          then manager.GetTorrentStatus(s.currentTorrentId.value)
          else None;
        SessionStatus(s.status, s.downloadProgress, torrentStatus, s.currentMovie, streamingAvailable)
    }

    /** A session nobody has played in yet reports "ready", progress 0 and no torrent or movie. */
    lemma NewSessionReportsReady(sessionId: string)
      requires sessionId in activeSessions && activeSessions[sessionId] == NewSession(sessionId)
      ensures GetStatus(sessionId) == SessionStatus("ready", 0.0, None, None, streamingAvailable)
    {
    }

    /**
     * `_on_torrent_progress`: for a known session, progress and status are set
     * from the info (defaults 0 and "downloading") and an event carrying the
     * just-set values is emitted. The torrent id is not compared with the
     * session's current one.
     */
    method OnTorrentProgress(sessionId: string, torrentId: string, info: ProgressInfo) returns (ev: Option<Event>)
      requires Valid()
      modifies this
      ensures Valid()
      ensures sessionId !in old(activeSessions) ==> ev == None && activeSessions == old(activeSessions)
      ensures sessionId in old(activeSessions) ==>
        var s := old(activeSessions)[sessionId].(downloadProgress := info.progress.GetOr(0.0),
                                                 status := info.status.GetOr("downloading"));
        && activeSessions == old(activeSessions)[sessionId := s]
        && ev == Some(TorrentProgress(sessionId, s.downloadProgress, s.status,
                                      info.downloadRate.GetOr(0), info.peers.GetOr(0)))
    {
      if sessionId !in activeSessions {
        return None;
      }
      var session := activeSessions[sessionId];
      session := session.(downloadProgress := info.progress.GetOr(0.0), status := info.status.GetOr("downloading"));
      activeSessions := activeSessions[sessionId := session];
      ev := Some(TorrentProgress(sessionId, session.downloadProgress, session.status,
                                 info.downloadRate.GetOr(0), info.peers.GetOr(0)));
    }

    /** The readiness loop of `sessionId` is still bound to `torrentId`. */
    predicate Bound(sessionId: string, torrentId: string)
      reads this
    {
      streamingAvailable && sessionId in activeSessions &&
      activeSessions[sessionId].currentTorrentId == Some(torrentId)
    }

    /**
     * One tick of `_monitor_for_video_files`. The loop runs only while the
     * session's current torrent is `torrentId`. The largest video file is
     * watched; once its local path is set and exists, the session becomes
     * "ready_to_play", a `video_ready` event is emitted and the loop stops.
     */
    method ReadinessTick(sessionId: string, torrentId: string, onDisk: set<string>)
      returns (tick: Tick, ev: Option<Event>)
      requires Valid()
      modifies this
      ensures Valid()
      ensures !old(Bound(sessionId, torrentId)) ==>
        tick == Stop && ev == None && activeSessions == old(activeSessions)
      ensures old(Bound(sessionId, torrentId)) ==>
        var vs := manager.VideoFiles(torrentId, onDisk);
        var ready := vs != [] && Playable(vs[LargestVideo(vs)], onDisk);
        var s := old(activeSessions)[sessionId];
        && (ready ==>
              && tick == Stop
              && activeSessions == old(activeSessions)[sessionId := s.(status := "ready_to_play")]
              && ev == Some(VideoReady(sessionId, VideoUrl(sessionId), s.currentMovie)))
        && (!ready ==> tick == Continue && ev == None && activeSessions == old(activeSessions))
    {
      if !Bound(sessionId, torrentId) {
        return Stop, None;
      }
      var videos := manager.GetVideoFiles(torrentId, onDisk);
      if videos != [] {
        var main := videos[LargestVideo(videos)];
        if main.localPath.Some? && main.localPath.value != "" && main.localPath.value in onDisk {
          var session := activeSessions[sessionId];
          activeSessions := activeSessions[sessionId := session.(status := "ready_to_play")];
          return Stop, Some(VideoReady(sessionId, VideoUrl(sessionId), session.currentMovie));
        }
      }
      return Continue, None;
    }

    /**
     * One tick of a torrent's monitor with its callback wired, as `play_movie`
     * wires it, to `_on_torrent_progress` of the session that started it. The
     * callback runs before a finished torrent is marked "completed", so the
     * session receives the engine's state string, never "completed".
     */
    method MonitorTick(id: string, s: EngineStatus) returns (tick: Tick, ev: Option<Event>)
      requires Valid()
      modifies this, manager
      ensures Valid()
      ensures manager.activeTorrents.Keys == old(manager.activeTorrents).Keys
      ensures forall k :: k in old(manager.activeTorrents) && k != id ==>
        manager.activeTorrents[k] == old(manager.activeTorrents)[k]
      ensures id !in old(manager.activeTorrents) || s.QueryFailed? ==>
        && tick == Stop && ev == None
        && activeSessions == old(activeSessions) && manager.activeTorrents == old(manager.activeTorrents)
      ensures id in old(manager.activeTorrents) && s.Snapshot? ==>
        var rec, now := old(manager.activeTorrents)[id], manager.activeTorrents[id];
        && now.handle == rec.handle && now.url == rec.url && now.callback == rec.callback
        && now.progress == s.progress * 100.0
        && now.downloadRate == s.downloadRate && now.uploadRate == s.uploadRate && now.peers == s.numPeers
        && now.status == (if s.isFinished && !ListingRaises(rec, s) then "completed" else s.state)
        && (if FillsFiles(rec, s) then ListsEngineFiles(now.files, s.metadata.value) else now.files == rec.files)
        && tick == (if s.isFinished || ListingRaises(rec, s) then Stop else Continue)
        && (if !ListingRaises(rec, s) && rec.callback.Some? && rec.callback.value in old(activeSessions) then
              var sid := rec.callback.value;
              && activeSessions == old(activeSessions)[sid := old(activeSessions)[sid].(
                   downloadProgress := s.progress * 100.0, status := s.state)]
              && ev == Some(TorrentProgress(sid, s.progress * 100.0, s.state, s.downloadRate, s.numPeers))
            else
              ev == None && activeSessions == old(activeSessions))
    {
      var note;
      tick, note := manager.MonitorStep(id, s);
      if note.Some? {
        ev := OnTorrentProgress(note.value.callback, note.value.torrentId, InfoOf(note.value.info));
      } else {
        ev := None;
      }
    }
  }
}
