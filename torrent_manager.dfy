/**
 * The download manager: the store of active torrents keyed by info-hash, the
 * control operations on one record, one tick of the per-torrent monitor loop,
 * and the video-file filter. The transfer engine appears only as the values it
 * reports (an info-hash on add, a status snapshot per tick, success or failure
 * of a control call), and the filesystem only as the set of paths that exist.
 */
module Torrents {
  import opened Wrappers

  /** One file of a torrent, as the monitor records it once metadata is known. */
  datatype FileEntry = FileEntry(path: string, size: nat, priority: int)

  /**
   * A record of the store. The engine handle is represented by the info-hash it
   * reports; `callback` is the session the progress callback reports to, if any.
   */
  datatype TorrentRecord = TorrentRecord(
    handle: string,
    url: Option<string>,
    callback: Option<string>,
    status: string,
    progress: real,
    downloadRate: nat,
    uploadRate: nat,
    peers: nat,
    files: seq<FileEntry>)

  /** A file as the engine's metadata lists it; `priority` is None when the engine's query for it fails. */
  datatype EngineFile = EngineFile(path: string, size: nat, priority: Option<int>)

  /**
   * What one status query of the engine yields: a failure, or a snapshot whose
   * `progress` is the engine's completed fraction and whose `metadata` is None
   * until the torrent's file list is known.
   */
  datatype EngineStatus =
    | QueryFailed
    | Snapshot(progress: real, downloadRate: nat, uploadRate: nat, numPeers: nat,
               state: string, isFinished: bool, metadata: Option<seq<EngineFile>>)

  /** Whether a polling loop goes on after a tick. */
  datatype Tick = Continue | Stop

  /** A call of a record's progress callback, with the record as it was at the call. */
  datatype Notification = Notification(callback: string, torrentId: string, info: TorrentRecord)

  /** The outcome of a file-path lookup: a local path, Python's None, or an IndexError raised. */
  datatype PathLookup = LocalFile(path: string) | NoFile | IndexError

  /** An entry of the video-file list: the file's index in the whole torrent and its local path, if any. */
  datatype VideoFile = VideoFile(index: nat, path: string, size: nat, localPath: Option<string>)

  // ---------------------------------------------------------------------------
  // Paths
  // ---------------------------------------------------------------------------

  /** `str.lower` on one character, for ASCII letters. */
  function LowerChar(c: char): char {
    if 'A' <= c <= 'Z' then (c as int + 32) as char else c
  }

  /** `str.lower`, character by character. */
  function Lower(s: string): string {
    if s == [] then [] else [LowerChar(s[0])] + Lower(s[1..])
  }

  /** `s.endswith(suffix)`, compared from the last character backwards. */
  predicate EndsWith(s: string, suffix: string) {
    if suffix == [] then true
    else s != [] && s[|s| - 1] == suffix[|suffix| - 1] && EndsWith(s[..|s| - 1], suffix[..|suffix| - 1])
  }

  lemma {:induction false} EndsWithAppended(a: string, b: string)
    ensures EndsWith(a + b, b)
  {
    if b != [] {
      assert (a + b)[..|a + b| - 1] == a + b[..|b| - 1];
      EndsWithAppended(a, b[..|b| - 1]);
    }
  }

  /** The container extensions recognised as video. */
  const VideoExtensions: seq<string> := [".mp4", ".mkv", ".avi", ".mov", ".wmv", ".flv", ".webm", ".m4v"]

  /** `any(s.endswith(ext) for ext in exts)`. */
  predicate EndsWithAny(s: string, exts: seq<string>) {
    exts != [] && (EndsWith(s, exts[0]) || EndsWithAny(s, exts[1..]))
  }

  /** The lower-cased path ends with one of the video extensions. */
  predicate IsVideoPath(p: string) {
    EndsWithAny(Lower(p), VideoExtensions)
  }

  /** Lower-casing distributes over concatenation. */
  lemma {:induction false} LowerAppend(a: string, b: string)
    ensures Lower(a + b) == Lower(a) + Lower(b)
  {
    if a == [] {
      assert a + b == b;
    } else {
      assert (a + b)[0] == a[0] && (a + b)[1..] == a[1..] + b;
      LowerAppend(a[1..], b);
    }
  }

  /** Any path given the `.mp4` extension is a video file. */
  lemma Mp4IsVideo(p: string)
    ensures IsVideoPath(p + ".mp4")
  {
    LowerAppend(p, ".mp4");
    assert Lower(".mp4") == ".mp4";
    EndsWithAppended(Lower(p), ".mp4");
  }

  /** The extension test ignores case: a path given the `.MKV` extension is a video file. */
  lemma UpperCaseExtensionIsVideo(p: string)
    ensures IsVideoPath(p + ".MKV")
  {
    LowerAppend(p, ".MKV");
    assert Lower(".MKV") == ".mkv";
    EndsWithAppended(Lower(p), ".mkv");
    assert !EndsWith(Lower(p) + ".mkv", ".mp4");
  }

  /**
   * `os.path.join(dir, p)` on POSIX: an absolute `p` replaces `dir`; otherwise
   * `p` is appended, with a separator unless `dir` is empty or already ends in one.
   */
  function Join(dir: string, p: string): (r: string)
    ensures EndsWith(r, p)
    ensures |p| > 0 && p[0] == '/' ==> r == p
    ensures !(|p| > 0 && p[0] == '/') ==> |dir| <= |r| && r[..|dir|] == dir
  {
    if |p| > 0 && p[0] == '/' then EndsWithAppended([], p); assert [] + p == p; p
    else if dir == [] || dir[|dir| - 1] == '/' then EndsWithAppended(dir, p); dir + p
    else EndsWithAppended(dir + "/", p); dir + "/" + p
  }

  /** The local path of file `i`, when the joined path exists. */
  function LocalPathOf(dir: string, files: seq<FileEntry>, i: nat, onDisk: set<string>): Option<string>
    requires i < |files|
  {
    var p := Join(dir, files[i].path);
    if p in onDisk then Some(p) else None
  }

  // ---------------------------------------------------------------------------
  // The video-file filter, as a specification
  // ---------------------------------------------------------------------------

  function VideoEntry(dir: string, files: seq<FileEntry>, i: nat, onDisk: set<string>): VideoFile
    requires i < |files|
  {
    VideoFile(i, files[i].path, files[i].size, LocalPathOf(dir, files, i, onDisk))
  }

  /** The video entries among the first `n` files, appended in index order. */
  function VideoListing(dir: string, files: seq<FileEntry>, onDisk: set<string>, n: nat): seq<VideoFile>
    requires n <= |files|
  {
    if n == 0 then []
    else
      VideoListing(dir, files, onDisk, n - 1) +
      (if IsVideoPath(files[n - 1].path) then [VideoEntry(dir, files, n - 1, onDisk)] else [])
  }

  /** One more file extends the listing by its entry exactly when it is a video file. */
  lemma VideoListingStep(dir: string, files: seq<FileEntry>, onDisk: set<string>, i: nat)
    requires i < |files|
    ensures VideoListing(dir, files, onDisk, i + 1) ==
      VideoListing(dir, files, onDisk, i) + (if IsVideoPath(files[i].path) then [VideoEntry(dir, files, i, onDisk)] else [])
  {
  }

  /** Every entry is a video file among the first `n`, carrying its index, path, size and local path. */
  ghost predicate EntriesAreVideoFiles(vs: seq<VideoFile>, dir: string, files: seq<FileEntry>, onDisk: set<string>, n: nat)
    requires n <= |files|
  {
    forall k :: 0 <= k < |vs| ==>
      vs[k].index < n && IsVideoPath(files[vs[k].index].path) && vs[k] == VideoEntry(dir, files, vs[k].index, onDisk)
  }

  /** Entries appear in the order of the files they describe. */
  ghost predicate IndicesIncrease(vs: seq<VideoFile>) {
    forall k, l :: 0 <= k < l < |vs| ==> vs[k].index < vs[l].index
  }

  /** The listing holds only video files, each with its own index, path, size and local path, in file order. */
  lemma {:induction false} VideoListingSound(dir: string, files: seq<FileEntry>, onDisk: set<string>, n: nat)
    requires n <= |files|
    ensures EntriesAreVideoFiles(VideoListing(dir, files, onDisk, n), dir, files, onDisk, n)
    ensures IndicesIncrease(VideoListing(dir, files, onDisk, n))
  {
    if n > 0 {
      VideoListingSound(dir, files, onDisk, n - 1);
      var prev := VideoListing(dir, files, onDisk, n - 1);
      if IsVideoPath(files[n - 1].path) {
        var vs := prev + [VideoEntry(dir, files, n - 1, onDisk)];
        assert VideoListing(dir, files, onDisk, n) == vs;
        assert forall k :: 0 <= k < |prev| ==> vs[k] == prev[k];
        assert vs[|prev|].index == n - 1;
        forall k, l | 0 <= k < l < |vs| ensures vs[k].index < vs[l].index {
          if l == |prev| {
            assert vs[k].index == prev[k].index < n - 1;
          }
        }
      } else {
        assert VideoListing(dir, files, onDisk, n) == prev;
      }
    }
  }

  /** Every video file among the first `n` appears in the listing. */
  lemma {:induction false} VideoListingComplete(dir: string, files: seq<FileEntry>, onDisk: set<string>, n: nat, i: nat)
    requires i < n <= |files| && IsVideoPath(files[i].path)
    ensures exists k :: 0 <= k < |VideoListing(dir, files, onDisk, n)| && VideoListing(dir, files, onDisk, n)[k].index == i
  {
    var prev := VideoListing(dir, files, onDisk, n - 1);
    var vs := VideoListing(dir, files, onDisk, n);
    if i == n - 1 {
      assert vs[|prev|].index == i;
    } else {
      VideoListingComplete(dir, files, onDisk, n - 1, i);
      var k :| 0 <= k < |prev| && prev[k].index == i;
      assert vs[k] == prev[k];
    }
  }

  /** A list of video files loses nothing to the filter: every entry is kept, in place. */
  lemma {:induction false} AllVideoKept(dir: string, files: seq<FileEntry>, onDisk: set<string>, n: nat)
    requires n <= |files|
    requires forall i :: 0 <= i < n ==> IsVideoPath(files[i].path)
    ensures |VideoListing(dir, files, onDisk, n)| == n
    ensures forall k :: 0 <= k < n ==> VideoListing(dir, files, onDisk, n)[k] == VideoEntry(dir, files, k, onDisk)
  {
    if n > 0 {
      AllVideoKept(dir, files, onDisk, n - 1);
    }
  }

  /** Two files with the same path and size give the same entry, up to the index. */
  lemma SamePathSameEntry(dir: string, files: seq<FileEntry>, i: nat, again: seq<FileEntry>, j: nat, onDisk: set<string>)
    requires i < |files| && j < |again|
    requires again[j].path == files[i].path && again[j].size == files[i].size
    ensures VideoEntry(dir, again, j, onDisk) == VideoEntry(dir, files, i, onDisk).(index := j)
  {
  }

  /** `again` carries, position by position, the paths and sizes of the entries `vs`. */
  ghost predicate SamePathsAndSizes(again: seq<FileEntry>, vs: seq<VideoFile>) {
    |again| == |vs| && forall k :: 0 <= k < |vs| ==> again[k].path == vs[k].path && again[k].size == vs[k].size
  }

  /** Files carrying the paths of video entries are video files themselves. */
  lemma RelistedAreVideo(vs: seq<VideoFile>, dir: string, files: seq<FileEntry>, onDisk: set<string>, again: seq<FileEntry>)
    requires EntriesAreVideoFiles(vs, dir, files, onDisk, |files|) && SamePathsAndSizes(again, vs)
    ensures forall i :: 0 <= i < |again| ==> IsVideoPath(again[i].path)
  {
    forall i | 0 <= i < |again| ensures IsVideoPath(again[i].path) {
      assert vs[i] == VideoEntry(dir, files, vs[i].index, onDisk) && IsVideoPath(files[vs[i].index].path);
    }
  }

  /** Files carrying the paths and sizes of entries give those entries back, re-indexed by position. */
  lemma RelistedEntries(vs: seq<VideoFile>, dir: string, files: seq<FileEntry>, onDisk: set<string>, again: seq<FileEntry>)
    requires EntriesAreVideoFiles(vs, dir, files, onDisk, |files|) && SamePathsAndSizes(again, vs)
    ensures forall k :: 0 <= k < |vs| ==> VideoEntry(dir, again, k, onDisk) == vs[k].(index := k)
  {
    forall k | 0 <= k < |vs| ensures VideoEntry(dir, again, k, onDisk) == vs[k].(index := k) {
      assert vs[k] == VideoEntry(dir, files, vs[k].index, onDisk);
      SamePathSameEntry(dir, files, vs[k].index, again, k, onDisk);
    }
  }

  /**
   * The filter is idempotent: listing the files of a video listing again (any
   * file entries carrying the same paths and sizes) keeps every entry, in order,
   * changing only its index to the position in the new list.
   */
  lemma ClassifyIdempotent(dir: string, files: seq<FileEntry>, onDisk: set<string>, again: seq<FileEntry>)
    requires SamePathsAndSizes(again, VideoListing(dir, files, onDisk, |files|))
    ensures var vs := VideoListing(dir, files, onDisk, |files|);
      var vs2 := VideoListing(dir, again, onDisk, |again|);
      |vs2| == |vs| && forall k :: 0 <= k < |vs| ==> vs2[k] == vs[k].(index := k)
  {
    var vs := VideoListing(dir, files, onDisk, |files|);
    VideoListingSound(dir, files, onDisk, |files|);
    RelistedAreVideo(vs, dir, files, onDisk, again);
    AllVideoKept(dir, again, onDisk, |again|);
    RelistedEntries(vs, dir, files, onDisk, again);
  }

  // ---------------------------------------------------------------------------
  // The monitor's file listing
  // ---------------------------------------------------------------------------

  /** `files` holds one entry per engine file, in index order, with the priority the engine reported. */
  ghost predicate ListsEngineFiles(files: seq<FileEntry>, meta: seq<EngineFile>) {
    |files| == |meta| &&
    forall i :: 0 <= i < |meta| ==>
      meta[i].priority.Some? && files[i] == FileEntry(meta[i].path, meta[i].size, meta[i].priority.value)
  }

  /**
   * The file-list loop of the monitor: one entry per engine file, appended in
   * index order; a failed priority query raises (None) and discards the partial list.
   */
  method BuildFileList(meta: seq<EngineFile>) returns (files: Option<seq<FileEntry>>)
    ensures files.Some? <==> forall i :: 0 <= i < |meta| ==> meta[i].priority.Some?
    ensures files.Some? ==> ListsEngineFiles(files.value, meta)
  {
    var acc: seq<FileEntry> := [];
    var i := 0;
    while i < |meta|
      invariant 0 <= i <= |meta|
      invariant ListsEngineFiles(acc, meta[..i])
    {
      if meta[i].priority.None? {
        return None;
      }
      acc := acc + [FileEntry(meta[i].path, meta[i].size, meta[i].priority.value)];
      i := i + 1;
    }
    assert meta[..i] == meta;
    files := Some(acc);
  }

  /** Filling the file list on this tick raises: it is due, and some priority query fails. */
  predicate ListingRaises(rec: TorrentRecord, s: EngineStatus)
    requires s.Snapshot?
  {
    rec.files == [] && s.metadata.Some? &&
    exists i :: 0 <= i < |s.metadata.value| && s.metadata.value[i].priority.None?
  }

  /** The file list is filled on this tick: it is still empty, metadata is known, and listing succeeds. */
  predicate FillsFiles(rec: TorrentRecord, s: EngineStatus)
    requires s.Snapshot?
  {
    rec.files == [] && s.metadata.Some? && !ListingRaises(rec, s)
  }

  // ---------------------------------------------------------------------------
  // The store
  // ---------------------------------------------------------------------------

  class TorrentManager {
    var activeTorrents: map<string, TorrentRecord>
    const downloadDir: string

    /** Every record is filed under the info-hash of its own handle. */
    ghost predicate Valid()
      reads this
    {
      forall id :: id in activeTorrents ==> activeTorrents[id].handle == id
    }

    /** An empty store downloading into `downloadDir` (a fresh temporary directory in the source). */
    constructor (downloadDir: string)
      ensures Valid()
      ensures activeTorrents == map[] && this.downloadDir == downloadDir
    {
      activeTorrents := map[];
      this.downloadDir := downloadDir;
    }

    /**
     * `add_torrent`. `added` is the info-hash of the handle the engine returns,
     * or None when the engine raises. On success the record is stored under that
     * hash (replacing any record already there) with status "downloading" and
     * zero progress, rates and peers, and no files.
     */
    method AddTorrent(url: Option<string>, callback: Option<string>, added: Option<string>)
      returns (torrentId: Option<string>)
      requires Valid()
      modifies this
      ensures Valid()
      ensures torrentId == added
      ensures added.None? ==> activeTorrents == old(activeTorrents)
      ensures added.Some? ==>
        activeTorrents == old(activeTorrents)[added.value :=
          TorrentRecord(added.value, url, callback, "downloading", 0.0, 0, 0, 0, [])]
    {
      if added.None? {
        return None;
      }
      var id := added.value;
      activeTorrents := activeTorrents[id := TorrentRecord(id, url, callback, "downloading", 0.0, 0, 0, 0, [])];
      torrentId := Some(id);
    }

    /** `get_torrent_status`: the record under `id`, or None. */
    function GetTorrentStatus(id: string): (r: Option<TorrentRecord>)
      reads this
      ensures r.Some? <==> id in activeTorrents
      ensures r.Some? ==> r.value == activeTorrents[id]
    {
      if id in activeTorrents then Some(activeTorrents[id]) else None
    }

    /** `get_torrent_files`: the record's file list, empty for an unknown id. */
    function GetTorrentFiles(id: string): (files: seq<FileEntry>)
      reads this
      ensures id in activeTorrents ==> files == activeTorrents[id].files
      ensures id !in activeTorrents ==> files == []
    {
      if id in activeTorrents then activeTorrents[id].files else []
    }

    /**
     * `get_file_path`: the download directory joined with the file's path, if that
     * path exists. An index counts from the end when negative, as Python's does.
     */
    function GetFilePath(id: string, fileIndex: int, onDisk: set<string>): (r: PathLookup)
      reads this
      ensures id !in activeTorrents ==> r == NoFile
      ensures id in activeTorrents && fileIndex >= |activeTorrents[id].files| ==> r == NoFile
      ensures r.IndexError? <==> id in activeTorrents && fileIndex < -|activeTorrents[id].files|
      ensures r.LocalFile? ==>
        && r.path in onDisk && id in activeTorrents
        && exists i :: 0 <= i < |activeTorrents[id].files| && r.path == Join(downloadDir, activeTorrents[id].files[i].path)
      ensures id in activeTorrents && -|activeTorrents[id].files| <= fileIndex < |activeTorrents[id].files| ==>
        var files := activeTorrents[id].files;
        LocalPathOf(downloadDir, files, if fileIndex < 0 then fileIndex + |files| else fileIndex, onDisk) ==
          (if r.LocalFile? then Some(r.path) else None)
    {
      if id !in activeTorrents then NoFile
      else
        var files := activeTorrents[id].files;
        if fileIndex >= |files| then NoFile
        else if fileIndex < -|files| then IndexError
        else
          var i := if fileIndex < 0 then fileIndex + |files| else fileIndex;
          var p := Join(downloadDir, files[i].path);
          if p in onDisk then LocalFile(p) else NoFile
    }

    /**
     * `prioritize_file`: True exactly when the record exists and the engine
     * accepts the priority. The store is not changed (the recorded priorities stay as listed).
     */
    function PrioritizeFile(id: string, fileIndex: int, priority: int, engineAccepts: bool): (ok: bool)
      reads this
      ensures ok ==> id in activeTorrents
      ensures id in activeTorrents ==> ok == engineAccepts
    {
      id in activeTorrents && engineAccepts
    }

    /** `pause_torrent`: on an existing record whose engine pause succeeds, status becomes "paused". */
    method PauseTorrent(id: string, engineAccepts: bool) returns (ok: bool)
      requires Valid()
      modifies this
      ensures Valid()
      ensures ok == (id in old(activeTorrents) && engineAccepts)
      ensures ok ==> activeTorrents == old(activeTorrents)[id := old(activeTorrents)[id].(status := "paused")]
      ensures !ok ==> activeTorrents == old(activeTorrents)
    {
      if id !in activeTorrents || !engineAccepts {
        return false;
      }
      activeTorrents := activeTorrents[id := activeTorrents[id].(status := "paused")];
      ok := true;
    }

    /** `resume_torrent`: on an existing record whose engine resume succeeds, status becomes "downloading". */
    method ResumeTorrent(id: string, engineAccepts: bool) returns (ok: bool)
      requires Valid()
      modifies this
      ensures Valid()
      ensures ok == (id in old(activeTorrents) && engineAccepts)
      ensures ok ==> activeTorrents == old(activeTorrents)[id := old(activeTorrents)[id].(status := "downloading")]
      ensures !ok ==> activeTorrents == old(activeTorrents)
    {
      if id !in activeTorrents || !engineAccepts {
        return false;
      }
      activeTorrents := activeTorrents[id := activeTorrents[id].(status := "downloading")];
      ok := true;
    }

    /** `remove_torrent`: on an existing record whose engine removal succeeds, exactly that key is deleted. */
    method RemoveTorrent(id: string, engineAccepts: bool) returns (ok: bool)
      requires Valid()
      modifies this
      ensures Valid()
      ensures ok == (id in old(activeTorrents) && engineAccepts)
      ensures ok ==> activeTorrents == old(activeTorrents) - {id}
      ensures !ok ==> activeTorrents == old(activeTorrents)
    {
      if id !in activeTorrents || !engineAccepts {
        return false;
      }
      activeTorrents := activeTorrents - {id};
      ok := true;
    }

    /**
     * One iteration of `_monitor_torrent` for `id`, given the engine's answer to
     * this tick's status query. The loop condition is checked first: a removed id
     * stops the loop. A failed query stops it with nothing changed. Otherwise the
     * snapshot is copied into the record, the file list is filled if it is still
     * empty and metadata is known, the callback is notified, and a finished
     * torrent is marked "completed" (after the callback) and stops the loop.
     */
    method MonitorStep(id: string, s: EngineStatus) returns (tick: Tick, note: Option<Notification>)
      requires Valid()
      modifies this
      ensures Valid()
      ensures activeTorrents.Keys == old(activeTorrents).Keys
      ensures forall k :: k in old(activeTorrents) && k != id ==> activeTorrents[k] == old(activeTorrents)[k]
      ensures id !in old(activeTorrents) || s.QueryFailed? ==>
        tick == Stop && note == None && activeTorrents == old(activeTorrents)
      ensures id in old(activeTorrents) && s.Snapshot? ==>
        var rec, now := old(activeTorrents)[id], activeTorrents[id];
        && now.handle == rec.handle && now.url == rec.url && now.callback == rec.callback
        && now.progress == s.progress * 100.0
        && now.downloadRate == s.downloadRate && now.uploadRate == s.uploadRate && now.peers == s.numPeers
        && now.status == (if s.isFinished && !ListingRaises(rec, s) then "completed" else s.state)
        && (if FillsFiles(rec, s) then ListsEngineFiles(now.files, s.metadata.value) else now.files == rec.files)
        && tick == (if s.isFinished || ListingRaises(rec, s) then Stop else Continue)
        && note == (if ListingRaises(rec, s) || rec.callback.None? then None
                    else Some(Notification(rec.callback.value, id, now.(status := s.state))))
    {
      if id !in activeTorrents || s.QueryFailed? {
        return Stop, None;
      }
      var rec := activeTorrents[id];
      rec := rec.(progress := s.progress * 100.0, downloadRate := s.downloadRate,
                  uploadRate := s.uploadRate, peers := s.numPeers, status := s.state);
      activeTorrents := activeTorrents[id := rec];
      if rec.files == [] && s.metadata.Some? {
        var listed := BuildFileList(s.metadata.value);
        if listed.None? {
          return Stop, None;
        }
        rec := rec.(files := listed.value);
        activeTorrents := activeTorrents[id := rec];
      }
      note := if rec.callback.Some? then Some(Notification(rec.callback.value, id, rec)) else None;
      if s.isFinished {
        rec := rec.(status := "completed");
        activeTorrents := activeTorrents[id := rec];
        tick := Stop;
      } else {
        tick := Continue;
      }
    }

    /** The video-file list of `id` as a specification: the listing of its recorded files. */
    function VideoFiles(id: string, onDisk: set<string>): seq<VideoFile>
      reads this
    {
      VideoListing(downloadDir, GetTorrentFiles(id), onDisk, |GetTorrentFiles(id)|)
    }

    /**
     * `get_video_files`: walks the file list, keeping each video file with its
     * index, path, size and local path (from `get_file_path`).
     */
    method GetVideoFiles(id: string, onDisk: set<string>) returns (videos: seq<VideoFile>)
      ensures videos == VideoFiles(id, onDisk)
    {
      var files := GetTorrentFiles(id);
      videos := [];
      var i := 0;
      while i < |files|
        invariant 0 <= i <= |files|
        invariant videos == VideoListing(downloadDir, files, onDisk, i)
      {
        VideoListingStep(downloadDir, files, onDisk, i);
        if IsVideoPath(files[i].path) {
          var local := GetFilePath(id, i, onDisk);
          var entry := VideoFile(i, files[i].path, files[i].size, if local.LocalFile? then Some(local.path) else None);
          assert entry == VideoEntry(downloadDir, files, i, onDisk) by {
            assert id in activeTorrents && files == activeTorrents[id].files;
          }
          videos := videos + [entry];
        }
        i := i + 1;
      }
    }
  }
}
