/**
 * The pure part of the YTS catalog client: projecting raw API movie objects onto
 * the fixed field set the web layer uses, and choosing the torrent to stream by
 * a quality fallback order. The HTTP calls around them are not modelled.
 */
module YtsScraper {
  import opened Wrappers

  /** One key of a decoded JSON object: absent, present with null, or present with a value. */
  datatype Field<+T> = Missing | Null | Present(value: T)

  /** `d.get(key)`: None both for an absent key and for a JSON null. */
  function Get<T>(f: Field<T>): Option<T> {
    if f.Present? then Some(f.value) else None
  }

  /** `d.get(key, default)`: the default only for an absent key; a JSON null stays None. */
  function GetWithDefault<T>(f: Field<T>, default: T): Option<T> {
    match f
    case Missing => Some(default)
    case Null => None
    case Present(v) => Some(v)
  }

  /**
   * A torrent descriptor as the catalog lists it; the code inspects only `quality`
   * and `url`. `noKeys` marks the empty JSON object, which Python treats as false;
   * a value with `noKeys` set and some field present stands for no JSON object
   * (see `WellFormedTorrent`).
   */
  datatype Torrent = Torrent(
    quality: Option<string>,
    url: Option<string>,
    size: Option<string>,
    seeds: Option<int>,
    peers: Option<int>,
    noKeys: bool)

  /** The descriptor stands for a JSON object: the empty one has none of the modelled keys. */
  predicate WellFormedTorrent(t: Torrent) {
    t.noKeys ==> t.quality.None? && t.url.None? && t.size.None? && t.seeds.None? && t.peers.None?
  }

  /** An entry of a movie's `cast` list, passed through unchanged. */
  datatype CastMember = CastMember(name: Option<string>, characterName: Option<string>)

  /** A movie object exactly as the catalog API returns it. */
  datatype RawMovie = RawMovie(
    id: Field<int>,
    title: Field<string>,
    year: Field<int>,
    rating: Field<real>,
    runtime: Field<int>,
    genres: Field<seq<string>>,
    summary: Field<string>,
    language: Field<string>,
    mpaRating: Field<string>,
    backgroundImage: Field<string>,
    mediumCoverImage: Field<string>,
    largeCoverImage: Field<string>,
    torrents: Field<seq<Torrent>>,
    cast: Field<seq<CastMember>>,
    director: Field<string>,
    imdbCode: Field<string>,
    ytTrailerCode: Field<string>)

  /** The fixed field set of a movie in a listing. */
  datatype Movie = Movie(
    id: Option<int>,
    title: Option<string>,
    year: Option<int>,
    rating: Option<real>,
    runtime: Option<int>,
    genres: Option<seq<string>>,
    summary: Option<string>,
    language: Option<string>,
    mpaRating: Option<string>,
    backgroundImage: Option<string>,
    mediumCoverImage: Option<string>,
    largeCoverImage: Option<string>,
    torrents: Option<seq<Torrent>>)

  /** The field set of a movie's detail page: the listing fields plus four more. */
  datatype MovieDetails = MovieDetails(
    id: Option<int>,
    title: Option<string>,
    year: Option<int>,
    rating: Option<real>,
    runtime: Option<int>,
    genres: Option<seq<string>>,
    summary: Option<string>,
    language: Option<string>,
    mpaRating: Option<string>,
    backgroundImage: Option<string>,
    mediumCoverImage: Option<string>,
    largeCoverImage: Option<string>,
    torrents: Option<seq<Torrent>>,
    cast: Option<seq<CastMember>>,
    director: Option<string>,
    imdbCode: Option<string>,
    ytTrailerCode: Option<string>)

  // ---------------------------------------------------------------------------
  // Projections
  // ---------------------------------------------------------------------------

  /** A field read with `get`: its value when present, None when absent or null. */
  predicate ReadWithGet<T(==)>(f: Field<T>, o: Option<T>) {
    (f.Present? ==> o == Some(f.value)) && (!f.Present? ==> o.None?)
  }

  /** A field read with `get` and a default: the default only when absent. */
  predicate ReadWithDefault<T(==)>(f: Field<T>, o: Option<T>, default: T) {
    (f.Present? ==> o == Some(f.value)) && (f.Missing? ==> o == Some(default)) && (f.Null? ==> o.None?)
  }

  /**
   * One movie of a listing: every field is read with `get`, and `genres` and
   * `torrents` default to the empty list, so they are None only for an explicit null.
   */
  function ProcessMovie(m: RawMovie): (r: Movie)
    ensures ReadWithGet(m.id, r.id) && ReadWithGet(m.title, r.title) && ReadWithGet(m.year, r.year)
    ensures ReadWithGet(m.rating, r.rating) && ReadWithGet(m.runtime, r.runtime)
    ensures ReadWithGet(m.summary, r.summary) && ReadWithGet(m.language, r.language)
    ensures ReadWithGet(m.mpaRating, r.mpaRating) && ReadWithGet(m.backgroundImage, r.backgroundImage)
    ensures ReadWithGet(m.mediumCoverImage, r.mediumCoverImage) && ReadWithGet(m.largeCoverImage, r.largeCoverImage)
    ensures ReadWithDefault(m.genres, r.genres, [])
    ensures ReadWithDefault(m.torrents, r.torrents, [])
  {
    Movie(
      Get(m.id), Get(m.title), Get(m.year), Get(m.rating), Get(m.runtime),
      GetWithDefault(m.genres, []),
      Get(m.summary), Get(m.language), Get(m.mpaRating),
      Get(m.backgroundImage), Get(m.mediumCoverImage), Get(m.largeCoverImage),
      GetWithDefault(m.torrents, []))
  }

  /** `_process_movies`: the projection of every movie, appended one by one. */
  method ProcessMovies(movies: seq<RawMovie>) returns (processed: seq<Movie>)
    ensures |processed| == |movies|
    ensures forall i :: 0 <= i < |movies| ==> processed[i] == ProcessMovie(movies[i])
  {
    processed := [];
    var i := 0;
    while i < |movies|
      invariant 0 <= i <= |movies|
      invariant |processed| == i
      invariant forall j :: 0 <= j < i ==> processed[j] == ProcessMovie(movies[j])
    {
      processed := processed + [ProcessMovie(movies[i])];
      i := i + 1;
    }
  }

  /** The listing fields of a detail record. */
  function ListingFields(d: MovieDetails): Movie {
    Movie(d.id, d.title, d.year, d.rating, d.runtime, d.genres, d.summary, d.language,
          d.mpaRating, d.backgroundImage, d.mediumCoverImage, d.largeCoverImage, d.torrents)
  }

  /**
   * `_process_movie_details`: the same thirteen fields as a listing entry, plus
   * `cast` (defaulting to the empty list), `director`, `imdb_code` and `yt_trailer_code`.
   */
  function ProcessMovieDetails(m: RawMovie): (r: MovieDetails)
    ensures ListingFields(r) == ProcessMovie(m)
    ensures ReadWithDefault(m.cast, r.cast, [])
    ensures ReadWithGet(m.director, r.director) && ReadWithGet(m.imdbCode, r.imdbCode)
    ensures ReadWithGet(m.ytTrailerCode, r.ytTrailerCode)
  {
    MovieDetails(
      Get(m.id), Get(m.title), Get(m.year), Get(m.rating), Get(m.runtime),
      GetWithDefault(m.genres, []),
      Get(m.summary), Get(m.language), Get(m.mpaRating),
      Get(m.backgroundImage), Get(m.mediumCoverImage), Get(m.largeCoverImage),
      GetWithDefault(m.torrents, []),
      GetWithDefault(m.cast, []),
      Get(m.director), Get(m.imdbCode), Get(m.ytTrailerCode))
  }

  // ---------------------------------------------------------------------------
  // Quality selection
  // ---------------------------------------------------------------------------

  /** The fixed fallback order of known qualities. */
  const KnownQualities: seq<string> := ["2160p", "1080p", "720p", "480p"]

  /** `[q for q in qs if q != x]`. */
  function Without(qs: seq<string>, x: string): (r: seq<string>)
    ensures forall q :: q in r <==> q in qs && q != x
    ensures |r| <= |qs|
  {
    if qs == [] then [] else (if qs[0] == x then [] else [qs[0]]) + Without(qs[1..], x)
  }

  /**
   * The search order: a known preferred quality first and the other three in the
   * fixed order; an unknown preference is ignored.
   */
  function QualityOrder(preferred: string): (order: seq<string>)
    ensures forall q :: q in order <==> q in KnownQualities
    ensures preferred in KnownQualities ==> order[0] == preferred
    ensures preferred !in KnownQualities ==> order == KnownQualities
  {
    if preferred in KnownQualities then [preferred] + Without(KnownQualities, preferred)
    else KnownQualities
  }

  /** The index of the first torrent, in list order, whose quality is exactly `q`. */
  function FirstWithQuality(ts: seq<Torrent>, q: string): (r: Option<nat>)
    ensures r.Some? ==> r.value < |ts| && ts[r.value].quality == Some(q)
    ensures r.Some? ==> forall i :: 0 <= i < r.value ==> ts[i].quality != Some(q)
    ensures r.None? ==> forall i :: 0 <= i < |ts| ==> ts[i].quality != Some(q)
  {
    if ts == [] then None
    else if ts[0].quality == Some(q) then Some(0)
    else match FirstWithQuality(ts[1..], q)
      case None => None
      case Some(k) => Some(k + 1)
  }

  /** The nested search of `get_best_torrent`: qualities in `order`, torrents in list order, else the first. */
  function SearchIndex(ts: seq<Torrent>, order: seq<string>): (k: nat)
    requires ts != []
    ensures k < |ts|
  {
    if order == [] then 0
    else match FirstWithQuality(ts, order[0])
      case Some(i) => i
      case None => SearchIndex(ts, order[1..])
  }

  /** `get_best_torrent`: None for a movie without torrents, else the chosen descriptor. */
  function GetBestTorrent(movie: MovieDetails, preferred: string): (r: Option<Torrent>)
    ensures r.None? <==> movie.torrents.None? || movie.torrents.value == []
    ensures r.Some? ==> r.value in movie.torrents.value
  {
    match movie.torrents
    case None => None
    case Some(ts) => if ts == [] then None else Some(ts[SearchIndex(ts, QualityOrder(preferred))])
  }

  /**
   * The search picks the earliest torrent of the earliest quality in `order`
   * that any torrent has.
   */
  lemma {:induction false} SearchFindsEarliestQuality(ts: seq<Torrent>, order: seq<string>, j: nat, i: nat)
    requires ts != [] && j < |order| && i < |ts| && ts[i].quality == Some(order[j])
    requires forall j', i' :: 0 <= j' < j && 0 <= i' < |ts| ==> ts[i'].quality != Some(order[j'])
    ensures ts[SearchIndex(ts, order)].quality == Some(order[j])
    ensures forall i' :: 0 <= i' < SearchIndex(ts, order) ==> ts[i'].quality != Some(order[j])
  {
    if j == 0 {
      assert FirstWithQuality(ts, order[0]).Some?;
    } else {
      assert ts[i].quality != Some(order[0]);
      assert FirstWithQuality(ts, order[0]).None?;
      forall j', i' | 0 <= j' < j - 1 && 0 <= i' < |ts|
        ensures ts[i'].quality != Some(order[1..][j'])
      {
        assert order[1..][j'] == order[j' + 1];
      }
      SearchFindsEarliestQuality(ts, order[1..], j - 1, i);
    }
  }

  /** When no torrent has any quality in `order`, the search falls back to the first torrent. */
  lemma {:induction false} SearchFallsBackToFirst(ts: seq<Torrent>, order: seq<string>)
    requires ts != []
    requires forall i, q :: 0 <= i < |ts| && q in order ==> ts[i].quality != Some(q)
    ensures SearchIndex(ts, order) == 0
  {
    if order != [] {
      assert order[0] in order;
      SearchFallsBackToFirst(ts, order[1..]);
    }
  }

  /**
   * The selection rule: the result is the first torrent, in list order, of the
   * earliest quality in `QualityOrder(preferred)` that any torrent has.
   */
  lemma BestTorrentPicksEarliestQuality(movie: MovieDetails, preferred: string, j: nat, i: nat)
    requires movie.torrents.Some?
    requires var ts, order := movie.torrents.value, QualityOrder(preferred);
      j < |order| && i < |ts| && ts[i].quality == Some(order[j]) &&
      forall j', i' :: 0 <= j' < j && 0 <= i' < |ts| ==> ts[i'].quality != Some(order[j'])
    ensures var ts, order := movie.torrents.value, QualityOrder(preferred);
      exists k :: 0 <= k < |ts| && GetBestTorrent(movie, preferred) == Some(ts[k]) &&
        ts[k].quality == Some(order[j]) &&
        forall i' :: 0 <= i' < k ==> ts[i'].quality != Some(order[j])
  {
    var ts, order := movie.torrents.value, QualityOrder(preferred);
    SearchFindsEarliestQuality(ts, order, j, i);
    var k := SearchIndex(ts, order);
    assert GetBestTorrent(movie, preferred) == Some(ts[k]);
  }

  /** A known preferred quality that some torrent has is honoured: its first torrent is chosen. */
  lemma BestTorrentHonoursPreference(movie: MovieDetails, preferred: string, i: nat)
    requires preferred in KnownQualities
    requires movie.torrents.Some? && i < |movie.torrents.value|
    requires movie.torrents.value[i].quality == Some(preferred)
    ensures var ts := movie.torrents.value;
      exists k :: 0 <= k <= i && GetBestTorrent(movie, preferred) == Some(ts[k]) &&
        ts[k].quality == Some(preferred) &&
        forall i' :: 0 <= i' < k ==> ts[i'].quality != Some(preferred)
  {
    var ts, order := movie.torrents.value, QualityOrder(preferred);
    SearchFindsEarliestQuality(ts, order, 0, i);
    var k := SearchIndex(ts, order);
    assert GetBestTorrent(movie, preferred) == Some(ts[k]);
  }

  /** If no torrent has one of the four known qualities, the first torrent is returned. */
  lemma BestTorrentDefaultsToFirst(movie: MovieDetails, preferred: string)
    requires movie.torrents.Some? && movie.torrents.value != []
    requires forall i :: 0 <= i < |movie.torrents.value| ==>
      movie.torrents.value[i].quality.None? || movie.torrents.value[i].quality.value !in KnownQualities
    ensures GetBestTorrent(movie, preferred) == Some(movie.torrents.value[0])
  {
    var ts, order := movie.torrents.value, QualityOrder(preferred);
    forall i, q | 0 <= i < |ts| && q in order ensures ts[i].quality != Some(q) {
      assert q in KnownQualities;
    }
    SearchFallsBackToFirst(ts, order);
  }

  /** Some quality of `order` that a torrent has is the earliest such: none before it is matched. */
  lemma {:induction false} EarliestMatch(ts: seq<Torrent>, order: seq<string>, j: nat, i: nat) returns (j0: nat, i0: nat)
    requires j < |order| && i < |ts| && ts[i].quality == Some(order[j])
    ensures j0 <= j && i0 < |ts| && ts[i0].quality == Some(order[j0])
    ensures forall j', i' :: 0 <= j' < j0 && 0 <= i' < |ts| ==> ts[i'].quality != Some(order[j'])
    decreases j
  {
    if exists j', i' :: 0 <= j' < j && 0 <= i' < |ts| && ts[i'].quality == Some(order[j']) {
      var j', i' :| 0 <= j' < j && 0 <= i' < |ts| && ts[i'].quality == Some(order[j']);
      j0, i0 := EarliestMatch(ts, order, j', i');
    } else {
      j0, i0 := j, i;
    }
  }

  /**
   * Among well-formed descriptors the empty object is chosen only as the fall-back:
   * when it is chosen, no torrent has a known quality and it is the first of the list.
   */
  lemma EmptyDescriptorOnlyAsFallback(movie: MovieDetails, preferred: string)
    requires movie.torrents.Some?
    requires forall i :: 0 <= i < |movie.torrents.value| ==> WellFormedTorrent(movie.torrents.value[i])
    requires GetBestTorrent(movie, preferred).Some? && GetBestTorrent(movie, preferred).value.noKeys
    ensures forall i :: 0 <= i < |movie.torrents.value| ==>
      movie.torrents.value[i].quality.None? || movie.torrents.value[i].quality.value !in KnownQualities
    ensures GetBestTorrent(movie, preferred) == Some(movie.torrents.value[0])
  {
    var ts, order := movie.torrents.value, QualityOrder(preferred);
    forall i | 0 <= i < |ts| ensures ts[i].quality.None? || ts[i].quality.value !in KnownQualities {
      if ts[i].quality.Some? && ts[i].quality.value in KnownQualities {
        var j :| 0 <= j < |order| && order[j] == ts[i].quality.value;
        var j0, i0 := EarliestMatch(ts, order, j, i);
        BestTorrentPicksEarliestQuality(movie, preferred, j0, i0);
        assert false;
      }
    }
    BestTorrentDefaultsToFirst(movie, preferred);
  }

  /** An unknown preference changes nothing: the result is that of the fixed order alone. */
  lemma UnknownPreferenceIgnored(movie: MovieDetails, preferred: string)
    requires preferred !in KnownQualities
    ensures GetBestTorrent(movie, preferred) == GetBestTorrent(movie, KnownQualities[0])
  {
    KnownPreferenceFirst(0);
  }

  /** Removing the element at `k` of a sequence without repetitions. */
  lemma {:induction false} WithoutDistinct(qs: seq<string>, k: nat)
    requires k < |qs|
    requires forall a, b :: 0 <= a < b < |qs| ==> qs[a] != qs[b]
    ensures Without(qs, qs[k]) == qs[..k] + qs[k + 1..]
  {
    if k == 0 {
      WithoutAbsent(qs[1..], qs[0]);
      assert qs[..0] + qs[1..] == qs[1..];
    } else {
      WithoutDistinct(qs[1..], k - 1);
      assert qs[1..][..k - 1] + qs[1..][k..] == qs[1..k] + qs[k + 1..];
      assert [qs[0]] + qs[1..k] == qs[..k];
    }
  }

  lemma {:induction false} WithoutAbsent(qs: seq<string>, x: string)
    requires x !in qs
    ensures Without(qs, x) == qs
  {
    if qs != [] {
      assert x !in qs[1..];
      WithoutAbsent(qs[1..], x);
    }
  }

  /** The four known qualities are pairwise different. */
  lemma KnownQualitiesDistinct()
    ensures forall a, b :: 0 <= a < b < |KnownQualities| ==> KnownQualities[a] != KnownQualities[b]
  {
    var k := KnownQualities;
    assert k[0][0] == '2' && k[1][0] == '1' && k[2][0] == '7' && k[3][0] == '4';
  }

  /** A known preference moves to the front; the other three keep the fixed order. */
  lemma {:induction false} KnownPreferenceFirst(k: nat)
    requires k < |KnownQualities|
    ensures QualityOrder(KnownQualities[k])
         == [KnownQualities[k]] + KnownQualities[..k] + KnownQualities[k + 1..]
  {
    KnownQualitiesDistinct();
    WithoutDistinct(KnownQualities, k);
  }

  /** The search order for a 1080p preference. */
  lemma Prefer1080pOrder()
    ensures QualityOrder("1080p") == ["1080p", "2160p", "720p", "480p"]
  {
    KnownPreferenceFirst(1);
  }

  /** Preferring 1080p, a list of [720p, 480p] yields the 720p torrent (first fallback, not 480p). */
  lemma FallbackSkipsToNextQuality(movie: MovieDetails, a: Torrent, b: Torrent)
    requires a.quality == Some("720p") && b.quality == Some("480p")
    requires movie.torrents == Some([a, b])
    ensures GetBestTorrent(movie, "1080p") == Some(a)
  {
    Prefer1080pOrder();
    var order := QualityOrder("1080p");
    assert a.quality != Some(order[0]) && b.quality != Some(order[0]);
    assert a.quality != Some(order[1]) && b.quality != Some(order[1]);
    BestTorrentPicksEarliestQuality(movie, "1080p", 2, 0);
  }

  /** Preferring 1080p, a list of [2160p, 720p] yields the 2160p torrent. */
  lemma FallbackPrefersHigherQuality(movie: MovieDetails, a: Torrent, b: Torrent)
    requires a.quality == Some("2160p") && b.quality == Some("720p")
    requires movie.torrents == Some([a, b])
    ensures GetBestTorrent(movie, "1080p") == Some(a)
  {
    Prefer1080pOrder();
    var order := QualityOrder("1080p");
    assert a.quality != Some(order[0]) && b.quality != Some(order[0]);
    BestTorrentPicksEarliestQuality(movie, "1080p", 1, 0);
  }
}
