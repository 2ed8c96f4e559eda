/** Similarity search with metadata filters (recommend.rs): the library's
    tracks other than the query, narrowed by the filters, scored by the
    distance of their analysis vector to the query's, sorted closest first
    and cut to `top_k`. */
module Recommend {
  import opened Wrappers
  import opened Text
  import opened Paths
  import opened Organizer
  import opened Storage
  import opened AnalysisStorage
  import opened Distances
  import opened Sorting
  import opened Iteration

  /** `RecommendFilters`; an absent field does not filter. */
  datatype RecommendFilters = RecommendFilters(
    sameArtist: Option<string>,
    excludeAlbum: Option<string>,
    sameAlbum: Option<string>,
    excludeFingerprint: Option<string>,
    genre: Option<string>)

  const NoFilters := RecommendFilters(None, None, None, None, None)

  datatype ScoredTrack = ScoredTrack(track: IndexedTrack, distance: Distance)

  function DistanceKey(s: ScoredTrack): real {
    Rank(s.distance)
  }

  // ---------------------------------------------------------------------------
  // the filters, one predicate per `.filter` of the chain

  predicate ArtistOk(f: RecommendFilters, m: TrackMetadata) {
    f.sameArtist.None? || EqIgnoreAsciiCase(m.artist, f.sameArtist.value)
  }

  /** Same-album needs an album; a track without one is dropped. */
  predicate SameAlbumOk(f: RecommendFilters, m: TrackMetadata) {
    f.sameAlbum.None? || (m.album.Some? && EqIgnoreAsciiCase(m.album.value, f.sameAlbum.value))
  }

  /** Album exclusion keeps a track that has no album. */
  predicate ExcludeAlbumOk(f: RecommendFilters, m: TrackMetadata) {
    f.excludeAlbum.None? || m.album.None? || !EqIgnoreAsciiCase(m.album.value, f.excludeAlbum.value)
  }

  /** Fingerprint exclusion compares exactly and keeps a track without one. */
  predicate ExcludeFingerprintOk(f: RecommendFilters, m: TrackMetadata) {
    f.excludeFingerprint.None? || m.fingerprint.None? || m.fingerprint.value != f.excludeFingerprint.value
  }

  predicate GenreOk(f: RecommendFilters, m: TrackMetadata) {
    f.genre.None? || exists i :: 0 <= i < |m.genres| && EqIgnoreAsciiCase(m.genres[i].0, f.genre.value)
  }

  predicate PassesFilters(f: RecommendFilters, t: IndexedTrack) {
    && ArtistOk(f, t.metadata)
    && SameAlbumOk(f, t.metadata)
    && ExcludeAlbumOk(f, t.metadata)
    && ExcludeFingerprintOk(f, t.metadata)
    && GenreOk(f, t.metadata)
  }

  /** Every track passes when no filter is set. */
  lemma NoFiltersPassEverything(t: IndexedTrack)
    ensures PassesFilters(NoFilters, t)
  {
  }

  /** The candidates the iterator chain collects, in iteration order: tracks
      other than the query that pass the filters and have analysis data,
      scored against the query's vector `qf`. */
  function Candidates(order: seq<Path>, files: map<Path, IndexedTrack>, data: map<Path, Features>,
                      query: Path, qf: Features, f: RecommendFilters): seq<ScoredTrack>
    requires forall i :: 0 <= i < |order| ==> order[i] in files
  {
    if order == [] then []
    else
      var t := files[order[|order| - 1]];
      Candidates(order[..|order| - 1], files, data, query, qf, f)
      + if t.path != query && PassesFilters(f, t) && t.path in data
        then [ScoredTrack(t, EuclideanDistance(qf, data[t.path]))]
        else []
  }

  /** A scored track is a candidate exactly when it is a library track that
      is not the query, passes the filters, has analysis data, and carries
      the distance of that data to the query's. */
  lemma {:induction false} CandidatesMembership(order: seq<Path>, files: map<Path, IndexedTrack>, data: map<Path, Features>,
                                                query: Path, qf: Features, f: RecommendFilters, c: ScoredTrack)
    requires forall i :: 0 <= i < |order| ==> order[i] in files
    ensures c in Candidates(order, files, data, query, qf, f) <==>
              && (exists i :: 0 <= i < |order| && files[order[i]] == c.track)
              && c.track.path != query && PassesFilters(f, c.track) && c.track.path in data
              && c.distance == EuclideanDistance(qf, data[c.track.path])
  {
    if order != [] {
      var init := order[..|order| - 1];
      CandidatesMembership(init, files, data, query, qf, f, c);
      if exists i :: 0 <= i < |init| && files[init[i]] == c.track {
        var i :| 0 <= i < |init| && files[init[i]] == c.track;
        assert files[order[i]] == c.track;
      }
      if exists i :: 0 <= i < |order| && files[order[i]] == c.track {
        var i :| 0 <= i < |order| && files[order[i]] == c.track;
        if i < |init| {
          assert files[init[i]] == c.track;
        }
      }
    }
  }

  /** `find_similar`, visiting the library in the order `order`. */
  method FindSimilar(query: Path, library: AudioLibrary, store: AnalysisStore, filters: RecommendFilters,
                     topK: nat, order: seq<Path>) returns (results: seq<ScoredTrack>)
    requires Enumerates(order, library.files)
    ensures query !in store.data ==> results == []
    ensures query in store.data ==>
              var cands := Candidates(order, library.files, store.data, query, store.data[query], filters);
              && results == SortBy(cands, DistanceKey)[..Min(topK, |cands|)]
              && (forall x, y :: x in multiset(cands) - multiset(results) && y in results ==>
                                   DistanceKey(y) <= DistanceKey(x))
    ensures |results| <= topK
    ensures SortedBy(results, DistanceKey)
    ensures forall r :: r in results ==>
              && r.track in library.files.Values
              && r.track.path != query
              && PassesFilters(filters, r.track)
              && r.track.path in store.data
              && r.distance == EuclideanDistance(store.data[query], store.data[r.track.path])
  {
    var queryFeatures := store.Get(query);
    if queryFeatures.None? {
      return [];
    }
    var qf := queryFeatures.value;
    var cands := Candidates(order, library.files, store.data, query, qf, filters);
    results := SortBy(cands, DistanceKey);
    results := results[..Min(topK, |results|)];

    SortThenTruncate(cands, topK, DistanceKey);
    forall r | r in results
      ensures && r.track in library.files.Values
              && r.track.path != query
              && PassesFilters(filters, r.track)
              && r.track.path in store.data
              && r.distance == EuclideanDistance(qf, store.data[r.track.path])
    {
      assert r in multiset(results);
      assert r in cands;
      CandidatesMembership(order, library.files, store.data, query, qf, filters, r);
      var i :| 0 <= i < |order| && library.files[order[i]] == r.track;
      assert order[i] in library.files;
    }
  }
}
