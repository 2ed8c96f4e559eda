/** The two computing handlers of the web server (server.rs): the
    recommendation list, ranked by distance over the whole analysis store
    and enriched from the library, and the M3U playlist text. Routing,
    transport and the JSON rendering are not modelled; the stores are
    given as what their files hold. */
module Server {
  import opened Wrappers
  import opened Text
  import opened Paths
  import opened Organizer
  import opened Storage
  import opened AnalysisStorage
  import opened Distances
  import opened Sorting
  import opened Iteration

  /** What a load finds: the stored map, or nothing for a missing or
      unusable file. */
  function Contents<T>(file: Persisted<map<Path, T>>): map<Path, T> {
    if file.Stored? then file.value else map[]
  }

  // ---------------------------------------------------------------------------
  // get_recommendations

  /** One entry of the answer; `distance` carries the square of the
      Euclidean distance (see `Distances`). */
  datatype Recommendation = Recommendation(path: Path, title: string, artist: string, album: string, distance: real)

  datatype RecommendResponse = RecError(error: string) | Recs(items: seq<Recommendation>)

  const MaxRecommendations := 20

  function PairDistance(x: (Path, real)): real {
    x.1
  }

  function RecDistance(r: Recommendation): real {
    r.distance
  }

  /** The `(path, distance)` pairs the loop over the store pushes, in
      iteration order: every other entry whose vector has the target's
      length. */
  function ServerCandidates(order: seq<Path>, data: map<Path, Features>, target: Path, tf: Features): seq<(Path, real)>
    requires forall i :: 0 <= i < |order| ==> order[i] in data
  {
    if order == [] then []
    else
      var p := order[|order| - 1];
      var d := ServerDistance(tf, data[p]);
      ServerCandidates(order[..|order| - 1], data, target, tf)
      + if p != target && d.Some? then [(p, d.value)] else []
  }

  /** A pair is pushed exactly when its path is a store entry other than
      the target, with a vector of the target's length, and its distance is
      the distance of the two vectors. */
  lemma {:induction false} ServerCandidatesMembership(order: seq<Path>, data: map<Path, Features>, target: Path, tf: Features, c: (Path, real))
    requires forall i :: 0 <= i < |order| ==> order[i] in data
    ensures c in ServerCandidates(order, data, target, tf) <==>
              && c.0 in order && c.0 != target
              && |data[c.0]| == |tf|
              && c.1 == SumSquares(tf, data[c.0])
  {
    if order != [] {
      var init := order[..|order| - 1];
      ServerCandidatesMembership(init, data, target, tf, c);
      assert order == init + [order[|order| - 1]];
    }
  }

  /** The sorted `take(20)` of the candidates. */
  function Ranked(order: seq<Path>, data: map<Path, Features>, target: Path): (top: seq<(Path, real)>)
    requires forall i :: 0 <= i < |order| ==> order[i] in data
    requires target in data
  {
    var cands := ServerCandidates(order, data, target, data[target]);
    SortBy(cands, PairDistance)[..Min(MaxRecommendations, |cands|)]
  }

  /** The library lookup of one ranked pair, with its defaults. */
  function EnrichOne(x: (Path, real), files: map<Path, IndexedTrack>): Recommendation {
    if x.0 in files then
      var m := files[x.0].metadata;
      Recommendation(x.0, m.title, m.artist, m.album.GetOr("-"), x.1)
    else
      Recommendation(x.0, "Unknown", "Unknown", "-", x.1)
  }

  function Enrich(top: seq<(Path, real)>, files: map<Path, IndexedTrack>): seq<Recommendation> {
    seq(|top|, i requires 0 <= i < |top| => EnrichOne(top[i], files))
  }

  /** `get_recommendations`, with the store visited in the order `order`. */
  method GetRecommendations(target: Path, storeFile: Persisted<map<Path, Features>>,
                            libFile: Persisted<map<Path, IndexedTrack>>, order: seq<Path>)
    returns (resp: RecommendResponse)
    requires Enumerates(order, Contents(storeFile))
    ensures (storeFile.ReadFailed? || storeFile.ParseFailed?) ==> resp == RecError("Failed to load analysis store")
    ensures (storeFile.Absent? || storeFile.Stored?) && target !in Contents(storeFile) ==>
              resp == RecError("Target song has no analysis data")
    ensures resp.Recs? ==> (storeFile.Absent? || storeFile.Stored?) && target in Contents(storeFile)
    ensures resp.Recs? ==>
              var data := Contents(storeFile);
              var cands := ServerCandidates(order, data, target, data[target]);
              var top := Ranked(order, data, target);
              && |resp.items| == |top| == Min(MaxRecommendations, |cands|)
              && SortedBy(resp.items, RecDistance)
              && (forall c, i :: c in multiset(cands) - multiset(top) && 0 <= i < |top| ==> top[i].1 <= c.1)
              && (forall i :: 0 <= i < |resp.items| ==>
                    RecommendationOf(resp.items[i], top[i], data, target, Contents(libFile)))
  {
    var loaded := AnalysisStore.Load(storeFile);
    if loaded.Err? {
      return RecError("Failed to load analysis store");
    }
    var store := loaded.value;
    var targetAnalysis := store.Get(target);
    if targetAnalysis.None? {
      return RecError("Target song has no analysis data");
    }
    var tf := targetAnalysis.value;
    var results := CollectCandidates(order, store.data, target, tf);
    results := SortBy(results, PairDistance);
    var top := results[..Min(MaxRecommendations, |results|)];

    var library := AudioLibrary.Load(libFile);
    var files := if library.Ok? then library.value.files else map[];
    resp := Recs(Enrich(top, files));
    assert resp.items == Enrich(Ranked(order, store.data, target), Contents(libFile));
    RankedAnswer(order, store.data, target, Contents(libFile));
  }

  /** The loop over the store. */
  method CollectCandidates(order: seq<Path>, data: map<Path, Features>, target: Path, tf: Features)
    returns (results: seq<(Path, real)>)
    requires forall i :: 0 <= i < |order| ==> order[i] in data
    ensures results == ServerCandidates(order, data, target, tf)
  {
    results := [];
    for i := 0 to |order|
      invariant results == ServerCandidates(order[..i], data, target, tf)
    {
      assert order[..i + 1][..i] == order[..i];
      var path := order[i];
      if path == target {
        continue;
      }
      var distance := ServerDistance(tf, data[path]);
      if distance.None? {
        continue;
      }
      results := results + [(path, distance.value)];
    }
    assert order[..|order|] == order;
  }

  /** Every ranked pair is another store entry of the target's length,
      with the distance of the two vectors. */
  lemma RankedPairs(order: seq<Path>, data: map<Path, Features>, target: Path)
    requires forall i :: 0 <= i < |order| ==> order[i] in data
    requires target in data
    ensures forall x :: x in Ranked(order, data, target) ==>
              && x.0 != target && x.0 in data
              && |data[x.0]| == |data[target]|
              && x.1 == SumSquares(data[target], data[x.0])
  {
    var tf := data[target];
    var cands := ServerCandidates(order, data, target, tf);
    var top := Ranked(order, data, target);
    SortThenTruncate(cands, MaxRecommendations, PairDistance);
    forall x | x in top
      ensures && x.0 != target && x.0 in data
              && |data[x.0]| == |tf|
              && x.1 == SumSquares(tf, data[x.0])
    {
      assert x in multiset(top);
      assert x in cands;
      ServerCandidatesMembership(order, data, target, tf, x);
    }
  }

  /** The enriched ranking is sorted, holds the 20 closest entries, and
      carries each entry's library fields or the defaults. */
  lemma RankedAnswer(order: seq<Path>, data: map<Path, Features>, target: Path, lib: map<Path, IndexedTrack>)
    requires forall i :: 0 <= i < |order| ==> order[i] in data
    requires target in data
    ensures var items := Enrich(Ranked(order, data, target), lib);
            var cands := ServerCandidates(order, data, target, data[target]);
            var top := Ranked(order, data, target);
            && |items| == |top| == Min(MaxRecommendations, |cands|)
            && SortedBy(items, RecDistance)
            && (forall c, i :: c in multiset(cands) - multiset(top) && 0 <= i < |top| ==> top[i].1 <= c.1)
            && (forall i :: 0 <= i < |items| ==> RecommendationOf(items[i], top[i], data, target, lib))
  {
    var cands := ServerCandidates(order, data, target, data[target]);
    var top := Ranked(order, data, target);
    var items := Enrich(top, lib);
    SortThenTruncate(cands, MaxRecommendations, PairDistance);
    EnrichKeepsOrder(top, lib);
    RankedClosest(order, data, target);
    EnrichedEntries(order, data, target, lib);
  }

  /** No candidate left out of the ranking is closer than a ranked one. */
  lemma RankedClosest(order: seq<Path>, data: map<Path, Features>, target: Path)
    requires forall i :: 0 <= i < |order| ==> order[i] in data
    requires target in data
    ensures var cands := ServerCandidates(order, data, target, data[target]);
            var top := Ranked(order, data, target);
            forall c, i :: c in multiset(cands) - multiset(top) && 0 <= i < |top| ==> top[i].1 <= c.1
  {
    var cands := ServerCandidates(order, data, target, data[target]);
    var top := Ranked(order, data, target);
    SortThenTruncate(cands, MaxRecommendations, PairDistance);
    forall c, i | c in multiset(cands) - multiset(top) && 0 <= i < |top|
      ensures top[i].1 <= c.1
    {
      assert top[i] in top;
      assert PairDistance(top[i]) <= PairDistance(c);
    }
  }

  /** Each answer entry is the enrichment of the ranked pair at its place. */
  lemma EnrichedEntries(order: seq<Path>, data: map<Path, Features>, target: Path, lib: map<Path, IndexedTrack>)
    requires forall i :: 0 <= i < |order| ==> order[i] in data
    requires target in data
    ensures var top := Ranked(order, data, target);
            var items := Enrich(top, lib);
            forall i :: 0 <= i < |items| ==> RecommendationOf(items[i], top[i], data, target, lib)
  {
    var top := Ranked(order, data, target);
    var items := Enrich(top, lib);
    RankedPairs(order, data, target);
    forall i | 0 <= i < |items|
      ensures RecommendationOf(items[i], top[i], data, target, lib)
    {
      assert top[i] in top;
    }
  }

  /** `r` is the answer entry for the ranked pair `x`: another store entry
      of the target's length at its distance, with the library's title,
      artist and album, or "Unknown", "Unknown" and "-" for a track the
      library does not hold (or an album it lacks). */
  predicate RecommendationOf(r: Recommendation, x: (Path, real), data: map<Path, Features>, target: Path,
                             lib: map<Path, IndexedTrack>)
    requires target in data
  {
    && r.path == x.0 && r.distance == x.1
    && r.path != target && r.path in data
    && |data[r.path]| == |data[target]|
    && r.distance == SumSquares(data[target], data[r.path])
    && (r.path in lib ==> r.title == lib[r.path].metadata.title && r.artist == lib[r.path].metadata.artist
                          && r.album == lib[r.path].metadata.album.GetOr("-"))
    && (r.path !in lib ==> r.title == "Unknown" && r.artist == "Unknown" && r.album == "-")
  }

  /** The enrichment keeps the ranking's order: the answer is sorted by
      distance whenever the ranked pairs are. */
  lemma EnrichKeepsOrder(top: seq<(Path, real)>, files: map<Path, IndexedTrack>)
    requires SortedBy(top, PairDistance)
    ensures |Enrich(top, files)| == |top|
    ensures SortedBy(Enrich(top, files), RecDistance)
  {
  }

  // ---------------------------------------------------------------------------
  // get_playlist

  const M3uHeader := "#EXTM3U\n"
  const LibraryError := "# Error: Could not load library"
  const NoInputDirError := "# Error: No input directory configured, cannot serve files."
  const DefaultHost := "127.0.0.1"

  /** `f64::round`: halves go away from zero. */
  function RoundHalfAway(d: real): (n: int)
    ensures -1.0 / 2.0 <= n as real - d <= 1.0 / 2.0
    ensures d >= 0.0 ==> n >= 0
    ensures d <= 0.0 ==> n <= 0
    ensures n as real - d == 1.0 / 2.0 ==> d > 0.0
    ensures d - n as real == 1.0 / 2.0 ==> d < 0.0
  {
    if d >= 0.0 then (d + 0.5).Floor else -((-d + 0.5).Floor)
  }

  const I64Min := -0x8000_0000_0000_0000
  const I64Max := 0x7fff_ffff_ffff_ffff

  /** The saturating `as i64` cast. */
  function SaturateI64(n: int): (r: int)
    ensures I64Min <= r <= I64Max
    ensures I64Min <= n <= I64Max ==> r == n
    ensures n > I64Max ==> r == I64Max
    ensures n < I64Min ==> r == I64Min
  {
    if n < I64Min then I64Min else if n > I64Max then I64Max else n
  }

  /** `duration.round() as i64`. */
  function DurationSecs(d: real): int {
    SaturateI64(RoundHalfAway(d))
  }

  /** Within the i64 range the printed seconds are the duration rounded to
      the nearest integer, a half going away from zero. */
  lemma DurationSecsNearest(d: real)
    requires I64Min as real <= d <= I64Max as real
    ensures -1.0 / 2.0 <= DurationSecs(d) as real - d <= 1.0 / 2.0
    ensures DurationSecs(d) as real - d == 1.0 / 2.0 ==> d > 0.0
    ensures d - DurationSecs(d) as real == 1.0 / 2.0 ==> d < 0.0
  {
    var n := RoundHalfAway(d);
    assert I64Min <= n <= I64Max;
  }

  /** `f64::round` on the halves either side of 2: 2.5 goes up to 3 and
      -2.5 down to -3. */
  lemma RoundHalfExamples()
    ensures RoundHalfAway(5.0 / 2.0) == 3
    ensures RoundHalfAway(-5.0 / 2.0) == -3
  {
  }

  function DisplayTitle(m: TrackMetadata): string {
    if m.title == "" then UnknownTitle else m.title
  }

  function DisplayArtist(m: TrackMetadata): string {
    if m.artist == "" then UnknownArtist else m.artist
  }

  /** An empty title or artist is shown as "Unknown Title" or "Unknown
      Artist"; the displayed names are never empty, and are the stored ones
      whenever those are not. */
  lemma DisplayNames(m: TrackMetadata)
    ensures DisplayTitle(m) != "" && DisplayArtist(m) != ""
    ensures m.title == "" ==> DisplayTitle(m) == UnknownTitle
    ensures m.artist == "" ==> DisplayArtist(m) == UnknownArtist
    ensures m.title != "" ==> DisplayTitle(m) == m.title
    ensures m.artist != "" ==> DisplayArtist(m) == m.artist
  {
  }

  /** The `#EXTINF` line, without its line break. */
  function ExtinfLine(m: TrackMetadata): string {
    "#EXTINF:" + IntToDecimal(DurationSecs(m.duration)) + "," + DisplayArtist(m) + " - " + DisplayTitle(m)
  }

  /** The stream URL, each segment of the relative path encoded on its own
      by `encode` and the segments joined with '/'. */
  function UrlLine(host: string, rel: Path, encode: string -> string): string {
    "http://" + host + "/stream/" + Join(seq(|rel|, i requires 0 <= i < |rel| => encode(rel[i])), "/")
  }

  /** The paths listed under `root`, in iteration order. */
  function Listed(order: seq<Path>, root: Path): (ps: seq<Path>)
    ensures forall p :: p in ps ==> StripPrefix(p, root).Some? && p in order
  {
    if order == [] then []
    else
      var p := order[|order| - 1];
      Listed(order[..|order| - 1], root) + if StripPrefix(p, root).Some? then [p] else []
  }

  /** A path is listed exactly when iteration visits it and it lies under
      the root. */
  lemma {:induction false} ListedMembership(order: seq<Path>, root: Path, p: Path)
    ensures p in Listed(order, root) <==> p in order && |root| <= |p| && p[..|root|] == root
  {
    if order != [] {
      ListedMembership(order[..|order| - 1], root, p);
      assert order == order[..|order| - 1] + [order[|order| - 1]];
    }
  }

  /** The two lines of each listed track. */
  function Entries(ps: seq<Path>, files: map<Path, IndexedTrack>, root: Path, host: string, encode: string -> string): string
    requires forall p :: p in ps ==> p in files && StripPrefix(p, root).Some?
  {
    if ps == [] then ""
    else
      var p := ps[|ps| - 1];
      Entries(ps[..|ps| - 1], files, root, host, encode) + EntryLines(files[p].metadata, StripPrefix(p, root).value, host, encode)
  }

  /** The `#EXTINF` line and the URL line of one track, each ended by a
      line break. */
  function EntryLines(m: TrackMetadata, rel: Path, host: string, encode: string -> string): string {
    ExtinfLine(m) + "\n" + UrlLine(host, rel, encode) + "\n"
  }

  /** `get_playlist`, with the library visited in the order `order` and the
      `Host` header given as text when it is present and readable. */
  method GetPlaylist(hostHeader: Option<string>, libFile: Persisted<map<Path, IndexedTrack>>, inputDir: Option<Path>,
                     order: seq<Path>, encode: string -> string) returns (m3u: string)
    requires Enumerates(order, Contents(libFile))
    ensures |m3u| >= |M3uHeader| && m3u[..|M3uHeader|] == M3uHeader
    ensures (libFile.ReadFailed? || libFile.ParseFailed?) ==> m3u == M3uHeader + LibraryError
    ensures (libFile.Absent? || libFile.Stored?) && inputDir.None? ==> m3u == M3uHeader + NoInputDirError
    ensures (libFile.Absent? || libFile.Stored?) && inputDir.Some? ==>
              m3u == M3uHeader + Entries(Listed(order, inputDir.value), Contents(libFile), inputDir.value,
                                         hostHeader.GetOr(DefaultHost), encode)
  {
    var host := hostHeader.GetOr(DefaultHost);
    var loaded := AudioLibrary.Load(libFile);
    if loaded.Err? {
      return M3uHeader + LibraryError;
    }
    var lib := loaded.value;
    m3u := M3uHeader;
    if inputDir.Some? {
      var body := PlaylistEntries(order, lib.files, inputDir.value, host, encode);
      m3u := m3u + body;
    } else {
      m3u := m3u + NoInputDirError;
    }
  }

  /** The loop over the library that appends two lines per listed track. */
  method PlaylistEntries(order: seq<Path>, files: map<Path, IndexedTrack>, root: Path, host: string,
                         encode: string -> string) returns (text: string)
    requires forall p :: p in order ==> p in files
    ensures text == Entries(Listed(order, root), files, root, host, encode)
  {
    text := "";
    for i := 0 to |order|
      invariant text == Entries(Listed(order[..i], root), files, root, host, encode)
    {
      assert order[..i + 1][..i] == order[..i];
      var path := order[i];
      var relative := StripPrefix(path, root);
      if relative.Some? {
        var track := files[path];
        var ps := Listed(order[..i], root);
        assert Listed(order[..i + 1], root) == ps + [path];
        assert (ps + [path])[..|ps|] == ps;
        text := text + EntryLines(track.metadata, relative.value, host, encode);
      } else {
        assert Listed(order[..i + 1], root) == Listed(order[..i], root);
      }
    }
    assert order[..|order|] == order;
  }

  /** Number of occurrences of `c` in `s`. */
  function CountChar(s: string, c: char): nat {
    if s == [] then 0 else CountChar(s[..|s| - 1], c) + if s[|s| - 1] == c then 1 else 0
  }

  lemma {:induction false} CountCharAppend(a: string, b: string, c: char)
    ensures CountChar(a + b, c) == CountChar(a, c) + CountChar(b, c)
    decreases |b|
  {
    if b != [] {
      CountCharAppend(a, b[..|b| - 1], c);
      assert (a + b)[..|a + b| - 1] == a + b[..|b| - 1];
      assert (a + b)[|a + b| - 1] == b[|b| - 1];
    } else {
      assert a + b == a;
    }
  }

  lemma {:induction false} CountCharAbsent(s: string, c: char)
    requires c !in s
    ensures CountChar(s, c) == 0
  {
    if s != [] {
      CountCharAbsent(s[..|s| - 1], c);
    }
  }

  /** One track's entry is two lines when neither of its lines holds a
      line break of its own. */
  lemma EntryIsTwoLines(m: TrackMetadata, rel: Path, host: string, encode: string -> string)
    requires '\n' !in ExtinfLine(m) && '\n' !in UrlLine(host, rel, encode)
    ensures CountChar(EntryLines(m, rel, host, encode), '\n') == 2
  {
    var e := ExtinfLine(m);
    var u := UrlLine(host, rel, encode);
    CountCharAppend(e + "\n" + u, "\n", '\n');
    CountCharAppend(e + "\n", u, '\n');
    CountCharAppend(e, "\n", '\n');
    CountCharAbsent(e, '\n');
    CountCharAbsent(u, '\n');
    assert CountChar("\n", '\n') == 1 by {
      assert "\n"[..0] == "";
    }
  }

  /** Each listed track is two lines: when no title, artist, host or
      encoded segment holds a line break, the playlist body has exactly two
      line breaks per listed track. */
  lemma {:induction false} EntriesAreTwoLines(ps: seq<Path>, files: map<Path, IndexedTrack>, root: Path, host: string,
                                              encode: string -> string)
    requires forall p :: p in ps ==> p in files && StripPrefix(p, root).Some?
    requires forall p :: p in ps ==>
               '\n' !in ExtinfLine(files[p].metadata) && '\n' !in UrlLine(host, StripPrefix(p, root).value, encode)
    ensures CountChar(Entries(ps, files, root, host, encode), '\n') == 2 * |ps|
  {
    if ps != [] {
      var init := ps[..|ps| - 1];
      var p := ps[|ps| - 1];
      EntriesAreTwoLines(init, files, root, host, encode);
      EntryIsTwoLines(files[p].metadata, StripPrefix(p, root).value, host, encode);
      CountCharAppend(Entries(init, files, root, host, encode),
                      EntryLines(files[p].metadata, StripPrefix(p, root).value, host, encode), '\n');
    }
  }

  /** The `#EXTINF` line holds no line break when the artist and title do
      not: the printed seconds are digits and a sign. */
  lemma ExtinfLineSingle(m: TrackMetadata)
    requires '\n' !in m.title && '\n' !in m.artist
    ensures '\n' !in ExtinfLine(m)
  {
    var secs := IntToDecimal(DurationSecs(m.duration));
    assert '\n' !in secs by {
      forall i | 0 <= i < |secs| ensures secs[i] != '\n' {
      }
    }
    assert '\n' !in "#EXTINF:" && '\n' !in "," && '\n' !in " - ";
    assert '\n' !in DisplayArtist(m) by {
      assert '\n' !in UnknownArtist;
    }
    assert '\n' !in DisplayTitle(m) by {
      assert '\n' !in UnknownTitle;
    }
  }
}
