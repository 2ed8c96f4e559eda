/** The per-file worker (worker.rs): decode, fingerprint, then metadata from
    the local tags (offline, or without an AcoustID client id, or when the
    online lookup fails) or from the online lookup, and the melody analysis,
    whose failure is not an error. The decoder, the fingerprinter, the tag
    library, the analysis and the two web services are foreign: what they
    answer is an input. */
module Worker {
  import opened Wrappers
  import opened Organizer

  // ---------------------------------------------------------------------------
  // the web services' answers, reduced to the fields the lookup reads

  datatype AcoustArtist = AcoustArtist(name: string)
  datatype AcoustRecording = AcoustRecording(id: string, title: Option<string>, artists: Option<seq<AcoustArtist>>)
  datatype AcoustResult = AcoustResult(recordings: Option<seq<AcoustRecording>>)
  datatype LookupResponse = LookupResponse(results: Option<seq<AcoustResult>>)

  datatype Credit = Credit(name: string)
  datatype WorkRecording = WorkRecording(title: string, artistCredit: Option<seq<Credit>>)
  datatype WorkRelation = WorkRelation(recording: Option<WorkRecording>)
  datatype WorkResponse = WorkResponse(relations: Option<seq<WorkRelation>>)

  datatype MbWork = MbWork(id: string)
  datatype MbRelation = MbRelation(work: Option<MbWork>)
  datatype MbRecording = MbRecording(relations: Option<seq<MbRelation>>)

  /** What the services answer: the AcoustID lookup of this fingerprint, and
      MusicBrainz's recording details and work recordings by id. */
  datatype Services = Services(
    lookup: Result<LookupResponse>,
    recordingDetails: string -> Result<MbRecording>,
    workRecordings: string -> Result<WorkResponse>)

  // ---------------------------------------------------------------------------
  // perform_online_lookup, specified

  /** The first recording of the first result, if there is one. */
  function BestRecording(resp: LookupResponse): Option<AcoustRecording> {
    if resp.results.Some? && |resp.results.value| > 0 then
      var best := resp.results.value[0];
      if best.recordings.Some? && |best.recordings.value| > 0 then Some(best.recordings.value[0]) else None
    else None
  }

  function FoundTitle(rec: AcoustRecording): string {
    rec.title.GetOr(UnknownTitle)
  }

  function FoundArtist(rec: AcoustRecording): string {
    if rec.artists.Some? && |rec.artists.value| > 0 then rec.artists.value[0].name else UnknownArtist
  }

  /** A recording of the work credited first to someone other than `artist`. */
  predicate IsCover(wr: WorkRelation, artist: string) {
    && wr.recording.Some?
    && wr.recording.value.artistCredit.Some?
    && |wr.recording.value.artistCredit.value| > 0
    && wr.recording.value.artistCredit.value[0].name != artist
  }

  /** The (original artist, original title) a cover yields. */
  function CoverPair(wr: WorkRelation, artist: string): (string, string)
    requires IsCover(wr, artist)
  {
    (wr.recording.value.artistCredit.value[0].name, wr.recording.value.title)
  }

  /** The first cover among a work's recordings. */
  function FirstCover(wrs: seq<WorkRelation>, artist: string): (r: Option<(string, string)>)
    ensures r.Some? ==> r.value.0 != artist
  {
    if wrs == [] then None
    else if IsCover(wrs[0], artist) then Some(CoverPair(wrs[0], artist))
    else FirstCover(wrs[1..], artist)
  }

  /** What one relation of the recording contributes: the first cover of its
      work, when it has a work whose recordings could be fetched. */
  function RelationCover(rel: MbRelation, fetch: string -> Result<WorkResponse>, artist: string): (r: Option<(string, string)>)
    ensures r.Some? ==> r.value.0 != artist
  {
    if rel.work.Some? && fetch(rel.work.value.id).Ok? && fetch(rel.work.value.id).value.relations.Some?
    then FirstCover(fetch(rel.work.value.id).value.relations.value, artist)
    else None
  }

  /** Over all relations, a later cover overwrites an earlier one. */
  function LastCover(rels: seq<MbRelation>, fetch: string -> Result<WorkResponse>, artist: string): (r: Option<(string, string)>)
    ensures r.Some? ==> r.value.0 != artist
  {
    if rels == [] then None
    else
      var c := RelationCover(rels[|rels| - 1], fetch, artist);
      if c.Some? then c else LastCover(rels[..|rels| - 1], fetch, artist)
  }

  /** The originals found for a recording: none when its details cannot be
      fetched or have no relations. */
  function Originals(rec: AcoustRecording, services: Services): Option<(string, string)> {
    var details := services.recordingDetails(rec.id);
    if details.Ok? && details.value.relations.Some?
    then LastCover(details.value.relations.value, services.workRecordings, FoundArtist(rec))
    else None
  }

  const NoClientId := "No Client ID provided for online lookup"
  const LookupFailed := "AcoustID lookup failed"
  const NoMatch := "No valid match found online"

  /** `perform_online_lookup`: the metadata of the best recording, or why
      there is none. */
  function OnlineLookup(clientId: Option<string>, services: Services, duration: real, fp: string): (r: Result<TrackMetadata>)
    ensures clientId.None? ==> r == Err(NoClientId)
    ensures clientId.Some? && services.lookup.Err? ==> r == Err(LookupFailed)
    ensures clientId.Some? && services.lookup.Ok? ==> (r.Ok? <==> BestRecording(services.lookup.value).Some?)
    ensures clientId.Some? && services.lookup.Ok? && r.Err? ==> r.msg == NoMatch
    ensures r.Ok? ==> && r.value.album.None? && r.value.fingerprint == Some(fp) && r.value.duration == duration
                      && r.value.genres == []
                      && (r.value.originalArtist.Some? <==> r.value.originalTitle.Some?)
                      && (r.value.originalArtist.Some? ==> r.value.originalArtist.value != r.value.artist)
    // the match is the first recording of the first result
    ensures r.Ok? ==> var rec := BestRecording(services.lookup.value).value;
                      && r.value.title == FoundTitle(rec) && r.value.artist == FoundArtist(rec)
                      && (r.value.originalArtist.Some? <==> Originals(rec, services).Some?)
  {
    if clientId.None? then Err(NoClientId)
    else if services.lookup.Err? then Err(LookupFailed)
    else match BestRecording(services.lookup.value)
      case None => Err(NoMatch)
      case Some(rec) =>
        var orig := Originals(rec, services);
        Ok(TrackMetadata(FoundTitle(rec), FoundArtist(rec), None,
                         if orig.Some? then Some(orig.value.0) else None,
                         if orig.Some? then Some(orig.value.1) else None,
                         duration, Some(fp), []))
  }

  // ---------------------------------------------------------------------------
  // what the original-artist search promises

  /** The first cover is the first recording that is one: every recording
      before it is not a cover, and none at all means no recording is. */
  lemma {:induction false} FirstCoverIsFirst(wrs: seq<WorkRelation>, artist: string)
    ensures FirstCover(wrs, artist).None? <==> forall j :: 0 <= j < |wrs| ==> !IsCover(wrs[j], artist)
    ensures FirstCover(wrs, artist).Some? ==>
              exists j :: 0 <= j < |wrs| && IsCover(wrs[j], artist)
                          && FirstCover(wrs, artist).value == CoverPair(wrs[j], artist)
                          && forall i :: 0 <= i < j ==> !IsCover(wrs[i], artist)
  {
    if wrs != [] && !IsCover(wrs[0], artist) {
      var rest := wrs[1..];
      FirstCoverIsFirst(rest, artist);
      forall j | 1 <= j < |wrs| ensures wrs[j] == rest[j - 1] { }
      if FirstCover(rest, artist).Some? {
        var j :| 0 <= j < |rest| && IsCover(rest[j], artist)
                 && FirstCover(rest, artist).value == CoverPair(rest[j], artist)
                 && forall i :: 0 <= i < j ==> !IsCover(rest[i], artist);
        assert wrs[j + 1] == rest[j];
        forall i | 0 <= i < j + 1 ensures !IsCover(wrs[i], artist) {
          if i > 0 {
            assert wrs[i] == rest[i - 1];
          }
        }
      }
    }
  }

  /** The originals come from the last relation whose work has a cover, and
      there are none exactly when no relation's work has one. */
  lemma {:induction false} LastCoverIsLast(rels: seq<MbRelation>, fetch: string -> Result<WorkResponse>, artist: string)
    ensures LastCover(rels, fetch, artist).None? <==>
              forall k :: 0 <= k < |rels| ==> RelationCover(rels[k], fetch, artist).None?
    ensures LastCover(rels, fetch, artist).Some? ==>
              exists k :: 0 <= k < |rels| && LastCover(rels, fetch, artist) == RelationCover(rels[k], fetch, artist)
                          && forall l :: k < l < |rels| ==> RelationCover(rels[l], fetch, artist).None?
  {
    if rels != [] {
      var n := |rels| - 1;
      var init := rels[..n];
      LastCoverIsLast(init, fetch, artist);
      forall k | 0 <= k < n ensures init[k] == rels[k] { }
      if RelationCover(rels[n], fetch, artist).None? && LastCover(init, fetch, artist).Some? {
        var k :| 0 <= k < n && LastCover(init, fetch, artist) == RelationCover(init[k], fetch, artist)
                 && forall l :: k < l < n ==> RelationCover(init[l], fetch, artist).None?;
        assert RelationCover(rels[k], fetch, artist) == RelationCover(init[k], fetch, artist);
        forall l | k < l < |rels| ensures RelationCover(rels[l], fetch, artist).None? {
          if l < n {
            assert rels[l] == init[l];
          }
        }
      }
    }
  }

  // ---------------------------------------------------------------------------
  // perform_online_lookup, as the loops compute it

  /** The inner loop over a work's recordings: the first cover overwrites
      the originals and ends the loop (`break` leaves this loop only). */
  method ScanWorkRecordings(wrs: seq<WorkRelation>, artist: string,
                            originalArtist0: Option<string>, originalTitle0: Option<string>)
    returns (originalArtist: Option<string>, originalTitle: Option<string>)
    ensures var c := FirstCover(wrs, artist);
            (originalArtist, originalTitle) ==
              if c.Some? then (Some(c.value.0), Some(c.value.1)) else (originalArtist0, originalTitle0)
  {
    originalArtist, originalTitle := originalArtist0, originalTitle0;
    for j := 0 to |wrs|
      invariant FirstCover(wrs, artist) == FirstCover(wrs[j..], artist)
      invariant originalArtist == originalArtist0 && originalTitle == originalTitle0
    {
      assert wrs[j..][1..] == wrs[j + 1..];
      var wr := wrs[j];
      if wr.recording.Some? {
        var rec := wr.recording.value;
        if rec.artistCredit.Some? {
          var credits := rec.artistCredit.value;
          if |credits| > 0 {
            var firstCredit := credits[0];
            if firstCredit.name != artist {
              originalArtist := Some(firstCredit.name);
              originalTitle := Some(rec.title);
              return;
            }
          }
        }
      }
    }
  }

  /** The outer loop over the recording's relations. */
  method ScanRelations(rels: seq<MbRelation>, fetch: string -> Result<WorkResponse>, artist: string)
    returns (originalArtist: Option<string>, originalTitle: Option<string>)
    ensures var c := LastCover(rels, fetch, artist);
            (originalArtist, originalTitle) == if c.Some? then (Some(c.value.0), Some(c.value.1)) else (None, None)
  {
    originalArtist, originalTitle := None, None;
    for k := 0 to |rels|
      invariant var c := LastCover(rels[..k], fetch, artist);
                (originalArtist, originalTitle) == if c.Some? then (Some(c.value.0), Some(c.value.1)) else (None, None)
    {
      assert rels[..k + 1][..k] == rels[..k];
      var rel := rels[k];
      if rel.work.Some? {
        var workData := fetch(rel.work.value.id);
        if workData.Ok? {
          if workData.value.relations.Some? {
            originalArtist, originalTitle :=
              ScanWorkRecordings(workData.value.relations.value, artist, originalArtist, originalTitle);
          }
        }
      }
    }
    assert rels[..|rels|] == rels;
  }

  /** `perform_online_lookup`. */
  method PerformOnlineLookup(clientId: Option<string>, services: Services, duration: real, fp: string)
    returns (r: Result<TrackMetadata>)
    ensures r == OnlineLookup(clientId, services, duration, fp)
  {
    if clientId.None? {
      return Err(NoClientId);
    }
    if services.lookup.Err? {
      return Err(LookupFailed);
    }
    var best := BestRecording(services.lookup.value);
    if best.None? {
      return Err(NoMatch);
    }
    var recording := best.value;
    var finalTitle := FoundTitle(recording);
    var finalArtist := FoundArtist(recording);
    var originalArtist: Option<string> := None;
    var originalTitle: Option<string> := None;
    var details := services.recordingDetails(recording.id);
    if details.Ok? && details.value.relations.Some? {
      originalArtist, originalTitle := ScanRelations(details.value.relations.value, services.workRecordings, finalArtist);
    }
    r := Ok(TrackMetadata(finalTitle, finalArtist, None, originalArtist, originalTitle, duration, Some(fp), []));
  }

  // ---------------------------------------------------------------------------
  // process_file / process_file_from_memory

  /** Where the audio comes from; only the decoder's error message differs.
      Both variants read the tags in the same way, and the tag reader never
      fails, so the propagation of `process_file` and the default of
      `process_file_from_memory` never come into play. */
  datatype Source = FromPath | FromMemory

  function DecodeFailed(source: Source): string {
    if source == FromPath then "Failed to decode audio file" else "Failed to decode audio from memory"
  }

  const FingerprintFailed := "Fingerprint generation failed"

  /** The local tags, with the decoded duration and the fingerprint. */
  function LocalMetadata(probe: TagProbe, fileName: Option<string>, duration: real, fp: string): TrackMetadata {
    TagMetadata(probe, fileName).(duration := duration, fingerprint := Some(fp))
  }

  /** `process_file` / `process_file_from_memory`. `decoded` is the decoder's
      answer (its duration), `fingerprint` the fingerprinter's, `analysis`
      the melody analysis (`None` when it failed). */
  method ProcessFile(source: Source, decoded: Result<real>, fingerprint: Result<string>,
                     offline: bool, clientId: Option<string>, services: Services,
                     probe: TagProbe, fileName: Option<string>, analysis: Option<seq<real>>)
    returns (r: Result<(TrackMetadata, Option<seq<real>>)>)
    ensures decoded.Err? ==> r == Err(DecodeFailed(source))
    ensures decoded.Ok? && fingerprint.Err? ==> r == Err(FingerprintFailed)
    ensures decoded.Ok? && fingerprint.Ok? ==> r.Ok? && r.value.1 == analysis
    ensures decoded.Ok? && fingerprint.Ok? ==>
              var online := OnlineLookup(clientId, services, decoded.value, fingerprint.value);
              r.value.0 == if !offline && clientId.Some? && online.Ok? then online.value
                           else LocalMetadata(probe, fileName, decoded.value, fingerprint.value)
  {
    if decoded.Err? {
      return Err(DecodeFailed(source));
    }
    if fingerprint.Err? {
      return Err(FingerprintFailed);
    }
    var fp := fingerprint.value;
    var duration := decoded.value;
    var meta;
    if offline || clientId.None? {
      meta := ReadTags(probe, fileName);
      meta := meta.(duration := duration, fingerprint := Some(fp));
    } else {
      var found := PerformOnlineLookup(clientId, services, duration, fp);
      if found.Ok? {
        meta := found.value;
      } else {
        meta := ReadTags(probe, fileName);
        meta := meta.(duration := duration, fingerprint := Some(fp));
      }
    }
    r := Ok((meta, analysis));
  }

  /** Whatever the mode, a decoded and fingerprinted file yields metadata
      carrying its fingerprint and duration; the local path always has a
      title and an artist. */
  lemma ProcessedMetadata(clientId: Option<string>, services: Services, offline: bool,
                          probe: TagProbe, fileName: Option<string>, duration: real, fp: string)
    ensures var online := OnlineLookup(clientId, services, duration, fp);
            var local := offline || clientId.None? || online.Err?;
            var meta := if !local then online.value else LocalMetadata(probe, fileName, duration, fp);
            && meta.fingerprint == Some(fp) && meta.duration == duration
            && (local ==> meta.title != "" && meta.artist != "")
  {
    assert UnknownTitle != "" && UnknownArtist != "";
  }
}
