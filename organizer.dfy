/** Track metadata and the local-tag reader (organizer.rs): the file-name
    heuristic `parse_metadata_from_filename` and the defaults that
    `read_tags` / `read_tags_from_memory` apply on top of the tag library. */
module Organizer {
  import opened Wrappers
  import opened Text
  import opened Paths

  /** `TrackMetadata`; durations and confidences are reals. */
  datatype TrackMetadata = TrackMetadata(
    title: string,
    artist: string,
    album: Option<string>,
    originalArtist: Option<string>,
    originalTitle: Option<string>,
    duration: real,
    fingerprint: Option<string>,
    genres: seq<(string, real)>)

  /** `TrackMetadata::default()`. */
  const DefaultMetadata := TrackMetadata("", "", None, None, None, 0.0, None, [])

  const UnknownTitle := "Unknown Title"
  const UnknownArtist := "Unknown Artist"

  // ---------------------------------------------------------------------------
  // parse_metadata_from_filename

  /** `parse_metadata_from_filename`: "Title - Artist", else "Title-Artist"
      split at the last dash, else the bare stem. */
  function ParseMetadataFromFilename(filename: string): (r: (Option<string>, Option<string>))
    ensures r.0.Some?
    ensures r.1.None? ==> r.0 == Some(FileStem(filename))
  {
    var stem := FileStem(filename);
    var parts := Split(stem, " - ");
    if |parts| == 2 then
      (Some(Trim(parts[0])), Some(Trim(parts[1])))
    else if |parts| < 2 && |Split(stem, "-")| >= 2 then
      var dashParts := Split(stem, "-");
      (Some(Trim(Join(dashParts[..|dashParts| - 1], "-"))), Some(Trim(dashParts[|dashParts| - 1])))
    else
      (Some(stem), None)
  }

  /** Exactly one " - ": the two sides, trimmed, are title and artist. */
  lemma ParseSpacedDash(filename: string, a: string, b: string)
    requires Split(FileStem(filename), " - ") == [a, b]
    ensures FileStem(filename) == a + " - " + b
    ensures ParseMetadataFromFilename(filename) == (Some(Trim(a)), Some(Trim(b)))
  {
    JoinSplit(FileStem(filename), " - ");
  }

  /** No " - " but some '-': for the stem written as `x`, a dash, then a
      dash-free `y` (that is, cut at its last dash), the title is `x` and
      the artist `y`, both trimmed. */
  lemma ParseLastDash(filename: string, x: string, y: string)
    requires !Contains(FileStem(filename), " - ")
    requires FileStem(filename) == x + "-" + y && '-' !in y
    ensures ParseMetadataFromFilename(filename) == (Some(Trim(x)), Some(Trim(y)))
  {
    var stem := FileStem(filename);
    assert OccursAt(stem, "-", |x|) by {
      assert stem[|x|..|x| + 1] == "-";
    }
    SplitCount(stem, " - ");
    var x', y' := LastDashPieces(stem);
    LastDashUnique(x, y, x', y');
    var pd := Split(stem, "-");
    assert x == Join(pd[..|pd| - 1], "-") && y == pd[|pd| - 1];
    ParseDashPieces(filename, pd);
  }

  /** A string has one way of being cut at a dash followed by no dash. */
  lemma LastDashUnique(x: string, y: string, x': string, y': string)
    requires x + "-" + y == x' + "-" + y' && '-' !in y && '-' !in y'
    ensures x == x' && y == y'
  {
    var s := x + "-" + y;
    LastDashAt(x, y);
    LastDashAt(x', y');
    assert |x| == |x'|;
    assert x == s[..|x|] == x';
    assert y == s[|x| + 1..] == y';
  }

  /** In `x` + "-" + a dash-free `y`, the dash after `x` is the last one. */
  lemma LastDashAt(x: string, y: string)
    requires '-' !in y
    ensures var s := x + "-" + y;
              s[|x|] == '-' && forall k :: |x| < k < |s| ==> s[k] != '-'
  {
    var s := x + "-" + y;
    forall k | |x| < k < |s| ensures s[k] != '-' {
      assert s[k] == y[k - |x| - 1];
    }
  }

  /** Split at every '-', a string with a dash is its pieces before the
      last dash, rejoined, then the dash, then a last piece with no dash. */
  lemma LastDashPieces(stem: string) returns (x: string, y: string)
    requires Contains(stem, "-")
    ensures |Split(stem, "-")| >= 2
    ensures x == Join(Split(stem, "-")[..|Split(stem, "-")| - 1], "-")
    ensures y == Split(stem, "-")[|Split(stem, "-")| - 1]
    ensures stem == x + "-" + y && '-' !in y
  {
    SplitCount(stem, "-");
    var pd := Split(stem, "-");
    x, y := Join(pd[..|pd| - 1], "-"), pd[|pd| - 1];
    JoinSplit(stem, "-");
    JoinLast(pd, "-");
    assert "-" == ['-'];
    SplitPiecesFree(stem, '-');
    assert forall k :: 0 <= k < |y| ==> y[k] != '-' by {
      forall k | 0 <= k < |y| ensures y[k] != '-' {
        assert pd[|pd| - 1][k] == y[k];
      }
    }
  }

  /** No dash at all: the whole stem is the title and there is no artist. */
  lemma ParseNoDash(filename: string)
    requires !Contains(FileStem(filename), "-")
    ensures ParseMetadataFromFilename(filename) == (Some(FileStem(filename)), None)
  {
    var stem := FileStem(filename);
    SplitCount(stem, "-");
    forall k | 0 <= k <= |stem| ensures !OccursAt(stem, " - ", k) {
      if k + 3 <= |stem| {
        assert stem[k..k + 3][1] == stem[k + 1];
        assert stem[k + 1..k + 2] == [stem[k + 1]];
        assert !OccursAt(stem, "-", k + 1);
      }
    }
    SplitCount(stem, " - ");
  }

  /** A single '-' that is not preceded by a space is no " - " separator. */
  lemma NoSpacedDash(x: string, y: string)
    requires '-' !in x && '-' !in y
    requires x != [] ==> x[|x| - 1] != ' '
    ensures !Contains(x + "-" + y, " - ")
  {
    var s := x + "-" + y;
    forall k | 0 <= k <= |s| ensures !OccursAt(s, " - ", k) {
      if k + 3 <= |s| {
        assert s[k..k + 3][0] == s[k] && s[k..k + 3][1] == s[k + 1];
        if k + 1 < |x| {
          assert s[k + 1] == x[k + 1];
        } else if k + 1 == |x| {
          assert s[k] == x[|x| - 1];
        } else if k + 1 > |x| + 1 {
          assert s[k + 1] == y[k - |x|];
        }
      }
    }
  }

  /** Two or more " - " separators: the dash fallback is skipped, so the
      whole stem is the title and there is no artist. */
  lemma ParseManySpacedDashes(filename: string)
    requires |Split(FileStem(filename), " - ")| >= 3
    ensures ParseMetadataFromFilename(filename) == (Some(FileStem(filename)), None)
  {
  }

  // ---------------------------------------------------------------------------
  // read_tags / read_tags_from_memory

  /** What the tag library yields: the probe failed, the file has no tag, or
      its primary (else first) tag with these fields. */
  datatype TagProbe =
    | ProbeFailed
    | NoTag
    | Tagged(title: Option<string>, artist: Option<string>, album: Option<string>)

  function TagTitle(probe: TagProbe): string {
    if probe.Tagged? then probe.title.GetOr("") else ""
  }

  function TagArtist(probe: TagProbe): string {
    if probe.Tagged? then probe.artist.GetOr("") else ""
  }

  function NonEmptyOr(s: string, default: string): string {
    if s == "" then default else s
  }

  /** What `read_tags` makes of a probe: the tag's fields, the file name's
      title (and artist, where the tag has none) when the tag title is
      missing, and the defaults for whatever is still empty. */
  function TagMetadata(probe: TagProbe, fileName: Option<string>): TrackMetadata {
    var title0, artist0 := TagTitle(probe), TagArtist(probe);
    var album := if probe.Tagged? then probe.album else None;
    var parsed := if (title0 == "" || title0 == UnknownTitle) && fileName.Some?
                  then Some(ParseMetadataFromFilename(fileName.value)) else None;
    var title1 := if parsed.Some? && parsed.value.0.Some? then parsed.value.0.value else title0;
    var artist1 := if parsed.Some? && (artist0 == "" || artist0 == UnknownArtist) && parsed.value.1.Some?
                   then parsed.value.1.value else artist0;
    TrackMetadata(NonEmptyOr(title1, UnknownTitle), NonEmptyOr(artist1, UnknownArtist), album, None, None, 0.0, None, [])
  }

  /** `read_tags` (and `read_tags_from_memory`, which differs only in where
      the tag library reads from). `fileName` is the path's file name. */
  method ReadTags(probe: TagProbe, fileName: Option<string>) returns (meta: TrackMetadata)
    ensures meta == TagMetadata(probe, fileName)
  {
    var title, artist, album;
    match probe {
      case Tagged(t, a, al) =>
        title, artist, album := t.GetOr(""), a.GetOr(""), al;
      case _ =>
        title, artist, album := "", "", None;
    }
    assert title == TagTitle(probe) && artist == TagArtist(probe);

    // fall back to the file name when the tag title is missing
    if title == "" || title == UnknownTitle {
      if fileName.Some? {
        var parsed := ParseMetadataFromFilename(fileName.value);
        var fTitle, fArtist := parsed.0, parsed.1;
        if fTitle.Some? {
          title := fTitle.value;
        }
        if artist == "" || artist == UnknownArtist {
          if fArtist.Some? {
            artist := fArtist.value;
          }
        }
      }
    }

    if title == "" {
      title := UnknownTitle;
    }
    if artist == "" {
      artist := UnknownArtist;
    }
    meta := TrackMetadata(title, artist, album, None, None, 0.0, None, []);
  }

  /** What the tags yield: a title and an artist that are never empty, the
      tag's album, and nothing of what only the lookup fills in. A usable
      tag title wins and the file name is not consulted; otherwise the
      title comes from the file name, and so does the artist, but only
      when the tag has none and the name yields one. */
  lemma TagMetadataFallbacks(probe: TagProbe, fileName: Option<string>)
    ensures var meta := TagMetadata(probe, fileName);
            && meta.title != "" && meta.artist != ""
            && meta.album == (if probe.Tagged? then probe.album else None)
            && meta.originalArtist == None && meta.originalTitle == None
            && meta.duration == 0.0 && meta.fingerprint == None && meta.genres == []
    ensures var meta := TagMetadata(probe, fileName);
            TagTitle(probe) !in {"", UnknownTitle} || fileName.None? ==>
              && meta.title == NonEmptyOr(TagTitle(probe), UnknownTitle)
              && meta.artist == NonEmptyOr(TagArtist(probe), UnknownArtist)
    ensures var meta := TagMetadata(probe, fileName);
            TagTitle(probe) in {"", UnknownTitle} && fileName.Some? ==>
              && meta.title == NonEmptyOr(ParseMetadataFromFilename(fileName.value).0.value, UnknownTitle)
              && var parsed := ParseMetadataFromFilename(fileName.value).1;
                 meta.artist == if TagArtist(probe) in {"", UnknownArtist} && parsed.Some?
                                then NonEmptyOr(parsed.value, UnknownArtist)
                                else NonEmptyOr(TagArtist(probe), UnknownArtist)
  {
    assert UnknownTitle != "" && UnknownArtist != "";
  }

  /** A stem whose " - " split has fewer than two pieces and whose '-' split
      is `pd` parses to the trimmed join of all but the last piece and the
      trimmed last piece. */
  lemma ParseDashPieces(filename: string, pd: seq<string>)
    requires |Split(FileStem(filename), " - ")| < 2
    requires Split(FileStem(filename), "-") == pd && |pd| >= 2
    ensures ParseMetadataFromFilename(filename) == (Some(Trim(Join(pd[..|pd| - 1], "-"))), Some(Trim(pd[|pd| - 1])))
  {
  }

  // ---------------------------------------------------------------------------
  // whole file names, for the unit tests of parse_metadata_from_filename

  /** A file name `x - y.ext` with no other dash, and `x` and `y` already
      trimmed, parses as title `x` and artist `y`. */
  lemma ParseTrimmedSpacedDash(x: string, y: string, ext: string)
    requires '.' !in ext && '-' !in x && '-' !in y
    requires Trim(x) == x && Trim(y) == y
    ensures ParseMetadataFromFilename(x + " - " + y + "." + ext) == (Some(x), Some(y))
  {
    var stem := x + " - " + y;
    assert |stem + "." + ext| >= 4;
    StemAndExtension(stem, ext);
    SpacedDashSplit(x, y);
    ParseSpacedDash(stem + "." + ext, x, y);
  }

  /** `x - y` with no dash in `x` or `y` splits into `x` and `y`. */
  lemma SpacedDashSplit(x: string, y: string)
    requires '-' !in x && '-' !in y
    ensures Split(x + " - " + y, " - ") == [x, y]
  {
    SplitAbsent(y, " - ", 1);
    assert " - "[..1] == " " && " - "[1] == '-';
    assert '-' !in x + " ";
    SplitFirst(x, " - ", y, 1);
  }

  /** A file name `x-y.ext` whose `y` has no dash, whose stem has no " - ",
      and whose `x` and `y` are already trimmed parses as title `x` and
      artist `y`. */
  lemma ParseTrimmedLastDash(x: string, y: string, ext: string)
    requires x != [] && '.' !in ext && '-' !in y
    requires !Contains(x + "-" + y, " - ")
    requires Trim(x) == x && Trim(y) == y
    ensures ParseMetadataFromFilename(x + "-" + y + "." + ext) == (Some(x), Some(y))
  {
    StemAndExtension(x + "-" + y, ext);
    ParseLastDash(x + "-" + y + "." + ext, x, y);
  }

  /** A file name `x.ext` with no dash in `x` is all title. */
  lemma ParseBareStem(x: string, ext: string)
    requires x != [] && x != "." && '.' !in ext && '-' !in x
    ensures ParseMetadataFromFilename(x + "." + ext) == (Some(x), None)
  {
    assert x + "." + ext != ".." by {
      if |x| == 1 {
        assert x == [x[0]] && (x + "." + ext)[0] == x[0];
      }
    }
    StemAndExtension(x, ext);
    NotContainedByChar(x, "-", 0);
    ParseNoDash(x + "." + ext);
  }

  // Each test below is proved in two steps: small lemmas establish the
  // facts about the literal names, then a general lemma above concludes.

  /** The titles and artists of the tests start and end with a
      non-blank character, so trimming leaves them as they are. */
  lemma TestNamesUntrimmed(s: string)
    requires || s == "Song Title" || s == "Artist Name" || s == "SongTitle" || s == "ArtistName"
             || s == "Title-With-Dashes" || s == "Artist" || s == "BANG BANG BANG (뱅뱅뱅)" || s == "BIGBANG"
    ensures Trim(s) == s
  {
    TrimUntrimmed(s);
  }

  lemma SpacedDashFacts()
    ensures "Song Title" + " - " + "Artist Name" + "." + "mp3" == "Song Title - Artist Name.mp3"
    ensures '.' !in "mp3"
    ensures '-' !in "Song Title" && '-' !in "Artist Name"
  {
  }

  /** test_parse_filename_simple_dash */
  lemma ExampleSpacedDash()
    ensures ParseMetadataFromFilename("Song Title - Artist Name.mp3") == (Some("Song Title"), Some("Artist Name"))
  {
    SpacedDashFacts();
    TestNamesUntrimmed("Song Title");
    TestNamesUntrimmed("Artist Name");
    ParseTrimmedSpacedDash("Song Title", "Artist Name", "mp3");
  }

  /** A stem with no blank in it cannot hold the " - " separator, however
      many dashes it has. */
  lemma UnspacedStem(x: string, y: string)
    requires ' ' !in x && ' ' !in y
    ensures !Contains(x + "-" + y, " - ")
  {
    NotContainedByChar(x + "-" + y, " - ", 0);
  }

  /** The two tests whose names have no blank: however many dashes the
      stem has, none of them is a " - " separator. */
  lemma UnspacedTestNamesFacts()
    ensures "SongTitle" + "-" + "ArtistName" + "." + "mp3" == "SongTitle-ArtistName.mp3"
    ensures "SongTitle" != [] && '.' !in "mp3" && '-' !in "ArtistName"
    ensures !Contains("SongTitle" + "-" + "ArtistName", " - ")
    ensures "Title-With-Dashes" + "-" + "Artist" + "." + "flac" == "Title-With-Dashes-Artist.flac"
    ensures "Title-With-Dashes" != [] && '.' !in "flac" && '-' !in "Artist"
    ensures !Contains("Title-With-Dashes" + "-" + "Artist", " - ")
  {
    UnspacedStem("SongTitle", "ArtistName");
    UnspacedStem("Title-With-Dashes", "Artist");
  }

  /** test_parse_filename_no_spaces_dash */
  lemma ExampleDashWithoutSpaces()
    ensures ParseMetadataFromFilename("SongTitle-ArtistName.mp3") == (Some("SongTitle"), Some("ArtistName"))
  {
    UnspacedTestNamesFacts();
    TestNamesUntrimmed("SongTitle");
    TestNamesUntrimmed("ArtistName");
    ParseTrimmedLastDash("SongTitle", "ArtistName", "mp3");
  }

  /** test_parse_filename_multiple_dashes: the title keeps its inner
      dashes. */
  lemma ExampleMultipleDashes()
    ensures ParseMetadataFromFilename("Title-With-Dashes-Artist.flac") == (Some("Title-With-Dashes"), Some("Artist"))
  {
    UnspacedTestNamesFacts();
    TestNamesUntrimmed("Title-With-Dashes");
    TestNamesUntrimmed("Artist");
    ParseTrimmedLastDash("Title-With-Dashes", "Artist", "flac");
  }

  lemma NoDashFacts()
    ensures "JustTitle" + "." + "wav" == "JustTitle.wav"
    ensures "JustTitle" != [] && "JustTitle" != "." && '.' !in "wav" && '-' !in "JustTitle"
  {
  }

  /** test_parse_filename_no_dash */
  lemma ExampleNoDash()
    ensures ParseMetadataFromFilename("JustTitle.wav") == (Some("JustTitle"), None)
  {
    NoDashFacts();
    ParseBareStem("JustTitle", "wav");
  }

  lemma NonAsciiTitleFacts()
    ensures "BANG BANG BANG (뱅뱅뱅)" + "-" + "BIGBANG" + "." + "flac" == "BANG BANG BANG (뱅뱅뱅)-BIGBANG.flac"
    ensures "BANG BANG BANG (뱅뱅뱅)" != [] && '.' !in "flac" && '-' !in "BIGBANG"
    ensures !Contains("BANG BANG BANG (뱅뱅뱅)" + "-" + "BIGBANG", " - ")
  {
    var a := "BANG BANG BANG (뱅뱅뱅)";
    assert '-' !in a && a[|a| - 1] != ' ';
    NoSpacedDash(a, "BIGBANG");
  }

  /** test_parse_filename_user_example: a dash with no space before it is
      not a " - " separator. */
  lemma ExampleNonAsciiTitle()
    ensures ParseMetadataFromFilename("BANG BANG BANG (뱅뱅뱅)-BIGBANG.flac") == (Some("BANG BANG BANG (뱅뱅뱅)"), Some("BIGBANG"))
  {
    NonAsciiTitleFacts();
    TestNamesUntrimmed("BANG BANG BANG (뱅뱅뱅)");
    TestNamesUntrimmed("BIGBANG");
    ParseTrimmedLastDash("BANG BANG BANG (뱅뱅뱅)", "BIGBANG", "flac");
  }
}
