/** The directory scan (scanner.rs): of the entries a recursive directory
    walk yields, keep the regular files whose extension, lower-cased, is
    one of the supported audio formats. The walk itself is an input. */
module Scanner {
  import opened Wrappers
  import opened Text
  import opened Paths

  /** One item of the directory walk: an entry the walker failed to read,
      or a path and whether it is a regular file. */
  datatype WalkEntry = Unreadable | Entry(path: Path, isFile: bool)

  const AudioExtensions: set<string> := {"mp3", "flac", "wav", "m4a", "ogg"}

  /** The extension of the path's last component, if it has one. */
  function PathExtension(p: Path): (r: Option<string>)
    ensures r.Some? <==> |p| > 0 && HasExtension(p[|p| - 1])
  {
    if |p| == 0 then None else Extension(p[|p| - 1])
  }

  /** A path is kept when its lower-cased extension is a supported one.
      Lower-casing is ASCII: no non-ASCII character lower-cases to a
      letter of these five extensions. */
  predicate IsAudioPath(p: Path) {
    PathExtension(p).Some? && AsciiLowerStr(PathExtension(p).value) in AudioExtensions
  }

  predicate Kept(e: WalkEntry) {
    e.Entry? && e.isFile && IsAudioPath(e.path)
  }

  /** The kept paths, in walk order. */
  function AudioFiles(entries: seq<WalkEntry>): seq<Path> {
    if entries == [] then []
    else
      var e := entries[|entries| - 1];
      AudioFiles(entries[..|entries| - 1]) + if Kept(e) then [e.path] else []
  }

  /** `scan_directory` over the entries of the walk, in walk order. It never
      fails: unreadable entries are skipped. */
  method ScanDirectory(entries: seq<WalkEntry>) returns (r: Result<seq<Path>>)
    ensures r.Ok?
    ensures r.value == AudioFiles(entries)
  {
    var files: seq<Path> := [];
    for i := 0 to |entries|
      invariant files == AudioFiles(entries[..i])
    {
      assert entries[..i + 1][..i] == entries[..i];
      match entries[i] {
        case Unreadable =>
        case Entry(path, isFile) =>
          if isFile {
            var ext := PathExtension(path);
            if ext.Some? {
              if AsciiLowerStr(ext.value) in AudioExtensions {
                files := files + [path];
              }
            }
          }
      }
    }
    assert entries[..|entries|] == entries;
    r := Ok(files);
  }

  /** A path is in the result exactly when some readable regular-file entry
      of the walk has it and its extension is supported. */
  lemma {:induction false} AudioFilesMembership(entries: seq<WalkEntry>, p: Path)
    ensures p in AudioFiles(entries) <==>
              exists i :: 0 <= i < |entries| && entries[i] == Entry(p, true) && IsAudioPath(p)
  {
    if entries != [] {
      var n := |entries| - 1;
      AudioFilesMembership(entries[..n], p);
      EntryAtStep(entries, p);
    }
  }

  /** The last entry adds at most its own path. */
  lemma EntryAtStep(entries: seq<WalkEntry>, p: Path)
    requires entries != []
    ensures var n := |entries| - 1;
            (exists i :: 0 <= i < |entries| && entries[i] == Entry(p, true) && IsAudioPath(p)) <==>
            (exists i :: 0 <= i < n && entries[..n][i] == Entry(p, true) && IsAudioPath(p))
            || (entries[n] == Entry(p, true) && IsAudioPath(p))
  {
    var n := |entries| - 1;
    if exists i :: 0 <= i < |entries| && entries[i] == Entry(p, true) && IsAudioPath(p) {
      var i :| 0 <= i < |entries| && entries[i] == Entry(p, true) && IsAudioPath(p);
      if i < n {
        assert entries[..n][i] == entries[i];
      }
    }
    if exists i :: 0 <= i < n && entries[..n][i] == Entry(p, true) && IsAudioPath(p) {
      var i :| 0 <= i < n && entries[..n][i] == Entry(p, true) && IsAudioPath(p);
      assert entries[i] == entries[..n][i];
    }
  }

  /** `idx` lists strictly increasing positions of kept entries whose paths
      are `out`, in order. */
  ghost predicate PicksInOrder(idx: seq<nat>, out: seq<Path>, entries: seq<WalkEntry>) {
    && |idx| == |out|
    && (forall k :: 0 <= k < |idx| ==> idx[k] < |entries| && Kept(entries[idx[k]]) && out[k] == entries[idx[k]].path)
    && (forall k, l :: 0 <= k < l < |idx| ==> idx[k] < idx[l])
  }

  /** The result keeps walk order: it is the walk's kept paths taken at
      strictly increasing positions. */
  lemma {:induction false} AudioFilesSubsequence(entries: seq<WalkEntry>)
    ensures exists idx :: PicksInOrder(idx, AudioFiles(entries), entries)
  {
    if entries == [] {
      assert PicksInOrder([], AudioFiles(entries), entries);
    } else {
      var n := |entries| - 1;
      var init := entries[..n];
      AudioFilesSubsequence(init);
      var idx :| PicksInOrder(idx, AudioFiles(init), init);
      PicksWiden(idx, AudioFiles(init), entries, n);
      if Kept(entries[n]) {
        PicksExtend(idx, AudioFiles(init), entries, n);
        assert PicksInOrder(idx + [n], AudioFiles(entries), entries);
      } else {
        assert AudioFiles(entries) == AudioFiles(init) + [];
        assert PicksInOrder(idx, AudioFiles(entries), entries);
      }
    }
  }

  /** Picks among the first `n` entries are picks among all of them. */
  lemma PicksWiden(idx: seq<nat>, out: seq<Path>, entries: seq<WalkEntry>, n: nat)
    requires n <= |entries| && PicksInOrder(idx, out, entries[..n])
    ensures PicksInOrder(idx, out, entries)
    ensures forall k :: 0 <= k < |idx| ==> idx[k] < n
  {
    forall k | 0 <= k < |idx|
      ensures idx[k] < |entries| && Kept(entries[idx[k]]) && out[k] == entries[idx[k]].path
    {
      assert entries[..n][idx[k]] == entries[idx[k]];
    }
  }

  /** A kept entry after every pick extends the picks. */
  lemma PicksExtend(idx: seq<nat>, out: seq<Path>, entries: seq<WalkEntry>, n: nat)
    requires n < |entries| && PicksInOrder(idx, out, entries) && Kept(entries[n])
    requires forall k :: 0 <= k < |idx| ==> idx[k] < n
    ensures PicksInOrder(idx + [n], out + [entries[n].path], entries)
  {
    var idx', out' := idx + [n], out + [entries[n].path];
    forall k | 0 <= k < |idx'|
      ensures idx'[k] < |entries| && Kept(entries[idx'[k]]) && out'[k] == entries[idx'[k]].path
    {
      if k < |idx| {
        assert idx'[k] == idx[k] && out'[k] == out[k];
      }
    }
    forall k, l | 0 <= k < l < |idx'| ensures idx'[k] < idx'[l] {
      assert idx'[k] == idx[k];
    }
  }

  /** A hidden file such as ".mp3" has no extension and is never kept. */
  lemma HiddenFileSkipped(dir: Path, ext: string)
    requires '.' !in ext
    ensures !IsAudioPath(dir + ["." + ext])
  {
    var name := "." + ext;
    assert (dir + [name])[|dir + [name]| - 1] == name;
    assert name[0] == '.';
    forall k | 0 < k < |name| ensures name[k] != '.' {
      assert name[k] == ext[k - 1];
    }
    assert LastDot(name) == Some(0);
  }

  /** A file named stem "." ext, with a supported extension in any ASCII
      case, is kept. */
  lemma SupportedExtensionKept(dir: Path, stem: string, ext: string)
    requires stem != [] && '.' !in ext && stem + "." + ext != ".."
    requires AsciiLowerStr(ext) in AudioExtensions
    ensures IsAudioPath(dir + [stem + "." + ext])
  {
    StemAndExtension(stem, ext);
    assert (dir + [stem + "." + ext])[|dir|] == stem + "." + ext;
  }

  /** "Song.MP3" is kept like "song.mp3". */
  lemma UpperCaseExtensionKept(dir: Path, name: string)
    requires name == "Song.MP3"
    ensures IsAudioPath(dir + [name])
  {
    assert AsciiLowerStr("MP3") == "mp3";
    assert name == "Song" + "." + "MP3";
    SupportedExtensionKept(dir, "Song", "MP3");
  }
}
