/** The incremental scan (scan_manager.rs): a single-flight guard over the
    shared `ScanProgress`, and `run_scan_logic`, which loads both stores,
    lists the audio files, queues the ones whose index entry is stale, runs
    the worker on the queue in batches of 50 and merges the results into
    the library and the analysis store one by one.

    The scan runs on a spawned task beside a resource monitor; here it is a
    sequential run over the shared progress. The disk (file metadata, the
    two store files, the writes), the clock and the worker are inputs. */
module ScanManagement {
  import opened Wrappers
  import opened Paths
  import opened Organizer
  import opened Storage
  import opened AnalysisStorage
  import opened Scanner
  import opened Sorting

  // ---------------------------------------------------------------------------
  // progress

  datatype ResourceStats = ResourceStats(cpuUsage: real, memoryUsage: nat, diskUsage: nat, diskTotal: nat)

  datatype ScanProgress = ScanProgress(
    isScanning: bool,
    filesTotal: nat,
    filesProcessed: nat,
    currentFile: string,
    elapsedSecs: nat,
    resources: ResourceStats,
    errors: nat)

  /** `ScanProgress::default()`. */
  const DefaultProgress := ScanProgress(false, 0, 0, "", 0, ResourceStats(0.0, 0, 0, 0), 0)

  const AlreadyScanning := "Scan already in progress"

  // ---------------------------------------------------------------------------
  // the diff phase

  /** What `std::fs::metadata` reports: the length and the modification time
      in whole seconds since the UNIX epoch. */
  datatype DiskStat = DiskStat(size: nat, mtime: nat)

  /** A file queued for the worker, with the size and time the diff saw. */
  datatype QueuedFile = QueuedFile(path: Path, size: nat, mtime: nat)

  function Queue(p: Path, s: DiskStat): QueuedFile {
    QueuedFile(p, s.size, s.mtime)
  }

  /** A file needs work when the index does not have it, when its stored
      time or size differs from the disk (in either direction), or when its
      analysis is missing. */
  predicate NeedsUpdate(index: map<Path, IndexedTrack>, analysis: map<Path, Features>, f: QueuedFile) {
    || f.path !in index
    || index[f.path].modifiedTime != f.mtime
    || index[f.path].fileSize != f.size
    || f.path !in analysis
  }

  /** The files the diff queues, in listing order. */
  function Queued(index: map<Path, IndexedTrack>, analysis: map<Path, Features>,
                  files: seq<Path>, stat: Path -> Option<DiskStat>): seq<QueuedFile>
  {
    if files == [] then []
    else
      var p := files[|files| - 1];
      Queued(index, analysis, files[..|files| - 1], stat)
        + if stat(p).Some? && NeedsUpdate(index, analysis, Queue(p, stat(p).value)) then [Queue(p, stat(p).value)] else []
  }

  /** How many files the diff counts as up to date. */
  function Skipped(index: map<Path, IndexedTrack>, analysis: map<Path, Features>,
                   files: seq<Path>, stat: Path -> Option<DiskStat>): nat
  {
    if files == [] then 0
    else
      var p := files[|files| - 1];
      Skipped(index, analysis, files[..|files| - 1], stat)
        + if stat(p).Some? && !NeedsUpdate(index, analysis, Queue(p, stat(p).value)) then 1 else 0
  }

  /** How many files the diff drops because their metadata cannot be read. */
  function Unreadable(files: seq<Path>, stat: Path -> Option<DiskStat>): nat {
    if files == [] then 0
    else Unreadable(files[..|files| - 1], stat) + if stat(files[|files| - 1]).None? then 1 else 0
  }

  /** Every listed file is queued, skipped or dropped, and only one of them. */
  lemma {:induction false} DiffPartition(index: map<Path, IndexedTrack>, analysis: map<Path, Features>,
                                         files: seq<Path>, stat: Path -> Option<DiskStat>)
    ensures |Queued(index, analysis, files, stat)| + Skipped(index, analysis, files, stat) + Unreadable(files, stat) == |files|
  {
    if files != [] {
      DiffPartition(index, analysis, files[..|files| - 1], stat);
    }
  }

  /** A file is queued, with the size and time on disk, exactly when it is
      listed, its metadata can be read and it needs work. */
  lemma {:induction false} QueuedIff(index: map<Path, IndexedTrack>, analysis: map<Path, Features>,
                                     files: seq<Path>, stat: Path -> Option<DiskStat>, q: QueuedFile)
    ensures q in Queued(index, analysis, files, stat) <==>
              q.path in files && stat(q.path) == Some(DiskStat(q.size, q.mtime)) && NeedsUpdate(index, analysis, q)
  {
    if files != [] {
      var init := files[..|files| - 1];
      QueuedIff(index, analysis, init, stat, q);
      assert files == init + [files[|files| - 1]];
    }
  }

  /** `run_scan_logic`'s diff loop. */
  method DiffPhase(library: AudioLibrary, store: AnalysisStore, files: seq<Path>, stat: Path -> Option<DiskStat>)
    returns (queued: seq<QueuedFile>, skipped: nat)
    ensures queued == Queued(library.files, store.data, files, stat)
    ensures skipped == Skipped(library.files, store.data, files, stat)
    ensures |queued| + skipped <= |files|
  {
    queued, skipped := [], 0;
    for i := 0 to |files|
      invariant queued == Queued(library.files, store.data, files[..i], stat)
      invariant skipped == Skipped(library.files, store.data, files[..i], stat)
    {
      assert files[..i + 1][..i] == files[..i];
      var path := files[i];
      var metadata := stat(path);
      if metadata.Some? {
        var mtime := metadata.value.mtime;
        var size := metadata.value.size;
        var needsUpdate;
        if path in library.files {
          var indexed := library.files[path];
          if indexed.modifiedTime != mtime || indexed.fileSize != size {
            needsUpdate := true;
          } else {
            needsUpdate := store.Get(path).None?;
          }
        } else {
          needsUpdate := true;
        }
        if needsUpdate {
          queued := queued + [QueuedFile(path, size, mtime)];
        } else {
          skipped := skipped + 1;
        }
      }
    }
    assert files[..|files|] == files;
    DiffPartition(library.files, store.data, files, stat);
  }

  // ---------------------------------------------------------------------------
  // the merge phase

  /** What the worker answers for a file: its metadata and, when the
      melody analysis succeeded, the analysis vector. */
  type Outcome = Result<(TrackMetadata, Option<Features>)>

  datatype Processed = Processed(file: QueuedFile, result: Outcome)

  /** The worker run over the queue: one result per queued file, in order. */
  function Results(queued: seq<QueuedFile>, process: QueuedFile -> Outcome): (r: seq<Processed>)
    ensures |r| == |queued|
  {
    seq(|queued|, i requires 0 <= i < |queued| => Processed(queued[i], process(queued[i])))
  }

  /** The index entry a successful result writes. */
  function TrackEntry(item: Processed, now: nat): IndexedTrack
    requires item.result.Ok?
  {
    IndexedTrack(item.file.path, item.file.size, item.file.mtime, now, item.result.value.0)
  }

  predicate WritesIndex(item: Processed, p: Path) {
    item.result.Ok? && item.file.path == p
  }

  predicate WritesAnalysis(item: Processed, p: Path) {
    item.result.Ok? && item.result.value.1.Some? && item.file.path == p
  }

  /** The index after merging `items` in order. */
  function MergedIndex(index: map<Path, IndexedTrack>, items: seq<Processed>, now: nat): map<Path, IndexedTrack> {
    if items == [] then index
    else
      var m := MergedIndex(index, items[..|items| - 1], now);
      var last := items[|items| - 1];
      if last.result.Ok? then m[last.file.path := TrackEntry(last, now)] else m
  }

  /** The analysis store after merging `items` in order. */
  function MergedAnalysis(analysis: map<Path, Features>, items: seq<Processed>): map<Path, Features> {
    if items == [] then analysis
    else
      var m := MergedAnalysis(analysis, items[..|items| - 1]);
      var last := items[|items| - 1];
      if last.result.Ok? && last.result.value.1.Some? then m[last.file.path := last.result.value.1.value] else m
  }

  function Errors(items: seq<Processed>): (n: nat)
    ensures n <= |items|
  {
    if items == [] then 0 else Errors(items[..|items| - 1]) + if items[|items| - 1].result.Err? then 1 else 0
  }

  /** Merging in batches is merging the whole: the merge of `a` followed by
      the merge of `b` is the merge of `a + b`, and the errors add up. */
  lemma {:induction false} MergeAppend(index: map<Path, IndexedTrack>, analysis: map<Path, Features>,
                                       a: seq<Processed>, b: seq<Processed>, now: nat)
    ensures MergedIndex(MergedIndex(index, a, now), b, now) == MergedIndex(index, a + b, now)
    ensures MergedAnalysis(MergedAnalysis(analysis, a), b) == MergedAnalysis(analysis, a + b)
    ensures Errors(a) + Errors(b) == Errors(a + b)
  {
    if b != [] {
      var n := |b| - 1;
      MergeAppend(index, analysis, a, b[..n], now);
      assert (a + b)[..|a + b| - 1] == a + b[..n];
      assert (a + b)[|a + b| - 1] == b[n];
    } else {
      assert a + b == a;
    }
  }

  /** The merged index keeps every entry it had (nothing is removed), adds
      the paths of the successful results, and for each path holds the
      entry of the last successful result for it, with the diff's size and
      time and the scan's time; a path no successful result names keeps its
      old entry, so failures change nothing. */
  lemma {:induction false} MergedIndexAt(index: map<Path, IndexedTrack>, items: seq<Processed>, now: nat, p: Path)
    ensures p in MergedIndex(index, items, now) <==>
              p in index || exists i :: 0 <= i < |items| && WritesIndex(items[i], p)
    ensures (forall i :: 0 <= i < |items| ==> !WritesIndex(items[i], p)) && p in index ==>
              MergedIndex(index, items, now)[p] == index[p]
    ensures (exists i :: 0 <= i < |items| && WritesIndex(items[i], p)) ==>
              exists i :: && 0 <= i < |items| && WritesIndex(items[i], p)
                          && p in MergedIndex(index, items, now)
                          && MergedIndex(index, items, now)[p] == TrackEntry(items[i], now)
                          && forall j :: i < j < |items| ==> !WritesIndex(items[j], p)
  {
    if items != [] {
      var n := |items| - 1;
      var init := items[..n];
      MergedIndexAt(index, init, now, p);
      forall i | 0 <= i < n ensures items[i] == init[i] { }
      if !WritesIndex(items[n], p) && exists i :: 0 <= i < n && WritesIndex(init[i], p) {
        var i :| && 0 <= i < n && WritesIndex(init[i], p)
                 && p in MergedIndex(index, init, now)
                 && MergedIndex(index, init, now)[p] == TrackEntry(init[i], now)
                 && forall j :: i < j < n ==> !WritesIndex(init[j], p);
        assert forall j :: i < j < |items| ==> !WritesIndex(items[j], p);
      }
    }
  }

  /** The same for the analysis store: only successful results that carry
      an analysis write to it, the last one for a path wins, and nothing is
      removed. */
  lemma {:induction false} MergedAnalysisAt(analysis: map<Path, Features>, items: seq<Processed>, p: Path)
    ensures p in MergedAnalysis(analysis, items) <==>
              p in analysis || exists i :: 0 <= i < |items| && WritesAnalysis(items[i], p)
    ensures (forall i :: 0 <= i < |items| ==> !WritesAnalysis(items[i], p)) && p in analysis ==>
              MergedAnalysis(analysis, items)[p] == analysis[p]
    ensures (exists i :: 0 <= i < |items| && WritesAnalysis(items[i], p)) ==>
              exists i :: && 0 <= i < |items| && WritesAnalysis(items[i], p)
                          && p in MergedAnalysis(analysis, items)
                          && MergedAnalysis(analysis, items)[p] == items[i].result.value.1.value
                          && forall j :: i < j < |items| ==> !WritesAnalysis(items[j], p)
  {
    if items != [] {
      var n := |items| - 1;
      var init := items[..n];
      MergedAnalysisAt(analysis, init, p);
      forall i | 0 <= i < n ensures items[i] == init[i] { }
      if !WritesAnalysis(items[n], p) && exists i :: 0 <= i < n && WritesAnalysis(init[i], p) {
        var i :| && 0 <= i < n && WritesAnalysis(init[i], p)
                 && p in MergedAnalysis(analysis, init)
                 && MergedAnalysis(analysis, init)[p] == init[i].result.value.1.value
                 && forall j :: i < j < n ==> !WritesAnalysis(init[j], p);
        assert forall j :: i < j < |items| ==> !WritesAnalysis(items[j], p);
      }
    }
  }

  /** The merge loop of one batch: every result counts as processed, every
      failure as an error, and each success is written to both stores. */
  method MergeBatch(library: AudioLibrary, store: AnalysisStore, batch: seq<Processed>, now: nat,
                    processed0: nat, errors0: nat)
    returns (processed: nat, errors: nat)
    modifies library, store
    ensures processed == processed0 + |batch|
    ensures errors == errors0 + Errors(batch)
    ensures library.files == MergedIndex(old(library.files), batch, now)
    ensures store.data == MergedAnalysis(old(store.data), batch)
  {
    processed, errors := processed0, errors0;
    for k := 0 to |batch|
      invariant processed == processed0 + k
      invariant errors == errors0 + Errors(batch[..k])
      invariant library.files == MergedIndex(old(library.files), batch[..k], now)
      invariant store.data == MergedAnalysis(old(store.data), batch[..k])
    {
      assert batch[..k + 1][..k] == batch[..k];
      var item := batch[k];
      processed := processed + 1;
      match item.result {
        case Ok((meta, analysisOpt)) =>
          var entry := IndexedTrack(item.file.path, item.file.size, item.file.mtime, now, meta);
          library.files := library.files[item.file.path := entry];
          if analysisOpt.Some? {
            store.Insert(item.file.path, analysisOpt.value);
          }
        case Err(_) =>
          errors := errors + 1;
      }
    }
    assert batch[..|batch|] == batch;
  }

  // ---------------------------------------------------------------------------
  // loading, saving, threads

  /** `load(..).unwrap_or_default()`: a store that cannot be loaded is
      replaced by an empty one. */
  function LoadedOrEmpty<V>(file: Persisted<map<Path, V>>): map<Path, V> {
    if file.Stored? then file.value else map[]
  }

  method LoadStores(indexFile: Persisted<map<Path, IndexedTrack>>, analysisFile: Persisted<map<Path, Features>>)
    returns (library: AudioLibrary, store: AnalysisStore)
    ensures fresh(library) && fresh(store)
    ensures library.files == LoadedOrEmpty(indexFile)
    ensures store.data == LoadedOrEmpty(analysisFile)
  {
    var loadedIndex := AudioLibrary.Load(indexFile);
    if loadedIndex.Ok? {
      library := loadedIndex.value;
    } else {
      library := new AudioLibrary();
    }
    var loadedAnalysis := AnalysisStore.Load(analysisFile);
    if loadedAnalysis.Ok? {
      store := loadedAnalysis.value;
    } else {
      store := new AnalysisStore();
    }
  }

  /** The final `library.save(..)?; analysis_store.save(..)?`, given what
      each write yields; the analysis store is only written after the
      library was. */
  function SaveOutcome(indexWrite: Result<Unit>, analysisWrite: Result<Unit>): Result<Unit> {
    if indexWrite.Err? then indexWrite else analysisWrite
  }

  const BatchSize: nat := 50

  /** The worker pool size: one less than the available parallelism (2
      when it cannot be queried), at least 1 and at most 4. */
  function NumThreads(parallelism: Option<nat>): (n: nat)
    ensures 1 <= n <= 4
    ensures parallelism.None? ==> n == 1
    ensures parallelism.Some? && 2 <= parallelism.value <= 5 ==> n == parallelism.value - 1
    ensures parallelism.Some? && parallelism.value >= 5 ==> n == 4
  {
    var available := parallelism.GetOr(2);
    var spare := if available >= 1 then available - 1 else 0;
    var atLeastOne := if spare >= 1 then spare else 1;
    Min(atLeastOne, 4)
  }

  /** Every listed audio path has a last component, so every queued file
      has a name to show as the current file. */
  lemma QueuedNamed(index: map<Path, IndexedTrack>, analysis: map<Path, Features>,
                    entries: seq<WalkEntry>, stat: Path -> Option<DiskStat>)
    ensures forall q :: q in Queued(index, analysis, AudioFiles(entries), stat) ==> |q.path| > 0
  {
    forall q | q in Queued(index, analysis, AudioFiles(entries), stat) ensures |q.path| > 0 {
      QueuedIff(index, analysis, AudioFiles(entries), stat, q);
      AudioFilesMembership(entries, q.path);
    }
  }

  /** The file name the progress shows for a queued file (every queued
      file has one, by `QueuedNamed`). */
  function NameOf(q: QueuedFile): string {
    FileName(q.path).GetOr("")
  }

  // ---------------------------------------------------------------------------
  // the manager

  class ScanManager {
    var progress: ScanProgress

    /** `ScanManager::new()`: nothing scanning, all counters zero. */
    constructor ()
      ensures progress == DefaultProgress
    {
      progress := DefaultProgress;
    }

    /** `get_progress`: a copy of the progress. */
    function GetProgress(): (p: ScanProgress)
      reads this
      ensures p == progress
    {
      progress
    }

    /** `start_scan`'s guard and reset: a second scan is refused and
        changes nothing; an accepted one starts from the default progress
        with `is_scanning` set. */
    method StartScan() returns (r: Result<Unit>)
      modifies this
      ensures old(progress).isScanning ==> r == Err(AlreadyScanning) && progress == old(progress)
      ensures !old(progress).isScanning ==> r == Ok(Unit) && progress == DefaultProgress.(isScanning := true)
    {
      if progress.isScanning {
        return Err(AlreadyScanning);
      }
      progress := DefaultProgress;
      progress := progress.(isScanning := true);
      r := Ok(Unit);
    }

    /** The cleanup after the scan task: not scanning any more, with the
        final elapsed time. */
    method Cleanup(elapsed: nat)
      modifies this
      ensures progress == old(progress).(isScanning := false, elapsedSecs := elapsed)
    {
      progress := progress.(isScanning := false, elapsedSecs := elapsed);
    }

    /** `run_scan_logic`. `entries` is the directory walk, `stat` the file
        metadata, `now` the scan's time, `process` the worker, and the two
        writes what the final saves yield. Returns the stores as left in
        memory. */
    method RunScanLogic(indexFile: Persisted<map<Path, IndexedTrack>>, analysisFile: Persisted<map<Path, Features>>,
                        entries: seq<WalkEntry>, stat: Path -> Option<DiskStat>, now: nat,
                        process: QueuedFile -> Outcome, indexWrite: Result<Unit>, analysisWrite: Result<Unit>)
      returns (r: Result<Unit>, library: AudioLibrary, store: AnalysisStore)
      modifies this
      ensures fresh(library) && fresh(store)
      ensures var files := AudioFiles(entries);
              var index0, analysis0 := LoadedOrEmpty(indexFile), LoadedOrEmpty(analysisFile);
              var queued := Queued(index0, analysis0, files, stat);
              var results := Results(queued, process);
              && r == (if queued == [] then Ok(Unit) else SaveOutcome(indexWrite, analysisWrite))
              && library.files == MergedIndex(index0, results, now)
              && store.data == MergedAnalysis(analysis0, results)
              && progress.isScanning == old(progress).isScanning
              && progress.elapsedSecs == old(progress).elapsedSecs
              && progress.resources == old(progress).resources
              && progress.filesTotal == |files|
              && progress.filesProcessed == Skipped(index0, analysis0, files, stat) + |queued|
              && progress.errors == (if queued == [] then old(progress).errors else Errors(results))
              && progress.currentFile == (if queued == [] then old(progress).currentFile else NameOf(queued[|queued| - 1]))
    {
      library, store := LoadStores(indexFile, analysisFile);
      ghost var index0, analysis0 := library.files, store.data;

      // scan_directory never fails: unreadable entries are skipped
      var walk := ScanDirectory(entries);
      var files := walk.value;
      progress := progress.(filesTotal := |files|);

      var queued, skipped := DiffPhase(library, store, files, stat);
      progress := progress.(filesProcessed := skipped);
      if |queued| == 0 {
        return Ok(Unit), library, store;
      }

      QueuedNamed(index0, analysis0, entries, stat);
      MergeQueue(library, store, queued, process, now);
      r := SaveOutcome(indexWrite, analysisWrite);
    }

    /** The batch loop of `run_scan_logic`: the queue in chunks of 50, each
        run through the worker and merged, then the progress updated with
        the running totals and the chunk's last file name. */
    method MergeQueue(library: AudioLibrary, store: AnalysisStore, queued: seq<QueuedFile>,
                      process: QueuedFile -> Outcome, now: nat)
      requires queued != []
      requires forall q :: q in queued ==> |q.path| > 0
      modifies this, library, store
      ensures var results := Results(queued, process);
              && library.files == MergedIndex(old(library.files), results, now)
              && store.data == MergedAnalysis(old(store.data), results)
              && progress == old(progress).(filesProcessed := old(progress).filesProcessed + |queued|,
                                            errors := Errors(results), currentFile := NameOf(queued[|queued| - 1]))
    {
      ghost var results := Results(queued, process);
      ghost var index0, analysis0, progress0 := library.files, store.data, progress;
      var processedC, errorC := progress.filesProcessed, 0;
      var start := 0;
      while start < |queued|
        invariant start <= |queued|
        invariant processedC == progress0.filesProcessed + start
        invariant errorC == Errors(results[..start])
        invariant library.files == MergedIndex(index0, results[..start], now)
        invariant store.data == MergedAnalysis(analysis0, results[..start])
        invariant start == 0 ==> progress == progress0
        invariant start > 0 ==> progress == progress0.(filesProcessed := processedC, errors := errorC,
                                                       currentFile := NameOf(queued[start - 1]))
        decreases |queued| - start
      {
        var end := Min(start + BatchSize, |queued|);
        MergeAppend(index0, analysis0, results[..start], results[start..end], now);
        assert results[..start] + results[start..end] == results[..end];
        processedC, errorC := MergeChunk(library, store, queued, process, now, start, end, errorC);
        start := end;
      }
      assert results[..|queued|] == results;
    }

    /** One chunk `queued[start..end]`: run through the worker, merged, and
        reported in the progress, where `files_processed` grows by the size
        of the chunk (so it never decreases). */
    method MergeChunk(library: AudioLibrary, store: AnalysisStore, queued: seq<QueuedFile>,
                      process: QueuedFile -> Outcome, now: nat, start: nat, end: nat, errors0: nat)
      returns (processed: nat, errors: nat)
      requires start < end <= |queued|
      requires |queued[end - 1].path| > 0
      modifies this, library, store
      ensures var results := Results(queued, process)[start..end];
              && processed == old(progress).filesProcessed + (end - start)
              && errors == errors0 + Errors(results)
              && library.files == MergedIndex(old(library.files), results, now)
              && store.data == MergedAnalysis(old(store.data), results)
              && progress == old(progress).(filesProcessed := processed, errors := errors,
                                            currentFile := NameOf(queued[end - 1]))
    {
      var chunk := queued[start..end];
      var chunkResults := seq(|chunk|, i requires 0 <= i < |chunk| => Processed(chunk[i], process(chunk[i])));
      assert chunkResults == Results(queued, process)[start..end];
      processed, errors := MergeBatch(library, store, chunkResults, now, progress.filesProcessed, errors0);
      progress := progress.(filesProcessed := processed, errors := errors);
      var last := chunk[|chunk| - 1];
      var name := FileName(last.path);
      if name.Some? {
        progress := progress.(currentFile := name.value);
      }
    }

    /** The spawned task: the scan, then the cleanup, whatever the scan's
        outcome. */
    method ScanTask(indexFile: Persisted<map<Path, IndexedTrack>>, analysisFile: Persisted<map<Path, Features>>,
                    entries: seq<WalkEntry>, stat: Path -> Option<DiskStat>, now: nat,
                    process: QueuedFile -> Outcome, indexWrite: Result<Unit>, analysisWrite: Result<Unit>,
                    elapsed: nat)
      modifies this
      ensures !progress.isScanning && progress.elapsedSecs == elapsed
      ensures progress.filesTotal == |AudioFiles(entries)|
    {
      var r, library, store := RunScanLogic(indexFile, analysisFile, entries, stat, now, process, indexWrite, analysisWrite);
      Cleanup(elapsed);
    }
  }
}
