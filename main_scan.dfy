/** The command-line scan (`run_scan` in main.rs): the same load, listing
    and diff as the scan manager, then the worker over the whole queue at
    once and a merge that counts successes and errors. Console output, the
    parallel map and the clock are not modelled; the worker and the disk
    are inputs, as in the scan manager. */
module MainScan {
  import opened Wrappers
  import opened Paths
  import opened Storage
  import opened AnalysisStorage
  import opened Scanner
  import opened ScanManagement

  /** `run_scan`. Returns the stores as left in memory, whether the saves
      were reached, and the three counters it prints. */
  method RunScan(indexFile: Persisted<map<Path, IndexedTrack>>, analysisFile: Persisted<map<Path, Features>>,
                 entries: seq<WalkEntry>, stat: Path -> Option<DiskStat>, now: nat,
                 process: QueuedFile -> Outcome, indexWrite: Result<Unit>, analysisWrite: Result<Unit>)
    returns (r: Result<Unit>, library: AudioLibrary, store: AnalysisStore, saved: bool,
             skippedCount: nat, successCount: nat, errorCount: nat)
    ensures fresh(library) && fresh(store)
    ensures var files := AudioFiles(entries);
            var index0, analysis0 := LoadedOrEmpty(indexFile), LoadedOrEmpty(analysisFile);
            var queued := Queued(index0, analysis0, files, stat);
            var results := Results(queued, process);
            && skippedCount == Skipped(index0, analysis0, files, stat)
            && skippedCount + |queued| <= |files|
            && (queued == [] ==> r == Ok(Unit) && !saved)
            && (queued != [] ==> saved && r == SaveOutcome(indexWrite, analysisWrite))
            && successCount + errorCount == |queued|
            && errorCount == Errors(results)
            && library.files == MergedIndex(index0, results, now)
            && store.data == MergedAnalysis(analysis0, results)
  {
    library, store := LoadStores(indexFile, analysisFile);

    // scan_directory never fails: unreadable entries are skipped
    var walk := ScanDirectory(entries);
    var files := walk.value;

    var filesToProcess;
    filesToProcess, skippedCount := DiffPhase(library, store, files, stat);
    successCount, errorCount, saved := 0, 0, false;
    if |filesToProcess| == 0 {
      return Ok(Unit), library, store, saved, skippedCount, successCount, errorCount;
    }

    var processedResults := seq(|filesToProcess|, i requires 0 <= i < |filesToProcess| =>
                                  Processed(filesToProcess[i], process(filesToProcess[i])));
    assert processedResults == Results(filesToProcess, process);
    successCount, errorCount := MergePhase(library, store, processedResults, now);
    saved := true;
    r := SaveOutcome(indexWrite, analysisWrite);
  }

  /** `run_scan`'s merge loop: each success is written to both stores and
      counted, each failure only counted. */
  method MergePhase(library: AudioLibrary, store: AnalysisStore, processedResults: seq<Processed>, now: nat)
    returns (successCount: nat, errorCount: nat)
    modifies library, store
    ensures successCount + errorCount == |processedResults|
    ensures errorCount == Errors(processedResults)
    ensures library.files == MergedIndex(old(library.files), processedResults, now)
    ensures store.data == MergedAnalysis(old(store.data), processedResults)
  {
    successCount, errorCount := 0, 0;
    for k := 0 to |processedResults|
      invariant successCount + errorCount == k
      invariant errorCount == Errors(processedResults[..k])
      invariant library.files == MergedIndex(old(library.files), processedResults[..k], now)
      invariant store.data == MergedAnalysis(old(store.data), processedResults[..k])
    {
      assert processedResults[..k + 1][..k] == processedResults[..k];
      var item := processedResults[k];
      match item.result {
        case Ok((meta, analysisOpt)) =>
          var entry := IndexedTrack(item.file.path, item.file.size, item.file.mtime, now, meta);
          library.files := library.files[item.file.path := entry];
          if analysisOpt.Some? {
            store.Insert(item.file.path, analysisOpt.value);
          }
          successCount := successCount + 1;
        case Err(_) =>
          errorCount := errorCount + 1;
      }
    }
    assert processedResults[..|processedResults|] == processedResults;
  }
}
