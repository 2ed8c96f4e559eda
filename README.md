# audio_sorter, modelled in Dafny

audio_sorter indexes a music collection. It walks a directory for audio files. For each new or changed file, a worker decodes it, computes a Chromaprint fingerprint, and reads title and artist from the local tags or the file name. Online, it asks AcoustID and MusicBrainz instead, including for the original of a cover. Results merge into a JSON index of tracks and a binary store of analysis vectors. A web server answers recommendation queries by Euclidean distance over those vectors and serves an M3U playlist. A library search finds duplicates by fingerprint and similar tracks under metadata filters.

The model covers:

- The two stores: `AudioLibrary` and `AnalysisStore`, as classes with a map field.
- The directory scan.
- The incremental diff and merge of both scan drivers:
  - the web server's `ScanManager`, which merges in batches of 50 and keeps progress;
  - the command line's `run_scan`.
- The worker's control flow and the online lookup.
- The file-name heuristic and the tag fallbacks.
- Fingerprint text encoding and the integer branches of the sample conversion.
- The classifier's frame, patch and batch bookkeeping.
- Duplicate detection, the similarity search and the two server handlers.

How the model stands in for the outside world:

- **Outside inputs.** The disk, the clock, the network, the decoder, Chromaprint, the tag library and the ONNX models are parameters:
  - `stat: Path -> Option<DiskStat>`;
  - `now`;
  - a `Services` value carrying the AcoustID answer and two MusicBrainz lookups;
  - `process: QueuedFile -> Outcome`;
  - a `TagProbe`;
  - a `ChromaprintRun`.
- **Persisted files.** `Persisted<T>` has four cases: absent, unreadable, unparsable, or holding a value.
- **Map order.** A `HashMap` is visited in an arbitrary but fixed order, so that order is an input `order` that enumerates the keys once each. `find_duplicates` builds a second map, keyed by fingerprint, and its order is a second input `groupOrder`; results are stated for every such order.
- **Floats.** Floating-point values are `real`. A distance is kept by its square, because the square root is monotone.

## Model

| member | source | states |
|---|---|---|
| Storage.AudioLibrary.constructor | src/storage.rs:9-12 | `AudioLibrary::default()` holds no tracks |
| Storage.AudioLibrary.Load | src/storage.rs:24-31 | no file gives the empty library; a read failure and a parse failure give their two error messages; a stored index is loaded as is |
| Storage.AudioLibrary.FindDuplicates | src/storage.rs:44-54 | whatever the order of the library and of the map of groups, the result is the duplicate groups kept in the map's order, and the same groups, up to order, as when fingerprints are taken in first-seen order; every group has more than one track; all tracks of a group share one present fingerprint; different groups have different fingerprints; the groups together hold at most the library's tracks |
| Storage.CollectGroups | src/storage.rs:46-50 | the grouping loop maps exactly the fingerprints seen, in first-seen order, each to all tracks carrying it in iteration order |
| Storage.AddTrack | src/storage.rs:47-49 | one step of the grouping loop keeps the grouping invariant for one more track |
| Storage.GroupFor | src/storage.rs:47-49 | a fingerprint's group holds only tracks with that fingerprint, taken from the input |
| Storage.FirstSeen | src/storage.rs:46-50 | the distinct fingerprints come without repetition |
| Storage.DuplicateGroupsShape | src/storage.rs:51-53 | every kept group has at least two tracks with the same present fingerprint, and no fingerprint heads two groups |
| Storage.DuplicateGroupsComplete | src/storage.rs:44-54 | any two distinct tracks that share a fingerprint lie together in some group |
| Storage.FindDuplicatesComplete | src/storage.rs:44-54 | two distinct library paths sharing a fingerprint lie together in some group of the result, whatever the two iteration orders |
| Storage.FirstSeenSound | src/storage.rs:47-49 | every fingerprint recorded by the grouping loop is the fingerprint of some visited track |
| Storage.FingerprintsSeen | src/storage.rs:46-50 | the keys of the map of groups are exactly the fingerprints present in the library |
| Storage.KeepDuplicatesAppend | src/storage.rs:53 | filtering the groups of a concatenated key order filters each part in turn |
| Storage.KeepDuplicatesMoveOut | src/storage.rs:53 | taking one key out of the middle of the order takes only its group, if kept, out of the result |
| Storage.OrderFreeStep | src/storage.rs:53 | putting one key back at the end of one order and in the middle of another keeps their results equal as multisets |
| Storage.KeepDuplicatesOrderFree | src/storage.rs:53 | `into_values().filter(..)` gives the same groups, up to order, for any two orders listing the same keys once each |
| Storage.DuplicateGroupsSkipUnfingerprinted | src/storage.rs:47 | a track without a fingerprint is in no group |
| Storage.DuplicateGroupsTotal | src/storage.rs:44-54 | no track is counted in two groups: the group sizes add up to at most the number of tracks |
| Storage.TracksInOrder | src/storage.rs:46 | the tracks visited are the library's entries at the iteration order's keys |
| AnalysisStorage.AnalysisStore.constructor | src/analysis_store.rs:7-11 | the default store is empty |
| AnalysisStorage.AnalysisStore.Load | src/analysis_store.rs:15-22 | no file gives an empty store; read and decode failures give their messages; a stored map is loaded as is |
| AnalysisStorage.AnalysisStore.Get | src/analysis_store.rs:40-42 | a vector is found exactly when the path has an entry, and it is that entry |
| AnalysisStorage.AnalysisStore.Insert | src/analysis_store.rs:35-37 | the path then maps to the new vector and every other path is unchanged |
| AnalysisStorage.AnalysisStore.Remove | src/analysis_store.rs:45-47 | the path then has no entry, every other path is unchanged, and removing an absent path changes nothing |
| Scanner.ScanDirectory | src/scanner.rs:6-21 | the scan never fails and lists the kept walk entries in walk order |
| Scanner.AudioFilesMembership | src/scanner.rs:11-19 | a path is listed exactly when some readable regular-file entry of the walk has it and its lower-cased extension is mp3, flac, wav, m4a or ogg |
| Scanner.AudioFilesSubsequence | src/scanner.rs:11-19 | the listing is the walk's kept paths taken at strictly increasing positions |
| Scanner.PathExtension | src/scanner.rs:14 | a path has an extension exactly when its last component does |
| Scanner.HiddenFileSkipped | src/scanner.rs:14 | a dot file such as ".mp3" has no extension and is never listed |
| Scanner.SupportedExtensionKept | src/scanner.rs:14-16 | a stem, a dot and a supported extension in any ASCII case is listed |
| Scanner.UpperCaseExtensionKept | src/scanner.rs:15 | "Song.MP3" is listed |
| Paths.FileName | src/organizer.rs:89 | `file_name` is the last component and is absent only for the empty path |
| Paths.Extension | src/organizer.rs:23-26 | an extension exists exactly when the last dot of the name is not in first position and the name is not `..`, and it holds no dot |
| Paths.FileStem | src/organizer.rs:23-26 | the name is the stem, a dot and the extension, or the stem is the whole name when there is no extension |
| Paths.StemAndExtension | src/organizer.rs:23-26 | a stem, a dot and a dot-free extension split back into the same stem and extension |
| Paths.StripPrefix | src/server.rs:101 | `strip_prefix` succeeds exactly when the root's components begin the path, and the path is the root followed by the result |
| Text.AsciiLowerStr | src/scanner.rs:15 | lower-casing keeps the length and maps exactly the ASCII capitals down |
| Text.EqIgnoreAsciiCaseIsEquivalence | src/recommend.rs:78 | `eq_ignore_ascii_case` is reflexive, symmetric and transitive |
| Text.Trim | src/organizer.rs:36-37 | the trim is the slice between the leading and trailing whitespace runs, and neither of its ends is whitespace |
| Text.TrimUntrimmed | src/organizer.rs:36-37 | a string that neither starts nor ends with whitespace is its own trim |
| Text.IndexOfFrom | src/organizer.rs:34 | the search finds the first occurrence of the pattern at or after the start, or reports that there is none |
| Text.JoinSplit | src/organizer.rs:51 | joining the pieces of a split with the same separator rebuilds the string |
| Text.SplitCount | src/organizer.rs:35-45 | a split yields two or more pieces exactly when the pattern occurs |
| Text.SplitFirst | src/organizer.rs:34 | when the pattern cannot start inside the first piece, the split cuts right after it |
| Text.SplitPiecesFree | src/organizer.rs:44 | no piece of a split at one character holds that character |
| Text.NatToDecimalRoundTrip | src/server.rs:118-121 | reading back the decimal digits of a natural gives the natural |
| Text.NatToDecimalNoLeadingZero | src/server.rs:118-121 | the digits start with '0' only for zero itself, so no longer number has a leading zero |
| Text.IntToDecimalInjective | src/server.rs:118-121 | different durations print differently |
| Organizer.ParseMetadataFromFilename | src/organizer.rs:22-61 | there is always a title, and without an artist the title is the whole stem |
| Organizer.ParseSpacedDash | src/organizer.rs:34-40 | exactly one " - " gives the two trimmed sides as title and artist |
| Organizer.ParseLastDash | src/organizer.rs:43-57 | with no " - " but some '-', the title is everything before the last dash and the artist is the part after it, both trimmed |
| Organizer.LastDashPieces | src/organizer.rs:50-51 | joining all pieces but the last with '-' and keeping the last piece splits the stem at its last dash |
| Organizer.ParseNoDash | src/organizer.rs:60 | a stem without any dash is all title, with no artist |
| Organizer.ParseManySpacedDashes | src/organizer.rs:35-60 | two or more " - " skip the dash fallback, so the stem is all title |
| Organizer.ParseTrimmedSpacedDash | src/organizer.rs:34-40 | "x - y.ext" with trimmed, dash-free sides gives title x and artist y |
| Organizer.UnspacedStem | src/organizer.rs:33-42 | a stem with no blank never holds the " - " separator, so the fallback split on "-" applies however many dashes it has |
| Organizer.ParseTrimmedLastDash | src/organizer.rs:43-57 | "x-y.ext" with no " - " gives title x and artist y |
| Organizer.ParseBareStem | src/organizer.rs:60 | "x.ext" without a dash gives title x and no artist |
| Organizer.ExampleSpacedDash | src/organizer.rs:188-193 | the simple-dash test: "Song Title - Artist Name.mp3" |
| Organizer.ExampleDashWithoutSpaces | src/organizer.rs:195-200 | the no-spaces test: "SongTitle-ArtistName.mp3" |
| Organizer.ExampleMultipleDashes | src/organizer.rs:202-208 | the multiple-dashes test: the title keeps its inner dashes |
| Organizer.ExampleNoDash | src/organizer.rs:210-215 | the no-dash test: "JustTitle.wav" is all title |
| Organizer.ExampleNonAsciiTitle | src/organizer.rs:217-222 | the user-example test: a non-ASCII title before a bare dash |
| Organizer.ReadTags | src/organizer.rs:63-120 | the tag reading with its fallbacks computes the metadata that `TagMetadata` specifies |
| Organizer.TagMetadataFallbacks | src/organizer.rs:87-119 | title and artist are never empty; the album comes from the tag; originals, duration, fingerprint and genres are empty; a usable tag title wins; otherwise the file name supplies the title, and the artist when the tag's is empty or the placeholder |
| Fingerprint.Base64Encode | src/fingerprint.rs:69-93 | the bit-buffer loop produces exactly the group-by-group encoding |
| Fingerprint.PushByte | src/fingerprint.rs:76-85 | one pass of the outer loop keeps the invariant: the written prefix, the bits held, and the low buffer bits still owed |
| Fingerprint.WriteSextets | src/fingerprint.rs:80-84 | the inner loop leaves `bits mod 6` bits and writes the six-bit groups above them |
| Fingerprint.EncodeLength | src/fingerprint.rs:69-93 | n bytes give ceil(8n/6) characters, with no padding characters |
| Fingerprint.EncodeInAlphabet | src/fingerprint.rs:70 | every character comes from the URL-safe alphabet |
| Fingerprint.EncodeAppend | src/fingerprint.rs:76-85 | the encoding is compositional at three-byte boundaries |
| Fingerprint.EncodeGroup | src/fingerprint.rs:76-85 | three bytes become the four characters of one group |
| Fingerprint.FinalTail | src/fingerprint.rs:87-91 | a last group of one or two bytes becomes two or three characters, the last one zero-padded |
| Fingerprint.AlphabetTable | src/fingerprint.rs:70 | the alphabet string agrees with the URL-safe digit table |
| Fingerprint.FingerprintFromSamples | src/fingerprint.rs:35-66 | no samples is the "No audio samples provided" error; the result is Ok exactly when there are samples, the fingerprinter starts and it yields a fingerprint; then it is the encoding of the compressed fingerprint |
| AudioDecoder.AsI16 | src/audio_decoder.rs:306 | the truncating cast lands in the i16 range and differs from its input by a multiple of 2^16 |
| AudioDecoder.ConvertExact | src/audio_decoder.rs:338-414 | for every integer format, a sample in its range converts without wrap-around, by the offset and shift the branch states |
| AudioDecoder.InterleavedLayout | src/audio_decoder.rs:291-295 | frames × channels samples are appended; the one at f·C + c is channel c at frame f, converted; every one fits in i16 |
| AudioDecoder.MonoS16Plane | src/audio_decoder.rs:287-288 | for mono 16-bit input, copying the plane is the interleaving |
| AudioDecoder.ConvertToI16 | src/audio_decoder.rs:279-416 | the output grows by exactly the interleaved converted samples |
| Distances.SumSquares | src/recommend.rs:37-40 | the sum of squared differences is never negative |
| Distances.EuclideanDistance | src/recommend.rs:33-42 | the distance is `f32::MAX` exactly when the lengths differ |
| Distances.ServerDistance | src/server.rs:19-28 | the server's distance is NaN exactly when the lengths differ |
| Distances.DistanceVariantsAgree | src/server.rs:19-28 | the two distance variants agree wherever the lengths match |
| Distances.DistanceToSelf | src/recommend.rs:155-158 | a vector is at distance 0 from itself |
| Distances.DistanceSymmetric | src/recommend.rs:37-40 | the distance is symmetric |
| Distances.ThreeFourFive | src/recommend.rs:148-152 | (0,0,0) to (3,4,0) is 5 |
| Sorting.InsertBy | src/recommend.rs:132-136 | inserting keeps the order and adds exactly the one element |
| Sorting.SortBy | src/recommend.rs:132-136 | the sort is an ascending permutation of its input |
| Sorting.InsertByStable | src/recommend.rs:132-136 | an inserted element lands after every element with its key, which keep their order |
| Sorting.SortByStable | src/recommend.rs:132-136 | the sort is stable, as `slice::sort_by` is: for every key, the elements with that key come out in the order they went in |
| Sorting.SortThenTruncate | src/recommend.rs:139 | sort then truncate to k: at most k elements drawn from the input, ascending, and none left out is smaller than one kept |
| Sorting.PrefixHoldsSmallest | src/server.rs:241 | cutting a sorted sequence keeps its smallest elements |
| Iteration.EnumerationSize | src/storage.rs:46 | an iteration order visits as many keys as the map has entries |
| Recommend.NoFiltersPassEverything | src/recommend.rs:74-119 | with no filter set, every track passes |
| Recommend.CandidatesMembership | src/recommend.rs:68-129 | a scored track is collected exactly when it is a library track other than the query, passes all filters, has analysis data, and carries its distance to the query |
| Recommend.FindSimilar | src/recommend.rs:55-141 | no query analysis gives no results; otherwise the k nearest candidates, sorted ascending, none left out closer than one kept, each a filtered library track other than the query with its true distance |
| Server.GetRecommendations | src/server.rs:205-273 | a store that fails to load and a target without analysis give their two errors; otherwise at most 20 entries, sorted by distance, none left out closer, each the library's title, artist and album for a same-length store entry other than the target, or the defaults "Unknown", "Unknown" and "-" |
| Server.CollectCandidates | src/server.rs:223-235 | the loop pushes exactly the candidate pairs, in iteration order |
| Server.ServerCandidatesMembership | src/server.rs:225-235 | a pair is pushed exactly when its path is a store entry other than the target, of the same length, carrying its squared distance |
| Server.RankedPairs | src/server.rs:237-241 | every ranked pair is another store entry of the target's length, with its squared distance |
| Server.RankedClosest | src/server.rs:237-241 | no candidate left out of the top 20 is closer than a ranked one |
| Server.RankedAnswer | src/server.rs:237-270 | the enriched ranking has min(20, candidates) entries, sorted ascending, each enriching its ranked pair |
| Server.EnrichedEntries | src/server.rs:249-270 | each answer entry is its ranked pair with the library's names or the defaults |
| Server.EnrichKeepsOrder | src/server.rs:249-270 | enrichment keeps the length and the ascending order |
| Server.GetPlaylist | src/server.rs:74-148 | the playlist starts with "#EXTM3U"; an unloadable library and a missing input directory give their error lines; otherwise two lines follow for each track under the input directory, in iteration order |
| Server.PlaylistEntries | src/server.rs:99-135 | the loop appends exactly the entries of the listed tracks |
| Server.Listed | src/server.rs:100-101 | only paths under the root are listed |
| Server.ListedMembership | src/server.rs:100-101 | a path is listed exactly when iteration visits it and the root's components begin it |
| Server.RoundHalfAway | src/server.rs:103 | `round` is within one half of its input and keeps its sign, and a half goes away from zero |
| Server.RoundHalfExamples | src/server.rs:103 | 2.5 rounds to 3 and -2.5 to -3 |
| Server.SaturateI64 | src/server.rs:103 | the `as i64` cast is exact within range and saturates at either bound |
| Server.DurationSecsNearest | src/server.rs:103 | within the i64 range, the printed seconds are the duration rounded to the nearest integer, a half going away from zero |
| Server.DisplayNames | src/server.rs:106-115 | an empty title shows as "Unknown Title" and an empty artist as "Unknown Artist"; otherwise the stored ones are shown, so neither is ever empty |
| Server.EntriesAreTwoLines | src/server.rs:117-133 | when no name, host or encoded segment holds a line break, each listed track adds exactly two lines |
| Server.ExtinfLineSingle | src/server.rs:117-121 | the `#EXTINF` line holds no line break when the title and artist hold none |
| GenreClassifier.FrameCountWrapsOnShortInput | src/genre_classifier.rs:533-536 | below 1024 samples the count as written is at least 2^55 - 1, where zero frames are meant |
| GenreClassifier.FrameCountOfEmptyInput | src/genre_classifier.rs:533-536 | no samples at all already show the wrap-around |
| GenreClassifier.FrameCountFits | src/genre_classifier.rs:533 | every counted frame of 1024 samples at hop 512 fits in the input, and one more would not |
| GenreClassifier.FrameCountAgrees | src/genre_classifier.rs:533 | from 1024 samples on, the corrected count and the code as written agree |
| GenreClassifier.PatchCountMaximal | src/genre_classifier.rs:625-643 | the patch count is the largest number of 128-row windows 64 rows apart, at least one from 128 rows on |
| GenreClassifier.CreatePatches | src/genre_classifier.rs:625-643 | patch k is exactly rows 64k to 64k + 128 of the spectrogram, and there are as many patches as fit |
| GenreClassifier.ChunkLen | src/genre_classifier.rs:315 | every chunk of `chunks(64)` holds between 1 and 64 patches |
| GenreClassifier.KeptRowsArePatchRows | src/genre_classifier.rs:353-362 | the embedding kept for patch p is row p mod 64 of batch p / 64, so the padding rows are dropped |
| GenreClassifier.CollectedWidth | src/genre_classifier.rs:368-378 | with every batch d wide, total × d values are collected, so the deduced width is d |
| GenreClassifier.CollectEmbeddings | src/genre_classifier.rs:315-363 | the batching loop succeeds exactly when every batch run succeeds, then collects the kept rows flattened; otherwise it reports the first failing batch's error |
| GenreClassifier.AppendValidRows | src/genre_classifier.rs:355-362 | the inner loops append the first `valid_count` rows of a batch, flattened |
| GenreClassifier.LabelResults | src/genre_classifier.rs:448-453 | the labelling loop gives one result per activation, labelled by index |
| GenreClassifier.TopGenresOrdered | src/genre_classifier.rs:455-470 | min(top_k, n) results in descending confidence |
| GenreClassifier.TopGenresLabelled | src/genre_classifier.rs:448-453 | each result is an activation index's label with that activation |
| GenreClassifier.TopGenresMostConfident | src/genre_classifier.rs:455-470 | no activation left out is more confident than one kept |
| GenreClassifier.ToMetadataFormat | src/genre_classifier.rs:646-651 | each result becomes its (label, confidence) pair, in order |
| GenreClassifier.Classify | src/genre_classifier.rs:258-471 | a spectrogram shorter than 128 rows gives no genres; an error comes exactly from a failed batch, or a failed classifier run on collected embeddings; otherwise the top_k labelled activations, or nothing when no embeddings were collected |
| Worker.OnlineLookup | src/worker.rs:108-193 | no client id and a failed lookup give their errors; a match exists exactly when the first result has a recording; the match's title and artist, the given duration and fingerprint, no album and no genres; an original artist comes with an original title, differs from the matched artist, and exists exactly when a cover is found |
| Worker.FirstCover | src/worker.rs:150-168 | a cover's artist differs from the matched artist |
| Worker.FirstCoverIsFirst | src/worker.rs:150-168 | no cover is found exactly when no recording of the work is one; otherwise the first recording that is a cover supplies the originals |
| Worker.LastCoverIsLast | src/worker.rs:141-176 | the originals are absent exactly when no relation yields a cover; otherwise they come from the last relation that does |
| Worker.ScanWorkRecordings | src/worker.rs:150-168 | the inner loop stops at the first cover and returns it |
| Worker.ScanRelations | src/worker.rs:141-176 | the outer loop leaves the last relation's cover |
| Worker.PerformOnlineLookup | src/worker.rs:108-193 | the imperative lookup computes exactly `OnlineLookup` |
| Worker.ProcessFile | src/worker.rs:15-106 | decode and fingerprint failures give their messages, with the decoder's message depending on the source; online mode with a client id and a successful lookup takes the online metadata, and every other case the local tags with the decoded duration and the fingerprint; the analysis is passed through |
| Worker.ProcessedMetadata | src/worker.rs:30-44 | every processed file carries its fingerprint and duration, and the local path never yields an empty title or artist |
| ScanManagement.DiffPhase | src/scan_manager.rs:203-230 | the diff loop returns the queued files with their size and time on disk, and the count of files that are up to date |
| ScanManagement.DiffPartition | src/scan_manager.rs:203-230 | every listed file is exactly one of queued, skipped or unreadable |
| ScanManagement.QueuedIff | src/scan_manager.rs:203-230 | a file is queued exactly when it is listed, its metadata reads as the queued size and time, and it needs an update |
| ScanManagement.QueuedNamed | src/scan_manager.rs:321-325 | every queued path has a file name to show as the current file |
| ScanManagement.Results | src/scan_manager.rs:272-288 | one worker outcome per queued file, in queue order |
| ScanManagement.Errors | src/scan_manager.rs:308-312 | no more errors than results |
| ScanManagement.MergeAppend | src/scan_manager.rs:265-314 | merging batch after batch is merging the whole queue, and the error counts add up |
| ScanManagement.MergedIndexAt | src/scan_manager.rs:291-306 | after the merge a path is indexed exactly when it was before or some success wrote it; the last success for it wins; nothing is removed |
| ScanManagement.MergedAnalysisAt | src/scan_manager.rs:304-306 | the same for analysis vectors: only successes that carry one write it, and the last one wins |
| ScanManagement.MergeBatch | src/scan_manager.rs:291-314 | one batch's loop counts every result as processed and every failure as an error, and leaves both stores merged |
| ScanManagement.LoadStores | src/scan_manager.rs:181-184 | an unloadable store starts empty; a loaded one is used as is |
| ScanManagement.NumThreads | src/scan_manager.rs:250-258 | the pool has 1 to 4 threads: one less than the parallelism, 1 when it is unknown, capped at 4 |
| ScanManagement.ScanManager.constructor | src/scan_manager.rs:53-57 | a new manager shows the default progress |
| ScanManagement.ScanManager.GetProgress | src/scan_manager.rs:59-61 | reading the progress returns the current progress |
| ScanManagement.ScanManager.StartScan | src/scan_manager.rs:63-83 | a second scan is refused with "Scan already in progress", leaving the progress untouched; otherwise the progress is reset and marked as scanning |
| ScanManagement.ScanManager.Cleanup | src/scan_manager.rs:152-156 | when the scan ends, the progress is no longer scanning and carries the elapsed time; nothing else changes |
| ScanManagement.ScanManager.RunScanLogic | src/scan_manager.rs:171-341 | the total is the listing's length; with nothing queued the processed count is the skipped count; otherwise the processed count is skipped plus queued, the errors are the workers' failures, the current file is the last queued name, both stores are merged, and the result is the final saves' outcome |
| ScanManagement.ScanManager.MergeQueue | src/scan_manager.rs:264-334 | the chunk loop over batches of 50 merges the whole queue and counts every result |
| ScanManagement.ScanManager.MergeChunk | src/scan_manager.rs:291-326 | one chunk adds its size to the processed count, so the count never goes down, and updates errors and current file |
| ScanManagement.ScanManager.ScanTask | src/scan_manager.rs:145-156 | after the scan task the manager is no longer scanning |
| MainScan.RunScan | src/main.rs:152-305 | the skipped count is the diff's; with nothing queued it returns Ok without saving; otherwise it saves and returns the saves' outcome; successes and errors add up to the queue, the errors are the workers' failures, and both stores are merged |
| MainScan.MergePhase | src/main.rs:267-293 | the merge loop counts each result once, as success or error, and leaves both stores merged |

## Left out

- Floating point. Vectors, confidences and durations are `real`. Rounding, NaN from non-finite inputs, and the `f32` overflow of a sum of squares are not modelled. The square root is not computed: a distance is kept as its square, which orders distances the same way.
- Recommend.FindSimilar: Rust's `partial_cmp(..).unwrap_or(Equal)` is modelled as a total order, because NaN cannot arise from reals.
- The audio decoder's float branches (F32, F64, src/audio_decoder.rs:311-337) are not modelled. They clamp a float before casting, and floats are out of scope.
- Decoding itself, resampling, the mel filterbank, the FFT and `to_bliss_samples` are left out. The decoder (symphonia), Chromaprint's fingerprinter and compressor, lofty's tag reading, bliss analysis and the ONNX models are foreign code. Their results enter the model as parameters.
- Model loading and thread-local sessions in the classifier are left out (`init_models`, `load_thread_models`, `is_initialized`), and so is the build without the `genre-onnx` feature. Classify starts once the models are loaded.
- GenreClassifier.Classify: the `patches.is_empty()` guard (src/genre_classifier.rs:303-306) is not modelled as a branch. With at least 128 rows there is always a patch (PatchCountMaximal), so the guard cannot fire.
- Organizer.ReadTags: `read_tags` never returns an error. Probe failures are caught and fall back to empty fields. So the `?`, `.context` and `unwrap_or_else(default)` around it in src/worker.rs are unreachable and are not modelled.
- Worker.ProcessFile: `read_tags_from_memory` differs from `read_tags` only in where lofty reads from, so both are the one `TagProbe` input. `process_file_from_memory` is the same method with `Source = FromMemory`; only the decoder's error message differs.
- The HTTP transport of the lookups is not modelled. The AcoustID and MusicBrainz clients (src/acoustid.rs, src/musicbrainz.rs), reqwest and rate limiting are not part of this model. Their answers are the `Services` input.
- Worker.OnlineLookup does not validate recording identifiers; the source does not either.
- src/cache.rs is not part of this model. The core does not call it.
- The resource monitor thread is not modelled: CPU, memory and disk statistics, and the elapsed-time updates every 500 ms. The tokio task, the rayon pool and the `RwLock` are not modelled either. Progress updates are modelled as they would appear one batch at a time, in order. A poisoned lock is not modelled.
- ScanManagement.ScanManager.RunScanLogic does not model the periodic save (src/scan_manager.rs:328-332). Its saves are discarded and do not change the stores. Its condition tests `processed_c % 200`, and `processed_c` starts from the skipped count, so the save does not in general fall every four batches.
- Storage and AnalysisStore `save` are not modelled, and neither is the JSON or bincode encoding. A store on disk is a `Persisted` value; a save's outcome is an input.
- Paths are taken with roots and `.`/`..` components already resolved. Rust's `strip_prefix` (src/server.rs:101) and `PathBuf` equality tell an absolute root from a relative one; the model cannot, so a relative music directory is treated like an absolute one.
- Server.GetPlaylist takes URL encoding of a path segment (`urlencoding::encode`) as the input function `encode`. Lossy UTF-8 conversion of path components is not modelled. A path is a sequence of valid strings.
- The server's routing, static files, the HTML page, `serve_tracks`, `get_duplicates` and `start_scan` handlers are left out; they are thin wrappers around modelled members.
- Scanner.AudioFilesMembership uses ASCII lower-casing where the source uses Unicode `to_lowercase`. No non-ASCII character lower-cases to a letter of the five supported extensions, so the two agree.
- Worker.OnlineLookup: the metadata built at src/worker.rs:178-186 leaves out `genres`; the model gives it no genres, as `TrackMetadata::default()` does.
- In src/main.rs, `run_scan` calls `worker::process_file` with two arguments where the worker takes three. The model follows the worker's signature; the missing HTTP client is an input.

## Findings

| source | as written | input that shows it | evidently intended | confidence | as-written member | corrected member |
|---|---|---|---|---|---|---|
| src/genre_classifier.rs:533 | `(samples.len() - N_FFT) / HOP_LENGTH + 1` on `usize` wraps when there are fewer than 1024 samples, so the `num_frames == 0` guard on the next line never fires; in a release build the count is about 2^55 and allocating the spectrogram at src/genre_classifier.rs:547 then panics, in a debug build the subtraction panics | a resampled signal of 0 to 1023 samples (e.g. an empty one) | zero frames for fewer than 1024 samples, so the empty spectrogram is returned | not executed | GenreClassifier.FrameCountAsWritten (with GenreClassifier.FrameCountWrapsOnShortInput) | GenreClassifier.FrameCount (with GenreClassifier.FrameCountFits) |
