/** The integer bookkeeping of the genre classifier (genre_classifier.rs):
    the spectrogram frame count, cutting the mel spectrogram into
    overlapping patches, running them through the embedding model in
    batches of 64 and keeping only the rows of real patches, and turning the
    classifier's activations into labelled, ranked results. The signal
    processing and both neural networks are foreign: their outputs are
    inputs here. */
module GenreClassifier {
  import opened Wrappers
  import opened Sorting

  /** The 87 MTG-Jamendo genre labels, in the classifier's output order. */
  const GenreLabels: seq<string> := [
    "60s", "70s", "80s", "90s", "acidjazz", "alternative", "alternativerock", "ambient",
    "atmospheric", "blues", "bluesrock", "bossanova", "breakbeat", "celtic", "chanson",
    "chillout", "choir", "classical", "classicrock", "club", "contemporary", "country",
    "dance", "darkambient", "darkwave", "deephouse", "disco", "downtempo", "drumnbass", "dub",
    "dubstep", "easylistening", "edm", "electronic", "electronica", "electropop", "ethno",
    "eurodance", "experimental", "folk", "funk", "fusion", "groove", "grunge", "hard",
    "hardrock", "hiphop", "house", "idm", "improvisation", "indie", "industrial",
    "instrumentalpop", "instrumentalrock", "jazz", "jazzfusion", "latin", "lounge", "medieval",
    "metal", "minimal", "newage", "newwave", "orchestral", "pop", "popfolk", "poprock",
    "postrock", "progressive", "psychedelic", "punkrock", "rap", "reggae", "rnb", "rock",
    "rocknroll", "singersongwriter", "soul", "soundtrack", "swing", "symphonic", "synthpop",
    "techno", "trance", "triphop", "world", "worldfusion"
  ]

  const FftSize: nat := 1024
  const HopLength: nat := 512
  const PatchFrames: nat := 128
  const BatchSize: nat := 64

  /** A spectrogram row (one frame, 96 mel bands) or an embedding row. */
  type Row = seq<real>

  datatype GenreResult = GenreResult(genre: string, confidence: real)

  // ---------------------------------------------------------------------------
  // spectrogram frames

  /** The frame count of `compute_log_mel_spectrogram` as written: the
      subtraction is on `usize`, so below 1024 samples it wraps around
      (a debug build panics instead). */
  function FrameCountAsWritten(len: nat): nat
    requires len < 0x1_0000_0000_0000_0000
  {
    ((len - FftSize) % 0x1_0000_0000_0000_0000) / HopLength + 1
  }

  /** The frame count the `num_frames == 0` guard evidently expects: zero
      when not even one window of 1024 samples fits. */
  function FrameCount(len: nat): nat {
    if len < FftSize then 0 else (len - FftSize) / HopLength + 1
  }

  /** Frame `i` covers samples `512 i .. 512 i + 1024`: every counted frame
      fits in the input, and one more would not. */
  lemma FrameCountFits(len: nat)
    ensures forall i :: 0 <= i < FrameCount(len) ==> HopLength * i + FftSize <= len
    ensures HopLength * FrameCount(len) + FftSize > len
  {
  }

  /** From 1024 samples on, the code as written computes the same count. */
  lemma FrameCountAgrees(len: nat)
    requires FftSize <= len < 0x1_0000_0000_0000_0000
    ensures FrameCountAsWritten(len) == FrameCount(len)
  {
  }

  /** Below 1024 samples the code as written counts about 2^55 frames, so
      the guard for zero frames never fires and the program panics (on the
      subtraction in a debug build, on allocating the spectrogram in a
      release build) instead of returning the empty spectrogram; the
      intended count is zero. */
  lemma FrameCountWrapsOnShortInput(len: nat)
    requires len < FftSize
    ensures FrameCountAsWritten(len) >= 0x7F_FFFF_FFFF_FFFF
    ensures FrameCount(len) == 0
  {
    assert (len - FftSize) % 0x1_0000_0000_0000_0000 == len - FftSize + 0x1_0000_0000_0000_0000;
  }

  /** The smallest witness: no samples at all. */
  lemma FrameCountOfEmptyInput()
    ensures FrameCountAsWritten(0) == 0x7F_FFFF_FFFF_FFFF
    ensures FrameCount(0) == 0
  {
    assert (0 - FftSize) % 0x1_0000_0000_0000_0000 == 0x1_0000_0000_0000_0000 - FftSize;
  }

  // ---------------------------------------------------------------------------
  // patches

  /** How many patches of 128 rows, 64 apart, a spectrogram of `n` rows gives. */
  function PatchCount(n: nat): nat {
    if n < PatchFrames then 0 else (n - PatchFrames) / (PatchFrames / 2) + 1
  }

  /** The patch count is the largest number of 64-apart windows of 128 rows
      that fit: every counted one fits and the next would not. */
  lemma PatchCountMaximal(n: nat)
    ensures n >= PatchFrames ==> PatchCount(n) >= 1
    ensures forall k :: 0 <= k < PatchCount(n) ==> 64 * k + PatchFrames <= n
    ensures 64 * PatchCount(n) + PatchFrames > n
  {
  }

  /** `create_patches`: windows of 128 rows starting every 64 rows, none for
      a spectrogram shorter than 128 rows. */
  method CreatePatches(mel: seq<Row>) returns (patches: seq<seq<Row>>)
    ensures |patches| == PatchCount(|mel|)
    ensures forall k :: 0 <= k < |patches| ==>
              64 * k + PatchFrames <= |mel| && patches[k] == mel[64 * k..64 * k + PatchFrames]
  {
    patches := [];
    var numFrames := |mel|;
    if numFrames < PatchFrames {
      return;
    }
    var stride := PatchFrames / 2;
    var start := 0;
    while start + PatchFrames <= numFrames
      invariant start == 64 * |patches| && start <= numFrames
      invariant |patches| > 0 ==> 64 * (|patches| - 1) + PatchFrames <= numFrames
      invariant forall k :: 0 <= k < |patches| ==>
                  64 * k + PatchFrames <= |mel| && patches[k] == mel[64 * k..64 * k + PatchFrames]
      decreases numFrames - start
    {
      patches := patches + [mel[start..start + PatchFrames]];
      start := start + stride;
    }
  }

  // ---------------------------------------------------------------------------
  // batched embedding

  /** The chunks of at most 64 patches that `patches.chunks(64)` yields. */
  function ChunkCount(total: nat): nat {
    (total + BatchSize - 1) / BatchSize
  }

  /** The number of patches in chunk `b`. */
  function ChunkLen(total: nat, b: nat): (n: nat)
    requires b < ChunkCount(total)
    ensures 1 <= n <= BatchSize
  {
    Min(BatchSize, total - BatchSize * b)
  }

  /** The embedding model's answer for one zero-padded batch of 64 patches:
      64 rows of `dim` values. */
  datatype EmbeddingBatch = EmbeddingBatch(dim: nat, rows: seq<Row>)

  predicate WellShaped(e: EmbeddingBatch) {
    |e.rows| == BatchSize && forall i :: 0 <= i < |e.rows| ==> |e.rows[i]| == e.dim
  }

  /** The model's answers, one per chunk; an `Err` carries the message of
      whichever step failed (the run, the missing output, the extraction). */
  predicate ValidOutputs(total: nat, outputs: seq<Result<EmbeddingBatch>>) {
    && |outputs| == ChunkCount(total)
    && forall b :: 0 <= b < |outputs| && outputs[b].Ok? ==> WellShaped(outputs[b].value)
  }

  predicate AllOk(outputs: seq<Result<EmbeddingBatch>>, n: nat)
    requires n <= |outputs|
  {
    forall b :: 0 <= b < n ==> outputs[b].Ok?
  }

  /** `b` is the first batch whose run failed. */
  predicate FirstFailure(outputs: seq<Result<EmbeddingBatch>>, b: nat) {
    b < |outputs| && outputs[b].Err? && AllOk(outputs, b)
  }

  /** The embedding rows kept from the first `n` batches: in each, the rows
      of the real patches and not those of the padding. */
  function KeptRows(total: nat, outputs: seq<Result<EmbeddingBatch>>, n: nat): (rows: seq<Row>)
    requires ValidOutputs(total, outputs) && n <= |outputs| && AllOk(outputs, n)
    ensures |rows| == Min(BatchSize * n, total)
  {
    if n == 0 then []
    else KeptRows(total, outputs, n - 1) + outputs[n - 1].value.rows[..ChunkLen(total, n - 1)]
  }

  /** The rows one after another. */
  function Flatten(rows: seq<Row>): seq<real> {
    if rows == [] then [] else Flatten(rows[..|rows| - 1]) + rows[|rows| - 1]
  }

  lemma {:induction false} FlattenAppend(a: seq<Row>, b: seq<Row>)
    ensures Flatten(a + b) == Flatten(a) + Flatten(b)
    decreases |b|
  {
    if b != [] {
      var b' := b[..|b| - 1];
      assert (a + b)[..|a + b| - 1] == a + b';
      assert (a + b)[|a + b| - 1] == b[|b| - 1];
      assert Flatten(b) == Flatten(b') + b[|b| - 1];
      FlattenAppend(a, b');
    } else {
      assert a + b == a;
    }
  }

  /** `n` rows of `d` values flatten to `n * d` values. */
  lemma {:induction false} FlattenLength(rows: seq<Row>, d: nat)
    requires forall i :: 0 <= i < |rows| ==> |rows[i]| == d
    ensures |Flatten(rows)| == |rows| * d
  {
    if rows != [] {
      FlattenLength(rows[..|rows| - 1], d);
      assert |rows| * d == (|rows| - 1) * d + d;
    }
  }

  /** Patch `p`'s embedding is row `p % 64` of batch `p / 64`: the kept rows
      are exactly one row per real patch, in patch order. */
  lemma {:induction false} KeptRowsArePatchRows(total: nat, outputs: seq<Result<EmbeddingBatch>>, n: nat)
    requires ValidOutputs(total, outputs) && n <= |outputs| && AllOk(outputs, n)
    ensures forall p :: 0 <= p < |KeptRows(total, outputs, n)| ==>
              KeptRows(total, outputs, n)[p] == outputs[p / BatchSize].value.rows[p % BatchSize]
  {
    if n > 0 {
      KeptRowsArePatchRows(total, outputs, n - 1);
      var prev := KeptRows(total, outputs, n - 1);
      var rows := KeptRows(total, outputs, n);
      assert |prev| == BatchSize * (n - 1);
      forall p | |prev| <= p < |rows|
        ensures rows[p] == outputs[p / BatchSize].value.rows[p % BatchSize]
      {
        assert p / BatchSize == n - 1 && p % BatchSize == p - |prev|;
      }
    }
  }

  /** Every batch's answer has width `d`. */
  predicate CommonWidth(outputs: seq<Result<EmbeddingBatch>>, d: nat) {
    forall b :: 0 <= b < |outputs| && outputs[b].Ok? ==> outputs[b].value.dim == d
  }

  /** With every batch `d` wide, `total * d` values are collected, so the
      width recovered as `total_processed / total_patches` is `d`. */
  lemma CollectedWidth(total: nat, outputs: seq<Result<EmbeddingBatch>>, d: nat)
    requires ValidOutputs(total, outputs) && AllOk(outputs, |outputs|) && CommonWidth(outputs, d)
    requires total > 0
    ensures |Flatten(KeptRows(total, outputs, |outputs|))| == total * d
    ensures |Flatten(KeptRows(total, outputs, |outputs|))| / total == d
  {
    var rows := KeptRows(total, outputs, |outputs|);
    KeptRowsArePatchRows(total, outputs, |outputs|);
    assert |rows| == total;
    forall p | 0 <= p < |rows| ensures |rows[p]| == d {
      var b := p / BatchSize;
      assert b < |outputs|;
    }
    FlattenLength(rows, d);
    DivideProduct(total, d);
  }

  lemma DivideProduct(t: nat, d: nat)
    requires t > 0
    ensures (t * d) / t == d
  {
    var q, r := (t * d) / t, (t * d) % t;
    assert t * d == t * q + r && 0 <= r < t;
    assert t * (d - q) == r;
    MulBounds(t, d - q);
  }

  lemma MulBounds(t: nat, k: int)
    requires t > 0
    ensures k >= 1 ==> t * k >= t
    ensures k <= -1 ==> t * k + t <= 0
  {
    if k >= 1 {
      assert t * k == t * (k - 1) + t;
    } else if k <= -1 {
      assert t * k == t * (k + 1) - t;
    }
  }

  /** The batching loop of `classify`: each chunk of at most 64 patches is
      run as a zero-padded batch of 64, and of its answer only the first
      `chunk.len()` rows are kept; the first failing run ends the loop. */
  method CollectEmbeddings(total: nat, outputs: seq<Result<EmbeddingBatch>>) returns (r: Result<seq<real>>)
    requires ValidOutputs(total, outputs)
    ensures r.Ok? <==> AllOk(outputs, |outputs|)
    ensures r.Ok? ==> r.value == Flatten(KeptRows(total, outputs, |outputs|))
    ensures r.Err? ==> exists b: nat :: FirstFailure(outputs, b) && r.msg == outputs[b].msg
  {
    var all: seq<real> := [];
    for b := 0 to |outputs|
      invariant AllOk(outputs, b)
      invariant all == Flatten(KeptRows(total, outputs, b))
    {
      if outputs[b].Err? {
        assert FirstFailure(outputs, b);
        return Err(outputs[b].msg);
      }
      var batch := outputs[b].value;
      var validCount := ChunkLen(total, b);
      all := AppendValidRows(all, batch, validCount);
      assert AllOk(outputs, b + 1);
      FlattenAppend(KeptRows(total, outputs, b), batch.rows[..validCount]);
    }
    r := Ok(all);
  }

  /** The two inner loops: the first `validCount` rows of a batch's answer,
      value by value. */
  method AppendValidRows(all0: seq<real>, batch: EmbeddingBatch, validCount: nat) returns (all: seq<real>)
    requires WellShaped(batch) && validCount <= BatchSize
    ensures all == all0 + Flatten(batch.rows[..validCount])
  {
    all := all0;
    for i := 0 to validCount
      invariant all == all0 + Flatten(batch.rows[..i])
    {
      ghost var mid := all;
      for j := 0 to batch.dim
        invariant all == mid + batch.rows[i][..j]
      {
        all := all + [batch.rows[i][j]];
      }
      assert batch.rows[i][..batch.dim] == batch.rows[i];
      assert batch.rows[..i + 1][..i] == batch.rows[..i];
    }
  }

  // ---------------------------------------------------------------------------
  // labels and ranking

  /** `GENRE_LABELS.get(i).unwrap_or("unknown")`. */
  function LabelAt(i: nat): string {
    if i < |GenreLabels| then GenreLabels[i] else "unknown"
  }

  /** One result per activation, labelled by its index. */
  function Labelled(probs: seq<real>): (r: seq<GenreResult>)
    ensures |r| == |probs|
  {
    seq(|probs|, i requires 0 <= i < |probs| => GenreResult(LabelAt(i), probs[i]))
  }

  /** The loop that labels the classifier's activations. */
  method LabelResults(probs: seq<real>) returns (results: seq<GenreResult>)
    ensures results == Labelled(probs)
  {
    results := [];
    for i := 0 to |probs|
      invariant |results| == i
      invariant forall k :: 0 <= k < i ==> results[k] == GenreResult(LabelAt(k), probs[k])
    {
      results := results + [GenreResult(LabelAt(i), probs[i])];
    }
  }

  /** Sorting by descending confidence is sorting by ascending negated
      confidence; the sort is stable. */
  function NegConfidence(g: GenreResult): real {
    -g.confidence
  }

  /** The labelled activations, most confident first, cut to `topK`. */
  function TopGenres(probs: seq<real>, topK: nat): seq<GenreResult> {
    SortBy(Labelled(probs), NegConfidence)[..Min(topK, |probs|)]
  }

  /** At most `topK` results, in descending confidence. */
  lemma TopGenresOrdered(probs: seq<real>, topK: nat)
    ensures var r := TopGenres(probs, topK);
            && |r| == Min(topK, |probs|)
            && forall i, j :: 0 <= i < j < |r| ==> r[i].confidence >= r[j].confidence
  {
    var r := TopGenres(probs, topK);
    SortThenTruncate(Labelled(probs), topK, NegConfidence);
    forall i, j | 0 <= i < j < |r| ensures r[i].confidence >= r[j].confidence {
      assert NegConfidence(r[i]) <= NegConfidence(r[j]);
    }
  }

  /** Each result is the label of an activation index with that activation. */
  lemma TopGenresLabelled(probs: seq<real>, topK: nat)
    ensures forall g :: g in TopGenres(probs, topK) ==>
              exists i :: 0 <= i < |probs| && g == GenreResult(LabelAt(i), probs[i])
  {
    var r := TopGenres(probs, topK);
    SortThenTruncate(Labelled(probs), topK, NegConfidence);
    forall g | g in r ensures exists i :: 0 <= i < |probs| && g == GenreResult(LabelAt(i), probs[i]) {
      assert g in multiset(r);
      InLabelled(probs, g);
    }
  }

  lemma InLabelled(probs: seq<real>, g: GenreResult)
    requires g in multiset(Labelled(probs))
    ensures exists i :: 0 <= i < |probs| && g == GenreResult(LabelAt(i), probs[i])
  {
    var all := Labelled(probs);
    var i :| 0 <= i < |all| && all[i] == g;
    assert all[i] == GenreResult(LabelAt(i), probs[i]);
  }

  /** No activation left out is more confident than one kept. */
  lemma TopGenresMostConfident(probs: seq<real>, topK: nat)
    ensures var r := TopGenres(probs, topK);
            forall x, y :: x in multiset(Labelled(probs)) - multiset(r) && y in r ==>
              x.confidence <= y.confidence
  {
    var all := Labelled(probs);
    var r := TopGenres(probs, topK);
    SortThenTruncate(all, topK, NegConfidence);
    forall x: GenreResult, y: GenreResult | x in multiset(all) - multiset(r) && y in r ensures x.confidence <= y.confidence {
      assert NegConfidence(y) <= NegConfidence(x);
    }
  }

  /** `to_metadata_format`: each result as a (label, confidence) pair. */
  function ToMetadataFormat(results: seq<GenreResult>): (r: seq<(string, real)>)
    ensures |r| == |results|
    ensures forall i :: 0 <= i < |r| ==> r[i] == (results[i].genre, results[i].confidence)
  {
    if results == [] then []
    else
      var init := results[..|results| - 1];
      var last := results[|results| - 1];
      ToMetadataFormat(init) + [(last.genre, last.confidence)]
  }

  // ---------------------------------------------------------------------------
  // classify

  /** `classify` once the models are loaded, for `sampleCount` resampled
      samples whose mel spectrogram is `mel`. The embedding answers, the
      classifier's activations (after averaging and L2 normalisation, which
      are not modelled) and their failures are inputs. */
  method Classify(sampleCount: nat, mel: seq<Row>, outputs: seq<Result<EmbeddingBatch>>,
                  activations: Result<seq<real>>, topK: nat)
    returns (r: Result<seq<GenreResult>>)
    requires |mel| == FrameCount(sampleCount)
    requires ValidOutputs(PatchCount(|mel|), outputs)
    ensures |mel| < PatchFrames ==> r == Ok([])
    ensures r.Err? <==>
              && |mel| >= PatchFrames
              && (!AllOk(outputs, |outputs|)
                  || (|Flatten(KeptRows(PatchCount(|mel|), outputs, |outputs|))| > 0 && activations.Err?))
    ensures r.Ok? && |mel| >= PatchFrames ==>
              && AllOk(outputs, |outputs|)
              && var collected := Flatten(KeptRows(PatchCount(|mel|), outputs, |outputs|));
                 && (|collected| == 0 ==> r.value == [])
                 && (|collected| > 0 ==> activations.Ok? && r.value == TopGenres(activations.value, topK))
  {
    if |mel| < PatchFrames {
      return Ok([]);
    }
    var patches := CreatePatches(mel);
    PatchCountMaximal(|mel|);
    var totalPatches := |patches|;
    var embeddings := CollectEmbeddings(totalPatches, outputs);
    if embeddings.Err? {
      return Err(embeddings.msg);
    }
    if |embeddings.value| == 0 {
      return Ok([]);
    }
    if activations.Err? {
      return Err(activations.msg);
    }
    var local := LabelResults(activations.value);
    local := SortBy(local, NegConfidence);
    r := Ok(local[..Min(topK, |local|)]);
  }
}
