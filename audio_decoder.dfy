/** The integer branches of `convert_to_i16` (audio_decoder.rs): a decoded
    buffer holds one plane of samples per channel; the conversion appends
    them to the output interleaved frame by frame, each sample mapped to a
    signed 16-bit value. Samples are unbounded integers here, kept within
    their format's range by `ValidBuffer`; Rust's truncating `as i16` is
    written out as `AsI16`. */
module AudioDecoder {

  /** The integer sample formats of a decoded buffer. 24-bit samples are
      held by their 32-bit `inner()` value. */
  datatype SampleFormat = U8 | U16 | U24 | U32 | S8 | S16 | S24 | S32

  const I16Min: int := -32768
  const I16Max: int := 32767

  predicate InI16(x: int) {
    I16Min <= x <= I16Max
  }

  /** The values a sample of the format can hold. */
  predicate InFormatRange(fmt: SampleFormat, v: int) {
    match fmt
    case U8 => 0 <= v < 0x100
    case U16 => 0 <= v < 0x1_0000
    case U24 => 0 <= v < 0x100_0000
    case U32 => 0 <= v < 0x1_0000_0000
    case S8 => -0x80 <= v < 0x80
    case S16 => -0x8000 <= v < 0x8000
    case S24 => -0x80_0000 <= v < 0x80_0000
    case S32 => -0x8000_0000 <= v < 0x8000_0000
  }

  /** A buffer of `frames` frames: `planes[c][f]` is channel `c` at frame `f`. */
  datatype AudioBuffer = AudioBuffer(format: SampleFormat, frames: nat, planes: seq<seq<int>>)

  predicate ValidBuffer(b: AudioBuffer) {
    forall c :: 0 <= c < |b.planes| ==>
      && |b.planes[c]| == b.frames
      && forall f :: 0 <= f < b.frames ==> InFormatRange(b.format, b.planes[c][f])
  }

  /** Rust's `as i16`: keeps the low 16 bits, read as two's complement. */
  function AsI16(x: int): (r: int)
    ensures InI16(r)
    ensures (r - x) % 0x1_0000 == 0
  {
    (x + 0x8000) % 0x1_0000 - 0x8000
  }

  /** The cast changes nothing for a value that already fits. */
  lemma AsI16Exact(x: int)
    requires InI16(x)
    ensures AsI16(x) == x
  {
    assert 0 <= x + 0x8000 < 0x1_0000;
  }

  /** One sample to i16, per format. Right shifts are arithmetic, that is
      floor division by a power of two, which is what Dafny's `/` by a
      positive divisor computes. The U8 and S8 arithmetic happens in i16
      itself. */
  function ToI16(fmt: SampleFormat, v: int): int {
    match fmt
    case U8 => (v - 128) * 256
    case S8 => v * 256
    case U16 => AsI16(v - 32768)
    case U24 => AsI16(v / 0x100 - 32768)
    case U32 => AsI16(v / 0x1_0000 - 32768)
    case S16 => v
    case S24 => AsI16(v / 0x100)
    case S32 => AsI16(v / 0x1_0000)
  }

  /** No conversion overflows i16: every cast is exact and the U8 and S8
      products stay within [-32768, 32512]. */
  lemma ConvertExact(fmt: SampleFormat, v: int)
    requires InFormatRange(fmt, v)
    ensures InI16(ToI16(fmt, v))
    ensures fmt == U8 ==> ToI16(fmt, v) == (v - 128) * 256 && -32768 <= ToI16(fmt, v) <= 32512
    ensures fmt == S8 ==> ToI16(fmt, v) == v * 256 && -32768 <= ToI16(fmt, v) <= 32512
    ensures fmt == U16 ==> ToI16(fmt, v) == v - 32768
    ensures fmt == U24 ==> ToI16(fmt, v) == v / 0x100 - 32768
    ensures fmt == U32 ==> ToI16(fmt, v) == v / 0x1_0000 - 32768
    ensures fmt == S16 ==> ToI16(fmt, v) == v
    ensures fmt == S24 ==> ToI16(fmt, v) == v / 0x100
    ensures fmt == S32 ==> ToI16(fmt, v) == v / 0x1_0000
  {
    match fmt
    case U8 =>
    case S8 =>
    case U16 => AsI16Exact(v - 32768);
    case U24 => AsI16Exact(v / 0x100 - 32768);
    case U32 => AsI16Exact(v / 0x1_0000 - 32768);
    case S16 =>
    case S24 => AsI16Exact(v / 0x100);
    case S32 => AsI16Exact(v / 0x1_0000);
  }

  // ---------------------------------------------------------------------------
  // interleaving

  /** The converted samples of frame `f`, channel by channel. */
  function FrameSamples(b: AudioBuffer, f: nat): (r: seq<int>)
    requires ValidBuffer(b) && f < b.frames
    ensures |r| == |b.planes|
  {
    seq(|b.planes|, c requires 0 <= c < |b.planes| => ToI16(b.format, b.planes[c][f]))
  }

  /** The converted samples of the first `n` frames, interleaved. */
  function Frames(b: AudioBuffer, n: nat): (r: seq<int>)
    requires ValidBuffer(b) && n <= b.frames
    ensures |r| == n * |b.planes|
  {
    if n == 0 then []
    else Frames(b, n - 1) + FrameSamples(b, n - 1)
  }

  /** Everything `convert_to_i16` appends for the buffer. */
  function Interleaved(b: AudioBuffer): seq<int>
    requires ValidBuffer(b)
  {
    Frames(b, b.frames)
  }

  lemma MulStep(f: nat, n: nat, c: nat)
    requires f < n
    ensures f * c + c <= n * c
  {
    assert (n - f) * c >= c by {
      assert n - f >= 1;
    }
    assert n * c == f * c + (n - f) * c;
  }

  /** Sample `f * C + c` of the first `n` frames is channel `c` at frame `f`. */
  lemma {:induction false} FramesAt(b: AudioBuffer, n: nat, f: nat, c: nat)
    requires ValidBuffer(b) && n <= b.frames && f < n && c < |b.planes|
    ensures f * |b.planes| + c < |Frames(b, n)|
    ensures Frames(b, n)[f * |b.planes| + c] == ToI16(b.format, b.planes[c][f])
  {
    var C := |b.planes|;
    MulStep(f, n, C);
    var prev := Frames(b, n - 1);
    if f == n - 1 {
      assert |prev| == f * C;
      assert Frames(b, n)[f * C + c] == FrameSamples(b, f)[c];
    } else {
      FramesAt(b, n - 1, f, c);
      assert Frames(b, n)[f * C + c] == prev[f * C + c];
    }
  }

  /** For `C` channels, exactly `frames * C` samples are appended, and the
      sample at `f * C + c` comes from plane `c`, frame `f`, converted; every
      one of them fits in i16. */
  lemma InterleavedLayout(b: AudioBuffer)
    requires ValidBuffer(b)
    ensures |Interleaved(b)| == b.frames * |b.planes|
    ensures forall f, c :: 0 <= f < b.frames && 0 <= c < |b.planes| ==>
              f * |b.planes| + c < |Interleaved(b)|
              && Interleaved(b)[f * |b.planes| + c] == ToI16(b.format, b.planes[c][f])
    ensures forall k :: 0 <= k < |Interleaved(b)| ==> InI16(Interleaved(b)[k])
  {
    forall f, c | 0 <= f < b.frames && 0 <= c < |b.planes|
      ensures f * |b.planes| + c < |Interleaved(b)|
              && Interleaved(b)[f * |b.planes| + c] == ToI16(b.format, b.planes[c][f])
    {
      FramesAt(b, b.frames, f, c);
    }
    AllInI16(b, b.frames);
  }

  lemma {:induction false} AllInI16(b: AudioBuffer, n: nat)
    requires ValidBuffer(b) && n <= b.frames
    ensures forall k :: 0 <= k < |Frames(b, n)| ==> InI16(Frames(b, n)[k])
  {
    if n > 0 {
      AllInI16(b, n - 1);
      var last := FrameSamples(b, n - 1);
      forall c | 0 <= c < |last| ensures InI16(last[c]) {
        ConvertExact(b.format, b.planes[c][n - 1]);
      }
    }
  }

  /** A mono S16 buffer is its own plane: the copy and the interleaving agree. */
  lemma {:induction false} MonoS16Plane(b: AudioBuffer, n: nat)
    requires ValidBuffer(b) && b.format == S16 && |b.planes| == 1 && n <= b.frames
    ensures Frames(b, n) == b.planes[0][..n]
  {
    if n > 0 {
      MonoS16Plane(b, n - 1);
      assert FrameSamples(b, n - 1) == [b.planes[0][n - 1]];
      assert b.planes[0][..n] == b.planes[0][..n - 1] + [b.planes[0][n - 1]];
    }
  }

  /** `convert_to_i16` on an integer buffer: `output` only grows, by the
      interleaved converted samples. */
  method ConvertToI16(b: AudioBuffer, output: seq<int>) returns (result: seq<int>)
    requires ValidBuffer(b)
    ensures result == output + Interleaved(b)
  {
    var channels := |b.planes|;
    if b.format == S16 && channels == 1 {
      MonoS16Plane(b, b.frames);
      assert b.planes[0][..b.frames] == b.planes[0];
      return output + b.planes[0];
    }
    result := output;
    for frame := 0 to b.frames
      invariant result == output + Frames(b, frame)
    {
      ghost var before := result;
      for ch := 0 to channels
        invariant result == before + FrameSamples(b, frame)[..ch]
      {
        assert FrameSamples(b, frame)[..ch + 1] == FrameSamples(b, frame)[..ch] + [FrameSamples(b, frame)[ch]];
        result := result + [ToI16(b.format, b.planes[ch][frame])];
      }
      assert FrameSamples(b, frame)[..channels] == FrameSamples(b, frame);
    }
  }
}
