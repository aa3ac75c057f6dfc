/** The mixer's fade-out ramp over interleaved stereo samples, in the 16- and 32-bit arithmetic of the mixer. */
module FadeOut {
  import opened Machine

  const CHANNELS: nat := 2
  const SAMPLE_RATE: nat := 44100
  const BACKGROUND_FADE_MS: nat := 2500

  /** No ramp is longer: frame counts are 32-bit sample counts divided by 1000. */
  const MAX_FRAMES: nat := 4294967

  datatype Fade = Fade(remaining: u32, total: u32, muted: bool)

  predicate Valid(f: Fade) {
    f.remaining <= f.total <= MAX_FRAMES
  }

  /** A sample with `remaining` of `total` frames to go: a 32-bit product, divided and stored in 16 bits. */
  function Scale(x: int, remaining: u32, total: u32): int
    requires total > 0
  {
    Wrap16(Quotient(Wrap32(x * Wrap32(remaining)), Wrap32(total)))
  }

  /** The same in exact integers. */
  function Exact(x: int, remaining: nat, total: nat): int
    requires total > 0
  {
    Quotient(x * remaining, total)
  }

  predicate Ramping(f: Fade) {
    !f.muted && f.remaining != 0 && f.total != 0
  }

  /** What becomes of a sample of the frame `frame` of the chunk. */
  function Faded(f: Fade, frame: nat, x: int): int {
    if f.muted then 0
    else if !Ramping(f) then x
    else if frame < f.remaining then Scale(x, f.remaining - frame, f.total)
    else 0
  }

  function FadeChunk(f: Fade, pcm: seq<int>): (out: seq<int>)
    ensures |out| == |pcm| && forall i :: 0 <= i < |pcm| ==> out[i] == Faded(f, i / CHANNELS, pcm[i])
  {
    seq(|pcm|, i requires 0 <= i < |pcm| => Faded(f, i / CHANNELS, pcm[i]))
  }

  /** The ramp after a chunk of `frames` frames. */
  function After(f: Fade, frames: nat): (f': Fade)
    ensures Valid(f) ==> Valid(f')
  {
    if !Ramping(f) then f
    else if frames >= f.remaining then Fade(0, f.total, true)
    else f.(remaining := f.remaining - frames)
  }

  /** Frames of a fade of `ms` milliseconds, computed in 32 bits. */
  function FadeFrames(ms: nat): (n: nat)
    ensures 0 < n <= MAX_FRAMES
  {
    var n := ((SAMPLE_RATE * ms) % 0x1_0000_0000) / 1000;
    if n == 0 then 1 else n
  }

  // ---------------------------------------------------------------- chunks

  predicate Aligned(pcm: seq<int>) {
    |pcm| % CHANNELS == 0
  }

  lemma FadedLater(f: Fade, n: nat, frame: nat, x: int)
    ensures Faded(After(f, n), frame, x) == Faded(f, n + frame, x)
  {
  }

  lemma AfterBoth(f: Fade, m: nat, n: nat)
    ensures After(After(f, m), n) == After(f, m + n)
  {
  }

  function Fading(f: Fade): (nat, int) -> int {
    (frame: nat, x: int) => Faded(f, frame, x)
  }

  /** Each sample of `out` is what `g` makes of the sample in its frame. */
  predicate Shaped(g: (nat, int) -> int, pcm: seq<int>, out: seq<int>) {
    |out| == |pcm| && forall i :: 0 <= i < |pcm| ==> out[i] == g(i / CHANNELS, pcm[i])
  }

  lemma ChunkIsShaped(f: Fade, pcm: seq<int>)
    ensures Shaped(Fading(f), pcm, FadeChunk(f, pcm))
  {
  }

  lemma ShapedAt(g: (nat, int) -> int, pcm: seq<int>, out: seq<int>, i: nat, frame: nat, x: int)
    requires Shaped(g, pcm, out) && i < |pcm| && frame == i / CHANNELS && pcm[i] == x
    ensures out[i] == g(frame, x)
  {
  }

  /** What is shaped whole is shaped in two parts, the second counted from its own start. */
  lemma ShapedParts(g: (nat, int) -> int, h: (nat, int) -> int, n: nat, a: seq<int>, b: seq<int>, pcm: seq<int>,
                    first: seq<int>, second: seq<int>, whole: seq<int>)
    requires |a| == CHANNELS * n && pcm == a + b
    requires Shaped(g, a, first) && Shaped(h, b, second) && Shaped(g, pcm, whole)
    requires forall frame: nat, x: int :: h(frame, x) == g(n + frame, x)
    ensures whole == first + second
  {
    forall i | 0 <= i < |a| ensures whole[i] == first[i] {
      ShapedAt(g, a, first, i, i / CHANNELS, a[i]);
      ShapedAt(g, pcm, whole, i, i / CHANNELS, a[i]);
    }
    forall k | 0 <= k < |b| ensures whole[|a| + k] == second[k] {
      ShapedAt(h, b, second, k, k / CHANNELS, b[k]);
      ShapedAt(g, pcm, whole, |a| + k, n + k / CHANNELS, b[k]);
    }
    JoinedAre(first, second, whole);
  }

  lemma JoinedAre(first: seq<int>, second: seq<int>, whole: seq<int>)
    requires |whole| == |first| + |second|
    requires forall i :: 0 <= i < |first| ==> whole[i] == first[i]
    requires forall k :: 0 <= k < |second| ==> whole[|first| + k] == second[k]
    ensures whole == first + second
  {
    forall i | 0 <= i < |whole| ensures whole[i] == (first + second)[i] {
      if i >= |first| { assert whole[|first| + (i - |first|)] == second[i - |first|]; }
    }
  }

  /** Fading two chunks in turn is fading them as one. */
  lemma TwoChunks(f: Fade, a: seq<int>, b: seq<int>, n: nat)
    requires |a| == CHANNELS * n
    ensures FadeChunk(f, a + b) == FadeChunk(f, a) + FadeChunk(After(f, n), b)
  {
    ChunkIsShaped(f, a);
    ChunkIsShaped(After(f, n), b);
    ChunkIsShaped(f, a + b);
    FadingLater(f, n);
    ShapedParts(Fading(f), Fading(After(f, n)), n, a, b, a + b,
                FadeChunk(f, a), FadeChunk(After(f, n), b), FadeChunk(f, a + b));
  }

  lemma FadingLater(f: Fade, n: nat)
    ensures forall frame: nat, x: int :: Fading(After(f, n))(frame, x) == Fading(f)(n + frame, x)
  {
    forall frame: nat, x: int ensures Fading(After(f, n))(frame, x) == Fading(f)(n + frame, x) {
      FadedLater(f, n, frame, x);
    }
  }

  function Concat(chunks: seq<seq<int>>): seq<int> {
    if chunks == [] then [] else chunks[0] + Concat(chunks[1..])
  }

  function FadeChunks(f: Fade, chunks: seq<seq<int>>): seq<int>
    decreases |chunks|
  {
    if chunks == [] then []
    else FadeChunk(f, chunks[0]) + FadeChunks(After(f, |chunks[0]| / CHANNELS), chunks[1..])
  }

  function AfterChunks(f: Fade, chunks: seq<seq<int>>): Fade
    decreases |chunks|
  {
    if chunks == [] then f else AfterChunks(After(f, |chunks[0]| / CHANNELS), chunks[1..])
  }

  /** However a stream is cut at frame boundaries, the samples and the ramp come out the same. */
  lemma {:induction false} AnyChunking(f: Fade, chunks: seq<seq<int>>)
    requires forall i :: 0 <= i < |chunks| ==> Aligned(chunks[i])
    ensures FadeChunks(f, chunks) == FadeChunk(f, Concat(chunks))
    ensures AfterChunks(f, chunks) == After(f, |Concat(chunks)| / CHANNELS)
    decreases |chunks|
  {
    if chunks != [] {
      var a, rest := chunks[0], Concat(chunks[1..]);
      var n := |a| / CHANNELS;
      AnyChunking(After(f, n), chunks[1..]);
      TwoChunks(f, a, rest, n);
      AfterBoth(f, n, |rest| / CHANNELS);
      assert |a + rest| / CHANNELS == n + |rest| / CHANNELS;
    }
  }

  // ---------------------------------------------------------------- amplitude

  /** Even where the product wraps, a sample never comes out larger than it went in. */
  lemma ScaleWithin(x: int, r: u32, total: u32)
    requires r <= total && 0 < total <= MAX_FRAMES
    ensures Abs(Scale(x, r, total)) <= Abs(x)
  {
    var p := Wrap32(x * r);
    WrapsAreSmaller(x * r);
    AbsProduct(x, r);
    MulMono(Abs(x), r, total);
    DivWithin(Abs(p), total, Abs(x));
    AbsQuotient(p, total);
    WrapsAreSmaller(Quotient(p, total));
  }

  /** A fade never raises a sample's magnitude, however long it is, and is silent after the ramp. */
  lemma NeverLouder(f: Fade, pcm: seq<int>, i: nat)
    requires Valid(f) && i < |pcm|
    ensures Abs(FadeChunk(f, pcm)[i]) <= Abs(pcm[i])
    ensures (f.muted || Ramping(f)) && i / CHANNELS >= f.remaining ==> FadeChunk(f, pcm)[i] == 0
  {
    var frame := i / CHANNELS;
    if Ramping(f) && frame < f.remaining {
      ScaleWithin(pcm[i], f.remaining - frame, f.total);
    }
  }

  // ---------------------------------------------------------------- the 32-bit product

  /** The products of a ramp of `total` frames fit 32 bits. */
  lemma ProductFits(x: int, r: nat, total: nat)
    requires Fits16(x) && r <= total <= 65536
    ensures Fits32(x * r)
  {
    AbsProduct(x, r);
    MulMono(Abs(x), r, 65536);
    MulMono(65536, Abs(x), 32768);
    if x > 0 {
      MulMono(65536, Abs(x), 32767);
    }
  }

  /** Where the product fits, the mixer computes the exact quotient. */
  lemma ScaleIsExact(x: int, r: u32, total: u32)
    requires Fits16(x) && r <= total && 0 < total <= MAX_FRAMES && Fits32(x * r)
    ensures Scale(x, r, total) == Exact(x, r, total)
  {
    var p := x * r;
    AbsProduct(x, r);
    MulMono(Abs(x), r, total);
    DivWithin(Abs(p), total, Abs(x));
    AbsQuotient(p, total);
  }

  lemma ExactKeepsSign(x: int, r: nat, total: nat)
    requires total > 0
    ensures x >= 0 ==> Exact(x, r, total) >= 0
    ensures x <= 0 ==> Exact(x, r, total) <= 0
  {
    AbsProduct(x, r);
    AbsQuotient(x * r, total);
  }

  /** One frame past the bound the most negative sample comes out positive. */
  lemma PastTheBound(total: u32)
    requires 65536 < total <= MAX_FRAMES
    ensures Scale(-32768, 65537, total) > 0 > Exact(-32768, 65537, total)
  {
    assert Wrap32(-32768 * 65537) == 2147450880;
    assert 2147450880 / total <= 32767 by {
      if total > 65537 {
        MulMono(32767, 65538, total);
        DivWithin(2147450880, total, 32767);
      }
    }
    assert 2147450880 / total >= 1 by {
      DivMono(MAX_FRAMES, 2147450880, total);
      DivMono(total, MAX_FRAMES, total);
      DivIs(total, total, 1);
    }
    assert 2147516416 / total >= 1 by {
      DivMono(2147450880, 2147516416, total);
    }
    assert Exact(-32768, 65537, total) == -(2147516416 / total);
  }

  ghost predicate KeepsSign(total: u32)
    requires total > 0
  {
    forall x: int, r: u32 {:trigger Scale(x, r, total)} :: Fits16(x) && r <= total ==>
      (x >= 0 ==> Scale(x, r, total) >= 0) && (x <= 0 ==> Scale(x, r, total) <= 0)
  }

  ghost predicate AlwaysExact(total: u32)
    requires total > 0
  {
    forall x: int, r: u32 {:trigger Scale(x, r, total)} :: Fits16(x) && r <= total ==>
      Scale(x, r, total) == Exact(x, r, total)
  }

  /** No 16-bit sample changes sign along a ramp if and only if it has at most 65,536 frames. */
  lemma WhenSignIsKept(total: u32)
    requires 0 < total <= MAX_FRAMES
    ensures KeepsSign(total) <==> total <= 65536
  {
    if total <= 65536 {
      forall x: int, r: u32 | Fits16(x) && r <= total
        ensures (x >= 0 ==> Scale(x, r, total) >= 0) && (x <= 0 ==> Scale(x, r, total) <= 0)
      {
        ProductFits(x, r, total);
        ScaleIsExact(x, r, total);
        ExactKeepsSign(x, r, total);
      }
    } else {
      PastTheBound(total);
    }
  }

  /** The mixer's samples are the exact ones if and only if the ramp has at most 65,536 frames. */
  lemma WhenExact(total: u32)
    requires 0 < total <= MAX_FRAMES
    ensures AlwaysExact(total) <==> total <= 65536
  {
    if total <= 65536 {
      forall x: int, r: u32 | Fits16(x) && r <= total ensures Scale(x, r, total) == Exact(x, r, total) {
        ProductFits(x, r, total);
        ScaleIsExact(x, r, total);
      }
    } else {
      PastTheBound(total);
    }
  }

  /** Nearer the end of the ramp a sample is never louder. */
  ghost predicate Falls(total: u32)
    requires total > 0
  {
    forall x: int, a: u32, b: u32 {:trigger Scale(x, a, total), Scale(x, b, total)} ::
      Fits16(x) && a <= b <= total ==> Abs(Scale(x, a, total)) <= Abs(Scale(x, b, total))
  }

  lemma FallsWhereExact(x: int, a: u32, b: u32, total: u32)
    requires Fits16(x) && a <= b <= total && 0 < total <= MAX_FRAMES && Fits32(x * a) && Fits32(x * b)
    ensures Abs(Scale(x, a, total)) <= Abs(Scale(x, b, total))
  {
    ScaleIsExact(x, a, total);
    ScaleIsExact(x, b, total);
    ExactMono(x, a, b, total);
  }

  /** At 65,537 frames only one product wraps, and its size happens to be the exact one. */
  lemma FallsAtTheBound(x: int, a: u32, b: u32)
    requires Fits16(x) && a <= b <= 65537
    ensures Abs(Scale(x, a, 65537)) <= Abs(Scale(x, b, 65537))
  {
    if b <= 65536 {
      ProductFits(x, a, 65536);
      ProductFits(x, b, 65536);
      FallsWhereExact(x, a, b, 65537);
    } else if x != -32768 {
      SmallProductFits(x, a);
      SmallProductFits(x, b);
      FallsWhereExact(x, a, b, 65537);
    } else if a < b {
      assert Wrap32(-32768 * 65537) == 2147450880 && 2147450880 / 65537 == 32767;
      ProductFits(x, a, 65536);
      ScaleIsExact(x, a, 65537);
      ExactMono(x, a, 65536, 65537);
      assert Exact(-32768, 65536, 65537) == -32767;
    }
  }

  lemma SmallProductFits(x: int, r: nat)
    requires -32767 <= x <= 32767 && r <= 65537
    ensures Fits32(x * r)
  {
    AbsProduct(x, r);
    MulMono(Abs(x), r, 65537);
    MulMono(65537, Abs(x), 32767);
  }

  /** The most negative sample `j` frames past the wrap. */
  lemma WrappedSample(total: u32, j: nat)
    requires 65537 < total <= MAX_FRAMES && 0 < j <= 200 && 65536 + j <= total
    ensures Abs(Scale(-32768, 65536 + j, total)) == (0x8000_0000 - 32768 * j) / total
  {
    var r: u32, p: nat := 65536 + j, 0x8000_0000 - 32768 * j;
    assert -32768 * r == -0x8000_0000 - 32768 * j;
    assert Wrap32(-32768 * r) == p;
    MulMono(32767, 65538, total);
    DivWithin(p, total, 32767);
    AbsQuotient(p, total);
  }

  /** The most negative sample just before it. */
  lemma LastExactSample(total: u32)
    requires 65537 < total <= MAX_FRAMES
    ensures Abs(Scale(-32768, 65536, total)) == 0x8000_0000 / total
  {
    ScaleIsExact(-32768, 65536, total);
    AbsQuotient(-0x8000_0000, total);
  }

  /** Past that, a frame after the wrap is louder than one before it. */
  lemma RisesPastTheBound(total: u32)
    requires 65537 < total <= MAX_FRAMES
    ensures !Falls(total)
  {
    var j := if total == 65538 then 2 else total / 32768 + 1;
    WrappedSample(total, j);
    LastExactSample(total);
    if total > 65538 {
      DivDrops(0x8000_0000, 32768 * j, total);
    } else {
      assert 0x8000_0000 / 65538 == 32767 && (0x8000_0000 - 65536) / 65538 == 32766;
    }
    assert Abs(Scale(-32768, 65536, total)) > Abs(Scale(-32768, 65536 + j, total));
  }

  lemma DivDrops(a: nat, d: nat, b: nat)
    requires 0 < b <= d <= a
    ensures (a - d) / b < a / b
  {
    var q := (a - d) / b;
    assert q * b <= a - d;
    if a / b <= q {
      MulMono(b, a / b, q);
    }
  }

  /** A steady tone only gets softer along a ramp if and only if it has at most 65,537 frames. */
  lemma WhenRampFalls(total: u32)
    requires 0 < total <= MAX_FRAMES
    ensures Falls(total) <==> total <= 65537
  {
    if total <= 65537 {
      forall x: int, a: u32, b: u32 | Fits16(x) && a <= b <= total
        ensures Abs(Scale(x, a, total)) <= Abs(Scale(x, b, total))
      {
        if total == 65537 {
          FallsAtTheBound(x, a, b);
        } else {
          ProductFits(x, a, total);
          ProductFits(x, b, total);
          FallsWhereExact(x, a, b, total);
        }
      }
    } else {
      RisesPastTheBound(total);
    }
  }

  /** So on such a ramp later frames of a chunk are never louder. */
  lemma RampFalls(f: Fade, x: int, m: nat, n: nat)
    requires Valid(f) && Ramping(f) && f.total <= 65537 && Fits16(x) && m <= n
    ensures Abs(Faded(f, n, x)) <= Abs(Faded(f, m, x))
  {
    WhenRampFalls(f.total);
  }

  lemma ExactMono(x: int, a: nat, b: nat, total: nat)
    requires a <= b && total > 0
    ensures Abs(Exact(x, a, total)) <= Abs(Exact(x, b, total))
  {
    AbsProduct(x, a);
    AbsProduct(x, b);
    AbsQuotient(x * a, total);
    AbsQuotient(x * b, total);
    MulMono(Abs(x), a, b);
    DivMono(Abs(x * a), Abs(x * b), total);
  }

  /**
   The fade of background music is past the bound: its loudest positive sample comes out
   negative at the first frame, and three times as loud again some 45,000 frames later.
   */
  lemma BackgroundFadeBreaks()
    ensures FadeFrames(BACKGROUND_FADE_MS) == 110250
    ensures var f := Fade(110250, 110250, false);
      Faded(f, 0, 32767) == -6189 && Faded(f, 110250 - 65537, 32767) == 19478
  {
    assert Wrap32(32767 * 110250) == -682405546;
    assert 682405546 / 110250 == 6189;
    assert 32767 * 65537 == 2147450879 && 2147450879 / 110250 == 19478;
  }

  /**
   Which durations are safe: a ramp keeps signs, and is exact, if and only if its sample count, as the
   32-bit code has it, is below 65,537,000. Up to 97,391 ms the count is the true one, and these are
   the durations up to 1486 ms; from 97,392 ms on, where the ramp has 19 frames, the count wraps.
   */
  lemma SafeDurations(ms: nat)
    ensures KeepsSign(FadeFrames(ms)) <==> (SAMPLE_RATE * ms) % 0x1_0000_0000 < 65_537_000
    ensures AlwaysExact(FadeFrames(ms)) <==> (SAMPLE_RATE * ms) % 0x1_0000_0000 < 65_537_000
    ensures ms <= 97_391 ==> (AlwaysExact(FadeFrames(ms)) <==> ms <= 1486)
  {
    var n := FadeFrames(ms);
    FramesWithin(ms, n);
    SafeFrames(n);
  }

  lemma SafeFrames(total: u32)
    requires 0 < total <= MAX_FRAMES
    ensures KeepsSign(total) <==> total <= 65536
    ensures AlwaysExact(total) <==> total <= 65536
  {
    WhenSignIsKept(total);
    WhenExact(total);
  }

  lemma FramesWithin(ms: nat, n: nat)
    requires n == FadeFrames(ms)
    ensures n <= 65536 <==> (SAMPLE_RATE * ms) % 0x1_0000_0000 < 65_537_000
    ensures ms <= 97_391 ==> (n <= 65536 <==> ms <= 1486)
    ensures ms == 97_392 ==> n == 19
  {
  }

  // ---------------------------------------------------------------- the code

  class Channel {
    var remaining: u32
    var total: u32
    var muted: bool

    ghost function View(): Fade
      reads this
    {
      Fade(remaining, total, muted)
    }

    constructor ()
      ensures View() == Fade(0, 0, false)
    {
      remaining, total, muted := 0, 0, false;
    }

    /** The ramp's part of `audio_player_mixer_stop_stream`. */
    method StopStream(locked: bool)
      modifies this
      ensures View() == if locked then Fade(0, 0, false) else old(View())
    {
      if locked {
        total, remaining, muted := 0, 0, false;
      }
    }

    /**
     `audio_player_mixer_fade_out_stream`: a duration of zero or less stops the stream. `locked` is the
     outcome of taking the mixer's lock, `sounding` says whether the channel plays or has data left.
     */
    method StartFade(ms: int, locked: bool, sounding: bool)
      modifies this
      ensures View() ==
        if !locked then old(View())
        else if ms <= 0 then Fade(0, 0, false)
        else if sounding then Fade(FadeFrames(ms), FadeFrames(ms), false)
        else old(View())
      ensures Valid(old(View())) ==> Valid(View())
    {
      if ms <= 0 {
        StopStream(locked);
        return;
      }
      var frames := ((SAMPLE_RATE * ms) % 0x1_0000_0000) / 1000;
      if frames == 0 {
        frames := 1;
      }
      if locked && sounding {
        total, remaining, muted := frames, frames, false;
      }
    }

    /** `apply_fade_out` on a frame-aligned chunk. */
    method ApplyFadeOut(pcm: array<int>)
      requires pcm.Length % CHANNELS == 0
      modifies this, pcm
      ensures pcm[..] == FadeChunk(old(View()), old(pcm[..]))
      ensures View() == After(old(View()), pcm.Length / CHANNELS)
    {
      ghost var f, was := View(), pcm[..];
      var frames := pcm.Length / CHANNELS;
      if pcm.Length == 0 {
        return;
      }
      if muted {
        Silence(pcm, 0);
        return;
      }
      var left: u32 := remaining;
      if left == 0 || total == 0 {
        return;
      }
      var frame: nat := 0;
      while frame < frames && left > 0
        invariant frame <= frames && frame + left == f.remaining && View() == f
        invariant forall i :: 0 <= i < frame * CHANNELS ==> pcm[i] == Faded(f, i / CHANNELS, was[i])
        invariant forall i :: frame * CHANNELS <= i < pcm.Length ==> pcm[i] == was[i]
      {
        FadeFrame(pcm, frame, left, total);
        left := left - 1;
        frame := frame + 1;
      }
      remaining := left;
      if left == 0 {
        muted := true;
        if frame < frames {
          Silence(pcm, frame * CHANNELS);
        }
      }
    }
  }

  /** The inner loop: both samples of one frame. */
  method FadeFrame(pcm: array<int>, frame: nat, left: u32, total: u32)
    requires total > 0 && (frame + 1) * CHANNELS <= pcm.Length
    modifies pcm
    ensures forall i :: 0 <= i < pcm.Length ==>
      pcm[i] == if frame * CHANNELS <= i < (frame + 1) * CHANNELS then Scale(old(pcm[i]), left, total) else old(pcm[i])
  {
    var ch := 0;
    while ch < CHANNELS
      invariant 0 <= ch <= CHANNELS
      invariant forall i :: 0 <= i < pcm.Length ==>
        pcm[i] == if frame * CHANNELS <= i < frame * CHANNELS + ch then Scale(old(pcm[i]), left, total) else old(pcm[i])
    {
      pcm[frame * CHANNELS + ch] := Scale(pcm[frame * CHANNELS + ch], left, total);
      ch := ch + 1;
    }
  }

  method Silence(pcm: array<int>, from: nat)
    requires from <= pcm.Length
    modifies pcm
    ensures forall i :: from <= i < pcm.Length ==> pcm[i] == 0
    ensures forall i :: 0 <= i < from ==> pcm[i] == old(pcm[i])
  {
    forall i | from <= i < pcm.Length {
      pcm[i] := 0;
    }
  }
}
