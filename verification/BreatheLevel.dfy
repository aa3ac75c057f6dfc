/** The level of a breathing output within a fade: exact, and as the 32-bit code computes it. */
module BreatheLevel {
  import opened Base
  import opened Machine

  /** The longest fade whose products fit 32 bits whatever the levels. */
  const SAFE_FADE_MS: nat := 8421505

  /** The level `elapsed` into a fade, in exact integers. */
  function FadeLevel(from: nat, to: nat, elapsed: nat, fade: nat): int
    requires fade > 0
  {
    from + Quotient((to - from) * elapsed, fade)
  }

  /** The same as computed: casts to 32 bits, a 32-bit product, and a cast of the sum to a byte. */
  function CodeLevel(from: byte, to: byte, elapsed: nat, fade: u32): byte
    requires fade > 0
  {
    var a: int, b: int := from, to;
    (a + Quotient(Wrap32((b - a) * Wrap32(elapsed)), Wrap32(fade))) % 256
  }

  // ---------------------------------------------------------------- where the product fits

  /** The products of every fade between the two levels fit. */
  predicate FadeFits(min: byte, max: byte, fade: u32) {
    0 < fade <= INT32_MAX && min <= max && (max as int - min) * (fade - 1) <= INT32_MAX
  }

  lemma ShortFadeFits(min: byte, max: byte, fade: u32)
    requires 0 < fade <= SAFE_FADE_MS && min <= max
    ensures FadeFits(min, max, fade)
  {
    var span: nat := max as int - min;
    MulMono(span, fade - 1, 8421504);
    MulMono(8421504, span, 255);
  }

  /** A fade never leaves the interval between its ends, upward or downward. */
  lemma FadeWithin(from: nat, to: nat, elapsed: nat, fade: nat)
    requires elapsed < fade
    ensures from <= to ==> from <= FadeLevel(from, to, elapsed, fade) <= to
    ensures to <= from ==> to <= FadeLevel(from, to, elapsed, fade) <= from
  {
    var d := to - from;
    AbsProduct(d, elapsed);
    AbsQuotient(d * elapsed, fade);
    MulMono(Abs(d), elapsed, fade);
    DivWithin(Abs(d * elapsed), fade, Abs(d));
  }

  /** Where the products fit, the code computes the exact level. */
  lemma CodeIsExact(min: byte, max: byte, elapsed: nat, fade: u32)
    requires FadeFits(min, max, fade) && elapsed < fade
    ensures CodeLevel(min, max, elapsed, fade) == FadeLevel(min, max, elapsed, fade)
    ensures CodeLevel(max, min, elapsed, fade) == FadeLevel(max, min, elapsed, fade)
  {
    var d: int := max as int - min;
    MulMono(d, elapsed, fade - 1);
    AbsProduct(d, elapsed);
    AbsProduct(-d, elapsed);
    ExactStep(min, max, elapsed, fade, d * elapsed);
    ExactStep(max, min, elapsed, fade, -d * elapsed);
  }

  lemma ExactStep(from: byte, to: byte, elapsed: nat, fade: u32, p: int)
    requires elapsed < fade <= INT32_MAX && p == (to as int - from) * elapsed && Fits32(p)
    ensures CodeLevel(from, to, elapsed, fade) == FadeLevel(from, to, elapsed, fade)
  {
    CastsAreIdle(elapsed, fade);
    LevelFrom(from, to, elapsed, fade, p, Quotient(p, fade));
    FadeWithin(from, to, elapsed, fade);
  }

  // ---------------------------------------------------------------- exactly when

  ghost predicate LevelsExact(fade: u32)
    requires fade > 0
  {
    forall from: byte, to: byte, elapsed: nat {:trigger CodeLevel(from, to, elapsed, fade)} ::
      elapsed < fade ==> CodeLevel(from, to, elapsed, fade) == FadeLevel(from, to, elapsed, fade)
  }

  /** Some upward fade over the whole range comes out wrong. */
  ghost predicate Misses(fade: u32)
    requires fade > 0
  {
    exists elapsed: nat {:trigger CodeLevel(0, 255, elapsed, fade)} ::
      elapsed < fade && CodeLevel(0, 255, elapsed, fade) != FadeLevel(0, 255, elapsed, fade)
  }

  /** The wrapped product and the quotient decide the level. */
  lemma CodeFrom(elapsed: nat, fade: u32, p: int, q: nat)
    requires fade > 0 && Wrap32(255 * Wrap32(elapsed)) == p && Abs(p) / Abs(Wrap32(fade)) == q < 256
    ensures (p >= 0) == (Wrap32(fade) > 0) ==> CodeLevel(0, 255, elapsed, fade) == q
    ensures (p >= 0) != (Wrap32(fade) > 0) ==> CodeLevel(0, 255, elapsed, fade) == if q == 0 then 0 else 256 - q
  {
  }

  lemma ExactFrom(elapsed: nat, fade: u32, e: nat)
    requires fade > 0 && e * fade <= 255 * elapsed < e * fade + fade
    ensures FadeLevel(0, 255, elapsed, fade) == e
  {
    DivIs(255 * elapsed, fade, e);
  }

  /** Just past the bound the product of the first wrap is negative. */
  lemma MissesAtFirstWrap(fade: u32)
    requires SAFE_FADE_MS < fade <= INT32_MAX && !(16647162 <= fade <= 16777215)
    ensures Misses(fade)
  {
    var q := DivBounds(2147483521, fade);
    var e := DivBounds(2147483775, fade);
    NoCoincidence(fade, q, e);
    FirstWrap(fade, q);
    ExactFrom(8421505, fade, e);
    assert CodeLevel(0, 255, 8421505, fade) != FadeLevel(0, 255, 8421505, fade);
  }

  lemma FirstWrap(fade: u32, q: nat)
    requires SAFE_FADE_MS < fade <= INT32_MAX && q == 2147483521 / fade
    ensures CodeLevel(0, 255, 8421505, fade) == if q == 0 then 0 else 256 - q
  {
    assert Wrap32(255 * 8421505) == -2147483521;
    MulMono(255, 8421506, fade);
    DivWithin(2147483521, fade, 255);
    CodeFrom(8421505, fade, -2147483521, q);
  }

  lemma NoCoincidence(fade: u32, q: nat, e: nat)
    requires SAFE_FADE_MS < fade <= INT32_MAX && !(16647162 <= fade <= 16777215)
    requires e * fade <= 2147483775 < e * fade + fade && q * fade <= 2147483521 < q * fade + fade
    ensures q + e != 256 && (q == 0 ==> e != 0)
  {
    if q + e == 256 {
      if q <= 127 {
        MulMono(fade, q + 2, e);
      } else if q >= 129 {
        MulMono(fade, e + 1, q);
      }
    }
  }

  /** Near 2^24 ms a wrap is almost a multiple of 256 levels; the last step of the fade still misses. */
  lemma MissesAtLastStep(fade: u32)
    requires 16711936 <= fade <= 16777215
    ensures Misses(fade)
  {
    var elapsed, n := fade - 1, 0x1_0000_0000 - 255 * (fade - 1);
    Wrap32Once(255 * elapsed);
    DivIs(n, fade, 1);
    CodeFrom(elapsed, fade, -n, 1);
    ExactFrom(elapsed, fade, 254);
    assert CodeLevel(0, 255, elapsed, fade) != FadeLevel(0, 255, elapsed, fade);
  }

  /** A little below, the level two thirds into the fade misses. */
  lemma MissesAtTwoThirds(fade: u32)
    requires 16647162 <= fade <= 16711935
    ensures Misses(fade)
  {
    var elapsed := (2 * fade + 2) / 3;
    var n := 0x1_0000_0000 - 255 * elapsed;
    assert 2 * fade <= 3 * elapsed <= 2 * fade + 2;
    Wrap32Once(255 * elapsed);
    var q := if n < 88 * fade then 87 else 88;
    DivIs(n, fade, q);
    CodeFrom(elapsed, fade, -n, q);
    ExactFrom(elapsed, fade, 170);
    assert CodeLevel(0, 255, elapsed, fade) != FadeLevel(0, 255, elapsed, fade);
  }

  /** From 2^31 ms on the duration itself is read as negative. */
  lemma MissesWhenNegative(fade: u32)
    requires 2147483776 <= fade
    ensures Misses(fade)
  {
    var f: nat := 0x1_0000_0000 - fade;
    var elapsed: nat := (f + 254) / 255;
    var p: nat := 255 * elapsed;
    assert f <= p <= f + 254 && p <= 2147483520;
    var q := NegativeQuotient(f, elapsed);
    assert Wrap32(fade) == fade - 0x1_0000_0000 && Wrap32(elapsed) == elapsed && Wrap32(p) == p;
    CodeFrom(elapsed, fade, p, q);
    ExactFrom(elapsed, fade, 0);
    assert CodeLevel(0, 255, elapsed, fade) != FadeLevel(0, 255, elapsed, fade);
  }

  lemma NegativeQuotient(f: nat, elapsed: nat) returns (q: nat)
    requires 0 < f && elapsed == (f + 254) / 255
    ensures q == (255 * elapsed) / f && 1 <= q <= 255
  {
    q := (255 * elapsed) / f;
    if f > 254 {
      DivIs(255 * elapsed, f, 1);
    } else {
      assert elapsed == 1;
      SmallQuotient(f);
    }
  }

  lemma SmallQuotient(f: nat)
    requires 0 < f <= 255
    ensures 1 <= 255 / f <= 255
  {
    DivMono(f, 255, f);
    DivIs(f, f, 1);
    DivWithin(255, f, 255) by { MulMono(255, 1, f); }
  }

  lemma MissesAtSignBit(fade: u32)
    requires 2147483648 <= fade <= 2147483775
    ensures Misses(fade)
  {
    var elapsed := fade - 1;
    var p := SignBitProduct(fade);
    var q := if fade == 0x8000_0001 then 1 else 0;
    DivIs(Abs(p), Abs(Wrap32(fade)), q);
    CodeFrom(elapsed, fade, p, q);
    ExactFrom(elapsed, fade, 254);
    assert CodeLevel(0, 255, elapsed, fade) != FadeLevel(0, 255, elapsed, fade);
  }

  /** Both factors read as negative: the wrapped product at the last step of such a fade. */
  lemma SignBitProduct(fade: u32) returns (p: int)
    requires 2147483648 <= fade <= 2147483775
    ensures Wrap32(255 * Wrap32(fade - 1)) == p && Wrap32(fade) == fade - 0x1_0000_0000
    ensures p == if fade == 0x8000_0000 then 2147483393 else 255 * (fade - 0x8000_0001) - 0x8000_0000
  {
    if fade == 0x8000_0000 {
      p := 2147483393;
      assert Wrap32(255 * 0x7FFF_FFFF) == p;
    } else {
      var j: int := fade - 0x8000_0001;
      p := 255 * j - 0x8000_0000;
      assert Wrap32(fade - 1) == j - 0x8000_0000;
      assert 255 * (j - 0x8000_0000) == p - 127 * 0x1_0000_0000;
    }
  }

  lemma LongFadeMisses(fade: u32)
    requires fade > SAFE_FADE_MS
    ensures Misses(fade)
  {
    if fade >= 2147483776 {
      MissesWhenNegative(fade);
    } else if fade >= 2147483648 {
      MissesAtSignBit(fade);
    } else if 16711936 <= fade <= 16777215 {
      MissesAtLastStep(fade);
    } else if 16647162 <= fade <= 16711935 {
      MissesAtTwoThirds(fade);
    } else {
      MissesAtFirstWrap(fade);
    }
  }

  /**
   The code's level is the exact one, for all levels and times, if and only if the fade lasts at
   most 8,421,505 ms.
   */
  lemma WhenLevelsExact(fade: u32)
    requires fade > 0
    ensures LevelsExact(fade) <==> fade <= SAFE_FADE_MS
  {
    if fade <= SAFE_FADE_MS {
      forall from: byte, to: byte, elapsed: nat | elapsed < fade
        ensures CodeLevel(from, to, elapsed, fade) == FadeLevel(from, to, elapsed, fade)
      {
        if from <= to {
          ShortFadeFits(from, to, fade);
          CodeIsExact(from, to, elapsed, fade);
        } else {
          ShortFadeFits(to, from, fade);
          CodeIsExact(to, from, elapsed, fade);
        }
      }
    } else {
      LongFadeMisses(fade);
    }
  }

  // ---------------------------------------------------------------- staying in range

  /** The longest fade whose levels stay in range whatever the range is. */
  const RANGE_FADE_MS: nat := 0x100_0000

  /** Every level of the fades between `min` and `max`, upward and downward, lies between them. */
  ghost predicate KeepsRange(min: byte, max: byte, fade: u32)
    requires fade > 0
  {
    forall elapsed: nat {:trigger CodeLevel(min, max, elapsed, fade)} ::
      elapsed < fade ==> StaysWithin(min, max, elapsed, fade)
  }

  predicate StaysWithin(min: byte, max: byte, elapsed: nat, fade: u32)
    requires fade > 0
  {
    && min <= CodeLevel(min, max, elapsed, fade) <= max
    && min <= CodeLevel(max, min, elapsed, fade) <= max
  }

  /** Some level of the upward fade does not. */
  ghost predicate LeavesUpward(min: byte, max: byte, fade: u32)
    requires fade > 0
  {
    exists elapsed: nat {:trigger CodeLevel(min, max, elapsed, fade)} ::
      elapsed < fade && !(min <= CodeLevel(min, max, elapsed, fade) <= max)
  }

  ghost predicate RangesKept(fade: u32)
    requires fade > 0
  {
    forall min: byte, max: byte {:trigger KeepsRange(min, max, fade)} :: min <= max ==> KeepsRange(min, max, fade)
  }

  /** A caller can test this before the command: a short fade, or the whole byte, or products that fit. */
  predicate RangeIsSafe(min: byte, max: byte, fade: u32) {
    0 < fade && min <= max && (fade <= RANGE_FADE_MS || (min == 0 && max == 255) || FadeFits(min, max, fade))
  }

  /** The level from the wrapped product and the size of its quotient. */
  lemma LevelIs(from: byte, to: byte, elapsed: nat, fade: u32, w: int, q: int)
    requires elapsed < fade <= INT32_MAX && Abs(w) / fade == q
    requires Wrap32((to as int - from) * elapsed) == w
    ensures CodeLevel(from, to, elapsed, fade) == (from + if w >= 0 then q else -q) % 256
  {
    CastsAreIdle(elapsed, fade);
    SignedQuotient(w, fade, q);
    LevelFrom(from, to, elapsed, fade, w, if w >= 0 then q else -q);
  }

  lemma LevelFrom(from: byte, to: byte, elapsed: nat, fade: u32, w: int, t: int)
    requires fade > 0 && Wrap32(fade) == fade && Quotient(w, fade) == t
    requires Wrap32((to as int - from) * Wrap32(elapsed)) == w
    ensures CodeLevel(from, to, elapsed, fade) == (from + t) % 256
  {
  }

  lemma CastsAreIdle(elapsed: nat, fade: u32)
    requires elapsed < fade <= INT32_MAX
    ensures Wrap32(elapsed) == elapsed && Wrap32(fade) == fade
  {
  }

  lemma SignedQuotient(w: int, fade: nat, q: int)
    requires 0 < fade && Abs(w) / fade == q
    ensures Quotient(w, fade) == if w >= 0 then q else -q
  {
  }

  /** The product of a step, and the levels above its span, make less than 256 fades. */
  lemma ProductRoom(d: nat, elapsed: nat, fade: nat)
    requires d <= 255 && elapsed < fade
    ensures d * elapsed <= 255 * fade && d * elapsed + (256 - d) * fade <= 256 * fade
  {
    MulMono(d, elapsed, fade);
    MulMono(fade, d, 255);
  }

  lemma DivAtLeast(a: nat, b: nat, bound: nat)
    requires b > 0 && bound * b <= a
    ensures bound <= a / b
  {
    if a / b < bound {
      MulMono(b, a / b + 1, bound);
    }
  }

  lemma DivBelow(a: nat, b: nat, bound: nat)
    requires b > 0 && a < bound * b
    ensures a / b < bound
  {
    if a / b >= bound {
      MulMono(b, bound, a / b);
    }
  }

  /** A product that wraps is short of 2^32 by enough levels to come back into the range, and no more. */
  lemma WrappedLevels(d: nat, fade: nat, p: nat) returns (k: nat)
    requires d <= 255 && 0 < fade <= RANGE_FADE_MS && INT32_MAX < p
    requires p <= 255 * fade && p + (256 - d) * fade <= 256 * fade
    ensures p < 0x1_0000_0000 && k == (0x1_0000_0000 - p) / fade && 256 - d <= k <= 255
  {
    DivAtLeast(0x1_0000_0000 - p, fade, 256 - d);
    DivWithin(0x1_0000_0000 - p, fade, 255);
    k := (0x1_0000_0000 - p) / fade;
  }

  lemma UnwrappedLevels(d: nat, elapsed: nat, fade: nat)
    requires elapsed < fade
    ensures d * elapsed / fade <= d
  {
    MulMono(d, elapsed, fade);
    DivWithin(d * elapsed, fade, d);
  }

  /** Both quotients of a step: of its product, and of what a wrapped product is short of 2^32. */
  lemma StepQuotients(d: nat, elapsed: nat, fade: nat, p: int) returns (q: nat, k: nat)
    requires d <= 255 && elapsed < fade <= RANGE_FADE_MS && p == d * elapsed
    ensures 0 <= p && q == p / fade && q <= d
    ensures INT32_MAX < p ==> p < 0x1_0000_0000 && k == (0x1_0000_0000 - p) / fade && 256 - d <= k <= 255
  {
    UnwrappedLevels(d, elapsed, fade);
    q := p / fade;
    if INT32_MAX < p {
      ProductRoom(d, elapsed, fade);
      k := WrappedLevels(d, fade, p);
    } else {
      k := 0;
    }
  }

  /** A byte moved up by at most the span, or down by what brings it back from above. */
  lemma UpwardByte(min: byte, max: byte, t: int, level: byte)
    requires 0 <= t <= max as int - min || 256 - (max as int - min) <= -t <= 255
    requires min <= max && level == (min + t) % 256
    ensures min <= level <= max
  {
  }

  lemma DownwardByte(min: byte, max: byte, t: int, level: byte)
    requires 0 <= -t <= max as int - min || 256 - (max as int - min) <= t <= 255
    requires min <= max && level == (max + t) % 256
    ensures min <= level <= max
  {
  }

  /** The level of an upward step whose product, as wrapped, gives `t` levels. */
  lemma UpwardStep(min: byte, max: byte, elapsed: nat, fade: u32, w: int, q: nat)
    requires min <= max && elapsed < fade <= RANGE_FADE_MS && Wrap32((max as int - min) * elapsed) == w
    requires q == Abs(w) / fade
    requires if w >= 0 then q <= max as int - min else 256 - (max as int - min) <= q <= 255
    ensures min <= CodeLevel(min, max, elapsed, fade) <= max
  {
    LevelIs(min, max, elapsed, fade, w, q);
    UpwardByte(min, max, if w >= 0 then q as int else 0 - q as int, CodeLevel(min, max, elapsed, fade));
  }

  lemma DownwardStep(min: byte, max: byte, elapsed: nat, fade: u32, w: int, q: nat)
    requires min <= max && elapsed < fade <= RANGE_FADE_MS && Wrap32((min as int - max) * elapsed) == w
    requires q == Abs(w) / fade
    requires if w <= 0 then q <= max as int - min else 256 - (max as int - min) <= q <= 255
    ensures min <= CodeLevel(max, min, elapsed, fade) <= max
  {
    LevelIs(max, min, elapsed, fade, w, q);
    DownwardByte(min, max, if w >= 0 then q as int else 0 - q as int, CodeLevel(max, min, elapsed, fade));
  }

  lemma WrappedProduct(p: int)
    requires 0 <= p < 0x1_0000_0000
    ensures Wrap32(p) == if p <= INT32_MAX then p else p - 0x1_0000_0000
    ensures Wrap32(-p) == if p <= 0x8000_0000 then -p else 0x1_0000_0000 - p
  {
  }

  /** A product of 2^31 wraps upward and fits downward. */
  lemma ShortFadeStays(min: byte, max: byte, elapsed: nat, fade: u32)
    requires min <= max && elapsed < fade <= RANGE_FADE_MS
    ensures StaysWithin(min, max, elapsed, fade)
  {
    var p: int := (max as int - min) * elapsed;
    assert (min as int - max) * elapsed == -p;
    var q, k := StepQuotients(max as int - min, elapsed, fade, p);
    WrappedProduct(p);
    UpwardStep(min, max, elapsed, fade, Wrap32(p), if p <= INT32_MAX then q else k);
    DownwardStep(min, max, elapsed, fade, Wrap32(-p), if p <= 0x8000_0000 then q else k);
  }

  lemma SafeRangeStays(min: byte, max: byte, elapsed: nat, fade: u32)
    requires RangeIsSafe(min, max, fade) && elapsed < fade
    ensures StaysWithin(min, max, elapsed, fade)
  {
    if fade <= RANGE_FADE_MS {
      ShortFadeStays(min, max, elapsed, fade);
    } else if FadeFits(min, max, fade) {
      CodeIsExact(min, max, elapsed, fade);
      FadeWithin(min, max, elapsed, fade);
      FadeWithin(max, min, elapsed, fade);
    }
  }

  // ---------------------------------------------------------------- leaving the range

  /** A wrapped upward product that is short of 2^32 by `k` levels, too few to come back to the range. */
  lemma LeavesBelow(min: byte, max: byte, elapsed: nat, fade: u32, k: nat)
    requires min <= max && elapsed < fade <= INT32_MAX
    requires INT32_MAX < (max as int - min) * elapsed < 0x1_0000_0000
    requires k == (0x1_0000_0000 - (max as int - min) * elapsed) / fade && 1 <= k <= 255 - (max as int - min)
    ensures LeavesUpward(min, max, fade)
  {
    var p := (max as int - min) * elapsed;
    Wrap32Once(p);
    LevelIs(min, max, elapsed, fade, p - 0x1_0000_0000, k);
    assert !(min <= CodeLevel(min, max, elapsed, fade) <= max);
  }

  /** The last step of a fade leaves the range while its product stays a whole fade below 2^32. */
  lemma LastStepLeaves(min: byte, max: byte, fade: u32)
    requires RANGE_FADE_MS < fade <= INT32_MAX && min <= max && max as int - min < 255
    requires INT32_MAX < (max as int - min) * (fade - 1) <= 0x1_0000_0000 - fade
    ensures LeavesUpward(min, max, fade)
  {
    var d: nat := max as int - min;
    var n := 0x1_0000_0000 - d * (fade - 1);
    assert (256 - d) * fade == 256 * fade - d * (fade - 1) - d;
    DivAtLeast(n, fade, 1);
    DivBelow(n, fade, 256 - d);
    LeavesBelow(min, max, fade - 1, fade, n / fade);
  }

  /** A longer product passes the point where it is one level short of 2^32. */
  lemma EarlierStepLeaves(min: byte, max: byte, fade: u32)
    requires RANGE_FADE_MS < fade <= 0x8000_0000 - 255 && min <= max && max as int - min < 255
    requires 0x1_0000_0000 - fade < (max as int - min) * (fade - 1)
    ensures LeavesUpward(min, max, fade)
  {
    var d: nat := max as int - min;
    assert d > 0;
    var elapsed := DivBounds(0x1_0000_0000 - fade, d);
    assert d * elapsed == elapsed * d && fade * d == d * (fade - 1) + d;
    DivBelow(0x1_0000_0000 - fade, d, fade);
    DivIs(0x1_0000_0000 - d * elapsed, fade, 1);
    LeavesBelow(min, max, elapsed, fade, 1);
  }

  /**
   Whether a breathe keeps its range can be told from its command: below 24 days the levels stay
   between the ends if and only if the fade lasts at most 2^24 ms, or the range is the whole byte, or
   no product overflows.
   */
  lemma WhenRangeIsKept(min: byte, max: byte, fade: u32)
    requires fade > 0 && min <= max
    ensures RangeIsSafe(min, max, fade) ==> KeepsRange(min, max, fade)
    ensures fade <= 0x8000_0000 - 255 ==> (LeavesUpward(min, max, fade) <==> !RangeIsSafe(min, max, fade))
    ensures LeavesUpward(min, max, fade) ==> !KeepsRange(min, max, fade)
  {
    if RangeIsSafe(min, max, fade) {
      forall elapsed: nat | elapsed < fade ensures StaysWithin(min, max, elapsed, fade) {
        SafeRangeStays(min, max, elapsed, fade);
      }
    } else if fade <= 0x8000_0000 - 255 {
      if (max as int - min) * (fade - 1) <= 0x1_0000_0000 - fade {
        LastStepLeaves(min, max, fade);
      } else {
        EarlierStepLeaves(min, max, fade);
      }
    }
  }

  /** From 0 to 128 the product is a power of two at 2^24 ms, and a longer fade is too few levels short of it. */
  lemma LongFadeLeaves(fade: u32)
    requires RANGE_FADE_MS < fade < 0x8000_0000
    ensures !KeepsRange(0, 128, fade)
  {
    DivAtLeast(0x8000_0000, fade, 1);
    DivBelow(0x8000_0000, fade, 128);
    LeavesBelow(0, 128, 0x100_0000, fade, 0x8000_0000 / fade);
  }

  /** At 2^31 ms the duration itself is read as the least number. */
  lemma SignBitFadeLeaves()
    ensures !KeepsRange(0, 2, 0x8000_0000)
  {
    assert Wrap32(-2 * Wrap32(0x4000_0000)) == INT32_MIN && Wrap32(0x8000_0000) == INT32_MIN;
    assert CodeLevel(2, 0, 0x4000_0000, 0x8000_0000) == 3;
    assert !StaysWithin(0, 2, 0x4000_0000, 0x8000_0000);
    assert CodeLevel(0, 2, 0x4000_0000, 0x8000_0000) >= 0;
  }

  /** Above that it is read as negative, and the fade moves the wrong way. */
  lemma NegativeFadeLeaves(fade: u32)
    requires fade > 0x8000_0000
    ensures !KeepsRange(0, 1, fade)
  {
    var elapsed: int := 0x1_0000_0000 - fade;
    DivIs(elapsed, elapsed, 1);
    assert Wrap32(elapsed) == elapsed && Wrap32(fade) == -elapsed;
    assert Quotient(elapsed, -elapsed) == -1;
    assert CodeLevel(0, 1, elapsed, fade) == 255;
  }

  /**
   Whatever the levels, they stay between the ends of the fade if and only if it lasts at most
   2^24 ms, 4 hours 39 minutes.
   */
  lemma WhenRangesAreKept(fade: u32)
    requires fade > 0
    ensures RangesKept(fade) <==> fade <= RANGE_FADE_MS
  {
    if fade <= RANGE_FADE_MS {
      forall min: byte, max: byte | min <= max ensures KeepsRange(min, max, fade) {
        WhenRangeIsKept(min, max, fade);
      }
    } else if fade < 0x8000_0000 {
      LongFadeLeaves(fade);
    } else if fade == 0x8000_0000 {
      SignBitFadeLeaves();
    } else {
      NegativeFadeLeaves(fade);
    }
  }

  lemma LongFadeLevel()
    ensures CodeLevel(200, 255, 40_000_000, 50_000_000) == 159
  {
    var p: int := 55 * 40_000_000;
    assert Wrap32(p) == -2094967296 && 2094967296 / 50_000_000 == 41;
    assert Quotient(Wrap32(p), 50_000_000) == -41;
  }
}
