/** Dimmable outputs: the blink and breathe effects, their timer callback, and safe-off. */
module MosfetEffects {
  import opened Base
  import opened Machine
  import opened BreatheLevel

  datatype Mode = NoEffect | Blink | Breathe

  datatype Channel = Channel(
    enabled: bool,
    level: byte,
    active: bool,
    mode: Mode,
    value: byte,
    min: byte,
    max: byte,
    final: byte,
    onPhase: bool,
    hold: bool,
    fadeMs: u32,
    holdMs: u32,
    remaining: u32,
    started: nat)

  function Write(c: Channel, level: byte, ok: bool): Channel {
    if c.enabled && ok then c.(level := level) else c
  }

  /** `mosfet_effect_clear_locked` */
  function Cancel(c: Channel): Channel {
    c.(active := false, mode := NoEffect, remaining := 0, onPhase := false, hold := false)
  }

  function CountDown(remaining: u32): u32 {
    if 0 < remaining && remaining != ENDLESS then remaining - 1 else remaining
  }

  function Finish(c: Channel, ok: bool): Channel {
    Write(c.(remaining := 0, active := false, mode := NoEffect), c.final, ok)
  }

  function BlinkTick(c: Channel, ok: bool): Channel {
    if c.onPhase then Write(c, 0, ok).(onPhase := false)
    else if CountDown(c.remaining) == 0 then Finish(c, ok)
    else Write(c.(remaining := CountDown(c.remaining)), c.value, ok).(onPhase := true)
  }

  /** The clock is read once for the elapsed time and again, as `later`, when a phase begins. */
  function BreatheTick(c: Channel, now: nat, later: nat, ok: bool): Channel {
    var elapsed := (now - c.started) % CLOCK;
    if !c.hold && elapsed < c.fadeMs then
      Write(c, if c.onPhase then CodeLevel(c.min, c.max, elapsed, c.fadeMs)
               else CodeLevel(c.max, c.min, elapsed, c.fadeMs), ok)
    else if !c.hold then Write(c, if c.onPhase then c.max else c.min, ok).(hold := true, started := later)
    else if elapsed < c.holdMs then c
    else if c.onPhase then c.(onPhase := false, hold := false, started := later)
    else if CountDown(c.remaining) == 0 then Finish(c, ok)
    else c.(remaining := CountDown(c.remaining), onPhase := true, hold := false, started := later)
  }

  /** One callback: the two readings of the clock and the outcome of its write. */
  datatype Call = Call(now: nat, later: nat, ok: bool)

  /** `mosfet_effect_timer` */
  function Tick(c: Channel, call: Call): Channel {
    if !c.active then c
    else if c.mode == Blink then BlinkTick(c, call.ok)
    else BreatheTick(c, call.now, call.later, call.ok)
  }

  /** How the steps of a start command end: the first write, the timer, and the write after a failure. */
  datatype Start = Start(ok: bool, timer: bool, undo: bool)

  const SMOOTH := Start(true, true, true)

  /** The common end of the start commands. */
  function Begin(c: Channel, first: byte, s: Start): Channel {
    var written := Write(c, first, s.ok);
    if c.enabled && s.ok && s.timer then written else Write(Cancel(written), c.final, s.undo)
  }

  function StartBlink(c: Channel, value: byte, count: u32, final: byte, s: Start): Channel {
    Begin(Cancel(c).(active := true, mode := Blink, value := value, final := final, onPhase := true,
                     remaining := if count == 0 then ENDLESS else count), value, s)
  }

  /** A range, the times of a breathe, and how often and where it ends. */
  datatype Breathing = Breathing(min: byte, max: byte, fadeMs: u32, holdMs: u32, count: u32, final: byte)

  function StartBreathe(c: Channel, b: Breathing, now: nat, s: Start): Channel {
    Begin(Cancel(c).(active := true, mode := Breathe, min := b.min, max := b.max, final := b.final,
                     fadeMs := b.fadeMs, holdMs := b.holdMs, remaining := if b.count == 0 then ENDLESS else b.count,
                     onPhase := true, hold := false, started := now), b.min, s)
  }

  function SafeOff(c: Channel, ok: bool): Channel {
    if c.enabled then Write(Cancel(c), 0, ok) else c
  }

  function Ticks(c: Channel, calls: seq<Call>): Channel {
    if calls == [] then c else Tick(Ticks(c, calls[..|calls| - 1]), calls[|calls| - 1])
  }

  // ---------------------------------------------------------------- safe-off

  /** After a safe-off whose write succeeds no sequence of effect callbacks raises the level from zero. */
  lemma {:induction false} SafeOffHolds(c: Channel, calls: seq<Call>)
    requires c.enabled
    ensures Ticks(SafeOff(c, true), calls) == SafeOff(c, true) && SafeOff(c, true).level == 0
  {
    if calls != [] { SafeOffHolds(c, calls[..|calls| - 1]); }
  }

  /** A start command that fails leaves nothing running. */
  lemma FailedStartIsQuiet(c: Channel, value: byte, count: u32, final: byte, s: Start, b: Breathing, now: nat)
    requires !(c.enabled && s.ok && s.timer)
    ensures !StartBlink(c, value, count, final, s).active && !StartBreathe(c, b, now, s).active
    ensures c.enabled && s.undo ==>
      StartBlink(c, value, count, final, s).level == final && StartBreathe(c, b, now, s).level == b.final
  {
  }

  // ---------------------------------------------------------------- blink

  function BlinkAt(c: Channel, value: byte, n: u32, final: byte, k: nat): Channel {
    var start := StartBlink(c, value, n, final, SMOOTH);
    if k >= 2 * n as int then
      start.(level := final, active := false, mode := NoEffect, onPhase := false, remaining := 0)
    else start.(level := if k % 2 == 0 then value else 0, onPhase := k % 2 == 0, remaining := n - k / 2)
  }

  predicate AllWrite(calls: seq<Call>) {
    forall i :: 0 <= i < |calls| ==> calls[i].ok
  }

  /** A blink of `n` whose writes succeed alternates `n` times and ends on the final level at callback 2n. */
  lemma {:induction false} BlinkIsExact(c: Channel, value: byte, n: u32, final: byte, calls: seq<Call>)
    requires c.enabled && 0 < n < ENDLESS && AllWrite(calls)
    ensures Ticks(StartBlink(c, value, n, final, SMOOTH), calls) == BlinkAt(c, value, n, final, |calls|)
  {
    if calls != [] {
      var k := |calls|;
      BlinkIsExact(c, value, n, final, calls[..k - 1]);
      BlinkStep(c, value, n, final, k, calls[k - 1]);
    }
  }

  lemma BlinkStep(c: Channel, value: byte, n: u32, final: byte, k: nat, call: Call)
    requires c.enabled && 0 < n < ENDLESS && k > 0 && call.ok
    ensures Tick(BlinkAt(c, value, n, final, k - 1), call) == BlinkAt(c, value, n, final, k)
  {
    assert k / 2 == if k % 2 == 1 then (k - 1) / 2 else (k - 1) / 2 + 1;
  }

  // ---------------------------------------------------------------- breathe

  /** A running breathe whose command is safe, with its level inside its range. */
  predicate InRange(c: Channel) {
    c.active && c.mode == Breathe && c.min <= c.level <= c.max && RangeIsSafe(c.min, c.max, c.fadeMs)
  }

  predicate SameEffect(c: Channel, d: Channel) {
    d.min == c.min && d.max == c.max && d.final == c.final && d.fadeMs == c.fadeMs && d.enabled == c.enabled
  }

  lemma BreatheTickStays(c: Channel, call: Call)
    requires InRange(c)
    ensures var d := Tick(c, call);
      SameEffect(c, d) && if d.active then InRange(d) else c.enabled && call.ok ==> d.level == c.final
  {
    var elapsed := (call.now - c.started) % CLOCK;
    if elapsed < c.fadeMs {
      SafeRangeStays(c.min, c.max, elapsed, c.fadeMs);
    }
  }

  lemma FinishedStays(c: Channel, call: Call)
    requires !c.active
    ensures Tick(c, call) == c
  {
  }

  /**
   Whatever the callback times and write outcomes, a breathe of at most 2^24 ms, or over the whole
   byte, or whose products fit 32 bits, keeps its level in its range while it runs.
   */
  lemma {:induction false} BreatheStaysInRange(c: Channel, calls: seq<Call>)
    requires InRange(c)
    ensures Ticks(c, calls).active ==> InRange(Ticks(c, calls)) && SameEffect(c, Ticks(c, calls))
  {
    if calls != [] {
      var k := |calls| - 1;
      BreatheStaysInRange(c, calls[..k]);
      var d := Ticks(c, calls[..k]);
      if d.active {
        BreatheTickStays(d, calls[k]);
      } else {
        FinishedStays(d, calls[k]);
      }
    }
  }

  /** How many upward fades have begun. */
  function UpFades(c: Channel, calls: seq<Call>): nat {
    if calls == [] then 1
    else
      var before := Ticks(c, calls[..|calls| - 1]);
      UpFades(c, calls[..|calls| - 1]) + if !before.onPhase && Ticks(c, calls).onPhase then 1 else 0
  }

  lemma BreatheTickCounts(c: Channel, call: Call)
    requires c.active && c.mode == Breathe && 0 < c.remaining < ENDLESS
    ensures var d := Tick(c, call);
      && (d.active ==> d.mode == Breathe && 0 < d.remaining <= c.remaining &&
                       d.remaining as int + (if !c.onPhase && d.onPhase then 1 else 0) == c.remaining)
      && (!d.active ==> c.remaining == 1 && !d.onPhase)
  {
  }

  /** A breathe of `n` makes exactly `n` upward fades before it ends, whatever the callback times. */
  lemma {:induction false} BreatheIsExact(c: Channel, n: nat, calls: seq<Call>)
    requires c.active && c.mode == Breathe && c.onPhase && c.remaining == n && 0 < n < ENDLESS
    ensures var d := Ticks(c, calls);
      && (d.active ==> d.mode == Breathe && 0 < d.remaining <= n && UpFades(c, calls) + d.remaining == n + 1)
      && (!d.active ==> UpFades(c, calls) == n && !d.onPhase)
  {
    if calls != [] {
      var k := |calls| - 1;
      BreatheIsExact(c, n, calls[..k]);
      var d := Ticks(c, calls[..k]);
      if d.active {
        BreatheTickCounts(d, calls[k]);
      } else {
        FinishedStays(d, calls[k]);
      }
    }
  }

  /** Both hold from the command on: the range, at any count, and the number of fades. */
  lemma BreatheStarts(c: Channel, b: Breathing, now: nat, calls: seq<Call>)
    requires c.enabled && RangeIsSafe(b.min, b.max, b.fadeMs)
    ensures var start := StartBreathe(c, b, now, SMOOTH);
      var d := Ticks(start, calls);
      && (d.active ==> b.min <= d.level <= b.max)
      && (0 < b.count < ENDLESS ==> if d.active then UpFades(start, calls) <= b.count
                                    else UpFades(start, calls) == b.count)
  {
    var start := StartBreathe(c, b, now, SMOOTH);
    BreatheStaysInRange(start, calls);
    if 0 < b.count < ENDLESS {
      BreatheIsExact(start, b.count, calls);
    }
  }

  /** The command keeps its level in its range under every sequence of callbacks while it runs. */
  ghost predicate CommandKeepsRange(c: Channel, b: Breathing, now: nat) {
    forall calls: seq<Call> {:trigger Ticks(StartBreathe(c, b, now, SMOOTH), calls)} ::
      var d := Ticks(StartBreathe(c, b, now, SMOOTH), calls);
      d.active ==> b.min <= d.level <= b.max
  }

  /** Below 24 days a command keeps its range if and only if it is safe, which its arguments tell. */
  lemma WhenCommandKeepsRange(c: Channel, b: Breathing, now: nat)
    requires c.enabled && 0 < b.fadeMs && b.min <= b.max
    ensures RangeIsSafe(b.min, b.max, b.fadeMs) ==> CommandKeepsRange(c, b, now)
    ensures b.fadeMs <= 0x8000_0000 - 255 ==>
      (CommandKeepsRange(c, b, now) <==> RangeIsSafe(b.min, b.max, b.fadeMs))
  {
    if RangeIsSafe(b.min, b.max, b.fadeMs) {
      forall calls: seq<Call>
        ensures var d := Ticks(StartBreathe(c, b, now, SMOOTH), calls); d.active ==> b.min <= d.level <= b.max
      {
        BreatheStarts(c, b, now, calls);
      }
    } else if b.fadeMs <= 0x8000_0000 - 255 {
      WhenRangeIsKept(b.min, b.max, b.fadeMs);
      var elapsed: nat :| elapsed < b.fadeMs && !(b.min <= CodeLevel(b.min, b.max, elapsed, b.fadeMs) <= b.max);
      FirstFadeShows(c, b, now, elapsed);
    }
  }

  /** One callback in the first fade writes the level of that moment. */
  lemma FirstFadeShows(c: Channel, b: Breathing, now: nat, elapsed: nat)
    requires c.enabled && elapsed < b.fadeMs
    ensures var d := Ticks(StartBreathe(c, b, now, SMOOTH), [Call(now + elapsed, now + elapsed, true)]);
      d.active && d.level == CodeLevel(b.min, b.max, elapsed, b.fadeMs)
  {
    var calls := [Call(now + elapsed, now + elapsed, true)];
    assert calls[..0] == [];
    assert (now + elapsed - now) % CLOCK == elapsed;
  }

  /** A longer fade leaves its range: from 200 to 255 over 50,000 seconds, the level is 159 after 40,000. */
  lemma LongBreatheLeavesRange(c: Channel)
    requires c.enabled
    ensures var start := StartBreathe(c, Breathing(200, 255, 50_000_000, 0, 0, 0), 0, SMOOTH);
      Tick(start, Call(40_000_000, 40_000_000, true)).level == 159
  {
    LongFadeLevel();
  }

  // ---------------------------------------------------------------- the code

  class Bank {
    const channels: array<Channel>

    constructor (initial: seq<Channel>)
      ensures fresh(channels) && channels[..] == initial
    {
      channels := new Channel[|initial|](i requires 0 <= i < |initial| => initial[i]);
    }

    method WriteLocked(i: nat, level: byte, ok: bool) returns (done: bool)
      requires i < channels.Length
      modifies channels
      ensures channels[..] == old(channels[..])[i := Write(old(channels[i]), level, ok)]
      ensures done <==> old(channels[i]).enabled && ok
    {
      if !channels[i].enabled || !ok {
        assert channels[..] == old(channels[..])[i := channels[i]];
        return false;
      }
      channels[i] := channels[i].(level := level);
      return true;
    }

    method BlinkCallback(i: nat, ok: bool)
      requires i < channels.Length
      modifies channels
      ensures channels[..] == old(channels[..])[i := BlinkTick(old(channels[i]), ok)]
    {
      var done;
      if channels[i].onPhase {
        done := WriteLocked(i, 0, ok);
        channels[i] := channels[i].(onPhase := false);
        return;
      }
      if channels[i].remaining > 0 && channels[i].remaining != ENDLESS {
        channels[i] := channels[i].(remaining := channels[i].remaining - 1);
      }
      if channels[i].remaining == 0 {
        channels[i] := channels[i].(active := false, mode := NoEffect);
        done := WriteLocked(i, channels[i].final, ok);
        return;
      }
      done := WriteLocked(i, channels[i].value, ok);
      channels[i] := channels[i].(onPhase := true);
    }

    method BreatheCallback(i: nat, now: nat, later: nat, ok: bool)
      requires i < channels.Length
      modifies channels
      ensures channels[..] == old(channels[..])[i := BreatheTick(old(channels[i]), now, later, ok)]
    {
      ghost var was := channels[..];
      var c := channels[i];
      var elapsed := (now - c.started) % CLOCK;
      var done;
      if !c.hold && elapsed < c.fadeMs {
        var from, to := if c.onPhase then c.min else c.max, if c.onPhase then c.max else c.min;
        done := WriteLocked(i, CodeLevel(from, to, elapsed, c.fadeMs), ok);
        return;
      }
      if !c.hold {
        done := WriteLocked(i, if c.onPhase then c.max else c.min, ok);
        channels[i] := channels[i].(hold := true, started := later);
        return;
      }
      if elapsed < c.holdMs {
        assert channels[..] == was[i := was[i]];
        return;
      }
      if !c.onPhase {
        if c.remaining > 0 && c.remaining != ENDLESS {
          channels[i] := channels[i].(remaining := channels[i].remaining - 1);
        }
        if channels[i].remaining == 0 {
          channels[i] := channels[i].(active := false, mode := NoEffect);
          done := WriteLocked(i, channels[i].final, ok);
          return;
        }
      }
      channels[i] := channels[i].(onPhase := !channels[i].onPhase, hold := false, started := later);
    }

    method EffectTimer(i: nat, call: Call)
      modifies channels
      ensures channels[..] ==
        if i < channels.Length then old(channels[..])[i := Tick(old(channels[..])[i], call)] else old(channels[..])
    {
      if i >= channels.Length {
        return;
      }
      if !channels[i].active {
        assert channels[..] == old(channels[..])[i := channels[i]];
        return;
      }
      if channels[i].mode == Blink {
        BlinkCallback(i, call.ok);
        return;
      }
      BreatheCallback(i, call.now, call.later, call.ok);
    }

    method SafeOffAllLocked(oks: seq<bool>)
      requires |oks| == channels.Length
      modifies channels
      ensures forall i :: 0 <= i < channels.Length ==> channels[i] == SafeOff(old(channels[..])[i], oks[i])
    {
      ghost var was := channels[..];
      var i := 0;
      while i < channels.Length
        invariant i <= channels.Length
        invariant forall k :: 0 <= k < i ==> channels[k] == SafeOff(was[k], oks[k])
        invariant forall k :: i <= k < channels.Length ==> channels[k] == was[k]
      {
        if channels[i].enabled {
          channels[i] := Cancel(channels[i]);
          var _ := WriteLocked(i, 0, oks[i]);
        }
        i := i + 1;
      }
    }
  }
}
