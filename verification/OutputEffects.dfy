/**
 Relay and digital output lines: commands and timer callbacks that run one at a time under the
 hardware lock. A callback may run whenever it was already waiting for the lock, so callbacks
 are allowed at any time, armed or not.
 */
module OutputEffects {
  import opened Machine

  datatype Line = Line(
    enabled: bool,
    on: bool,
    active: bool,
    onPhase: bool,
    remaining: nat,
    finalOn: bool)

  /** The write under the lock; `ok` is the outcome of the pin driver. */
  function Write(l: Line, on: bool, ok: bool): Line {
    if l.enabled && ok then l.(on := on) else l
  }

  function StopEffect(l: Line): Line {
    l.(active := false, onPhase := false, remaining := 0)
  }

  /** The pulse callback of a relay. */
  function PulseTick(l: Line, ok: bool): Line {
    Write(l, false, ok)
  }

  /** The blink callback. */
  function EffectTick(l: Line, ok: bool): Line {
    if !l.active then l
    else if l.onPhase then Write(l, false, ok).(onPhase := false)
    else
      var r := if 0 < l.remaining && l.remaining != ENDLESS then l.remaining - 1 else l.remaining;
      if r == 0 then Write(l.(remaining := r, active := false), l.finalOn, ok)
      else Write(l.(remaining := r), true, ok).(onPhase := true)
  }

  /**
   A blink command on an enabled line: the outcomes of the first write, of starting the timer, and
   of the write after a failure.
   */
  function StartBlink(l: Line, count: nat, finalOn: bool, ok: bool, timer: bool, undo: bool): Line
    requires l.enabled
  {
    var remaining := if count == 0 then ENDLESS else count;
    var started := l.(active := true, onPhase := true, remaining := remaining, finalOn := finalOn);
    if ok && timer then Write(started, true, ok)
    else Write(Write(started, true, ok).(active := false), finalOn, undo)
  }

  /** Safe-off of one line: a disabled one is skipped. */
  function SafeOff(l: Line, ok: bool): Line {
    if l.enabled then Write(StopEffect(l), false, ok) else l
  }

  // ---------------------------------------------------------------- safe-off holds

  datatype Callback = Pulse(channel: nat, ok: bool) | Effect(channel: nat, ok: bool)

  /** A callback for a channel that does not exist does nothing. */
  function Call(ls: seq<Line>, c: Callback): (ls': seq<Line>)
    ensures |ls'| == |ls|
  {
    if c.channel >= |ls| then ls
    else ls[c.channel := if c.Pulse? then PulseTick(ls[c.channel], c.ok) else EffectTick(ls[c.channel], c.ok)]
  }

  function Calls(ls: seq<Line>, cs: seq<Callback>): (ls': seq<Line>)
    ensures |ls'| == |ls|
    decreases |cs|
  {
    if cs == [] then ls else Calls(Call(ls, cs[0]), cs[1..])
  }

  function SafeOffAll(ls: seq<Line>, oks: seq<bool>): (ls': seq<Line>)
    requires |oks| == |ls|
    ensures |ls'| == |ls|
    ensures forall i :: 0 <= i < |ls| ==> ls'[i] == SafeOff(ls[i], oks[i])
  {
    seq(|ls|, i requires 0 <= i < |ls| => SafeOff(ls[i], oks[i]))
  }

  /** Off, and nothing that could switch it on. */
  predicate Quiet(l: Line) {
    l.enabled ==> !l.on && !l.active
  }

  lemma CallKeepsQuiet(ls: seq<Line>, c: Callback)
    requires forall i :: 0 <= i < |ls| ==> Quiet(ls[i])
    ensures forall i :: 0 <= i < |ls| ==> Quiet(Call(ls, c)[i]) && Call(ls, c)[i].enabled == ls[i].enabled
  {
  }

  lemma {:induction false} CallsKeepQuiet(ls: seq<Line>, cs: seq<Callback>)
    requires forall i :: 0 <= i < |ls| ==> Quiet(ls[i])
    ensures forall i :: 0 <= i < |ls| ==> Quiet(Calls(ls, cs)[i]) && Calls(ls, cs)[i].enabled == ls[i].enabled
    decreases |cs|
  {
    if cs != [] {
      CallKeepsQuiet(ls, cs[0]);
      CallsKeepQuiet(Call(ls, cs[0]), cs[1..]);
    }
  }

  /**
   After a safe-off whose writes succeed, no sequence of pulse and blink callbacks, whatever the
   outcome of their own writes, leaves an enabled line on.
   */
  lemma SafeOffHolds(ls: seq<Line>, cs: seq<Callback>)
    ensures forall i :: 0 <= i < |ls| && ls[i].enabled ==> !Calls(SafeOffAll(ls, seq(|ls|, _ => true)), cs)[i].on
  {
    CallsKeepQuiet(SafeOffAll(ls, seq(|ls|, _ => true)), cs);
  }

  /** One line, exactly: it is off after its safe-off if and only if the write succeeds or it was off before. */
  lemma SafeOffOutcome(l: Line, ok: bool)
    requires l.enabled
    ensures !SafeOff(l, ok).on <==> ok || !l.on
    ensures !SafeOff(l, ok).active
  {
  }

  // ---------------------------------------------------------------- a blink, undisturbed

  function Ticks(l: Line, k: nat): Line {
    if k == 0 then l else EffectTick(Ticks(l, k - 1), true)
  }

  /** The line `k` callbacks into a blink of `n`. */
  function BlinkAt(l: Line, n: nat, finalOn: bool, k: nat): Line {
    if k >= 2 * n then Line(l.enabled, finalOn, false, false, 0, finalOn)
    else Line(l.enabled, k % 2 == 0, true, k % 2 == 0, n - k / 2, finalOn)
  }

  lemma {:induction false} BlinkProgress(l: Line, n: nat, finalOn: bool, k: nat)
    requires l.enabled && 0 < n < ENDLESS
    ensures Ticks(StartBlink(l, n, finalOn, true, true, true), k) == BlinkAt(l, n, finalOn, k)
  {
    if k > 0 {
      BlinkProgress(l, n, finalOn, k - 1);
      BlinkStep(l, n, finalOn, k);
    }
  }

  lemma BlinkStep(l: Line, n: nat, finalOn: bool, k: nat)
    requires l.enabled && 0 < n < ENDLESS && k > 0
    ensures EffectTick(BlinkAt(l, n, finalOn, k - 1), true) == BlinkAt(l, n, finalOn, k)
  {
    if k % 2 == 1 {
      assert k / 2 == (k - 1) / 2;
    } else {
      assert k / 2 == (k - 1) / 2 + 1;
    }
  }

  /** How many of the states before the `m`-th callback are on-phases. */
  function OnPhases(l: Line, m: nat): nat {
    if m == 0 then 0 else OnPhases(l, m - 1) + if Ticks(l, m - 1).active && Ticks(l, m - 1).onPhase then 1 else 0
  }

  lemma HalfSteps(n: nat, m: nat)
    requires m > 0
    ensures (m + 1) / 2 == m / 2 + (if m % 2 == 1 then 1 else 0)
    ensures m - 1 < 2 * n <= m ==> (m + 1) / 2 == n && m / 2 == n && m % 2 == 0
  {
  }

  lemma {:induction false} OnPhasesAre(l: Line, n: nat, finalOn: bool, m: nat)
    requires l.enabled && 0 < n < ENDLESS
    ensures OnPhases(StartBlink(l, n, finalOn, true, true, true), m) == if m >= 2 * n then n else (m + 1) / 2
  {
    if m > 0 {
      OnPhasesAre(l, n, finalOn, m - 1);
      BlinkProgress(l, n, finalOn, m - 1);
      HalfSteps(n, m);
    }
  }

  /**
   A blink of `n`, for 0 < n < 2^32 - 1, lights the line exactly `n` times, is still running
   before its 2n-th callback, and that callback leaves it on the final value for good.
   */
  lemma BlinkIsExact(l: Line, n: nat, finalOn: bool, m: nat)
    requires l.enabled && 0 < n < ENDLESS
    ensures var start := StartBlink(l, n, finalOn, true, true, true);
      && (m < 2 * n ==> Ticks(start, m).active && (Ticks(start, m).on <==> m % 2 == 0))
      && (m >= 2 * n ==> !Ticks(start, m).active && Ticks(start, m).on == finalOn && OnPhases(start, m) == n)
  {
    BlinkProgress(l, n, finalOn, m);
    OnPhasesAre(l, n, finalOn, m);
  }

  /** A count of zero, and the count 2^32 - 1 too, blinks for ever. */
  lemma {:induction false} BlinkIsEndless(l: Line, n: nat, finalOn: bool, k: nat)
    requires l.enabled && (n == 0 || n == ENDLESS)
    ensures var s := Ticks(StartBlink(l, n, finalOn, true, true, true), k);
      s == Line(l.enabled, k % 2 == 0, true, k % 2 == 0, ENDLESS, finalOn)
  {
    if k > 0 { BlinkIsEndless(l, n, finalOn, k - 1); }
  }

  // ---------------------------------------------------------------- the code

  class Bank {
    const lines: array<Line>

    constructor (n: nat, enabled: seq<bool>)
      requires |enabled| == n
      ensures fresh(lines) && lines.Length == n
      ensures forall i :: 0 <= i < n ==> lines[i] == Line(enabled[i], false, false, false, 0, false)
    {
      lines := new Line[n](i requires 0 <= i < |enabled| => Line(enabled[i], false, false, false, 0, false));
    }

    method WriteLocked(i: nat, on: bool, ok: bool) returns (done: bool)
      requires i < lines.Length
      modifies lines
      ensures lines[..] == old(lines[..])[i := Write(old(lines[i]), on, ok)]
      ensures done <==> old(lines[i]).enabled && ok
    {
      if !lines[i].enabled || !ok {
        assert lines[..] == old(lines[..])[i := lines[i]];
        return false;
      }
      lines[i] := lines[i].(on := on);
      return true;
    }

    method StopEffectLocked(i: nat)
      requires i < lines.Length
      modifies lines
      ensures lines[..] == old(lines[..])[i := StopEffect(old(lines[i]))]
    {
      lines[i] := lines[i].(active := false, onPhase := false, remaining := 0);
    }

    method PulseTimer(channel: nat, ok: bool)
      modifies lines
      ensures lines[..] == Call(old(lines[..]), Pulse(channel, ok))
    {
      if channel >= lines.Length {
        return;
      }
      var _ := WriteLocked(channel, false, ok);
    }

    method EffectTimer(channel: nat, ok: bool)
      modifies lines
      ensures lines[..] == Call(old(lines[..]), Effect(channel, ok))
    {
      if channel >= lines.Length {
        return;
      }
      ghost var was := lines[..];
      if !lines[channel].active {
        assert lines[..] == was[channel := was[channel]];
        return;
      }
      var done;
      if lines[channel].onPhase {
        done := WriteLocked(channel, false, ok);
        lines[channel] := lines[channel].(onPhase := false);
        return;
      }
      if lines[channel].remaining > 0 && lines[channel].remaining != ENDLESS {
        lines[channel] := lines[channel].(remaining := lines[channel].remaining - 1);
      }
      if lines[channel].remaining == 0 {
        lines[channel] := lines[channel].(active := false);
        done := WriteLocked(channel, lines[channel].finalOn, ok);
        return;
      }
      done := WriteLocked(channel, true, ok);
      lines[channel] := lines[channel].(onPhase := true);
    }

    /** A blink command; the line must be enabled and both phases have a duration. */
    method Blink(channel: nat, onMs: nat, offMs: nat, count: nat, finalOn: bool, ok: bool, timer: bool, undo: bool)
      returns (started: bool)
      modifies lines
      ensures started <==>
        channel < lines.Length && onMs != 0 && offMs != 0 && old(lines[..])[channel].enabled && ok && timer
      ensures lines[..] ==
        if channel < lines.Length && onMs != 0 && offMs != 0 && old(lines[..])[channel].enabled
        then old(lines[..])[channel := StartBlink(old(lines[..])[channel], count, finalOn, ok, timer, undo)]
        else old(lines[..])
    {
      if channel >= lines.Length || onMs == 0 || offMs == 0 || !lines[channel].enabled {
        return false;
      }
      StopEffectLocked(channel);
      lines[channel] := lines[channel].(active := true, onPhase := true,
                                        remaining := if count == 0 then ENDLESS else count, finalOn := finalOn);
      started := WriteLocked(channel, true, ok);
      if started {
        started := timer;
      }
      if !started {
        lines[channel] := lines[channel].(active := false);
        var _ := WriteLocked(channel, finalOn, undo);
      }
    }

    method SafeOffAllLocked(oks: seq<bool>) returns (allOk: bool)
      requires |oks| == lines.Length
      modifies lines
      ensures lines[..] == SafeOffAll(old(lines[..]), oks)
      ensures allOk <==> forall i :: 0 <= i < |oks| && old(lines[..])[i].enabled ==> oks[i]
    {
      ghost var was := lines[..];
      allOk := true;
      var i := 0;
      while i < lines.Length
        invariant i <= lines.Length
        invariant forall k :: 0 <= k < i ==> lines[k] == SafeOff(was[k], oks[k])
        invariant forall k :: i <= k < lines.Length ==> lines[k] == was[k]
        invariant allOk <==> forall k :: 0 <= k < i && was[k].enabled ==> oks[k]
      {
        if lines[i].enabled {
          StopEffectLocked(i);
          var done := WriteLocked(i, false, oks[i]);
          allOk := allOk && done;
        }
        i := i + 1;
      }
    }
  }
}
