/** Input lines sampled by a periodic poll and debounced. */
module Debounce {
  import opened Machine

  datatype Input = Input(
    enabled: bool,
    activeLow: bool,
    high: bool,
    active: bool,
    candidate: bool,
    since: nat,
    lastChange: nat)

  datatype Sample = Sample(high: bool, now: nat)

  function ActiveFrom(activeLow: bool, high: bool): bool {
    high != activeLow
  }

  /** The difference of two readings of the 64-bit clock. */
  function Elapsed(now: nat, since: nat): nat {
    (now - since) % CLOCK
  }

  predicate Accepts(l: Input, s: Sample, debounce: nat) {
    s.high == l.candidate && s.high != l.high && Elapsed(s.now, l.since) >= debounce
  }

  /** One poll of an enabled input line. */
  function Poll(l: Input, s: Sample, debounce: nat): Input {
    if s.high != l.candidate then l.(candidate := s.high, since := s.now)
    else if Accepts(l, s, debounce) then
      l.(high := s.high, active := ActiveFrom(l.activeLow, s.high), lastChange := s.now)
    else l
  }

  function Run(l: Input, ss: seq<Sample>, debounce: nat): Input {
    if ss == [] then l else Poll(Run(l, ss[..|ss| - 1], debounce), ss[|ss| - 1], debounce)
  }

  // ---------------------------------------------------------------- what the candidate stands for

  /** The poll after the one that set the candidate, or zero while the first candidate stands. */
  function Origin(l: Input, ss: seq<Sample>, debounce: nat): (j: nat)
    ensures j <= |ss|
  {
    if ss == [] then 0
    else
      var before := ss[..|ss| - 1];
      if ss[|ss| - 1].high != Run(l, before, debounce).candidate then |ss| else Origin(l, before, debounce)
  }

  /** When the current candidate was first seen. */
  function SeenAt(l: Input, ss: seq<Sample>, j: nat): nat
    requires j <= |ss|
  {
    if j == 0 then l.since else ss[j - 1].now
  }

  /** All polls from the origin on saw the level `high`. */
  predicate SteadyFrom(ss: seq<Sample>, j: nat, high: bool) {
    forall i :: 0 <= i < |ss| && j <= i + 1 ==> ss[i].high == high
  }

  lemma {:induction false} CandidateIs(l: Input, ss: seq<Sample>, debounce: nat)
    ensures var j, r := Origin(l, ss, debounce), Run(l, ss, debounce);
      && r.since == SeenAt(l, ss, j)
      && SteadyFrom(ss, j, r.candidate)
      && (j == 0 ==> r.candidate == l.candidate)
  {
    if ss != [] {
      var before := ss[..|ss| - 1];
      CandidateIs(l, before, debounce);
      assert forall i :: 0 <= i < |before| ==> before[i] == ss[i];
    }
  }

  /**
   The reported level changes at a poll exactly when that poll did not itself move the candidate,
   every poll since the candidate was first seen saw the new level, that level is not the reported
   one, and the debounce time has passed.
   */
  lemma LevelChanges(l: Input, ss: seq<Sample>, debounce: nat)
    requires ss != []
    ensures var before, last := ss[..|ss| - 1], ss[|ss| - 1];
      var was, r, j := Run(l, before, debounce), Run(l, ss, debounce), Origin(l, ss, debounce);
      && (r.high != was.high <==>
            j < |ss| && last.high != was.high && Elapsed(last.now, SeenAt(l, ss, j)) >= debounce)
      && (r.high != was.high ==> r.high == last.high && SteadyFrom(ss, j, r.high))
  {
    var before := ss[..|ss| - 1];
    CandidateIs(l, before, debounce);
    CandidateIs(l, ss, debounce);
    OriginMoves(l, ss, debounce);
  }

  lemma OriginMoves(l: Input, ss: seq<Sample>, debounce: nat)
    requires ss != []
    ensures Origin(l, ss, debounce) == |ss| <==> ss[|ss| - 1].high != Run(l, ss[..|ss| - 1], debounce).candidate
  {
  }

  // ---------------------------------------------------------------- glitches

  predicate Ordered(ss: seq<Sample>) {
    (forall i :: 0 <= i < |ss| ==> ss[i].now < CLOCK) && forall i, j :: 0 <= i < j < |ss| ==> ss[i].now <= ss[j].now
  }

  predicate AllSee(ss: seq<Sample>, i: nat, j: nat, high: bool)
    requires j < |ss|
  {
    forall k :: i <= k <= j ==> ss[k].high == high
  }

  /** Every stretch of polls that all saw `high` is shorter than the debounce time. */
  predicate OnlyGlitches(ss: seq<Sample>, high: bool, debounce: nat) {
    forall i, j {:trigger AllSee(ss, i, j, high)} ::
      0 <= i <= j < |ss| && AllSee(ss, i, j, high) ==> ss[j].now - ss[i].now < debounce
  }

  lemma GlitchesOfPrefix(ss: seq<Sample>, high: bool, debounce: nat)
    requires ss != [] && OnlyGlitches(ss, high, debounce) && Ordered(ss)
    ensures OnlyGlitches(ss[..|ss| - 1], high, debounce) && Ordered(ss[..|ss| - 1])
  {
    var before := ss[..|ss| - 1];
    forall i: nat, j: nat | i <= j < |before| && AllSee(before, i, j, high)
      ensures before[j].now - before[i].now < debounce
    {
      assert AllSee(ss, i, j, high) by {
        assert forall k :: i <= k <= j ==> ss[k] == before[k];
      }
    }
  }

  lemma ElapsedInOrder(ss: seq<Sample>, i: nat, j: nat)
    requires Ordered(ss) && i <= j < |ss|
    ensures Elapsed(ss[j].now, ss[i].now) == ss[j].now - ss[i].now
  {
  }

  /** Excursions shorter than the debounce time, as the polls see them, never show. */
  lemma {:induction false} GlitchesAreHidden(l: Input, ss: seq<Sample>, debounce: nat)
    requires l.candidate == l.high && Ordered(ss) && OnlyGlitches(ss, !l.high, debounce)
    ensures Run(l, ss, debounce).high == l.high
  {
    if ss != [] {
      var n := |ss| - 1;
      GlitchesOfPrefix(ss, !l.high, debounce);
      GlitchesAreHidden(l, ss[..n], debounce);
      LevelChanges(l, ss, debounce);
      CandidateIs(l, ss, debounce);
      var j := Origin(l, ss, debounce);
      if Run(l, ss, debounce).high != l.high {
        assert j > 0;
        ElapsedInOrder(ss, j - 1, n);
        assert AllSee(ss, j - 1, n, !l.high);
      }
    }
  }

  // ---------------------------------------------------------------- steady levels

  /** The candidate is what the last poll saw. */
  lemma CandidateIsLast(l: Input, ss: seq<Sample>, debounce: nat)
    requires ss != []
    ensures Run(l, ss, debounce).candidate == ss[|ss| - 1].high
  {
  }

  /** The poll that set the candidate saw another level than the poll before it. */
  lemma {:induction false} OriginFlips(l: Input, ss: seq<Sample>, debounce: nat)
    requires Origin(l, ss, debounce) > 1
    ensures var j := Origin(l, ss, debounce); ss[j - 2].high != ss[j - 1].high
  {
    var before := ss[..|ss| - 1];
    if Origin(l, ss, debounce) < |ss| {
      OriginFlips(l, before, debounce);
    } else {
      CandidateIsLast(l, before, debounce);
    }
  }

  /** While no poll moves the first candidate, and it is the reported level, nothing changes. */
  lemma {:induction false} NeverMoved(l: Input, ss: seq<Sample>, debounce: nat)
    requires l.candidate == l.high && Origin(l, ss, debounce) == 0
    ensures Run(l, ss, debounce) == l
  {
    if ss != [] { NeverMoved(l, ss[..|ss| - 1], debounce); }
  }

  /** Some earlier poll and all since saw the level `high`, for at least the debounce time. */
  predicate SteadyFor(ss: seq<Sample>, high: bool, debounce: nat)
    requires ss != []
  {
    exists i {:trigger AllSee(ss, i, |ss| - 1, high)} ::
      0 <= i < |ss| - 1 && AllSee(ss, i, |ss| - 1, high) && ss[|ss| - 1].now - ss[i].now >= debounce
  }

  /** A level that every poll saw for at least the debounce time is the reported level. */
  lemma SteadyIsReported(l: Input, ss: seq<Sample>, debounce: nat, i: nat, high: bool)
    requires Ordered(ss) && i < |ss| - 1 && l.since <= ss[0].now
    requires AllSee(ss, i, |ss| - 1, high) && ss[|ss| - 1].now - ss[i].now >= debounce
    ensures Run(l, ss, debounce).high == high
  {
    var n := |ss| - 1;
    var was := Run(l, ss[..n], debounce);
    SteadyCandidate(l, ss, debounce, i, high);
    SettlesNow(was, ss[n], debounce);
  }

  /** A poll that sees a candidate old enough reports it. */
  lemma SettlesNow(was: Input, s: Sample, debounce: nat)
    requires was.candidate == s.high && was.since + debounce <= s.now < CLOCK
    ensures Poll(was, s, debounce).high == s.high
  {
    assert Elapsed(s.now, was.since) == s.now - was.since;
  }

  lemma SteadyCandidate(l: Input, ss: seq<Sample>, debounce: nat, i: nat, high: bool)
    requires Ordered(ss) && i < |ss| - 1 && l.since <= ss[0].now && AllSee(ss, i, |ss| - 1, high)
    ensures var was := Run(l, ss[..|ss| - 1], debounce); was.candidate == high && was.since <= ss[i].now
  {
    var before := ss[..|ss| - 1];
    CandidateIs(l, before, debounce);
    CandidateIsLast(l, before, debounce);
    assert before[|before| - 1] == ss[|ss| - 2];
    SeenBefore(l, ss, debounce, i, high);
  }

  /** The candidate of such a stretch was first seen no later than its beginning. */
  lemma SeenBefore(l: Input, ss: seq<Sample>, debounce: nat, i: nat, high: bool)
    requires Ordered(ss) && i < |ss| - 1 && l.since <= ss[0].now && AllSee(ss, i, |ss| - 1, high)
    ensures var before := ss[..|ss| - 1]; SeenAt(l, before, Origin(l, before, debounce)) <= ss[i].now
  {
    var before := ss[..|ss| - 1];
    var j := Origin(l, before, debounce);
    if j > i + 1 {
      OriginFlips(l, before, debounce);
    }
    assert i > 0 ==> ss[0].now <= ss[i].now;
    assert 0 < j <= i ==> ss[j - 1].now <= ss[i].now;
  }

  /**
   In the terms of the samples alone: on a line whose first candidate is its level, the reported level
   changes at a poll if and only if the poll sees another level than the reported one, and some earlier
   poll and all since saw it too, for at least the debounce time.
   */
  lemma ChangesExactly(l: Input, ss: seq<Sample>, debounce: nat)
    requires ss != [] && Ordered(ss) && l.candidate == l.high && l.since <= ss[0].now
    ensures var was, last := Run(l, ss[..|ss| - 1], debounce), ss[|ss| - 1];
      Run(l, ss, debounce).high != was.high <==> last.high != was.high && SteadyFor(ss, last.high, debounce)
  {
    var n := |ss| - 1;
    var was, last := Run(l, ss[..n], debounce), ss[n];
    LevelChanges(l, ss, debounce);
    if Run(l, ss, debounce).high != was.high {
      var j := Origin(l, ss, debounce);
      if j == 0 {
        NeverMoved(l, ss, debounce);
        NeverMoved(l, ss[..n], debounce);
      } else {
        ElapsedInOrder(ss, j - 1, n);
        assert AllSee(ss, j - 1, n, last.high);
      }
    }
    if last.high != was.high && SteadyFor(ss, last.high, debounce) {
      var i: nat :| i < n && AllSee(ss, i, n, last.high) && ss[n].now - ss[i].now >= debounce;
      SteadyIsReported(l, ss, debounce, i, last.high);
    }
  }

  // ---------------------------------------------------------------- events

  /** The levels published for the line, in order. */
  function Published(l: Input, ss: seq<Sample>, debounce: nat): seq<bool> {
    if ss == [] then []
    else
      var before := ss[..|ss| - 1];
      Published(l, before, debounce) +
      if Accepts(Run(l, before, debounce), ss[|ss| - 1], debounce) then [ss[|ss| - 1].high] else []
  }

  /** High and low events strictly alternate, starting with a change and ending at the reported level. */
  lemma {:induction false} EventsAlternate(l: Input, ss: seq<Sample>, debounce: nat)
    ensures var es := Published(l, ss, debounce);
      && (forall i :: 0 <= i < |es| - 1 ==> es[i] != es[i + 1])
      && (es != [] ==> es[0] != l.high)
      && Run(l, ss, debounce).high == if es == [] then l.high else es[|es| - 1]
  {
    if ss != [] { EventsAlternate(l, ss[..|ss| - 1], debounce); }
  }

  /** The active flag always follows the reported level. */
  lemma {:induction false} ActiveFollows(l: Input, ss: seq<Sample>, debounce: nat)
    requires l.active == ActiveFrom(l.activeLow, l.high)
    ensures var r := Run(l, ss, debounce); r.activeLow == l.activeLow && r.active == ActiveFrom(r.activeLow, r.high)
  {
    if ss != [] { ActiveFollows(l, ss[..|ss| - 1], debounce); }
  }

  // ---------------------------------------------------------------- the code

  datatype Change = Change(channel: nat, oldActive: bool, high: bool, active: bool)

  function Polled(l: Input, high: bool, now: nat, debounce: nat): Input {
    if l.enabled then Poll(l, Sample(high, now), debounce) else l
  }

  predicate Changes(l: Input, high: bool, now: nat, debounce: nat) {
    l.enabled && Accepts(l, Sample(high, now), debounce)
  }

  /** The changes of the first `n` lines, in channel order. */
  function ChangesOf(ls: seq<Input>, levels: seq<bool>, n: nat, now: nat, debounce: nat): seq<Change>
    requires n <= |ls| == |levels|
  {
    if n == 0 then []
    else
      ChangesOf(ls, levels, n - 1, now, debounce) +
      if Changes(ls[n - 1], levels[n - 1], now, debounce)
      then [Change(n, ls[n - 1].active, levels[n - 1], ActiveFrom(ls[n - 1].activeLow, levels[n - 1]))]
      else []
  }

  class Inputs {
    const lines: array<Input>

    constructor (initial: seq<Input>)
      ensures fresh(lines) && lines[..] == initial
    {
      lines := new Input[|initial|](i requires 0 <= i < |initial| => initial[i]);
    }

    /** One line of the poll. */
    method PollLine(i: nat, high: bool, now: nat, debounce: nat) returns (changed: bool, change: Change)
      requires i < lines.Length
      modifies lines
      ensures lines[..] == old(lines[..])[i := Polled(old(lines[i]), high, now, debounce)]
      ensures changed <==> Changes(old(lines[i]), high, now, debounce)
      ensures changed ==> change == Change(i + 1, old(lines[i]).active, high, ActiveFrom(old(lines[i]).activeLow, high))
    {
      var l := lines[i];
      changed, change := false, Change(i + 1, l.active, high, ActiveFrom(l.activeLow, high));
      if !l.enabled {
        assert lines[..] == old(lines[..])[i := l];
        return;
      }
      if high != l.candidate {
        lines[i] := l.(candidate := high, since := now);
        return;
      }
      if high == l.high || (now - l.since) % CLOCK < debounce {
        assert lines[..] == old(lines[..])[i := l];
        return;
      }
      changed := true;
      lines[i] := l.(high := high, active := change.active, lastChange := now);
    }

    /** `io_poll_timer`: every enabled input line once, and the list of changes to publish. */
    method PollTimer(levels: seq<bool>, now: nat, debounce: nat) returns (changes: seq<Change>)
      requires |levels| == lines.Length
      modifies lines
      ensures forall i :: 0 <= i < lines.Length ==> lines[i] == Polled(old(lines[..])[i], levels[i], now, debounce)
      ensures changes == ChangesOf(old(lines[..]), levels, |levels|, now, debounce)
    {
      ghost var was := lines[..];
      changes := [];
      var i := 0;
      while i < lines.Length
        invariant i <= lines.Length
        invariant forall k :: 0 <= k < i ==> lines[k] == Polled(was[k], levels[k], now, debounce)
        invariant forall k :: i <= k < lines.Length ==> lines[k] == was[k]
        invariant changes == ChangesOf(was, levels, i, now, debounce)
      {
        ghost var before := lines[..];
        var changed, change := PollLine(i, levels[i], now, debounce);
        assert forall k :: 0 <= k < lines.Length && k != i ==> lines[k] == lines[..][k] == before[k];
        assert lines[i] == lines[..][i];
        if changed {
          changes := changes + [change];
        }
        i := i + 1;
      }
    }
  }
}
