/**
 Commands waiting for a result: a table of 24 entries with deadlines on a 64-bit clock.
 */
module PendingResults {
  import opened Base
  import opened Machine

  const MAX_PENDING: nat := 24
  const ID_MAX: nat := 47
  const SOURCE_MAX: nat := 31
  const COMMAND_MAX: nat := 47
  const DEFAULT_TIMEOUT_MS: nat := 3000
  const HALF: nat := 0x8000_0000_0000_0000

  datatype Entry = Vacant | Waiting(id: string, source: string, command: string, deadline: nat)
  datatype Expired = Expired(source: string, id: string)
  datatype TrackError = InvalidArg | InvalidState | NoMem
  datatype Tracked = Ok(table: seq<Entry>) | Err(error: TrackError)

  /** `ce_time_reached`: the difference taken modulo 2^64 and read as signed. */
  predicate Reached(now: nat, deadline: nat) {
    deadline > 0 && (now - deadline) % CLOCK < HALF
  }

  predicate Due(e: Entry, now: nat) {
    e.Waiting? && Reached(now, e.deadline)
  }

  predicate HasId(e: Entry, id: string) {
    e.Waiting? && e.id == id
  }

  function Find(cs: seq<Entry>, id: string): (i: nat)
    ensures i <= |cs| && (i < |cs| ==> HasId(cs[i], id))
    ensures forall k :: 0 <= k < i ==> !HasId(cs[k], id)
  {
    if cs == [] || HasId(cs[0], id) then 0 else 1 + Find(cs[1..], id)
  }

  function FindVacant(cs: seq<Entry>): (i: nat)
    ensures i <= |cs| && (i < |cs| ==> cs[i].Vacant?)
    ensures forall k :: 0 <= k < i ==> cs[k].Waiting?
  {
    if cs == [] || cs[0].Vacant? then 0 else 1 + FindVacant(cs[1..])
  }

  function NewEntry(id: string, source: string, command: string, now: nat, timeout: nat): Entry {
    Waiting(Clip(id, ID_MAX), Clip(source, SOURCE_MAX), Clip(command, COMMAND_MAX),
            (now + if timeout != 0 then timeout else DEFAULT_TIMEOUT_MS) % CLOCK)
  }

  /** `command_executor_track_pending` */
  function Track(cs: seq<Entry>, id: string, source: string, command: string, now: nat, timeout: nat): (r: Tracked)
    ensures r.Ok? ==> |r.table| == |cs|
  {
    if id == "" || source == "" then Err(InvalidArg)
    else if Find(cs, id) < |cs| then Err(InvalidState)
    else
      var i := FindVacant(cs);
      if i == |cs| then Err(NoMem) else Ok(cs[i := NewEntry(id, source, command, now, timeout)])
  }

  /** `command_executor_clear_pending`, also the effect of a terminal result or a cancellation. */
  function Clear(cs: seq<Entry>, id: string): (cs': seq<Entry>)
    ensures |cs'| == |cs|
  {
    var i := Find(cs, id);
    if id != "" && i < |cs| then cs[i := Vacant] else cs
  }

  /** The due entries in table order. */
  function DueList(cs: seq<Entry>, now: nat): (es: seq<Entry>)
    ensures |es| <= |cs|
  {
    if cs == [] then []
    else
      var last := cs[|cs| - 1];
      DueList(cs[..|cs| - 1], now) + if Due(last, now) then [last] else []
  }

  /** A poll with room for `max` reports takes entry `i`: it is due and fewer than `max` before it are. */
  predicate Taken(cs: seq<Entry>, now: nat, max: nat, i: nat)
    requires i < |cs|
  {
    Due(cs[i], now) && |DueList(cs[..i], now)| < max
  }

  /** What a poll leaves in the table. */
  function PollTable(cs: seq<Entry>, now: nat, max: nat): (cs': seq<Entry>)
    ensures |cs'| == |cs|
    ensures forall i :: 0 <= i < |cs| ==> cs'[i] == if Taken(cs, now, max, i) then Vacant else cs[i]
  {
    seq(|cs|, i requires 0 <= i < |cs| => if Taken(cs, now, max, i) then Vacant else cs[i])
  }

  /** What a poll reports: the first `max` due entries. */
  function PollList(cs: seq<Entry>, now: nat, max: nat): (es: seq<Entry>)
    ensures |es| <= max && es <= DueList(cs, now)
  {
    var due := DueList(cs, now);
    if |due| <= max then due else due[..max]
  }

  /** The least deadline other than zero of the waiting entries, or zero. */
  function NextDeadline(cs: seq<Entry>): (d: nat) {
    if cs == [] then 0
    else
      var last, before := cs[|cs| - 1], NextDeadline(cs[..|cs| - 1]);
      if last.Waiting? && last.deadline != 0 && (before == 0 || last.deadline < before) then last.deadline else before
  }

  // ---------------------------------------------------------------- deadlines

  predicate Candidate(e: Entry) {
    e.Waiting? && e.deadline != 0
  }

  /** The next deadline is the minimum, and zero only when there is none. */
  lemma {:induction false} NextDeadlineIs(cs: seq<Entry>)
    ensures NextDeadline(cs) == 0 <==> forall i :: 0 <= i < |cs| ==> !Candidate(cs[i])
    ensures NextDeadline(cs) != 0 ==>
      exists i :: 0 <= i < |cs| && Candidate(cs[i]) && cs[i].deadline == NextDeadline(cs)
    ensures forall i :: 0 <= i < |cs| && Candidate(cs[i]) ==> NextDeadline(cs) <= cs[i].deadline
  {
    if cs != [] {
      var front := cs[..|cs| - 1];
      NextDeadlineIs(front);
      assert forall i :: 0 <= i < |front| ==> front[i] == cs[i];
      if NextDeadline(cs) != 0 && NextDeadline(cs) == NextDeadline(front) {
        var i :| 0 <= i < |front| && Candidate(front[i]) && front[i].deadline == NextDeadline(front);
        assert Candidate(cs[i]);
      } else if NextDeadline(cs) != 0 {
        assert Candidate(cs[|cs| - 1]);
      }
    }
  }

  /** A poll with room for every entry leaves none that is due. */
  lemma PollLeavesNoneDue(cs: seq<Entry>, now: nat, max: nat)
    requires max >= |cs|
    ensures forall i :: 0 <= i < |cs| ==> !Due(PollTable(cs, now, max)[i], now)
  {
    forall i | 0 <= i < |cs| ensures !Due(PollTable(cs, now, max)[i], now) {
      assert |DueList(cs[..i], now)| <= i;
    }
  }

  /** Deadlines lie within half the clock's range of `now`: no wrap between arming and polling. */
  predicate NoWrap(cs: seq<Entry>, now: nat) {
    now < CLOCK && forall i :: 0 <= i < |cs| && cs[i].Waiting? ==>
      cs[i].deadline < now + HALF && now < cs[i].deadline + HALF
  }

  lemma ReachedIs(now: nat, deadline: nat)
    requires deadline < now + HALF && now < deadline + HALF
    ensures Reached(now, deadline) <==> 0 < deadline <= now
  {
    if now >= deadline {
      assert (now - deadline) % CLOCK == now - deadline;
    } else {
      assert (now - deadline) % CLOCK == now - deadline + CLOCK;
    }
  }

  lemma PollKeepsOrEmpties(cs: seq<Entry>, now: nat, max: nat, i: nat)
    requires i < |cs|
    ensures PollTable(cs, now, max)[i] == cs[i] || PollTable(cs, now, max)[i].Vacant?
  {
  }

  /** After a full poll the next deadline is zero or strictly in the future. */
  lemma NextDeadlineAfterPoll(cs: seq<Entry>, now: nat, max: nat)
    requires max >= |cs| && NoWrap(cs, now)
    ensures var next := NextDeadline(PollTable(cs, now, max)); next == 0 || next > now
  {
    var cs' := PollTable(cs, now, max);
    NextDeadlineIs(cs');
    if NextDeadline(cs') != 0 {
      var i :| 0 <= i < |cs'| && Candidate(cs'[i]) && cs'[i].deadline == NextDeadline(cs');
      PollKeepsOrEmpties(cs, now, max, i);
      PollLeavesNoneDue(cs, now, max);
      ReachedIs(now, cs[i].deadline);
    }
  }

  // ---------------------------------------------------------------- distinct ids

  predicate Distinct(cs: seq<Entry>) {
    forall i, j :: 0 <= i < j < |cs| && cs[i].Waiting? && cs[j].Waiting? ==> cs[i].id != cs[j].id
  }

  predicate Fits(cs: seq<Entry>) {
    forall i :: 0 <= i < |cs| && cs[i].Waiting? ==> 0 < |cs[i].id| <= ID_MAX
  }

  predicate Present(cs: seq<Entry>, id: string) {
    exists i :: 0 <= i < |cs| && HasId(cs[i], id)
  }

  /** Exactly when a new request keeps the ids of the table apart. */
  lemma TrackKeepsDistinct(cs: seq<Entry>, id: string, source: string, command: string, now: nat, timeout: nat)
    requires Distinct(cs) && Track(cs, id, source, command, now, timeout).Ok?
    ensures Distinct(Track(cs, id, source, command, now, timeout).table) <==>
      |id| <= ID_MAX || !Present(cs, id[..ID_MAX])
  {
    var j := FindVacant(cs);
    var key := Clip(id, ID_MAX);
    var cs' := Track(cs, id, source, command, now, timeout).table;
    if Present(cs, key) && |id| > ID_MAX {
      var i :| 0 <= i < |cs| && HasId(cs[i], key);
      assert cs'[i].id == cs'[j].id && i != j;
      assert i < j || j < i;
    }
  }

  /** A request id that does not fit is not found again: no result and no cancellation removes it. */
  lemma LongIdIsLost(cs: seq<Entry>, id: string)
    requires Fits(cs) && |id| > ID_MAX
    ensures Find(cs, id) == |cs| && Clear(cs, id) == cs
  {
  }

  /** Tracked twice, such an id takes two entries with one key. */
  lemma LongIdRepeats(id: string, source: string, command: string, now: nat, timeout: nat)
    requires |id| > ID_MAX && source != ""
    ensures var once := Track(EmptyTable(MAX_PENDING), id, source, command, now, timeout);
      once.Ok? &&
      var twice := Track(once.table, id, source, command, now, timeout);
      twice.Ok? && !Distinct(twice.table)
  {
    var empty := EmptyTable(MAX_PENDING);
    LongIdIsLost(empty, id);
    FindVacantIs(empty, 0);
    var once := Track(empty, id, source, command, now, timeout).table;
    assert once[0].id == id[..ID_MAX] && HasId(once[0], id[..ID_MAX]);
    LongIdIsLost(once, id);
    FindVacantIs(once, 1);
    TrackKeepsDistinct(once, id, source, command, now, timeout);
  }

  lemma ShrinkKeepsDistinct(cs: seq<Entry>, cs': seq<Entry>)
    requires Distinct(cs) && |cs'| == |cs|
    requires forall i :: 0 <= i < |cs| ==> cs'[i] == cs[i] || cs'[i].Vacant?
    ensures Distinct(cs')
  {
  }

  // ---------------------------------------------------------------- conservation

  /** How often the entry `e` occurs. */
  function Count(cs: seq<Entry>, e: Entry): nat {
    Sum(cs, Is(e))
  }

  function Is(e: Entry): Entry -> nat {
    x => if x == e then 1 else 0
  }

  lemma CountUpdate(cs: seq<Entry>, i: nat, x: Entry, e: Entry)
    requires i < |cs|
    ensures Count(cs[i := x], e) + Is(e)(cs[i]) == Count(cs, e) + Is(e)(x)
  {
    SumUpdate(cs, Is(e), i, x);
  }

  lemma CountCons(x: Entry, xs: seq<Entry>, e: Entry)
    ensures Count([x] + xs, e) == Is(e)(x) + Count(xs, e)
  {
    assert ([x] + xs)[1..] == xs;
  }

  lemma CountMore(xs: seq<Entry>, x: Entry, e: Entry)
    ensures Count(xs + [x], e) == Count(xs, e) + Is(e)(x)
  {
    SumAppend(xs, [x], Is(e));
    CountCons(x, [], e);
    assert [x] + [] == [x];
  }

  /** Polling a table with one more entry. */
  lemma PollListMore(cs: seq<Entry>, x: Entry, now: nat, max: nat)
    ensures PollList(cs + [x], now, max) ==
      PollList(cs, now, max) + if Due(x, now) && |DueList(cs, now)| < max then [x] else []
  {
    assert (cs + [x])[..|cs|] == cs;
  }

  lemma PollTableMore(cs: seq<Entry>, x: Entry, now: nat, max: nat)
    ensures PollTable(cs + [x], now, max) ==
      PollTable(cs, now, max) + [if Due(x, now) && |DueList(cs, now)| < max then Vacant else x]
  {
    var all := cs + [x];
    forall i | 0 <= i < |cs| ensures Taken(all, now, max, i) <==> Taken(cs, now, max, i) {
      assert all[..i] == cs[..i];
    }
    assert all[..|cs|] == cs;
  }

  /** What a poll removes is what it reports. */
  lemma {:induction false} PollConserves(cs: seq<Entry>, now: nat, max: nat, e: Entry)
    requires e.Waiting?
    ensures Count(cs, e) == Count(PollTable(cs, now, max), e) + Count(PollList(cs, now, max), e)
  {
    if cs != [] {
      var front, x := cs[..|cs| - 1], cs[|cs| - 1];
      assert cs == front + [x];
      PollConserves(front, now, max, e);
      PollTableMore(front, x, now, max);
      PollListMore(front, x, now, max);
      CountMore(front, x, e);
      if Due(x, now) && |DueList(front, now)| < max {
        CountMore(PollTable(front, now, max), Vacant, e);
        CountMore(PollList(front, now, max), x, e);
      } else {
        CountMore(PollTable(front, now, max), x, e);
        assert PollList(front, now, max) + [] == PollList(front, now, max);
      }
    }
  }

  // ---------------------------------------------------------------- whole runs

  datatype Op =
    | DoTrack(id: string, source: string, command: string, now: nat, timeout: nat)
    | DoClear(id: string)
    | DoPoll(now: nat, max: nat)
    | DoReset

  /** The table, the entries ever tracked and the entries that left it, in order. */
  datatype State = State(table: seq<Entry>, tracked: seq<Entry>, left: seq<Entry>)

  function Apply(s: State, op: Op): (s': State)
    ensures |s'.table| == |s.table|
  {
    match op
    case DoTrack(id, source, command, now, timeout) =>
      var r := Track(s.table, id, source, command, now, timeout);
      if r.Ok? then State(r.table, s.tracked + [NewEntry(id, source, command, now, timeout)], s.left) else s
    case DoClear(id) =>
      var i := Find(s.table, id);
      if id != "" && i < |s.table| then s.(table := Clear(s.table, id), left := s.left + [s.table[i]]) else s
    case DoPoll(now, max) =>
      s.(table := PollTable(s.table, now, max), left := s.left + PollList(s.table, now, max))
    case DoReset => s.(table := EmptyTable(|s.table|), left := s.left + s.table)
  }

  function EmptyTable(n: nat): (cs: seq<Entry>)
    ensures |cs| == n && forall i :: 0 <= i < n ==> cs[i] == Vacant
  {
    seq(n, _ => Vacant)
  }

  function Run(ops: seq<Op>): (s: State)
    ensures |s.table| == MAX_PENDING
  {
    if ops == [] then State(EmptyTable(MAX_PENDING), [], [])
    else Apply(Run(ops[..|ops| - 1]), ops[|ops| - 1])
  }

  predicate Balanced(s: State, e: Entry) {
    Count(s.tracked, e) == Count(s.left, e) + Count(s.table, e)
  }

  lemma ApplyBalanced(s: State, op: Op, e: Entry)
    requires e.Waiting? && Balanced(s, e)
    ensures Balanced(Apply(s, op), e)
  {
    match op
    case DoTrack(id, source, command, now, timeout) =>
      var x := NewEntry(id, source, command, now, timeout);
      if Track(s.table, id, source, command, now, timeout).Ok? {
        CountUpdate(s.table, FindVacant(s.table), x, e);
        CountMore(s.tracked, x, e);
      }
    case DoClear(id) =>
      var i := Find(s.table, id);
      if id != "" && i < |s.table| {
        CountUpdate(s.table, i, Vacant, e);
        CountMore(s.left, s.table[i], e);
      }
    case DoPoll(now, max) =>
      PollConserves(s.table, now, max, e);
      SumAppend(s.left, PollList(s.table, now, max), Is(e));
    case DoReset =>
      SumZero(EmptyTable(|s.table|), Is(e));
      SumAppend(s.left, s.table, Is(e));
  }

  /** Each tracked request leaves exactly once: what was tracked is what left and what still waits. */
  lemma {:induction false} EachLeavesOnce(ops: seq<Op>, e: Entry)
    requires e.Waiting?
    ensures Count(Run(ops).tracked, e) == Count(Run(ops).left, e) + Count(Run(ops).table, e)
  {
    if ops == [] {
      SumZero(EmptyTable(MAX_PENDING), Is(e));
    } else {
      EachLeavesOnce(ops[..|ops| - 1], e);
      ApplyBalanced(Run(ops[..|ops| - 1]), ops[|ops| - 1], e);
    }
  }

  lemma ApplyDistinct(s: State, op: Op)
    requires Distinct(s.table) && (op.DoTrack? ==> |op.id| <= ID_MAX)
    ensures Distinct(Apply(s, op).table)
  {
    match op
    case DoTrack(id, source, command, now, timeout) =>
      if Track(s.table, id, source, command, now, timeout).Ok? {
        TrackKeepsDistinct(s.table, id, source, command, now, timeout);
      }
    case DoClear(id) => ShrinkKeepsDistinct(s.table, Clear(s.table, id));
    case DoPoll(now, max) =>
      ShrinkKeepsDistinct(s.table, PollTable(s.table, now, max));
    case DoReset =>
  }

  /** Over every sequence of operations with ids that fit an entry, the waiting ids are distinct. */
  lemma {:induction false} IdsStayDistinct(ops: seq<Op>)
    requires forall i :: 0 <= i < |ops| && ops[i].DoTrack? ==> |ops[i].id| <= ID_MAX
    ensures Distinct(Run(ops).table)
  {
    if ops != [] {
      IdsStayDistinct(ops[..|ops| - 1]);
      ApplyDistinct(Run(ops[..|ops| - 1]), ops[|ops| - 1]);
    }
  }

  /** Every waiting entry has an id and a source. */
  predicate Named(cs: seq<Entry>) {
    forall i :: 0 <= i < |cs| && cs[i].Waiting? ==> cs[i].id != "" && cs[i].source != ""
  }

  lemma ApplyNamed(s: State, op: Op)
    requires Named(s.table)
    ensures Named(Apply(s, op).table)
  {
    if op.DoPoll? {
      forall i | 0 <= i < |s.table|
        ensures var e := PollTable(s.table, op.now, op.max)[i]; e.Waiting? ==> e.id != "" && e.source != ""
      {
        PollKeepsOrEmpties(s.table, op.now, op.max, i);
      }
    }
  }

  lemma {:induction false} RunNamed(ops: seq<Op>)
    ensures Named(Run(ops).table)
  {
    if ops != [] {
      RunNamed(ops[..|ops| - 1]);
      ApplyNamed(Run(ops[..|ops| - 1]), ops[|ops| - 1]);
    }
  }

  lemma {:induction false} DueAreNamed(cs: seq<Entry>, now: nat)
    requires Named(cs)
    ensures forall e :: e in DueList(cs, now) ==> e.Waiting? && e.id != "" && e.source != ""
  {
    if cs != [] { DueAreNamed(cs[..|cs| - 1], now); }
  }

  /** After any operations a poll reports each entry it takes out as a timeout of that request; no record is blank. */
  lemma EveryTimeoutIsReported(ops: seq<Op>, now: nat, max: nat)
    ensures var es := PollList(Run(ops).table, now, max);
      var events := EventsOf(Reports(es), now);
      |events| == |es| && forall i :: 0 <= i < |es| ==>
        es[i].Waiting? && events[i] == TimedOut(es[i].source, es[i].id, now)
  {
    RunNamed(ops);
    DueAreNamed(Run(ops).table, now);
    var es := PollList(Run(ops).table, now, max);
    assert forall i :: 0 <= i < |es| ==> es[i] in DueList(Run(ops).table, now);
  }

  // ---------------------------------------------------------------- the code

  class Pending {
    const entries: array<Entry>

    constructor ()
      ensures fresh(entries) && entries[..] == EmptyTable(MAX_PENDING)
    {
      entries := new Entry[MAX_PENDING](_ => Vacant);
    }

    /** One pass looks for the id and remembers the first vacant entry. */
    method TrackPending(id: string, source: string, command: string, now: nat, timeout: nat)
      returns (r: Option<TrackError>)
      modifies entries
      ensures var spec := Track(old(entries[..]), id, source, command, now, timeout);
        if spec.Ok? then r == None && entries[..] == spec.table
        else r == Some(spec.error) && entries[..] == old(entries[..])
    {
      if id == "" || source == "" {
        return Some(InvalidArg);
      }
      var free: nat, i: nat := entries.Length, 0;
      while i < entries.Length
        invariant i <= entries.Length && entries[..] == old(entries[..])
        invariant forall k :: 0 <= k < i ==> !HasId(entries[k], id)
        invariant free < i || free == entries.Length
        invariant free < i ==> entries[free].Vacant?
        invariant forall k :: 0 <= k < i && k < free ==> entries[k].Waiting?
      {
        if HasId(entries[i], id) {
          FindIs(entries[..], id, i);
          return Some(InvalidState);
        }
        if entries[i].Vacant? && free == entries.Length {
          free := i;
        }
        i := i + 1;
      }
      FindIs(entries[..], id, i);
      FindVacantIs(entries[..], free);
      if free == entries.Length {
        return Some(NoMem);
      }
      entries[free] := NewEntry(id, source, command, now, timeout);
      return None;
    }

    method ClearPending(id: string)
      modifies entries
      ensures entries[..] == Clear(old(entries[..]), id)
    {
      if id == "" {
        return;
      }
      var i := 0;
      while i < entries.Length
        invariant i <= entries.Length && entries[..] == old(entries[..])
        invariant forall k :: 0 <= k < i ==> !HasId(entries[k], id)
      {
        if HasId(entries[i], id) {
          FindIs(entries[..], id, i);
          entries[i] := Vacant;
          return;
        }
        i := i + 1;
      }
      FindIs(entries[..], id, i);
    }

    method NextTimeoutDeadline() returns (next: nat)
      ensures next == NextDeadline(entries[..])
    {
      next := 0;
      var i := 0;
      while i < entries.Length
        invariant i <= entries.Length && next == NextDeadline(entries[..i])
      {
        assert entries[..i + 1][..i] == entries[..i];
        if entries[i].Waiting? && entries[i].deadline != 0 && (next == 0 || entries[i].deadline < next) {
          next := entries[i].deadline;
        }
        i := i + 1;
      }
      assert entries[..i] == entries[..];
    }

    /** The locked part of `command_executor_poll_timeouts`. */
    method TakeExpired(now: nat, max: nat) returns (expired: seq<Expired>)
      modifies entries
      ensures entries[..] == PollTable(old(entries[..]), now, max)
      ensures expired == Reports(PollList(old(entries[..]), now, max))
    {
      ghost var was := entries[..];
      expired := [];
      var i := 0;
      while i < entries.Length && |expired| < max
        invariant i <= entries.Length
        invariant expired == ReportsTo(was, now, max, i)
        invariant forall k :: 0 <= k < i ==> entries[k] == if Taken(was, now, max, k) then Vacant else was[k]
        invariant forall k :: i <= k < entries.Length ==> entries[k] == was[k]
      {
        TakeNext(was, now, max, i, expired);
        if Due(entries[i], now) {
          expired := expired + [Expired(entries[i].source, entries[i].id)];
          entries[i] := Vacant;
        }
        i := i + 1;
      }
      RestIsKept(was, now, max, i);
      assert entries[..] == PollTable(was, now, max);
    }

    /** `command_executor_poll_timeouts`: one event for each entry taken out. */
    method PollTimeouts(now: nat, max: nat) returns (events: seq<Event>)
      modifies entries
      ensures entries[..] == PollTable(old(entries[..]), now, max)
      ensures events == EventsOf(Reports(PollList(old(entries[..]), now, max)), now)
    {
      var expired := TakeExpired(now, max);
      events := [];
      var i := 0;
      while i < |expired|
        invariant i <= |expired| && |events| == i && forall k :: 0 <= k < i ==> events[k] == EventFor(expired[k], now)
      {
        events := events + [EventFor(expired[i], now)];
        i := i + 1;
      }
    }

    /** `command_executor_reset_pending` */
    method Reset()
      modifies entries
      ensures entries[..] == EmptyTable(entries.Length)
    {
      forall i | 0 <= i < entries.Length {
        entries[i] := Vacant;
      }
    }
  }

  /** A timeout result, or a blank record where one cannot be made. */
  datatype Event = Blank | TimedOut(device: string, request: string, at: nat)

  /** `scenehub_event_make_device_control_result` with the payload "timeout". */
  function EventFor(x: Expired, now: nat): Event {
    if x.source == "" || x.id == "" then Blank else TimedOut(x.source, x.id, now)
  }

  function EventsOf(xs: seq<Expired>, now: nat): (events: seq<Event>)
    ensures |events| == |xs| && forall i :: 0 <= i < |xs| ==> events[i] == EventFor(xs[i], now)
  {
    seq(|xs|, i requires 0 <= i < |xs| => EventFor(xs[i], now))
  }

  function ReportOf(e: Entry): Expired {
    if e.Waiting? then Expired(e.source, e.id) else Expired("", "")
  }

  function Reports(es: seq<Entry>): (xs: seq<Expired>)
    ensures |xs| == |es| && forall i :: 0 <= i < |es| ==> xs[i] == ReportOf(es[i])
  {
    seq(|es|, i requires 0 <= i < |es| => ReportOf(es[i]))
  }

  /** While fewer than `max` are reported, all due entries so far are. */
  lemma RoomLeft(cs: seq<Entry>, now: nat, max: nat)
    ensures |PollList(cs, now, max)| < max <==> |DueList(cs, now)| < max
  {
  }

  /** What is reported of the first `i` entries. */
  function ReportsTo(was: seq<Entry>, now: nat, max: nat, i: nat): seq<Expired>
    requires i <= |was|
  {
    Reports(PollList(was[..i], now, max))
  }

  /** One round of the poll loop. */
  lemma TakeNext(was: seq<Entry>, now: nat, max: nat, i: nat, expired: seq<Expired>)
    requires i < |was| && expired == ReportsTo(was, now, max, i) && |expired| < max
    ensures Taken(was, now, max, i) <==> Due(was[i], now)
    ensures ReportsTo(was, now, max, i + 1) ==
      if Due(was[i], now) then expired + [Expired(was[i].source, was[i].id)] else expired
  {
    assert was[..i + 1] == was[..i] + [was[i]];
    PollListMore(was[..i], was[i], now, max);
    RoomLeft(was[..i], now, max);
  }

  lemma {:induction false} DuePrefix(cs: seq<Entry>, now: nat, i: nat)
    requires i <= |cs|
    ensures DueList(cs[..i], now) <= DueList(cs, now)
  {
    if i < |cs| {
      var front := cs[..|cs| - 1];
      DuePrefix(front, now, i);
      assert front[..i] == cs[..i];
    } else {
      assert cs[..i] == cs;
    }
  }

  /** Once the loop stops, the rest of the table stays and nothing more is reported. */
  lemma RestIsKept(was: seq<Entry>, now: nat, max: nat, i: nat)
    requires i <= |was| && (i == |was| || |ReportsTo(was, now, max, i)| == max)
    ensures ReportsTo(was, now, max, i) == Reports(PollList(was, now, max))
    ensures forall k :: i <= k < |was| ==> !Taken(was, now, max, k)
  {
    DuePrefix(was, now, i);
    if i == |was| {
      assert was[..i] == was;
    }
    forall k | i <= k < |was| ensures !Taken(was, now, max, k) {
      DuePrefix(was[..k], now, i);
      assert was[..k][..i] == was[..i];
    }
  }

  lemma FindIs(cs: seq<Entry>, id: string, i: nat)
    requires i <= |cs| && (i < |cs| ==> HasId(cs[i], id))
    requires forall k :: 0 <= k < i ==> !HasId(cs[k], id)
    ensures Find(cs, id) == i
  {
  }

  lemma FindVacantIs(cs: seq<Entry>, i: nat)
    requires i <= |cs| && (i < |cs| ==> cs[i].Vacant?)
    requires forall k :: 0 <= k < i ==> cs[k].Waiting?
    ensures FindVacant(cs) == i
  {
  }
}
