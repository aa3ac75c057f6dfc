/**
 The regions of the broker as the code runs them: loops over the slot array and over the
 in-flight tables, updating the pool in place. Each method is tied to the function of the
 step system that it implements.
 */
module BrokerPool {
  import opened Base
  import opened Broker
  import opened BrokerSteps

  /** Counting up to `i` and then one more. */
  lemma {:induction false} SumPrefix<T>(xs: seq<T>, f: T -> nat, i: nat)
    requires i < |xs|
    ensures Sum(xs[..i + 1], f) == Sum(xs[..i], f) + f(xs[i])
  {
    if i > 0 {
      SumPrefix(xs[1..], f, i - 1);
      assert xs[..i + 1][1..] == xs[1..][..i] && xs[..i][1..] == xs[1..][..i - 1];
    }
  }

  /** The lowest due entry at or above `i`. */
  function FindDue(p: seq<Entry>, now: int, i: nat): (r: Option<nat>)
    requires i <= |p|
    ensures r.Some? ==> i <= r.value < |p| && IsDue(p[r.value], now)
    ensures r.Some? ==> forall k :: i <= k < r.value ==> !IsDue(p[k], now)
    ensures r.None? ==> forall k :: i <= k < |p| ==> !IsDue(p[k], now)
    decreases |p| - i
  {
    if i == |p| then None else if IsDue(p[i], now) then Some(i) else FindDue(p, now, i + 1)
  }

  function DueFlag(now: int): Entry -> nat {
    (e: Entry) => if IsDue(e, now) then 1 else 0
  }

  function DueCount(p: seq<Entry>, now: int): nat {
    Sum(p, DueFlag(now))
  }

  /** One more transmission of entry `i` counted. */
  function Counted(m: State, slot: nat, i: nat): (r: State)
    requires WellFormed(m) && slot < MAX_CLIENTS && i < MAX_INFLIGHT && m.sessions[slot].pending[i].Pending?
    ensures WellFormed(r)
  {
    var sess := m.sessions[slot];
    var e := sess.pending[i];
    SetSession(m, slot, sess.(pending := sess.pending[i := e.(sendCount := e.sendCount + 1)]))
  }

  /** What such a call does to the due entry `i` it has found. */
  function RetryEntry(s: State, slot: nat, i: nat, now: int, result: SendResult): (r: State)
    requires WellFormed(s) && slot < MAX_CLIENTS && i < MAX_INFLIGHT && s.sessions[slot].pending[i].Pending?
    ensures WellFormed(r)
  {
    var m := MarkRetry(s, slot, i, now);
    var e := m.sessions[slot].pending[i];
    if e.sendCount >= MAX_SEND_ATTEMPTS || result == SendPartial
    then SetSession(m, slot, CloseCurrent(m.sessions[slot], s.sessions[slot].sock))
    else if result == SendFailed then m
    else Counted(m, slot, i)
  }

  /** One undisturbed call of `mqtt_qos1_retry_due`, given how its `send_all` ends. */
  function RetryCall(s: State, slot: nat, now: int, result: SendResult): (r: State)
    requires WellFormed(s) && slot < MAX_CLIENTS
    ensures WellFormed(r)
  {
    var sess := s.sessions[slot];
    if sess.sock < 0 || sess.closing || !sess.active then s
    else
      match FindDue(sess.pending, now, 0)
      case None => s
      case Some(i) => RetryEntry(s, slot, i, now, result)
  }

  /**
   At a fixed clock a call on an open session with due entries handles the lowest one:
   it is no longer due and every other entry is as before, or the session is closed.
   */
  lemma RetryHandlesLowestDue(s: State, slot: nat, now: int, result: SendResult)
    requires WellFormed(s) && slot < MAX_CLIENTS
    requires s.sessions[slot].sock >= 0 && Live(s.sessions[slot])
    requires FindDue(s.sessions[slot].pending, now, 0).Some?
    ensures var r := RetryCall(s, slot, now, result);
      var i := FindDue(s.sessions[slot].pending, now, 0).value;
      var e := s.sessions[slot].pending[i];
      && (forall k :: 0 <= k < MAX_INFLIGHT && k != i ==> r.sessions[slot].pending[k] == s.sessions[slot].pending[k])
      && DueCount(r.sessions[slot].pending, now) == DueCount(s.sessions[slot].pending, now) - 1
      && (r.sessions[slot].closing <==> e.sendCount >= MAX_SEND_ATTEMPTS || result == SendPartial)
      && (!r.sessions[slot].closing ==>
            r.sessions[slot].pending[i] ==
            e.(lastSendMs := now, sendCount := if result == SendOk then e.sendCount + 1 else e.sendCount))
      && (forall k :: 0 <= k < MAX_CLIENTS && k != slot ==> r.sessions[k] == s.sessions[k])
  {
    var sess := s.sessions[slot];
    var i := FindDue(sess.pending, now, 0).value;
    var r := RetryCall(s, slot, now, result);
    var e' := r.sessions[slot].pending[i];
    SumUpdate(sess.pending, DueFlag(now), i, e');
    assert r.sessions[slot].pending == sess.pending[i := e'];
  }

  /** With nothing due, or on a session that is closing or gone, a call changes nothing. */
  lemma RetryIdleOtherwise(s: State, slot: nat, now: int, result: SendResult)
    requires WellFormed(s) && slot < MAX_CLIENTS
    requires s.sessions[slot].sock < 0 || !Live(s.sessions[slot]) || DueCount(s.sessions[slot].pending, now) == 0
    ensures RetryCall(s, slot, now, result) == s
  {
    var found := FindDue(s.sessions[slot].pending, now, 0);
    if found.Some? { SumAtLeast(s.sessions[slot].pending, DueFlag(now), found.value); }
  }

  lemma ClearUnfolds(s: State, slot: nat, i: nat)
    requires WellFormed(s) && slot < MAX_CLIENTS && i < MAX_INFLIGHT
    ensures ClearFrom(s, slot, i) == ClearFrom(FreeEntry(s, slot, i), slot, i + 1)
  {
  }

  class Pool {
    var sessions: seq<Session>
    var pendingBytes: nat
    var clientCount: nat
    var heap: map<nat, Buffer>
    // The rest of the step system's state, which no locked region of the pool writes.
    ghost var tx: seq<Option<nat>>
    ghost var tasks: map<nat, Task>
    ghost var nextPacket: nat

    ghost function View(): State
      reads this
    {
      State(sessions, tx, pendingBytes, clientCount, heap, nextPacket, tasks)
    }

    ghost predicate Valid()
      reads this
    {
      WellFormed(View())
    }

    method FreeEntryAt(slot: nat, i: nat)
      requires Valid() && slot < MAX_CLIENTS && i < MAX_INFLIGHT
      modifies this
      ensures View() == FreeEntry(old(View()), slot, i)
    {
      var e := sessions[slot].pending[i];
      if e.Pending? {
        heap := heap - {e.packet};
        pendingBytes := if pendingBytes >= e.len then pendingBytes - e.len else 0;
        sessions := sessions[slot := sessions[slot].(pending := sessions[slot].pending[i := Free])];
      }
    }

    method ClearSession(slot: nat)
      requires Valid() && slot < MAX_CLIENTS
      modifies this
      ensures View() == ClearFrom(old(View()), slot, 0)
    {
      ghost var goal := ClearFrom(View(), slot, 0);
      var i := 0;
      while i < MAX_INFLIGHT
        invariant i <= MAX_INFLIGHT && Valid()
        invariant ClearFrom(View(), slot, i) == goal
      {
        ClearUnfolds(View(), slot, i);
        FreeEntryAt(slot, i);
        i := i + 1;
      }
    }

    method HandlePuback(slot: nat, pid: nat) returns (found: bool)
      requires Valid() && slot < MAX_CLIENTS
      modifies this
      ensures View() == AckRegion(old(View()), slot, pid)
      ensures found <==> exists k :: 0 <= k < MAX_INFLIGHT && AckMatches(old(sessions)[slot].pending[k], pid)
    {
      found := false;
      var i := 0;
      while i < MAX_INFLIGHT
        invariant i <= MAX_INFLIGHT && !found && View() == old(View())
        invariant forall k :: 0 <= k < i ==> !AckMatches(sessions[slot].pending[k], pid)
        invariant FindAck(sessions[slot].pending, pid, 0) == FindAck(sessions[slot].pending, pid, i)
      {
        if AckMatches(sessions[slot].pending[i], pid) {
          FreeEntryAt(slot, i);
          return true;
        }
        i := i + 1;
      }
    }

    method ReserveEntry(slot: nat, sock: int, pid: nat, packet: nat, len: nat, now: int) returns (idx: Option<nat>)
      requires Valid() && packet in heap
      modifies this
      ensures idx == ReserveChoice(old(View()), slot, sock, len)
      ensures idx.None? ==> View() == old(View())
      ensures idx.Some? ==>
        && sessions == old(sessions)[slot := old(sessions)[slot].(pending := old(sessions)[slot].pending[idx.value :=
                         Pending(pid, packet, len, now, 0)])]
        && pendingBytes == old(pendingBytes) + len
        && heap == old(heap)[packet := old(heap)[packet].(holder := AtEntry(slot, idx.value))]
        && clientCount == old(clientCount) && tx == old(tx) && tasks == old(tasks) && nextPacket == old(nextPacket)
    {
      if slot >= MAX_CLIENTS || !Current(sessions[slot], sock) || pendingBytes + len > MAX_PENDING_BYTES {
        return None;
      }
      var i := 0;
      while i < MAX_INFLIGHT && sessions[slot].pending[i].Pending?
        invariant i <= MAX_INFLIGHT && View() == old(View())
        invariant FindFree(sessions[slot].pending, 0) == FindFree(sessions[slot].pending, i)
      {
        i := i + 1;
      }
      if i == MAX_INFLIGHT {
        return None;
      }
      idx := Some(i);
      var sess := sessions[slot];
      sessions := sessions[slot := sess.(pending := sess.pending[i := Pending(pid, packet, len, now, 0)])];
      pendingBytes := pendingBytes + len;
      heap := heap[packet := heap[packet].(holder := AtEntry(slot, i))];
    }

    method ReapRetired(now: int)
      requires Valid()
      modifies this`sessions
      ensures sessions == Reap(old(sessions), now)
    {
      ghost var reaped := Reap(sessions, now);
      var i := 0;
      while i < MAX_CLIENTS
        invariant i <= MAX_CLIENTS && |sessions| == MAX_CLIENTS
        invariant forall k :: 0 <= k < i ==> sessions[k] == reaped[k]
        invariant forall k :: i <= k < MAX_CLIENTS ==> sessions[k] == old(sessions)[k]
      {
        var s := sessions[i];
        if !s.active && s.retiring && now >= s.reusableAfterMs {
          sessions := sessions[i := s.(retiring := false, reusableAfterMs := 0)];
        }
        i := i + 1;
      }
    }

    method AllocSession(now: int) returns (slot: Option<nat>)
      requires Valid()
      modifies this
      ensures View() == AllocRegion(old(View()), now)
      ensures slot == FindVacant(Reap(old(sessions), now), 0)
    {
      ReapRetired(now);
      var i := 0;
      while i < MAX_CLIENTS && !Vacant(sessions[i])
        invariant i <= MAX_CLIENTS && View() == old(View()).(sessions := Reap(old(sessions), now))
        invariant FindVacant(sessions, 0) == FindVacant(sessions, i)
      {
        i := i + 1;
      }
      if i == MAX_CLIENTS {
        return None;
      }
      sessions := sessions[i := FRESH];
      clientCount := clientCount + 1;
      slot := Some(i);
    }

    method FindSession(id: string) returns (slot: Option<nat>)
      requires Valid()
      ensures slot == FindClient(sessions, id, 0)
    {
      if id == "" {
        return None;
      }
      var i := 0;
      while i < MAX_CLIENTS && !Owns(sessions[i], id)
        invariant i <= MAX_CLIENTS && FindClient(sessions, id, 0) == FindClient(sessions, id, i)
      {
        i := i + 1;
      }
      slot := if i == MAX_CLIENTS then None else Some(i);
    }

    method CountDevices(skip: Option<string>) returns (count: nat)
      requires Valid()
      ensures count == DeviceCount(sessions, skip)
    {
      count := 0;
      var i := 0;
      while i < MAX_CLIENTS
        invariant i <= MAX_CLIENTS && count == Sum(sessions[..i], SkipFlag(skip))
      {
        SumPrefix(sessions, SkipFlag(skip), i);
        if CountsAsDevice(sessions[i], skip) {
          count := count + 1;
        }
        i := i + 1;
      }
      assert sessions[..i] == sessions;
    }

    method ConnectClient(slot: nat, id: string) returns (accepted: bool)
      requires Valid() && slot < MAX_CLIENTS
      modifies this
      ensures var r := ConnectRegion(old(sessions), slot, id);
        accepted == r.Some? && View() == if r.Some? then old(View()).(sessions := r.value) else old(View())
    {
      var prior := FindSession(id);
      if IsDeviceId(id) {
        var count := CountDevices(if prior.Some? then Some(id) else None);
        if count >= MAX_DEVICES {
          return false;
        }
      }
      if prior.Some? && prior.value != slot {
        sessions := sessions[prior.value := EvictedBy(sessions[prior.value])];
      }
      sessions := sessions[slot := sessions[slot].(clientId := id)];
      accepted := true;
    }

    method RetryDue(slot: nat, now: int, result: SendResult)
      requires Valid() && slot < MAX_CLIENTS
      modifies this
      ensures View() == RetryCall(old(View()), slot, now, result)
    {
      var sock := sessions[slot].sock;
      if sock < 0 || sessions[slot].closing {
        return;
      }
      var i := 0;
      while i < MAX_INFLIGHT
        invariant i <= MAX_INFLIGHT && View() == old(View()) && Valid()
        invariant sessions[slot].active ==>
          FindDue(sessions[slot].pending, now, 0) == FindDue(sessions[slot].pending, now, i)
      {
        var sess := sessions[slot];
        var e := sess.pending[i];
        if sess.active && IsDue(e, now) {
          if e.packet in heap && |heap[e.packet].bytes| > 0 {
            var b := heap[e.packet];
            heap := heap[e.packet := b.(bytes := b.bytes[0 := SetDup(b.bytes[0])])];
          }
          var e' := e.(lastSendMs := now);
          sessions := sessions[slot := sess.(pending := sess.pending[i := e'])];
          if e.sendCount >= MAX_SEND_ATTEMPTS || result == SendPartial {
            sessions := sessions[slot := CloseCurrent(sessions[slot], sock)];
          } else if result == SendOk {
            sess := sessions[slot];
            sessions := sessions[slot := sess.(pending := sess.pending[i := e'.(sendCount := e.sendCount + 1)])];
          }
          return;
        }
        i := i + 1;
      }
    }
  }
}
