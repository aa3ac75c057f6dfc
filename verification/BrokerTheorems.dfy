/**
 What the broker promises in every reachable state and over every interleaving,
 read off the invariant.
 */
module BrokerTheorems {
  import opened Base
  import opened Broker
  import opened BrokerSteps
  import opened BrokerInvariant

  /** The states the broker can be in: what some feasible run reaches from the cold start. */
  ghost predicate Reachable(s: State) {
    exists steps :: Feasible(Init(), steps) && s == Exec(Init(), steps)
  }

  lemma ReachableInv(s: State)
    requires Reachable(s)
    ensures Inv(s)
  {
    var steps :| Feasible(Init(), steps) && s == Exec(Init(), steps);
    InitInv();
    RunsInv(Init(), steps);
  }

  /** A run continues any other. */
  lemma Continued(s: State, steps: seq<Step>)
    requires Reachable(s) && WellFormed(s) && Feasible(s, steps)
    ensures Reachable(Exec(s, steps))
  {
    var before :| Feasible(Init(), before) && s == Exec(Init(), before);
    ExecAppend(Init(), before, steps);
  }

  // ---------------------------------------------------------------- transmissions

  /**
   While `send_all` runs on a QoS 1 packet, the packet is allocated with the length being
   sent, its entry still holds it, and the session has not left `active`.
   */
  lemma BufferOutlivesSend(s: State, t: nat)
    requires Reachable(s) && t in s.tasks && s.tasks[t].Sending?
    ensures var Sending(slot, _, idx, packet, len, _) := s.tasks[t];
      && packet in s.heap && |s.heap[packet].bytes| == len
      && slot < MAX_CLIENTS && idx < MAX_INFLIGHT
      && s.sessions[slot].pending[idx].Pending? && s.sessions[slot].pending[idx].packet == packet
      && s.sessions[slot].active
      && s.tx[slot] == Some(t)
  {
    ReachableInv(s);
    var Sending(slot, _, idx, packet, len, _) := s.tasks[t];
    assert TaskOk(t, s.tasks[t], s.sessions, s.heap, s.nextPacket);
    assert EntryOk(s.sessions[slot].pending[idx], s.heap, slot, idx);
  }

  /** No two threads transmit on one session. */
  lemma OneTransmissionPerSlot(s: State, t: nat, u: nat)
    requires Reachable(s) && t in s.tasks && u in s.tasks
    requires Held(s.tasks[t]).Some? && Held(s.tasks[t]) == Held(s.tasks[u])
    ensures t == u
  {
    ReachableInv(s);
  }

  /** A packet held at another place survives the clearing of a session. */
  lemma {:induction false} ClearKeeps(s: State, slot: nat, i: nat, p: nat)
    requires Inv(s) && slot < MAX_CLIENTS && i <= MAX_INFLIGHT && p in s.heap
    requires forall u :: u in s.tasks && s.tasks[u].Sending? ==> s.tasks[u].slot != slot
    requires s.heap[p].holder.AtEntry? ==> s.heap[p].holder.slot != slot
    ensures p in ClearFrom(s, slot, i).heap && ClearFrom(s, slot, i).heap[p] == s.heap[p]
    decreases MAX_INFLIGHT - i
  {
    if i < MAX_INFLIGHT {
      assert EntryOk(s.sessions[slot].pending[i], s.heap, slot, i);
      FreeEntryInv(s, slot, i);
      FreeEntryFrame(s, slot, i);
      ClearKeeps(FreeEntry(s, slot, i), slot, i + 1, p);
    }
  }

  /** Under the `tx_lock` of one slot, packets of the other slots are out of reach. */
  lemma RunKeeps(s: State, t: nat, p: nat)
    requires Inv(s) && Enabled(s, Run(t)) && p in s.heap
    requires s.heap[p].holder.AtEntry? && s.heap[p].holder.slot != s.tasks[t].slot
    ensures p in RunStep(s, t).heap && RunStep(s, t).heap[p] == s.heap[p]
  {
    var HasTx(slot, job) := s.tasks[t];
    if job.Retry? {
      assert EntryOk(s.sessions[slot].pending[job.idx], s.heap, slot, job.idx);
    } else if job.Ack? {
      AckKeeps(s, slot, job.pid, p);
    } else if job.Free_? {
      SoleHolder(s, t, slot);
      ClearKeeps(s, slot, 0, p);
    }
  }

  lemma AckKeeps(s: State, slot: nat, pid: nat, p: nat)
    requires Inv(s) && slot < MAX_CLIENTS && p in s.heap
    requires s.heap[p].holder.AtEntry? && s.heap[p].holder.slot != slot
    ensures p in AckRegion(s, slot, pid).heap && AckRegion(s, slot, pid).heap[p] == s.heap[p]
  {
    var found := FindAck(s.sessions[slot].pending, pid, 0);
    if found.Some? {
      assert EntryOk(s.sessions[slot].pending[found.value], s.heap, slot, found.value);
    }
  }

  lemma RunFrame(s: State, t: nat)
    requires WellFormed(s) && Enabled(s, Run(t))
    ensures t in RunStep(s, t).tasks && RunStep(s, t).tasks == s.tasks[t := RunStep(s, t).tasks[t]]
  {
    var HasTx(slot, job) := s.tasks[t];
    match job
    case SendFirst(_, _, _, _) =>
    case Retry(_, _, _) => RetryFrame(s, t, slot, job);
    case Ack(pid) => AckFrame(s, slot, pid);
    case Plain(_, _) =>
    case Free_ => ClearFrame(s, slot, 0);
  }

  lemma RetryFrame(s: State, t: nat, slot: nat, job: Job)
    requires WellFormed(s) && slot < MAX_CLIENTS && job.Retry? && IndexOk(job)
    ensures t in RetryStep(s, t, slot, job).tasks
    ensures RetryStep(s, t, slot, job).tasks == s.tasks[t := RetryStep(s, t, slot, job).tasks[t]]
  {
  }

  lemma AckFrame(s: State, slot: nat, pid: nat)
    requires WellFormed(s) && slot < MAX_CLIENTS
    ensures AckRegion(s, slot, pid).tasks == s.tasks
  {
    var found := FindAck(s.sessions[slot].pending, pid, 0);
    if found.Some? { FreeEntryFrame(s, slot, found.value); }
  }

  predicate EndsSend(step: Step, t: nat) {
    step.SendDone? && step.t == t
  }

  /** Nothing of transmission `t` changed between two states. */
  predicate KeepsSend(s: State, r: State, t: nat) {
    && t in s.tasks && s.tasks[t].Sending? && s.tasks[t].packet in s.heap
    && t in r.tasks && r.tasks[t] == s.tasks[t]
    && s.tasks[t].packet in r.heap && r.heap[s.tasks[t].packet].bytes == s.heap[s.tasks[t].packet].bytes
  }

  /** A transmitted packet is allocated, and its history names the entry it sits in. */
  lemma SendHolder(s: State, t: nat)
    requires Inv(s) && t in s.tasks && s.tasks[t].Sending?
    ensures var Sending(slot, _, idx, packet, len, _) := s.tasks[t];
      && slot < MAX_CLIENTS && packet in s.heap && packet < s.nextPacket
      && s.heap[packet].holder == AtEntry(slot, idx)
      && s.tx[slot] == Some(t)
  {
    var Sending(slot, _, idx, packet, _, _) := s.tasks[t];
    assert TaskOk(t, s.tasks[t], s.sessions, s.heap, s.nextPacket);
    assert EntryOk(s.sessions[slot].pending[idx], s.heap, slot, idx);
    assert BufferOk(packet, s.heap[packet], s.sessions, s.nextPacket, s.tasks);
  }

  lemma ReserveKeepsSend(s: State, u: nat, now: int, t: nat)
    requires Inv(s) && Enabled(s, Reserve(u, now)) && t in s.tasks && s.tasks[t].Sending?
    ensures KeepsSend(s, ReserveStep(s, u, now), t)
  {
    SendHolder(s, t);
    assert TaskOk(u, s.tasks[u], s.sessions, s.heap, s.nextPacket);
  }

  lemma RunKeepsOtherSend(s: State, u: nat, t: nat)
    requires Inv(s) && Enabled(s, Run(u)) && t in s.tasks && s.tasks[t].Sending?
    ensures KeepsSend(s, RunStep(s, u), t)
  {
    SendHolder(s, t);
    RunKeeps(s, u, s.tasks[t].packet);
    RunFrame(s, u);
  }

  predicate TaskStep(step: Step) {
    !(step.Accept? || step.SetSock? || step.Connect? || step.SetSubs? || step.CloseSlot?)
  }

  /** Steps outside any task write neither packets nor tasks. */
  lemma PoolStepKeepsPackets(s: State, step: Step)
    requires WellFormed(s) && Enabled(s, step) && !TaskStep(step)
    ensures Apply(s, step).tasks == s.tasks && Apply(s, step).heap == s.heap
  {
  }

  /** No step of any other task touches a packet in transmission or its bytes. */
  lemma StepKeepsSend(s: State, step: Step, t: nat)
    requires Inv(s) && Enabled(s, step) && t in s.tasks && s.tasks[t].Sending? && !EndsSend(step, t)
    ensures KeepsSend(s, Apply(s, step), t)
  {
    SendHolder(s, t);
    if step.Run? {
      RunKeepsOtherSend(s, step.t, t);
    } else if step.Reserve? {
      ReserveKeepsSend(s, step.t, step.now, t);
    } else if !TaskStep(step) {
      PoolStepKeepsPackets(s, step);
    } else {
      OtherStepKeepsSend(s, step, t);
    }
  }

  lemma OtherStepKeepsSend(s: State, step: Step, t: nat)
    requires WellFormed(s) && Enabled(s, step) && !step.Run? && !step.Reserve? && TaskStep(step) && !EndsSend(step, t)
    requires t in s.tasks && s.tasks[t].Sending? && s.tasks[t].packet in s.heap && s.tasks[t].packet < s.nextPacket
    ensures KeepsSend(s, Apply(s, step), t)
  {
  }

  /** Over every interleaving between validation and the end of `send_all` the bytes sent are one constant packet. */
  lemma {:induction false} RunKeepsSend(s: State, steps: seq<Step>, t: nat)
    requires Inv(s) && Feasible(s, steps) && t in s.tasks && s.tasks[t].Sending?
    requires forall i :: 0 <= i < |steps| ==> !EndsSend(steps[i], t)
    ensures KeepsSend(s, Exec(s, steps), t)
    decreases |steps|
  {
    if steps == [] {
      SendHolder(s, t);
    } else {
      StepKeepsSend(s, steps[0], t);
      StepInv(s, steps[0]);
      assert Feasible(Apply(s, steps[0]), steps[1..]);
      RunKeepsSend(Apply(s, steps[0]), steps[1..], t);
    }
  }

  /** The DUP flag of a packet's fixed header. */
  predicate HasDup(bytes: seq<byte>) {
    |bytes| > 0 && bytes[0] / 8 % 2 == 1
  }

  lemma SetDupSets(b: byte)
    ensures SetDup(b) / 8 % 2 == 1
  {
  }

  lemma MarkSetsDup(s: State, slot: nat, idx: nat, now: int)
    requires Inv(s) && slot < MAX_CLIENTS && idx < MAX_INFLIGHT && s.sessions[slot].pending[idx].Pending?
    ensures var p := s.sessions[slot].pending[idx].packet;
      p in MarkRetry(s, slot, idx, now).heap && HasDup(MarkRetry(s, slot, idx, now).heap[p].bytes)
  {
    var e := s.sessions[slot].pending[idx];
    assert EntryOk(e, s.heap, slot, idx);
    assert BufferOk(e.packet, s.heap[e.packet], s.sessions, s.nextPacket, s.tasks);
    SetDupSets(s.heap[e.packet].bytes[0]);
  }

  /** A retransmission starts with the DUP flag set and within the attempt limit. */
  lemma RetrySetsDup(s: State, t: nat)
    requires Reachable(s) && WellFormed(s) && Enabled(s, Run(t)) && s.tasks[t].job.Retry?
    requires RunStep(s, t).tasks[t].Sending?
    ensures var r := RunStep(s, t);
      && r.tasks[t].packet in r.heap && HasDup(r.heap[r.tasks[t].packet].bytes)
      && r.tasks[t].count <= MAX_SEND_ATTEMPTS
  {
    ReachableInv(s);
    MarkSetsDup(s, s.tasks[t].slot, s.tasks[t].job.idx, s.tasks[t].job.now);
  }

  /** What one step may do to a packet that stays allocated: nothing, or set its DUP flag. */
  predicate Evolves(before: Buffer, after: Buffer) {
    && after.built == before.built
    && (after.bytes == before.bytes ||
        (|before.bytes| > 0 && after.bytes == before.bytes[0 := SetDup(before.bytes[0])]))
  }

  lemma {:induction false} ClearShrinks(s: State, slot: nat, i: nat)
    requires WellFormed(s) && slot < MAX_CLIENTS && i <= MAX_INFLIGHT
    ensures forall p :: p in ClearFrom(s, slot, i).heap ==> p in s.heap && ClearFrom(s, slot, i).heap[p] == s.heap[p]
    decreases MAX_INFLIGHT - i
  {
    if i < MAX_INFLIGHT { ClearShrinks(FreeEntry(s, slot, i), slot, i + 1); }
  }

  lemma RunEvolves(s: State, t: nat)
    requires WellFormed(s) && Enabled(s, Run(t))
    ensures forall p :: p in RunStep(s, t).heap ==> p in s.heap && Evolves(s.heap[p], RunStep(s, t).heap[p])
  {
    if s.tasks[t].job.Free_? { ClearShrinks(s, s.tasks[t].slot, 0); }
  }

  /** Over one step a packet is new, as it was, or marked as a duplicate. */
  lemma StepEvolves(s: State, step: Step)
    requires WellFormed(s) && Enabled(s, step)
    ensures var r := Apply(s, step);
      forall p :: p in r.heap ==>
        if p in s.heap && (step.Build? ==> p != s.nextPacket) then Evolves(s.heap[p], r.heap[p])
        else step.Build? && r.heap[p].built == r.heap[p].bytes != []
  {
    if step.Run? {
      RunEvolves(s, step.t);
    } else if !TaskStep(step) {
      PoolStepKeepsPackets(s, step);
    }
  }

  predicate ContentOk(heap: map<nat, Buffer>) {
    forall p :: p in heap ==> SameButDup(heap[p].bytes, heap[p].built)
  }

  lemma EvolvesSame(before: Buffer, after: Buffer)
    requires Evolves(before, after) && SameButDup(before.bytes, before.built)
    ensures SameButDup(after.bytes, after.built)
  {
    assert after.bytes[1..] == before.bytes[1..];
  }

  lemma {:induction false} RunsKeepContent(s: State, steps: seq<Step>)
    requires WellFormed(s) && Feasible(s, steps) && ContentOk(s.heap)
    ensures ContentOk(Exec(s, steps).heap)
    decreases |steps|
  {
    if steps != [] {
      var r := Apply(s, steps[0]);
      StepEvolves(s, steps[0]);
      forall p | p in r.heap ensures SameButDup(r.heap[p].bytes, r.heap[p].built) {
        if p in s.heap && (steps[0].Build? ==> p != s.nextPacket) {
          EvolvesSame(s.heap[p], r.heap[p]);
        }
      }
      RunsKeepContent(r, steps[1..]);
    }
  }

  /** In no reachable state has a packet changed in anything but its DUP flag. */
  lemma PacketsKeepTheirBytes(s: State)
    requires Reachable(s)
    ensures forall p :: p in s.heap ==> SameButDup(s.heap[p].bytes, s.heap[p].built)
  {
    var steps :| Feasible(Init(), steps) && s == Exec(Init(), steps);
    RunsKeepContent(Init(), steps);
  }

  /** In no reachable state has a packet been counted as sent more than eight times. */
  lemma AttemptsAreBounded(s: State, slot: nat, i: nat)
    requires Reachable(s) && WellFormed(s) && slot < MAX_CLIENTS && i < MAX_INFLIGHT
    ensures s.sessions[slot].pending[i].Pending? ==> s.sessions[slot].pending[i].sendCount <= MAX_SEND_ATTEMPTS
  {
    ReachableInv(s);
    assert EntryOk(s.sessions[slot].pending[i], s.heap, slot, i);
  }

  // ---------------------------------------------------------------- memory budget

  /**
   The budget counter is exact and bounded; freeing an entry never takes the saturating
   branch; a slot that is not active holds nothing, so wiping it on reuse loses nothing.
   */
  lemma BudgetIsExact(s: State)
    requires Reachable(s)
    ensures s.pendingBytes == Sum(s.sessions, SessionBytes) <= MAX_PENDING_BYTES
    ensures forall slot: nat, i: nat ::
      slot < MAX_CLIENTS && i < MAX_INFLIGHT && s.sessions[slot].pending[i].Pending? ==>
      s.sessions[slot].pending[i].len <= s.pendingBytes
    ensures forall slot :: 0 <= slot < MAX_CLIENTS && !s.sessions[slot].active ==>
      s.sessions[slot].pending == EmptyTable()
  {
    ReachableInv(s);
    forall slot: nat, i: nat | slot < MAX_CLIENTS && i < MAX_INFLIGHT && s.sessions[slot].pending[i].Pending?
      ensures s.sessions[slot].pending[i].len <= s.pendingBytes
    {
      SumAtLeast(s.sessions[slot].pending, EntryBytes, i);
      SumAtLeast(s.sessions, SessionBytes, slot);
    }
    forall slot | 0 <= slot < MAX_CLIENTS && !s.sessions[slot].active
      ensures s.sessions[slot].pending == EmptyTable()
    {
      assert SlotOk(s.sessions[slot]);
    }
  }

  /** Two entries never share a packet, so no packet is freed twice. */
  lemma PacketsAreOwnedOnce(s: State, k1: nat, i1: nat, k2: nat, i2: nat)
    requires Reachable(s) && k1 < MAX_CLIENTS && k2 < MAX_CLIENTS && i1 < MAX_INFLIGHT && i2 < MAX_INFLIGHT
    requires s.sessions[k1].pending[i1].Pending? && s.sessions[k2].pending[i2].Pending?
    requires s.sessions[k1].pending[i1].packet == s.sessions[k2].pending[i2].packet
    ensures k1 == k2 && i1 == i2
  {
    ReachableInv(s);
    assert EntryOk(s.sessions[k1].pending[i1], s.heap, k1, i1);
    assert EntryOk(s.sessions[k2].pending[i2], s.heap, k2, i2);
  }

  lemma EmptyHeap(heap: map<nat, Buffer>, ss: seq<Session>, n: nat)
    requires Shaped(ss) && HeapOk(heap, ss, n, map[])
    requires forall slot :: 0 <= slot < MAX_CLIENTS ==> NothingPending(ss[slot].pending)
    ensures heap == map[]
  {
    assert heap.Keys == {};
  }

  /** Nothing leaks: with every session gone and no operation under way, no packet is allocated. */
  lemma IdleBrokerHoldsNoPacket(s: State)
    requires Reachable(s) && s.tasks == map[]
    requires forall slot :: 0 <= slot < |s.sessions| ==> !s.sessions[slot].active
    ensures s.heap == map[] && s.pendingBytes == 0
  {
    ReachableInv(s);
    forall slot | 0 <= slot < MAX_CLIENTS
      ensures NothingPending(s.sessions[slot].pending) && SessionBytes(s.sessions[slot]) == 0
    {
      assert SlotOk(s.sessions[slot]);
      SumZero(s.sessions[slot].pending, EntryBytes);
    }
    EmptyHeap(s.heap, s.sessions, s.nextPacket);
    SumZero(s.sessions, SessionBytes);
  }

  // ---------------------------------------------------------------- client identities

  /** At most one live session per client id, at most twenty devices, and an exact client count. */
  lemma ClientsAreUnique(s: State)
    requires Reachable(s)
    ensures forall i, j ::
      (0 <= i < j < MAX_CLIENTS && Live(s.sessions[i]) && Live(s.sessions[j]) && s.sessions[i].clientId != "") ==>
      s.sessions[i].clientId != s.sessions[j].clientId
    ensures Sum(s.sessions, DeviceFlag) <= MAX_DEVICES
    ensures s.clientCount == Sum(s.sessions, ActiveFlag) <= MAX_CLIENTS
  {
    ReachableInv(s);
    SumBounded(s.sessions, ActiveFlag);
  }
}
