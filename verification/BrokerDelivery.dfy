/**
 The step system put to use: what a transmitted packet tells its receiver, and the sequential
 account of a retry call as a run of the step system.
 */
module BrokerDelivery {
  import opened Base
  import opened Broker
  import opened BrokerSteps
  import opened BrokerInvariant
  import opened BrokerTheorems
  import opened BrokerPool
  import PublishCodec

  // ---------------------------------------------------------------- packets and their messages

  /** The bytes are the packet of a message with the given id. */
  ghost predicate Carries(bytes: seq<byte>, pid: nat) {
    exists m :: PublishCodec.Sendable(m) && m.pid == pid && bytes == PublishCodec.Wire(m)
  }

  ghost predicate TaskCarries(task: Task, heap: map<nat, Buffer>) {
    task.Built? && task.packet in heap ==> Carries(heap[task.packet].built, task.pid)
  }

  ghost predicate EntryCarries(e: Entry, heap: map<nat, Buffer>) {
    e.Pending? && e.packet in heap ==> Carries(heap[e.packet].built, e.pid)
  }

  /** The packet of every builder and of every entry carries the id kept beside it. */
  ghost predicate AllCarry(s: State)
    requires WellFormed(s)
  {
    && (forall t :: t in s.tasks ==> TaskCarries(s.tasks[t], s.heap))
    && (forall slot: nat, i: nat :: slot < MAX_CLIENTS && i < MAX_INFLIGHT ==>
          EntryCarries(s.sessions[slot].pending[i], s.heap))
  }

  /** Same packet under the same id, or no packet. */
  predicate SameLoad(e: Entry, f: Entry) {
    f.Pending? ==> e.Pending? && f.packet == e.packet && f.pid == e.pid
  }

  predicate LoadsKept(ss: seq<Session>, rs: seq<Session>)
    requires Shaped(ss) && Shaped(rs)
  {
    forall slot: nat, i: nat :: slot < MAX_CLIENTS && i < MAX_INFLIGHT ==>
      SameLoad(ss[slot].pending[i], rs[slot].pending[i])
  }

  predicate BuildersKept(tasks: map<nat, Task>, after: map<nat, Task>) {
    forall t :: t in after && after[t].Built? ==> t in tasks && tasks[t] == after[t]
  }

  predicate OriginsKept(heap: map<nat, Buffer>, after: map<nat, Buffer>) {
    forall p :: p in after ==> p in heap && after[p].built == heap[p].built
  }

  lemma KeptCarries(s: State, r: State)
    requires WellFormed(s) && WellFormed(r) && AllCarry(s)
    requires LoadsKept(s.sessions, r.sessions) && BuildersKept(s.tasks, r.tasks) && OriginsKept(s.heap, r.heap)
    ensures AllCarry(r)
  {
    forall t | t in r.tasks ensures TaskCarries(r.tasks[t], r.heap) {
      assert r.tasks[t].Built? ==> TaskCarries(s.tasks[t], s.heap);
    }
    forall slot: nat, i: nat | slot < MAX_CLIENTS && i < MAX_INFLIGHT
      ensures EntryCarries(r.sessions[slot].pending[i], r.heap)
    {
      assert SameLoad(s.sessions[slot].pending[i], r.sessions[slot].pending[i]);
      assert EntryCarries(s.sessions[slot].pending[i], s.heap);
    }
  }

  /** A packet that is not yet allocated may be filled without touching what others carry. */
  lemma NewPacketCarries(heap: map<nat, Buffer>, p: nat, b: Buffer, task: Task, e: Entry)
    ensures TaskCarries(task, heap) && (task.Built? ==> task.packet != p) ==> TaskCarries(task, heap[p := b])
    ensures EntryCarries(e, heap) && (e.Pending? ==> e.packet != p) ==> EntryCarries(e, heap[p := b])
  {
  }

  lemma BuildCarries(s: State, t: nat, slot: nat, sock: int, m: PublishCodec.Message)
    requires Inv(s) && AllCarry(s) && Enabled(s, Build(t, slot, sock, m))
    ensures AllCarry(BuildStep(s, t, slot, sock, m.pid, PublishCodec.Wire(m)))
  {
    var bytes := PublishCodec.Wire(m);
    var b := Buffer(bytes, bytes, AtTask(t));
    assert Carries(bytes, m.pid);
    var r := BuildStep(s, t, slot, sock, m.pid, bytes);
    forall u | u in r.tasks ensures TaskCarries(r.tasks[u], r.heap) {
      if u != t {
        assert TaskCarries(s.tasks[u], s.heap);
        if s.tasks[u].Built? { FreshPacket(s, u); }
        NewPacketCarries(s.heap, s.nextPacket, b, s.tasks[u], Free);
      }
    }
    forall k: nat, i: nat | k < MAX_CLIENTS && i < MAX_INFLIGHT ensures EntryCarries(r.sessions[k].pending[i], r.heap) {
      var e := s.sessions[k].pending[i];
      assert EntryCarries(e, s.heap);
      if e.Pending? { FreshEntry(s, k, i); }
      NewPacketCarries(s.heap, s.nextPacket, b, Deactivating(0), e);
    }
  }

  /** The packet about to be allocated is nobody's. */
  lemma FreshPacket(s: State, u: nat)
    requires Inv(s) && u in s.tasks && s.tasks[u].Built?
    ensures s.tasks[u].packet < s.nextPacket
  {
    assert TaskOk(u, s.tasks[u], s.sessions, s.heap, s.nextPacket);
    var p := s.tasks[u].packet;
    assert BufferOk(p, s.heap[p], s.sessions, s.nextPacket, s.tasks);
  }

  lemma FreshEntry(s: State, slot: nat, i: nat)
    requires Inv(s) && slot < MAX_CLIENTS && i < MAX_INFLIGHT && s.sessions[slot].pending[i].Pending?
    ensures s.sessions[slot].pending[i].packet < s.nextPacket
  {
    var e := s.sessions[slot].pending[i];
    assert EntryOk(e, s.heap, slot, i);
    assert BufferOk(e.packet, s.heap[e.packet], s.sessions, s.nextPacket, s.tasks);
  }

  lemma ReserveCarries(s: State, t: nat, now: int)
    requires Inv(s) && AllCarry(s) && Enabled(s, Reserve(t, now))
    ensures AllCarry(ReserveStep(s, t, now))
  {
    var r := ReserveStep(s, t, now);
    assert TaskCarries(s.tasks[t], s.heap);
    forall u | u in r.tasks ensures TaskCarries(r.tasks[u], r.heap) {
      assert TaskCarries(s.tasks[u], s.heap);
    }
    forall k: nat, i: nat | k < MAX_CLIENTS && i < MAX_INFLIGHT ensures EntryCarries(r.sessions[k].pending[i], r.heap) {
      assert EntryCarries(s.sessions[k].pending[i], s.heap);
    }
  }

  lemma {:induction false} ClearKeepsLoads(s: State, slot: nat, i: nat)
    requires WellFormed(s) && slot < MAX_CLIENTS && i <= MAX_INFLIGHT
    ensures LoadsKept(s.sessions, ClearFrom(s, slot, i).sessions)
    decreases MAX_INFLIGHT - i
  {
    if i < MAX_INFLIGHT {
      var m := FreeEntry(s, slot, i);
      assert LoadsKept(s.sessions, m.sessions);
      ClearKeepsLoads(m, slot, i + 1);
    }
  }

  lemma RetryKeepsLoads(s: State, t: nat, slot: nat, job: Job)
    requires WellFormed(s) && slot < MAX_CLIENTS && job.Retry? && IndexOk(job)
    ensures LoadsKept(s.sessions, RetryStep(s, t, slot, job).sessions)
  {
  }

  lemma AckKeepsLoads(s: State, slot: nat, pid: nat)
    requires WellFormed(s) && slot < MAX_CLIENTS
    ensures LoadsKept(s.sessions, AckRegion(s, slot, pid).sessions)
  {
  }

  lemma RunKeepsLoads(s: State, t: nat)
    requires WellFormed(s) && Enabled(s, Run(t))
    ensures LoadsKept(s.sessions, RunStep(s, t).sessions)
  {
    var HasTx(slot, job) := s.tasks[t];
    match job
    case SendFirst(_, _, _, _) =>
    case Retry(_, _, _) => RetryKeepsLoads(s, t, slot, job);
    case Ack(pid) => AckKeepsLoads(s, slot, pid);
    case Plain(_, _) =>
    case Free_ => ClearKeepsLoads(s, slot, 0);
  }

  lemma AcceptKeepsLoads(s: State, now: int)
    requires WellFormed(s)
    ensures LoadsKept(s.sessions, AllocRegion(s, now).sessions)
  {
  }

  lemma ConnectKeepsLoads(ss: seq<Session>, slot: nat, id: string)
    requires Shaped(ss) && slot < |ss| && ConnectRegion(ss, slot, id).Some?
    ensures Shaped(ConnectRegion(ss, slot, id).value) && LoadsKept(ss, ConnectRegion(ss, slot, id).value)
  {
  }

  lemma SendDoneKeepsLoads(s: State, t: nat, result: SendResult)
    requires WellFormed(s) && Enabled(s, SendDone(t, result))
    ensures LoadsKept(s.sessions, SendDoneStep(s, t, result).sessions)
  {
  }

  lemma StepKeepsLoads(s: State, step: Step)
    requires WellFormed(s) && Enabled(s, step) && !step.Build? && !step.Reserve?
    ensures LoadsKept(s.sessions, Apply(s, step).sessions)
  {
    match step
    case Run(t) => RunKeepsLoads(s, t);
    case Accept(now) => AcceptKeepsLoads(s, now);
    case Connect(slot, id) =>
      if ConnectRegion(s.sessions, slot, id).Some? { ConnectKeepsLoads(s.sessions, slot, id); }
    case SendDone(t, result) => SendDoneKeepsLoads(s, t, result);
    case _ =>
  }

  lemma StepKeepsBuilders(s: State, step: Step)
    requires WellFormed(s) && Enabled(s, step) && !step.Build? && !step.Reserve?
    ensures BuildersKept(s.tasks, Apply(s, step).tasks)
  {
    if step.Run? {
      RunFrame(s, step.t);
      RunLeavesBuilding(s, step.t);
    } else if !TaskStep(step) {
      PoolStepKeepsPackets(s, step);
    }
  }

  lemma RunLeavesBuilding(s: State, t: nat)
    requires WellFormed(s) && Enabled(s, Run(t))
    ensures t in RunStep(s, t).tasks && !RunStep(s, t).tasks[t].Built?
  {
  }

  lemma StepCarries(s: State, step: Step)
    requires Inv(s) && AllCarry(s) && Enabled(s, step)
    ensures AllCarry(Apply(s, step))
  {
    if step.Build? {
      BuildCarries(s, step.t, step.slot, step.sock, step.message);
    } else if step.Reserve? {
      ReserveCarries(s, step.t, step.now);
    } else {
      StepKeepsLoads(s, step);
      StepKeepsBuilders(s, step);
      StepEvolves(s, step);
      KeptCarries(s, Apply(s, step));
    }
  }

  lemma {:induction false} RunCarries(s: State, steps: seq<Step>)
    requires Inv(s) && AllCarry(s) && Feasible(s, steps)
    ensures AllCarry(Exec(s, steps))
    decreases |steps|
  {
    if steps != [] {
      StepInv(s, steps[0]);
      StepCarries(s, steps[0]);
      RunCarries(Apply(s, steps[0]), steps[1..]);
    }
  }

  lemma ReachableCarries(s: State)
    requires Reachable(s)
    ensures WellFormed(s) && AllCarry(s)
  {
    var steps :| Feasible(Init(), steps) && s == Exec(Init(), steps);
    ExecCarries(steps);
  }

  lemma ExecCarries(steps: seq<Step>)
    requires Feasible(Init(), steps)
    ensures AllCarry(Exec(Init(), steps))
  {
    InitInv();
    InitCarries();
    RunCarries(Init(), steps);
  }

  lemma InitCarries()
    ensures AllCarry(Init())
  {
    forall slot: nat, i: nat | slot < MAX_CLIENTS && i < MAX_INFLIGHT
      ensures EntryCarries(Init().sessions[slot].pending[i], Init().heap)
    {
      assert Init().sessions[slot].pending[i] == Free;
    }
  }

  /** The receiver, if the message is within its limits and it allows the topic, is told of the message. */
  ghost predicate IsReceived(bytes: seq<byte>, m: PublishCodec.Message) {
    forall tail: seq<byte>, allowed: seq<byte> -> bool {:trigger PublishCodec.Receive(bytes + tail, allowed)} ::
      PublishCodec.Receivable(m) && allowed(m.topic) ==>
      PublishCodec.Receive(bytes + tail, allowed) == PublishCodec.Got(PublishCodec.Parsed(m), tail)
  }

  lemma CopiesAreReceived(bytes: seq<byte>, m: PublishCodec.Message)
    requires PublishCodec.Sendable(m) && SameButDup(bytes, PublishCodec.Wire(m))
    ensures IsReceived(bytes, m)
  {
    PublishCodec.BodyLength(m);
    forall tail: seq<byte>, allowed: seq<byte> -> bool | PublishCodec.Receivable(m) && allowed(m.topic)
      ensures PublishCodec.Receive(bytes + tail, allowed) == PublishCodec.Got(PublishCodec.Parsed(m), tail)
    {
      PublishCodec.PublishRoundTrip(m, bytes, tail, allowed);
    }
  }

  /**
   In every interleaving, what `send_all` puts on the wire, first transmission or retry, is received
   as one message, and its packet id is the one kept in the entry.
   */
  lemma TransmissionDelivers(s: State, t: nat) returns (m: PublishCodec.Message)
    requires Reachable(s) && t in s.tasks && s.tasks[t].Sending?
    ensures var Sending(slot, _, idx, packet, _, _) := s.tasks[t];
      && WellFormed(s) && slot < MAX_CLIENTS && idx < MAX_INFLIGHT && packet in s.heap
      && s.sessions[slot].pending[idx].Pending? && m.pid == s.sessions[slot].pending[idx].pid
      && PublishCodec.Sendable(m) && SameButDup(s.heap[packet].bytes, PublishCodec.Wire(m))
      && IsReceived(s.heap[packet].bytes, m)
  {
    BufferOutlivesSend(s, t);
    ReachableCarries(s);
    PacketsKeepTheirBytes(s);
    var Sending(slot, _, idx, packet, _, _) := s.tasks[t];
    assert EntryCarries(s.sessions[slot].pending[idx], s.heap);
    var e := s.sessions[slot].pending[idx];
    m :| PublishCodec.Sendable(m) && m.pid == e.pid && s.heap[packet].built == PublishCodec.Wire(m);
    CopiesAreReceived(s.heap[packet].bytes, m);
  }

  /** A PUBACK frees a packet that carries the acknowledged id, or nothing. */
  lemma AckFreesItsMessage(s: State, slot: nat, pid: nat) returns (m: PublishCodec.Message)
    requires Reachable(s) && WellFormed(s) && slot < MAX_CLIENTS && FindAck(s.sessions[slot].pending, pid, 0).Some?
    ensures var p := s.sessions[slot].pending[FindAck(s.sessions[slot].pending, pid, 0).value].packet;
      && p in s.heap && p !in AckRegion(s, slot, pid).heap
      && PublishCodec.Sendable(m) && m.pid == pid && SameButDup(s.heap[p].bytes, PublishCodec.Wire(m))
  {
    ReachableInv(s);
    ReachableCarries(s);
    PacketsKeepTheirBytes(s);
    var i := FindAck(s.sessions[slot].pending, pid, 0).value;
    var e := s.sessions[slot].pending[i];
    assert EntryOk(e, s.heap, slot, i);
    assert EntryCarries(e, s.heap);
    m :| PublishCodec.Sendable(m) && m.pid == e.pid && s.heap[e.packet].built == PublishCodec.Wire(m);
  }

  // ---------------------------------------------------------------- a retry call as a run

  /** Thread `t` is about to look at entry `idx` of an open session whose `tx_lock` is free. */
  predicate AtEntry(s: State, t: nat, slot: nat, sock: int, now: int, idx: nat) {
    && WellFormed(s) && slot < MAX_CLIENTS && idx < MAX_INFLIGHT
    && t in s.tasks && s.tasks[t] == WantTx(slot, Retry(sock, now, idx)) && s.tx[slot] == None
    && sock >= 0 && Current(s.sessions[slot], sock)
  }

  /** The state after thread `t` took the lock and ran the region of its entry. */
  lemma TakeAndRun(s: State, t: nat, slot: nat, sock: int, now: int, idx: nat, rest: seq<Step>) returns (r: State)
    requires AtEntry(s, t, slot, sock, now, idx)
    ensures r == RetryStep(s.(tx := s.tx[slot := Some(t)], tasks := s.tasks[t := HasTx(slot, Retry(sock, now, idx))]),
                           t, slot, Retry(sock, now, idx))
    ensures WellFormed(r)
    ensures Feasible(r, rest) ==>
      Feasible(s, [TakeTx(t)] + ([Run(t)] + rest)) && Exec(s, [TakeTx(t)] + ([Run(t)] + rest)) == Exec(r, rest)
  {
    var held := Apply(s, TakeTx(t));
    r := Apply(held, Run(t));
    if Feasible(r, rest) {
      ExecCons(held, Run(t), rest);
      ExecCons(s, TakeTx(t), [Run(t)] + rest);
    }
  }

  /** An entry that is not due is passed over. */
  lemma Skip(s: State, t: nat, slot: nat, sock: int, now: int, idx: nat, rest: seq<Step>)
    requires AtEntry(s, t, slot, sock, now, idx) && !IsDue(s.sessions[slot].pending[idx], now)
    ensures var next := PassedOver(s, t, slot, sock, now, idx);
      Feasible(next, rest) ==>
        Feasible(s, [TakeTx(t)] + ([Run(t)] + ([Release(t)] + rest))) &&
        Exec(s, [TakeTx(t)] + ([Run(t)] + ([Release(t)] + rest))) == Exec(next, rest)
  {
    var next := PassedOver(s, t, slot, sock, now, idx);
    var r := TakeAndRun(s, t, slot, sock, now, idx, [Release(t)] + rest);
    assert s.tx[slot := Some(t)][slot := None] == s.tx;
    assert Apply(r, Release(t)) == next;
    if Feasible(next, rest) {
      ExecCons(r, Release(t), rest);
    }
  }

  lemma BackAgain(tasks: map<nat, Task>, t: nat, a: Task)
    requires t in tasks
    ensures tasks[t := a] - {t} == tasks - {t}
  {
  }

  /** A due entry that has used up its attempts closes the session. */
  lemma GiveUp(s: State, t: nat, slot: nat, sock: int, now: int, idx: nat) returns (steps: seq<Step>)
    requires AtEntry(s, t, slot, sock, now, idx) && IsDue(s.sessions[slot].pending[idx], now)
    requires s.sessions[slot].pending[idx].sendCount >= MAX_SEND_ATTEMPTS
    ensures var m := MarkRetry(s, slot, idx, now);
      Feasible(s, steps) && Exec(s, steps) == Finish(SetSession(m, slot, CloseCurrent(m.sessions[slot], sock)), t)
  {
    var m := MarkRetry(s, slot, idx, now);
    var done := Finish(SetSession(m, slot, CloseCurrent(m.sessions[slot], sock)), t);
    var r := TakeAndRun(s, t, slot, sock, now, idx, [Release(t)] + ([CloseIfCurrent(t)] + []));
    var u := Apply(r, Release(t));
    assert s.tx[slot := Some(t)][slot := None] == s.tx;
    assert u == Put(m, t, Closing(slot, sock));
    BackAgain(m.tasks, t, Closing(slot, sock));
    assert Apply(u, CloseIfCurrent(t)) == done;
    ExecCons(u, CloseIfCurrent(t), []);
    ExecCons(r, Release(t), [CloseIfCurrent(t)] + []);
    steps := [TakeTx(t)] + ([Run(t)] + ([Release(t)] + ([CloseIfCurrent(t)] + [])));
  }

  /** The counting region at the end of a retransmission. */
  lemma AfterSend(r: State, m: State, t: nat, slot: nat, sock: int, idx: nat, result: SendResult)
    requires WellFormed(m) && slot < MAX_CLIENTS && idx < MAX_INFLIGHT && t in m.tasks
    requires m.sessions[slot].pending[idx].Pending? && Current(m.sessions[slot], sock)
    requires var e := m.sessions[slot].pending[idx];
      r == Put(m, t, Sending(slot, sock, idx, e.packet, e.len, e.sendCount + 1)).(tx := m.tx[slot := Some(t)])
    ensures var e, sess := m.sessions[slot].pending[idx], m.sessions[slot];
      WellFormed(r) && Enabled(r, SendDone(t, result)) &&
      Apply(r, SendDone(t, result)) ==
      Put(if result == SendOk then Counted(m, slot, idx) else m,
          t, Releasing(slot, if result == SendPartial then Close(sock) else Done)).(tx := m.tx[slot := Some(t)])
  {
  }

  /** A due entry within its attempts is sent again. */
  lemma Resend(s: State, t: nat, slot: nat, sock: int, now: int, idx: nat, result: SendResult)
    returns (steps: seq<Step>)
    requires AtEntry(s, t, slot, sock, now, idx) && IsDue(s.sessions[slot].pending[idx], now)
    requires s.sessions[slot].pending[idx].sendCount < MAX_SEND_ATTEMPTS
    ensures Feasible(s, steps) && Exec(s, steps) == Finish(RetryEntry(s, slot, idx, now, result), t)
  {
    var m := MarkRetry(s, slot, idx, now);
    var e := m.sessions[slot].pending[idx];
    var counted := if result == SendOk then Counted(m, slot, idx) else m;
    var end := if result == SendPartial then [CloseIfCurrent(t)] + [] else [];
    var r := TakeAndRun(s, t, slot, sock, now, idx, [SendDone(t, result)] + ([Release(t)] + end));
    assert r == Put(m, t, Sending(slot, sock, idx, e.packet, e.len, e.sendCount + 1)).(tx := m.tx[slot := Some(t)]);
    AfterSend(r, m, t, slot, sock, idx, result);
    var u := Apply(r, SendDone(t, result));
    AfterRelease(u, counted, t, slot, sock, result, end);
    ExecCons(r, SendDone(t, result), [Release(t)] + end);
    steps := [TakeTx(t)] + ([Run(t)] + ([SendDone(t, result)] + ([Release(t)] + end)));
  }

  /** Giving the lock back, and closing the session after a partial send. */
  lemma AfterRelease(u: State, counted: State, t: nat, slot: nat, sock: int, result: SendResult, end: seq<Step>)
    requires WellFormed(counted) && slot < MAX_CLIENTS && t in counted.tasks && counted.tx[slot] == None
    requires var next := if result == SendPartial then Close(sock) else Done;
      u == Put(counted, t, Releasing(slot, next)).(tx := counted.tx[slot := Some(t)])
    requires end == if result == SendPartial then [CloseIfCurrent(t)] + [] else []
    ensures WellFormed(u) && Feasible(u, [Release(t)] + end)
    ensures Exec(u, [Release(t)] + end) ==
      Finish(if result != SendPartial then counted
             else SetSession(counted, slot, CloseCurrent(counted.sessions[slot], sock)), t)
  {
    var v := Apply(u, Release(t));
    assert counted.tx[slot := Some(t)][slot := None] == counted.tx;
    if result == SendPartial {
      assert v == Put(counted, t, Closing(slot, sock));
      BackAgain(counted.tasks, t, Closing(slot, sock));
      ExecCons(v, CloseIfCurrent(t), []);
    } else {
      BackAgain(counted.tasks, t, Releasing(slot, Done));
      assert v == Finish(counted, t);
    }
    ExecCons(u, Release(t), end);
  }

  /** What the sequential account says of the entries from `idx` on. */
  function RetryEnd(s: State, t: nat, slot: nat, now: int, idx: nat, result: SendResult): State
    requires WellFormed(s) && slot < MAX_CLIENTS && idx <= MAX_INFLIGHT
  {
    match FindDue(s.sessions[slot].pending, now, idx)
    case None => Finish(s, t)
    case Some(i) => Finish(RetryEntry(s, slot, i, now, result), t)
  }

  /** From entry `idx` on, the call is a run of the step system that ends where the sequential account says. */
  lemma {:induction false} RetryFrom(s: State, t: nat, slot: nat, sock: int, now: int, idx: nat, result: SendResult)
    returns (steps: seq<Step>)
    requires AtEntry(s, t, slot, sock, now, idx)
    ensures Feasible(s, steps) && Exec(s, steps) == RetryEnd(s, t, slot, now, idx, result)
    decreases MAX_INFLIGHT - idx, 1
  {
    if IsDue(s.sessions[slot].pending[idx], now) {
      if s.sessions[slot].pending[idx].sendCount >= MAX_SEND_ATTEMPTS {
        steps := GiveUp(s, t, slot, sock, now, idx);
      } else {
        steps := Resend(s, t, slot, sock, now, idx, result);
      }
    } else {
      var rest := RetryLater(s, t, slot, sock, now, idx, result);
      Skip(s, t, slot, sock, now, idx, rest);
      steps := [TakeTx(t)] + ([Run(t)] + ([Release(t)] + rest));
    }
  }

  /** The state behind an entry that is passed over. */
  function PassedOver(s: State, t: nat, slot: nat, sock: int, now: int, idx: nat): State {
    if idx + 1 < MAX_INFLIGHT then Put(s, t, WantTx(slot, Retry(sock, now, idx + 1))) else Finish(s, t)
  }

  lemma {:induction false} RetryLater(s: State, t: nat, slot: nat, sock: int, now: int, idx: nat, result: SendResult)
    returns (rest: seq<Step>)
    requires AtEntry(s, t, slot, sock, now, idx) && !IsDue(s.sessions[slot].pending[idx], now)
    ensures var next := PassedOver(s, t, slot, sock, now, idx);
      WellFormed(next) && Feasible(next, rest) && Exec(next, rest) == RetryEnd(s, t, slot, now, idx, result)
    decreases MAX_INFLIGHT - idx, 0
  {
    rest := [];
    if idx + 1 < MAX_INFLIGHT {
      var next := Put(s, t, WantTx(slot, Retry(sock, now, idx + 1)));
      rest := RetryFrom(next, t, slot, sock, now, idx + 1, result);
      BackAgain(s.tasks, t, WantTx(slot, Retry(sock, now, idx + 1)));
      LaterEntry(s, next, t, slot, now, idx, result);
    }
  }

  lemma LaterEntry(s: State, next: State, t: nat, slot: nat, now: int, idx: nat, result: SendResult)
    requires WellFormed(s) && slot < MAX_CLIENTS && t in s.tasks && t in next.tasks
    requires next == s.(tasks := next.tasks) && next.tasks - {t} == s.tasks - {t}
    ensures Finish(next, t) == Finish(s, t)
    ensures forall i: nat :: i < MAX_INFLIGHT && s.sessions[slot].pending[i].Pending? ==>
      Finish(RetryEntry(next, slot, i, now, result), t) == Finish(RetryEntry(s, slot, i, now, result), t)
  {
  }

  /** The sequential account of a retry call on an open session is a run of the step system. */
  lemma RetryCallIsARun(s: State, t: nat, slot: nat, now: int, result: SendResult) returns (steps: seq<Step>)
    requires WellFormed(s) && slot < MAX_CLIENTS && t !in s.tasks && s.tx[slot] == None
    requires s.sessions[slot].sock >= 0 && Live(s.sessions[slot])
    ensures Feasible(s, steps) && Exec(s, steps) == RetryCall(s, slot, now, result)
  {
    var sock := s.sessions[slot].sock;
    var start := Put(s, t, WantTx(slot, Retry(sock, now, 0)));
    var rest := RetryFrom(start, t, slot, sock, now, 0, result);
    ExecCons(s, StartRetry(t, slot, sock, now), rest);
    assert start.tasks - {t} == s.tasks;
    StartedEntry(s, start, t, slot, now, result);
    steps := [StartRetry(t, slot, sock, now)] + rest;
  }

  lemma StartedEntry(s: State, start: State, t: nat, slot: nat, now: int, result: SendResult)
    requires WellFormed(s) && slot < MAX_CLIENTS && start == s.(tasks := start.tasks) && start.tasks - {t} == s.tasks
    ensures Finish(start, t) == s
    ensures forall i: nat :: i < MAX_INFLIGHT && s.sessions[slot].pending[i].Pending? ==>
      Finish(RetryEntry(start, slot, i, now, result), t) == RetryEntry(s, slot, i, now, result)
  {
  }
}
