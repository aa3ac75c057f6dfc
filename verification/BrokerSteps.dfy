/**
 The broker as a step system. Every region under the global lock is one atomic step,
 taking and giving a `tx_lock` are steps, and `send_all` lasts from the step that
 validated the session to a `SendDone` step with an arbitrary outcome, so any number of
 steps of other tasks may fall in between.
 */
module BrokerSteps {
  import opened Base
  import opened Broker
  import PublishCodec

  datatype SendResult = SendOk | SendFailed | SendPartial

  datatype Step =
    | Accept(now: int)
    | SetSock(slot: nat, sock: int)
    | Connect(slot: nat, id: string)
    | SetSubs(slot: nat, subs: seq<Subscription>)
    | CloseSlot(slot: nat, evict: bool)
    | Build(t: nat, slot: nat, sock: int, message: PublishCodec.Message)
    | Reserve(t: nat, now: int)
    | StartAck(t: nat, slot: nat, pid: nat)
    | StartRetry(t: nat, slot: nat, sock: int, now: int)
    | StartPlain(t: nat, slot: nat, sock: int, control: bool)
    | StartFree(t: nat, slot: nat)
    | TakeTx(t: nat)
    | Run(t: nat)
    | SendDone(t: nat, result: SendResult)
    | Release(t: nat)
    | CloseIfCurrent(t: nat)
    | Deactivate(t: nat, now: int)

  predicate Idle(s: State, t: nat) {
    t !in s.tasks
  }

  predicate At(s: State, t: nat) {
    t in s.tasks
  }

  /** No active session has the socket open, so `accept` may hand it out. */
  predicate Unheld(ss: seq<Session>, sock: int) {
    forall k :: 0 <= k < |ss| && ss[k].active ==> ss[k].sock != sock
  }

  /** When a step can be taken. A task that starts has no other operation under way. */
  predicate Enabled(s: State, step: Step)
    requires WellFormed(s)
  {
    match step
    case Accept(_) => true
    case SetSock(slot, sock) =>
      && slot < MAX_CLIENTS && s.sessions[slot].owner == Accepted && sock >= 0
      && Unheld(s.sessions, sock)
    case Connect(slot, _) => slot < MAX_CLIENTS && s.sessions[slot].owner == Serving
    case SetSubs(slot, _) => slot < MAX_CLIENTS && s.sessions[slot].owner == Serving
    case CloseSlot(slot, _) => slot < MAX_CLIENTS && s.sessions[slot].active
    case Build(t, _, sock, m) => Idle(s, t) && sock >= 0 && PublishCodec.Sendable(m)
    case Reserve(t, _) => At(s, t) && s.tasks[t].Built? && s.tasks[t].packet in s.heap
    case StartAck(t, slot, _) => Idle(s, t) && slot < MAX_CLIENTS
    case StartRetry(t, slot, sock, _) => Idle(s, t) && slot < MAX_CLIENTS && sock >= 0
    case StartPlain(t, slot, sock, _) => Idle(s, t) && slot < MAX_CLIENTS && sock >= 0
    case StartFree(t, slot) =>
      Idle(s, t) && slot < MAX_CLIENTS && (s.sessions[slot].owner == Accepted || s.sessions[slot].owner == Serving)
    case TakeTx(t) =>
      At(s, t) && s.tasks[t].WantTx? && s.tasks[t].slot < MAX_CLIENTS && s.tx[s.tasks[t].slot].None?
    case Run(t) => At(s, t) && s.tasks[t].HasTx? && s.tasks[t].slot < MAX_CLIENTS && IndexOk(s.tasks[t].job)
    case SendDone(t, _) =>
      && At(s, t)
      && ((s.tasks[t].Sending? && s.tasks[t].slot < MAX_CLIENTS && s.tasks[t].idx < MAX_INFLIGHT) ||
          s.tasks[t].Transmitting?)
    case Release(t) => At(s, t) && s.tasks[t].Releasing? && s.tasks[t].slot < MAX_CLIENTS
    case CloseIfCurrent(t) => At(s, t) && s.tasks[t].Closing? && s.tasks[t].slot < MAX_CLIENTS
    case Deactivate(t, _) => At(s, t) && s.tasks[t].Deactivating? && s.tasks[t].slot < MAX_CLIENTS
  }

  /** Entry indices a task carries lie inside the table. */
  predicate IndexOk(job: Job) {
    (job.SendFirst? || job.Retry?) ==> job.idx < MAX_INFLIGHT
  }

  function Put(s: State, t: nat, task: Task): State {
    s.(tasks := s.tasks[t := task])
  }

  function Finish(s: State, t: nat): State {
    s.(tasks := s.tasks - {t})
  }

  function SetSession(s: State, slot: nat, sess: Session): State
    requires slot < |s.sessions|
  {
    s.(sessions := s.sessions[slot := sess])
  }

  /** The packet is allocated outside any lock. */
  function BuildStep(s: State, t: nat, slot: nat, sock: int, pid: nat, bytes: seq<byte>): State {
    Put(s, t, Built(slot, sock, pid, s.nextPacket))
      .(heap := s.heap[s.nextPacket := Buffer(bytes, bytes, AtTask(t))], nextPacket := s.nextPacket + 1)
  }

  /** First locked region of a QoS 1 send: reserve an entry, or free the packet and give up. */
  function ReserveStep(s: State, t: nat, now: int): (r: State)
    requires WellFormed(s) && At(s, t) && s.tasks[t].Built? && s.tasks[t].packet in s.heap
    ensures WellFormed(r)
  {
    var Built(slot, sock, pid, packet) := s.tasks[t];
    var len := |s.heap[packet].bytes|;
    match ReserveChoice(s, slot, sock, len)
    case None => Finish(s, t).(heap := s.heap - {packet})
    case Some(idx) =>
      var sess := s.sessions[slot];
      var entry := Pending(pid, packet, len, now, 0);
      Put(SetSession(s, slot, sess.(pending := sess.pending[idx := entry])), t,
          WantTx(slot, SendFirst(sock, idx, packet, len)))
        .(pendingBytes := s.pendingBytes + len,
          heap := s.heap[packet := s.heap[packet].(holder := AtEntry(slot, idx))])
  }

  /** Second locked region of a QoS 1 send: the packet must still sit in the reserved entry. */
  function FirstSendStep(s: State, t: nat, slot: nat, job: Job): State
    requires WellFormed(s) && slot < MAX_CLIENTS && job.SendFirst? && IndexOk(job)
  {
    var e := s.sessions[slot].pending[job.idx];
    if Current(s.sessions[slot], job.sock) && e.Pending? && e.packet == job.packet
    then Put(s, t, Sending(slot, job.sock, job.idx, job.packet, job.len, 1))
    else Put(s, t, Releasing(slot, Done))
  }

  /** Flag the packet of a due entry as a duplicate and stamp the attempt. */
  function MarkRetry(s: State, slot: nat, idx: nat, now: int): (r: State)
    requires WellFormed(s) && slot < MAX_CLIENTS && idx < MAX_INFLIGHT
    requires s.sessions[slot].pending[idx].Pending?
    ensures WellFormed(r)
  {
    var sess := s.sessions[slot];
    var e := sess.pending[idx];
    SetSession(s, slot, sess.(pending := sess.pending[idx := e.(lastSendMs := now)]))
      .(heap := if e.packet in s.heap && |s.heap[e.packet].bytes| > 0
                then var b := s.heap[e.packet];
                     s.heap[e.packet := b.(bytes := b.bytes[0 := SetDup(b.bytes[0])])]
                else s.heap)
  }

  /** What follows for a due entry: another transmission, or the end of the session. */
  function Attempt(e: Entry, slot: nat, job: Job): Task
    requires e.Pending? && job.Retry?
  {
    if e.sendCount >= MAX_SEND_ATTEMPTS then Releasing(slot, Close(job.sock))
    else Sending(slot, job.sock, job.idx, e.packet, e.len, e.sendCount + 1)
  }

  /** The locked region `mqtt_qos1_retry_due` runs for one entry. */
  function RetryStep(s: State, t: nat, slot: nat, job: Job): (r: State)
    requires WellFormed(s) && slot < MAX_CLIENTS && job.Retry? && IndexOk(job)
    ensures WellFormed(r)
  {
    var e := s.sessions[slot].pending[job.idx];
    if !Current(s.sessions[slot], job.sock) || !IsDue(e, job.now)
    then Put(s, t, Releasing(slot, NextEntry(job.sock, job.now, job.idx + 1)))
    else
      Put(MarkRetry(s, slot, job.idx, job.now), t, Attempt(e, slot, job))
  }

  /** First locked region of `free_session`. */
  function DrainStep(s: State, t: nat, slot: nat): (r: State)
    requires WellFormed(s) && slot < MAX_CLIENTS
    ensures WellFormed(r)
  {
    var c := ClearFrom(s, slot, 0);
    var sess := c.sessions[slot];
    Put(SetSession(c, slot,
                   sess.(sock := -1, closing := true, suppressWill := true, subs := [], owner := Drained(t))),
        t, Releasing(slot, Deactivate_))
  }

  function RunStep(s: State, t: nat): (r: State)
    requires WellFormed(s) && At(s, t) && s.tasks[t].HasTx? && s.tasks[t].slot < MAX_CLIENTS
    requires IndexOk(s.tasks[t].job)
    ensures WellFormed(r)
  {
    var HasTx(slot, job) := s.tasks[t];
    match job
    case SendFirst(_, _, _, _) => FirstSendStep(s, t, slot, job)
    case Retry(_, _, _) => RetryStep(s, t, slot, job)
    case Ack(pid) => Put(AckRegion(s, slot, pid), t, Releasing(slot, Done))
    case Plain(sock, control) =>
      if control || Current(s.sessions[slot], sock)
      then Put(s, t, Transmitting(slot, sock, control))
      else Put(s, t, Releasing(slot, Done))
    case Free_ => DrainStep(s, t, slot)
  }

  /** The end of `send_all` with the locked region that counts a success. */
  function SendDoneStep(s: State, t: nat, result: SendResult): (r: State)
    requires WellFormed(s) && At(s, t)
    requires s.tasks[t].Transmitting? ||
             (s.tasks[t].Sending? && s.tasks[t].slot < MAX_CLIENTS && s.tasks[t].idx < MAX_INFLIGHT)
    ensures WellFormed(r)
  {
    match s.tasks[t]
    case Transmitting(slot, sock, control) =>
      Put(s, t, Releasing(slot, if result == SendOk || control then Done else Close(sock)))
    case Sending(slot, sock, idx, packet, _, count) =>
      var sess := s.sessions[slot];
      var e := sess.pending[idx];
      var s' := if result == SendOk && Current(sess, sock) && e.Pending? && e.packet == packet
                then SetSession(s, slot, sess.(pending := sess.pending[idx := e.(sendCount := count)]))
                else s;
      Put(s', t, Releasing(slot, if result == SendPartial then Close(sock) else Done))
  }

  function ReleaseStep(s: State, t: nat): (r: State)
    requires WellFormed(s) && At(s, t) && s.tasks[t].Releasing? && s.tasks[t].slot < MAX_CLIENTS
    ensures WellFormed(r)
  {
    var Releasing(slot, next) := s.tasks[t];
    var s' := s.(tx := s.tx[slot := None]);
    match next
    case Done => Finish(s', t)
    case NextEntry(sock, now, idx) =>
      if idx < MAX_INFLIGHT then Put(s', t, WantTx(slot, Retry(sock, now, idx))) else Finish(s', t)
    case Close(sock) => Put(s', t, Closing(slot, sock))
    case Deactivate_ => Put(s', t, Deactivating(slot))
  }

  /** Second locked region of `free_session`. */
  function DeactivateStep(s: State, t: nat, now: int): (r: State)
    requires WellFormed(s) && At(s, t) && s.tasks[t].Deactivating? && s.tasks[t].slot < MAX_CLIENTS
    ensures WellFormed(r)
  {
    var slot := s.tasks[t].slot;
    var sess := s.sessions[slot].(active := false, closing := false, retiring := true,
                                  reusableAfterMs := now + REUSE_DELAY_MS, owner := Unowned);
    Finish(SetSession(s, slot, sess), t).(clientCount := if s.clientCount > 0 then s.clientCount - 1 else 0)
  }

  function Apply(s: State, step: Step): (r: State)
    requires WellFormed(s) && Enabled(s, step)
    ensures WellFormed(r)
  {
    match step
    case Accept(now) => AllocRegion(s, now)
    case SetSock(slot, sock) => SetSession(s, slot, s.sessions[slot].(sock := sock, owner := Serving))
    case Connect(slot, id) =>
      var ss := ConnectRegion(s.sessions, slot, id);
      if ss.Some? then s.(sessions := ss.value) else s
    case SetSubs(slot, subs) => SetSession(s, slot, s.sessions[slot].(subs := subs))
    case CloseSlot(slot, evict) =>
      SetSession(s, slot, if evict then EvictedBy(s.sessions[slot]) else PrepareClose(s.sessions[slot]))
    case Build(t, slot, sock, m) => BuildStep(s, t, slot, sock, m.pid, PublishCodec.Wire(m))
    case Reserve(t, now) => ReserveStep(s, t, now)
    case StartAck(t, slot, pid) => Put(s, t, WantTx(slot, Ack(pid)))
    case StartRetry(t, slot, sock, now) => Put(s, t, WantTx(slot, Retry(sock, now, 0)))
    case StartPlain(t, slot, sock, control) => Put(s, t, WantTx(slot, Plain(sock, control)))
    case StartFree(t, slot) =>
      Put(SetSession(s, slot, s.sessions[slot].(owner := Freeing(t))), t, WantTx(slot, Free_))
    case TakeTx(t) => Put(s, t, HasTx(s.tasks[t].slot, s.tasks[t].job)).(tx := s.tx[s.tasks[t].slot := Some(t)])
    case Run(t) => RunStep(s, t)
    case SendDone(t, result) => SendDoneStep(s, t, result)
    case Release(t) => ReleaseStep(s, t)
    case CloseIfCurrent(t) =>
      var Closing(slot, sock) := s.tasks[t];
      Finish(SetSession(s, slot, CloseCurrent(s.sessions[slot], sock)), t)
    case Deactivate(t, now) => DeactivateStep(s, t, now)
  }

  /** Every step of the sequence can be taken in turn from `s`. */
  predicate Feasible(s: State, steps: seq<Step>)
    requires WellFormed(s)
    decreases |steps|
  {
    steps == [] || (Enabled(s, steps[0]) && Feasible(Apply(s, steps[0]), steps[1..]))
  }

  function Exec(s: State, steps: seq<Step>): (r: State)
    requires WellFormed(s) && Feasible(s, steps)
    ensures WellFormed(r)
    decreases |steps|
  {
    if steps == [] then s else Exec(Apply(s, steps[0]), steps[1..])
  }

  /** One step in front of a run. */
  lemma ExecCons(s: State, step: Step, rest: seq<Step>)
    requires WellFormed(s) && Enabled(s, step) && Feasible(Apply(s, step), rest)
    ensures Feasible(s, [step] + rest) && Exec(s, [step] + rest) == Exec(Apply(s, step), rest)
  {
    assert ([step] + rest)[1..] == rest;
  }

  lemma HeadOfBoth(a: seq<Step>, b: seq<Step>)
    requires a != []
    ensures [a[0]] + (a[1..] + b) == a + b
  {
    assert a == [a[0]] + a[1..];
  }

  /** One run after another. */
  lemma {:induction false} ExecAppend(s: State, a: seq<Step>, b: seq<Step>)
    requires WellFormed(s) && Feasible(s, a) && Feasible(Exec(s, a), b)
    ensures Feasible(s, a + b) && Exec(s, a + b) == Exec(Exec(s, a), b)
    decreases |a|
  {
    if a == [] {
      assert a + b == b;
    } else {
      ExecAppend(Apply(s, a[0]), a[1..], b);
      ExecCons(s, a[0], a[1..] + b);
      HeadOfBoth(a, b);
    }
  }
}
