/** Sockets and sessions: who may be writing to a socket number. */
module BrokerSockets {
  import opened Base
  import opened Broker
  import opened BrokerSteps
  import opened BrokerInvariant
  import opened BrokerTheorems
  import PublishCodec

  /** No two active sessions have the same open socket. */
  predicate SocksUnique(ss: seq<Session>) {
    forall i, j :: 0 <= i < j < |ss| && ss[i].active && ss[j].active && ss[i].sock >= 0 ==> ss[i].sock != ss[j].sock
  }

  /** An open socket of the new table was open in the same slot before. */
  predicate SocksKept(ss: seq<Session>, rs: seq<Session>) {
    |ss| == |rs| && forall k :: 0 <= k < |ss| && rs[k].active && rs[k].sock >= 0 ==>
      ss[k].active && ss[k].sock == rs[k].sock
  }

  lemma KeptUnique(ss: seq<Session>, rs: seq<Session>)
    requires SocksUnique(ss) && SocksKept(ss, rs)
    ensures SocksUnique(rs)
  {
  }

  lemma RetryKeepsSocks(s: State, t: nat, slot: nat, job: Job)
    requires WellFormed(s) && slot < MAX_CLIENTS && job.Retry? && IndexOk(job)
    ensures SocksKept(s.sessions, RetryStep(s, t, slot, job).sessions)
  {
  }

  lemma AckKeepsSocks(s: State, slot: nat, pid: nat)
    requires WellFormed(s) && slot < MAX_CLIENTS
    ensures SocksKept(s.sessions, AckRegion(s, slot, pid).sessions)
  {
  }

  lemma DrainKeepsSocks(s: State, t: nat, slot: nat)
    requires WellFormed(s) && slot < MAX_CLIENTS
    ensures SocksKept(s.sessions, DrainStep(s, t, slot).sessions)
  {
    ClearKeepsSocks(s, slot, 0);
  }

  lemma RunKeepsSocks(s: State, t: nat)
    requires WellFormed(s) && Enabled(s, Run(t))
    ensures SocksKept(s.sessions, RunStep(s, t).sessions)
  {
    var HasTx(slot, job) := s.tasks[t];
    match job
    case SendFirst(_, _, _, _) =>
    case Retry(_, _, _) => RetryKeepsSocks(s, t, slot, job);
    case Ack(pid) => AckKeepsSocks(s, slot, pid);
    case Plain(_, _) =>
    case Free_ => DrainKeepsSocks(s, t, slot);
  }

  lemma {:induction false} ClearKeepsSocks(s: State, slot: nat, i: nat)
    requires WellFormed(s) && slot < MAX_CLIENTS && i <= MAX_INFLIGHT
    ensures SocksKept(s.sessions, ClearFrom(s, slot, i).sessions)
    decreases MAX_INFLIGHT - i
  {
    if i < MAX_INFLIGHT { ClearKeepsSocks(FreeEntry(s, slot, i), slot, i + 1); }
  }

  lemma ConnectKeepsSocks(ss: seq<Session>, slot: nat, id: string)
    requires slot < |ss| && ConnectRegion(ss, slot, id).Some?
    ensures SocksKept(ss, ConnectRegion(ss, slot, id).value)
  {
  }

  lemma AcceptKeepsSocks(s: State, now: int)
    requires WellFormed(s)
    ensures SocksKept(s.sessions, AllocRegion(s, now).sessions)
  {
  }

  lemma ReserveKeepsSocks(s: State, t: nat, now: int)
    requires WellFormed(s) && Enabled(s, Reserve(t, now))
    ensures SocksKept(s.sessions, ReserveStep(s, t, now).sessions)
  {
  }

  lemma SendDoneKeepsSocks(s: State, t: nat, result: SendResult)
    requires WellFormed(s) && Enabled(s, SendDone(t, result))
    ensures SocksKept(s.sessions, SendDoneStep(s, t, result).sessions)
  {
  }

  /** Only a freshly accepted session opens a socket. */
  lemma StepKeepsSocks(s: State, step: Step)
    requires WellFormed(s) && Enabled(s, step) && !step.SetSock?
    ensures SocksKept(s.sessions, Apply(s, step).sessions)
  {
    match step
    case Run(t) => RunKeepsSocks(s, t);
    case Connect(slot, id) =>
      if ConnectRegion(s.sessions, slot, id).Some? { ConnectKeepsSocks(s.sessions, slot, id); }
    case Accept(now) => AcceptKeepsSocks(s, now);
    case Reserve(t, now) => ReserveKeepsSocks(s, t, now);
    case SendDone(t, result) => SendDoneKeepsSocks(s, t, result);
    case _ =>
  }

  lemma StepSocks(s: State, step: Step)
    requires WellFormed(s) && Enabled(s, step) && SocksUnique(s.sessions)
    ensures SocksUnique(Apply(s, step).sessions)
  {
    if !step.SetSock? {
      StepKeepsSocks(s, step);
      KeptUnique(s.sessions, Apply(s, step).sessions);
    }
  }

  lemma {:induction false} RunSocks(s: State, steps: seq<Step>)
    requires WellFormed(s) && Feasible(s, steps) && SocksUnique(s.sessions)
    ensures SocksUnique(Exec(s, steps).sessions)
    decreases |steps|
  {
    if steps != [] {
      StepSocks(s, steps[0]);
      RunSocks(Apply(s, steps[0]), steps[1..]);
    }
  }

  lemma ReachableSocks(s: State)
    requires Reachable(s)
    ensures SocksUnique(s.sessions)
  {
    var steps :| Feasible(Init(), steps) && s == Exec(Init(), steps);
    RunSocks(Init(), steps);
  }

  /** The slot and socket a thread is writing to, if it is. */
  predicate WritesTo(task: Task, slot: nat, sock: int) {
    (task.Sending? || task.Transmitting?) && task.slot == slot && task.sock == sock
  }

  /**
   Of all threads writing to one socket number, at most one writes for the session that has that
   socket open.
   */
  lemma OneCurrentWriter(s: State, t: nat, u: nat, a: nat, b: nat, sock: int)
    requires Reachable(s) && WellFormed(s) && t in s.tasks && u in s.tasks && sock >= 0
    requires a < MAX_CLIENTS && b < MAX_CLIENTS && WritesTo(s.tasks[t], a, sock) && WritesTo(s.tasks[u], b, sock)
    requires Current(s.sessions[a], sock) && Current(s.sessions[b], sock)
    ensures t == u
  {
    ReachableSocks(s);
    if a == b {
      OneTransmissionPerSlot(s, t, u);
    }
  }

  // ---------------------------------------------------------------- two writers of one number

  /** Thread `t` writes to the socket its session has open, and slot `b` was accepted but has none yet. */
  predicate SendingBeside(s: State, t: nat, a: nat, b: nat, sock: int)
    requires WellFormed(s)
  {
    && t in s.tasks && s.tasks[t].Sending? && WritesTo(s.tasks[t], a, sock) && sock >= 0
    && a < MAX_CLIENTS && b < MAX_CLIENTS && a != b && Current(s.sessions[a], sock)
    && s.sessions[b].owner == Accepted && !s.sessions[b].closing && s.tx[b].None?
  }

  /**
   The session of `a` is told to close, its number is handed to the session of `b`, and thread `u` begins to
   write there.
   */
  function Takeover(a: nat, b: nat, sock: int, u: nat): seq<Step> {
    [CloseSlot(a, false)] + ([SetSock(b, sock)] + ([StartPlain(u, b, sock, true)] + ([TakeTx(u)] + ([Run(u)] + []))))
  }

  /** Once its session is told to close, a socket number is free to be handed out again. */
  lemma NumberIsFree(ss: seq<Session>, a: nat, sock: int)
    requires a < |ss| && SocksUnique(ss) && Current(ss[a], sock) && sock >= 0
    ensures Unheld(ss[a := PrepareClose(ss[a])], sock)
  {
  }

  lemma NumberMoves(s: State, t: nat, a: nat, b: nat, sock: int) returns (r: State)
    requires Inv(s) && SocksUnique(s.sessions) && SendingBeside(s, t, a, b, sock)
    ensures Enabled(s, CloseSlot(a, false)) && Enabled(Apply(s, CloseSlot(a, false)), SetSock(b, sock))
    ensures r == Apply(Apply(s, CloseSlot(a, false)), SetSock(b, sock))
    ensures r.tasks == s.tasks && r.tx == s.tx && !Current(r.sessions[a], sock) && Current(r.sessions[b], sock)
  {
    assert SlotOk(s.sessions[b]);
    NumberIsFree(s.sessions, a, sock);
    r := Apply(Apply(s, CloseSlot(a, false)), SetSock(b, sock));
  }

  lemma PlainSendStarts(s: State, u: nat, b: nat, sock: int) returns (r: State)
    requires WellFormed(s) && u !in s.tasks && b < MAX_CLIENTS && s.tx[b].None? && sock >= 0
    ensures var steps := [StartPlain(u, b, sock, true)] + ([TakeTx(u)] + ([Run(u)] + []));
      Feasible(s, steps) && Exec(s, steps) == r
    ensures r.sessions == s.sessions && r.tasks == s.tasks[u := Transmitting(b, sock, true)]
  {
    var started := Apply(s, StartPlain(u, b, sock, true));
    var taken := Apply(started, TakeTx(u));
    r := Apply(taken, Run(u));
    ExecCons(taken, Run(u), []);
    ExecCons(started, TakeTx(u), [Run(u)] + []);
    ExecCons(s, StartPlain(u, b, sock, true), [TakeTx(u)] + ([Run(u)] + []));
  }

  /**
   A writer whose session was closed meanwhile goes on writing to the number after it was handed to another
   session and a thread of that session writes to it too.
   */
  lemma StaleWriter(s: State, t: nat, a: nat, b: nat, sock: int, u: nat)
    requires Reachable(s) && WellFormed(s) && SendingBeside(s, t, a, b, sock) && u !in s.tasks
    ensures Feasible(s, Takeover(a, b, sock, u))
    ensures var r := Exec(s, Takeover(a, b, sock, u));
      && Reachable(r) && t != u && t in r.tasks && u in r.tasks
      && WritesTo(r.tasks[t], a, sock) && WritesTo(r.tasks[u], b, sock)
      && !Current(r.sessions[a], sock) && Current(r.sessions[b], sock)
  {
    ReachableInv(s);
    ReachableSocks(s);
    var closed := Apply(s, CloseSlot(a, false));
    var moved := NumberMoves(s, t, a, b, sock);
    var r := PlainSendStarts(moved, u, b, sock);
    var sending := [StartPlain(u, b, sock, true)] + ([TakeTx(u)] + ([Run(u)] + []));
    ExecCons(closed, SetSock(b, sock), sending);
    ExecCons(s, CloseSlot(a, false), [SetSock(b, sock)] + sending);
    Continued(s, Takeover(a, b, sock, u));
  }

  // ---------------------------------------------------------------- and how to get there

  lemma NextState(s: State, step: Step) returns (r: State)
    requires Reachable(s) && WellFormed(s) && Enabled(s, step)
    ensures r == Apply(s, step) && Reachable(r) && WellFormed(r)
  {
    r := Apply(s, step);
    ExecCons(s, step, []);
    Continued(s, [step] + []);
  }

  lemma FirstVacant(ss: seq<Session>, i: nat)
    requires i < |ss| && Vacant(ss[i]) && forall k :: 0 <= k < i ==> !Vacant(ss[k])
    ensures FindVacant(ss, 0) == Some(i)
  {
  }

  /** An accept takes the first vacant slot; slots that are not retired stay as they are. */
  lemma AcceptTakes(s: State, i: nat)
    requires WellFormed(s) && i < MAX_CLIENTS && Vacant(s.sessions[i])
    requires forall k :: 0 <= k < MAX_CLIENTS ==> !s.sessions[k].retiring && (k < i ==> s.sessions[k].active)
    ensures AllocRegion(s, 0) == s.(sessions := s.sessions[i := FRESH], clientCount := s.clientCount + 1)
  {
    assert Reap(s.sessions, 0) == s.sessions;
    FirstVacant(s.sessions, i);
  }

  const SERVED := FRESH.(sock := 5, owner := Serving)

  /** Two accepted clients, the first of which serves socket 5. */
  lemma TwoClients() returns (s: State)
    ensures Reachable(s) && WellFormed(s) && s.sessions[0] == SERVED && s.sessions[1] == FRESH
    ensures s.tasks == map[] && s.heap == map[] && s.pendingBytes == 0 && s.tx == Init().tx
  {
    assert Feasible(Init(), []);
    assert Exec(Init(), []) == Init();
    AcceptTakes(Init(), 0);
    var one := NextState(Init(), Accept(0));
    var open := NextState(one, SetSock(0, 5));
    AcceptTakes(open, 1);
    s := NextState(open, Accept(0));
  }

  /** The shortest message. */
  const HELLO := PublishCodec.Message([], [], 1, false, 1)

  lemma HelloIsSendable()
    ensures PublishCodec.Sendable(HELLO)
  {
    ShortIsSendable(HELLO);
  }

  lemma ShortIsSendable(m: PublishCodec.Message)
    requires PublishCodec.Encodable(m) && m.qos == 1 && m.pid != 0 && |m.topic| + |m.payload| < 1000
    ensures PublishCodec.Sendable(m)
  {
    PublishCodec.BodyLength(m);
  }

  /** Thread 0 waits to send a packet it has put into the in-flight table of slot 0. */
  predicate FirstIsReserved(s: State)
    requires WellFormed(s)
  {
    && s.tasks.Keys == {0} && s.tasks[0].WantTx? && s.tasks[0].slot == 0 && Current(s.sessions[0], 5)
    && var job := s.tasks[0].job;
       && job.SendFirst? && job.sock == 5 && job.idx < MAX_INFLIGHT
       && var e := s.sessions[0].pending[job.idx]; e.Pending? && e.packet == job.packet
  }

  lemma FirstReserved(s: State) returns (r: State)
    requires Reachable(s) && WellFormed(s) && s.sessions[0] == SERVED && s.pendingBytes == 0
    requires s.tasks.Keys == {0} && s.tasks[0].Built? && s.tasks[0].slot == 0 && s.tasks[0].sock == 5
    requires s.tasks[0].packet in s.heap && |s.heap[s.tasks[0].packet].bytes| <= MAX_PENDING_BYTES
    ensures Reachable(r) && WellFormed(r) && r.sessions[1..] == s.sessions[1..] && r.tx == s.tx && FirstIsReserved(r)
  {
    assert SERVED.pending[0] == Free;
    r := NextState(s, Reserve(0, 0));
  }

  lemma FirstIsSent(s: State) returns (r: State)
    requires Reachable(s) && WellFormed(s) && FirstIsReserved(s) && s.tx[0].None?
    ensures Reachable(r) && WellFormed(r) && r.sessions[1..] == s.sessions[1..] && r.tx[1..] == s.tx[1..]
    ensures r.tasks.Keys == {0} && r.tasks[0].Sending? && WritesTo(r.tasks[0], 0, 5) && Current(r.sessions[0], 5)
  {
    var taken := NextState(s, TakeTx(0));
    r := NextState(taken, Run(0));
  }

  lemma SendStarts(s: State) returns (r: State)
    requires Reachable(s) && WellFormed(s) && s.sessions[0] == SERVED && s.tx[0].None?
    requires s.tasks == map[] && s.pendingBytes == 0
    ensures Reachable(r) && WellFormed(r) && r.sessions[1..] == s.sessions[1..] && r.tx[1..] == s.tx[1..]
    ensures r.tasks.Keys == {0} && r.tasks[0].Sending? && WritesTo(r.tasks[0], 0, 5) && Current(r.sessions[0], 5)
  {
    HelloIsSendable();
    var built := NextState(s, Build(0, 0, 5, HELLO));
    var held := FirstReserved(built);
    r := FirstIsSent(held);
  }

  /** So, from the cold start, the broker can come to have two threads writing to one number. */
  lemma TwoWriters() returns (s: State)
    ensures Reachable(s) && WellFormed(s) && 0 in s.tasks && 1 in s.tasks
    ensures WritesTo(s.tasks[0], 0, 5) && WritesTo(s.tasks[1], 1, 5)
  {
    var clients := TwoClients();
    var sending := SendStarts(clients);
    assert sending.sessions[1] == sending.sessions[1..][0] == FRESH;
    assert sending.tx[1] == sending.tx[1..][0] == None;
    StaleWriter(sending, 0, 0, 1, 5, 1);
    s := Exec(sending, Takeover(0, 1, 5, 1));
  }
}
