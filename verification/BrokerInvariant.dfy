/**
 What every step of the broker keeps, and what follows for whole runs: packet buffers
 outlive every transmission, the byte budget is exact, and client identities are unique.
 */
module BrokerInvariant {
  import opened Base
  import opened Broker
  import opened BrokerSteps
  import PublishCodec

  /** The budget counter is the sum over all entries in use and stays inside its limit. */
  predicate BudgetOk(ss: seq<Session>, pendingBytes: nat) {
    pendingBytes == Sum(ss, SessionBytes) && pendingBytes <= MAX_PENDING_BYTES
  }

  predicate EntryOk(e: Entry, heap: map<nat, Buffer>, slot: nat, i: nat) {
    e.Pending? ==>
      && e.packet in heap
      && heap[e.packet].holder == AtEntry(slot, i)
      && e.len == |heap[e.packet].bytes|
      && e.pid != 0
      && e.sendCount <= MAX_SEND_ATTEMPTS
  }

  predicate EntriesOk(ss: seq<Session>, heap: map<nat, Buffer>)
    requires Shaped(ss)
  {
    forall slot: nat, i: nat :: slot < MAX_CLIENTS && i < MAX_INFLIGHT ==>
      EntryOk(ss[slot].pending[i], heap, slot, i)
  }

  /** An allocated packet is held by exactly the entry or task its history names. */
  predicate BufferOk(p: nat, b: Buffer, ss: seq<Session>, nextPacket: nat, tasks: map<nat, Task>)
    requires Shaped(ss)
  {
    && p < nextPacket
    && |b.bytes| > 0
    && match b.holder {
         case AtTask(t) => t in tasks && tasks[t].Built? && tasks[t].packet == p
         case AtEntry(slot, i) =>
           && slot < MAX_CLIENTS && i < MAX_INFLIGHT
           && ss[slot].pending[i].Pending? && ss[slot].pending[i].packet == p
       }
  }

  predicate HeapOk(heap: map<nat, Buffer>, ss: seq<Session>, nextPacket: nat, tasks: map<nat, Task>)
    requires Shaped(ss)
  {
    forall p :: p in heap ==> BufferOk(p, heap[p], ss, nextPacket, tasks)
  }

  predicate NothingPending(p: seq<Entry>) {
    forall i :: 0 <= i < |p| ==> p[i] == Free
  }

  predicate SlotOk(sess: Session) {
    && (sess.active <==> !sess.owner.Unowned?)
    && (sess.active ==> !sess.retiring)
    && (!sess.active || sess.owner.Drained? ==> NothingPending(sess.pending))
    && (sess.owner.Drained? ==> sess.closing && sess.sock == -1)
  }

  predicate SlotsOk(ss: seq<Session>) {
    forall slot :: 0 <= slot < |ss| ==> SlotOk(ss[slot])
  }

  /** The slot whose `tx_lock` a task holds. */
  function Held(task: Task): Option<nat> {
    match task
    case HasTx(slot, _) => Some(slot)
    case Sending(slot, _, _, _, _, _) => Some(slot)
    case Transmitting(slot, _, _) => Some(slot)
    case Releasing(slot, _) => Some(slot)
    case _ => None
  }

  predicate LocksOk(tx: seq<Option<nat>>, tasks: map<nat, Task>) {
    && (forall slot :: 0 <= slot < |tx| && tx[slot].Some? ==>
          tx[slot].value in tasks && Held(tasks[tx[slot].value]) == Some(slot))
    && (forall t :: t in tasks && Held(tasks[t]).Some? ==>
          Held(tasks[t]).value < |tx| && tx[Held(tasks[t]).value] == Some(t))
  }

  /** A validated transmission: its packet sits in its entry of a session that is not being drained. */
  predicate SendingOk(ss: seq<Session>, slot: nat, idx: nat, packet: nat, len: nat)
    requires Shaped(ss)
  {
    && slot < MAX_CLIENTS && idx < MAX_INFLIGHT
    && ss[slot].active && !ss[slot].owner.Drained?
    && ss[slot].pending[idx].Pending?
    && ss[slot].pending[idx].packet == packet && ss[slot].pending[idx].len == len
  }

  /** A reserved packet that is still allocated still sits where it was put, with its length. */
  predicate ReservedOk(heap: map<nat, Buffer>, nextPacket: nat, slot: nat, idx: nat, packet: nat, len: nat) {
    && packet < nextPacket
    && (packet in heap ==> |heap[packet].bytes| == len && heap[packet].holder == AtEntry(slot, idx))
  }

  predicate JobOk(t: nat, slot: nat, job: Job, ss: seq<Session>, heap: map<nat, Buffer>, nextPacket: nat)
    requires Shaped(ss)
  {
    && slot < MAX_CLIENTS
    && IndexOk(job)
    && (job.Free_? ==> ss[slot].owner == Freeing(t))
    && (job.SendFirst? ==> ReservedOk(heap, nextPacket, slot, job.idx, job.packet, job.len))
  }

  predicate TaskOk(t: nat, task: Task, ss: seq<Session>, heap: map<nat, Buffer>, nextPacket: nat)
    requires Shaped(ss)
  {
    match task
    case Built(_, _, pid, packet) => packet in heap && heap[packet].holder == AtTask(t) && pid != 0
    case WantTx(slot, job) => JobOk(t, slot, job, ss, heap, nextPacket)
    case HasTx(slot, job) => JobOk(t, slot, job, ss, heap, nextPacket)
    case Sending(slot, _, idx, packet, len, count) =>
      SendingOk(ss, slot, idx, packet, len) && 1 <= count <= MAX_SEND_ATTEMPTS
    case Transmitting(_, _, _) => true
    case Releasing(slot, next) =>
      next.Deactivate_? ==> slot < MAX_CLIENTS && ss[slot].owner == Drained(t)
    case Closing(slot, _) => slot < MAX_CLIENTS
    case Deactivating(slot) => slot < MAX_CLIENTS && ss[slot].owner == Drained(t)
  }

  predicate TasksOk(tasks: map<nat, Task>, ss: seq<Session>, heap: map<nat, Buffer>, nextPacket: nat)
    requires Shaped(ss)
  {
    forall t :: t in tasks ==> TaskOk(t, tasks[t], ss, heap, nextPacket)
  }

  predicate UniqueIds(ss: seq<Session>) {
    forall i, j :: 0 <= i < j < |ss| && Live(ss[i]) && Live(ss[j]) && ss[i].clientId != "" ==>
      ss[i].clientId != ss[j].clientId
  }

  predicate ClientsOk(ss: seq<Session>, clientCount: nat) {
    && UniqueIds(ss)
    && Sum(ss, DeviceFlag) <= MAX_DEVICES
    && clientCount == Sum(ss, ActiveFlag)
  }

  predicate Inv(s: State) {
    && WellFormed(s)
    && BudgetOk(s.sessions, s.pendingBytes)
    && EntriesOk(s.sessions, s.heap)
    && HeapOk(s.heap, s.sessions, s.nextPacket, s.tasks)
    && SlotsOk(s.sessions)
    && LocksOk(s.tx, s.tasks)
    && TasksOk(s.tasks, s.sessions, s.heap, s.nextPacket)
    && ClientsOk(s.sessions, s.clientCount)
  }

  // ------------------------------------------------------------------ sums

  /** What one changed session does to the three sums over the pool. */
  lemma SessionSums(s: State, slot: nat, sess: Session)
    requires WellFormed(s) && slot < MAX_CLIENTS
    ensures var ss := s.sessions[slot := sess];
      && Sum(ss, SessionBytes) + SessionBytes(s.sessions[slot]) == Sum(s.sessions, SessionBytes) + SessionBytes(sess)
      && Sum(ss, DeviceFlag) + DeviceFlag(s.sessions[slot]) == Sum(s.sessions, DeviceFlag) + DeviceFlag(sess)
      && Sum(ss, ActiveFlag) + ActiveFlag(s.sessions[slot]) == Sum(s.sessions, ActiveFlag) + ActiveFlag(sess)
  {
    SumUpdate(s.sessions, SessionBytes, slot, sess);
    SumUpdate(s.sessions, DeviceFlag, slot, sess);
    SumUpdate(s.sessions, ActiveFlag, slot, sess);
  }

  /** What one changed entry does to the three sums over the pool. */
  lemma EntrySums(s: State, slot: nat, i: nat, e: Entry)
    requires WellFormed(s) && slot < MAX_CLIENTS && i < MAX_INFLIGHT
    ensures var sess := s.sessions[slot];
      var ss := s.sessions[slot := sess.(pending := sess.pending[i := e])];
      && Sum(ss, SessionBytes) + EntryBytes(sess.pending[i]) == Sum(s.sessions, SessionBytes) + EntryBytes(e)
      && Sum(ss, DeviceFlag) == Sum(s.sessions, DeviceFlag)
      && Sum(ss, ActiveFlag) == Sum(s.sessions, ActiveFlag)
  {
    var sess := s.sessions[slot];
    SessionSums(s, slot, sess.(pending := sess.pending[i := e]));
    SumUpdate(sess.pending, EntryBytes, i, e);
  }

  // ------------------------------------------------------------------ parts of the invariant under one change

  lemma LocksPut(tx: seq<Option<nat>>, tasks: map<nat, Task>, t: nat, task: Task)
    requires LocksOk(tx, tasks)
    requires if t in tasks then Held(tasks[t]) == Held(task) else Held(task).None?
    ensures LocksOk(tx, tasks[t := task])
  {
  }

  lemma LocksRemove(tx: seq<Option<nat>>, tasks: map<nat, Task>, t: nat)
    requires LocksOk(tx, tasks) && (t in tasks ==> Held(tasks[t]).None?)
    ensures LocksOk(tx, tasks - {t})
  {
  }

  lemma LocksTake(tx: seq<Option<nat>>, tasks: map<nat, Task>, t: nat, slot: nat, job: Job)
    requires LocksOk(tx, tasks) && t in tasks && Held(tasks[t]).None?
    requires slot < |tx| && tx[slot].None?
    ensures LocksOk(tx[slot := Some(t)], tasks[t := HasTx(slot, job)])
  {
  }

  /** Giving the lock back; its holder goes on without it. */
  lemma LocksGive(tx: seq<Option<nat>>, tasks: map<nat, Task>, t: nat, slot: nat, task: Task)
    requires LocksOk(tx, tasks) && t in tasks && Held(tasks[t]) == Some(slot) && slot < |tx|
    requires Held(task).None?
    ensures LocksOk(tx[slot := None], tasks[t := task])
    ensures LocksOk(tx[slot := None], tasks - {t})
  {
  }

  /** A task that never holds a packet of its own moves on. */
  lemma HeapPut(heap: map<nat, Buffer>, ss: seq<Session>, n: nat, tasks: map<nat, Task>, t: nat, task: Task)
    requires Shaped(ss) && HeapOk(heap, ss, n, tasks) && (t in tasks ==> !tasks[t].Built?)
    ensures HeapOk(heap, ss, n, tasks[t := task])
    ensures HeapOk(heap, ss, n, tasks - {t})
  {
    forall p | p in heap
      ensures BufferOk(p, heap[p], ss, n, tasks[t := task])
      ensures BufferOk(p, heap[p], ss, n, tasks - {t})
    {
      assert BufferOk(p, heap[p], ss, n, tasks);
    }
  }

  lemma TasksPut(tasks: map<nat, Task>, ss: seq<Session>, heap: map<nat, Buffer>, n: nat, t: nat, task: Task)
    requires Shaped(ss) && TasksOk(tasks, ss, heap, n) && TaskOk(t, task, ss, heap, n)
    ensures TasksOk(tasks[t := task], ss, heap, n)
  {
  }

  lemma TasksRemove(tasks: map<nat, Task>, ss: seq<Session>, heap: map<nat, Buffer>, n: nat, t: nat)
    requires Shaped(ss) && TasksOk(tasks, ss, heap, n)
    ensures TasksOk(tasks - {t}, ss, heap, n)
  {
  }

  /** A step that only moves one task keeps the invariant. */
  lemma PutInv(s: State, t: nat, task: Task)
    requires Inv(s) && TaskOk(t, task, s.sessions, s.heap, s.nextPacket)
    requires if t in s.tasks then Held(s.tasks[t]) == Held(task) && !s.tasks[t].Built? else Held(task).None?
    ensures Inv(Put(s, t, task))
  {
    LocksPut(s.tx, s.tasks, t, task);
    HeapPut(s.heap, s.sessions, s.nextPacket, s.tasks, t, task);
    TasksPut(s.tasks, s.sessions, s.heap, s.nextPacket, t, task);
  }

  // ------------------------------------------------------------------ steps

  lemma {:induction false} ColdPool(ss: seq<Session>)
    requires forall i :: 0 <= i < |ss| ==> ss[i] == COLD
    ensures Sum(ss, SessionBytes) == 0 && Sum(ss, DeviceFlag) == 0 && Sum(ss, ActiveFlag) == 0
  {
    SumZero(COLD.pending, EntryBytes);
    SumZero(ss, SessionBytes);
    SumZero(ss, DeviceFlag);
    SumZero(ss, ActiveFlag);
  }

  lemma ColdParts(ss: seq<Session>)
    requires |ss| == MAX_CLIENTS && forall i :: 0 <= i < |ss| ==> ss[i] == COLD
    ensures Shaped(ss) && EntriesOk(ss, map[]) && SlotsOk(ss) && UniqueIds(ss)
  {
    assert NothingPending(COLD.pending);
  }

  lemma ColdInv(s: State)
    requires |s.sessions| == MAX_CLIENTS && forall i :: 0 <= i < |s.sessions| ==> s.sessions[i] == COLD
    requires |s.tx| == MAX_CLIENTS && forall i :: 0 <= i < |s.tx| ==> s.tx[i] == None
    requires s.pendingBytes == 0 && s.clientCount == 0 && s.heap == map[] && s.tasks == map[]
    ensures Inv(s)
  {
    ColdParts(s.sessions);
    ColdPool(s.sessions);
  }

  lemma InitInv()
    ensures Inv(Init())
  {
    ColdInv(Init());
  }

  lemma ReleaseInv(s: State, t: nat)
    requires Inv(s) && Enabled(s, Release(t))
    ensures Inv(ReleaseStep(s, t))
  {
    var Releasing(slot, next) := s.tasks[t];
    var task := match next
      case Done => Closing(slot, 0)
      case NextEntry(sock, now, idx) => if idx < MAX_INFLIGHT then WantTx(slot, Retry(sock, now, idx))
        else Closing(slot, 0)
      case Close(sock) => Closing(slot, sock)
      case Deactivate_ => Deactivating(slot);
    LocksGive(s.tx, s.tasks, t, slot, task);
    HeapPut(s.heap, s.sessions, s.nextPacket, s.tasks, t, task);
    assert TaskOk(t, s.tasks[t], s.sessions, s.heap, s.nextPacket);
    TasksPut(s.tasks, s.sessions, s.heap, s.nextPacket, t, task);
    TasksRemove(s.tasks, s.sessions, s.heap, s.nextPacket, t);
  }

  lemma TakeTxInv(s: State, t: nat)
    requires Inv(s) && Enabled(s, TakeTx(t))
    ensures Inv(Apply(s, TakeTx(t)))
  {
    var WantTx(slot, job) := s.tasks[t];
    LocksTake(s.tx, s.tasks, t, slot, job);
    HeapPut(s.heap, s.sessions, s.nextPacket, s.tasks, t, HasTx(slot, job));
    assert TaskOk(t, s.tasks[t], s.sessions, s.heap, s.nextPacket);
    TasksPut(s.tasks, s.sessions, s.heap, s.nextPacket, t, HasTx(slot, job));
  }

  /** One session changes, but not its entries, its activity or who drains it. */
  lemma QuietTasks(tasks: map<nat, Task>, ss: seq<Session>, heap: map<nat, Buffer>, n: nat, slot: nat, sess: Session)
    requires Shaped(ss) && slot < MAX_CLIENTS && TasksOk(tasks, ss, heap, n)
    requires sess.pending == ss[slot].pending && sess.active == ss[slot].active
    requires sess.owner == ss[slot].owner || (ss[slot].owner == Accepted && sess.owner == Serving)
    ensures Shaped(ss[slot := sess]) && TasksOk(tasks, ss[slot := sess], heap, n)
  {
    var ss' := ss[slot := sess];
    forall t | t in tasks ensures TaskOk(t, tasks[t], ss', heap, n) {
      assert TaskOk(t, tasks[t], ss, heap, n);
    }
  }

  lemma SameEntries(s: State, slot: nat, sess: Session)
    requires WellFormed(s) && slot < MAX_CLIENTS && sess.pending == s.sessions[slot].pending
    requires EntriesOk(s.sessions, s.heap) && HeapOk(s.heap, s.sessions, s.nextPacket, s.tasks)
    ensures var ss := s.sessions[slot := sess];
      Shaped(ss) && EntriesOk(ss, s.heap) && HeapOk(s.heap, ss, s.nextPacket, s.tasks)
  {
    var ss := s.sessions[slot := sess];
    forall p | p in s.heap ensures BufferOk(p, s.heap[p], ss, s.nextPacket, s.tasks) {
      assert BufferOk(p, s.heap[p], s.sessions, s.nextPacket, s.tasks);
    }
  }

  /** The parts of the invariant that speak of the table of sessions alone. */
  predicate PoolOk(ss: seq<Session>, bytes: nat, heap: map<nat, Buffer>, n: nat, tasks: map<nat, Task>, clients: nat) {
    && Shaped(ss) && BudgetOk(ss, bytes) && EntriesOk(ss, heap) && HeapOk(heap, ss, n, tasks)
    && SlotsOk(ss) && ClientsOk(ss, clients)
  }

  /** One session changes, its entries stay, and it becomes no more of a client than it was. */
  lemma PoolUpdate(s: State, slot: nat, sess: Session, clients: nat)
    requires Inv(s) && slot < MAX_CLIENTS && SlotOk(sess) && sess.pending == s.sessions[slot].pending
    requires Live(sess) && sess.clientId != "" ==> Live(s.sessions[slot]) && sess.clientId == s.sessions[slot].clientId
    requires DeviceFlag(sess) <= DeviceFlag(s.sessions[slot])
    requires clients + ActiveFlag(s.sessions[slot]) == s.clientCount + ActiveFlag(sess)
    ensures PoolOk(s.sessions[slot := sess], s.pendingBytes, s.heap, s.nextPacket, s.tasks, clients)
  {
    SessionSums(s, slot, sess);
    SameEntries(s, slot, sess);
    UniqueUpdate(s.sessions, slot, sess);
  }

  lemma UniqueUpdate(ss: seq<Session>, slot: nat, sess: Session)
    requires slot < |ss| && UniqueIds(ss)
    requires Live(sess) && sess.clientId != "" ==> Live(ss[slot]) && sess.clientId == ss[slot].clientId
    ensures UniqueIds(ss[slot := sess])
  {
  }

  /** Putting the parts together. */
  lemma FromParts(r: State)
    requires WellFormed(r) && PoolOk(r.sessions, r.pendingBytes, r.heap, r.nextPacket, r.tasks, r.clientCount)
    requires LocksOk(r.tx, r.tasks) && TasksOk(r.tasks, r.sessions, r.heap, r.nextPacket)
    ensures Inv(r)
  {
  }

  /** Closing, renaming of nothing, subscribing: a session that becomes no more live than it was. */
  lemma QuietInv(s: State, slot: nat, sess: Session)
    requires Inv(s) && slot < MAX_CLIENTS && SlotOk(sess)
    requires sess.pending == s.sessions[slot].pending && sess.active == s.sessions[slot].active
    requires sess.owner == s.sessions[slot].owner || (s.sessions[slot].owner == Accepted && sess.owner == Serving)
    requires sess.clientId == s.sessions[slot].clientId && sess.retiring == s.sessions[slot].retiring
    requires Live(sess) ==> Live(s.sessions[slot])
    ensures Inv(SetSession(s, slot, sess))
  {
    SessionSums(s, slot, sess);
    SameEntries(s, slot, sess);
    QuietTasks(s.tasks, s.sessions, s.heap, s.nextPacket, slot, sess);
  }

  /** An entry that only changed its clock or its count. */
  predicate SamePacket(e: Entry, was: Entry) {
    was.Pending? && e.Pending? && e.pid == was.pid && e.packet == was.packet && e.len == was.len
  }

  function WithEntry(ss: seq<Session>, slot: nat, i: nat, e: Entry): (r: seq<Session>)
    requires Shaped(ss) && slot < MAX_CLIENTS && i < MAX_INFLIGHT
    ensures Shaped(r)
  {
    ss[slot := ss[slot].(pending := ss[slot].pending[i := e])]
  }

  lemma TouchHeap(heap: map<nat, Buffer>, ss: seq<Session>, n: nat, tasks: map<nat, Task>, slot: nat, i: nat, e: Entry)
    requires Shaped(ss) && slot < MAX_CLIENTS && i < MAX_INFLIGHT && SamePacket(e, ss[slot].pending[i])
    requires HeapOk(heap, ss, n, tasks)
    ensures HeapOk(heap, WithEntry(ss, slot, i, e), n, tasks)
  {
    forall p | p in heap ensures BufferOk(p, heap[p], WithEntry(ss, slot, i, e), n, tasks) {
      assert BufferOk(p, heap[p], ss, n, tasks);
    }
  }

  lemma TouchTasks(tasks: map<nat, Task>, ss: seq<Session>, heap: map<nat, Buffer>, n: nat, slot: nat, i: nat, e: Entry)
    requires Shaped(ss) && slot < MAX_CLIENTS && i < MAX_INFLIGHT && SamePacket(e, ss[slot].pending[i])
    requires TasksOk(tasks, ss, heap, n)
    ensures TasksOk(tasks, WithEntry(ss, slot, i, e), heap, n)
  {
    forall t | t in tasks ensures TaskOk(t, tasks[t], WithEntry(ss, slot, i, e), heap, n) {
      assert TaskOk(t, tasks[t], ss, heap, n);
    }
  }

  lemma TouchEntries(ss: seq<Session>, heap: map<nat, Buffer>, slot: nat, i: nat, e: Entry)
    requires Shaped(ss) && slot < MAX_CLIENTS && i < MAX_INFLIGHT && EntriesOk(ss, heap)
    requires EntryOk(e, heap, slot, i)
    ensures EntriesOk(WithEntry(ss, slot, i, e), heap)
  {
  }

  /** The table entry changes, but not which packet it holds. */
  lemma TouchInv(s: State, slot: nat, i: nat, e: Entry)
    requires Inv(s) && slot < MAX_CLIENTS && i < MAX_INFLIGHT
    requires SamePacket(e, s.sessions[slot].pending[i]) && e.sendCount <= MAX_SEND_ATTEMPTS
    ensures Inv(s.(sessions := WithEntry(s.sessions, slot, i, e)))
  {
    EntrySums(s, slot, i, e);
    assert SlotOk(s.sessions[slot]);
    assert EntryOk(s.sessions[slot].pending[i], s.heap, slot, i);
    TouchEntries(s.sessions, s.heap, slot, i, e);
    TouchHeap(s.heap, s.sessions, s.nextPacket, s.tasks, slot, i, e);
    TouchTasks(s.tasks, s.sessions, s.heap, s.nextPacket, slot, i, e);
  }

  function Flagged(b: Buffer): (r: Buffer)
    requires |b.bytes| > 0
    ensures r.holder == b.holder && r.built == b.built && |r.bytes| == |b.bytes|
  {
    b.(bytes := b.bytes[0 := SetDup(b.bytes[0])])
  }

  lemma FlagHeap(heap: map<nat, Buffer>, ss: seq<Session>, n: nat, tasks: map<nat, Task>, p: nat)
    requires Shaped(ss) && HeapOk(heap, ss, n, tasks) && p in heap
    ensures |heap[p].bytes| > 0 && HeapOk(heap[p := Flagged(heap[p])], ss, n, tasks)
  {
    assert BufferOk(p, heap[p], ss, n, tasks);
    var heap' := heap[p := Flagged(heap[p])];
    forall q | q in heap' ensures BufferOk(q, heap'[q], ss, n, tasks) {
      assert BufferOk(q, heap[q], ss, n, tasks);
    }
  }

  lemma FlagTasks(tasks: map<nat, Task>, ss: seq<Session>, heap: map<nat, Buffer>, n: nat, p: nat)
    requires Shaped(ss) && TasksOk(tasks, ss, heap, n) && EntriesOk(ss, heap) && p in heap && |heap[p].bytes| > 0
    ensures TasksOk(tasks, ss, heap[p := Flagged(heap[p])], n) && EntriesOk(ss, heap[p := Flagged(heap[p])])
  {
    var heap' := heap[p := Flagged(heap[p])];
    forall t | t in tasks ensures TaskOk(t, tasks[t], ss, heap', n) {
      assert TaskOk(t, tasks[t], ss, heap, n);
    }
  }

  /** Only the contents of one packet change, and only its DUP flag. */
  lemma FlagInv(s: State, p: nat)
    requires Inv(s) && p in s.heap
    ensures |s.heap[p].bytes| > 0 && Inv(s.(heap := s.heap[p := Flagged(s.heap[p])]))
  {
    FlagHeap(s.heap, s.sessions, s.nextPacket, s.tasks, p);
    FlagTasks(s.tasks, s.sessions, s.heap, s.nextPacket, p);
  }

  // ------------------------------------------------------------------ releasing packets

  /** Freeing an entry nobody transmits takes the packet out of the heap and the budget exactly. */
  lemma FreeEntryInv(s: State, slot: nat, i: nat)
    requires Inv(s) && slot < MAX_CLIENTS && i < MAX_INFLIGHT
    requires forall t :: t in s.tasks && s.tasks[t].Sending? ==> s.tasks[t].slot != slot
    ensures Inv(FreeEntry(s, slot, i))
  {
    var sess := s.sessions[slot];
    var e := sess.pending[i];
    if e.Pending? {
      var r := FreeEntry(s, slot, i);
      EntrySums(s, slot, i, Free);
      assert EntryOk(e, s.heap, slot, i);
      assert SlotOk(sess);
      FreeEntryHeap(s, slot, i);
      forall t | t in s.tasks ensures TaskOk(t, s.tasks[t], r.sessions, r.heap, s.nextPacket) {
        assert TaskOk(t, s.tasks[t], s.sessions, s.heap, s.nextPacket);
      }
    }
  }

  lemma FreeEntryHeap(s: State, slot: nat, i: nat)
    requires Inv(s) && slot < MAX_CLIENTS && i < MAX_INFLIGHT && s.sessions[slot].pending[i].Pending?
    ensures var r := FreeEntry(s, slot, i);
      EntriesOk(r.sessions, r.heap) && HeapOk(r.heap, r.sessions, r.nextPacket, r.tasks)
  {
    FreedEntries(s.sessions, s.heap, slot, i);
    assert EntryOk(s.sessions[slot].pending[i], s.heap, slot, i);
    FreedHeap(s.heap, s.sessions, s.nextPacket, s.tasks, slot, i);
  }

  lemma FreedEntries(ss: seq<Session>, heap: map<nat, Buffer>, slot: nat, i: nat)
    requires Shaped(ss) && slot < MAX_CLIENTS && i < MAX_INFLIGHT && ss[slot].pending[i].Pending?
    requires EntriesOk(ss, heap)
    ensures EntriesOk(WithEntry(ss, slot, i, Free), heap - {ss[slot].pending[i].packet})
  {
    var ss' := WithEntry(ss, slot, i, Free);
    var heap' := heap - {ss[slot].pending[i].packet};
    assert EntryOk(ss[slot].pending[i], heap, slot, i);
    forall k: nat, j: nat | k < MAX_CLIENTS && j < MAX_INFLIGHT ensures EntryOk(ss'[k].pending[j], heap', k, j) {
      assert EntryOk(ss[k].pending[j], heap, k, j);
    }
  }

  lemma FreedHeap(heap: map<nat, Buffer>, ss: seq<Session>, n: nat, tasks: map<nat, Task>, slot: nat, i: nat)
    requires Shaped(ss) && slot < MAX_CLIENTS && i < MAX_INFLIGHT && ss[slot].pending[i].Pending?
    requires HeapOk(heap, ss, n, tasks)
    ensures HeapOk(heap - {ss[slot].pending[i].packet}, WithEntry(ss, slot, i, Free), n, tasks)
  {
    var heap' := heap - {ss[slot].pending[i].packet};
    forall p | p in heap' ensures BufferOk(p, heap'[p], WithEntry(ss, slot, i, Free), n, tasks) {
      assert BufferOk(p, heap[p], ss, n, tasks);
    }
  }

  lemma FreeEntryFrame(s: State, slot: nat, i: nat)
    requires WellFormed(s) && slot < MAX_CLIENTS && i < MAX_INFLIGHT
    ensures var r := FreeEntry(s, slot, i);
      && r.tasks == s.tasks && r.tx == s.tx && r.nextPacket == s.nextPacket && r.clientCount == s.clientCount
      && r.sessions == s.sessions[slot := s.sessions[slot].(pending := s.sessions[slot].pending[i := Free])]
  {
    var sess := s.sessions[slot];
    if sess.pending[i].Free? {
      assert sess.pending[i := Free] == sess.pending;
    }
  }

  /** Clearing a session empties its table from `i` on and touches nothing else of the pool. */
  lemma {:induction false} ClearFrame(s: State, slot: nat, i: nat)
    requires WellFormed(s) && slot < MAX_CLIENTS && i <= MAX_INFLIGHT
    ensures var r := ClearFrom(s, slot, i);
      && r.tasks == s.tasks && r.tx == s.tx && r.nextPacket == s.nextPacket && r.clientCount == s.clientCount
      && r.sessions == s.sessions[slot := s.sessions[slot].(pending := r.sessions[slot].pending)]
      && r.sessions[slot].pending == s.sessions[slot].pending[..i] + EmptyTable()[i..]
    decreases MAX_INFLIGHT - i
  {
    if i < MAX_INFLIGHT {
      FreeEntryFrame(s, slot, i);
      ClearFrame(FreeEntry(s, slot, i), slot, i + 1);
    }
  }

  lemma {:induction false} ClearInv(s: State, slot: nat, i: nat)
    requires Inv(s) && slot < MAX_CLIENTS && i <= MAX_INFLIGHT
    requires forall t :: t in s.tasks && s.tasks[t].Sending? ==> s.tasks[t].slot != slot
    ensures Inv(ClearFrom(s, slot, i))
    decreases MAX_INFLIGHT - i
  {
    if i < MAX_INFLIGHT {
      FreeEntryInv(s, slot, i);
      FreeEntryFrame(s, slot, i);
      ClearInv(FreeEntry(s, slot, i), slot, i + 1);
    }
  }

  // ------------------------------------------------------------------ client identities

  /** A fresh id on a session that nobody else live carries. */
  lemma RenameUnique(ss: seq<Session>, slot: nat, id: string)
    requires slot < |ss| && UniqueIds(ss)
    requires id != "" ==> forall k :: 0 <= k < |ss| && k != slot && Live(ss[k]) ==> ss[k].clientId != id
    ensures UniqueIds(ss[slot := ss[slot].(clientId := id)])
  {
  }

  /** Leaving out the only live session with `id` lowers the device count by that session. */
  lemma SkippedCount(ss: seq<Session>, id: string, k: nat)
    requires k < |ss| && UniqueIds(ss) && Live(ss[k]) && !ss[k].retiring && ss[k].clientId == id && IsDeviceId(id)
    ensures Sum(ss, DeviceFlag) == DeviceCount(ss, Some(id)) + 1
  {
    var f := SkipFlag(Some(id));
    var blank := ss[k].(clientId := "");
    SumUpdate(ss, f, k, blank);
    SumUpdate(ss, DeviceFlag, k, blank);
    var others := ss[k := blank];
    forall i | 0 <= i < |ss| ensures DeviceFlag(others[i]) == f(others[i]) {
      assert i != k && Live(ss[i]) ==> ss[i].clientId != id;
    }
    SumSame(others, DeviceFlag, others, f);
  }

  lemma SameTasks(s: State, slot: nat, id: string)
    requires Inv(s) && slot < MAX_CLIENTS
    ensures var ss := s.sessions[slot := s.sessions[slot].(clientId := id)];
      Shaped(ss) && SlotsOk(ss) && TasksOk(s.tasks, ss, s.heap, s.nextPacket)
  {
    QuietTasks(s.tasks, s.sessions, s.heap, s.nextPacket, slot, s.sessions[slot].(clientId := id));
  }

  /** The id fits: nobody else live has it, and there is room if it is a device. */
  lemma RenameInv(s: State, slot: nat, id: string)
    requires Inv(s) && slot < MAX_CLIENTS
    requires id != "" ==> forall k :: 0 <= k < MAX_CLIENTS && k != slot && Live(s.sessions[k]) ==>
      s.sessions[k].clientId != id
    requires IsDeviceId(id) ==> Sum(s.sessions, DeviceFlag) < MAX_DEVICES + DeviceFlag(s.sessions[slot])
    ensures Inv(SetSession(s, slot, s.sessions[slot].(clientId := id)))
  {
    var sess := s.sessions[slot].(clientId := id);
    RenameUnique(s.sessions, slot, id);
    SessionSums(s, slot, sess);
    SameEntries(s, slot, sess);
    SameTasks(s, slot, id);
  }

  /** The takeover and capacity check of CONNECT keeps identities unique and devices within their limit. */
  lemma ConnectInv(s: State, slot: nat, id: string)
    requires Inv(s) && Enabled(s, Connect(slot, id))
    ensures Inv(Apply(s, Connect(slot, id)))
  {
    var prior := FindClient(s.sessions, id, 0);
    if CapacityAvailable(s.sessions, id, prior) {
      if prior.Some? && prior.value != slot {
        assert SlotOk(s.sessions[prior.value]);
        QuietInv(s, prior.value, EvictedBy(s.sessions[prior.value]));
      }
      ConnectCounts(s, slot, id);
      ConnectUnique(s, slot, id);
      RenameInv(s.(sessions := AfterEviction(s.sessions, slot, id)), slot, id);
    }
  }

  function AfterEviction(ss: seq<Session>, slot: nat, id: string): (r: seq<Session>)
    ensures |r| == |ss|
  {
    var prior := FindClient(ss, id, 0);
    if prior.Some? && prior.value != slot then ss[prior.value := EvictedBy(ss[prior.value])] else ss
  }

  lemma ConnectUnique(s: State, slot: nat, id: string)
    requires Inv(s) && slot < MAX_CLIENTS
    ensures id != "" ==>
      forall k :: 0 <= k < MAX_CLIENTS && k != slot && Live(AfterEviction(s.sessions, slot, id)[k]) ==>
              AfterEviction(s.sessions, slot, id)[k].clientId != id
  {
    if id != "" {
      var prior := FindClient(s.sessions, id, 0);
      forall k | 0 <= k < MAX_CLIENTS && k != slot && Live(AfterEviction(s.sessions, slot, id)[k])
        ensures AfterEviction(s.sessions, slot, id)[k].clientId != id
      {
        assert SlotOk(s.sessions[k]);
        assert prior.None? ==> !Owns(s.sessions[k], id);
      }
    }
  }

  /** With room for one more device, the session that takes the id fits. */
  lemma ConnectCounts(s: State, slot: nat, id: string)
    requires Inv(s) && slot < MAX_CLIENTS
    requires CapacityAvailable(s.sessions, id, FindClient(s.sessions, id, 0))
    ensures var mid := AfterEviction(s.sessions, slot, id);
      && Sum(mid, DeviceFlag) <= MAX_DEVICES
      && (IsDeviceId(id) ==> Sum(mid, DeviceFlag) < MAX_DEVICES + DeviceFlag(mid[slot]))
  {
    var ss := s.sessions;
    var prior := FindClient(ss, id, 0);
    if prior.Some? {
      if prior.value != slot {
        SumUpdate(ss, DeviceFlag, prior.value, EvictedBy(ss[prior.value]));
      }
      if IsDeviceId(id) { SkippedCount(ss, id, prior.value); }
    } else {
      SumSame(ss, DeviceFlag, ss, SkipFlag(None));
    }
  }

  // ------------------------------------------------------------------ remaining steps

  lemma BuildInv(s: State, t: nat, slot: nat, sock: int, pid: nat, bytes: seq<byte>)
    requires Inv(s) && Idle(s, t) && pid != 0 && bytes != []
    ensures Inv(BuildStep(s, t, slot, sock, pid, bytes))
  {
    var r := BuildStep(s, t, slot, sock, pid, bytes);
    LocksPut(s.tx, s.tasks, t, r.tasks[t]);
    forall p | p in r.heap ensures BufferOk(p, r.heap[p], r.sessions, r.nextPacket, r.tasks) {
      assert p in s.heap ==> BufferOk(p, s.heap[p], s.sessions, s.nextPacket, s.tasks);
    }
    forall u | u in r.tasks ensures TaskOk(u, r.tasks[u], r.sessions, r.heap, r.nextPacket) {
      assert u != t ==> TaskOk(u, s.tasks[u], s.sessions, s.heap, s.nextPacket);
    }
  }

  lemma DropInv(s: State, t: nat)
    requires Inv(s) && t in s.tasks && s.tasks[t].Built?
    ensures Inv(Finish(s, t).(heap := s.heap - {s.tasks[t].packet}))
  {
    var packet := s.tasks[t].packet;
    var r := Finish(s, t).(heap := s.heap - {packet});
    LocksRemove(s.tx, s.tasks, t);
    assert TaskOk(t, s.tasks[t], s.sessions, s.heap, s.nextPacket);
    forall p | p in r.heap ensures BufferOk(p, r.heap[p], r.sessions, r.nextPacket, r.tasks) {
      assert BufferOk(p, s.heap[p], s.sessions, s.nextPacket, s.tasks);
    }
    forall u | u in r.tasks ensures TaskOk(u, r.tasks[u], r.sessions, r.heap, r.nextPacket) {
      assert TaskOk(u, s.tasks[u], s.sessions, s.heap, s.nextPacket);
    }
  }

  lemma ReserveInv(s: State, t: nat, now: int)
    requires Inv(s) && Enabled(s, Reserve(t, now))
    ensures Inv(ReserveStep(s, t, now))
  {
    var Built(slot, sock, pid, packet) := s.tasks[t];
    var len := |s.heap[packet].bytes|;
    var choice := ReserveChoice(s, slot, sock, len);
    if choice.None? {
      DropInv(s, t);
    } else {
      var r := ReserveStep(s, t, now);
      EntrySums(s, slot, choice.value, Pending(pid, packet, len, now, 0));
      LocksPut(s.tx, s.tasks, t, r.tasks[t]);
      assert SlotOk(s.sessions[slot]);
      assert TaskOk(t, s.tasks[t], s.sessions, s.heap, s.nextPacket);
      ReserveHeap(s, t, now);
      ReserveTasks(s, t, now);
    }
  }

  lemma ReserveHeap(s: State, t: nat, now: int)
    requires Inv(s) && Enabled(s, Reserve(t, now))
    requires ReserveChoice(s, s.tasks[t].slot, s.tasks[t].sock, |s.heap[s.tasks[t].packet].bytes|).Some?
    ensures var r := ReserveStep(s, t, now);
      EntriesOk(r.sessions, r.heap) && HeapOk(r.heap, r.sessions, r.nextPacket, r.tasks)
  {
    var Built(slot, sock, pid, packet) := s.tasks[t];
    assert TaskOk(t, s.tasks[t], s.sessions, s.heap, s.nextPacket);
    var len := |s.heap[packet].bytes|;
    var idx := ReserveChoice(s, slot, sock, len).value;
    FillEntry(s, slot, idx, Pending(pid, packet, len, now, 0));
    FillHeap(s, slot, idx, Pending(pid, packet, len, now, 0), t, WantTx(slot, SendFirst(sock, idx, packet, len)));
  }

  lemma FillEntry(s: State, slot: nat, i: nat, e: Entry)
    requires Inv(s) && slot < MAX_CLIENTS && i < MAX_INFLIGHT && s.sessions[slot].pending[i].Free?
    requires e.Pending? && e.packet in s.heap && s.heap[e.packet].holder.AtTask? && e.pid != 0
    requires e.len == |s.heap[e.packet].bytes| && e.sendCount <= MAX_SEND_ATTEMPTS
    ensures var sess := s.sessions[slot];
      EntriesOk(s.sessions[slot := sess.(pending := sess.pending[i := e])],
                s.heap[e.packet := s.heap[e.packet].(holder := AtEntry(slot, i))])
  {
    var sess := s.sessions[slot];
    var ss := s.sessions[slot := sess.(pending := sess.pending[i := e])];
    var heap := s.heap[e.packet := s.heap[e.packet].(holder := AtEntry(slot, i))];
    forall k: nat, j: nat | k < MAX_CLIENTS && j < MAX_INFLIGHT ensures EntryOk(ss[k].pending[j], heap, k, j) {
      assert EntryOk(s.sessions[k].pending[j], s.heap, k, j);
    }
  }

  lemma FillHeap(s: State, slot: nat, i: nat, e: Entry, t: nat, task: Task)
    requires Inv(s) && slot < MAX_CLIENTS && i < MAX_INFLIGHT && s.sessions[slot].pending[i].Free?
    requires e.Pending? && e.packet in s.heap && s.heap[e.packet].holder == AtTask(t)
    ensures var sess := s.sessions[slot];
      HeapOk(s.heap[e.packet := s.heap[e.packet].(holder := AtEntry(slot, i))],
             s.sessions[slot := sess.(pending := sess.pending[i := e])], s.nextPacket, s.tasks[t := task])
  {
    var sess := s.sessions[slot];
    var ss := s.sessions[slot := sess.(pending := sess.pending[i := e])];
    var heap := s.heap[e.packet := s.heap[e.packet].(holder := AtEntry(slot, i))];
    assert BufferOk(e.packet, s.heap[e.packet], s.sessions, s.nextPacket, s.tasks);
    forall p | p in heap ensures BufferOk(p, heap[p], ss, s.nextPacket, s.tasks[t := task]) {
      assert BufferOk(p, s.heap[p], s.sessions, s.nextPacket, s.tasks);
    }
  }

  lemma ReserveTasks(s: State, t: nat, now: int)
    requires Inv(s) && Enabled(s, Reserve(t, now))
    requires ReserveChoice(s, s.tasks[t].slot, s.tasks[t].sock, |s.heap[s.tasks[t].packet].bytes|).Some?
    ensures var r := ReserveStep(s, t, now); TasksOk(r.tasks, r.sessions, r.heap, r.nextPacket)
  {
    var r := ReserveStep(s, t, now);
    var packet := s.tasks[t].packet;
    assert TaskOk(t, s.tasks[t], s.sessions, s.heap, s.nextPacket);
    assert BufferOk(packet, s.heap[packet], s.sessions, s.nextPacket, s.tasks);
    forall u | u in r.tasks ensures TaskOk(u, r.tasks[u], r.sessions, r.heap, r.nextPacket) {
      if u != t {
        assert TaskOk(u, s.tasks[u], s.sessions, s.heap, s.nextPacket);
      }
    }
  }

  lemma StartFreeInv(s: State, t: nat, slot: nat)
    requires Inv(s) && Enabled(s, StartFree(t, slot))
    ensures Inv(Apply(s, StartFree(t, slot)))
  {
    var sess := s.sessions[slot].(owner := Freeing(t));
    assert SlotOk(s.sessions[slot]);
    PoolUpdate(s, slot, sess, s.clientCount);
    FreeingTasks(s.tasks, s.sessions, s.heap, s.nextPacket, slot, sess);
    FromParts(SetSession(s, slot, sess));
    PutInv(SetSession(s, slot, sess), t, WantTx(slot, Free_));
  }

  /** Nothing depends on a session's owner before it is freed. */
  lemma FreeingTasks(tasks: map<nat, Task>, ss: seq<Session>, heap: map<nat, Buffer>, n: nat, slot: nat, sess: Session)
    requires Shaped(ss) && TasksOk(tasks, ss, heap, n) && slot < MAX_CLIENTS && !ss[slot].owner.Freeing?
    requires !ss[slot].owner.Drained? && sess == ss[slot].(owner := sess.owner) && !sess.owner.Drained?
    ensures Shaped(ss[slot := sess]) && TasksOk(tasks, ss[slot := sess], heap, n)
  {
    var ss' := ss[slot := sess];
    forall u | u in tasks ensures TaskOk(u, tasks[u], ss', heap, n) {
      assert TaskOk(u, tasks[u], ss, heap, n);
    }
  }

  /** A task that holds the `tx_lock` of a slot is the only one transmitting there. */
  lemma SoleHolder(s: State, t: nat, slot: nat)
    requires Inv(s) && t in s.tasks && Held(s.tasks[t]) == Some(slot) && !s.tasks[t].Sending?
    ensures forall u :: u in s.tasks && s.tasks[u].Sending? ==> s.tasks[u].slot != slot
  {
  }

  lemma DrainInv(s: State, t: nat, slot: nat)
    requires Inv(s) && t in s.tasks && s.tasks[t] == HasTx(slot, Free_) && slot < MAX_CLIENTS
    ensures Inv(DrainStep(s, t, slot))
  {
    SoleHolder(s, t, slot);
    ClearInv(s, slot, 0);
    ClearFrame(s, slot, 0);
    DrainedInv(ClearFrom(s, slot, 0), t, slot);
  }

  lemma DrainedInv(c: State, t: nat, slot: nat)
    requires Inv(c) && t in c.tasks && c.tasks[t] == HasTx(slot, Free_) && slot < MAX_CLIENTS
    requires c.sessions[slot].pending == [] + EmptyTable()
    ensures
      var sess := c.sessions[slot].(sock := -1, closing := true, suppressWill := true, subs := [], owner := Drained(t));
      Inv(Put(SetSession(c, slot, sess), t, Releasing(slot, Deactivate_)))
  {
    var sess := c.sessions[slot].(sock := -1, closing := true, suppressWill := true, subs := [], owner := Drained(t));
    var task := Releasing(slot, Deactivate_);
    assert TaskOk(t, c.tasks[t], c.sessions, c.heap, c.nextPacket);
    assert SlotOk(c.sessions[slot]);
    PoolUpdate(c, slot, sess, c.clientCount);
    DrainTasks(c, t, slot, sess);
    LocksPut(c.tx, c.tasks, t, task);
    HeapPut(c.heap, c.sessions[slot := sess], c.nextPacket, c.tasks, t, task);
    FromParts(Put(SetSession(c, slot, sess), t, task));
  }

  lemma DrainTasks(c: State, t: nat, slot: nat, sess: Session)
    requires Inv(c) && t in c.tasks && c.tasks[t] == HasTx(slot, Free_) && slot < MAX_CLIENTS
    requires sess.owner == Drained(t) && sess.pending == c.sessions[slot].pending
    ensures TasksOk(c.tasks[t := Releasing(slot, Deactivate_)], c.sessions[slot := sess], c.heap, c.nextPacket)
  {
    SoleHolder(c, t, slot);
    assert TaskOk(t, c.tasks[t], c.sessions, c.heap, c.nextPacket);
    var tasks := c.tasks[t := Releasing(slot, Deactivate_)];
    var ss := c.sessions[slot := sess];
    forall u | u in tasks ensures TaskOk(u, tasks[u], ss, c.heap, c.nextPacket) {
      if u != t {
        assert TaskOk(u, c.tasks[u], c.sessions, c.heap, c.nextPacket);
      }
    }
  }

  lemma FirstSendInv(s: State, t: nat)
    requires Inv(s) && Enabled(s, Run(t)) && s.tasks[t].job.SendFirst?
    ensures Inv(RunStep(s, t))
  {
    var HasTx(slot, job) := s.tasks[t];
    assert TaskOk(t, s.tasks[t], s.sessions, s.heap, s.nextPacket);
    assert SlotOk(s.sessions[slot]);
    assert EntryOk(s.sessions[slot].pending[job.idx], s.heap, slot, job.idx);
    var task := FirstSendStep(s, t, slot, job).tasks[t];
    PutInv(s, t, task);
  }

  lemma RetryInv(s: State, t: nat)
    requires Inv(s) && Enabled(s, Run(t)) && s.tasks[t].job.Retry?
    ensures Inv(RetryStep(s, t, s.tasks[t].slot, s.tasks[t].job))
  {
    var HasTx(slot, job) := s.tasks[t];
    if Current(s.sessions[slot], job.sock) && IsDue(s.sessions[slot].pending[job.idx], job.now) {
      RetryDueInv(s, t, slot, job);
    } else {
      RetrySkipInv(s, t, slot, job);
    }
  }

  lemma RetrySkipInv(s: State, t: nat, slot: nat, job: Job)
    requires Inv(s) && t in s.tasks && s.tasks[t] == HasTx(slot, job) && job.Retry? && IndexOk(job)
    requires slot < MAX_CLIENTS
    requires !(Current(s.sessions[slot], job.sock) && IsDue(s.sessions[slot].pending[job.idx], job.now))
    ensures Inv(RetryStep(s, t, slot, job))
  {
    PutInv(s, t, Releasing(slot, NextEntry(job.sock, job.now, job.idx + 1)));
  }

  lemma RetryDueInv(s: State, t: nat, slot: nat, job: Job)
    requires Inv(s) && t in s.tasks && s.tasks[t] == HasTx(slot, job) && job.Retry? && IndexOk(job)
    requires slot < MAX_CLIENTS && Current(s.sessions[slot], job.sock)
    requires IsDue(s.sessions[slot].pending[job.idx], job.now)
    ensures Inv(RetryStep(s, t, slot, job))
  {
    MarkInv(s, slot, job.idx, job.now);
    NotDrained(s, slot);
    MarkedSlot(s, slot, job.idx, job.now);
    AttemptInv(MarkRetry(s, slot, job.idx, job.now), t, slot, job);
    SameAttempt(s.sessions[slot].pending[job.idx], job.now, slot, job);
  }

  lemma SameAttempt(e: Entry, now: int, slot: nat, job: Job)
    requires e.Pending? && job.Retry?
    ensures Attempt(e.(lastSendMs := now), slot, job) == Attempt(e, slot, job)
  {
  }

  lemma NotDrained(s: State, slot: nat)
    requires Inv(s) && slot < MAX_CLIENTS && s.sessions[slot].active && !s.sessions[slot].closing
    ensures !s.sessions[slot].owner.Drained?
  {
    assert SlotOk(s.sessions[slot]);
  }

  /** Marking an entry stamps it and leaves the session and the threads as they are. */
  lemma MarkedSlot(s: State, slot: nat, idx: nat, now: int)
    requires WellFormed(s) && slot < MAX_CLIENTS && idx < MAX_INFLIGHT && s.sessions[slot].pending[idx].Pending?
    ensures var m, e := MarkRetry(s, slot, idx, now), s.sessions[slot].pending[idx];
      && m.tasks == s.tasks && m.sessions[slot].active == s.sessions[slot].active
      && m.sessions[slot].owner == s.sessions[slot].owner
      && m.sessions[slot].pending[idx] == e.(lastSendMs := now)
  {
  }

  lemma AttemptInv(m: State, t: nat, slot: nat, job: Job)
    requires Inv(m) && t in m.tasks && m.tasks[t] == HasTx(slot, job) && job.Retry? && IndexOk(job)
    requires slot < MAX_CLIENTS && m.sessions[slot].active && !m.sessions[slot].owner.Drained?
    requires m.sessions[slot].pending[job.idx].Pending?
    ensures Inv(Put(m, t, Attempt(m.sessions[slot].pending[job.idx], slot, job)))
  {
    var e := m.sessions[slot].pending[job.idx];
    if e.sendCount >= MAX_SEND_ATTEMPTS {
      PutInv(m, t, Releasing(slot, Close(job.sock)));
    } else {
      ResendInv(m, t, slot, job, e, Attempt(e, slot, job));
    }
  }

  lemma ResendInv(m: State, t: nat, slot: nat, job: Job, e: Entry, task: Task)
    requires Inv(m) && t in m.tasks && m.tasks[t] == HasTx(slot, job) && job.Retry? && IndexOk(job)
    requires slot < MAX_CLIENTS && m.sessions[slot].active && !m.sessions[slot].owner.Drained?
    requires e == m.sessions[slot].pending[job.idx] && e.Pending? && e.sendCount < MAX_SEND_ATTEMPTS
    requires task == Sending(slot, job.sock, job.idx, e.packet, e.len, e.sendCount + 1)
    ensures Inv(Put(m, t, task))
  {
    ResendTask(t, slot, job, e, m.sessions, m.heap, m.nextPacket);
    PutInv(m, t, task);
  }

  lemma ResendTask(t: nat, slot: nat, job: Job, e: Entry, ss: seq<Session>, heap: map<nat, Buffer>, n: nat)
    requires Shaped(ss) && slot < MAX_CLIENTS && ss[slot].active && !ss[slot].owner.Drained?
    requires job.Retry? && IndexOk(job) && e == ss[slot].pending[job.idx]
    requires e.Pending? && e.sendCount < MAX_SEND_ATTEMPTS
    ensures TaskOk(t, Sending(slot, job.sock, job.idx, e.packet, e.len, e.sendCount + 1), ss, heap, n)
  {
  }

  lemma MarkInv(s: State, slot: nat, idx: nat, now: int)
    requires Inv(s) && slot < MAX_CLIENTS && idx < MAX_INFLIGHT && s.sessions[slot].pending[idx].Pending?
    ensures Inv(MarkRetry(s, slot, idx, now))
  {
    var e := s.sessions[slot].pending[idx];
    assert EntryOk(e, s.heap, slot, idx);
    TouchInv(s, slot, idx, e.(lastSendMs := now));
    FlagInv(s.(sessions := WithEntry(s.sessions, slot, idx, e.(lastSendMs := now))), e.packet);
  }

  lemma AckInv(s: State, t: nat)
    requires Inv(s) && Enabled(s, Run(t)) && s.tasks[t].job.Ack?
    ensures Inv(RunStep(s, t))
  {
    var HasTx(slot, job) := s.tasks[t];
    SoleHolder(s, t, slot);
    var found := FindAck(s.sessions[slot].pending, job.pid, 0);
    if found.Some? {
      FreeEntryInv(s, slot, found.value);
      FreeEntryFrame(s, slot, found.value);
    }
    PutInv(AckRegion(s, slot, job.pid), t, Releasing(slot, Done));
  }

  lemma PlainInv(s: State, t: nat)
    requires Inv(s) && Enabled(s, Run(t)) && s.tasks[t].job.Plain?
    ensures Inv(RunStep(s, t))
  {
    var HasTx(slot, job) := s.tasks[t];
    PutInv(s, t, if job.control || Current(s.sessions[slot], job.sock) then Transmitting(slot, job.sock, job.control)
                 else Releasing(slot, Done));
  }

  lemma RunInv(s: State, t: nat)
    requires Inv(s) && Enabled(s, Run(t))
    ensures Inv(RunStep(s, t))
  {
    match s.tasks[t].job
    case SendFirst(_, _, _, _) => FirstSendInv(s, t);
    case Retry(_, _, _) => RetryInv(s, t);
    case Ack(_) => AckInv(s, t);
    case Plain(_, _) => PlainInv(s, t);
    case Free_ => DrainInv(s, t, s.tasks[t].slot);
  }

  lemma SendDoneInv(s: State, t: nat, result: SendResult)
    requires Inv(s) && Enabled(s, SendDone(t, result))
    ensures Inv(SendDoneStep(s, t, result))
  {
    assert TaskOk(t, s.tasks[t], s.sessions, s.heap, s.nextPacket);
    match s.tasks[t]
    case Transmitting(slot, sock, control) =>
      PutInv(s, t, Releasing(slot, if result == SendOk || control then Done else Close(sock)));
    case Sending(slot, sock, idx, packet, _, count) =>
      var sess := s.sessions[slot];
      var e := sess.pending[idx];
      var task := Releasing(slot, if result == SendPartial then Close(sock) else Done);
      if result == SendOk && Current(sess, sock) && e.Pending? && e.packet == packet {
        TouchInv(s, slot, idx, e.(sendCount := count));
        PutInv(s.(sessions := WithEntry(s.sessions, slot, idx, e.(sendCount := count))), t, task);
      } else {
        PutInv(s, t, task);
      }
  }

  lemma CloseIfCurrentInv(s: State, t: nat)
    requires Inv(s) && Enabled(s, CloseIfCurrent(t))
    ensures Inv(Apply(s, CloseIfCurrent(t)))
  {
    var Closing(slot, sock) := s.tasks[t];
    assert SlotOk(s.sessions[slot]);
    QuietInv(s, slot, CloseCurrent(s.sessions[slot], sock));
    var m := SetSession(s, slot, CloseCurrent(s.sessions[slot], sock));
    FinishInv(m, t);
  }

  lemma FinishInv(s: State, t: nat)
    requires Inv(s) && t in s.tasks && Held(s.tasks[t]).None? && !s.tasks[t].Built?
    ensures Inv(Finish(s, t))
  {
    LocksRemove(s.tx, s.tasks, t);
    HeapPut(s.heap, s.sessions, s.nextPacket, s.tasks, t, s.tasks[t]);
    TasksRemove(s.tasks, s.sessions, s.heap, s.nextPacket, t);
  }

  lemma DeactivateInv(s: State, t: nat, now: int)
    requires Inv(s) && Enabled(s, Deactivate(t, now))
    ensures Inv(DeactivateStep(s, t, now))
  {
    var slot := s.tasks[t].slot;
    var r := DeactivateStep(s, t, now);
    var sess := r.sessions[slot];
    assert TaskOk(t, s.tasks[t], s.sessions, s.heap, s.nextPacket);
    assert SlotOk(s.sessions[slot]);
    SumAtLeast(s.sessions, ActiveFlag, slot);
    PoolUpdate(s, slot, sess, r.clientCount);
    HeapPut(s.heap, r.sessions, s.nextPacket, s.tasks, t, s.tasks[t]);
    LocksRemove(s.tx, s.tasks, t);
    RetireTasks(s.tasks, s.sessions, s.heap, s.nextPacket, t, slot, sess);
    FromParts(r);
  }

  /** When the owner leaves a drained slot, no other task depends on it. */
  lemma RetireTasks(tasks: map<nat, Task>, ss: seq<Session>, heap: map<nat, Buffer>, n: nat, t: nat,
                    slot: nat, sess: Session)
    requires Shaped(ss) && TasksOk(tasks, ss, heap, n) && slot < MAX_CLIENTS
    requires ss[slot].owner == Drained(t) && sess.pending == ss[slot].pending
    ensures Shaped(ss[slot := sess]) && TasksOk(tasks - {t}, ss[slot := sess], heap, n)
  {
    var ss' := ss[slot := sess];
    forall u | u in tasks - {t} ensures TaskOk(u, tasks[u], ss', heap, n) {
      assert TaskOk(u, tasks[u], ss, heap, n);
    }
  }

  lemma ReapInv(s: State, now: int)
    requires Inv(s)
    ensures WellFormed(s.(sessions := Reap(s.sessions, now)))
    ensures Inv(s.(sessions := Reap(s.sessions, now)))
  {
    var ss := Reap(s.sessions, now);
    assert Shaped(ss);
    SumSame(s.sessions, SessionBytes, ss, SessionBytes);
    SumSame(s.sessions, DeviceFlag, ss, DeviceFlag);
    SumSame(s.sessions, ActiveFlag, ss, ActiveFlag);
    ReapHeap(s, now);
    forall slot | 0 <= slot < |ss| ensures SlotOk(ss[slot]) {
      assert SlotOk(s.sessions[slot]);
    }
    forall t | t in s.tasks ensures TaskOk(t, s.tasks[t], ss, s.heap, s.nextPacket) {
      assert TaskOk(t, s.tasks[t], s.sessions, s.heap, s.nextPacket);
    }
  }

  lemma ReapHeap(s: State, now: int)
    requires Inv(s) && Shaped(Reap(s.sessions, now))
    ensures var ss := Reap(s.sessions, now);
      EntriesOk(ss, s.heap) && HeapOk(s.heap, ss, s.nextPacket, s.tasks) && UniqueIds(ss)
  {
    var ss := Reap(s.sessions, now);
    forall k: nat, j: nat | k < MAX_CLIENTS && j < MAX_INFLIGHT ensures EntryOk(ss[k].pending[j], s.heap, k, j) {
      assert EntryOk(s.sessions[k].pending[j], s.heap, k, j);
    }
    forall p | p in s.heap ensures BufferOk(p, s.heap[p], ss, s.nextPacket, s.tasks) {
      assert BufferOk(p, s.heap[p], s.sessions, s.nextPacket, s.tasks);
    }
  }

  /** Reusing a vacant slot discards no live entry: the wiped table was already empty. */
  lemma ActivateInv(s: State, slot: nat)
    requires Inv(s) && slot < MAX_CLIENTS && Vacant(s.sessions[slot])
    ensures s.sessions[slot].pending == EmptyTable()
    ensures Inv(SetSession(s, slot, FRESH).(clientCount := s.clientCount + 1))
  {
    assert SlotOk(s.sessions[slot]);
    assert s.sessions[slot].pending == EmptyTable();
    PoolUpdate(s, slot, FRESH, s.clientCount + 1);
    ActivateTasks(s.tasks, s.sessions, s.heap, s.nextPacket, slot);
    FromParts(SetSession(s, slot, FRESH).(clientCount := s.clientCount + 1));
  }

  lemma ActivateTasks(tasks: map<nat, Task>, ss: seq<Session>, heap: map<nat, Buffer>, n: nat, slot: nat)
    requires Shaped(ss) && TasksOk(tasks, ss, heap, n) && slot < MAX_CLIENTS
    requires !ss[slot].active && ss[slot].owner == Unowned && ss[slot].pending == EmptyTable()
    ensures Shaped(ss[slot := FRESH]) && TasksOk(tasks, ss[slot := FRESH], heap, n)
  {
    var ss' := ss[slot := FRESH];
    forall t | t in tasks ensures TaskOk(t, tasks[t], ss', heap, n) {
      assert TaskOk(t, tasks[t], ss, heap, n);
    }
  }

  lemma AcceptInv(s: State, now: int)
    requires Inv(s)
    ensures Inv(AllocRegion(s, now))
  {
    ReapInv(s, now);
    var m := s.(sessions := Reap(s.sessions, now));
    var slot := FindVacant(m.sessions, 0);
    if slot.Some? {
      ActivateInv(m, slot.value);
    }
  }

  /** Every step of every task keeps the invariant. */
  lemma StepInv(s: State, step: Step)
    requires Inv(s) && Enabled(s, step)
    ensures Inv(Apply(s, step))
  {
    match step
    case Accept(now) => AcceptInv(s, now);
    case SetSock(slot, sock) =>
      assert SlotOk(s.sessions[slot]);
      QuietInv(s, slot, s.sessions[slot].(sock := sock, owner := Serving));
    case Connect(slot, id) => ConnectInv(s, slot, id);
    case SetSubs(slot, subs) =>
      assert SlotOk(s.sessions[slot]);
      QuietInv(s, slot, s.sessions[slot].(subs := subs));
    case CloseSlot(slot, evict) =>
      assert SlotOk(s.sessions[slot]);
      QuietInv(s, slot, if evict then EvictedBy(s.sessions[slot]) else PrepareClose(s.sessions[slot]));
    case Build(t, slot, sock, m) => BuildInv(s, t, slot, sock, m.pid, PublishCodec.Wire(m));
    case Reserve(t, now) => ReserveInv(s, t, now);
    case StartAck(t, slot, pid) => PutInv(s, t, WantTx(slot, Ack(pid)));
    case StartRetry(t, slot, sock, now) => PutInv(s, t, WantTx(slot, Retry(sock, now, 0)));
    case StartPlain(t, slot, sock, control) => PutInv(s, t, WantTx(slot, Plain(sock, control)));
    case StartFree(t, slot) => StartFreeInv(s, t, slot);
    case TakeTx(t) => TakeTxInv(s, t);
    case Run(t) => RunInv(s, t);
    case SendDone(t, result) => SendDoneInv(s, t, result);
    case Release(t) => ReleaseInv(s, t);
    case CloseIfCurrent(t) => CloseIfCurrentInv(s, t);
    case Deactivate(t, now) => DeactivateInv(s, t, now);
  }

  /** The invariant holds after every run from the cold start. */
  lemma {:induction false} RunsInv(s: State, steps: seq<Step>)
    requires Inv(s) && Feasible(s, steps)
    ensures Inv(Exec(s, steps))
    decreases |steps|
  {
    if steps != [] {
      StepInv(s, steps[0]);
      RunsInv(Apply(s, steps[0]), steps[1..]);
    }
  }
}
