/**
 The session pool and the QoS 1 in-flight table of the MQTT broker, as values:
 the tables, the tasks that are in the middle of an operation, and what each
 region protected by the global lock does to them.
 */
module Broker {
  import opened Base

  const MAX_CLIENTS: nat := 25
  const MAX_INFLIGHT: nat := 64
  const MAX_PENDING_BYTES: nat := 524288
  const MAX_SEND_ATTEMPTS: nat := 8
  const RETRY_MS: int := 2000
  const REUSE_DELAY_MS: int := 500
  const MAX_DEVICES: nat := 20

  /** One cell of the in-flight table; a released cell is zeroed, so it carries nothing. */
  datatype Entry =
    | Free
    | Pending(pid: nat, packet: nat, len: nat, lastSendMs: int, sendCount: nat)

  datatype Subscription = Subscription(topic: string, qos: nat)

  /**
   How far the owner of a slot has got. A slot is owned from `alloc_session`
   to the end of `free_session`; `Freeing` and `Drained` name the thread running the latter,
   before and after it emptied the in-flight table.
   */
  datatype Owner = Unowned | Accepted | Serving | Freeing(t: nat) | Drained(t: nat)

  datatype Session = Session(
    sock: int,
    active: bool,
    closing: bool,
    retiring: bool,
    suppressWill: bool,
    reusableAfterMs: int,
    clientId: string,
    subs: seq<Subscription>,
    pending: seq<Entry>,
    owner: Owner)

  /** Who must still free a packet. */
  datatype Holder = AtTask(t: nat) | AtEntry(slot: nat, idx: nat)

  /**
   An allocated packet. `built` (the bytes as first encoded) and `holder` are history:
   no region reads them.
   */
  datatype Buffer = Buffer(bytes: seq<byte>, built: seq<byte>, holder: Holder)

  /** What a task does once it holds a slot's `tx_lock`. */
  datatype Job =
    | SendFirst(sock: int, idx: nat, packet: nat, len: nat)
    | Retry(sock: int, now: int, idx: nat)
    | Ack(pid: nat)
    | Plain(sock: int, control: bool)
    | Free_

  /** What a task does once it has given the `tx_lock` back. */
  datatype Next =
    | Done
    | NextEntry(sock: int, now: int, idx: nat)
    | Close(sock: int)
    | Deactivate_

  datatype Task =
    | Built(slot: nat, sock: int, pid: nat, packet: nat)
    | WantTx(slot: nat, job: Job)
    | HasTx(slot: nat, job: Job)
    | Sending(slot: nat, sock: int, idx: nat, packet: nat, len: nat, count: nat)
    | Transmitting(slot: nat, sock: int, control: bool)
    | Releasing(slot: nat, next: Next)
    | Closing(slot: nat, sock: int)
    | Deactivating(slot: nat)

  datatype State = State(
    sessions: seq<Session>,
    tx: seq<Option<nat>>,
    pendingBytes: nat,
    clientCount: nat,
    heap: map<nat, Buffer>,
    nextPacket: nat,
    tasks: map<nat, Task>)

  predicate Shaped(ss: seq<Session>) {
    && |ss| == MAX_CLIENTS
    && forall i :: 0 <= i < |ss| ==> |ss[i].pending| == MAX_INFLIGHT
  }

  predicate WellFormed(s: State) {
    Shaped(s.sessions) && |s.tx| == MAX_CLIENTS
  }

  function EmptyTable(): (p: seq<Entry>)
    ensures |p| == MAX_INFLIGHT && forall i :: 0 <= i < |p| ==> p[i] == Free
  {
    seq(MAX_INFLIGHT, _ => Free)
  }

  const COLD := Session(0, false, false, false, false, 0, "", [], EmptyTable(), Unowned)

  /** The static storage as `mqtt_core_bind_static_storage` leaves it. */
  function Init(): (s: State)
    ensures WellFormed(s)
  {
    State(seq(MAX_CLIENTS, _ => COLD), seq(MAX_CLIENTS, _ => None), 0, 0, map[], 0, map[])
  }

  function EntryBytes(e: Entry): nat {
    if e.Pending? then e.len else 0
  }

  function SessionBytes(sess: Session): nat {
    Sum(sess.pending, EntryBytes)
  }

  function ActiveFlag(sess: Session): nat {
    if sess.active then 1 else 0
  }

  predicate Live(sess: Session) {
    sess.active && !sess.closing
  }

  const STATIC_CLIENT_IDS: set<string> := {"pn532", "laser", "relay", "puppet", "webui"}

  /** `mqtt_is_device_contract_client_id` */
  predicate IsDeviceId(id: string) {
    id != "" && (("dcc-" <= id && |id| > 4) || id !in STATIC_CLIENT_IDS)
  }

  /** Sessions `mqtt_active_device_client_count_locked` counts; `skip` is the excluded id. */
  predicate CountsAsDevice(sess: Session, skip: Option<string>) {
    && Live(sess) && !sess.retiring && sess.clientId != ""
    && skip != Some(sess.clientId)
    && IsDeviceId(sess.clientId)
  }

  function DeviceFlag(sess: Session): nat {
    if CountsAsDevice(sess, None) then 1 else 0
  }

  /** Setting the DUP flag of a fixed header. */
  function SetDup(b: byte): byte {
    if (b / 8) % 2 == 1 then b else b + 8
  }

  /** Two packets that differ at most in the DUP flag of the first byte. */
  predicate SameButDup(a: seq<byte>, b: seq<byte>) {
    |a| == |b| && |a| > 0 && a[1..] == b[1..] && SetDup(a[0]) == SetDup(b[0])
  }

  // ---------------------------------------------------------------- locked regions

  /** `mqtt_qos1_free_entry_locked`, with its saturating subtraction. */
  function FreeEntry(s: State, slot: nat, i: nat): (r: State)
    requires WellFormed(s) && slot < MAX_CLIENTS && i < MAX_INFLIGHT
    ensures WellFormed(r)
  {
    var sess := s.sessions[slot];
    match sess.pending[i]
    case Free => s
    case Pending(_, packet, len, _, _) =>
      s.(sessions := s.sessions[slot := sess.(pending := sess.pending[i := Free])],
         pendingBytes := if s.pendingBytes >= len then s.pendingBytes - len else 0,
         heap := s.heap - {packet})
  }

  /** `mqtt_qos1_clear_session_locked` from entry `i` on. */
  function ClearFrom(s: State, slot: nat, i: nat): (r: State)
    requires WellFormed(s) && slot < MAX_CLIENTS && i <= MAX_INFLIGHT
    ensures WellFormed(r)
    decreases MAX_INFLIGHT - i
  {
    if i == MAX_INFLIGHT then s else ClearFrom(FreeEntry(s, slot, i), slot, i + 1)
  }

  predicate AckMatches(e: Entry, pid: nat) {
    e.Pending? && e.pid == pid
  }

  /** The lowest index at or above `i` whose entry awaits `pid`. */
  function FindAck(p: seq<Entry>, pid: nat, i: nat): (r: Option<nat>)
    requires i <= |p|
    ensures r.Some? ==> i <= r.value < |p| && AckMatches(p[r.value], pid)
    ensures r.Some? ==> forall k :: i <= k < r.value ==> !AckMatches(p[k], pid)
    ensures r.None? ==> forall k :: i <= k < |p| ==> !AckMatches(p[k], pid)
    decreases |p| - i
  {
    if i == |p| then None else if AckMatches(p[i], pid) then Some(i) else FindAck(p, pid, i + 1)
  }

  /** The lowest free entry at or above `i`. */
  function FindFree(p: seq<Entry>, i: nat): (r: Option<nat>)
    requires i <= |p|
    ensures r.Some? ==> i <= r.value < |p| && p[r.value] == Free
    ensures r.Some? ==> forall k :: i <= k < r.value ==> p[k].Pending?
    ensures r.None? ==> forall k :: i <= k < |p| ==> p[k].Pending?
    decreases |p| - i
  {
    if i == |p| then None else if p[i].Free? then Some(i) else FindFree(p, i + 1)
  }

  /** The locked region of `mqtt_qos1_handle_puback`. */
  function AckRegion(s: State, slot: nat, pid: nat): (r: State)
    requires WellFormed(s) && slot < MAX_CLIENTS
    ensures WellFormed(r)
  {
    var found := FindAck(s.sessions[slot].pending, pid, 0);
    if found.Some? then FreeEntry(s, slot, found.value) else s
  }

  /** A session a sender may still write to through `sock`. */
  predicate Current(sess: Session, sock: int) {
    sess.active && !sess.closing && sess.sock == sock
  }

  /** First locked region of `send_qos1_publish_to_session_slot`: the free entry, if all limits allow it. */
  function ReserveChoice(s: State, slot: nat, sock: int, len: nat): (r: Option<nat>)
    requires WellFormed(s)
    ensures r.Some? ==>
      && slot < MAX_CLIENTS && Current(s.sessions[slot], sock)
      && s.pendingBytes + len <= MAX_PENDING_BYTES
      && r.value < MAX_INFLIGHT && s.sessions[slot].pending[r.value] == Free
  {
    if slot >= MAX_CLIENTS || !Current(s.sessions[slot], sock) || s.pendingBytes + len > MAX_PENDING_BYTES
    then None
    else FindFree(s.sessions[slot].pending, 0)
  }

  predicate IsDue(e: Entry, now: int) {
    e.Pending? && now - e.lastSendMs >= RETRY_MS
  }

  /** `request_session_prepare_close_locked` */
  function PrepareClose(sess: Session): Session {
    sess.(closing := true, subs := [], sock := if sess.sock >= 0 then -1 else sess.sock)
  }

  function EvictedBy(sess: Session): Session {
    PrepareClose(sess).(suppressWill := true)
  }

  /** The locked region of `request_session_close_if_current`. */
  function CloseCurrent(sess: Session, sock: int): Session {
    if sess.active && sess.sock == sock then sess.(closing := true, sock := -1) else sess
  }

  predicate Owns(sess: Session, id: string) {
    Live(sess) && !sess.retiring && sess.clientId == id
  }

  /** `find_session_by_client_id` from slot `i` on. */
  function FindClient(ss: seq<Session>, id: string, i: nat): (r: Option<nat>)
    requires i <= |ss|
    ensures r.Some? ==> id != "" && i <= r.value < |ss| && Owns(ss[r.value], id)
    ensures r.Some? ==> forall k :: i <= k < r.value ==> !Owns(ss[k], id)
    ensures r.None? && id != "" ==> forall k :: i <= k < |ss| ==> !Owns(ss[k], id)
    decreases |ss| - i
  {
    if i == |ss| || id == "" then None else if Owns(ss[i], id) then Some(i) else FindClient(ss, id, i + 1)
  }

  function SkipFlag(skip: Option<string>): Session -> nat {
    (sess: Session) => if CountsAsDevice(sess, skip) then 1 else 0
  }

  function DeviceCount(ss: seq<Session>, skip: Option<string>): nat {
    Sum(ss, SkipFlag(skip))
  }

  /** `mqtt_device_client_capacity_available_locked` */
  predicate CapacityAvailable(ss: seq<Session>, id: string, replacement: Option<nat>) {
    !IsDeviceId(id) || DeviceCount(ss, if replacement.Some? then Some(id) else None) < MAX_DEVICES
  }

  /** The locked region of `handle_connect`: capacity, takeover, and the new id; None is a refusal. */
  function ConnectRegion(ss: seq<Session>, slot: nat, id: string): (r: Option<seq<Session>>)
    requires slot < |ss|
    ensures r.Some? ==> |r.value| == |ss|
  {
    var prior := FindClient(ss, id, 0);
    if !CapacityAvailable(ss, id, prior) then None
    else
      var evicted := if prior.Some? && prior.value != slot then ss[prior.value := EvictedBy(ss[prior.value])] else ss;
      Some(evicted[slot := evicted[slot].(clientId := id)])
  }

  function ReapOne(sess: Session, now: int): Session {
    if !sess.active && sess.retiring && now >= sess.reusableAfterMs
    then sess.(retiring := false, reusableAfterMs := 0)
    else sess
  }

  /** `reap_retired_session_slots_locked` */
  function Reap(ss: seq<Session>, now: int): (r: seq<Session>)
    ensures |r| == |ss| && forall i :: 0 <= i < |ss| ==> r[i] == ReapOne(ss[i], now)
  {
    seq(|ss|, i requires 0 <= i < |ss| => ReapOne(ss[i], now))
  }

  predicate Vacant(sess: Session) {
    !sess.active && !sess.retiring
  }

  function FindVacant(ss: seq<Session>, i: nat): (r: Option<nat>)
    requires i <= |ss|
    ensures r.Some? ==> i <= r.value < |ss| && Vacant(ss[r.value])
    ensures r.Some? ==> forall k :: i <= k < r.value ==> !Vacant(ss[k])
    ensures r.None? ==> forall k :: i <= k < |ss| ==> !Vacant(ss[k])
    decreases |ss| - i
  {
    if i == |ss| then None else if Vacant(ss[i]) then Some(i) else FindVacant(ss, i + 1)
  }

  /** What `reset_session_runtime_fields` and the activation that follows leave in a slot. */
  const FRESH := Session(-1, true, false, false, false, 0, "", [], EmptyTable(), Accepted)

  /** `alloc_session`; the in-flight table of the chosen slot is wiped, not freed. */
  function AllocRegion(s: State, now: int): (r: State)
    requires WellFormed(s)
    ensures WellFormed(r)
  {
    var ss := Reap(s.sessions, now);
    var slot := FindVacant(ss, 0);
    if slot.None? then s.(sessions := ss)
    else s.(sessions := ss[slot.value := FRESH], clientCount := s.clientCount + 1)
  }
}
