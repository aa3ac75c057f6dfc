/**
 Packet ids in the step system: every packet is built under an id drawn from the one 16-bit counter,
 and the place of that draw in the order of all draws decides which ids of waiting entries can meet.
 */
module BrokerIds {
  import opened Base
  import opened Broker
  import opened BrokerSteps
  import opened BrokerInvariant
  import opened BrokerTheorems
  import opened BrokerDelivery
  import opened FanOut

  /** The counter wraps after this many draws. */
  const ROUND: nat := 65535

  /**
   The broker with its id counter. Draws are counted from 1; `held` are those whose id no packet has yet,
   and `at` tells for each packet ever built the draw its id came from.
   */
  datatype IdState = IdState(broker: State, draws: nat, held: set<nat>, at: map<nat, nat>)

  datatype IdStep = Draw | Do(step: Step, draw: nat)

  const START := IdState(Init(), 0, {}, map[])

  /** `mqtt_next_packet_id` is its own region under a lock; a packet takes an id drawn before. */
  predicate Allowed(i: IdState, next: IdStep)
    requires WellFormed(i.broker)
  {
    next.Do? ==>
      && Enabled(i.broker, next.step)
      && (next.step.Build? ==> next.draw in i.held && next.step.message.pid == IdAfter(0, next.draw))
  }

  function After(i: IdState, next: IdStep): (r: IdState)
    requires WellFormed(i.broker) && Allowed(i, next)
    ensures WellFormed(r.broker)
  {
    match next
    case Draw => i.(draws := i.draws + 1, held := i.held + {i.draws + 1})
    case Do(step, draw) =>
      var r := i.(broker := Apply(i.broker, step));
      if step.Build? then r.(held := i.held - {draw}, at := i.at[i.broker.nextPacket := draw]) else r
  }

  predicate Possible(i: IdState, steps: seq<IdStep>)
    requires WellFormed(i.broker)
    decreases |steps|
  {
    steps == [] || (Allowed(i, steps[0]) && Possible(After(i, steps[0]), steps[1..]))
  }

  function AfterAll(i: IdState, steps: seq<IdStep>): (r: IdState)
    requires WellFormed(i.broker) && Possible(i, steps)
    ensures WellFormed(r.broker)
    decreases |steps|
  {
    if steps == [] then i else AfterAll(After(i, steps[0]), steps[1..])
  }

  ghost predicate CanBe(i: IdState) {
    exists steps :: Possible(START, steps) && i == AfterAll(START, steps)
  }

  // ---------------------------------------------------------------- packets and their ids

  predicate BuilderHas(s: State, t: nat, packet: nat, pid: nat) {
    t in s.tasks && s.tasks[t].Built? && s.tasks[t].packet == packet && s.tasks[t].pid == pid
  }

  predicate EntryHas(s: State, slot: nat, k: nat, packet: nat, pid: nat)
    requires WellFormed(s)
  {
    slot < MAX_CLIENTS && k < MAX_INFLIGHT &&
    var e := s.sessions[slot].pending[k]; e.Pending? && e.packet == packet && e.pid == pid
  }

  /** Some builder or entry has the packet under the id. */
  ghost predicate Has(s: State, packet: nat, pid: nat)
    requires WellFormed(s)
  {
    (exists t: nat :: BuilderHas(s, t, packet, pid)) ||
    (exists slot: nat, k: nat :: EntryHas(s, slot, k, packet, pid))
  }

  predicate IsNew(s: State, step: Step, packet: nat, pid: nat) {
    step.Build? && packet == s.nextPacket && pid == step.message.pid
  }

  lemma BuildersHad(s: State, step: Step, t: nat, packet: nat, pid: nat)
    requires WellFormed(s) && Enabled(s, step) && BuilderHas(Apply(s, step), t, packet, pid)
    ensures BuilderHas(s, t, packet, pid) || IsNew(s, step, packet, pid)
  {
    if !step.Build? && !step.Reserve? {
      StepKeepsBuilders(s, step);
    }
  }

  lemma EntriesHad(s: State, step: Step, slot: nat, k: nat, packet: nat, pid: nat)
    requires WellFormed(s) && Enabled(s, step) && EntryHas(Apply(s, step), slot, k, packet, pid)
    ensures Has(s, packet, pid)
  {
    if step.Reserve? {
      ReservedHad(s, step.t, step.now, slot, k, packet, pid);
    } else if !step.Build? {
      StepKeepsLoads(s, step);
      assert SameLoad(s.sessions[slot].pending[k], Apply(s, step).sessions[slot].pending[k]);
      assert EntryHas(s, slot, k, packet, pid);
    } else {
      assert EntryHas(s, slot, k, packet, pid);
    }
  }

  lemma ReservedHad(s: State, t: nat, now: int, slot: nat, k: nat, packet: nat, pid: nat)
    requires WellFormed(s) && Enabled(s, Reserve(t, now)) && EntryHas(ReserveStep(s, t, now), slot, k, packet, pid)
    ensures EntryHas(s, slot, k, packet, pid) || BuilderHas(s, t, packet, pid)
  {
  }

  /** A packet keeps its id through every step, and only a build brings a new one. */
  lemma StepKeepsIds(s: State, step: Step)
    requires WellFormed(s) && Enabled(s, step)
    ensures forall packet, pid :: Has(Apply(s, step), packet, pid) ==>
      Has(s, packet, pid) || IsNew(s, step, packet, pid)
  {
    var r := Apply(s, step);
    forall packet: nat, pid: nat | Has(r, packet, pid) ensures Has(s, packet, pid) || IsNew(s, step, packet, pid) {
      if t: nat :| BuilderHas(r, t, packet, pid) {
        BuildersHad(s, step, t, packet, pid);
      } else {
        var slot: nat, k: nat :| EntryHas(r, slot, k, packet, pid);
        EntriesHad(s, step, slot, k, packet, pid);
      }
    }
  }

  lemma HadIsOld(s: State, packet: nat, pid: nat)
    requires Inv(s) && Has(s, packet, pid)
    ensures packet < s.nextPacket
  {
    if t: nat :| BuilderHas(s, t, packet, pid) {
      FreshPacket(s, t);
    } else {
      var slot: nat, k: nat :| EntryHas(s, slot, k, packet, pid);
      FreshEntry(s, slot, k);
    }
  }

  // ---------------------------------------------------------------- the invariant

  ghost predicate NamedByDraw(s: State, at: map<nat, nat>)
    requires WellFormed(s)
  {
    forall packet, pid :: Has(s, packet, pid) ==> packet in at && pid == IdAfter(0, at[packet])
  }

  /** No draw is used twice. */
  predicate DrawsOk(draws: nat, held: set<nat>, at: map<nat, nat>, nextPacket: nat) {
    && (forall k :: k in held ==> 0 < k <= draws)
    && (forall p :: p in at ==> p < nextPacket && 0 < at[p] <= draws && at[p] !in held)
    && (forall p, q :: p in at && q in at && p != q ==> at[p] != at[q])
  }

  ghost predicate IdInv(i: IdState) {
    && Reachable(i.broker) && WellFormed(i.broker)
    && NamedByDraw(i.broker, i.at)
    && DrawsOk(i.draws, i.held, i.at, i.broker.nextPacket)
  }

  lemma PacketsGrow(s: State, step: Step)
    requires WellFormed(s) && Enabled(s, step)
    ensures Apply(s, step).nextPacket == if step.Build? then s.nextPacket + 1 else s.nextPacket
  {
    if step.Run? { RunPackets(s, step.t); }
  }

  lemma RunPackets(s: State, t: nat)
    requires WellFormed(s) && Enabled(s, Run(t))
    ensures RunStep(s, t).nextPacket == s.nextPacket
  {
    var HasTx(slot, job) := s.tasks[t];
    match job
    case Retry(_, _, _) => RetryPackets(s, t, slot, job);
    case Ack(pid) => AckPackets(s, slot, pid);
    case Free_ => ClearPackets(s, slot, 0);
    case _ =>
  }

  lemma RetryPackets(s: State, t: nat, slot: nat, job: Job)
    requires WellFormed(s) && slot < MAX_CLIENTS && job.Retry? && IndexOk(job)
    ensures RetryStep(s, t, slot, job).nextPacket == s.nextPacket
  {
  }

  lemma AckPackets(s: State, slot: nat, pid: nat)
    requires WellFormed(s) && slot < MAX_CLIENTS
    ensures AckRegion(s, slot, pid).nextPacket == s.nextPacket
  {
  }

  lemma {:induction false} ClearPackets(s: State, slot: nat, i: nat)
    requires WellFormed(s) && slot < MAX_CLIENTS && i <= MAX_INFLIGHT
    ensures ClearFrom(s, slot, i).nextPacket == s.nextPacket
    decreases MAX_INFLIGHT - i
  {
    if i < MAX_INFLIGHT { ClearPackets(FreeEntry(s, slot, i), slot, i + 1); }
  }

  lemma NamedAfter(s: State, step: Step, at: map<nat, nat>, draw: nat)
    requires Inv(s) && Enabled(s, step) && NamedByDraw(s, at)
    requires step.Build? ==> step.message.pid == IdAfter(0, draw)
    ensures NamedByDraw(Apply(s, step), if step.Build? then at[s.nextPacket := draw] else at)
  {
    var r, after := Apply(s, step), if step.Build? then at[s.nextPacket := draw] else at;
    StepKeepsIds(s, step);
    forall packet, pid | Has(r, packet, pid) ensures packet in after && pid == IdAfter(0, after[packet]) {
      if Has(s, packet, pid) {
        HadIsOld(s, packet, pid);
      }
    }
  }

  lemma DrawTaken(draws: nat, held: set<nat>, at: map<nat, nat>, nextPacket: nat, draw: nat)
    requires DrawsOk(draws, held, at, nextPacket) && draw in held
    ensures DrawsOk(draws, held - {draw}, at[nextPacket := draw], nextPacket + 1)
  {
  }

  lemma StepIds(i: IdState, next: IdStep)
    requires IdInv(i) && Allowed(i, next)
    ensures IdInv(After(i, next))
  {
    if next.Do? {
      ReachableInv(i.broker);
      ExecCons(i.broker, next.step, []);
      Continued(i.broker, [next.step] + []);
      NamedAfter(i.broker, next.step, i.at, next.draw);
      PacketsGrow(i.broker, next.step);
      if next.step.Build? {
        DrawTaken(i.draws, i.held, i.at, i.broker.nextPacket, next.draw);
      }
    }
  }

  lemma {:induction false} RunIds(i: IdState, steps: seq<IdStep>)
    requires IdInv(i) && Possible(i, steps)
    ensures IdInv(AfterAll(i, steps))
    decreases |steps|
  {
    if steps != [] {
      StepIds(i, steps[0]);
      RunIds(After(i, steps[0]), steps[1..]);
    }
  }

  lemma StartIds()
    ensures IdInv(START)
  {
    assert Feasible(Init(), []);
    assert Exec(Init(), []) == Init();
    forall packet: nat, pid: nat ensures !Has(Init(), packet, pid) {
    }
  }

  lemma CanBeIds(i: IdState)
    requires CanBe(i)
    ensures IdInv(i)
  {
    var steps :| Possible(START, steps) && i == AfterAll(START, steps);
    StartIds();
    RunIds(START, steps);
  }

  // ---------------------------------------------------------------- which ids can meet

  /** The draw an entry's id came from. */
  ghost predicate DrawnAt(i: IdState, slot: nat, k: nat, draw: nat)
    requires WellFormed(i.broker)
  {
    && slot < MAX_CLIENTS && k < MAX_INFLIGHT
    && var e := i.broker.sessions[slot].pending[k];
       e.Pending? && e.packet in i.at && i.at[e.packet] == draw
  }

  /** Every waiting entry has its own draw. */
  lemma EntryDraw(i: IdState, slot: nat, k: nat) returns (draw: nat)
    requires CanBe(i) && WellFormed(i.broker) && slot < MAX_CLIENTS && k < MAX_INFLIGHT
    requires i.broker.sessions[slot].pending[k].Pending?
    ensures DrawnAt(i, slot, k, draw) && 0 < draw <= i.draws
    ensures i.broker.sessions[slot].pending[k].pid == IdAfter(0, draw)
  {
    CanBeIds(i);
    var e := i.broker.sessions[slot].pending[k];
    assert EntryHas(i.broker, slot, k, e.packet, e.pid);
    assert Has(i.broker, e.packet, e.pid);
    draw := i.at[e.packet];
  }

  lemma SameIdIff(a: nat, b: nat)
    requires 0 < a <= b
    ensures IdAfter(0, a) == IdAfter(0, b) <==> (b - a) % ROUND == 0
  {
    IdIs(0, a);
    IdIs(0, b);
    SameIds(IdAfter(0, a), IdAfter(0, b), a, b);
  }

  lemma SameIds(x: nat, y: nat, a: nat, b: nat)
    requires 0 < a <= b && x == (a - 1) % ROUND + 1 && y == (b - 1) % ROUND + 1
    ensures x == y <==> (b - a) % ROUND == 0
  {
    SameRemainder(a - 1, b - 1, b - a);
  }

  lemma SameRemainder(a: nat, b: nat, d: nat)
    requires a + d == b
    ensures a % ROUND == b % ROUND <==> d % ROUND == 0
  {
    var r := d % ROUND;
    var m := d / ROUND;
    assert d == m * ROUND + r;
    AddModulo(a, r);
    RoundsPass(a + r, m);
    assert b == a + r + m * ROUND;
  }

  lemma {:induction false} RoundsPass(n: nat, m: nat)
    ensures (n + m * ROUND) % ROUND == n % ROUND
  {
    if m > 0 {
      RoundsPass(n, m - 1);
      OneRound(n + (m - 1) * ROUND);
    }
  }

  lemma OneRound(n: nat)
    ensures (n + ROUND) % ROUND == n % ROUND
  {
  }

  /**
   Two waiting entries of the broker, of one session or of two, have the same packet id if and only if a
   whole number of rounds of 65,535 ids lies between their draws.
   */
  lemma WhenIdsMeet(i: IdState, slot1: nat, k1: nat, slot2: nat, k2: nat, a: nat, b: nat)
    requires CanBe(i) && WellFormed(i.broker) && DrawnAt(i, slot1, k1, a) && DrawnAt(i, slot2, k2, b) && a <= b
    ensures i.broker.sessions[slot1].pending[k1].pid == i.broker.sessions[slot2].pending[k2].pid <==>
      (b - a) % ROUND == 0
    ensures a == b <==> slot1 == slot2 && k1 == k2
  {
    CanBeIds(i);
    var a' := EntryDraw(i, slot1, k1);
    var b' := EntryDraw(i, slot2, k2);
    SameIdIff(a, b);
    if a == b {
      PacketsAreOwnedOnce(i.broker, slot1, k1, slot2, k2);
    }
  }

  /** The entry is waiting since fewer than 65,535 ids were drawn. */
  ghost predicate Recent(i: IdState, slot: nat, k: nat)
    requires WellFormed(i.broker)
  {
    exists draw: nat :: DrawnAt(i, slot, k, draw) && draw <= i.draws < draw + ROUND
  }

  /** While fewer than 65,535 ids were drawn since the older of two entries, their ids differ. */
  lemma WaitingIdsDiffer(i: IdState, slot1: nat, k1: nat, slot2: nat, k2: nat)
    requires CanBe(i) && WellFormed(i.broker) && Recent(i, slot1, k1) && Recent(i, slot2, k2)
    requires slot1 != slot2 || k1 != k2
    ensures i.broker.sessions[slot1].pending[k1].pid != i.broker.sessions[slot2].pending[k2].pid
  {
    var a: nat :| DrawnAt(i, slot1, k1, a) && a <= i.draws < a + ROUND;
    var b: nat :| DrawnAt(i, slot2, k2, b) && b <= i.draws < b + ROUND;
    if a <= b {
      WhenIdsMeet(i, slot1, k1, slot2, k2, a, b);
    } else {
      WhenIdsMeet(i, slot2, k2, slot1, k1, b, a);
    }
  }

  /** An acknowledgement then leaves no entry of the session with its id. */
  lemma AckClearsTheId(i: IdState, slot: nat, pid: nat)
    requires CanBe(i) && WellFormed(i.broker) && slot < MAX_CLIENTS
    requires forall k: nat :: k < MAX_INFLIGHT && i.broker.sessions[slot].pending[k].Pending? ==> Recent(i, slot, k)
    ensures forall k :: 0 <= k < MAX_INFLIGHT ==>
      !AckMatches(AckRegion(i.broker, slot, pid).sessions[slot].pending[k], pid)
  {
    var p := i.broker.sessions[slot].pending;
    var found := FindAck(p, pid, 0);
    if found.Some? {
      forall k: nat | k < MAX_INFLIGHT && k != found.value ensures !AckMatches(p[k], pid) {
        if p[k].Pending? { WaitingIdsDiffer(i, slot, k, slot, found.value); }
      }
    }
  }
}
