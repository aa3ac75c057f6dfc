/** Packet identifiers, delivery quality of service, and the choice of receivers for a publication. */
module FanOut {
  import opened Base
  import opened Broker
  import opened TopicFilter

  // ---------------------------------------------------------------- packet identifiers

  /** `mqtt_next_packet_id`: a 16-bit counter that skips zero. */
  function NextId(last: nat): (id: nat)
    requires last < 65536
    ensures 0 < id < 65536
  {
    var id := (last + 1) % 65536;
    if id == 0 then 1 else id
  }

  /** The id handed out `k` draws after the counter stood at `start`. */
  function IdAfter(start: nat, k: nat): (id: nat)
    requires start < 65536
    ensures id < 65536 && (k > 0 ==> id > 0)
  {
    if k == 0 then start else NextId(IdAfter(start, k - 1))
  }

  lemma {:induction false} IdIs(start: nat, k: nat)
    requires start < 65536 && k > 0
    ensures IdAfter(start, k) == (start + k - 1) % 65535 + 1
  {
    assert IdAfter(start, k) == NextId(IdAfter(start, k - 1));
    if k == 1 {
      FirstIdIs(start);
    } else {
      IdIs(start, k - 1);
      NextIdIs(start + k - 2);
    }
  }

  lemma FirstIdIs(start: nat)
    requires start < 65536
    ensures NextId(start) == start % 65535 + 1
  {
  }

  lemma NextIdIs(n: nat)
    ensures NextId(n % 65535 + 1) == (n + 1) % 65535 + 1
  {
    AddModulo(n, 1);
  }

  /** Any 65,535 consecutive draws give pairwise distinct ids. */
  lemma IdsDistinct(start: nat, i: nat, j: nat)
    requires start < 65536 && 0 < i < j < i + 65535
    ensures IdAfter(start, i) != IdAfter(start, j)
  {
    IdIs(start, i);
    IdIs(start, j);
    ApartModulo(start + i - 1, start + j - 1);
  }

  lemma ApartModulo(a: nat, b: nat)
    requires a < b < a + 65535
    ensures a % 65535 != b % 65535
  {
  }

  /** So every id from 1 to 65,535 is handed out once in each such round. */
  lemma EveryIdIsUsed(start: nat, from: nat, id: nat) returns (k: nat)
    requires start < 65536 && 0 < from && 0 < id < 65536
    ensures from <= k < from + 65535 && IdAfter(start, k) == id
  {
    var base := (start + from - 1) % 65535;
    var step := if id - 1 >= base then id - 1 - base else id - 1 - base + 65535;
    k := from + step;
    IdIs(start, k);
    AddModulo(start + from - 1, step);
  }

  lemma AddModulo(a: nat, d: nat)
    requires d < 65535
    ensures (a + d) % 65535 == if a % 65535 + d < 65535 then a % 65535 + d else a % 65535 + d - 65535
  {
    assert a == (a / 65535) * 65535 + a % 65535;
    if a % 65535 + d < 65535 {
      assert a + d == (a / 65535) * 65535 + (a % 65535 + d);
    } else {
      assert a + d == (a / 65535 + 1) * 65535 + (a % 65535 + d - 65535);
    }
  }

  class PacketIds {
    var last: nat

    constructor ()
      ensures last == 0
    {
      last := 0;
    }

    method Next() returns (id: nat)
      requires last < 65536
      modifies this
      ensures id == last == NextId(old(last))
    {
      last := (last + 1) % 65536;
      if last == 0 {
        last := 1;
      }
      id := last;
    }

    /** Draws by other tasks. */
    method Others(n: nat)
      requires last < 65536
      modifies this
      ensures last == IdAfter(old(last), n)
    {
      var k := 0;
      while k < n
        invariant k <= n && last == IdAfter(old(last), k)
      {
        var _ := Next();
        k := k + 1;
      }
    }

    /** A delivery at quality of service 0 draws no id. */
    method Draw(qos: nat, others: nat) returns (pid: nat, ghost used: nat)
      requires last < 65536
      modifies this
      ensures last == IdAfter(old(last), used)
      ensures if qos == 0 then pid == 0 && used == 0 else pid == last && used > 0
    {
      pid, used := 0, 0;
      if qos != 0 {
        Others(others);
        pid := Next();
        used := others + 1;
      }
    }
  }

  lemma {:induction false} IdsCompose(start: nat, a: nat, b: nat)
    requires start < 65536
    ensures IdAfter(IdAfter(start, a), b) == IdAfter(start, a + b)
  {
    if b > 0 { IdsCompose(start, a, b - 1); }
  }

  // ---------------------------------------------------------------- quality of service

  /** `mqtt_effective_delivery_qos`: the smaller of the two, and at most 1. */
  function EffectiveQos(publish: nat, subscription: nat): (q: nat)
    ensures q <= 1 && q <= publish && q <= subscription
    ensures q == 1 || q == publish || q == subscription
  {
    var p, s := if publish > 1 then 1 else publish, if subscription > 1 then 1 else subscription;
    if p < s then p else s
  }

  // ---------------------------------------------------------------- choice of receivers

  /** The first subscription in table order whose filter matches, or the table length. */
  function FirstMatch(subs: seq<Subscription>, topic: string): (j: nat)
    ensures j <= |subs|
  {
    if subs == [] || Matches(subs[0].topic, topic) then 0 else 1 + FirstMatch(subs[1..], topic)
  }

  lemma {:induction false} FirstMatchIs(subs: seq<Subscription>, topic: string)
    ensures FirstMatch(subs, topic) < |subs| ==> Matches(subs[FirstMatch(subs, topic)].topic, topic)
    ensures forall i :: 0 <= i < FirstMatch(subs, topic) ==> !Matches(subs[i].topic, topic)
  {
    if subs != [] && !Matches(subs[0].topic, topic) {
      FirstMatchIs(subs[1..], topic);
      var j := FirstMatch(subs[1..], topic);
      assert forall i :: 1 <= i < 1 + j ==> subs[i] == subs[1..][i - 1];
    }
  }

  predicate Eligible(s: Session) {
    s.active && !s.closing && s.sock >= 0
  }

  /** Slot `i` receives the publication. */
  predicate Chosen(ss: seq<Session>, i: nat, exclude: Option<nat>, topic: string)
    requires i < |ss|
  {
    Eligible(ss[i]) && exclude != Some(i) && FirstMatch(ss[i].subs, topic) < |ss[i].subs|
  }

  datatype Target = Target(slot: nat, sock: int, qos: nat, pid: nat, clientId: string)

  function QosFor(s: Session, topic: string, qos: nat): nat
    requires FirstMatch(s.subs, topic) < |s.subs|
  {
    EffectiveQos(qos, s.subs[FirstMatch(s.subs, topic)].qos)
  }

  /** The entry `t` is what a chosen slot must get, apart from the value of a non-zero id. */
  predicate Right(ss: seq<Session>, t: Target, exclude: Option<nat>, topic: string, qos: nat) {
    && t.slot < |ss| && Chosen(ss, t.slot, exclude, topic)
    && t.sock == ss[t.slot].sock && t.clientId == ss[t.slot].clientId
    && t.qos == QosFor(ss[t.slot], topic, qos)
    && (t.pid != 0 <==> t.qos == 1)
  }

  predicate Increasing(ts: seq<Target>) {
    forall a, b :: 0 <= a < b < |ts| ==> ts[a].slot < ts[b].slot
  }

  /** The chosen slots below `n` are exactly those of the targets, each once and in order. */
  predicate Covers(ss: seq<Session>, ts: seq<Target>, n: nat, exclude: Option<nat>, topic: string, qos: nat)
    requires n <= |ss|
  {
    && Increasing(ts)
    && (forall a :: 0 <= a < |ts| ==> Right(ss, ts[a], exclude, topic, qos) && ts[a].slot < n)
    && (forall i :: 0 <= i < n && Chosen(ss, i, exclude, topic) ==> exists a :: 0 <= a < |ts| && ts[a].slot == i)
  }

  /** The ids of the acknowledged targets are the draws at the given, increasing, positions. */
  predicate Drawn(ts: seq<Target>, at: seq<nat>, start: nat, total: nat)
    requires start < 65536
  {
    && |at| == |ts|
    && (forall a :: 0 <= a < |ts| && ts[a].qos == 1 ==> 0 < at[a] <= total && ts[a].pid == IdAfter(start, at[a]))
    && (forall a, b :: 0 <= a < b < |ts| && ts[a].qos == 1 && ts[b].qos == 1 ==> at[a] < at[b])
  }

  lemma CoverSkip(ss: seq<Session>, ts: seq<Target>, n: nat, exclude: Option<nat>, topic: string, qos: nat)
    requires n < |ss| && Covers(ss, ts, n, exclude, topic, qos) && !Chosen(ss, n, exclude, topic)
    ensures Covers(ss, ts, n + 1, exclude, topic, qos)
  {
  }

  lemma CoverAdd(ss: seq<Session>, ts: seq<Target>, t: Target, n: nat, exclude: Option<nat>, topic: string, qos: nat)
    requires n < |ss| && Covers(ss, ts, n, exclude, topic, qos)
    requires Right(ss, t, exclude, topic, qos) && t.slot == n
    ensures Covers(ss, ts + [t], n + 1, exclude, topic, qos)
  {
    var us := ts + [t];
    forall i | 0 <= i < n + 1 && Chosen(ss, i, exclude, topic) ensures exists a :: 0 <= a < |us| && us[a].slot == i {
      if i == n {
        assert us[|ts|].slot == n;
      } else {
        var a :| 0 <= a < |ts| && ts[a].slot == i;
        assert us[a].slot == i;
      }
    }
  }

  lemma DrawnAdd(ts: seq<Target>, t: Target, at: seq<nat>, start: nat, total: nat, total': nat)
    requires start < 65536 && Drawn(ts, at, start, total) && total <= total'
    requires t.qos == 1 ==> total < total' && t.pid == IdAfter(start, total')
    ensures Drawn(ts + [t], at + [total'], start, total')
  {
  }

  /** The whole promise about the targets of the first `n` slots. */
  predicate Selection(ss: seq<Session>, ts: seq<Target>, at: seq<nat>, start: nat, total: nat, n: nat,
                      exclude: Option<nat>, topic: string, qos: nat)
    requires start < 65536
  {
    n <= |ss| && Covers(ss, ts, n, exclude, topic, qos) && Drawn(ts, at, start, total)
  }

  lemma ExtendWith(ss: seq<Session>, ts: seq<Target>, at: seq<nat>, start: nat, total: nat, n: nat,
                   exclude: Option<nat>, topic: string, qos: nat, t: Target, total': nat)
    requires start < 65536 && n < |ss| && Selection(ss, ts, at, start, total, n, exclude, topic, qos)
    requires t.slot == n && Right(ss, t, exclude, topic, qos) && total <= total'
    requires t.qos == 1 ==> total < total' && t.pid == IdAfter(start, total')
    ensures Selection(ss, ts + [t], at + [total'], start, total', n + 1, exclude, topic, qos)
  {
    CoverAdd(ss, ts, t, n, exclude, topic, qos);
    DrawnAdd(ts, t, at, start, total, total');
  }

  lemma ExtendWithout(ss: seq<Session>, ts: seq<Target>, at: seq<nat>, start: nat, total: nat, n: nat,
                      exclude: Option<nat>, topic: string, qos: nat)
    requires start < 65536 && n < |ss| && Selection(ss, ts, at, start, total, n, exclude, topic, qos)
    requires !Chosen(ss, n, exclude, topic)
    ensures Selection(ss, ts, at, start, total, n + 1, exclude, topic, qos)
  {
    CoverSkip(ss, ts, n, exclude, topic, qos);
  }

  /** Acknowledged targets of one publication get different ids while fewer than 65,536 ids are drawn meanwhile. */
  lemma TargetIdsDistinct(ts: seq<Target>, at: seq<nat>, start: nat, total: nat, a: nat, b: nat)
    requires start < 65536 && Drawn(ts, at, start, total) && total <= 65535
    requires a < b < |ts| && ts[a].qos == 1 && ts[b].qos == 1
    ensures ts[a].pid != ts[b].pid
  {
    IdsDistinct(start, at[a], at[b]);
  }

  /** No matching subscription would have given a higher quality of service (section 3.3.5 of MQTT 3.1.1). */
  predicate DeliversBest(s: Session, topic: string, qos: nat)
    requires FirstMatch(s.subs, topic) < |s.subs|
  {
    forall j :: 0 <= j < |s.subs| && Matches(s.subs[j].topic, topic) ==>
      EffectiveQos(qos, s.subs[j].qos) <= QosFor(s, topic, qos)
  }

  /**
   The first match decides, so a later match at a higher quality of service is lost unless the first
   asks for 1 too.
   */
  lemma WhenBest(s: Session, topic: string, qos: nat)
    requires FirstMatch(s.subs, topic) < |s.subs|
    ensures DeliversBest(s, topic, qos) <==>
      || qos == 0
      || s.subs[FirstMatch(s.subs, topic)].qos != 0
      || (forall j :: FirstMatch(s.subs, topic) < j < |s.subs| && Matches(s.subs[j].topic, topic) ==>
        s.subs[j].qos == 0)
  {
    FirstMatchIs(s.subs, topic);
    if DeliversBest(s, topic, qos) && qos != 0 && s.subs[FirstMatch(s.subs, topic)].qos == 0 {
      forall j | FirstMatch(s.subs, topic) < j < |s.subs| && Matches(s.subs[j].topic, topic)
        ensures s.subs[j].qos == 0
      {
        assert EffectiveQos(qos, s.subs[j].qos) <= QosFor(s, topic, qos);
      }
    }
  }

  /** Subscribed to `a/#` at 0 and then to `a` at 1, a client gets `a` at 0. */
  lemma FirstNotBest()
    ensures
      var s := COLD.(subs := [Subscription("a" + "/#", 0), Subscription("a", 1)]);
      FirstMatch(s.subs, "a") == 0 && QosFor(s, "a", 1) == 0 && !DeliversBest(s, "a", 1)
  {
    var s := COLD.(subs := [Subscription("a" + "/#", 0), Subscription("a", 1)]);
    NoWildcardChar("a");
    SubtreeFilter("a", "a");
    LiteralFilter("a", "a");
    assert Matches(s.subs[1].topic, "a");
    WhenBest(s, "a", 1);
  }

  /** The inner loop: the first matching subscription. */
  method FindMatch(subs: seq<Subscription>, topic: string) returns (j: nat)
    ensures j == FirstMatch(subs, topic)
  {
    j := 0;
    while j < |subs|
      invariant j <= |subs| && FirstMatch(subs, topic) == j + FirstMatch(subs[j..], topic)
    {
      var matched := TopicMatchesFilter(subs[j].topic, topic);
      assert subs[j..][1..] == subs[j + 1..];
      if matched {
        return;
      }
      j := j + 1;
    }
  }

  /** One slot of the fan-out: the target it gives, if it is chosen. */
  method SelectOne(ss: seq<Session>, i: nat, exclude: Option<nat>, topic: string, qos: nat, ids: PacketIds, others: nat)
    returns (t: Option<Target>, ghost used: nat)
    requires i < |ss| && ids.last < 65536
    modifies ids
    ensures t.Some? <==> Chosen(ss, i, exclude, topic)
    ensures t.Some? ==> t.value.slot == i && Right(ss, t.value, exclude, topic, qos)
    ensures t.Some? && t.value.qos == 1 ==> used > 0 && t.value.pid == ids.last
    ensures t.None? ==> used == 0
    ensures ids.last == IdAfter(old(ids.last), used)
  {
    t, used := None, 0;
    if Eligible(ss[i]) && exclude != Some(i) {
      var j := FindMatch(ss[i].subs, topic);
      if j < |ss[i].subs| {
        var outQos := EffectiveQos(qos, ss[i].subs[j].qos);
        var pid;
        pid, used := ids.Draw(outQos, others);
        t := Some(Target(i, ss[i].sock, outQos, pid, ss[i].clientId));
      }
    }
  }

  /**
   The locked part of `publish_to_subscribers`: the targets, in slot order. `others[i]` ids are
   drawn by tasks outside the lock just before slot `i` draws its own.
   */
  method SelectTargets(ss: seq<Session>, exclude: Option<nat>, topic: string, qos: nat, ids: PacketIds,
                       others: seq<nat>)
    returns (targets: seq<Target>, ghost at: seq<nat>, ghost total: nat)
    requires |others| == |ss| && ids.last < 65536
    modifies ids
    ensures Selection(ss, targets, at, old(ids.last), total, |ss|, exclude, topic, qos)
    ensures ids.last == IdAfter(old(ids.last), total)
  {
    targets, at, total := [], [], 0;
    ghost var start := ids.last;
    var i := 0;
    while i < |ss|
      invariant i <= |ss| && ids.last == IdAfter(start, total)
      invariant Selection(ss, targets, at, start, total, i, exclude, topic, qos)
    {
      targets, at, total := SelectNext(ss, i, exclude, topic, qos, ids, others[i], targets, at, start, total);
      i := i + 1;
    }
  }

  /** One round of the outer loop. */
  method SelectNext(ss: seq<Session>, i: nat, exclude: Option<nat>, topic: string, qos: nat, ids: PacketIds,
                    others: nat,
                    before: seq<Target>, ghost at: seq<nat>, ghost start: nat, ghost total: nat)
    returns (targets: seq<Target>, ghost at': seq<nat>, ghost total': nat)
    requires i < |ss| && start < 65536 && ids.last == IdAfter(start, total)
    requires Selection(ss, before, at, start, total, i, exclude, topic, qos)
    modifies ids
    ensures ids.last == IdAfter(start, total')
    ensures Selection(ss, targets, at', start, total', i + 1, exclude, topic, qos)
  {
    var t, used := SelectOne(ss, i, exclude, topic, qos, ids, others);
    IdsCompose(start, total, used);
    total' := total + used;
    if t.Some? {
      ExtendWith(ss, before, at, start, total, i, exclude, topic, qos, t.value, total');
      targets, at' := before + [t.value], at + [total'];
    } else {
      ExtendWithout(ss, before, at, start, total, i, exclude, topic, qos);
      targets, at' := before, at;
    }
  }
}
