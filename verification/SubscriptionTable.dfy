/**
 The subscription list of a session: at most 16 entries, updated in place, and the ordered
 finite map it stands for.
 */
module SubscriptionTable {
  import opened Base
  import opened Broker

  const MAX_SUBS: nat := 16
  const TOPIC_MAX: nat := 95

  function Granted(qos: nat): nat {
    if qos > 1 then 1 else qos
  }

  /** The first subscription with the topic, or the list length. */
  function Find(subs: seq<Subscription>, topic: string): (i: nat)
    ensures i <= |subs| && (i < |subs| ==> subs[i].topic == topic)
    ensures forall k :: 0 <= k < i ==> subs[k].topic != topic
  {
    if subs == [] || subs[0].topic == topic then 0 else 1 + Find(subs[1..], topic)
  }

  /** `mqtt_upsert_subscription`; `None` is a refusal. */
  function Upsert(subs: seq<Subscription>, topic: string, qos: nat): Option<seq<Subscription>> {
    var i := Find(subs, topic);
    if topic == "" then None
    else if i < |subs| then Some(subs[i := subs[i].(qos := Granted(qos))])
    else if |subs| >= MAX_SUBS then None
    else Some(subs + [Subscription(Clip(topic, TOPIC_MAX), Granted(qos))])
  }

  /** What `handle_unsubscribe` leaves: every entry with another topic, in the old order. */
  function Remove(subs: seq<Subscription>, topic: string): (r: seq<Subscription>)
    ensures |r| <= |subs|
  {
    if subs == [] then []
    else (if subs[0].topic == topic then [] else [subs[0]]) + Remove(subs[1..], topic)
  }

  // ---------------------------------------------------------------- the map it stands for

  predicate Distinct(subs: seq<Subscription>) {
    forall i, j :: 0 <= i < j < |subs| ==> subs[i].topic != subs[j].topic
  }

  predicate Fits(subs: seq<Subscription>) {
    forall i :: 0 <= i < |subs| ==> 0 < |subs[i].topic| <= TOPIC_MAX
  }

  function Keys(subs: seq<Subscription>): (ks: set<string>) {
    set i | 0 <= i < |subs| :: subs[i].topic
  }

  function View(subs: seq<Subscription>): map<string, nat> {
    map k | k in Keys(subs) && Find(subs, k) < |subs| :: subs[Find(subs, k)].qos
  }

  lemma FindIs(subs: seq<Subscription>, topic: string, i: nat)
    requires i <= |subs| && (i < |subs| ==> subs[i].topic == topic)
    requires forall k :: 0 <= k < i ==> subs[k].topic != topic
    ensures Find(subs, topic) == i
  {
  }

  lemma ViewAt(subs: seq<Subscription>, k: string)
    ensures k in View(subs) <==> Find(subs, k) < |subs|
    ensures k in Keys(subs) <==> Find(subs, k) < |subs|
    ensures k in View(subs) ==> View(subs)[k] == subs[Find(subs, k)].qos
  {
  }

  lemma {:induction false} KeyCount(subs: seq<Subscription>)
    requires Distinct(subs)
    ensures |Keys(subs)| == |subs|
  {
    if subs != [] {
      var n := |subs| - 1;
      KeyCount(subs[..n]);
      assert Keys(subs) == Keys(subs[..n]) + {subs[n].topic};
      assert subs[n].topic !in Keys(subs[..n]);
    }
  }

  /** Without repeated topics the map has as many keys as the list has entries. */
  lemma ViewSize(subs: seq<Subscription>)
    requires Distinct(subs)
    ensures |View(subs)| == |subs|
  {
    KeyCount(subs);
    forall k ensures k in View(subs) <==> k in Keys(subs) {
      ViewAt(subs, k);
    }
    assert View(subs).Keys == Keys(subs);
    assert |View(subs)| == |View(subs).Keys|;
  }

  // ---------------------------------------------------------------- subscribing

  lemma ReplaceAt(subs: seq<Subscription>, i: nat, qos: nat, subs': seq<Subscription>, k: string)
    requires Distinct(subs) && i < |subs| && subs' == subs[i := subs[i].(qos := qos)]
    ensures k in View(subs') <==> k in View(subs)
    ensures k in View(subs) ==> View(subs')[k] == if k == subs[i].topic then qos else View(subs)[k]
  {
    ViewAt(subs, k);
    ViewAt(subs', k);
    FindIs(subs', k, Find(subs, k));
  }

  lemma ReplaceRefines(subs: seq<Subscription>, i: nat, qos: nat, subs': seq<Subscription>)
    requires Distinct(subs) && i < |subs| && subs' == subs[i := subs[i].(qos := qos)]
    ensures Distinct(subs') && View(subs') == View(subs)[subs[i].topic := qos]
  {
    ViewAt(subs, subs[i].topic);
    forall k ensures k in View(subs') <==> k in View(subs)[subs[i].topic := qos]
             ensures k in View(subs') ==> View(subs')[k] == View(subs)[subs[i].topic := qos][k] {
      ReplaceAt(subs, i, qos, subs', k);
    }
    SameMap(View(subs'), View(subs)[subs[i].topic := qos]);
  }

  lemma AppendAt(subs: seq<Subscription>, s: Subscription, subs': seq<Subscription>, k: string)
    requires Find(subs, s.topic) == |subs| && subs' == subs + [s]
    ensures k in View(subs') <==> k in View(subs) || k == s.topic
    ensures k in View(subs') ==> View(subs')[k] == if k == s.topic then s.qos else View(subs)[k]
  {
    ViewAt(subs, k);
    ViewAt(subs', k);
    var f := Find(subs, k);
    FindIs(subs', k, if f < |subs| || k == s.topic then f else |subs| + 1);
  }

  lemma AppendRefines(subs: seq<Subscription>, s: Subscription, subs': seq<Subscription>)
    requires Distinct(subs) && Find(subs, s.topic) == |subs| && subs' == subs + [s]
    ensures Distinct(subs') && View(subs') == View(subs)[s.topic := s.qos]
  {
    forall k ensures k in View(subs') <==> k in View(subs)[s.topic := s.qos]
             ensures k in View(subs') ==> View(subs')[k] == View(subs)[s.topic := s.qos][k] {
      AppendAt(subs, s, subs', k);
    }
    SameMap(View(subs'), View(subs)[s.topic := s.qos]);
  }

  /** A subscription that is not refused sets one key; the topics already there keep their places. */
  lemma UpsertRefines(subs: seq<Subscription>, topic: string, qos: nat)
    requires Distinct(subs) && |subs| <= MAX_SUBS && |topic| <= TOPIC_MAX
    ensures Upsert(subs, topic, qos).None? <==> topic == "" || (topic !in View(subs) && |View(subs)| == MAX_SUBS)
    ensures Upsert(subs, topic, qos).Some? ==>
      var subs' := Upsert(subs, topic, qos).value;
      && Distinct(subs') && |subs'| <= MAX_SUBS
      && View(subs') == View(subs)[topic := Granted(qos)]
      && |subs| <= |subs'| && (forall i :: 0 <= i < |subs| ==> subs'[i].topic == subs[i].topic)
  {
    var i := Find(subs, topic);
    ViewAt(subs, topic);
    ViewSize(subs);
    if i < |subs| {
      ReplaceRefines(subs, i, Granted(qos), subs[i := subs[i].(qos := Granted(qos))]);
    } else {
      AppendRefines(subs, Subscription(topic, Granted(qos)), subs + [Subscription(topic, Granted(qos))]);
    }
  }

  /** Exactly when subscribing keeps the topics apart. */
  lemma UpsertKeepsDistinct(subs: seq<Subscription>, topic: string, qos: nat)
    requires Distinct(subs) && Fits(subs) && |subs| <= MAX_SUBS && Upsert(subs, topic, qos).Some?
    ensures Distinct(Upsert(subs, topic, qos).value) <==>
      |topic| <= TOPIC_MAX || topic[..TOPIC_MAX] !in Keys(subs)
  {
    if |topic| <= TOPIC_MAX {
      UpsertRefines(subs, topic, qos);
    } else {
      var key := topic[..TOPIC_MAX];
      var subs' := subs + [Subscription(key, Granted(qos))];
      FindIs(subs, topic, |subs|);
      if key in Keys(subs) {
        var i :| 0 <= i < |subs| && subs[i].topic == key;
        assert subs'[i].topic == subs'[|subs|].topic;
      }
    }
  }

  // ---------------------------------------------------------------- unsubscribing

  lemma {:induction false} RemoveKeeps(subs: seq<Subscription>, topic: string, s: Subscription)
    ensures s in Remove(subs, topic) <==> s in subs && s.topic != topic
  {
    if subs != [] { RemoveKeeps(subs[1..], topic, s); }
  }

  lemma {:induction false} RemoveDistinct(subs: seq<Subscription>, topic: string)
    requires Distinct(subs)
    ensures Distinct(Remove(subs, topic))
  {
    if subs != [] {
      RemoveDistinct(subs[1..], topic);
      var rest := Remove(subs[1..], topic);
      forall k | 0 <= k < |rest| ensures rest[k].topic != subs[0].topic {
        RemoveKeeps(subs[1..], topic, rest[k]);
      }
    }
  }

  /** In a list without repeated topics, membership is lookup. */
  lemma ViewOfMember(subs: seq<Subscription>, k: string, q: nat)
    requires Distinct(subs)
    ensures (k in View(subs) && View(subs)[k] == q) <==> Subscription(k, q) in subs
  {
    ViewAt(subs, k);
    if Subscription(k, q) in subs {
      var i :| 0 <= i < |subs| && subs[i] == Subscription(k, q);
      FindIs(subs, k, i);
    }
  }

  /** Unsubscribing removes the key and nothing else. */
  lemma RemoveRefines(subs: seq<Subscription>, topic: string)
    requires Distinct(subs)
    ensures Distinct(Remove(subs, topic)) && View(Remove(subs, topic)) == View(subs) - {topic}
  {
    var rest := Remove(subs, topic);
    RemoveDistinct(subs, topic);
    forall k ensures k in View(rest) <==> k in View(subs) && k != topic
             ensures k in View(rest) ==> View(rest)[k] == View(subs)[k] {
      RemoveAt(subs, topic, k);
    }
    SameMap(View(rest), View(subs) - {topic});
  }

  lemma RemoveAt(subs: seq<Subscription>, topic: string, k: string)
    requires Distinct(subs) && Distinct(Remove(subs, topic))
    ensures k in View(Remove(subs, topic)) <==> k in View(subs) && k != topic
    ensures k in View(Remove(subs, topic)) ==> View(Remove(subs, topic))[k] == View(subs)[k]
  {
    var rest := Remove(subs, topic);
    if k in View(rest) {
      ViewOfMember(rest, k, View(rest)[k]);
      RemoveKeeps(subs, topic, Subscription(k, View(rest)[k]));
      ViewOfMember(subs, k, View(rest)[k]);
    } else if k in View(subs) && k != topic {
      ViewOfMember(subs, k, View(subs)[k]);
      RemoveKeeps(subs, topic, Subscription(k, View(subs)[k]));
      ViewOfMember(rest, k, View(subs)[k]);
    }
  }

  /** The remaining topics keep their order. */
  lemma {:induction false} RemoveKeepsOrder(subs: seq<Subscription>, topic: string, x: string, y: string)
    requires x != topic && y != topic && Find(subs, x) < Find(subs, y)
    ensures Find(Remove(subs, topic), x) < Find(Remove(subs, topic), y)
  {
    var rest := Remove(subs[1..], topic);
    assert subs != [];
    if subs[0].topic == topic {
      assert Remove(subs, topic) == rest;
      RemoveKeepsOrder(subs[1..], topic, x, y);
    } else {
      var r := Remove(subs, topic);
      assert r == [subs[0]] + rest && r[1..] == rest;
      if subs[0].topic != x {
        RemoveKeepsOrder(subs[1..], topic, x, y);
      }
    }
  }

  // ---------------------------------------------------------------- runs

  datatype Op = Subscribe(topic: string, qos: nat) | Unsubscribe(topic: string)

  function Apply(subs: seq<Subscription>, op: Op): seq<Subscription> {
    match op
    case Subscribe(topic, qos) =>
      var r := Upsert(subs, topic, qos);
      if r.Some? then r.value else subs
    case Unsubscribe(topic) => Remove(subs, topic)
  }

  function Run(subs: seq<Subscription>, ops: seq<Op>): seq<Subscription>
    decreases |ops|
  {
    if ops == [] then subs else Run(Apply(subs, ops[0]), ops[1..])
  }

  /** A finite map with at most 16 keys, none of them empty. */
  function ApplyMap(m: map<string, nat>, op: Op): map<string, nat> {
    match op
    case Subscribe(topic, qos) =>
      if topic == "" || (topic !in m && |m| == MAX_SUBS) then m else m[topic := Granted(qos)]
    case Unsubscribe(topic) => m - {topic}
  }

  function RunMap(m: map<string, nat>, ops: seq<Op>): map<string, nat>
    decreases |ops|
  {
    if ops == [] then m else RunMap(ApplyMap(m, ops[0]), ops[1..])
  }

  lemma ApplyRefines(subs: seq<Subscription>, op: Op)
    requires Distinct(subs) && |subs| <= MAX_SUBS && |op.topic| <= TOPIC_MAX
    ensures Distinct(Apply(subs, op)) && |Apply(subs, op)| <= MAX_SUBS
    ensures View(Apply(subs, op)) == ApplyMap(View(subs), op)
  {
    match op
    case Subscribe(topic, qos) => UpsertRefines(subs, topic, qos);
    case Unsubscribe(topic) => RemoveRefines(subs, topic);
  }

  /** Over every sequence of operations with topics that fit an entry, the list is the bounded map. */
  lemma {:induction false} RunRefines(subs: seq<Subscription>, ops: seq<Op>)
    requires Distinct(subs) && |subs| <= MAX_SUBS
    requires forall i :: 0 <= i < |ops| ==> |ops[i].topic| <= TOPIC_MAX
    ensures Distinct(Run(subs, ops)) && |Run(subs, ops)| <= MAX_SUBS
    ensures View(Run(subs, ops)) == RunMap(View(subs), ops)
    decreases |ops|
  {
    if ops != [] {
      ApplyRefines(subs, ops[0]);
      RunRefines(Apply(subs, ops[0]), ops[1..]);
    }
  }

  // ---------------------------------------------------------------- the code

  class Subscriptions {
    const subs: array<Subscription>
    var count: nat

    ghost predicate Valid()
      reads this
    {
      subs.Length == MAX_SUBS && count <= MAX_SUBS
    }

    ghost function List(): seq<Subscription>
      requires Valid()
      reads this, subs
    {
      subs[..count]
    }

    constructor ()
      ensures Valid() && fresh(subs) && List() == []
    {
      subs := new Subscription[MAX_SUBS](_ => Subscription("", 0));
      count := 0;
    }

    method Search(topic: string) returns (i: nat)
      requires Valid()
      ensures i == Find(List(), topic)
    {
      i := 0;
      while i < count
        invariant i <= count && forall k :: 0 <= k < i ==> subs[k].topic != topic
      {
        if subs[i].topic == topic {
          break;
        }
        i := i + 1;
      }
      FindIs(List(), topic, i);
    }

    method Subscribe(topic: string, qos: nat) returns (ok: bool, granted: nat)
      requires Valid()
      modifies this`count, subs
      ensures Valid()
      ensures ok <==> Upsert(old(List()), topic, qos).Some?
      ensures ok ==> granted == Granted(qos) && List() == Upsert(old(List()), topic, qos).value
      ensures !ok ==> List() == old(List())
    {
      granted := Granted(qos);
      if topic == "" {
        return false, granted;
      }
      var i := Search(topic);
      if i < count {
        subs[i] := Subscription(subs[i].topic, granted);
        return true, granted;
      }
      if count >= MAX_SUBS {
        return false, granted;
      }
      subs[count] := Subscription(Clip(topic, TOPIC_MAX), granted);
      count := count + 1;
      return true, granted;
    }

    /** Close the gap at `i` and zero the freed cell. */
    method Shift(i: nat)
      requires Valid() && i < count
      modifies this`count, subs
      ensures Valid() && List() == old(List()[..i] + List()[i + 1..])
    {
      forall k | i <= k < count - 1 {
        subs[k] := subs[k + 1];
      }
      subs[count - 1] := Subscription("", 0);
      count := count - 1;
    }

    method Unsubscribe(topic: string)
      requires Valid()
      modifies this`count, subs
      ensures Valid() && List() == Remove(old(List()), topic)
    {
      ghost var was := List();
      var i := 0;
      while i < count
        invariant Valid() && i <= count
        invariant Remove(was, topic) == List()[..i] + Remove(List()[i..], topic)
        decreases count - i
      {
        ghost var now := List();
        RemoveStep(now, i, topic);
        if subs[i].topic == topic {
          Shift(i);
          assert List()[..i] == now[..i] && List()[i..] == now[i + 1..];
        } else {
          i := i + 1;
        }
      }
      assert List()[i..] == [] && List()[..i] == List();
    }
  }

  /** What one round of the removal loop leaves to do. */
  lemma RemoveStep(now: seq<Subscription>, i: nat, topic: string)
    requires i < |now|
    ensures now[i].topic == topic ==> Remove(now[i..], topic) == Remove(now[i + 1..], topic)
    ensures now[i].topic != topic ==>
      now[..i] + Remove(now[i..], topic) == now[..i + 1] + Remove(now[i + 1..], topic)
  {
    assert now[i..][1..] == now[i + 1..];
  }
}
