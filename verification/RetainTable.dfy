/**
 The table of retained messages: 32 cells searched and overwritten in place, and the bounded
 finite map it stands for.
 */
module RetainTable {
  import opened Base
  import opened TopicFilter
  import FanOut

  const RETAIN_MAX: nat := 32
  const KEY_MAX: nat := 95
  const VALUE_MAX: nat := 14335

  datatype Cell = Vacant | Retained(topic: string, payload: string, qos: nat)
  datatype Value = Value(payload: string, qos: nat)

  predicate Holds(c: Cell, topic: string) {
    c.Retained? && c.topic == topic
  }

  /** `retain_get`: the first cell with the topic, or the table length. */
  function Find(cs: seq<Cell>, topic: string): (i: nat)
    ensures i <= |cs| && (i < |cs| ==> Holds(cs[i], topic))
    ensures forall k :: 0 <= k < i ==> !Holds(cs[k], topic)
  {
    if cs == [] || Holds(cs[0], topic) then 0 else 1 + Find(cs[1..], topic)
  }

  function FindVacant(cs: seq<Cell>): (i: nat)
    ensures i <= |cs| && (i < |cs| ==> cs[i].Vacant?)
    ensures forall k :: 0 <= k < i ==> cs[k].Retained?
  {
    if cs == [] || cs[0].Vacant? then 0 else 1 + FindVacant(cs[1..])
  }

  /** `retain_store` */
  function Store(cs: seq<Cell>, topic: string, payload: string, qos: nat): (cs': seq<Cell>)
    ensures |cs'| == |cs|
  {
    var i := Find(cs, topic);
    if payload == "" then (if i < |cs| then cs[i := Vacant] else cs)
    else
      var j := if i < |cs| then i else FindVacant(cs);
      if j == |cs| then cs else cs[j := Retained(Clip(topic, KEY_MAX), Clip(payload, VALUE_MAX), qos)]
  }

  // ---------------------------------------------------------------- the map it stands for

  predicate Distinct(cs: seq<Cell>) {
    forall i, j :: 0 <= i < j < |cs| && cs[i].Retained? && cs[j].Retained? ==> cs[i].topic != cs[j].topic
  }

  predicate Fits(cs: seq<Cell>) {
    forall i :: 0 <= i < |cs| && cs[i].Retained? ==> |cs[i].topic| <= KEY_MAX
  }

  function Keys(cs: seq<Cell>): (ks: set<string>) {
    set i | 0 <= i < |cs| && cs[i].Retained? :: cs[i].topic
  }

  function View(cs: seq<Cell>): map<string, Value> {
    map k | k in Keys(cs) && Find(cs, k) < |cs| && cs[Find(cs, k)].Retained? ::
      Value(cs[Find(cs, k)].payload, cs[Find(cs, k)].qos)
  }

  lemma KeyIsFound(cs: seq<Cell>, k: string)
    ensures k in Keys(cs) <==> Find(cs, k) < |cs|
  {
  }

  lemma ViewAt(cs: seq<Cell>, k: string)
    ensures k in View(cs) <==> Find(cs, k) < |cs|
    ensures k in View(cs) ==> View(cs)[k] == Value(cs[Find(cs, k)].payload, cs[Find(cs, k)].qos)
  {
    KeyIsFound(cs, k);
  }

  /** A bounded finite map with deletion by an empty value. */
  function Put(m: map<string, Value>, topic: string, payload: string, qos: nat): map<string, Value> {
    if payload == "" then m - {topic}
    else if topic in m || |m| < RETAIN_MAX then m[topic := Value(Clip(payload, VALUE_MAX), qos)]
    else m
  }

  predicate Full(cs: seq<Cell>) {
    forall i :: 0 <= i < |cs| ==> cs[i].Retained?
  }

  lemma {:induction false} KeyCount(cs: seq<Cell>)
    requires Distinct(cs)
    ensures |Keys(cs)| <= |cs|
    ensures |Keys(cs)| == |cs| <==> Full(cs)
  {
    if cs != [] {
      var n := |cs| - 1;
      var front := cs[..n];
      assert cs == front + [cs[n]];
      KeyCount(front);
      KeysOfMore(front, cs[n]);
    }
  }

  lemma KeysOfMore(front: seq<Cell>, c: Cell)
    requires Distinct(front + [c])
    ensures c.Vacant? ==> Keys(front + [c]) == Keys(front)
    ensures c.Retained? ==> Keys(front + [c]) == Keys(front) + {c.topic} && c.topic !in Keys(front)
    ensures Full(front + [c]) <==> Full(front) && c.Retained?
  {
    var cs := front + [c];
    assert forall i :: 0 <= i < |front| ==> cs[i] == front[i];
    assert cs[|front|] == c;
  }

  lemma ViewSize(cs: seq<Cell>)
    requires Distinct(cs)
    ensures |View(cs)| <= |cs|
    ensures |View(cs)| == |cs| <==> Full(cs)
  {
    KeyCount(cs);
    forall k ensures k in View(cs) <==> k in Keys(cs) {
      ViewAt(cs, k);
      KeyIsFound(cs, k);
    }
    assert View(cs).Keys == Keys(cs);
    assert |View(cs)| == |View(cs).Keys|;
  }

  // ---------------------------------------------------------------- refinement

  /** What the table says about one topic. */
  function Lookup(cs: seq<Cell>, k: string): Option<Value> {
    var i := Find(cs, k);
    if i < |cs| then Some(Value(cs[i].payload, cs[i].qos)) else None
  }

  /** The map of a table, from its answers. */
  lemma ViewIs(cs: seq<Cell>, m: map<string, Value>)
    requires forall k :: k in m <==> Lookup(cs, k).Some?
    requires forall k :: k in m ==> Lookup(cs, k) == Some(m[k])
    ensures View(cs) == m
  {
    forall k ensures k in View(cs) <==> k in m
             ensures k in m ==> View(cs)[k] == m[k] {
      ViewAt(cs, k);
    }
    SameMap(View(cs), m);
  }

  lemma ViewLookup(cs: seq<Cell>, k: string)
    ensures k in View(cs) <==> Lookup(cs, k).Some?
    ensures k in View(cs) ==> Lookup(cs, k) == Some(View(cs)[k])
  {
    ViewAt(cs, k);
  }

  /** Emptying the one cell of a topic: what the table says afterwards. */
  lemma ClearAt(cs: seq<Cell>, i: nat, topic: string, cs': seq<Cell>, k: string)
    requires Distinct(cs) && i < |cs| && Holds(cs[i], topic) && cs' == cs[i := Vacant]
    ensures Lookup(cs', k) == if k == topic then None else Lookup(cs, k)
  {
    FindIs(cs', k, if k == topic then |cs| else Find(cs, k));
  }

  /** No other cell than `i` holds the topic. */
  predicate NowhereElse(cs: seq<Cell>, i: nat, topic: string) {
    forall j :: 0 <= j < |cs| && j != i ==> !Holds(cs[j], topic)
  }

  /** Writing the cell that holds the topic, or a vacant one when none does. */
  lemma WriteAt(cs: seq<Cell>, i: nat, c: Cell, cs': seq<Cell>, k: string)
    requires i < |cs| && c.Retained? && NowhereElse(cs, i, c.topic) && (cs[i].Vacant? || Holds(cs[i], c.topic))
    requires cs' == cs[i := c]
    ensures Lookup(cs', k) == if k == c.topic then Some(Value(c.payload, c.qos)) else Lookup(cs, k)
  {
    FindIs(cs', k, if k == c.topic then i else Find(cs, k));
  }

  /** Emptying the one cell of a topic removes that topic and no other. */
  lemma ClearCell(cs: seq<Cell>, i: nat, topic: string, cs': seq<Cell>)
    requires Distinct(cs) && i < |cs| && Holds(cs[i], topic) && cs' == cs[i := Vacant]
    ensures Distinct(cs') && View(cs') == View(cs) - {topic}
  {
    forall k ensures k in View(cs) - {topic} <==> Lookup(cs', k).Some?
             ensures k in View(cs) - {topic} ==> Lookup(cs', k) == Some((View(cs) - {topic})[k]) {
      ClearAt(cs, i, topic, cs', k);
      ViewLookup(cs, k);
    }
    ViewIs(cs', View(cs) - {topic});
  }

  lemma WriteKeepsDistinct(cs: seq<Cell>, i: nat, c: Cell, cs': seq<Cell>)
    requires Distinct(cs) && i < |cs| && c.Retained? && NowhereElse(cs, i, c.topic) && cs' == cs[i := c]
    ensures Distinct(cs')
  {
  }

  /** Writing a cell sets that topic and no other. */
  lemma WriteCell(cs: seq<Cell>, i: nat, c: Cell, cs': seq<Cell>)
    requires Distinct(cs) && i < |cs| && c.Retained? && NowhereElse(cs, i, c.topic)
    requires (cs[i].Vacant? || Holds(cs[i], c.topic)) && cs' == cs[i := c]
    ensures Distinct(cs') && View(cs') == View(cs)[c.topic := Value(c.payload, c.qos)]
  {
    WriteKeepsDistinct(cs, i, c, cs');
    var m := View(cs)[c.topic := Value(c.payload, c.qos)];
    forall k ensures k in m <==> Lookup(cs', k).Some?
             ensures k in m ==> Lookup(cs', k) == Some(m[k]) {
      WriteAt(cs, i, c, cs', k);
      ViewLookup(cs, k);
    }
    ViewIs(cs', m);
  }

  /** One store is one step of the bounded map. */
  lemma StoreRefines(cs: seq<Cell>, topic: string, payload: string, qos: nat)
    requires |cs| == RETAIN_MAX && Distinct(cs) && |topic| <= KEY_MAX
    ensures Distinct(Store(cs, topic, payload, qos))
    ensures View(Store(cs, topic, payload, qos)) == Put(View(cs), topic, payload, qos)
  {
    if payload == "" {
      DeleteRefines(cs, topic, qos);
    } else {
      OverwriteRefines(cs, topic, payload, qos);
    }
  }

  lemma DeleteRefines(cs: seq<Cell>, topic: string, qos: nat)
    requires Distinct(cs)
    ensures Distinct(Store(cs, topic, "", qos)) && View(Store(cs, topic, "", qos)) == View(cs) - {topic}
  {
    var i := Find(cs, topic);
    ViewAt(cs, topic);
    if i < |cs| {
      ClearCell(cs, i, topic, cs[i := Vacant]);
    } else {
      WithoutAbsent(View(cs), topic);
    }
  }

  lemma WithoutAbsent(m: map<string, Value>, topic: string)
    requires topic !in m
    ensures m - {topic} == m
  {
  }

  lemma OverwriteRefines(cs: seq<Cell>, topic: string, payload: string, qos: nat)
    requires |cs| == RETAIN_MAX && Distinct(cs) && |topic| <= KEY_MAX && payload != ""
    ensures Distinct(Store(cs, topic, payload, qos))
    ensures View(Store(cs, topic, payload, qos)) == Put(View(cs), topic, payload, qos)
  {
    if Find(cs, topic) < |cs| {
      ReplaceRefines(cs, topic, payload, qos);
    } else {
      InsertRefines(cs, topic, payload, qos);
    }
  }

  lemma ReplaceRefines(cs: seq<Cell>, topic: string, payload: string, qos: nat)
    requires Distinct(cs) && |topic| <= KEY_MAX && payload != "" && Find(cs, topic) < |cs|
    ensures Distinct(Store(cs, topic, payload, qos)) && topic in View(cs)
    ensures View(Store(cs, topic, payload, qos)) == View(cs)[topic := Value(Clip(payload, VALUE_MAX), qos)]
  {
    var i, c := Find(cs, topic), Retained(topic, Clip(payload, VALUE_MAX), qos);
    ViewAt(cs, topic);
    assert NowhereElse(cs, i, topic);
    WriteCell(cs, i, c, cs[i := c]);
  }

  lemma InsertRefines(cs: seq<Cell>, topic: string, payload: string, qos: nat)
    requires |cs| == RETAIN_MAX && Distinct(cs) && |topic| <= KEY_MAX && payload != "" && Find(cs, topic) == |cs|
    ensures Distinct(Store(cs, topic, payload, qos))
    ensures View(Store(cs, topic, payload, qos)) == Put(View(cs), topic, payload, qos)
  {
    var i, c := FindVacant(cs), Retained(topic, Clip(payload, VALUE_MAX), qos);
    ViewAt(cs, topic);
    ViewSize(cs);
    if i < |cs| {
      assert !Full(cs) && NowhereElse(cs, i, topic);
      WriteCell(cs, i, c, cs[i := c]);
    } else {
      assert Full(cs);
    }
  }

  datatype Op = Op(topic: string, payload: string, qos: nat)

  function Run(cs: seq<Cell>, ops: seq<Op>): (cs': seq<Cell>)
    ensures |cs'| == |cs|
  {
    if ops == [] then cs
    else
      var last := ops[|ops| - 1];
      Store(Run(cs, ops[..|ops| - 1]), last.topic, last.payload, last.qos)
  }

  function RunMap(m: map<string, Value>, ops: seq<Op>): map<string, Value> {
    if ops == [] then m
    else
      var last := ops[|ops| - 1];
      Put(RunMap(m, ops[..|ops| - 1]), last.topic, last.payload, last.qos)
  }

  function Empty(): (cs: seq<Cell>)
    ensures |cs| == RETAIN_MAX && Distinct(cs)
  {
    seq(RETAIN_MAX, _ => Vacant)
  }

  /** Over every sequence of stores with topics that fit a cell, the table is the bounded map. */
  lemma {:induction false} RunRefines(ops: seq<Op>)
    requires forall i :: 0 <= i < |ops| ==> |ops[i].topic| <= KEY_MAX
    ensures Distinct(Run(Empty(), ops)) && View(Run(Empty(), ops)) == RunMap(map[], ops)
  {
    if ops == [] {
      assert Keys(Empty()) == {};
      assert View(Empty()) == map[];
    } else {
      var last := ops[|ops| - 1];
      RunRefines(ops[..|ops| - 1]);
      StoreRefines(Run(Empty(), ops[..|ops| - 1]), last.topic, last.payload, last.qos);
    }
  }

  // ---------------------------------------------------------------- topics that do not fit

  /** A topic longer than a cell is never found again. */
  lemma LongTopicIsNotFound(cs: seq<Cell>, topic: string)
    requires Fits(cs) && |topic| > KEY_MAX
    ensures Find(cs, topic) == |cs|
  {
  }

  lemma StoreFits(cs: seq<Cell>, topic: string, payload: string, qos: nat)
    requires Fits(cs)
    ensures Fits(Store(cs, topic, payload, qos))
  {
  }

  /** Exactly when a store keeps the topics of the table apart. */
  lemma StoreKeepsDistinct(cs: seq<Cell>, topic: string, payload: string, qos: nat)
    requires |cs| == RETAIN_MAX && Distinct(cs) && Fits(cs)
    ensures Distinct(Store(cs, topic, payload, qos)) <==>
      |topic| <= KEY_MAX || payload == "" || Full(cs) || topic[..KEY_MAX] !in Keys(cs)
  {
    if |topic| <= KEY_MAX {
      StoreRefines(cs, topic, payload, qos);
    } else {
      LongTopicIsNotFound(cs, topic);
      var j := FindVacant(cs);
      if payload != "" && j < |cs| {
        LongStore(cs, topic, payload, qos, j);
      }
    }
  }

  lemma LongStore(cs: seq<Cell>, topic: string, payload: string, qos: nat, j: nat)
    requires Distinct(cs) && j < |cs| && cs[j].Vacant? && |topic| > KEY_MAX
    ensures Distinct(cs[j := Retained(topic[..KEY_MAX], payload, qos)]) <==> topic[..KEY_MAX] !in Keys(cs)
  {
    var key := topic[..KEY_MAX];
    var cs' := cs[j := Retained(key, payload, qos)];
    if key in Keys(cs) {
      var i :| 0 <= i < |cs| && cs[i].Retained? && cs[i].topic == key;
      assert cs'[i].topic == cs'[j].topic && i != j;
      if i < j { assert !Distinct(cs'); } else { assert !Distinct(cs'); }
    }
  }

  /** A long topic stored twice takes two cells with one key. */
  lemma LongTopicRepeats(topic: string, payload: string, qos: nat)
    requires |topic| > KEY_MAX && payload != ""
    ensures !Distinct(Store(Store(Empty(), topic, payload, qos), topic, payload, qos))
  {
    var once := Store(Empty(), topic, payload, qos);
    StoreFits(Empty(), topic, payload, qos);
    LongTopicIsNotFound(Empty(), topic);
    assert once == Empty()[0 := Retained(topic[..KEY_MAX], Clip(payload, VALUE_MAX), qos)] by {
      assert FindVacant(Empty()) == 0;
    }
    assert once[0].topic == topic[..KEY_MAX];
    assert topic[..KEY_MAX] in Keys(once);
    assert Distinct(once);
    assert once[1].Vacant?;
    StoreKeepsDistinct(once, topic, payload, qos);
  }

  // ---------------------------------------------------------------- the code

  class Retain {
    const cells: array<Cell>

    constructor ()
      ensures fresh(cells) && cells[..] == Empty()
    {
      cells := new Cell[RETAIN_MAX](_ => Vacant);
    }

    method Get(topic: string) returns (i: nat)
      ensures i == Find(cells[..], topic)
    {
      i := 0;
      while i < cells.Length
        invariant i <= cells.Length && forall k :: 0 <= k < i ==> !Holds(cells[k], topic)
      {
        if Holds(cells[i], topic) {
          assert Holds(cells[..][i], topic);
          break;
        }
        i := i + 1;
      }
      FindIs(cells[..], topic, i);
    }

    method GetVacant() returns (i: nat)
      ensures i == FindVacant(cells[..])
    {
      i := 0;
      while i < cells.Length
        invariant i <= cells.Length && forall k :: 0 <= k < i ==> cells[k].Retained?
      {
        if cells[i].Vacant? {
          assert cells[..][i].Vacant?;
          break;
        }
        i := i + 1;
      }
      FindVacantIs(cells[..], i);
    }

    method Put(topic: string, payload: string, qos: nat)
      modifies cells
      ensures cells[..] == Store(old(cells[..]), topic, payload, qos)
    {
      var slot := Get(topic);
      if payload == "" {
        if slot < cells.Length {
          cells[slot] := Vacant;
        }
        return;
      }
      if slot == cells.Length {
        slot := GetVacant();
      }
      if slot == cells.Length {
        return;
      }
      cells[slot] := Retained(Clip(topic, KEY_MAX), Clip(payload, VALUE_MAX), qos);
    }
  }

  lemma FindIs(cs: seq<Cell>, topic: string, i: nat)
    requires i <= |cs| && (i < |cs| ==> Holds(cs[i], topic))
    requires forall k :: 0 <= k < i ==> !Holds(cs[k], topic)
    ensures Find(cs, topic) == i
  {
  }

  lemma FindVacantIs(cs: seq<Cell>, i: nat)
    requires i <= |cs| && (i < |cs| ==> cs[i].Vacant?)
    requires forall k :: 0 <= k < i ==> cs[k].Retained?
    ensures FindVacant(cs) == i
  {
  }

  // ---------------------------------------------------------------- delivery to a new subscriber

  datatype Delivery = Delivery(cell: nat, topic: string, payload: string, qos: nat, pid: nat)

  predicate Wanted(c: Cell, filter: string) {
    c.Retained? && Matches(filter, c.topic)
  }

  /** The deliveries of the first `n` cells: one for each that matches, in table order. */
  predicate Delivers(cs: seq<Cell>, ds: seq<Delivery>, n: nat, filter: string, qos: nat)
    requires n <= |cs|
  {
    if n == 0 then ds == []
    else if !Wanted(cs[n - 1], filter) then Delivers(cs, ds, n - 1, filter, qos)
    else
      ds != [] && DeliversCell(cs[n - 1], ds[|ds| - 1], n - 1, qos) && Delivers(cs, ds[..|ds| - 1], n - 1, filter, qos)
  }

  predicate DeliversCell(c: Cell, d: Delivery, i: nat, qos: nat)
    requires c.Retained?
  {
    && d.cell == i && d.topic == c.topic && d.payload == c.payload
    && d.qos == FanOut.EffectiveQos(c.qos, qos) && (d.pid != 0 <==> d.qos == 1)
  }

  /** Every delivery is of a wanted cell, and they come in table order. */
  lemma {:induction false} DeliveredAreWanted(cs: seq<Cell>, ds: seq<Delivery>, n: nat, filter: string, qos: nat)
    requires n <= |cs| && Delivers(cs, ds, n, filter, qos)
    ensures forall d :: 0 <= d < |ds| ==>
      ds[d].cell < n && Wanted(cs[ds[d].cell], filter) && DeliversCell(cs[ds[d].cell], ds[d], ds[d].cell, qos)
    ensures forall d, e :: 0 <= d < e < |ds| ==> ds[d].cell < ds[e].cell
  {
    if n > 0 {
      if Wanted(cs[n - 1], filter) {
        DeliveredAreWanted(cs, ds[..|ds| - 1], n - 1, filter, qos);
        assert forall d :: 0 <= d < |ds| - 1 ==> ds[..|ds| - 1][d] == ds[d];
      } else {
        DeliveredAreWanted(cs, ds, n - 1, filter, qos);
      }
    }
  }

  predicate DeliveredFor(ds: seq<Delivery>, i: nat) {
    exists d :: 0 <= d < |ds| && ds[d].cell == i
  }

  /** Every wanted cell is delivered. */
  lemma {:induction false} WantedAreDelivered(cs: seq<Cell>, ds: seq<Delivery>, n: nat, filter: string, qos: nat,
                                             i: nat)
    requires i < n <= |cs| && Delivers(cs, ds, n, filter, qos) && Wanted(cs[i], filter)
    ensures DeliveredFor(ds, i)
  {
    if i == n - 1 {
      assert ds[|ds| - 1].cell == i;
    } else if Wanted(cs[n - 1], filter) {
      var front := ds[..|ds| - 1];
      WantedAreDelivered(cs, front, n - 1, filter, qos, i);
      var d :| 0 <= d < |front| && front[d].cell == i;
      assert ds[d].cell == i;
    } else {
      WantedAreDelivered(cs, ds, n - 1, filter, qos, i);
    }
  }

  /** So each retained message whose topic matches is delivered exactly once. */
  lemma EachDeliveredOnce(cs: seq<Cell>, ds: seq<Delivery>, n: nat, filter: string, qos: nat)
    requires n <= |cs| && Delivers(cs, ds, n, filter, qos)
    ensures forall d :: 0 <= d < |ds| ==>
      ds[d].cell < n && Wanted(cs[ds[d].cell], filter) && DeliversCell(cs[ds[d].cell], ds[d], ds[d].cell, qos)
    ensures forall d, e :: 0 <= d < e < |ds| ==> ds[d].cell < ds[e].cell
    ensures forall i :: 0 <= i < n && Wanted(cs[i], filter) ==> DeliveredFor(ds, i)
  {
    DeliveredAreWanted(cs, ds, n, filter, qos);
    forall i | 0 <= i < n && Wanted(cs[i], filter) ensures DeliveredFor(ds, i) {
      WantedAreDelivered(cs, ds, n, filter, qos, i);
    }
  }

  /**
   `deliver_retain`. The lock is taken for each cell in turn, so `cs[i]` is cell `i` as it was when the
   loop came to it, and other threads may store in between; `sends[i]` is the outcome of sending it.
   The first failed send ends the delivery.
   */
  method DeliverRetain(cs: seq<Cell>, filter: string, qos: nat, ids: FanOut.PacketIds, others: seq<nat>,
                       sends: seq<bool>)
    returns (ds: seq<Delivery>, n: nat)
    requires |others| == |cs| == |sends| && ids.last < 65536
    modifies ids
    ensures n <= |cs| && Delivers(cs, ds, n, filter, qos)
    ensures n < |cs| ==> n > 0 && Wanted(cs[n - 1], filter) && !sends[n - 1]
  {
    ds, n := [], 0;
    while n < |cs|
      invariant n <= |cs| && Delivers(cs, ds, n, filter, qos) && ids.last < 65536
    {
      var c := cs[n];
      var matched := false;
      if c.Retained? {
        matched := TopicMatchesFilter(filter, c.topic);
      }
      if matched {
        var out := FanOut.EffectiveQos(c.qos, qos);
        var pid, _ := ids.Draw(out, others[n]);
        var d := Delivery(n, c.topic, c.payload, out, pid);
        assert (ds + [d])[..|ds|] == ds;
        ds := ds + [d];
        if !sends[n] {
          n := n + 1;
          return;
        }
      }
      n := n + 1;
    }
  }
}
