/**
 The event bus: a pool of 128 message cells, a 128-entry queue of cells, any number
 of posting tasks and one dispatching task. Each critical section and each queue call is one step.
 */
module EventBus {
  import opened Base

  const POOL: nat := 128

  datatype Event = Event(body: string, high: bool)

  /** A posting task between two of its steps; `Failed` is the path after a full queue. */
  datatype Post = Allocated(slot: nat, event: Event) | Filled(slot: nat) | Failed(slot: nat)

  datatype Dispatcher = Idle | Got(slot: nat) | Ran(slot: nat)

  datatype Owner = Nobody | Poster(t: nat) | Queue | Consumer

  /** `posted`, `dispatched` and `owner` are history: no step reads them. */
  datatype State = State(
    inUse: seq<bool>,
    pool: seq<Event>,
    queue: seq<nat>,
    posts: map<nat, Post>,
    dispatcher: Dispatcher,
    posted: seq<Event>,
    dispatched: seq<Event>,
    owner: seq<Owner>)

  const BLANK := Event("", false)

  predicate Shaped(s: State) {
    |s.inUse| == |s.pool| == |s.owner| == POOL
  }

  function Init(): (s: State)
    ensures Shaped(s)
  {
    State(seq(POOL, _ => false), seq(POOL, _ => BLANK), [], map[], Idle, [], [], seq(POOL, _ => Nobody))
  }

  /** The first cell not in use, or the pool size. */
  function FirstFree(inUse: seq<bool>): (i: nat)
    ensures i <= |inUse| && (i < |inUse| ==> !inUse[i])
    ensures forall k :: 0 <= k < i ==> inUse[k]
  {
    if inUse == [] || !inUse[0] then 0 else 1 + FirstFree(inUse[1..])
  }

  // ---------------------------------------------------------------- steps

  datatype Step =
    | Alloc(t: nat, event: Event)
    | Fill(t: nat)
    | Send(t: nat)
    | GiveUp(t: nat)
    | Receive
    | Dispatch
    | Release

  predicate Enabled(s: State, step: Step)
    requires Shaped(s)
  {
    match step
    case Alloc(t, _) => t !in s.posts
    case Fill(t) => t in s.posts && s.posts[t].Allocated? && s.posts[t].slot < POOL
    case Send(t) => t in s.posts && s.posts[t].Filled? && s.posts[t].slot < POOL
    case GiveUp(t) => t in s.posts && s.posts[t].Failed? && s.posts[t].slot < POOL
    case Receive => s.dispatcher.Idle? && s.queue != []
    case Dispatch => s.dispatcher.Got? && s.dispatcher.slot < POOL
    case Release => s.dispatcher.Ran? && s.dispatcher.slot < POOL
  }

  function Apply(s: State, step: Step): (s': State)
    requires Shaped(s) && Enabled(s, step)
    ensures Shaped(s')
  {
    match step
    case Alloc(t, event) => AllocStep(s, t, event)
    case Fill(t) => FillStep(s, t)
    case Send(t) => SendStep(s, t)
    case GiveUp(t) => GiveUpStep(s, t)
    case Receive => ReceiveStep(s)
    case Dispatch => DispatchStep(s)
    case Release => ReleaseStep(s)
  }

  /** `message_pool_alloc`; without a free cell the event is dropped. */
  function AllocStep(s: State, t: nat, event: Event): State
    requires Shaped(s)
  {
    var i := FirstFree(s.inUse);
    if i == POOL then s
    else s.(inUse := s.inUse[i := true], pool := s.pool[i := BLANK],
            posts := s.posts[t := Allocated(i, event)], owner := s.owner[i := Poster(t)])
  }

  /** The event is copied into the cell. */
  function FillStep(s: State, t: nat): State
    requires Shaped(s) && Enabled(s, Fill(t))
  {
    var i := s.posts[t].slot;
    s.(pool := s.pool[i := s.posts[t].event], posts := s.posts[t := Filled(i)])
  }

  /** The cell is queued, at the front when the event is urgent; a full queue is a failure. */
  function SendStep(s: State, t: nat): State
    requires Shaped(s) && Enabled(s, Send(t))
  {
    var i := s.posts[t].slot;
    if |s.queue| == POOL then s.(posts := s.posts[t := Failed(i)])
    else s.(queue := if s.pool[i].high then [i] + s.queue else s.queue + [i],
            posts := s.posts - {t}, posted := s.posted + [s.pool[i]], owner := s.owner[i := Queue])
  }

  function GiveUpStep(s: State, t: nat): State
    requires Shaped(s) && Enabled(s, GiveUp(t))
  {
    var i := s.posts[t].slot;
    s.(inUse := s.inUse[i := false], posts := s.posts - {t}, owner := s.owner[i := Nobody])
  }

  function ReceiveStep(s: State): State
    requires Shaped(s) && Enabled(s, Receive)
  {
    var i := s.queue[0];
    if i >= POOL then s
    else s.(queue := s.queue[1..], dispatcher := Got(i), owner := s.owner[i := Consumer])
  }

  /** The handlers run on the cell. */
  function DispatchStep(s: State): State
    requires Shaped(s) && Enabled(s, Dispatch)
  {
    s.(dispatcher := Ran(s.dispatcher.slot), dispatched := s.dispatched + [s.pool[s.dispatcher.slot]])
  }

  /** `message_pool_free` */
  function ReleaseStep(s: State): State
    requires Shaped(s) && Enabled(s, Release)
  {
    var i := s.dispatcher.slot;
    s.(inUse := s.inUse[i := false], dispatcher := Idle, owner := s.owner[i := Nobody])
  }

  // ---------------------------------------------------------------- invariant

  /** Each cell in use has one owner, and owners and cells agree. */
  predicate Owned(inUse: seq<bool>, owner: seq<Owner>) {
    |inUse| == |owner| == POOL && forall i :: 0 <= i < POOL ==> (inUse[i] <==> !owner[i].Nobody?)
  }

  predicate PostsOwn(posts: map<nat, Post>, owner: seq<Owner>) {
    forall t :: t in posts ==> posts[t].slot < |owner| && owner[posts[t].slot] == Poster(t) && !posts[t].Failed?
  }

  predicate DistinctSlots(queue: seq<nat>) {
    forall i, j :: 0 <= i < j < |queue| ==> queue[i] != queue[j]
  }

  predicate QueueOwns(queue: seq<nat>, owner: seq<Owner>) {
    && DistinctSlots(queue)
    && (forall i :: 0 <= i < |queue| ==> queue[i] < |owner| && owner[queue[i]] == Queue)
  }

  predicate ConsumerOwns(d: Dispatcher, owner: seq<Owner>) {
    d.Idle? || (d.slot < |owner| && owner[d.slot] == Consumer)
  }

  predicate InPool(queue: seq<nat>, n: nat) {
    forall i :: 0 <= i < |queue| ==> queue[i] < n
  }

  function Contents(pool: seq<Event>, queue: seq<nat>): (es: seq<Event>)
    requires InPool(queue, |pool|)
    ensures |es| == |queue| && forall i :: 0 <= i < |es| ==> es[i] == pool[queue[i]]
  {
    seq(|queue|, i requires 0 <= i < |queue| => pool[queue[i]])
  }

  function InHand(d: Dispatcher, pool: seq<Event>): seq<Event> {
    if d.Got? && d.slot < |pool| then [pool[d.slot]] else []
  }

  /** Urgent events first. */
  predicate UrgentFirst(es: seq<Event>) {
    forall i, j :: 0 <= i < j < |es| && es[j].high ==> es[i].high
  }

  function Normals(es: seq<Event>): seq<Event> {
    if es == [] then [] else (if es[0].high then [] else [es[0]]) + Normals(es[1..])
  }

  /** What was posted is what was dispatched, is in hand or is queued. */
  predicate Conserved(posted: seq<Event>, dispatched: seq<Event>, hand: seq<Event>, waiting: seq<Event>) {
    multiset(posted) == multiset(dispatched) + multiset(hand) + multiset(waiting)
  }

  /** Normal events leave in the order in which they came. */
  predicate InOrder(posted: seq<Event>, dispatched: seq<Event>, hand: seq<Event>, waiting: seq<Event>) {
    Normals(posted) == Normals(dispatched) + (Normals(hand) + Normals(waiting))
  }

  predicate Owners(s: State) {
    && Shaped(s) && Owned(s.inUse, s.owner)
    && PostsOwn(s.posts, s.owner) && QueueOwns(s.queue, s.owner) && ConsumerOwns(s.dispatcher, s.owner)
  }

  predicate Flow(posted: seq<Event>, dispatched: seq<Event>, hand: seq<Event>, waiting: seq<Event>) {
    && UrgentFirst(waiting)
    && Conserved(posted, dispatched, hand, waiting)
    && InOrder(posted, dispatched, hand, waiting)
  }

  predicate Inv(s: State) {
    Owners(s) && Flow(s.posted, s.dispatched, InHand(s.dispatcher, s.pool), Contents(s.pool, s.queue))
  }

  // ---------------------------------------------------------------- small facts

  lemma {:induction false} NormalsAppend(a: seq<Event>, b: seq<Event>)
    ensures Normals(a + b) == Normals(a) + Normals(b)
  {
    if a == [] {
      assert a + b == b;
    } else {
      assert (a + b)[1..] == a[1..] + b;
      NormalsAppend(a[1..], b);
    }
  }

  /** Distinct cells that all avoid one cell number fewer than the pool has. */
  lemma RoomLeft(queue: seq<nat>, n: nat, missing: nat)
    requires DistinctSlots(queue) && InPool(queue, n) && missing < n && missing !in queue
    ensures |queue| < n
  {
    UsedCount(queue);
    assert Used(queue) <= Below(n) - {missing};
    Subset(Used(queue), Below(n) - {missing});
  }

  function Below(n: nat): (all: set<nat>)
    ensures |all| == n && forall k: nat :: k in all <==> k < n
  {
    if n == 0 then {} else Below(n - 1) + {n - 1}
  }

  function Used(queue: seq<nat>): (used: set<nat>)
    ensures forall k :: k in used <==> k in queue
  {
    if queue == [] then {} else {queue[0]} + Used(queue[1..])
  }

  lemma {:induction false} UsedCount(queue: seq<nat>)
    requires DistinctSlots(queue)
    ensures |Used(queue)| == |queue|
  {
    if queue != [] {
      UsedCount(queue[1..]);
      assert queue[0] !in queue[1..];
    }
  }

  lemma {:induction false} Subset(a: set<nat>, b: set<nat>)
    requires a <= b
    ensures |a| <= |b|
    decreases a
  {
    if a != {} {
      var x :| x in a;
      Subset(a - {x}, b - {x});
    }
  }

  // ---------------------------------------------------------------- cells and their owners

  lemma QueueAtFront(queue: seq<nat>, owner: seq<Owner>, i: nat)
    requires QueueOwns(queue, owner) && i < |owner| && owner[i] != Queue
    ensures QueueOwns([i] + queue, owner[i := Queue])
  {
  }

  lemma QueueAtBack(queue: seq<nat>, owner: seq<Owner>, i: nat)
    requires QueueOwns(queue, owner) && i < |owner| && owner[i] != Queue
    ensures QueueOwns(queue + [i], owner[i := Queue])
  {
  }

  lemma QueueKeeps(queue: seq<nat>, owner: seq<Owner>, i: nat, o: Owner)
    requires QueueOwns(queue, owner) && i < |owner| && owner[i] != Queue
    ensures QueueOwns(queue, owner[i := o])
  {
  }

  lemma QueueLoses(queue: seq<nat>, owner: seq<Owner>)
    requires QueueOwns(queue, owner) && queue != []
    ensures QueueOwns(queue[1..], owner[queue[0] := Consumer])
  {
  }

  lemma PostLeaves(posts: map<nat, Post>, owner: seq<Owner>, t: nat, o: Owner)
    requires PostsOwn(posts, owner) && t in posts
    ensures PostsOwn(posts - {t}, owner[posts[t].slot := o])
  {
  }

  lemma PostsKeep(posts: map<nat, Post>, owner: seq<Owner>, i: nat, o: Owner)
    requires PostsOwn(posts, owner) && i < |owner| && !owner[i].Poster?
    ensures PostsOwn(posts, owner[i := o])
  {
  }

  lemma PostEnters(posts: map<nat, Post>, owner: seq<Owner>, t: nat, i: nat, event: Event)
    requires PostsOwn(posts, owner) && t !in posts && i < |owner| && owner[i].Nobody?
    ensures PostsOwn(posts[t := Allocated(i, event)], owner[i := Poster(t)])
  {
  }

  /** Cells that neither queue nor dispatcher owns can be written freely. */
  lemma WriteUnseen(s: State, i: nat, e: Event)
    requires Owners(s) && i < POOL && s.owner[i] != Queue && s.owner[i] != Consumer
    ensures Contents(s.pool[i := e], s.queue) == Contents(s.pool, s.queue)
    ensures InHand(s.dispatcher, s.pool[i := e]) == InHand(s.dispatcher, s.pool)
  {
  }

  // ---------------------------------------------------------------- events and their order

  lemma SendUrgent(posted: seq<Event>, dispatched: seq<Event>, hand: seq<Event>, waiting: seq<Event>, e: Event)
    requires Flow(posted, dispatched, hand, waiting) && e.high
    ensures Flow(posted + [e], dispatched, hand, [e] + waiting)
  {
    UrgentSkipped(posted, [], e);
    UrgentSkipped([], waiting, e);
    AddConserved(posted, dispatched, hand, waiting, [e] + waiting, e);
    UrgentAtFront(waiting, e);
  }

  /** An urgent event does not show among the normal ones. */
  lemma UrgentSkipped(a: seq<Event>, b: seq<Event>, e: Event)
    requires e.high
    ensures a == [] ==> Normals([e] + b) == Normals(b)
    ensures b == [] ==> Normals(a + [e]) == Normals(a)
  {
    NormalsAppend([e], b);
    NormalsAppend(a, [e]);
  }

  lemma UrgentAtFront(waiting: seq<Event>, e: Event)
    requires UrgentFirst(waiting) && e.high
    ensures UrgentFirst([e] + waiting)
  {
  }

  lemma AddConserved(posted: seq<Event>, dispatched: seq<Event>, hand: seq<Event>, waiting: seq<Event>,
                     more: seq<Event>, e: Event)
    requires Conserved(posted, dispatched, hand, waiting) && multiset(more) == multiset(waiting) + multiset{e}
    ensures Conserved(posted + [e], dispatched, hand, more)
  {
  }

  lemma SendNormal(posted: seq<Event>, dispatched: seq<Event>, hand: seq<Event>, waiting: seq<Event>, e: Event)
    requires Flow(posted, dispatched, hand, waiting) && !e.high
    ensures Flow(posted + [e], dispatched, hand, waiting + [e])
  {
    NormalsAppend(posted, [e]);
    NormalsAppend(waiting, [e]);
    AssocFour(Normals(dispatched), Normals(hand), Normals(waiting), Normals([e]));
    AddConserved(posted, dispatched, hand, waiting, waiting + [e], e);
  }

  lemma AssocFour(a: seq<Event>, b: seq<Event>, c: seq<Event>, d: seq<Event>)
    ensures (a + (b + c)) + d == a + (b + (c + d))
  {
    Assoc(a, b + c, d);
    Assoc(b, c, d);
  }

  lemma ReceiveFlow(posted: seq<Event>, dispatched: seq<Event>, waiting: seq<Event>, e: Event, rest: seq<Event>)
    requires waiting == [e] + rest && Flow(posted, dispatched, [], waiting)
    ensures Flow(posted, dispatched, [e], rest)
  {
    NormalsAppend([e], rest);
    NothingBefore(Normals(waiting));
    assert forall i :: 0 <= i < |rest| ==> rest[i] == waiting[i + 1];
  }

  lemma NothingBefore(a: seq<Event>)
    ensures Normals([]) + a == a
  {
  }

  lemma DispatchFlow(posted: seq<Event>, dispatched: seq<Event>, e: Event, waiting: seq<Event>)
    requires Flow(posted, dispatched, [e], waiting)
    ensures Flow(posted, dispatched + [e], [], waiting)
  {
    NormalsAppend(dispatched, [e]);
    NothingBefore(Normals(waiting));
    Assoc(Normals(dispatched), Normals([e]), Normals(waiting));
  }

  // ---------------------------------------------------------------- each step keeps the invariant

  lemma AllocOwners(s: State, t: nat, event: Event)
    requires Owners(s) && Enabled(s, Alloc(t, event))
    ensures Owners(AllocStep(s, t, event))
  {
    var i := FirstFree(s.inUse);
    if i < POOL {
      assert s.owner[i].Nobody?;
      PostEnters(s.posts, s.owner, t, i, event);
      QueueKeeps(s.queue, s.owner, i, Poster(t));
    }
  }

  lemma AllocInv(s: State, t: nat, event: Event)
    requires Inv(s) && Enabled(s, Alloc(t, event))
    ensures Inv(AllocStep(s, t, event))
  {
    AllocOwners(s, t, event);
    var i := FirstFree(s.inUse);
    if i < POOL {
      assert s.owner[i].Nobody?;
      WriteUnseen(s, i, BLANK);
    }
  }

  lemma FillInv(s: State, t: nat)
    requires Inv(s) && Enabled(s, Fill(t))
    ensures Inv(FillStep(s, t))
  {
    FillOwners(s, t);
    WriteUnseen(s, s.posts[t].slot, s.posts[t].event);
  }

  lemma FillOwners(s: State, t: nat)
    requires Owners(s) && Enabled(s, Fill(t))
    ensures Owners(FillStep(s, t))
  {
  }

  /** A task that holds a cell always finds room in the queue. */
  lemma SendFindsRoom(s: State, t: nat)
    requires Owners(s) && t in s.posts
    ensures |s.queue| < POOL
  {
    var i := s.posts[t].slot;
    assert s.owner[i] == Poster(t);
    RoomLeft(s.queue, POOL, i);
  }

  lemma SendOwners(s: State, t: nat)
    requires Owners(s) && Enabled(s, Send(t))
    ensures Owners(SendStep(s, t))
  {
    SendFindsRoom(s, t);
    var i := s.posts[t].slot;
    PostLeaves(s.posts, s.owner, t, Queue);
    if s.pool[i].high {
      QueueAtFront(s.queue, s.owner, i);
    } else {
      QueueAtBack(s.queue, s.owner, i);
    }
  }

  lemma ContentsMore(pool: seq<Event>, queue: seq<nat>, i: nat)
    requires InPool(queue, |pool|) && i < |pool|
    ensures InPool([i] + queue, |pool|) && Contents(pool, [i] + queue) == [pool[i]] + Contents(pool, queue)
    ensures InPool(queue + [i], |pool|) && Contents(pool, queue + [i]) == Contents(pool, queue) + [pool[i]]
  {
  }

  lemma SendInv(s: State, t: nat)
    requires Inv(s) && Enabled(s, Send(t))
    ensures Inv(SendStep(s, t))
  {
    SendFindsRoom(s, t);
    SendOwners(s, t);
    var i, hand, waiting := s.posts[t].slot, InHand(s.dispatcher, s.pool), Contents(s.pool, s.queue);
    ContentsMore(s.pool, s.queue, i);
    if s.pool[i].high {
      SendUrgent(s.posted, s.dispatched, hand, waiting, s.pool[i]);
    } else {
      SendNormal(s.posted, s.dispatched, hand, waiting, s.pool[i]);
    }
  }

  lemma ReceiveOwners(s: State)
    requires Owners(s) && Enabled(s, Receive)
    ensures Owners(ReceiveStep(s))
  {
    var i := s.queue[0];
    assert s.owner[i] == Queue;
    QueueLoses(s.queue, s.owner);
    PostsKeep(s.posts, s.owner, i, Consumer);
  }

  lemma ReceiveInv(s: State)
    requires Inv(s) && Enabled(s, Receive)
    ensures Inv(ReceiveStep(s))
  {
    ReceiveOwners(s);
    FirstWaiting(s.pool, s.queue);
    var waiting := Contents(s.pool, s.queue);
    ReceiveFlow(s.posted, s.dispatched, waiting, s.pool[s.queue[0]], Contents(s.pool, s.queue[1..]));
  }

  lemma FirstWaiting(pool: seq<Event>, queue: seq<nat>)
    requires queue != [] && InPool(queue, |pool|)
    ensures InPool(queue[1..], |pool|)
    ensures Contents(pool, queue) == [pool[queue[0]]] + Contents(pool, queue[1..])
  {
  }

  lemma DispatchInv(s: State)
    requires Inv(s) && Enabled(s, Dispatch)
    ensures Inv(DispatchStep(s))
  {
    DispatchFlow(s.posted, s.dispatched, s.pool[s.dispatcher.slot], Contents(s.pool, s.queue));
  }

  lemma ReleaseInv(s: State)
    requires Inv(s) && Enabled(s, Release)
    ensures Inv(ReleaseStep(s))
  {
    var i := s.dispatcher.slot;
    assert s.owner[i] == Consumer;
    QueueKeeps(s.queue, s.owner, i, Nobody);
    PostsKeep(s.posts, s.owner, i, Nobody);
  }

  lemma StepInv(s: State, step: Step)
    requires Inv(s) && Enabled(s, step)
    ensures Inv(Apply(s, step))
  {
    match step
    case Alloc(t, event) => AllocInv(s, t, event);
    case Fill(t) => FillInv(s, t);
    case Send(t) => SendInv(s, t);
    case GiveUp(t) => assert false;
    case Receive => ReceiveInv(s);
    case Dispatch => DispatchInv(s);
    case Release => ReleaseInv(s);
  }

  // ---------------------------------------------------------------- whole runs

  predicate Feasible(s: State, steps: seq<Step>)
    requires Shaped(s)
    decreases |steps|
  {
    steps == [] || (Enabled(s, steps[0]) && Feasible(Apply(s, steps[0]), steps[1..]))
  }

  function Exec(s: State, steps: seq<Step>): (s': State)
    requires Shaped(s) && Feasible(s, steps)
    ensures Shaped(s')
    decreases |steps|
  {
    if steps == [] then s else Exec(Apply(s, steps[0]), steps[1..])
  }

  lemma {:induction false} RunInv(s: State, steps: seq<Step>)
    requires Inv(s) && Feasible(s, steps)
    ensures Inv(Exec(s, steps))
    decreases |steps|
  {
    if steps != [] {
      StepInv(s, steps[0]);
      RunInv(Apply(s, steps[0]), steps[1..]);
    }
  }

  /** A state some interleaving reaches from start-up. */
  ghost predicate Reached(s: State) {
    exists steps: seq<Step> :: Feasible(Init(), steps) && s == Exec(Init(), steps)
  }

  lemma ReachedInv(s: State)
    requires Reached(s)
    ensures Inv(s)
  {
    var steps: seq<Step> :| Feasible(Init(), steps) && s == Exec(Init(), steps);
    RunInv(Init(), steps);
  }

  /** In every interleaving, posting cannot fail once a cell is obtained: the failure path is dead. */
  lemma PostNeverFails(s: State, t: nat)
    requires Reached(s) && t in s.posts
    ensures |s.queue| < POOL && !s.posts[t].Failed?
  {
    ReachedInv(s);
    SendFindsRoom(s, t);
  }

  /** Queued entries are distinct cells in use, and the queue is an urgent part followed by a normal part. */
  lemma QueueIsOrdered(s: State) returns (k: nat)
    requires Reached(s)
    ensures Shaped(s) && DistinctSlots(s.queue)
    ensures forall i :: 0 <= i < |s.queue| ==> s.queue[i] < POOL && s.inUse[s.queue[i]]
    ensures k <= |s.queue| && UrgentUpTo(s.pool, s.queue, k)
  {
    ReachedInv(s);
    assert forall i :: 0 <= i < |s.queue| ==> s.owner[s.queue[i]] == Queue;
    k := Boundary(Contents(s.pool, s.queue));
  }

  predicate UrgentUpTo(pool: seq<Event>, queue: seq<nat>, k: nat)
    requires InPool(queue, |pool|)
  {
    forall i :: 0 <= i < |queue| ==> (pool[queue[i]].high <==> i < k)
  }

  lemma Boundary(es: seq<Event>) returns (k: nat)
    requires UrgentFirst(es)
    ensures k <= |es| && forall i :: 0 <= i < |es| ==> (es[i].high <==> i < k)
  {
    k := 0;
    while k < |es| && es[k].high
      invariant k <= |es| && forall i :: 0 <= i < k ==> es[i].high
    {
      k := k + 1;
    }
  }

  /** Normal events are dispatched in the order in which they were queued, none skipped and none invented. */
  lemma NormalsInOrder(s: State)
    requires Reached(s)
    ensures Normals(s.dispatched) <= Normals(s.posted)
  {
    ReachedInv(s);
  }

  /** Once the bus is idle every event posted has been dispatched exactly once. */
  lemma NothingIsLost(s: State)
    requires Reached(s) && s.queue == [] && !s.dispatcher.Got?
    ensures multiset(s.dispatched) == multiset(s.posted)
    ensures Normals(s.dispatched) == Normals(s.posted)
  {
    ReachedInv(s);
    assert Contents(s.pool, s.queue) == [] && InHand(s.dispatcher, s.pool) == [];
  }

  // ---------------------------------------------------------------- the pool in place

  class MessagePool {
    const inUse: array<bool>

    constructor ()
      ensures fresh(inUse) && inUse[..] == Init().inUse
    {
      inUse := new bool[POOL](_ => false);
    }

    /** The scan of `message_pool_alloc` under its lock. */
    method Take() returns (slot: nat)
      modifies inUse
      ensures slot == FirstFree(old(inUse[..]))
      ensures inUse[..] == if slot < inUse.Length then old(inUse[..])[slot := true] else old(inUse[..])
    {
      slot := 0;
      while slot < inUse.Length
        invariant slot <= inUse.Length && inUse[..] == old(inUse[..])
        invariant forall k :: 0 <= k < slot ==> inUse[k]
      {
        if !inUse[slot] {
          FirstFreeIs(inUse[..], slot);
          inUse[slot] := true;
          return;
        }
        slot := slot + 1;
      }
      FirstFreeIs(inUse[..], slot);
    }

    /** `message_pool_free`; an address outside the pool is ignored. */
    method Give(index: int)
      modifies inUse
      ensures inUse[..] == if 0 <= index < inUse.Length then old(inUse[..])[index := false] else old(inUse[..])
    {
      if index < 0 || index >= inUse.Length {
        return;
      }
      inUse[index] := false;
    }
  }

  lemma FirstFreeIs(inUse: seq<bool>, i: nat)
    requires i <= |inUse| && (i < |inUse| ==> !inUse[i])
    requires forall k :: 0 <= k < i ==> inUse[k]
    ensures FirstFree(inUse) == i
  {
  }
}
