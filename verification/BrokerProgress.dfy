/**
 Progress: threads wait only for a `tx_lock`, whoever holds one can go on, every operation comes to
 an end after boundedly many steps of its own, and so every reachable state can come to rest.
 */
module BrokerProgress {
  import opened Base
  import opened Broker
  import opened BrokerSteps
  import opened BrokerInvariant
  import opened BrokerTheorems

  /** The step goes on with an operation that is under way, whatever the outcome of a transmission. */
  predicate Continues(step: Step) {
    step.Reserve? || step.TakeTx? || step.Run? || step.SendDone? || step.Release? || step.CloseIfCurrent? ||
    step.Deactivate?
  }

  predicate OwnStep(step: Step, u: nat) {
    Continues(step) && step.t == u
  }

  // ---------------------------------------------------------------- operations end

  /** Entries a retry has still to look at, the current one included. */
  function EntriesLeft(idx: nat): nat {
    if idx < MAX_INFLIGHT then MAX_INFLIGHT - idx else 0
  }

  function JobRank(job: Job): nat {
    match job
    case Retry(_, _, idx) => 4 * EntriesLeft(idx) + 5
    case _ => 5
  }

  /** A bound on the steps an operation has still to make. */
  function Rank(task: Task): nat {
    match task
    case Built(_, _, _, _) => 7
    case WantTx(_, job) => JobRank(job) + 1
    case HasTx(_, job) => JobRank(job)
    case Sending(_, _, _, _, _, _) => 4
    case Transmitting(_, _, _) => 4
    case Releasing(_, next) =>
      (match next
       case Done => 1
       case NextEntry(_, _, idx) => 4 * EntriesLeft(idx) + 7
       case Close(_) => 3
       case Deactivate_ => 3)
    case Closing(_, _) => 2
    case Deactivating(_) => 2
  }

  /** One thread went on to `task`, or ended; the others are where they were. */
  predicate Advances(tasks: map<nat, Task>, after: map<nat, Task>, u: nat)
    requires u in tasks
  {
    if u in after then after == tasks[u := after[u]] && Rank(after[u]) < Rank(tasks[u])
    else after == tasks - {u}
  }

  lemma RunAdvances(s: State, u: nat)
    requires WellFormed(s) && Enabled(s, Run(u))
    ensures Advances(s.tasks, RunStep(s, u).tasks, u)
  {
    RunFrame(s, u);
    RunRank(s, u);
  }

  lemma RunRank(s: State, u: nat)
    requires WellFormed(s) && Enabled(s, Run(u))
    ensures u in RunStep(s, u).tasks && Rank(RunStep(s, u).tasks[u]) < Rank(s.tasks[u])
  {
  }

  /** Every step of a thread ends its operation or brings it nearer to its end. */
  lemma StepAdvances(s: State, step: Step, u: nat)
    requires WellFormed(s) && Enabled(s, step) && OwnStep(step, u)
    ensures u in s.tasks && Advances(s.tasks, Apply(s, step).tasks, u)
  {
    if step.Run? { RunAdvances(s, u); }
  }

  // ---------------------------------------------------------------- someone can go on

  /** The thread waits for a lock that is taken. */
  predicate Blocked(s: State, u: nat)
    requires WellFormed(s)
  {
    u in s.tasks && s.tasks[u].WantTx? && s.tasks[u].slot < MAX_CLIENTS && s.tx[s.tasks[u].slot].Some?
  }

  /** The next step of a thread that is not blocked. */
  function NextStep(task: Task, u: nat): (step: Step)
    ensures OwnStep(step, u)
  {
    match task
    case Built(_, _, _, _) => Reserve(u, 0)
    case WantTx(_, _) => TakeTx(u)
    case HasTx(_, _) => Run(u)
    case Sending(_, _, _, _, _, _) => SendDone(u, SendOk)
    case Transmitting(_, _, _) => SendDone(u, SendOk)
    case Releasing(_, _) => Release(u)
    case Closing(_, _) => CloseIfCurrent(u)
    case Deactivating(_) => Deactivate(u, 0)
  }

  lemma UnblockedGoesOn(s: State, u: nat)
    requires Inv(s) && u in s.tasks && !Blocked(s, u)
    ensures Enabled(s, NextStep(s.tasks[u], u))
  {
    assert TaskOk(u, s.tasks[u], s.sessions, s.heap, s.nextPacket);
  }

  /** Who holds a lock waits for nothing. */
  lemma HolderIsUnblocked(s: State, u: nat) returns (holder: nat)
    requires Inv(s) && Blocked(s, u)
    ensures holder in s.tasks && s.tx[s.tasks[u].slot] == Some(holder) && !Blocked(s, holder) && !s.tasks[holder].Built?
  {
    holder := s.tx[s.tasks[u].slot].value;
  }

  /**
   In every reachable state, a thread with an operation under way can go on, or waits for a lock whose
   holder can.
   */
  lemma SomeoneGoesOn(s: State, u: nat)
    requires Reachable(s) && WellFormed(s) && u in s.tasks
    ensures Enabled(s, NextStep(s.tasks[u], u)) ||
      (Blocked(s, u) &&
       exists t :: t in s.tasks && s.tx[s.tasks[u].slot] == Some(t) && Enabled(s, NextStep(s.tasks[t], t)))
  {
    ReachableInv(s);
    if Blocked(s, u) {
      var t := HolderIsUnblocked(s, u);
      UnblockedGoesOn(s, t);
    } else {
      UnblockedGoesOn(s, u);
    }
  }

  // ---------------------------------------------------------------- everything can come to rest

  predicate OnlyContinues(steps: seq<Step>) {
    forall i :: 0 <= i < |steps| ==> Continues(steps[i])
  }

  /** A thread that has sent off its packet never finds its lock taken again. */
  lemma StaysUnblocked(s: State, u: nat)
    requires WellFormed(s) && u in s.tasks && !s.tasks[u].Built?
    requires Enabled(s, NextStep(s.tasks[u], u)) && u in Apply(s, NextStep(s.tasks[u], u)).tasks
    ensures var r := Apply(s, NextStep(s.tasks[u], u)); !r.tasks[u].Built? && !Blocked(r, u)
  {
  }

  lemma {:induction false} Drive(s: State, u: nat) returns (steps: seq<Step>)
    requires Inv(s) && u in s.tasks && !s.tasks[u].Built? && !Blocked(s, u)
    ensures Feasible(s, steps) && OnlyContinues(steps) && Exec(s, steps).tasks == s.tasks - {u}
    decreases Rank(s.tasks[u])
  {
    var step := NextStep(s.tasks[u], u);
    UnblockedGoesOn(s, u);
    StepInv(s, step);
    StepAdvances(s, step, u);
    var r := Apply(s, step);
    var rest := [];
    if u in r.tasks {
      StaysUnblocked(s, u);
      rest := Drive(r, u);
      assert r.tasks - {u} == s.tasks - {u};
    }
    steps := [step] + rest;
    ExecCons(s, step, rest);
  }

  lemma FinishOne(s: State, u: nat) returns (steps: seq<Step>)
    requires Inv(s) && u in s.tasks && !s.tasks[u].Built?
    ensures Feasible(s, steps) && OnlyContinues(steps) && |Exec(s, steps).tasks| < |s.tasks|
  {
    var t := u;
    if Blocked(s, u) {
      t := HolderIsUnblocked(s, u);
    }
    steps := Drive(s, t);
    Fewer(s.tasks, t);
  }

  lemma Fewer(tasks: map<nat, Task>, t: nat)
    requires t in tasks
    ensures |tasks - {t}| < |tasks|
  {
    assert (tasks - {t}).Keys == tasks.Keys - {t};
  }

  /** A packet just built is reserved or freed first. */
  lemma FinishBuilt(s: State, u: nat) returns (steps: seq<Step>)
    requires Inv(s) && u in s.tasks && s.tasks[u].Built?
    ensures Feasible(s, steps) && OnlyContinues(steps) && |Exec(s, steps).tasks| < |s.tasks|
  {
    var step := Reserve(u, 0);
    UnblockedGoesOn(s, u);
    StepInv(s, step);
    StepAdvances(s, step, u);
    var r := Apply(s, step);
    var rest := [];
    if u in r.tasks {
      rest := FinishOne(r, u);
      assert r.tasks.Keys == s.tasks.Keys;
    } else {
      Fewer(s.tasks, u);
    }
    steps := [step] + rest;
    ExecCons(s, step, rest);
  }

  lemma {:induction false} ComesToRest(s: State) returns (steps: seq<Step>)
    requires Inv(s)
    ensures Feasible(s, steps) && OnlyContinues(steps) && Exec(s, steps).tasks == map[]
    decreases |s.tasks|
  {
    if s.tasks == map[] {
      steps := [];
    } else {
      var u :| u in s.tasks;
      var first;
      if s.tasks[u].Built? {
        first := FinishBuilt(s, u);
      } else {
        first := FinishOne(s, u);
      }
      RunsInv(s, first);
      var rest := ComesToRest(Exec(s, first));
      ExecAppend(s, first, rest);
      steps := first + rest;
    }
  }

  /**
   No deadlock: from every reachable state the operations under way can all be brought to their end,
   without a new one being started.
   */
  lemma NoDeadlock(s: State) returns (steps: seq<Step>)
    requires Reachable(s) && WellFormed(s)
    ensures Feasible(s, steps) && OnlyContinues(steps)
    ensures Reachable(Exec(s, steps)) && Exec(s, steps).tasks == map[]
  {
    ReachableInv(s);
    steps := ComesToRest(s);
    Continued(s, steps);
  }
}
