/** The static validator as it runs: loops that append to one report of bounded size. */
module ScenarioLoops {
  import opened Scenario
  import opened ScenarioReport

  class Reporter {
    var valid: bool
    var issues: seq<Issue>

    ghost function View(): Report
      reads this
    {
      Report(valid, issues)
    }

    /** `validation_report_init` */
    constructor ()
      ensures View() == EMPTY_REPORT
    {
      valid := true;
      issues := [];
    }

    method Record(issue: Issue)
      modifies this
      ensures View() == Add(old(View()), issue)
    {
      if issue.level == Error {
        valid := false;
      }
      if |issues| >= MAX_ISSUES {
        return;
      }
      issues := issues + [issue];
    }

    method RecordIf(bad: bool, at: nat, code: IssueCode)
      modifies this
      ensures View() == AddIf(old(View()), bad, at, code)
    {
      if bad {
        Record(Issue(Error, at, code));
      }
    }

    method OnCommand(c: DeviceCommand, at: nat)
      modifies this
      ensures View() == CheckCommand(old(View()), c, at)
    {
      if c.deviceId == "" {
        RecordIf(true, at, DeviceIdEmpty);
        return;
      }
      RecordIf(c.commandId == "", at, DeviceCommandIdEmpty);
    }

    method OnEvent(e: EventRef, at: nat)
      modifies this
      ensures View() == CheckEvent(old(View()), e, at)
    {
      if e.deviceId == "" {
        RecordIf(true, at, DeviceIdEmpty);
        return;
      }
      RecordIf(e.eventId == "", at, DeviceEventIdEmpty);
    }

    method OnCommands(cs: seq<DeviceCommand>, start: nat, n: nat, at: nat)
      requires start + n <= |cs|
      modifies this
      ensures View() == CheckCommands(old(View()), cs, start, n, at)
    {
      var i := 0;
      while i < n
        invariant i <= n && View() == CheckCommands(old(View()), cs, start, i, at)
      {
        OnCommand(cs[start + i], at);
        i := i + 1;
      }
    }

    method OnEvents(es: seq<EventRef>, n: nat, at: nat)
      requires n <= |es|
      modifies this
      ensures View() == CheckEvents(old(View()), es, n, at)
    {
      var i := 0;
      while i < n
        invariant i <= n && View() == CheckEvents(old(View()), es, i, at)
      {
        OnEvent(es[i], at);
        i := i + 1;
      }
    }

    method OnEventGroup(es: seq<EventRef>, count: nat, at: nat, all: bool)
      requires |es| == EVENTS_MAX
      modifies this
      ensures View() == CheckEventGroup(old(View()), es, count, at, all)
    {
      if count == 0 {
        RecordIf(true, at, if all then WaitAllDeviceEventsEmpty else WaitAnyDeviceEventEmpty);
        return;
      }
      if count > EVENTS_MAX {
        RecordIf(true, at, if all then WaitAllDeviceEventsLimit else WaitAnyDeviceEventLimit);
        return;
      }
      OnEvents(es, count, at);
    }

    method OnFlags(flags: seq<string>, count: nat, at: nat)
      requires |flags| == FLAGS_MAX
      modifies this
      ensures View() == CheckFlags(old(View()), flags, count, at)
    {
      if count == 0 {
        RecordIf(true, at, WaitFlagsEmpty);
        return;
      }
      if count > FLAGS_MAX {
        RecordIf(true, at, WaitFlagsLimit);
        return;
      }
      var i := 0;
      while i < count
        invariant i <= count && View() == old(View()) && !SomeEmpty(flags, i)
      {
        if flags[i] == "" {
          RecordIf(true, at, FlagNameEmpty);
          return;
        }
        i := i + 1;
      }
    }

    method OnBody(body: StepBody, at: nat)
      requires BodySized(body)
      modifies this
      ensures View() == CheckBody(old(View()), body, at)
    {
      match body
      case WaitTime(ms) => RecordIf(ms == 0, at, WaitTimeZero);
      case OperatorApproval(prompt) => RecordIf(prompt == "", at, OperatorPromptEmpty);
      case RunCommand(c) => OnCommand(c, at);
      case WaitEvent(e) => OnEvent(e, at);
      case CommandGroup(cs, count) =>
        if count == 0 {
          RecordIf(true, at, DeviceCommandGroupEmpty);
        } else if count > GROUP_MAX {
          RecordIf(true, at, DeviceCommandGroupLimit);
        } else {
          OnCommands(cs, 0, count, at);
        }
      case ShowMessage(m) => RecordIf(m == "", at, OperatorMessageEmpty);
      case SetFlag(name) => RecordIf(name == "", at, FlagNameEmpty);
      case WaitFlags(flags, count) => OnFlags(flags, count, at);
      case WaitAny(es, count) => OnEventGroup(es, count, at, false);
      case WaitAll(es, count) => OnEventGroup(es, count, at, true);
      case UnknownType => RecordIf(true, at, StepTypeInvalid);
      case _ =>
    }

    method OnAction(sc: Scenario, a: Action, at: nat)
      requires Sized(sc) && PoolsWithinLimits(sc)
      modifies this
      ensures View() == CheckAction(old(View()), sc, a, at)
    {
      match a
      case CommandAction(c) => OnCommand(c, at);
      case GroupAction(start, count) =>
        if count == 0 || start + count > sc.groupCommandCount {
          RecordIf(true, at, ReactiveGroupCommandRangeInvalid);
        } else {
          OnCommands(sc.groupCommands, start, count, at);
        }
      case WaitAction(ms) => RecordIf(ms == 0, at, ReactiveWaitTimeZero);
      case FlagAction(name) => RecordIf(name == "", at, ReactiveFlagNameEmpty);
      case MessageAction(m) => RecordIf(m == "", at, ReactiveOperatorMessageEmpty);
      case OtherAction => RecordIf(true, at, ReactiveActionTypeUnsupported);
      case _ =>
    }

    method OnActions(sc: Scenario, start: nat, n: nat, at: nat)
      requires Sized(sc) && PoolsWithinLimits(sc) && start + n <= sc.actionCount
      modifies this
      ensures View() == CheckActions(old(View()), sc, start, n, at)
    {
      ghost var was := View();
      var i := 0;
      while i < n
        invariant i <= n && View() == CheckActions(was, sc, start, i, at)
      {
        OnAction(sc, sc.actions[start + i], at);
        i := i + 1;
      }
    }

    method OnVariant(sc: Scenario, v: Variant, at: nat)
      requires Sized(sc) && PoolsWithinLimits(sc)
      modifies this
      ensures View() == CheckVariant(old(View()), sc, v, at)
    {
      RecordIf(v.id == "", at, ReactiveVariantIdEmpty);
      if v.actionCount == 0 || v.actionStart + v.actionCount > sc.actionCount {
        RecordIf(true, at, ReactiveVariantActionsInvalid);
        return;
      }
      OnActions(sc, v.actionStart, v.actionCount, at);
    }

    method OnVariants(sc: Scenario, b: Branch)
      requires Sized(sc) && PoolsWithinLimits(sc) && VariantsUsable(sc, b)
      modifies this
      ensures View() == CheckVariants(old(View()), sc, b.variantStart, b.variantCount, b.stepStart)
    {
      var i := 0;
      while i < b.variantCount
        invariant i <= b.variantCount && View() == CheckVariants(old(View()), sc, b.variantStart, i, b.stepStart)
      {
        OnVariant(sc, sc.variants[b.variantStart + i], b.stepStart);
        i := i + 1;
      }
    }

    method OnGuards(b: Branch)
      requires BranchSized(b)
      modifies this
      ensures View() == CheckGuards(old(View()), b.guardFlags, b.guardFlagCount, b.stepStart)
    {
      var i := 0;
      while i < b.guardFlagCount
        invariant i <= b.guardFlagCount && View() == CheckGuards(old(View()), b.guardFlags, i, b.stepStart)
      {
        RecordIf(b.guardFlags[i] == "", b.stepStart, ReactiveGuardFlagEmpty);
        i := i + 1;
      }
    }

    method OnCompleteAction(sc: Scenario, a: Action, at: nat)
      requires Sized(sc) && PoolsWithinLimits(sc)
      modifies this
      ensures View() == CheckCompleteAction(old(View()), sc, a, at)
    {
      if IsControl(a) {
        RecordIf(true, at, ReactiveOnCompleteControlUnsupported);
      } else {
        OnAction(sc, a, at);
      }
    }

    method OnCompletes(sc: Scenario, start: nat, n: nat, at: nat)
      requires Sized(sc) && PoolsWithinLimits(sc) && start + n <= sc.actionCount
      modifies this
      ensures View() == CheckCompletes(old(View()), sc, start, n, at)
    {
      ghost var was := View();
      var i := 0;
      while i < n
        invariant i <= n && View() == CheckCompletes(was, sc, start, i, at)
      {
        CompletesMore(was, sc, start, i, at);
        OnCompleteAction(sc, sc.actions[start + i], at);
        i := i + 1;
      }
    }

    method OnBranchV2(sc: Scenario, b: Branch)
      requires Sized(sc) && PoolsWithinLimits(sc) && BranchSized(b)
      modifies this
      ensures View() == CheckBranchV2(old(View()), sc, b)
    {
      RecordIf(!TriggerOk(b.trigger), b.stepStart, ReactiveTriggerInvalid);
      if !VariantsUsable(sc, b) {
        RecordIf(true, b.stepStart, ReactiveVariantsInvalid);
        return;
      }
      OnGuards(b);
      OnVariants(sc, b);
      if b.completeStart + b.completeCount > sc.actionCount {
        RecordIf(true, b.stepStart, ReactiveOnCompleteRangeInvalid);
        return;
      }
      OnCompletes(sc, b.completeStart, b.completeCount, b.stepStart);
    }

    method OnReactive(sc: Scenario, b: Branch)
      requires Sized(sc) && PoolsWithinLimits(sc) && BranchSized(b) && sc.stepCount <= MAX_STEPS
      modifies this
      ensures View() == CheckReactive(old(View()), sc, b)
    {
      if b.requiredForCompletion {
        Record(Issue(Warning, b.stepStart, ReactiveBranchRequiredIgnored));
      }
      if IsV2(b) {
        OnBranchV2(sc, b);
      } else if b.stepCount == 0 || b.stepStart + b.stepCount > sc.stepCount {
        RecordIf(true, b.stepStart, ReactiveBranchEmpty);
      } else if !IsWait(sc.steps[b.stepStart].body) {
        RecordIf(true, b.stepStart, ReactiveBranchTriggerRequired);
      } else {
        RecordIf(FlagLoopUnguarded(b, sc.steps[b.stepStart]), b.stepStart, ReactiveFlagsNeedsGuard);
      }
    }

    method OnBranch(sc: Scenario, i: nat)
      requires Sized(sc) && PoolsWithinLimits(sc) && i < sc.branchCount <= MAX_BRANCHES && sc.stepCount <= MAX_STEPS
      modifies this
      ensures View() == CheckBranch(old(View()), sc, i)
    {
      var b := sc.branches[i];
      RecordIf(b.id == "", b.stepStart, BranchIdEmpty);
      RecordIf(b.name == "", b.stepStart, BranchNameEmpty);
      var repeats := BranchRepeats(sc, i);
      RecordIf(b.id != "" && repeats, b.stepStart, BranchIdDuplicate);
      RecordIf(b.stepStart + b.stepCount > sc.stepCount, b.stepStart, BranchStepRangeInvalid);
      if b.kind.ReactiveBranch? {
        OnReactive(sc, b);
      }
    }

    method OnStep(sc: Scenario, i: nat)
      requires Sized(sc) && i < sc.stepCount <= MAX_STEPS && sc.branchCount <= MAX_BRANCHES
      modifies this
      ensures View() == CheckStep(old(View()), sc, i)
    {
      RecordIf(sc.steps[i].id == "", i, StepIdEmpty);
      var repeats := StepRepeats(sc, i);
      RecordIf(sc.steps[i].id != "" && repeats, i, StepIdDuplicate);
      OnBody(sc.steps[i].body, i);
    }

    /** `room_scenario_validate_static_report` */
    method ValidateStatic(sc: Scenario)
      requires View() == EMPTY_REPORT && Sized(sc) && PoolsWithinLimits(sc)
      modifies this
      ensures View() == StaticReport(sc)
    {
      RecordIf(sc.id == "", 0, ScenarioIdEmpty);
      RecordIf(sc.roomId == "", 0, RoomIdEmpty);
      RecordIf(sc.name == "", 0, ScenarioNameEmpty);
      if sc.stepCount > MAX_STEPS {
        RecordIf(true, MAX_STEPS, StepCountLimit);
        return;
      }
      if sc.branchCount > MAX_BRANCHES {
        RecordIf(true, 0, BranchCountLimit);
        return;
      }
      OnBranches(sc);
      OnSteps(sc);
    }

    method OnBranches(sc: Scenario)
      requires Sized(sc) && PoolsWithinLimits(sc) && sc.branchCount <= MAX_BRANCHES && sc.stepCount <= MAX_STEPS
      modifies this
      ensures View() == CheckBranches(old(View()), sc, sc.branchCount)
    {
      var i := 0;
      while i < sc.branchCount
        invariant i <= sc.branchCount && View() == CheckBranches(old(View()), sc, i)
      {
        OnBranch(sc, i);
        i := i + 1;
      }
    }

    method OnSteps(sc: Scenario)
      requires Sized(sc) && sc.stepCount <= MAX_STEPS && sc.branchCount <= MAX_BRANCHES
      modifies this
      ensures View() == CheckSteps(old(View()), sc, sc.stepCount)
    {
      var i := 0;
      while i < sc.stepCount
        invariant i <= sc.stepCount && View() == CheckSteps(old(View()), sc, i)
      {
        OnStep(sc, i);
        i := i + 1;
      }
    }
  }

  lemma CompletesMore(r: Report, sc: Scenario, start: nat, n: nat, at: nat)
    requires Sized(sc) && PoolsWithinLimits(sc) && start + n < sc.actionCount
    ensures CheckCompletes(r, sc, start, n + 1, at) ==
      CheckCompleteAction(CheckCompletes(r, sc, start, n, at), sc, sc.actions[start + n], at)
  {
  }

  method BranchRepeats(sc: Scenario, i: nat) returns (repeats: bool)
    requires Sized(sc) && i < sc.branchCount <= MAX_BRANCHES
    ensures repeats <==> BranchIdRepeats(sc, i)
  {
    var j := i + 1;
    while j < sc.branchCount
      invariant i < j <= sc.branchCount
      invariant forall k :: i < k < j ==> sc.branches[i].id != sc.branches[k].id
    {
      if sc.branches[i].id == sc.branches[j].id {
        return true;
      }
      j := j + 1;
    }
    return false;
  }

  method StepRepeats(sc: Scenario, i: nat) returns (repeats: bool)
    requires Sized(sc) && i < sc.stepCount <= MAX_STEPS && sc.branchCount <= MAX_BRANCHES
    ensures repeats <==> StepIdRepeats(sc, i)
  {
    var j := i + 1;
    while j < sc.stepCount
      invariant i < j <= sc.stepCount
      invariant forall k :: i < k < j ==> !(ShareBranch(sc, i, k) && sc.steps[i].id == sc.steps[k].id)
    {
      if ShareBranch(sc, i, j) && sc.steps[i].id == sc.steps[j].id {
        return true;
      }
      j := j + 1;
    }
    return false;
  }
}
