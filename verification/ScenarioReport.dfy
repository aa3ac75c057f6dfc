/**
 The issue-collecting static validator. Each check turns a report into a report: it adds
 what it finds, keeps the first 32 issues, and lowers the verdict on every error.
 */
module ScenarioReport {
  import opened Scenario

  const MAX_ISSUES: nat := 32

  datatype Level = Error | Warning

  /** The codes of the issues the static validator reports. */
  datatype IssueCode =
    | DeviceIdEmpty
    | DeviceCommandIdEmpty
    | DeviceEventIdEmpty
    | DeviceCommandGroupEmpty
    | DeviceCommandGroupLimit
    | WaitFlagsEmpty
    | WaitFlagsLimit
    | FlagNameEmpty
    | WaitTimeZero
    | OperatorPromptEmpty
    | OperatorMessageEmpty
    | WaitAnyDeviceEventEmpty
    | WaitAnyDeviceEventLimit
    | WaitAllDeviceEventsEmpty
    | WaitAllDeviceEventsLimit
    | StepTypeInvalid
    | StepIdEmpty
    | StepIdDuplicate
    | ReactiveGroupCommandRangeInvalid
    | ReactiveWaitTimeZero
    | ReactiveFlagNameEmpty
    | ReactiveOperatorMessageEmpty
    | ReactiveActionTypeUnsupported
    | ReactiveOnCompleteControlUnsupported
    | ReactiveVariantIdEmpty
    | ReactiveVariantActionsInvalid
    | ReactiveGuardFlagEmpty
    | ReactiveOnCompleteRangeInvalid
    | ReactiveTriggerInvalid
    | ReactiveVariantsInvalid
    | ReactiveBranchRequiredIgnored
    | ReactiveBranchEmpty
    | ReactiveBranchTriggerRequired
    | ReactiveFlagsNeedsGuard
    | BranchIdEmpty
    | BranchNameEmpty
    | BranchIdDuplicate
    | BranchStepRangeInvalid
    | ScenarioIdEmpty
    | RoomIdEmpty
    | ScenarioNameEmpty
    | StepCountLimit
    | BranchCountLimit

  datatype Issue = Issue(level: Level, stepIndex: nat, code: IssueCode)

  datatype Report = Report(valid: bool, issues: seq<Issue>)

  const EMPTY_REPORT := Report(true, [])

  /** `validation_add_issue`: an error lowers the verdict even when the list is full. */
  function Add(r: Report, issue: Issue): (r': Report)
    ensures |r.issues| <= MAX_ISSUES ==> |r'.issues| <= MAX_ISSUES
    ensures r.issues <= r'.issues
  {
    Report(r.valid && issue.level != Error, if |r.issues| < MAX_ISSUES then r.issues + [issue] else r.issues)
  }

  function AddIf(r: Report, bad: bool, at: nat, code: IssueCode): Report {
    if bad then Add(r, Issue(Error, at, code)) else r
  }

  /** `validation_check_device_command_payload_static` */
  function CheckCommand(r: Report, c: DeviceCommand, at: nat): Report {
    if c.deviceId == "" then AddIf(r, true, at, DeviceIdEmpty)
    else AddIf(r, c.commandId == "", at, DeviceCommandIdEmpty)
  }

  /** `validation_check_wait_device_event_payload_static` */
  function CheckEvent(r: Report, e: EventRef, at: nat): Report {
    if e.deviceId == "" then AddIf(r, true, at, DeviceIdEmpty)
    else AddIf(r, e.eventId == "", at, DeviceEventIdEmpty)
  }

  /** The first `n` commands from `start` on, in order. */
  function CheckCommands(r: Report, cs: seq<DeviceCommand>, start: nat, n: nat, at: nat): Report
    requires start + n <= |cs|
  {
    if n == 0 then r else CheckCommand(CheckCommands(r, cs, start, n - 1, at), cs[start + n - 1], at)
  }

  function CheckEvents(r: Report, es: seq<EventRef>, n: nat, at: nat): Report
    requires n <= |es|
  {
    if n == 0 then r else CheckEvent(CheckEvents(r, es, n - 1, at), es[n - 1], at)
  }

  function CheckGroup(r: Report, cs: seq<DeviceCommand>, count: nat, at: nat): Report
    requires |cs| == GROUP_MAX
  {
    if count == 0 then AddIf(r, true, at, DeviceCommandGroupEmpty)
    else if count > GROUP_MAX then AddIf(r, true, at, DeviceCommandGroupLimit)
    else CheckCommands(r, cs, 0, count, at)
  }

  function CheckEventGroup(r: Report, es: seq<EventRef>, count: nat, at: nat, all: bool): Report
    requires |es| == EVENTS_MAX
  {
    if count == 0 then AddIf(r, true, at, if all then WaitAllDeviceEventsEmpty else WaitAnyDeviceEventEmpty)
    else if count > EVENTS_MAX then
      AddIf(r, true, at, if all then WaitAllDeviceEventsLimit else WaitAnyDeviceEventLimit)
    else CheckEvents(r, es, count, at)
  }

  predicate SomeEmpty(names: seq<string>, n: nat)
    requires n <= |names|
  {
    exists i :: 0 <= i < n && names[i] == ""
  }

  /** The flag loop stops at the first empty name. */
  function CheckFlags(r: Report, flags: seq<string>, count: nat, at: nat): Report
    requires |flags| == FLAGS_MAX
  {
    if count == 0 then AddIf(r, true, at, WaitFlagsEmpty)
    else if count > FLAGS_MAX then AddIf(r, true, at, WaitFlagsLimit)
    else AddIf(r, SomeEmpty(flags, count), at, FlagNameEmpty)
  }

  function CheckBody(r: Report, body: StepBody, at: nat): Report
    requires BodySized(body)
  {
    match body
    case WaitTime(ms) => AddIf(r, ms == 0, at, WaitTimeZero)
    case OperatorApproval(prompt) => AddIf(r, prompt == "", at, OperatorPromptEmpty)
    case RunCommand(c) => CheckCommand(r, c, at)
    case WaitEvent(e) => CheckEvent(r, e, at)
    case CommandGroup(cs, count) => CheckGroup(r, cs, count, at)
    case ShowMessage(m) => AddIf(r, m == "", at, OperatorMessageEmpty)
    case SetFlag(name) => AddIf(r, name == "", at, FlagNameEmpty)
    case WaitFlags(flags, count) => CheckFlags(r, flags, count, at)
    case WaitAny(es, count) => CheckEventGroup(r, es, count, at, false)
    case WaitAll(es, count) => CheckEventGroup(r, es, count, at, true)
    case FailReaction => r
    case ResetReaction => r
    case EndGame => r
    case UnknownType => AddIf(r, true, at, StepTypeInvalid)
  }

  /** A later step of the same branch has the id of step `i`. */
  predicate StepIdRepeats(sc: Scenario, i: nat)
    requires Sized(sc) && i < sc.stepCount <= MAX_STEPS && sc.branchCount <= MAX_BRANCHES
  {
    exists j :: i < j < sc.stepCount && ShareBranch(sc, i, j) && sc.steps[i].id == sc.steps[j].id
  }

  function CheckStep(r: Report, sc: Scenario, i: nat): Report
    requires Sized(sc) && i < sc.stepCount <= MAX_STEPS && sc.branchCount <= MAX_BRANCHES
  {
    var step := sc.steps[i];
    var r1 := AddIf(r, step.id == "", i, StepIdEmpty);
    var r2 := AddIf(r1, step.id != "" && StepIdRepeats(sc, i), i, StepIdDuplicate);
    CheckBody(r2, step.body, i)
  }

  /** `validation_check_reactive_action_v2_static` */
  function CheckAction(r: Report, sc: Scenario, a: Action, at: nat): Report
    requires Sized(sc) && PoolsWithinLimits(sc)
  {
    match a
    case CommandAction(c) => CheckCommand(r, c, at)
    case GroupAction(start, count) =>
      if count == 0 || start + count > sc.groupCommandCount then AddIf(r, true, at, ReactiveGroupCommandRangeInvalid)
      else CheckCommands(r, sc.groupCommands, start, count, at)
    case WaitAction(ms) => AddIf(r, ms == 0, at, ReactiveWaitTimeZero)
    case FlagAction(name) => AddIf(r, name == "", at, ReactiveFlagNameEmpty)
    case MessageAction(m) => AddIf(r, m == "", at, ReactiveOperatorMessageEmpty)
    case FailAction => r
    case ResetAction => r
    case OtherAction => AddIf(r, true, at, ReactiveActionTypeUnsupported)
  }

  function CheckActions(r: Report, sc: Scenario, start: nat, n: nat, at: nat): Report
    requires Sized(sc) && PoolsWithinLimits(sc) && start + n <= sc.actionCount
  {
    if n == 0 then r else CheckAction(CheckActions(r, sc, start, n - 1, at), sc, sc.actions[start + n - 1], at)
  }

  function CheckCompleteAction(r: Report, sc: Scenario, a: Action, at: nat): Report
    requires Sized(sc) && PoolsWithinLimits(sc)
  {
    if IsControl(a) then AddIf(r, true, at, ReactiveOnCompleteControlUnsupported) else CheckAction(r, sc, a, at)
  }

  function CheckCompletes(r: Report, sc: Scenario, start: nat, n: nat, at: nat): Report
    requires Sized(sc) && PoolsWithinLimits(sc) && start + n <= sc.actionCount
  {
    if n == 0 then r
    else CheckCompleteAction(CheckCompletes(r, sc, start, n - 1, at), sc, sc.actions[start + n - 1], at)
  }

  function CheckVariant(r: Report, sc: Scenario, v: Variant, at: nat): Report
    requires Sized(sc) && PoolsWithinLimits(sc)
  {
    var r1 := AddIf(r, v.id == "", at, ReactiveVariantIdEmpty);
    if v.actionCount == 0 || v.actionStart + v.actionCount > sc.actionCount
    then AddIf(r1, true, at, ReactiveVariantActionsInvalid)
    else CheckActions(r1, sc, v.actionStart, v.actionCount, at)
  }

  function CheckVariants(r: Report, sc: Scenario, start: nat, n: nat, at: nat): Report
    requires Sized(sc) && PoolsWithinLimits(sc) && start + n <= sc.variantCount
  {
    if n == 0 then r else CheckVariant(CheckVariants(r, sc, start, n - 1, at), sc, sc.variants[start + n - 1], at)
  }

  function CheckGuards(r: Report, flags: seq<string>, n: nat, at: nat): Report
    requires n <= |flags|
  {
    if n == 0 then r else AddIf(CheckGuards(r, flags, n - 1, at), flags[n - 1] == "", at, ReactiveGuardFlagEmpty)
  }

  predicate VariantsUsable(sc: Scenario, b: Branch) {
    b.variantCount != 0 && b.variantStart + b.variantCount <= sc.variantCount
  }

  /** `validation_check_reactive_branch_v2_static`; it gives up early where a range is unusable. */
  function CheckBranchV2(r: Report, sc: Scenario, b: Branch): Report
    requires Sized(sc) && PoolsWithinLimits(sc) && BranchSized(b)
  {
    var at := b.stepStart;
    var r1 := AddIf(r, !TriggerOk(b.trigger), at, ReactiveTriggerInvalid);
    if !VariantsUsable(sc, b) then AddIf(r1, true, at, ReactiveVariantsInvalid)
    else
      var r2 := CheckGuards(r1, b.guardFlags, b.guardFlagCount, at);
      var r3 := CheckVariants(r2, sc, b.variantStart, b.variantCount, at);
      if b.completeStart + b.completeCount > sc.actionCount then AddIf(r3, true, at, ReactiveOnCompleteRangeInvalid)
      else CheckCompletes(r3, sc, b.completeStart, b.completeCount, at)
  }

  function CheckReactive(r: Report, sc: Scenario, b: Branch): Report
    requires Sized(sc) && PoolsWithinLimits(sc) && BranchSized(b) && sc.stepCount <= MAX_STEPS
  {
    var at := b.stepStart;
    var r1 := if b.requiredForCompletion then Add(r, Issue(Warning, at, ReactiveBranchRequiredIgnored)) else r;
    if IsV2(b) then CheckBranchV2(r1, sc, b)
    else if b.stepCount == 0 || b.stepStart + b.stepCount > sc.stepCount then AddIf(r1, true, at, ReactiveBranchEmpty)
    else if !IsWait(sc.steps[b.stepStart].body) then AddIf(r1, true, at, ReactiveBranchTriggerRequired)
    else AddIf(r1, FlagLoopUnguarded(b, sc.steps[b.stepStart]), at, ReactiveFlagsNeedsGuard)
  }

  predicate BranchIdRepeats(sc: Scenario, i: nat)
    requires Sized(sc) && i < sc.branchCount <= MAX_BRANCHES
  {
    exists j :: i < j < sc.branchCount && sc.branches[i].id == sc.branches[j].id
  }

  function CheckBranch(r: Report, sc: Scenario, i: nat): Report
    requires Sized(sc) && PoolsWithinLimits(sc) && i < sc.branchCount <= MAX_BRANCHES && sc.stepCount <= MAX_STEPS
  {
    var b := sc.branches[i];
    var r1 := AddIf(r, b.id == "", b.stepStart, BranchIdEmpty);
    var r2 := AddIf(r1, b.name == "", b.stepStart, BranchNameEmpty);
    var r3 := AddIf(r2, b.id != "" && BranchIdRepeats(sc, i), b.stepStart, BranchIdDuplicate);
    var r4 := AddIf(r3, b.stepStart + b.stepCount > sc.stepCount, b.stepStart, BranchStepRangeInvalid);
    if b.kind.ReactiveBranch? then CheckReactive(r4, sc, b) else r4
  }

  function CheckBranches(r: Report, sc: Scenario, n: nat): Report
    requires Sized(sc) && PoolsWithinLimits(sc) && n <= sc.branchCount <= MAX_BRANCHES && sc.stepCount <= MAX_STEPS
  {
    if n == 0 then r else CheckBranch(CheckBranches(r, sc, n - 1), sc, n - 1)
  }

  function CheckSteps(r: Report, sc: Scenario, n: nat): Report
    requires Sized(sc) && n <= sc.stepCount <= MAX_STEPS && sc.branchCount <= MAX_BRANCHES
  {
    if n == 0 then r else CheckStep(CheckSteps(r, sc, n - 1), sc, n - 1)
  }

  function CheckHeader(r: Report, sc: Scenario): Report {
    AddIf(AddIf(AddIf(r, sc.id == "", 0, ScenarioIdEmpty), sc.roomId == "", 0, RoomIdEmpty),
          sc.name == "", 0, ScenarioNameEmpty)
  }

  /** `room_scenario_validate_static_report` on a fresh report. */
  function StaticReport(sc: Scenario): Report
    requires Sized(sc) && PoolsWithinLimits(sc)
  {
    var r := CheckHeader(EMPTY_REPORT, sc);
    if sc.stepCount > MAX_STEPS then AddIf(r, true, MAX_STEPS, StepCountLimit)
    else if sc.branchCount > MAX_BRANCHES then AddIf(r, true, 0, BranchCountLimit)
    else CheckSteps(CheckBranches(r, sc, sc.branchCount), sc, sc.stepCount)
  }
}

/** The two validators compared. */
module ScenarioEquivalence {
  import opened Scenario
  import opened StructuralCheck
  import opened ScenarioReport

  lemma {:induction false} CommandsAgree(r: Report, cs: seq<DeviceCommand>, start: nat, n: nat, at: nat)
    requires start + n <= |cs|
    ensures CheckCommands(r, cs, start, n, at).valid <==>
      r.valid && forall i :: start <= i < start + n ==> CommandOk(cs[i])
  {
    if n > 0 { CommandsAgree(r, cs, start, n - 1, at); }
  }

  lemma {:induction false} EventsAgree(r: Report, es: seq<EventRef>, n: nat, at: nat)
    requires n <= |es|
    ensures CheckEvents(r, es, n, at).valid <==> r.valid && forall i :: 0 <= i < n ==> EventOk(es[i])
  {
    if n > 0 { EventsAgree(r, es, n - 1, at); }
  }

  /** Apart from the two reaction steps, a step body passes one check exactly when it passes the other. */
  lemma BodyAgrees(r: Report, body: StepBody, at: nat)
    requires BodySized(body)
    ensures CheckBody(r, body, at).valid <==>
      r.valid && (BodyOk(body) || body.FailReaction? || body.ResetReaction?)
  {
    match body
    case CommandGroup(cs, count) => if count <= GROUP_MAX { CommandsAgree(r, cs, 0, count, at); }
    case WaitAny(es, count) => if count <= EVENTS_MAX { EventsAgree(r, es, count, at); }
    case WaitAll(es, count) => if count <= EVENTS_MAX { EventsAgree(r, es, count, at); }
    case _ =>
  }

  /** What both validators ask of step `i`, but for the two reaction steps. */
  predicate StepClean(sc: Scenario, i: nat)
    requires Sized(sc) && i < sc.stepCount <= MAX_STEPS && sc.branchCount <= MAX_BRANCHES
  {
    && sc.steps[i].id != "" && !StepIdRepeats(sc, i)
    && (BodyOk(sc.steps[i].body) || sc.steps[i].body.FailReaction? || sc.steps[i].body.ResetReaction?)
  }

  lemma StepAgrees(r: Report, sc: Scenario, i: nat)
    requires Sized(sc) && i < sc.stepCount <= MAX_STEPS && sc.branchCount <= MAX_BRANCHES
    ensures CheckStep(r, sc, i).valid <==> r.valid && StepClean(sc, i)
  {
    var step := sc.steps[i];
    var r1 := AddIf(r, step.id == "", i, StepIdEmpty);
    BodyAgrees(AddIf(r1, step.id != "" && StepIdRepeats(sc, i), i, StepIdDuplicate), step.body, i);
  }

  lemma {:induction false} StepsAgree(r: Report, sc: Scenario, n: nat)
    requires Sized(sc) && n <= sc.stepCount <= MAX_STEPS && sc.branchCount <= MAX_BRANCHES
    ensures CheckSteps(r, sc, n).valid <==> r.valid && forall i :: 0 <= i < n ==> StepClean(sc, i)
  {
    if n > 0 {
      StepsAgree(r, sc, n - 1);
      StepAgrees(CheckSteps(r, sc, n - 1), sc, n - 1);
    }
  }

  lemma ActionAgrees(r: Report, sc: Scenario, a: Action, at: nat)
    requires Sized(sc) && PoolsWithinLimits(sc)
    ensures CheckAction(r, sc, a, at).valid <==> r.valid && ActionOk(sc, a)
  {
    if a.GroupAction? && a.start + a.count <= sc.groupCommandCount {
      CommandsAgree(r, sc.groupCommands, a.start, a.count, at);
    }
  }

  lemma {:induction false} ActionsAgree(r: Report, sc: Scenario, start: nat, n: nat, at: nat)
    requires Sized(sc) && PoolsWithinLimits(sc) && start + n <= sc.actionCount
    ensures CheckActions(r, sc, start, n, at).valid <==>
      r.valid && forall i :: start <= i < start + n ==> ActionOk(sc, sc.actions[i])
  {
    if n > 0 {
      ActionsAgree(r, sc, start, n - 1, at);
      ActionAgrees(CheckActions(r, sc, start, n - 1, at), sc, sc.actions[start + n - 1], at);
    }
  }

  lemma {:induction false} CompletesAgree(r: Report, sc: Scenario, start: nat, n: nat, at: nat)
    requires Sized(sc) && PoolsWithinLimits(sc) && start + n <= sc.actionCount
    ensures CheckCompletes(r, sc, start, n, at).valid <==>
      r.valid && forall i :: start <= i < start + n ==> !IsControl(sc.actions[i]) && ActionOk(sc, sc.actions[i])
  {
    if n > 0 {
      CompletesAgree(r, sc, start, n - 1, at);
      ActionAgrees(CheckCompletes(r, sc, start, n - 1, at), sc, sc.actions[start + n - 1], at);
    }
  }

  lemma VariantAgrees(r: Report, sc: Scenario, v: Variant, at: nat)
    requires Sized(sc) && PoolsWithinLimits(sc)
    ensures CheckVariant(r, sc, v, at).valid <==> r.valid && VariantOk(sc, v)
  {
    if v.actionStart + v.actionCount <= sc.actionCount {
      ActionsAgree(AddIf(r, v.id == "", at, ReactiveVariantIdEmpty), sc, v.actionStart, v.actionCount, at);
    }
  }

  lemma {:induction false} VariantsAgree(r: Report, sc: Scenario, start: nat, n: nat, at: nat)
    requires Sized(sc) && PoolsWithinLimits(sc) && start + n <= sc.variantCount
    ensures CheckVariants(r, sc, start, n, at).valid <==>
      r.valid && forall i :: start <= i < start + n ==> VariantOk(sc, sc.variants[i])
  {
    if n > 0 {
      VariantsAgree(r, sc, start, n - 1, at);
      VariantAgrees(CheckVariants(r, sc, start, n - 1, at), sc, sc.variants[start + n - 1], at);
    }
  }

  lemma {:induction false} GuardsAgree(r: Report, flags: seq<string>, n: nat, at: nat)
    requires n <= |flags|
    ensures CheckGuards(r, flags, n, at).valid <==> r.valid && forall i :: 0 <= i < n ==> flags[i] != ""
  {
    if n > 0 { GuardsAgree(r, flags, n - 1, at); }
  }

  lemma BranchV2Agrees(r: Report, sc: Scenario, b: Branch)
    requires Sized(sc) && PoolsWithinLimits(sc) && BranchSized(b)
    ensures CheckBranchV2(r, sc, b).valid <==> r.valid && BranchV2Ok(sc, b)
  {
    var at := b.stepStart;
    var r1 := AddIf(r, !TriggerOk(b.trigger), at, ReactiveTriggerInvalid);
    if VariantsUsable(sc, b) {
      GuardsAgree(r1, b.guardFlags, b.guardFlagCount, at);
      var r2 := CheckGuards(r1, b.guardFlags, b.guardFlagCount, at);
      VariantsAgree(r2, sc, b.variantStart, b.variantCount, at);
      var r3 := CheckVariants(r2, sc, b.variantStart, b.variantCount, at);
      if b.completeStart + b.completeCount <= sc.actionCount {
        CompletesAgree(r3, sc, b.completeStart, b.completeCount, at);
      }
    }
  }

  /** A reactive branch that lies inside the scenario's steps passes one check exactly when it passes the other. */
  lemma ReactiveAgrees(r: Report, sc: Scenario, b: Branch)
    requires Sized(sc) && PoolsWithinLimits(sc) && BranchSized(b) && sc.stepCount <= MAX_STEPS
    requires b.stepStart + b.stepCount <= sc.stepCount
    ensures CheckReactive(r, sc, b).valid <==>
      r.valid &&
      if IsV2(b) then BranchV2Ok(sc, b)
      else b.stepCount != 0 && IsWait(sc.steps[b.stepStart].body) && !FlagLoopUnguarded(b, sc.steps[b.stepStart])
  {
    var r1 := if b.requiredForCompletion then Add(r, Issue(Warning, b.stepStart, ReactiveBranchRequiredIgnored)) else r;
    if IsV2(b) { BranchV2Agrees(r1, sc, b); }
  }

  lemma {:induction false} FailedStaysFailed(r: Report, sc: Scenario, b: Branch)
    requires Sized(sc) && PoolsWithinLimits(sc) && BranchSized(b) && sc.stepCount <= MAX_STEPS && !r.valid
    ensures !CheckReactive(r, sc, b).valid
  {
    var r1 := if b.requiredForCompletion then Add(r, Issue(Warning, b.stepStart, ReactiveBranchRequiredIgnored)) else r;
    if IsV2(b) { BranchV2Agrees(r1, sc, b); }
  }

  /** What the report does not look at: values outside the branch enumerations. */
  predicate BranchLegal(b: Branch) {
    !b.kind.UnknownBranch? && !b.reentry.UnknownReentry?
  }

  predicate BranchClean(sc: Scenario, i: nat)
    requires Sized(sc) && PoolsWithinLimits(sc) && i < sc.branchCount <= MAX_BRANCHES && sc.stepCount <= MAX_STEPS
  {
    BranchCode(sc, sc.branches[i]) == Ok && !BranchIdRepeats(sc, i)
  }

  lemma BranchAgrees(r: Report, sc: Scenario, i: nat)
    requires Sized(sc) && PoolsWithinLimits(sc) && i < sc.branchCount <= MAX_BRANCHES && sc.stepCount <= MAX_STEPS
    requires BranchLegal(sc.branches[i])
    ensures CheckBranch(r, sc, i).valid <==> r.valid && BranchClean(sc, i)
  {
    var b := sc.branches[i];
    var r1 := AddIf(r, b.id == "", b.stepStart, BranchIdEmpty);
    var r2 := AddIf(r1, b.name == "", b.stepStart, BranchNameEmpty);
    var r3 := AddIf(r2, b.id != "" && BranchIdRepeats(sc, i), b.stepStart, BranchIdDuplicate);
    var r4 := AddIf(r3, b.stepStart + b.stepCount > sc.stepCount, b.stepStart, BranchStepRangeInvalid);
    if b.stepStart + b.stepCount <= sc.stepCount {
      ReactiveAgrees(r4, sc, b);
    } else {
      FailedStaysFailed(r4, sc, b);
    }
  }

  predicate BranchesClean(sc: Scenario, n: nat)
    requires Sized(sc) && PoolsWithinLimits(sc) && n <= sc.branchCount <= MAX_BRANCHES && sc.stepCount <= MAX_STEPS
  {
    forall i :: 0 <= i < n ==> BranchClean(sc, i)
  }

  lemma OneMoreClean(sc: Scenario, n: nat)
    requires Sized(sc) && PoolsWithinLimits(sc) && 0 < n <= sc.branchCount <= MAX_BRANCHES && sc.stepCount <= MAX_STEPS
    ensures BranchesClean(sc, n) <==> BranchesClean(sc, n - 1) && BranchClean(sc, n - 1)
  {
  }

  lemma {:induction false} BranchesAgree(r: Report, sc: Scenario, n: nat)
    requires Sized(sc) && PoolsWithinLimits(sc) && n <= sc.branchCount <= MAX_BRANCHES && sc.stepCount <= MAX_STEPS
    requires forall i :: 0 <= i < n ==> BranchLegal(sc.branches[i])
    ensures CheckBranches(r, sc, n).valid <==> r.valid && BranchesClean(sc, n)
  {
    if n > 0 {
      BranchesAgree(r, sc, n - 1);
      BranchAgrees(CheckBranches(r, sc, n - 1), sc, n - 1);
      OneMoreClean(sc, n);
    }
  }

  predicate NoReactionSteps(sc: Scenario)
    requires Sized(sc) && sc.stepCount <= MAX_STEPS
  {
    forall i :: 0 <= i < sc.stepCount ==> !sc.steps[i].body.FailReaction? && !sc.steps[i].body.ResetReaction?
  }

  /** Some repeated id, seen from the pair or from its earlier member. */
  lemma DuplicatesAgree(sc: Scenario)
    requires Sized(sc) && sc.stepCount <= MAX_STEPS && sc.branchCount <= MAX_BRANCHES
    ensures DuplicateStepIds(sc) <==> exists i :: 0 <= i < sc.stepCount && StepIdRepeats(sc, i)
    ensures DuplicateBranchIds(sc) <==> exists i :: 0 <= i < sc.branchCount && BranchIdRepeats(sc, i)
  {
    if DuplicateStepIds(sc) {
      var i, j :| 0 <= i < j < sc.stepCount && ShareBranch(sc, i, j) && sc.steps[i].id == sc.steps[j].id;
      assert StepIdRepeats(sc, i);
    }
    if DuplicateBranchIds(sc) {
      var i, j :| 0 <= i < j < sc.branchCount && sc.branches[i].id == sc.branches[j].id;
      assert BranchIdRepeats(sc, i);
    }
  }

  lemma BranchPartAgrees(r: Report, sc: Scenario)
    requires Sized(sc) && PoolsWithinLimits(sc) && sc.stepCount <= MAX_STEPS && sc.branchCount <= MAX_BRANCHES
    requires forall i :: 0 <= i < sc.branchCount ==> BranchLegal(sc.branches[i])
    ensures CheckBranches(r, sc, sc.branchCount).valid <==>
      r.valid && !DuplicateBranchIds(sc) && BranchesCode(sc, 0) == Ok
  {
    BranchesAgree(r, sc, sc.branchCount);
    BranchesCodeOk(sc, 0);
    DuplicatesAgree(sc);
    assert forall i :: 0 <= i < sc.branchCount ==>
      (BranchClean(sc, i) <==> BranchCode(sc, sc.branches[i]) == Ok && !BranchIdRepeats(sc, i));
  }

  lemma StepPartAgrees(r: Report, sc: Scenario)
    requires Sized(sc) && sc.stepCount <= MAX_STEPS && sc.branchCount <= MAX_BRANCHES && NoReactionSteps(sc)
    ensures CheckSteps(r, sc, sc.stepCount).valid <==>
      r.valid && !DuplicateStepIds(sc) && forall i :: 0 <= i < sc.stepCount ==> StepOk(sc.steps[i])
  {
    StepsAgree(r, sc, sc.stepCount);
    DuplicatesAgree(sc);
    assert forall i :: 0 <= i < sc.stepCount ==> (StepClean(sc, i) <==> StepOk(sc.steps[i]) && !StepIdRepeats(sc, i));
  }

  lemma IllegalIsRefused(sc: Scenario)
    requires Sized(sc) && PoolsWithinLimits(sc) && sc.stepCount <= MAX_STEPS && sc.branchCount <= MAX_BRANCHES
    requires !(forall i :: 0 <= i < sc.branchCount ==> BranchLegal(sc.branches[i])) || !NoReactionSteps(sc)
    ensures StructuralCode(sc) != Ok
  {
    BranchesCodeOk(sc, 0);
    if !NoReactionSteps(sc) {
      var i :| 0 <= i < sc.stepCount && (sc.steps[i].body.FailReaction? || sc.steps[i].body.ResetReaction?);
      assert !StepOk(sc.steps[i]);
    }
  }

  /**
   The two validators agree: storing a scenario succeeds exactly when the static report
   ends valid, every branch has a legal type and reentry mode, and no step is a reaction
   control step. Nothing is assumed about how many issues there are.
   */
  lemma ValidatorsAgree(sc: Scenario)
    requires Sized(sc) && PoolsWithinLimits(sc)
    ensures StructuralCode(sc) == Ok <==>
      && StaticReport(sc).valid
      && (forall i :: 0 <= i < sc.branchCount && i < MAX_BRANCHES ==> BranchLegal(sc.branches[i]))
      && (sc.stepCount <= MAX_STEPS ==> NoReactionSteps(sc))
  {
    if sc.stepCount <= MAX_STEPS && sc.branchCount <= MAX_BRANCHES {
      var r := CheckHeader(EMPTY_REPORT, sc);
      if (forall i :: 0 <= i < sc.branchCount ==> BranchLegal(sc.branches[i])) && NoReactionSteps(sc) {
        BranchPartAgrees(r, sc);
        StepPartAgrees(CheckBranches(r, sc, sc.branchCount), sc);
      } else {
        IllegalIsRefused(sc);
      }
    }
  }
}
