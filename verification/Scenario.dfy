/**
 Room scenarios as stored: fixed-capacity arrays with a count beside each, and index ranges
 from branches into pools of variants and actions.
 */
module Scenario {
  const MAX_STEPS: nat := 48
  const MAX_BRANCHES: nat := 8
  const MAX_VARIANTS: nat := 8
  const MAX_ACTIONS: nat := 24
  const MAX_GROUP_COMMANDS: nat := 8
  const GROUP_MAX: nat := 4
  const EVENTS_MAX: nat := 4
  const FLAGS_MAX: nat := 8

  datatype DeviceCommand = DeviceCommand(deviceId: string, commandId: string)

  datatype EventRef = EventRef(deviceId: string, eventId: string)

  /** A step's type with the part of the union that the type selects; `UnknownType` is a value outside the enum. */
  datatype StepBody =
    | WaitTime(durationMs: nat)
    | OperatorApproval(prompt: string)
    | RunCommand(command: DeviceCommand)
    | WaitEvent(event: EventRef)
    | CommandGroup(commands: seq<DeviceCommand>, count: nat)
    | ShowMessage(message: string)
    | SetFlag(name: string)
    | WaitFlags(flags: seq<string>, count: nat)
    | WaitAny(events: seq<EventRef>, count: nat)
    | WaitAll(events: seq<EventRef>, count: nat)
    | FailReaction
    | ResetReaction
    | EndGame
    | UnknownType

  datatype Step = Step(id: string, body: StepBody)

  datatype TriggerKind =
    | NoTrigger
    | OnDeviceEvent
    | OnAnyEvents
    | OnAllEvents
    | OnFlagChanged
    | OnOperatorEvent
    | OnRuntimeEvent
    | UnknownTrigger

  datatype Trigger = Trigger(
    kind: TriggerKind,
    event: EventRef,
    events: seq<EventRef>,
    eventCount: nat,
    flagName: string,
    runtimeEvent: string,
    operatorEvent: string)

  datatype Action =
    | CommandAction(command: DeviceCommand)
    | GroupAction(start: nat, count: nat)
    | WaitAction(durationMs: nat)
    | FlagAction(name: string)
    | MessageAction(message: string)
    | FailAction
    | ResetAction
    | OtherAction

  datatype Variant = Variant(id: string, actionStart: nat, actionCount: nat)

  datatype BranchType = NormalBranch | ReactiveBranch | UnknownBranch

  datatype Reentry = Ignore | QueueOne | Restart | Parallel | UnknownReentry

  datatype Branch = Branch(
    id: string,
    name: string,
    kind: BranchType,
    requiredForCompletion: bool,
    cooldownMs: nat,
    maxFireCount: nat,
    runOnce: bool,
    reentry: Reentry,
    trigger: Trigger,
    guardFlags: seq<string>,
    guardFlagCount: nat,
    variantStart: nat,
    variantCount: nat,
    completeStart: nat,
    completeCount: nat,
    stepStart: nat,
    stepCount: nat)

  datatype Scenario = Scenario(
    id: string,
    name: string,
    roomId: string,
    steps: seq<Step>,
    stepCount: nat,
    variants: seq<Variant>,
    variantCount: nat,
    actions: seq<Action>,
    actionCount: nat,
    groupCommands: seq<DeviceCommand>,
    groupCommandCount: nat,
    branches: seq<Branch>,
    branchCount: nat)

  /** The arrays of a step have their declared sizes. */
  predicate BodySized(body: StepBody) {
    match body
    case CommandGroup(commands, _) => |commands| == GROUP_MAX
    case WaitFlags(flags, _) => |flags| == FLAGS_MAX
    case WaitAny(events, _) => |events| == EVENTS_MAX
    case WaitAll(events, _) => |events| == EVENTS_MAX
    case _ => true
  }

  /** The arrays of a branch have their declared sizes; guard flags are counted by the loader, never beyond them. */
  predicate BranchSized(b: Branch) {
    |b.guardFlags| == FLAGS_MAX && b.guardFlagCount <= FLAGS_MAX && |b.trigger.events| == EVENTS_MAX
  }

  /** What the C types fix: array sizes, not the counts stored beside them. */
  predicate Sized(sc: Scenario) {
    && |sc.steps| == MAX_STEPS && |sc.branches| == MAX_BRANCHES && |sc.variants| == MAX_VARIANTS
    && |sc.actions| == MAX_ACTIONS && |sc.groupCommands| == MAX_GROUP_COMMANDS
    && (forall i :: 0 <= i < |sc.steps| ==> BodySized(sc.steps[i].body))
    && (forall i :: 0 <= i < |sc.branches| ==> BranchSized(sc.branches[i]))
  }

  /** The reactive pool counts are inside the pools. */
  predicate PoolsWithinLimits(sc: Scenario) {
    sc.variantCount <= MAX_VARIANTS && sc.actionCount <= MAX_ACTIONS && sc.groupCommandCount <= MAX_GROUP_COMMANDS
  }

  predicate CommandOk(c: DeviceCommand) {
    c.deviceId != "" && c.commandId != ""
  }

  predicate EventOk(e: EventRef) {
    e.deviceId != "" && e.eventId != ""
  }

  /** `room_scenario_valid_reactive_trigger`, shared by both validators. */
  predicate TriggerOk(t: Trigger)
    requires |t.events| == EVENTS_MAX
  {
    match t.kind
    case OnDeviceEvent => EventOk(t.event)
    case OnAnyEvents => EventsOk(t.events, t.eventCount)
    case OnAllEvents => EventsOk(t.events, t.eventCount)
    case OnFlagChanged => t.flagName != ""
    case OnOperatorEvent => t.operatorEvent != ""
    case OnRuntimeEvent => t.runtimeEvent != ""
    case _ => false
  }

  predicate EventsOk(events: seq<EventRef>, count: nat)
    requires |events| == EVENTS_MAX
  {
    0 < count <= EVENTS_MAX && forall i :: 0 <= i < count ==> EventOk(events[i])
  }

  predicate IsWait(body: StepBody) {
    body.WaitEvent? || body.WaitAny? || body.WaitAll? || body.WaitFlags?
  }

  /** `room_scenario_steps_share_branch`: decided by the first branch from `k` on that holds step `a`. */
  predicate ShareBranchFrom(sc: Scenario, a: nat, b: nat, k: nat)
    requires sc.branchCount <= |sc.branches| && k <= sc.branchCount
    decreases sc.branchCount - k
  {
    if k == sc.branchCount then true
    else
      var br := sc.branches[k];
      if br.stepStart <= a < br.stepStart + br.stepCount then br.stepStart <= b < br.stepStart + br.stepCount
      else ShareBranchFrom(sc, a, b, k + 1)
  }

  predicate ShareBranch(sc: Scenario, a: nat, b: nat)
    requires sc.branchCount <= |sc.branches|
  {
    ShareBranchFrom(sc, a, b, 0)
  }

  predicate IsControl(a: Action) {
    a.FailAction? || a.ResetAction?
  }

  /** A reactive branch written in the newer form. */
  predicate IsV2(b: Branch) {
    b.variantCount > 0 || !b.trigger.kind.NoTrigger?
  }

  /** A reactive branch triggered by flags alone must not fire without end. */
  predicate FlagLoopUnguarded(b: Branch, first: Step) {
    first.body.WaitFlags? && !b.runOnce && b.maxFireCount == 0 && b.cooldownMs == 0
  }
}

/** The yes/no check that refuses a scenario when it is stored. */
module StructuralCheck {
  import opened Scenario

  datatype Code = Ok | InvalidArg | InvalidSize

  /** `room_scenario_valid_step` */
  predicate StepOk(step: Step)
    requires BodySized(step.body)
  {
    step.id != "" && BodyOk(step.body)
  }

  predicate BodyOk(body: StepBody)
    requires BodySized(body)
  {
    match body
    case WaitTime(ms) => ms > 0
    case OperatorApproval(prompt) => prompt != ""
    case RunCommand(c) => CommandOk(c)
    case WaitEvent(e) => EventOk(e)
    case CommandGroup(cs, count) => 0 < count <= GROUP_MAX && forall i :: 0 <= i < count ==> CommandOk(cs[i])
    case ShowMessage(m) => m != ""
    case SetFlag(name) => name != ""
    case WaitFlags(flags, count) => 0 < count <= FLAGS_MAX && forall i :: 0 <= i < count ==> flags[i] != ""
    case WaitAny(events, count) => EventsOk(events, count)
    case WaitAll(events, count) => EventsOk(events, count)
    case FailReaction => false
    case ResetReaction => false
    case EndGame => true
    case UnknownType => false
  }

  /** `room_scenario_valid_reactive_action` */
  predicate ActionOk(sc: Scenario, a: Action)
    requires Sized(sc) && PoolsWithinLimits(sc)
  {
    match a
    case CommandAction(c) => CommandOk(c)
    case GroupAction(start, count) =>
      && count != 0 && start + count <= sc.groupCommandCount
      && forall i :: start <= i < start + count ==> CommandOk(sc.groupCommands[i])
    case WaitAction(ms) => ms > 0
    case FlagAction(name) => name != ""
    case MessageAction(m) => m != ""
    case FailAction => true
    case ResetAction => true
    case OtherAction => false
  }

  predicate VariantOk(sc: Scenario, v: Variant)
    requires Sized(sc) && PoolsWithinLimits(sc)
  {
    && v.id != "" && v.actionCount != 0 && v.actionStart + v.actionCount <= sc.actionCount
    && forall i :: v.actionStart <= i < v.actionStart + v.actionCount ==> ActionOk(sc, sc.actions[i])
  }

  /** `room_scenario_valid_reactive_branch_v2` */
  predicate BranchV2Ok(sc: Scenario, b: Branch)
    requires Sized(sc) && PoolsWithinLimits(sc) && BranchSized(b)
  {
    && TriggerOk(b.trigger)
    && b.variantCount != 0 && b.variantStart + b.variantCount <= sc.variantCount
    && (forall i :: 0 <= i < b.guardFlagCount ==> b.guardFlags[i] != "")
    && (forall i :: b.variantStart <= i < b.variantStart + b.variantCount ==> VariantOk(sc, sc.variants[i]))
    && b.completeStart + b.completeCount <= sc.actionCount
    && (forall i :: b.completeStart <= i < b.completeStart + b.completeCount ==>
          !IsControl(sc.actions[i]) && ActionOk(sc, sc.actions[i]))
  }

  /** The checks `room_scenario_validate_structural` makes of one branch, in its order. */
  function BranchCode(sc: Scenario, b: Branch): Code
    requires Sized(sc) && PoolsWithinLimits(sc) && BranchSized(b) && sc.stepCount <= MAX_STEPS
  {
    if b.id == "" || b.name == "" || b.kind.UnknownBranch? || b.reentry.UnknownReentry? then InvalidArg
    else if b.stepStart + b.stepCount > sc.stepCount then InvalidSize
    else if !b.kind.ReactiveBranch? then Ok
    else if IsV2(b) then (if BranchV2Ok(sc, b) then Ok else InvalidArg)
    else if b.stepCount == 0 || !IsWait(sc.steps[b.stepStart].body) then InvalidArg
    else if FlagLoopUnguarded(b, sc.steps[b.stepStart]) then InvalidArg
    else Ok
  }

  function BranchesCode(sc: Scenario, i: nat): Code
    requires Sized(sc) && PoolsWithinLimits(sc) && sc.stepCount <= MAX_STEPS && i <= sc.branchCount <= MAX_BRANCHES
    decreases sc.branchCount - i
  {
    if i == sc.branchCount then Ok
    else
      var code := BranchCode(sc, sc.branches[i]);
      if code != Ok then code else BranchesCode(sc, i + 1)
  }

  predicate DuplicateStepIds(sc: Scenario)
    requires Sized(sc) && sc.stepCount <= MAX_STEPS && sc.branchCount <= MAX_BRANCHES
  {
    exists i, j :: 0 <= i < j < sc.stepCount && ShareBranch(sc, i, j) && sc.steps[i].id == sc.steps[j].id
  }

  predicate DuplicateBranchIds(sc: Scenario)
    requires Sized(sc) && sc.branchCount <= MAX_BRANCHES
  {
    exists i, j :: 0 <= i < j < sc.branchCount && sc.branches[i].id == sc.branches[j].id
  }

  /** `room_scenario_validate_structural` */
  function StructuralCode(sc: Scenario): Code
    requires Sized(sc)
  {
    if sc.id == "" || sc.name == "" || sc.roomId == "" then InvalidArg
    else if sc.stepCount > MAX_STEPS || !PoolsWithinLimits(sc) || sc.branchCount > MAX_BRANCHES then InvalidSize
    else if DuplicateStepIds(sc) || DuplicateBranchIds(sc) then InvalidArg
    else
      var code := BranchesCode(sc, 0);
      if code != Ok then code
      else if exists i :: 0 <= i < sc.stepCount && !StepOk(sc.steps[i]) then InvalidArg
      else Ok
  }

  lemma {:induction false} BranchesCodeOk(sc: Scenario, i: nat)
    requires Sized(sc) && PoolsWithinLimits(sc) && sc.stepCount <= MAX_STEPS && i <= sc.branchCount <= MAX_BRANCHES
    ensures BranchesCode(sc, i) == Ok <==> forall k :: i <= k < sc.branchCount ==> BranchCode(sc, sc.branches[k]) == Ok
    decreases sc.branchCount - i
  {
    if i < sc.branchCount { BranchesCodeOk(sc, i + 1); }
  }
}
