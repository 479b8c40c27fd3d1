/**
  `session/update` frames in, host events out: what the reducer computes, as functions over its
  state. The class in `Reducer.dfy` changes that state in place and is proved to compute this.
*/
module ReducerSpec {
  import opened Prelude
  import opened Events
  import opened HeldMerge

  // Frames, as the agent sends them.

  datatype Block =
    | TextBlock(text: string)
    | DiffBlock(path: string, oldText: Option<string>, newText: string)
    | TerminalBlock(terminal: string)
    | OtherBlock

  datatype ToolStatus = Pending | InProgress | Completed | Faulted | UnknownStatus

  datatype ToolKind = Execute | Edit | Delete | Move | Fetch | Read | Search | Think | SwitchMode | OtherTool

  datatype ToolCall = ToolCall(
    name: Option<string>,
    title: string,
    kind: ToolKind,
    status: ToolStatus,
    content: seq<Block>,
    locations: nat)

  datatype ToolCallFields = ToolCallFields(
    name: Option<string>,
    title: Option<string>,
    kind: Option<ToolKind>,
    status: Option<ToolStatus>,
    content: Option<seq<Block>>,
    locations: Option<nat>)

  datatype PlanEntry = PlanEntry(content: string, status: StepStatus, priority: Option<StepPriority>)

  datatype Command = Command(name: string, description: string)

  /** A session configuration option, as far as the reducer looks at it: not at all. */
  datatype ConfigOption = ConfigOption(id: string, current: string)

  datatype Frame =
    | AgentMessage(text: Option<string>)
    | AgentThought(text: Option<string>)
    | ToolCallFrame(id: string, call: ToolCall)
    | ToolCallUpdateFrame(id: string, fields: ToolCallFields)
    | PlanFrame(entries: seq<PlanEntry>)
    | UsageFrame(used: nat, size: nat)
    | CommandsFrame(commands: seq<Command>)
    | ConfigOptionsFrame(options: seq<ConfigOption>)
    | UntrackedFrame

  datatype Fact = Commands(commands: seq<Command>) | ConfigurationOptions(options: seq<ConfigOption>)

  // The reducer's memory.

  datatype OpenCall = OpenCall(openedAt: nat, lastUpdate: Option<nat>, held: Option<Held>)

  datatype State = State(
    reasoningOpen: bool,
    planStarted: bool,
    openCalls: map<string, OpenCall>,
    finishedCalls: set<int>,
    nextCall: nat)

  const FRESH := State(false, false, map[], {}, 0)

  /**
    How updates of a running call are sent: no more often than `interval`, each held one bounded
    early. The reducer always bounds early; holding raw bodies is what the proof compares it with.
  */
  datatype Policy = Policy(interval: nat, boundsEarly: bool)

  /** What one frame, or the end of a turn, leaves behind and tells the host. */
  datatype Reduction = Reduction(state: State, events: seq<Event>)

  // Identifiers.

  const PLAN_CALL_ID := "acp:plan"
  const MINTED_ID_PREFIX := "acp:"
  const VENDOR_PREFIX := "acp:vendor:"
  const UNTITLED_TOOL_CALL := "tool"

  /** What an agent's tool call id is called in the events a host receives. */
  function ClearOfPlan(id: string): string {
    if MINTED_ID_PREFIX <= id then VENDOR_PREFIX + id else id
  }

  /** No id an agent sends can take the plan's place. */
  lemma AgentIdIsNeverThePlan(id: string)
    ensures ClearOfPlan(id) != PLAN_CALL_ID
  {
    assert MINTED_ID_PREFIX <= PLAN_CALL_ID;
    assert (VENDOR_PREFIX + id)[4] == 'v';
  }

  /** Two agent ids never merge. */
  lemma ClearOfPlanIsInjective(a: string, b: string)
    requires ClearOfPlan(a) == ClearOfPlan(b)
    ensures a == b
  {
    assert MINTED_ID_PREFIX <= VENDOR_PREFIX + a && MINTED_ID_PREFIX <= VENDOR_PREFIX + b;
    assert a == (VENDOR_PREFIX + a)[|VENDOR_PREFIX|..];
    assert b == (VENDOR_PREFIX + b)[|VENDOR_PREFIX|..];
  }

  // What one frame says, with no memory.

  /** Whether a frame is part of the turn's transcript, and so closes an open reasoning block. */
  predicate Transcript(frame: Frame) {
    frame.AgentMessage? || frame.ToolCallFrame? || frame.ToolCallUpdateFrame? || frame.PlanFrame?
  }

  /** The session facts one frame carries, read without any reducer. */
  function SessionFacts(frame: Frame): seq<Fact> {
    match frame
    case CommandsFrame(commands) => [Commands(commands)]
    case ConfigOptionsFrame(options) => [ConfigurationOptions(options)]
    case _ => []
  }

  /** The outcome of a terminal status, or nothing while the call is still running. */
  function Finished(status: ToolStatus): Option<Outcome> {
    match status
    case Completed => Some(Succeeded)
    case Faulted => Some(Failed)
    case Pending | InProgress | UnknownStatus => None
  }

  function ActivityKind(kind: ToolKind): Kind {
    match kind
    case Execute => CommandKind
    case Edit | Delete | Move => FileChangeKind
    case Fetch => WebSearchKind
    case _ => OtherKind
  }

  function FirstText(blocks: seq<Block>): Option<string> {
    if blocks == [] then None
    else if blocks[0].TextBlock? then Some(blocks[0].text)
    else FirstText(blocks[1..])
  }

  function FirstDiffPath(blocks: seq<Block>): Option<string> {
    if blocks == [] then None
    else if blocks[0].DiffBlock? then Some(blocks[0].path)
    else FirstDiffPath(blocks[1..])
  }

  function FirstTerminal(blocks: seq<Block>): Option<string> {
    if blocks == [] then None
    else if blocks[0].TerminalBlock? then Some(blocks[0].terminal)
    else FirstTerminal(blocks[1..])
  }

  /** One line of specifics: the first text, failing that a diff's path, failing that a terminal. */
  function ContentDetail(blocks: seq<Block>): Option<string> {
    if FirstText(blocks).Some? then FirstText(blocks)
    else if FirstDiffPath(blocks).Some? then FirstDiffPath(blocks)
    else FirstTerminal(blocks)
  }

  function DiffRows(blocks: seq<Block>): seq<FileChange> {
    if blocks == [] then []
    else
      (if blocks[0].DiffBlock?
       then [FileChange(blocks[0].path, None, None, blocks[0].oldText, Some(blocks[0].newText))]
       else [])
      + DiffRows(blocks[1..])
  }

  /** Diffs win the slot when there are any; otherwise the first text. */
  function ToolCallContent(blocks: seq<Block>): Option<Content> {
    if DiffRows(blocks) != [] then Some(Diff(DiffRows(blocks)))
    else MapOption((text: string) => Output(text), FirstText(blocks))
  }

  function ToolName(core: Core, name: Option<string>, title: string): string {
    if name.Some? && core.namesATool(name.value) then name.value else title
  }

  function StartedActivity(core: Core, call: ToolCall): Activity {
    Activity(
      ToolName(core, call.name, call.title),
      ActivityKind(call.kind),
      call.title,
      ContentDetail(call.content),
      ToolCallContent(call.content),
      if call.locations == 0 then None else Some(call.locations))
  }

  /** A call announced for the first time: its start, and its end when it is already over. */
  function AnnouncedEvents(core: Core, id: string, call: ToolCall): seq<Event> {
    [ActivityStarted(id, StartedActivity(core, call))]
    + match Finished(call.status)
      case None => []
      case Some(outcome) => [ActivityCompleted(id, Result(outcome, None, None))]
  }

  /** What an update frame means for a call that is running. */
  datatype Meaning = Says(update: Update) | Ends(result: Result)

  function UpdateMeaning(fields: ToolCallFields): Meaning {
    // The collection is replaced whole: an absent one says nothing, an empty one clears.
    var detail := MapOption((blocks: seq<Block>) => ContentDetail(blocks).GetOr(""), fields.content);
    var content := MapOption((blocks: seq<Block>) => ToolCallContent(blocks).GetOr(Empty), fields.content);
    var outcome := if fields.status.Some? then Finished(fields.status.value) else None;
    match outcome
    case Some(ended) => Ends(Result(ended, detail, content))
    case None => Says(Update(fields.title, detail, content, false))
  }

  /** A repeated `tool_call` as an update: an empty collection is the agent saying nothing about it. */
  function RepeatFields(call: ToolCall): ToolCallFields {
    ToolCallFields(
      None,
      Some(call.title),
      Some(call.kind),
      Some(call.status),
      if call.content == [] then None else Some(call.content),
      if call.locations == 0 then None else Some(call.locations))
  }

  /** A first sighting through an update, announced from whatever the update carries. */
  function FirstSighting(fields: ToolCallFields): ToolCall {
    ToolCall(
      fields.name,
      if fields.title.Some? && !Blank(fields.title.value) then fields.title.value else UNTITLED_TOOL_CALL,
      fields.kind.GetOr(OtherTool),
      fields.status.GetOr(Pending),
      fields.content.GetOr([]),
      fields.locations.GetOr(0))
  }

  // Plans.

  function CompletedEntries(entries: seq<PlanEntry>): nat {
    if entries == [] then 0
    else (if entries[0].status.StepCompleted? then 1 else 0) + CompletedEntries(entries[1..])
  }

  function CurrentEntry(entries: seq<PlanEntry>): Option<string> {
    if entries == [] then None
    else if entries[0].status.StepInProgress? then Some(entries[0].content)
    else CurrentEntry(entries[1..])
  }

  function PlanTitle(entries: seq<PlanEntry>): string {
    "Plan: " + Decimal(CompletedEntries(entries)) + "/" + Decimal(|entries|) + " done"
  }

  function PlanDetail(entries: seq<PlanEntry>): string {
    if CurrentEntry(entries).Some? then CurrentEntry(entries).value
    else if entries == [] then ""
    else entries[0].content
  }

  function PlanContent(entries: seq<PlanEntry>): Content {
    Plan(seq(|entries|, i requires 0 <= i < |entries| =>
      PlanStep(entries[i].content, entries[i].status, entries[i].priority)))
  }

  // One frame against the reducer's memory.

  function CloseReasoning(s: State): Reduction {
    Reduction(s.(reasoningOpen := false), if s.reasoningOpen then [ReasoningEnded] else [])
  }

  predicate IsFinished(core: Core, s: State, id: string) {
    core.digest(id) in s.finishedCalls
  }

  function MarkFinished(core: Core, s: State, id: string): State {
    s.(finishedCalls := s.finishedCalls + {core.digest(id)})
  }

  /** Records a call the host has just been told about, as running or as already over. */
  function Track(core: Core, s: State, id: string, over: bool): State {
    if over then MarkFinished(core, s, id)
    else s.(openCalls := s.openCalls[id := OpenCall(s.nextCall, None, None)], nextCall := s.nextCall + 1)
  }

  /** A call that is not running: announced, unless it already ended. */
  function Announce(core: Core, s: State, id: string, call: ToolCall): Reduction {
    if IsFinished(core, s, id) then Reduction(s, [])
    else
      Reduction(
        Track(core, s, id, Finished(call.status).Some? || !core.publishes(id)),
        AnnouncedEvents(core, id, call))
  }

  /** Whether the call's last update went out less than an interval before `now`. */
  predicate Recent(policy: Policy, call: OpenCall, now: nat) {
    && call.lastUpdate.Some?
    && (if now < call.lastUpdate.value then 0 else now - call.lastUpdate.value) < policy.interval
  }

  function Withheld(core: Core, policy: Policy, call: OpenCall, update: Update, now: nat): Held {
    var later :=
      if Recent(policy, call, now) && policy.boundsEarly then BoundedHeld(core, update) else Unbounded(update);
    if call.held.Some? then MergedWith(call.held.value, later) else later
  }

  /** A running call's update: held inside the interval, otherwise sent with what was held. */
  function SayOrHold(core: Core, policy: Policy, s: State, id: string, update: Update, now: nat): Reduction
    requires id in s.openCalls
  {
    var call := s.openCalls[id];
    var merged := Withheld(core, policy, call, update, now);
    if Recent(policy, call, now) then
      Reduction(s.(openCalls := s.openCalls[id := call.(held := Some(merged))]), [])
    else
      Reduction(
        s.(openCalls := s.openCalls[id := call.(held := None, lastUpdate := Some(now))]),
        [ActivityUpdated(id, merged.IntoUpdate())])
  }

  /** The held update a completion does not replace, ahead of the completion. */
  function LastWords(id: string, call: OpenCall, result: Result): seq<Event> {
    if call.held.Some? && !SupersededBy(call.held.value, result).IsEmpty()
    then [ActivityUpdated(id, SupersededBy(call.held.value, result).IntoUpdate())]
    else []
  }

  function EndCall(core: Core, s: State, id: string, result: Result): Reduction
    requires id in s.openCalls
  {
    Reduction(
      MarkFinished(core, s.(openCalls := s.openCalls - {id}), id),
      LastWords(id, s.openCalls[id], result) + [ActivityCompleted(id, result)])
  }

  function ReviseOpen(core: Core, policy: Policy, s: State, id: string, fields: ToolCallFields, now: nat): Reduction
    requires id in s.openCalls
  {
    match UpdateMeaning(fields)
    case Ends(result) => EndCall(core, s, id, result)
    case Says(update) =>
      if update.IsEmpty() then Reduction(s, []) else SayOrHold(core, policy, s, id, update, now)
  }

  function ToolCallStep(core: Core, policy: Policy, s: State, id: string, call: ToolCall, now: nat): Reduction {
    if id in s.openCalls then ReviseOpen(core, policy, s, id, RepeatFields(call), now)
    else Announce(core, s, id, call)
  }

  function ToolCallUpdateStep(
    core: Core, policy: Policy, s: State, id: string, fields: ToolCallFields, now: nat): Reduction
  {
    if id in s.openCalls then ReviseOpen(core, policy, s, id, fields, now)
    else Announce(core, s, id, FirstSighting(fields))
  }

  function ReasoningStep(s: State, text: Option<string>): Reduction {
    if text.None? then Reduction(s, [])
    else
      Reduction(
        s.(reasoningOpen := true),
        (if s.reasoningOpen then [] else [ReasoningStarted]) + [ReasoningDelta(text.value)])
  }

  function PlanReduction(s: State, entries: seq<PlanEntry>): Reduction {
    Reduction(
      s.(planStarted := true),
      if s.planStarted then
        [ActivityUpdated(PLAN_CALL_ID,
          Update(Some(PlanTitle(entries)), Some(PlanDetail(entries)), Some(PlanContent(entries)), false))]
      else
        [ActivityStarted(PLAN_CALL_ID,
          Activity("plan", PlanKind, PlanTitle(entries), Some(PlanDetail(entries)),
                   Some(PlanContent(entries)), None))])
  }

  function Body(core: Core, policy: Policy, s: State, frame: Frame, now: nat): Reduction {
    match frame
    case AgentMessage(text) => Reduction(s, if text.Some? then [TextDelta(text.value)] else [])
    case AgentThought(text) => ReasoningStep(s, text)
    case ToolCallFrame(id, call) => ToolCallStep(core, policy, s, ClearOfPlan(id), call, now)
    case ToolCallUpdateFrame(id, fields) => ToolCallUpdateStep(core, policy, s, ClearOfPlan(id), fields, now)
    case PlanFrame(entries) => PlanReduction(s, entries)
    case UsageFrame(used, size) => Reduction(s, [ThreadUsage(used, size)])
    case CommandsFrame(_) | ConfigOptionsFrame(_) | UntrackedFrame => Reduction(s, [])
  }

  /** What one frame does: a transcript frame closes an open reasoning block first. */
  function Reduce(core: Core, policy: Policy, s: State, frame: Frame, now: nat): Reduction {
    var first := if Transcript(frame) then CloseReasoning(s) else Reduction(s, []);
    var then_ := Body(core, policy, first.state, frame, now);
    Reduction(then_.state, first.events + then_.events)
  }

  // The end of a turn.

  /** `order` lists the calls of `open`, each once, in the order they were opened. */
  ghost predicate IsOpeningOrder(open: map<string, OpenCall>, order: seq<string>) {
    && (forall id :: id in order <==> id in open)
    && (forall i, j :: 0 <= i < j < |order| ==>
          && order[i] in open && order[j] in open
          && open[order[i]].openedAt < open[order[j]].openedAt)
  }

  function ClosingOfCall(id: string, call: OpenCall, outcome: Outcome): seq<Event> {
    (if call.held.Some? && !call.held.value.IsEmpty()
     then [ActivityUpdated(id, call.held.value.IntoUpdate())] else [])
    + [ActivityCompleted(id, Result(outcome, None, None))]
  }

  function ClosingOfCalls(open: map<string, OpenCall>, order: seq<string>, outcome: Outcome): seq<Event>
    requires forall id <- order :: id in open
  {
    if order == [] then []
    else
      ClosingOfCalls(open, order[..|order| - 1], outcome)
      + ClosingOfCall(order[|order| - 1], open[order[|order| - 1]], outcome)
  }

  function FinishedAll(core: Core, finished: set<int>, order: seq<string>): set<int> {
    finished + set id | id in order :: core.digest(id)
  }

  /** The end of a turn, given the order its calls were opened in. */
  function FinishInOrder(core: Core, s: State, order: seq<string>, outcome: Outcome): Reduction
    requires forall id <- order :: id in s.openCalls
  {
    Reduction(
      State(false, false, map[], FinishedAll(core, s.finishedCalls, order), s.nextCall),
      CloseReasoning(s).events
      + ClosingOfCalls(s.openCalls, order, outcome)
      + (if s.planStarted then [ActivityCompleted(PLAN_CALL_ID, Result(Succeeded, None, None))] else []))
  }

  // Runs.

  datatype Input = Input(frame: Frame, now: nat)

  function Run(core: Core, policy: Policy, inputs: seq<Input>): Reduction {
    if inputs == [] then Reduction(FRESH, [])
    else
      var before := Run(core, policy, inputs[..|inputs| - 1]);
      var last := inputs[|inputs| - 1];
      var step := Reduce(core, policy, before.state, last.frame, last.now);
      Reduction(step.state, before.events + step.events)
  }
}
