# Verification of the ACP harness

A model, with proofs, of the parts of the harness that keep state to meet a simple promise: the reducer that turns
an agent's `session/update` frames into host events, the protocol by which permission questions, turns and a close
share one session, the non-atomic configuration patch, the order of option catalogs, the deadline of a close, the
byte count of a prompt frame, and two scanners (a commander `--help`, and versions).

## How it is laid out

| files | what they hold |
|---|---|
| `Prelude.dfy`, `Events.dfy` | shared helpers; activities, events, and the core's bounding of a published event |
| `HeldMerge.dfy`, `ReducerSpec.dfy`, `Reducer.dfy` | the held merge; the reducer as functions over its state; the class that changes that state in place |
| `Bracketing.dfy`, `Coalescing.dfy`, `EarlyBounding.dfy`, `RateBound.dfy` | what every run of the reducer keeps |
| `ReducerReading.dfy` | what a host is shown, told from the frames alone |
| `Approvals.dfy`, `ApprovalSafety.dfy`, `ApprovalPromises.dfy`, `ApprovalAnswers.dfy`, `OpenQuestions.dfy`, `ApprovalEvents.dfy`, `SessionQuestions.dfy` | permission questions as a state machine; its invariant; what follows for every interleaving; what an answer carries; when one is never closed for the host; the classes that carry the steps out |
| `TurnSlot.dfy`, `TurnSafety.dfy`, `TurnClaims.dfy`, `TurnLeftovers.dfy`, `TurnPromises.dfy`, `TurnEndings.dfy`, `SessionTurns.dfy`, `SessionFrames.dfy` | the turn slot likewise; who ends a turn; when the calls a turn leaves open are sure to be closed; one frame under a turn's handle |
| `CatalogOptions.dfy`, `CatalogOrder.dfy`, `Configuration.dfy`, `ConfigurationReports.dfy` | the option catalog; the revision that orders catalogs; the patch loop over it; what its account says |
| `Deadlines.dfy`, `PromptSize.dfy`, `JsonReading.dfy` | arithmetic with a real bound; a reader of what is counted |
| `Help.dfy`, `HelpScans.dfy`, `HelpRoundTrip.dfy`, `Versions.dfy`, `VersionReading.dfy` | the scanners, and the texts they read back |

## How the source is read

- Of the core crate only the stages of a process stop are modelled. What it does to a field (`normalized`), which call ids it publishes and which names it
  shows are function values in `Events.Core`, asked only to be `Lawful`: bounding an already bounded field changes nothing and cuts
  nothing, and a bounded field fits its published limit. `HeldMerge.CuttingCoreIsLawful` shows that the laws
  can be met.
- The keyed digest of a finished call's id is an arbitrary function. Safety holds for every one of them; that a
  call's first frame opens it is stated with the exact condition (`Bracketing.FirstFrameOpens`).
- Instants are naturals and may go backwards. Counters are unbounded, so they never wrap.
- Tasks interleave step by step. One step is what a task does under one acquisition of a lock, or between two awaits.
  Claiming a terminal, taking what the turn owes, emitting each closing event, committing the terminal, closing
  admission and giving the slot back are steps of their own, in whichever order the task at hand performs them; so are
  reducing a frame, looking at the claim ahead of each of its events, and emitting that event. Histories (replies, registered and emitted events, frames reduced)
  are kept by the step functions and read by nothing the machine decides.
- The peer may stop the handler at any step, except between taking a reducer and committing the failure.
- Catalogs may be announced, answered and abandoned at will ahead of each configuration request and ahead of its answer.
- Whether a reply was taken by the wire, an event by the sink, or a deadline had passed is an argument of the step.

## What does not hold, and exactly when it does

- The prompt task claims the terminal and then takes the reducer; the close task, a cleanup and a refused event take it
  first. Between the two somebody else may end the turn, and the calls taken are then never closed for the host:
  `TurnPromises.AClosedTurnCanLeaveACallOpen` is such a run, and `TurnPromises.AnotherTaskCanCommitWhatTheHandlerClosed`
  one in which the calls are closed although another task ends the turn. `TurnEndings.LeftoversAreClosedIff` says, at the
  step that first takes the reducer, exactly when the calls are sure to be closed however the run goes on. A cleanup
  and a refused event are never sure of it, because a close or the prompt task may always come in between.
- A refused event prepares the terminal, and the prompt task prepares it again over a fresh reducer, which replaces
  the remembered call ids by none: `TurnPromises.ARefusedTurnLeaksItsLateUpdates` is a run in which the late update of
  one turn is reduced into the next. `TurnPromises.LateUpdateReachesTheTurnIffForgotten` gives the exact condition, and
  `TurnPromises.LateUpdatesNeverReachALaterTurn` the guarantee when the terminal is prepared once.
- `respond_unresolved` replies without queueing a resolution. A question that was already announced then stays open
  for the host: `ApprovalPromises.AnAnnouncedQuestionCanBeLetGo` is such a run. `OpenQuestions.LeftOpenIffLetGo` gives the
  exact guard over every run, and `OpenQuestions.AnsweringLeavesOpenIff` what can be told before an answer is given.
- A configuration call checks each write against the catalog it holds. A catalog announced between the check and the
  submission does not stop the write: `ConfigurationReports.ANotificationCanOutrunAWrite`. Exactly when a write keeps to
  what it may reach is in `ConfigurationReports.WritesKeepToTheirReachIff`: whatever the agent announces meanwhile, a
  native write is sure to keep off the model, the effort and the mode if and only if the last catalog installed
  meanwhile is not an announced one.
- Settings are reported under option ids, and two settings may share one. Each id is reported at most once if and only
  if they do not: `ConfigurationReports.IdsAreReportedOnceIff`.
- A frame that ends a call has no place for a title, so one sent with it is never shown:
  `ReducerReading.RowsSayWhatWasLastSent` tells the title by the last frame that sent one and did not end the call.
- Commander prints a default or a preset inside the group that lists the choices, and reading the group takes it for a
  choice: `HelpRoundTrip.ADefaultIsReadAsAChoice`, with the exact condition in `HelpRoundTrip.HelpReadsBack`.

## Model

| member | source | states |
|---|---|---|
| `ReducerSpec.AgentIdIsNeverThePlan` | crates/mango-agent-acp/src/reducer.rs:76-81 | No id an agent can send, once rewritten, equals the plan's own call id. |
| `ReducerSpec.ClearOfPlanIsInjective` | crates/mango-agent-acp/src/reducer.rs:76-85 | Rewriting never makes two agent ids one. |
| `Bracketing.TurnIsWellBracketed` | crates/mango-agent-acp/src/reducer.rs:543-852 | In every prefix of every run of frames followed by a finish: no id, the plan included, starts twice or ends more often than it started; an update falls strictly between its call's start and end; reasoning starts and ends alternate around its text. Over the whole turn every id the core publishes ends exactly as often as it starts, and so does reasoning. |
| `Bracketing.RunFollows` | crates/mango-agent-acp/src/reducer.rs:431-447 | After any run of frames a listener that checks each event as it comes has refused none, and holds open exactly what the reducer does: its running calls, the plan, reasoning, and ids the core refuses; what it saw end is remembered as finished. |
| `Bracketing.FinishIsHeard` | crates/mango-agent-acp/src/reducer.rs:543-569 | From any state in step with that listener, a finish is accepted event by event and closes reasoning, the running calls and the plan. |
| `Bracketing.LeftoversCloseInOpeningOrder` | crates/mango-agent-acp/src/reducer.rs:543-569 | The calls a turn leaves running end in the order the host saw them start, and the plan ends last. |
| `Bracketing.OpeningOrderExists` | crates/mango-agent-acp/src/reducer.rs:543-560 | The running calls of any run have an opening order: the order of their starts in the events sent. |
| `Bracketing.OneOpeningOrder` | crates/mango-agent-acp/src/reducer.rs:543-560 | That order is unique, so draining a map in any order and sorting gives one result. |
| `Bracketing.SecondFinishIsSilent` | crates/mango-agent-acp/src/reducer.rs:543-569 | A second finish emits nothing. |
| `Bracketing.FirstFrameOpens` | crates/mango-agent-acp/src/reducer.rs:672-815 | After any run, the first frame that mentions a call, whichever of the two kinds it is, opens it if and only if no call that started and no longer runs shares its digest; with an injective digest it always does. |
| `Coalescing.CoalescingRefinesImmediate` | crates/mango-agent-acp/src/reducer.rs:715-785 | For every frame sequence and clock, the reducer with any interval and the reducer with interval zero keep the same calls open, and the host's view of the first overlaid with what is held equals, as the core publishes it, the host's view of the second. |
| `Coalescing.WithheldShows` | crates/mango-agent-acp/src/reducer.rs:276-290 | However an update is merged with what is held, laid over a row it shows what sending it at once shows. |
| `Coalescing.EndCallRefines` | crates/mango-agent-acp/src/reducer.rs:296-306 | A completion, preceded by what it does not supersede of the held merge, leaves both hosts with equal rows. |
| `Coalescing.EndedCallsShowTheSame` | crates/mango-agent-acp/src/reducer.rs:715-785 | After any run, a call that is not running shows exactly the same with and without coalescing. |
| `Coalescing.FinishedTurnsShowTheSame` | crates/mango-agent-acp/src/reducer.rs:543-569 | After a finished turn the two hosts' whole views are equal. |
| `HeldMerge.EarlyBoundingIsInvisible` | crates/mango-agent-acp/src/reducer.rs:204-318 | Whatever sequence of updates is merged, bounded on arrival or not, publishing the merge gives the fields and the truncated flag of publishing the raw latest-wins merge once. |
| `HeldMerge.MergeRepresents` | crates/mango-agent-acp/src/reducer.rs:276-290 | Merging field by field with per-field cut flags represents the raw merge whenever both sides represent theirs. |
| `HeldMerge.HeldStaysWithinLimits` | crates/mango-agent-acp/src/reducer.rs:240-270 | Every field of a merge of held updates is within its published limit. |
| `HeldMerge.BytesFitMeansFits` | crates/mango-agent-acp/src/reducer.rs:327-356 | A content whose byte sizes pass the bound check fits the published limits, which count code points. |
| `EarlyBounding.RunsAreInvisible` | crates/mango-agent-acp/src/reducer.rs:743-766 | A reducer that bounds held updates early and one that never does publish the same trace on every run. |
| `EarlyBounding.FinishIsInvisible` | crates/mango-agent-acp/src/reducer.rs:543-569 | And the same trace when the turn is finished. |
| `EarlyBounding.HeldMergesStayBounded` | crates/mango-agent-acp/src/reducer.rs:743-766 | Whatever the agent sent, what a run holds for a call is within the published limits. |
| `RateBound.SpeaksOncePerInterval` | crates/mango-agent-acp/src/reducer.rs:738-766 | The updates one running call sends carry instants at least one interval apart, whatever the clock reads. |
| `RateBound.SentOrHeld` | crates/mango-agent-acp/src/reducer.rs:738-766 | A frame on a running call that carries a title or a content collection, and no ending status, is either sent or held, never dropped: it is sent exactly when the last update is an interval old, and exactly then nothing stays held. |
| `ReducerReading.RowsSayWhatWasLastSent` | crates/mango-agent-acp/src/reducer.rs:672-785 | From the frames alone, over every run, interval and clock: the row of a call, with what is held laid over it, has the title last sent while the call ran; the detail and the content of the last collection sent for it (the first text, else the first diff's path, else the first terminal; a row for each diff with its path and texts, else the first text), cleared by an explicit empty one and left alone by an absent one; and it has succeeded or failed exactly as its ending frame was completed or failed. A title sent with the end is not shown, a result having no place for it. |
| `ReducerReading.FinishedRowsSayWhatWasLastSent` | crates/mango-agent-acp/src/reducer.rs:543-569 | After a finished turn the row itself says that, and a call no frame ended has the turn's outcome. |
| `ReducerReading.DetailIsRead` | crates/mango-agent-acp/src/reducer.rs:1060-1105 | The detail of a collection is the text of its first text block, else the path of its first diff, else the id of its first terminal, told by where the blocks stand. |
| `ReducerReading.ContentIsRead` | crates/mango-agent-acp/src/reducer.rs:1122-1152 | The content of a collection is one row for each of its diffs, in order, if it has any, else its first text, else nothing. |
| `ReducerReading.ThePlanSaysTheLastPlan` | crates/mango-agent-acp/src/reducer.rs:830-852 | The plan has a row exactly when a plan was sent, and the row counts the entries done in the last one, names its first entry in progress (else the first), and lists every entry in order. |
| `ReducerReading.FinishedPlansSayTheLastPlan` | crates/mango-agent-acp/src/reducer.rs:543-569 | After a finished turn the plan has succeeded, and its row still says the last plan sent. |
| `ReducerReading.TurnsTellWhatWasSent` | crates/mango-agent-acp/src/reducer.rs:817-828 | Over every run and every finished turn the texts of the message deltas, joined, are those of the message frames, the texts of the reasoning deltas those of the thoughts, and the usage reports those sent, in order. |
| `ReducerReading.StartsSayTheirFrame` | crates/mango-agent-acp/src/reducer.rs:925-961 | Every start in a run is a plan's, or is on the call of a frame of the run and says that frame's title, the tool's own name when that leaves something to show, the bucket of its kind and how many locations it names. |
| `Reducers.Reducer.constructor` | crates/mango-agent-acp/src/reducer.rs:361-383 | A new reducer remembers nothing. |
| `Reducers.Reducer.UpdateAt` | crates/mango-agent-acp/src/reducer.rs:431-489 | Changes the fields to, and returns the events of, one reduction, which `ReducerReading` reads from the frames; the facts are those the fact-only reading of the frame gives. |
| `Reducers.Reducer.TakeReasoning` | crates/mango-agent-acp/src/reducer.rs:603-608 | Ends an open reasoning block once. |
| `Reducers.Reducer.UpdateBody` | crates/mango-agent-acp/src/reducer.rs:614-662 | One frame's reduction after reasoning was closed. |
| `Reducers.Reducer.UpdateCall` | crates/mango-agent-acp/src/reducer.rs:672-704 | A `tool_call` frame opens, revises or is dropped as late. |
| `Reducers.Reducer.UpdateFields` | crates/mango-agent-acp/src/reducer.rs:715-785 | A `tool_call_update` frame opens, revises or is dropped as late: the state and events are those of the specification, whose rows `ReducerReading.RowsSayWhatWasLastSent` reads from the frames. |
| `Reducers.Reducer.Coalesce` | crates/mango-agent-acp/src/reducer.rs:738-766 | An update is sent with what was held, or held. |
| `Reducers.Reducer.Complete` | crates/mango-agent-acp/src/reducer.rs:768-785 | A completion delivers what it does not supersede of the held merge, ends the call and remembers its digest. |
| `Reducers.Reducer.Remember` | crates/mango-agent-acp/src/reducer.rs:794-815 | Records a started call as running or over; one the core refuses is never running. |
| `Reducers.Reducer.Reason` | crates/mango-agent-acp/src/reducer.rs:817-828 | A thought opens reasoning if it is not open and adds to it. |
| `Reducers.Reducer.RevisePlan` | crates/mango-agent-acp/src/reducer.rs:830-852 | The plan opens once and is revised after. |
| `Reducers.Reducer.FinishWith` | crates/mango-agent-acp/src/reducer.rs:543-569 | The events and state of a finish in the one opening order. |
| `Reducers.Reducer.CloseCalls` | crates/mango-agent-acp/src/reducer.rs:543-569 | Drains the running calls in that order, each held update before its completion. |
| `Bracketing.LeftoversSayWhatWasHeldFirst` | crates/mango-agent-acp/src/reducer.rs:543-569 | Among the events that finish any run, the end of a call for which something is held stands right behind that update, and no other update is among them. |
| `Reducers.OpeningOrder` | crates/mango-agent-acp/src/reducer.rs:543-560 | Sorts the drained ids by when each was opened. |
| `Approvals.PushDelivers` | crates/mango-agent-acp/src/approval_events.rs:16-40 | Registering an event keeps: emitted then outstanding equals registered. |
| `Approvals.FlushDelivers` | crates/mango-agent-acp/src/approval_events.rs:42-68 | So does every step of a flush, including one refused by the sink or abandoned while it waits. |
| `ApprovalEvents.FlushedDeliversInOrder` | crates/mango-agent-acp/src/approval_events.rs:47-68 | A flush that nothing interleaves with emits the longest prefix the sink takes and keeps the rest in order. |
| `ApprovalEvents.ApprovalQueue.Register` | crates/mango-agent-acp/src/approval_events.rs:16-19 | Appends to the queue. |
| `ApprovalEvents.ApprovalQueue.RecordResponse` | crates/mango-agent-acp/src/approval_events.rs:24-38 | A resolution is queued if and only if the wire took its response. |
| `ApprovalEvents.ApprovalQueue.Deliver` | crates/mango-agent-acp/src/approval_events.rs:47-68 | The loop pops an event only once it was emitted, so emitted then queued is unchanged; it succeeds exactly when the queue is empty. |
| `ApprovalSafety.RunKeepsBooks` | crates/mango-agent-acp/src/client.rs:974-1135 | Every reachable state has a ledger: each request with the handler, parked, in one task's hands or answered; each key's notices exactly the story its question has come to; each queue delivering. |
| `ApprovalSafety.StepKeepsBooks` | crates/mango-agent-acp/src/client.rs:974-1135 | Each step of any task keeps such a ledger. |
| `ApprovalSafety.CardChanges` | crates/mango-agent-acp/src/client.rs:173-290 | A step that concerns one question keeps the books when that question's reply and notices move together. |
| `ApprovalPromises.RepliesAreConserved` | crates/mango-agent-acp/src/client.rs:1417-1570 | Under every interleaving each request received is in exactly one of four places, is answered at most once, and nothing else is answered. |
| `ApprovalPromises.MintedKeysOverwriteNothing` | crates/mango-agent-acp/src/client.rs:586-591 | A freshly minted key is that of no parked question, none in a task's hands, none the host may answer and none replied to; and the parked count stays within its limit. |
| `ApprovalPromises.ParkedStaysWithinLimit` | crates/mango-agent-acp/src/client.rs:998-1019 | Never more than the limit are parked. |
| `ApprovalPromises.HostHearsEachQuestionOnce` | crates/mango-agent-acp/src/client.rs:1022-1080 | For each turn emitted then outstanding equals registered; for each question there is at most one request, and at most one resolution, after it; and no question is told on two turns. |
| `ApprovalAnswers.RepliesSayWhatWasChosen` | crates/mango-agent-acp/src/client.rs:225-260 | Over every run: a reply selects an option exactly when it was decided, and every other reply is a cancellation. The option is the one asked for in time, or the question's own refusal once it was out of time; the question offered it; and the host is told, once, of that option and that source if the wire took the reply, and of nobody's withdrawal if not. |
| `ApprovalAnswers.WhatIsToldWasSent` | crates/mango-agent-acp/src/client.rs:225-260 | Whatever choice is told to the host was sent to the agent under the same question's key, and taken. |
| `ApprovalAnswers.OnlyTheEntitledChoose` | crates/mango-agent-acp/src/client.rs:1022-1096 | An answer in time was decided when its question was announced, or named by the host after the question was announced to it with nothing decided. |
| `OpenQuestions.LeftOpenIffLetGo` | crates/mango-agent-acp/src/client.rs:225-282 | Over every run: a question the host heard of is answered for the agent and never closed for the host if and only if some step met the guard in the state it found: an announced parked question answered, with a reply the wire took, during a cancellation or as cancelled in time; or an announced question its own task took back, with a reply the wire took. |
| `OpenQuestions.StepLeavesOpenIff` | crates/mango-agent-acp/src/client.rs:1040-1160 | In any state that keeps the books, one step leaves a question open exactly when it was open already or the step meets the guard; no other step of any task does. |
| `OpenQuestions.AnsweringLeavesOpenIff` | crates/mango-agent-acp/src/client.rs:1040-1096 | In every reachable state, answering an announced parked question leaves it open if and only if the wire takes the reply and either a cancel reason is recorded, or it is in time and the answer is to cancel. |
| `OpenQuestions.TakingBackLeavesOpenIff` | crates/mango-agent-acp/src/client.rs:1122-1136 | Taking an announced parked question back, because its announcement could not be delivered, leaves it open if and only if the wire takes the reply. |
| `OpenQuestions.AnsweredQuestionsAreClosedUnlessLetGo` | crates/mango-agent-acp/src/client.rs:225-282 | For every reply of every run: if the host heard of the question it heard of its end too, unless some step met the guard; and one answered with an option was heard of. |
| `ApprovalPromises.AnAnnouncedQuestionCanBeLetGo` | crates/mango-agent-acp/src/client.rs:266-282 | A run in which an announced question is replied to and never resolved for the host. |
| `ApprovalPromises.CancellationHolds` | crates/mango-agent-acp/src/client.rs:715-786 | From any state with a reason recorded, until it is taken or a new turn clears it: every reply is a cancellation, nothing is parked or announced, only withdrawals are told, and the reason taken is the one that was first recorded. |
| `ApprovalPromises.WhatRecordsAReason` | crates/mango-agent-acp/src/client.rs:715-729 | Only a cancellation, which leaves nothing parked, or a question that ran out of time with no refusing option records a reason. |
| `SessionQuestions.SessionQuestions.Register` | crates/mango-agent-acp/src/client.rs:173-195 | Registers a notice on the queue of the question's own turn. |
| `SessionQuestions.SessionQuestions.ParkPending` | crates/mango-agent-acp/src/client.rs:998-1019 | Parks if and only if nothing is being cancelled and there is room; otherwise replies to the request as cancelled and parks nothing. |
| `SessionQuestions.SessionQuestions.AnnouncePending` | crates/mango-agent-acp/src/client.rs:1022-1038 | Announces a parked question once, unless the turn is being cancelled. |
| `SessionQuestions.SessionQuestions.TakePending` | crates/mango-agent-acp/src/client.rs:974-990 | Moves every parked question into the caller's hands. |
| `SessionQuestions.SessionQuestions.TakeReason` | crates/mango-agent-acp/src/client.rs:764-786 | Hands over the recorded reason and clears it. |
| `SessionQuestions.SessionQuestions.ResetReason` | crates/mango-agent-acp/src/client.rs:600-639 | Clears the reason when a turn begins. |
| `SessionQuestions.SessionQuestions.BeginCancellation` | crates/mango-agent-acp/src/client.rs:715-729 | Records the reason only if none was recorded and empties the parked map. |
| `SessionQuestions.SessionQuestions.RespondWithResolution` | crates/mango-agent-acp/src/client.rs:225-260 | Sends exactly the option, as a decided reply; registers its choice by that source if the wire took it, a withdrawal if it did not and the host had heard of the question, and nothing otherwise. |
| `SessionQuestions.SessionQuestions.RespondUnresolved` | crates/mango-agent-acp/src/client.rs:266-282 | Sends exactly a cancellation, and registers a withdrawal only when the wire refused it and the host had heard of the question. |
| `SessionQuestions.SessionQuestions.Expire` | crates/mango-agent-acp/src/client.rs:1098-1120 | A question out of time is announced if it was not and answered with its own refusing option, chosen by expiry; without one it cancels the turn for a timeout, sends nothing and is left to be withdrawn. |
| `SessionQuestions.SessionQuestions.RespondPending` | crates/mango-agent-acp/src/client.rs:1040-1096 | Takes one question. In time and with no reason recorded it sends exactly the answer asked for, and registers exactly that option from that source when the wire takes it; out of time it sends the question's own refusal from expiry, or cancels the turn; with a reason recorded it sends a cancellation. It reports sent exactly when the question was parked, nothing was being cancelled, it was in time and the wire took it. |
| `SessionQuestions.SessionQuestions.Withdraw` | crates/mango-agent-acp/src/client.rs:197-223 | Registers the withdrawal and then cancels, once. |
| `SessionQuestions.SessionQuestions.WithdrawAll` | crates/mango-agent-acp/src/client.rs:974-982 | Every question one task took is cancelled exactly once, in whatever order the map yields them, and each reply is taken or refused by the wire on its own; questions in other hands stay. |
| `TurnSafety.RunIsSafe` | crates/mango-agent-acp/src/session.rs:1225-1326 | Every run keeps the invariant: each task's stage fits its turn's flags; a turn not in the slot is finished and, if its stream was handed out, has its terminal; `Closed` was published only over an empty slot with admission closed; every frame was reduced for the turn it was read for. |
| `TurnSafety.StepIsSafe` | crates/mango-agent-acp/src/client.rs:600-870 | Each step of any task keeps it. |
| `TurnPromises.OwnStepsTouchOnlyTheirTurn` | crates/mango-agent-acp/src/client.rs:764-856 | A starter, prompt or cleanup task of one generation never changes another's turn, and empties the slot only if it holds its own generation. |
| `TurnClaims.TheTerminalIsClaimedOnce` | crates/mango-agent-acp/src/client.rs:293-301 | Over every run, of the prompt task, a cleanup and the close task at most one ever comes to own the terminal of a turn, and it does so once. |
| `TurnClaims.OnlyTheClaimantCommits` | crates/mango-agent-acp/src/session.rs:1225-1326 | Whichever task committed a turn's terminal had claimed it, the handler with a refused event apart. |
| `TurnPromises.HandedOutTurnsLeaveWithTheirTerminal` | crates/mango-agent-acp/src/session.rs:1225-1326 | In every reachable state a turn whose stream was handed out and which is not in the slot has its terminal committed. |
| `TurnPromises.ClosedIsPublishedOverAnEmptySlot` | crates/mango-agent-acp/src/harness.rs:665-726 | `Closed` is only ever published over an empty slot with admission closed. |
| `TurnPromises.ClosedIsForever` | crates/mango-agent-acp/src/session.rs:1680-1752 | And from there, whatever runs, the slot stays empty and no turn is begun. |
| `TurnPromises.FramesReachTheirOwnTurn` | crates/mango-agent-acp/src/client.rs:920-932 | No frame is ever reduced into a turn other than the one its handler read it for. |
| `TurnPromises.AFinishedTurnIsLeftAlone` | crates/mango-agent-acp/src/client.rs:920-932 | In the protocol, a frame for a turn whose terminal was claimed changes neither the reducer nor any turn and has nothing to emit. |
| `SessionFrames.ReduceFor` | crates/mango-agent-acp/src/client.rs:920-932 | On the reducer itself: for a turn whose terminal was claimed it is unchanged and emits nothing, and the frame still yields its facts; otherwise it performs one reduction. |
| `SessionFrames.HandleUpdate` | crates/mango-agent-acp/src/client.rs:1279-1323 | Without a turn, for one whose terminal was claimed, or as the tail of the turn before, a frame leaves the reducer unchanged and emits nothing; in every case all its facts are published; and a `tool_call` for a turn makes the session forget its id as one of the turn before. |
| `TurnPromises.TakingReplacesWhatIsRemembered` | crates/mango-agent-acp/src/client.rs:764-806 | Taking a turn's reducer replaces the remembered ids by those it leaves open, up to the cap. |
| `TurnPromises.LateUpdatesNeverReachALaterTurn` | crates/mango-agent-acp/src/client.rs:793-843 | Once a turn's terminal is prepared with at most 256 calls open, no update of one of them is reduced into a later turn until another preparation or a `tool_call` that reuses its id. |
| `TurnPromises.LateUpdateReachesTheTurnIffForgotten` | crates/mango-agent-acp/src/client.rs:808-843 | In any reachable state, an update reaches the running turn if and only if its id is not remembered. |
| `TurnPromises.ARefusedTurnLeaksItsLateUpdates` | crates/mango-agent-acp/src/client.rs:1380-1403 | A run in which a second preparation forgets the ids and a late update reaches the next turn. |
| `TurnPromises.AClosedTurnCanLeaveACallOpen` | crates/mango-agent-acp/src/session.rs:1680-1752 | A run in which close takes the reducer after the prompt task claimed the terminal, the prompt task commits, and a call stays open on the host's stream. |
| `TurnEndings.LeftoversAreClosedIff` | crates/mango-agent-acp/src/session.rs:1278-1326 | At the step of any run that first takes the reducer of a handed-out turn with calls open: in every continuation those calls are closed ahead of the terminal, if and only if the taker is the prompt task and no event of this turn is past its check on the way out or was refused, or the taker is the close task, the terminal is not claimed, the prompt task is neither past its check nor replaced by a cleanup, and the handler is stopped. Otherwise some continuation reaches a terminal with one of them never closed. |
| `TurnEndings.LaterTakersFindNoLeftover` | crates/mango-agent-acp/src/client.rs:764-786 | Whoever takes the reducer again finds none of the calls the first taker took. |
| `TurnLeftovers.TheFirstTakerClosesWhatItEnds` | crates/mango-agent-acp/src/session.rs:1286-1326 | In every run, when the first task to take the reducer also commits the terminal, all the leftovers were closed ahead of it. |
| `TurnPromises.AnotherTaskCanCommitWhatTheHandlerClosed` | crates/mango-agent-acp/src/client.rs:1380-1403 | A run in which the handler closes the calls of a refused turn and the prompt task commits the terminal before it can. |
| `SessionTurns.SessionTurns.BeginTurn` | crates/mango-agent-acp/src/client.rs:600-639 | Admits exactly when the slot is empty and neither admission nor lifecycle is closed; then the reducer is fresh, every question left of the turn before is taken to be withdrawn and no cancel reason is left, all in one step of the protocol. |
| `SessionTurns.SessionTurns.RememberClosedCalls` | crates/mango-agent-acp/src/client.rs:793-806 | Keeps ids of open calls: all of them up to 256, and 256 of them beyond. |
| `SessionTurns.SessionTurns.PrepareTerminalMatching` | crates/mango-agent-acp/src/client.rs:764-786 | Takes what the turn owes if and only if it is in the slot: its open calls, the reason it was cancelled for and its questions; and is exactly the step its task is at in the protocol. |
| `SessionTurns.SessionTurns.Finish` | crates/mango-agent-acp/src/client.rs:293-302 | Claims the terminal once, as the step its task is at. |
| `SessionTurns.SessionTurns.ReleaseTurnMatching` | crates/mango-agent-acp/src/client.rs:846-856 | Empties the slot only if it holds this turn, as the step its task is at. |
| `SessionTurns.SessionTurns.CloseTurnAdmission` | crates/mango-agent-acp/src/client.rs:866-870 | Closes admission, as the step of a prompt task on a dead connection or of the watcher. |
| `SessionTurns.SessionTurns.IsLateForAClosedCall` | crates/mango-agent-acp/src/client.rs:808-843 | Late if and only if an update of a remembered id; a `tool_call` forgets its id. |
| `Configuration.RejectResets` | crates/mango-agent-acp/src/session.rs:988-1017 | Every reset is refused before anything is sent, once each. |
| `Configuration.RejectSemanticTargets` | crates/mango-agent-acp/src/session.rs:947-985 | Every native write to an option of a semantic category is refused before anything is sent. |
| `Configuration.SettlePatch` | crates/mango-agent-acp/src/session.rs:199-430 | Every patch against every agent, with catalogs announced in between at will, ends accounted for: each setting applied or rejected in its order, under its id, by the catalog held then; applied only if this side can establish it and, when the agent is asked for it, by a confirmed write of its own; each write allowed by that catalog; a report cut short by the one write that was refused or failed. |
| `Configuration.WriteOne` | crates/mango-agent-acp/src/session.rs:432-590 | One write: confirmed and applied, or the end of the patch as refused or failed. |
| `Configuration.SettleAxis` | crates/mango-agent-acp/src/session.rs:199-430 | An axis is settled once: sent only to the one option of its category that takes the value and that no native change also names, and otherwise refused for the reason that holds. |
| `Configuration.SettleNative` | crates/mango-agent-acp/src/session.rs:199-430 | A native change is settled once against the catalog held by then, never sent to an option that is semantic in it. |
| `Configuration.SettleLevel` | crates/mango-agent-acp/src/session.rs:199-430 | The level is refused when the profile does not support it with its routing or its mode is not advertised, applied at once when it has no mode, and otherwise applied only by the write of that mode. |
| `Configuration.SettleRouting` | crates/mango-agent-acp/src/session.rs:199-430 | The routing is applied, with no write, exactly when no level in force is unsupported with it. |
| `ConfigurationReports.EverySettingIsSettledOnce` | crates/mango-agent-acp/src/session.rs:199-430 | Every setting the patch mentions is applied or rejected exactly once when it runs to its end and never twice otherwise; the accepted settings are the ones before changed at exactly those applied. |
| `ConfigurationReports.RejectionsAreDeserved` | crates/mango-agent-acp/src/session.rs:893-1017 | Whatever this side rejects is rejected for a reason that holds of the patch and of the catalog held when the setting was come to. |
| `ConfigurationReports.AppliedLevelsAreEstablished` | crates/mango-agent-acp/src/session.rs:336-387 | However a patch ends: a level reported as applied is one the profile supports with the routing it comes with, and, when it has a mode, a write of exactly that mode was sent and confirmed. |
| `ConfigurationReports.AppliedRoutingsAreEstablished` | crates/mango-agent-acp/src/session.rs:388-411 | A routing reported as applied is supported with the level in force, if there is one. |
| `ConfigurationReports.PermissionsAreAppliedIff` | crates/mango-agent-acp/src/session.rs:336-411 | A patch that runs to its end applies the level if and only if the profile supports it with its routing and its mode, if any, is advertised; and the routing if and only if no level in force is unsupported with it. |
| `ConfigurationReports.ValuesAreListedIff` | crates/mango-agent-acp/src/session.rs:905-939 | Every value sent was listed by the option it went to, or is a setting of a switch; every value turned down as unsupported was not. |
| `ConfigurationReports.IdsAreReportedOnceIff` | crates/mango-agent-acp/src/session.rs:199-430 | A patch that runs to its end reports each option id at most once, as applied or rejected, if and only if no two settings it mentions share an id: the model has the id of the option it reaches in the catalog the call read, the effort that of the option it reaches in the catalog the answer to the model's write leaves (or in the one the call read, when nothing can be written for the model), the rest their own names. |
| `ConfigurationReports.ResettingTheModelsOwnOptionIsReportedTwice` | crates/mango-agent-acp/src/session.rs:199-260 | A patch that sets the model and natively resets the very option the model reaches reports that id twice. |
| `ConfigurationReports.WritesKeepToTheirReachIff` | crates/mango-agent-acp/src/session.rs:432-482 | For every write submitted, one refused or failed included, and any steps other tasks take between its check and its submission: a native write reaches neither the model, the effort nor the mode, whatever catalogs the agent announces in those steps, if and only if the last catalog they install is not an announced one (none, or the empty one of an abandoned session); a write stays allowed whatever is announced if and only if they install none, which is when the revision is still the carried one; and it is allowed under the catalog in force if and only if they install none or the last one installed allows it. |
| `ConfigurationReports.ANotificationCanOutrunAWrite` | crates/mango-agent-acp/src/session.rs:432-460 | A call in which a notification makes an option the model between the check and the submission, and the native write goes to it. |
| `ConfigurationReports.ConfiguredSession.ConfigureSession` | crates/mango-agent-acp/src/session.rs:541-590 | When it publishes, the session's settings and those shown are the ones before changed at exactly the confirmed settings, whichever way the patch ended, another level only with the profile's support and its mode, if any, confirmed by the agent; and the catalog is installed under the carried revision. When it may not publish, they stay as they were. |
| `CatalogOrder.ResponsesNeverOverwriteWhatCameSince` | crates/mango-agent-acp/src/client.rs:1227-1241 | In every run, a response's catalog is installed only if nothing was installed between its submission and it. |
| `CatalogOrder.ResponsesAreInstalledOnce` | crates/mango-agent-acp/src/client.rs:658-701 | No request's response is installed twice, across patches of several options too. |
| `CatalogOrder.SnapshotsChangeNothing` | crates/mango-agent-acp/src/session.rs:541-561 | A patch that publishes without a response of its own leaves the catalog in force as it is. |
| `CatalogOrder.LifecycleAnswersAreInstalledIff` | crates/mango-agent-acp/src/client.rs:1227-1241 | Over every run: a lifecycle answer's catalog is in force afterwards, under the next revision, if and only if nothing was installed since its request was submitted; otherwise the answer changes nothing. |
| `CatalogOrder.PatchAnswersArePublishedIff` | crates/mango-agent-acp/src/client.rs:658-701 | A patch publishes the answer to its last request if and only if nothing was installed since that request was submitted, before the answer or after it; otherwise it leaves the catalog in force. |
| `CatalogOptions.TheOnlyOneOfItsCategory` | crates/mango-agent-acp/src/session.rs:893-903 | An option stands for its category if and only if no other option of the catalog is in it. |
| `CatalogOrder.Catalogs.CatalogSnapshot` | crates/mango-agent-acp/src/client.rs:652-656 | The catalog with the revision it is under. |
| `CatalogOrder.Catalogs.ApplyNotification` | crates/mango-agent-acp/src/client.rs:947-963 | A notification is always installed. |
| `CatalogOrder.Catalogs.AbandonSession` | crates/mango-agent-acp/src/client.rs:497-509 | Abandoning a session installs the empty catalog. |
| `CatalogOrder.Catalogs.WithResponseCatalog` | crates/mango-agent-acp/src/client.rs:1227-1241 | A response is installed if and only if nothing was since its baseline, and what is published is what is then in force. |
| `Deadlines.CloseDeadlineIsTight` | crates/mango-agent-acp/src/deadlines.rs:159-165 | Some schedule takes one tick less than the bound, and none takes all of it. |
| `Deadlines.StopProcess` | crates/mango-external-agents/src/process.rs:363-389 | Whatever the child's control does, a stop takes at most its bound, which is twice the grace and twice the shutdown timeout; one that did not fail killed and reaped the child and took less than the bound; it reports an interrupt exactly when the delivered interrupt made the child exit within the grace; and one that answers every stage in time takes just what the stages take. |
| `Deadlines.CloseKeepsItsDeadline` | crates/mango-agent-acp/src/deadlines.rs:133-165 | Every schedule of a close, whoever owns the terminal and whoever began the teardown, takes at most `close`. |
| `Deadlines.JoinedCloseKeepsItsDeadline` | crates/mango-agent-acp/src/session.rs:1375-1410 | So does one that joins a close already running, timed from its own call. |
| `Deadlines.WatchedPathsKeepTheirDeadlines` | crates/mango-agent-acp/src/deadlines.rs:212-275 | The paths from an exit, an unanswered request and a cancellation keep theirs. |
| `Deadlines.ExitIsAllowedMoreThanClose` | crates/mango-agent-acp/src/deadlines.rs:234-275 | Timing from the agent's exit always allows at least what timing from a call to close does, and saturates whenever that does. |
| `PromptSize.FrameIsTheCountPlusTheId` | crates/mango-agent-acp/src/prompt_size.rs:71-90 | For every session, block list and id the frame as the connection writes it has the counted bytes plus the id's bytes less one. |
| `PromptSize.RefusedOnlyWhenNoFrameFits` | crates/mango-agent-acp/src/prompt_size.rs:45-69 | The count is over the budget if and only if the frame is under every non-empty id. |
| `JsonReading.FrameReadsBack` | crates/mango-agent-acp/src/prompt_size.rs:71-90 | The text whose length is the frame's is read, by a reader made from RFC 8259 alone, as the request it stands for: four members in key order, with the version, the id, the method and two parameters, the session and the blocks in order; nothing is left over. |
| `JsonReading.ValueReadsBack` | crates/mango-agent-acp/src/prompt_size.rs:71-90 | Reading what is written for any value gives that value back and leaves what stands behind it. |
| `JsonReading.TextReadsBack` | crates/mango-agent-acp/src/prompt_size.rs:71-90 | Reading what is written for a string (section 7 of RFC 8259) gives it back, character by character. |
| `JsonReading.EscapedIsClean` | crates/mango-agent-acp/src/prompt_size.rs:71-90 | Between the quotes stand only unescaped characters and complete escapes: no control character, no bare quote, no bare reversed solidus. |
| `JsonReading.EscapedTextSpends` | crates/mango-agent-acp/src/prompt_size.rs:105-114 | A text is counted as two bytes for each character with a short escape, six for any other control character, and its UTF-8 width for the rest. |
| `JsonReading.ValueIsInOrder` | crates/mango-agent-acp/src/prompt_size.rs:71-90 | Every object written from a value has its members in strict key order, at any depth. |
| `JsonReading.FieldsStay` | crates/mango-agent-acp/src/prompt_size.rs:71-90 | Putting members in order keeps what stands under each key. |
| `PromptSize.WrittenBytes` | crates/mango-agent-acp/src/prompt_size.rs:105-114 | The parts counted for a value add up to the UTF-8 length of what is written for it, which `JsonReading.ValueReadsBack` reads back. |
| `PromptSize.ValueBytes` | crates/mango-agent-acp/src/prompt_size.rs:71-90 | Putting an object's members in key order changes no length. |
| `PromptSize.ByteCounter.Write` | crates/mango-agent-acp/src/prompt_size.rs:105-114 | Adds a buffer's length, saturating. |
| `PromptSize.ByteCounter.Serialise` | crates/mango-agent-acp/src/prompt_size.rs:71-90 | Writing a value piece by piece counts its bytes. |
| `PromptSize.PromptFrameBytes` | crates/mango-agent-acp/src/prompt_size.rs:71-90 | The count is the length of the frame under the shortest id, the text that `JsonReading.FrameReadsBack` reads as the request. |
| `PromptSize.RefuseOversizedPrompt` | crates/mango-agent-acp/src/prompt_size.rs:45-69 | Refuses if and only if the frame under every non-empty id is over the budget, each character counted as `JsonReading.EscapedTextSpends` tells. |
| `HelpRoundTrip.HelpReadsBack` | crates/mango-agent-claude/src/help.rs:28-53 | For any options rendered commander-style, wrapped anywhere between words, between plain text: exactly the declared long flags, in order, and none a description mentions; the declared choices are read back if and only if each is clean (non-empty, no quote, no closing parenthesis) and what follows them in their group quotes nothing, and otherwise, when they are clean, they are read followed by whatever the group quotes after them. |
| `HelpRoundTrip.TermFlags` | crates/mango-agent-claude/src/help.rs:152-176 | The long flags of a rendered term are the long names declared. |
| `HelpRoundTrip.BlockRead` | crates/mango-agent-claude/src/help.rs:139-150 | The block of an option is its own lines, however many, and no others. |
| `HelpRoundTrip.BlockChoices` | crates/mango-agent-claude/src/help.rs:63-77 | From one option's block: the choices are read back if and only if they can be told from the rest of their group; clean ones are always read, followed by what else the group quotes; none when it states none. |
| `HelpRoundTrip.GroupReadsBack` | crates/mango-agent-claude/src/help.rs:63-67 | The same for a group by itself: reading it gives its choices exactly when each is clean and nothing else in it is quoted. |
| `HelpRoundTrip.ADefaultIsReadAsAChoice` | fixtures/claude/contract/help.txt:153-162 | An option whose group reads `(choices: "host", "none", default: "host")`, under any prose, is read as offering "host", "none" and "host". |
| `HelpRoundTrip.OnlyDeclaringLinesDeclare` | crates/mango-agent-claude/src/help.rs:122-133 | A line declares an option if and only if it is indented by two blanks and goes on with a dash that no blank follows. |
| `HelpRoundTrip.TheGroupsAreThese` | crates/mango-agent-claude/src/help.rs:179-192 | The groups read from a text are the given ones if and only if the text is prose without an opening parenthesis, with those groups, each without a closing one, between, and behind them nothing that is both opened and closed. |
| `HelpScans.ReadOptions` | crates/mango-agent-claude/src/help.rs:28-53 | The scan over all lines computes the declared options. |
| `HelpScans.ScanBeforeDescription` | crates/mango-agent-claude/src/help.rs:106-118 | The run counter finds the first two blanks in a row. |
| `HelpScans.ScanLongFlags` | crates/mango-agent-claude/src/help.rs:152-176 | The index scan finds the long flags. |
| `HelpScans.ScanBlockAt` | crates/mango-agent-claude/src/help.rs:139-150 | The scan stops at a blank line or the next option. |
| `HelpScans.ScanQuoted` | crates/mango-agent-claude/src/help.rs:194-208 | The moving cursor finds the whitespace-free quoted values. |
| `HelpScans.ScanParenGroups` | crates/mango-agent-claude/src/help.rs:179-192 | The moving cursor finds the groups, and ends at an unclosed one. |
| `Versions.CompareComponents` | crates/mango-agent-acp/src/version.rs:40-62 | The loop decides zero-padded lexicographic order. |
| `Versions.Compare` | crates/mango-agent-acp/src/version.rs:40-62 | Unknown if and only if either side is unreadable; otherwise that order on the components, which `VersionReading.VersionsReadBack` reads from the text. |
| `Versions.OrderIsTotal` | crates/mango-agent-acp/src/version.rs:40-62 | Of two versions one is not below the other, and both hold exactly when they are equal padded with zeros. |
| `Versions.OrderIsTransitive` | crates/mango-agent-acp/src/version.rs:40-62 | The order is transitive. |
| `Versions.TrailingZerosAreIgnored` | crates/mango-agent-acp/src/version.rs:40-62 | Trailing zero components change no comparison. |
| `Versions.FoundIsReadable` | crates/mango-agent-acp/src/version.rs:100-110 | Whatever is found in an output can be read as a version. |
| `Versions.Gate` | crates/mango-agent-acp/src/harness.rs:1258-1275 | The exact condition of each verdict, on the components that `VersionReading.VersionsAreReadByParts` reads from the two texts. |
| `Versions.GateOutput` | crates/mango-agent-acp/src/harness.rs:1258-1275 | With a version found in an output, as `VersionReading.TheFirstVersionIsFound` finds it, the verdict is unknown only if none was found or the floor is unreadable. |
| `VersionReading.VersionsReadBack` | crates/mango-agent-acp/src/version.rs:64-81 | Every non-empty list of 64-bit numbers is read back, in order, from its decimal digits joined by dots, under any leading `v`s, blanks and suffix from the first `-` or `+`. |
| `VersionReading.VersionsAreReadByParts` | crates/mango-agent-acp/src/version.rs:64-81 | Dotted parts in any such dress are read as the numbers they are, in order, if each is digits of a 64-bit number; an empty part, one with anything but digits, or one too large makes the whole unreadable. |
| `VersionReading.ReadableIff` | crates/mango-agent-acp/src/version.rs:64-81 | A word with no `v` ahead can be read if and only if it is such parts joined by dots, and a suffix. |
| `VersionReading.WordReadsIff` | crates/mango-agent-acp/src/version.rs:100-110 | A word is taken for a version if and only if it is one with a dot between marks, and as exactly that one. |
| `VersionReading.TheFirstVersionIsFound` | crates/mango-agent-acp/src/version.rs:100-110 | Of words spread between blanks, the version found is that of the first word that is one, with whatever marks around it; none is found if no word is one. |
| `Versions.FirstVersion` | crates/mango-agent-acp/src/harness.rs:1234-1255 | The streaming probe returns what parsing everything read at once gives, up to and including the first line at which the count passes the cap, or the read error that came first. |
| `Versions.ParseFirstLine` | crates/mango-agent-acp/src/version.rs:100-110 | Parsing newline-joined lines gives the version of the first line that has one. |

## Left out

- The reducer's compaction and notice frames and their submodules, which are not part of this model.
- Replies on the wire and request bodies (`client/reply.rs`, `client/requests.rs`): a reply is an outcome and whether the wire took it.
- Process launch, pipes, line framing and the JSON-RPC peer: their effects are steps of the environment, or arguments of steps.
- `StopProcess`: what the child's control does in a stage, beyond how long it takes and how it answers.
- `hold_terminal_commit`, but for what it does: the handler is not stopped in the stretch it holds.
- A full transcript: the stream takes every event until it has a terminal, so no overflow commits one.
- Liveness: nothing says that a task is ever scheduled, only what holds whenever it is.
- The reason of a cancellation in the turn-slot machine; it is in the approvals machine.
- How an ending is chosen (`turn_ending`, `prompt_ending`) and worded: tables.
- Profiles, the mapping of permission kinds, attachments, authentication, session listing, slash commands, redaction: tables or single branches.
- Dropping a session or a start future half way, and the idle deadline.
- The `bare_choice_list` and `quoted_examples` readings of a help block.
- `Versions.Parse` and the help scans: lines are given as sequences; how bytes become lines is the core's.
- `SettlePatch`: the settings requested, which are published beside the accepted ones, are the patch laid over the ones requested before, and not modelled.
- `HelpReadsBack`: asks that no word ahead of the group is itself the marker `(choices:`, since the first marker is the one read, and that choices hold no blank.
- `PromptFrameBytes`: asks that the blocks' bytes can be counted in a machine word, which addressable memory ensures; `ByteCounter` itself saturates.
- `RefuseOversizedPrompt`: asks the same of the blocks' bytes; the wording of the refusal is not modelled.
- `BlockRead`: a continuation line is indented by three or more, as commander indents it; one indented by exactly two that begins with a dash is another option's line to the scan.
