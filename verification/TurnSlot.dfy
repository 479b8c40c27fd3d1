/**
  The one prompt slot of a session, and everything that takes, ends and gives back a turn: starters,
  prompt tasks, detached cleanups, the close task, the connection watcher and the notification handler.

  One step is what a task does under one acquisition of a lock, or between two awaits; any other task may
  run in between. Each closing event is emitted on its own, and the terminal is committed after them; the
  stream refuses both once it has a terminal. A turn is named by its generation, its index in `turns`.
*/
module TurnSlot {
  import opened Prelude

  /** Who does something to a turn. */
  datatype Task = Starter | Prompt | Cleanup | Closer | Handler

  /** The two frames that bear on which calls are open. */
  datatype Frame = Opens(id: string) | Updates(id: string)

  /** How far the task that owns a turn is with it. `closing` is what it took out of the reducer. */
  datatype Stage =
    | Reserved
    | FailPrepared
    | FailClaimed
    | Prompting
    | Checked
    | Claimed
    | Prepared(closing: set<nat>)
    | Written
    | Releasing
    | Cleaning
    | CleanPrepared(closing: set<nat>)
    | CleanClaimed(closing: set<nat>)
    | CleanWritten
    | Gone

  /**
    One turn. `finished` and `terminal` are the flags of its handle and its sink; the rest is history:
    whether a host was given its stream, who first took its reducer with which calls still open, and which
    calls were closed on its stream ahead of its terminal.
  */
  datatype Turn = Turn(
    stage: Stage,
    finished: bool,
    terminal: Option<Task>,
    handedOut: bool,
    firstBy: Option<Task>,
    leftovers: set<nat>,
    closed: set<nat>)

  const NEW_TURN := Turn(Reserved, false, None, false, None, {}, {})

  datatype CloseTask =
    | NotClosing
    | CloseClaimed
    | CloseRead(ending: Option<nat>)
    | CloseStopped(ending: Option<nat>, ok: bool)
    | ClosePrepared(turn: nat, closing: set<nat>, ok: bool)
    | CloseOwned(turn: nat, closing: set<nat>, ok: bool)
    | CloseWritten(turn: nat, ok: bool)
    | CloseWaiting
    | CloseFinished(ok: bool)

  datatype Watcher = Watching | AdmissionShut | Cleaned | Settled | Publishing | Retired

  datatype HandlerTask =
    | Idle
    | Captured(current: Option<nat>, frame: Frame)
    | Passed(turn: nat, frame: Frame)
    | Emitting(turn: nat)
    | Sending(turn: nat)
    | Refusing(turn: nat)
    | RefusePrepared(turn: nat, closing: set<nat>)
    | Stopped

  /** A frame that changed the reducer: the turn the handler read it for, and the turn it changed. */
  datatype Reduced = Reduced(captured: nat, owner: nat, frame: Frame)

  /** The session's shared state, and where each task is. `open` is the reducer: each open call, numbered. */
  datatype Session = Session(
    slot: Option<nat>,
    turns: seq<Turn>,
    admissionClosed: bool,
    lifecycleClosed: bool,
    published: bool,
    open: map<string, nat>,
    nextCall: nat,
    closedCalls: set<string>,
    closer: CloseTask,
    watcher: Watcher,
    handler: HandlerTask,
    reduced: seq<Reduced>)

  const NEW_SESSION := Session(None, [], false, false, false, map[], 0, {}, NotClosing, Watching, Idle, [])

  /** How many tool-call ids are kept from one terminal. */
  const CLOSED_CALLS_KEPT := 256

  datatype Step =
    | Begin
    | FailPrepare(turn: nat, kept: set<string>)
    | FailClaim(turn: nat)
    | FailRelease(turn: nat)
    | Submit(turn: nat, cancelFailed: bool)
    | Abandon(turn: nat)
    | PromptCheck(turn: nat)
    | PromptClaim(turn: nat)
    | PromptPrepare(turn: nat, kept: set<string>)
    | PromptEmit(turn: nat, call: nat)
    | PromptCommit(turn: nat, keep: bool)
    | PromptShut(turn: nat, connectionEnded: bool)
    | PromptRelease(turn: nat)
    | CleanupPrepare(turn: nat, kept: set<string>)
    | CleanupClaim(turn: nat)
    | CleanupEmit(turn: nat, call: nat)
    | CleanupCommit(turn: nat)
    | CleanupRelease(turn: nat)
    | CloseClaim
    | CloseReadTurn
    | CloseStop(ok: bool)
    | ClosePrepare(kept: set<string>)
    | CloseClaimTurn
    | CloseEmit(call: nat)
    | CloseCommit
    | CloseRelease
    | CloseWait(settled: bool)
    | ClosePublish
    | WatchWake
    | WatchClean(ok: bool)
    | WatchSettle(settled: bool)
    | WatchDecide
    | WatchPublish
    | Capture(frame: Frame)
    | LateCheck
    | Reduce(staysOpen: bool)
    | EmitCheck(more: bool)
    | EmitEvent(refused: bool)
    | RefusePrepare(kept: set<string>)
    | RefuseEmit(call: nat)
    | RefuseCommit
    | PeerStops

  // What the shared operations do.

  /** Opens a turn, refusing a second one and any on a session that no longer admits them. */
  function BeginTurn(s: Session): Session {
    if s.lifecycleClosed || s.admissionClosed || s.slot.Some? then s
    else s.(slot := Some(|s.turns|), turns := s.turns + [NEW_TURN], open := map[])
  }

  function WithTurn(s: Session, turn: nat, t: Turn): Session
    requires turn < |s.turns|
  {
    s.(turns := s.turns[turn := t])
  }

  /** Which ids may be remembered of a reducer: all of its open calls, or as many as are kept. */
  predicate MayKeep(s: Session, kept: set<string>) {
    && kept <= s.open.Keys
    && |kept| == if |s.open| <= CLOSED_CALLS_KEPT then |s.open| else CLOSED_CALLS_KEPT
  }

  /** Whether a task that owns `turn` would find it in the slot. */
  predicate Holds(s: Session, turn: nat) {
    s.slot == Some(turn) && turn < |s.turns|
  }

  /** A turn whose reducer a task has taken, as the first to take it or not. */
  function Taken(s: Session, t: Turn, task: Task): Turn {
    if t.firstBy.Some? then t else t.(firstBy := Some(task), leftovers := s.open.Values)
  }

  /** Takes the reducer of the turn in the slot, and remembers the calls it leaves. */
  function PrepareTerminal(s: Session, turn: nat, task: Task, kept: set<string>, stage: Stage): Session
    requires Holds(s, turn)
  {
    WithTurn(s, turn, Taken(s, s.turns[turn], task).(stage := stage)).(open := map[], closedCalls := kept)
  }

  /** One closing event, and the terminal: a stream that already has a terminal refuses both. */
  function Close(t: Turn, call: nat): Turn {
    if t.terminal.Some? then t else t.(closed := t.closed + {call})
  }

  function Commit(t: Turn, task: Task): Turn {
    if t.terminal.Some? then t else t.(terminal := Some(task))
  }

  /** Whether nothing is left to emit, or nothing can be: a task with nothing to say says no more. */
  predicate SaidAll(t: Turn, closing: set<nat>) {
    closing == {} || t.terminal.Some?
  }

  function Release(s: Session, turn: nat): Session {
    if s.slot == Some(turn) then s.(slot := None) else s
  }

  function StageOf(s: Session, turn: nat): Stage {
    if turn < |s.turns| then s.turns[turn].stage else Gone
  }

  function WithStage(s: Session, turn: nat, stage: Stage): Session
    requires turn < |s.turns|
  {
    WithTurn(s, turn, s.turns[turn].(stage := stage))
  }

  // What each task does.

  /** Taking the reducer, when the turn is still in the slot; otherwise the task is done with it. */
  function PrepareOwn(s: Session, turn: nat, task: Task, kept: set<string>, stage: Stage): Session
    requires turn < |s.turns|
  {
    if !Holds(s, turn) then WithStage(s, turn, Gone)
    else if !MayKeep(s, kept) then s
    else PrepareTerminal(s, turn, task, kept, stage)
  }

  function StartStep(s: Session, turn: nat, step: Step): Session
    requires turn < |s.turns|
  {
    var t := s.turns[turn];
    match step
    case FailPrepare(_, kept) => if t.stage.Reserved? then PrepareOwn(s, turn, Starter, kept, FailPrepared) else s
    case FailClaim(_) =>
      if t.stage.FailPrepared? then WithTurn(s, turn, t.(stage := FailClaimed, finished := true)) else s
    case FailRelease(_) => if t.stage.FailClaimed? then Release(WithStage(s, turn, Gone), turn) else s
    case Submit(_, cancelFailed) =>
      if !t.stage.Reserved? || s.lifecycleClosed || !Holds(s, turn) then s
      else WithTurn(s, turn, t.(stage := if cancelFailed then Cleaning else Prompting, handedOut := true))
    case Abandon(_) =>
      if t.stage.Reserved? && (s.lifecycleClosed || !Holds(s, turn)) then WithStage(s, turn, Gone) else s
    case _ => s
  }

  function PromptStep(s: Session, turn: nat, step: Step): Session
    requires turn < |s.turns|
  {
    var t := s.turns[turn];
    match step
    case PromptCheck(_) =>
      if t.stage.Prompting? then WithStage(s, turn, if s.lifecycleClosed then Gone else Checked) else s
    case PromptClaim(_) =>
      if !t.stage.Checked? then s
      else if t.finished then WithStage(s, turn, Gone)
      else WithTurn(s, turn, t.(stage := Claimed, finished := true))
    case PromptPrepare(_, kept) =>
      if t.stage.Claimed? then PrepareOwn(s, turn, Prompt, kept, Prepared(s.open.Values)) else s
    case PromptEmit(_, call) =>
      if !t.stage.Prepared? || call !in t.stage.closing then s
      else WithTurn(s, turn, Close(t, call).(stage := Prepared(t.stage.closing - {call})))
    case PromptCommit(_, keep) =>
      if !t.stage.Prepared? || !SaidAll(t, t.stage.closing) then s
      else WithTurn(s, turn, Commit(t, Prompt).(stage := if keep then Gone else Written))
    case PromptShut(_, ended) =>
      if !t.stage.Written? then s
      else WithStage(s.(admissionClosed := s.admissionClosed || ended), turn, Releasing)
    case PromptRelease(_) => if t.stage.Releasing? then Release(WithStage(s, turn, Gone), turn) else s
    case _ => s
  }

  function CleanupStep(s: Session, turn: nat, step: Step): Session
    requires turn < |s.turns|
  {
    var t := s.turns[turn];
    match step
    case CleanupPrepare(_, kept) =>
      if t.stage.Cleaning? then PrepareOwn(s, turn, Cleanup, kept, CleanPrepared(s.open.Values)) else s
    case CleanupClaim(_) =>
      if !t.stage.CleanPrepared? then s
      else if t.finished then WithStage(s, turn, Gone)
      else WithTurn(s, turn, t.(stage := CleanClaimed(t.stage.closing), finished := true))
    case CleanupEmit(_, call) =>
      if !t.stage.CleanClaimed? || call !in t.stage.closing then s
      else WithTurn(s, turn, Close(t, call).(stage := CleanClaimed(t.stage.closing - {call})))
    case CleanupCommit(_) =>
      if !t.stage.CleanClaimed? || !SaidAll(t, t.stage.closing) then s
      else WithTurn(s, turn, Commit(t, Cleanup).(stage := CleanWritten))
    case CleanupRelease(_) => if t.stage.CleanWritten? then Release(WithStage(s, turn, Gone), turn) else s
    case _ => s
  }

  /** `finish_close`, from the claim of the lifecycle to the shared result. */
  function CloseStep(s: Session, step: Step): Session {
    match step
    case CloseClaim => if s.closer.NotClosing? then s.(lifecycleClosed := true, closer := CloseClaimed) else s
    case CloseReadTurn => if s.closer.CloseClaimed? then s.(closer := CloseRead(s.slot)) else s
    case CloseStop(ok) => if s.closer.CloseRead? then s.(closer := CloseStopped(s.closer.ending, ok)) else s
    case ClosePrepare(kept) =>
      if s.closer.CloseStopped? then CloserPrepares(s, s.closer.ending, s.closer.ok, kept) else s
    case CloseClaimTurn =>
      if !s.closer.ClosePrepared? || s.closer.turn >= |s.turns| then s
      else CloserClaims(s, s.closer.turn, s.closer.closing, s.closer.ok)
    case CloseEmit(call) =>
      if !s.closer.CloseOwned? || s.closer.turn >= |s.turns| || call !in s.closer.closing then s
      else
        WithTurn(s, s.closer.turn, Close(s.turns[s.closer.turn], call)).(
          closer := CloseOwned(s.closer.turn, s.closer.closing - {call}, s.closer.ok))
    case CloseCommit =>
      if !s.closer.CloseOwned? || s.closer.turn >= |s.turns| then s
      else if !SaidAll(s.turns[s.closer.turn], s.closer.closing) then s
      else
        WithTurn(s, s.closer.turn, Commit(s.turns[s.closer.turn], Closer)).(
          closer := CloseWritten(s.closer.turn, s.closer.ok))
    case CloseRelease =>
      if s.closer.CloseWritten? then Release(s, s.closer.turn).(closer := CloseFinished(s.closer.ok)) else s
    case CloseWait(settled) =>
      if !s.closer.CloseWaiting? || (settled && s.slot.Some?) then s else s.(closer := CloseFinished(settled))
    case ClosePublish => if s.closer == CloseFinished(true) then s.(published := true) else s
    case _ => s
  }

  /** The close takes over the turn it found running, if it still runs. */
  function CloserPrepares(s: Session, ending: Option<nat>, ok: bool, kept: set<string>): Session {
    if ending.None? || !Holds(s, ending.value) then s.(closer := CloseFinished(ok))
    else if !MayKeep(s, kept) then s
    else
      var turn := ending.value;
      PrepareTerminal(s, turn, Closer, kept, s.turns[turn].stage).(closer := ClosePrepared(turn, s.open.Values, ok))
  }

  /** It owns the terminal unless the prompt task claimed it first, and then waits for that task. */
  function CloserClaims(s: Session, turn: nat, closing: set<nat>, ok: bool): Session
    requires turn < |s.turns|
  {
    if s.turns[turn].finished then s.(closer := if ok then CloseWaiting else CloseFinished(false))
    else WithTurn(s, turn, s.turns[turn].(finished := true)).(closer := CloseOwned(turn, closing, ok))
  }

  /** The watcher of a connection that ended on its own. */
  function WatchStep(s: Session, step: Step): Session {
    match step
    case WatchWake =>
      if !s.watcher.Watching? then s
      else if !s.closer.NotClosing? then s.(watcher := Retired)
      else s.(admissionClosed := true, watcher := AdmissionShut)
    case WatchClean(ok) => if s.watcher.AdmissionShut? then s.(watcher := if ok then Cleaned else Retired) else s
    case WatchSettle(settled) =>
      if !s.watcher.Cleaned? || (settled && s.slot.Some?) then s
      else s.(watcher := if settled then Settled else Retired)
    case WatchDecide =>
      if s.watcher.Settled? then s.(watcher := if s.closer.NotClosing? then Publishing else Retired) else s
    case WatchPublish => if s.watcher.Publishing? then s.(watcher := Retired, published := true) else s
    case _ => s
  }

  /** Whether the previous terminal closed the call this frame updates. */
  predicate LateForAClosedCall(s: Session, frame: Frame) {
    frame.Updates? && frame.id in s.closedCalls
  }

  /** One frame against the open calls. */
  function ReduceFrame(s: Session, id: string, staysOpen: bool): Session {
    if !staysOpen then s.(open := s.open - {id})
    else if id in s.open then s
    else s.(open := s.open[id := s.nextCall], nextCall := s.nextCall + 1)
  }

  function CheckLate(s: Session, current: Option<nat>, frame: Frame): Session {
    if current.None? || LateForAClosedCall(s, frame) then s.(handler := Idle)
    else
      s.(closedCalls := if frame.Opens? then s.closedCalls - {frame.id} else s.closedCalls,
         handler := Passed(current.value, frame))
  }

  /** A frame for a turn that already claimed its terminal changes nothing; any other is reduced. */
  function ReduceFor(s: Session, turn: nat, frame: Frame, staysOpen: bool): Session {
    if turn >= |s.turns| || s.turns[turn].finished then s.(handler := Idle)
    else
      ReduceFrame(s, frame.id, staysOpen).(
        handler := Emitting(turn), reduced := s.reduced + [Reduced(turn, |s.turns| - 1, frame)])
  }

  /** Ahead of each event of a frame: once the turn claimed its terminal, no more of them go out. */
  function CheckEmit(s: Session, turn: nat, more: bool): Session {
    s.(handler := if more && turn < |s.turns| && !s.turns[turn].finished then Sending(turn) else Idle)
  }

  /** One event goes out; one the core refuses fails the turn, unless its stream already ended. */
  function EmitFor(s: Session, turn: nat, refused: bool): Session {
    s.(handler :=
      if !refused then Emitting(turn)
      else if turn < |s.turns| && s.turns[turn].terminal.None? then Refusing(turn)
      else Idle)
  }

  function RefusePrepares(s: Session, turn: nat, kept: set<string>): Session {
    if !Holds(s, turn) then s.(handler := RefusePrepared(turn, {}))
    else if !MayKeep(s, kept) then s
    else
      PrepareTerminal(s, turn, Handler, kept, s.turns[turn].stage).(handler := RefusePrepared(turn, s.open.Values))
  }

  function HandleStep(s: Session, step: Step): Session {
    match step
    case Capture(frame) => if s.handler.Idle? then s.(handler := Captured(s.slot, frame)) else s
    case LateCheck => if s.handler.Captured? then CheckLate(s, s.handler.current, s.handler.frame) else s
    case Reduce(staysOpen) =>
      if s.handler.Passed? then ReduceFor(s, s.handler.turn, s.handler.frame, staysOpen) else s
    case EmitCheck(more) => if s.handler.Emitting? then CheckEmit(s, s.handler.turn, more) else s
    case EmitEvent(refused) => if s.handler.Sending? then EmitFor(s, s.handler.turn, refused) else s
    case RefusePrepare(kept) => if s.handler.Refusing? then RefusePrepares(s, s.handler.turn, kept) else s
    case RefuseEmit(call) =>
      if !s.handler.RefusePrepared? || s.handler.turn >= |s.turns| || call !in s.handler.closing then s
      else
        WithTurn(s, s.handler.turn, Close(s.turns[s.handler.turn], call)).(
          handler := RefusePrepared(s.handler.turn, s.handler.closing - {call}))
    case RefuseCommit =>
      if !s.handler.RefusePrepared? || s.handler.turn >= |s.turns| || s.handler.closing != {} then s
      else WithTurn(s, s.handler.turn, Commit(s.turns[s.handler.turn], Handler)).(handler := Idle)
    // The peer stops the handler with its connection, but not between taking a reducer and the terminal.
    case PeerStops => if s.handler.RefusePrepared? then s else s.(handler := Stopped)
    case _ => s
  }

  /** The turn a step of a turn's own task is about. */
  function OwnTurn(step: Step): Option<nat> {
    match step
    case FailPrepare(turn, _) => Some(turn)
    case FailClaim(turn) => Some(turn)
    case FailRelease(turn) => Some(turn)
    case Submit(turn, _) => Some(turn)
    case Abandon(turn) => Some(turn)
    case PromptCheck(turn) => Some(turn)
    case PromptClaim(turn) => Some(turn)
    case PromptPrepare(turn, _) => Some(turn)
    case PromptEmit(turn, _) => Some(turn)
    case PromptCommit(turn, _) => Some(turn)
    case PromptShut(turn, _) => Some(turn)
    case PromptRelease(turn) => Some(turn)
    case CleanupPrepare(turn, _) => Some(turn)
    case CleanupClaim(turn) => Some(turn)
    case CleanupEmit(turn, _) => Some(turn)
    case CleanupCommit(turn) => Some(turn)
    case CleanupRelease(turn) => Some(turn)
    case _ => None
  }

  predicate IsStart(step: Step) {
    step.FailPrepare? || step.FailClaim? || step.FailRelease? || step.Submit? || step.Abandon?
  }

  predicate IsPrompt(step: Step) {
    || step.PromptCheck? || step.PromptClaim? || step.PromptPrepare?
    || step.PromptEmit? || step.PromptCommit? || step.PromptShut? || step.PromptRelease?
  }

  predicate IsHandler(step: Step) {
    || step.Capture? || step.LateCheck? || step.Reduce? || step.EmitCheck? || step.EmitEvent?
    || step.RefusePrepare? || step.RefuseEmit? || step.RefuseCommit? || step.PeerStops?
  }

  predicate IsWatcher(step: Step) {
    step.WatchWake? || step.WatchClean? || step.WatchSettle?
    || step.WatchDecide? || step.WatchPublish?
  }

  function Next(s: Session, step: Step): Session {
    if step.Begin? then BeginTurn(s)
    else if OwnTurn(step).Some? then
      var turn := OwnTurn(step).value;
      if turn >= |s.turns| then s
      else if IsStart(step) then StartStep(s, turn, step)
      else if IsPrompt(step) then PromptStep(s, turn, step)
      else CleanupStep(s, turn, step)
    else if IsHandler(step) then HandleStep(s, step)
    else if IsWatcher(step) then WatchStep(s, step)
    else CloseStep(s, step)
  }

  function RunFrom(s: Session, steps: seq<Step>): Session {
    if steps == [] then s else Next(RunFrom(s, steps[..|steps| - 1]), steps[|steps| - 1])
  }

  function Run(steps: seq<Step>): Session {
    RunFrom(NEW_SESSION, steps)
  }
}
