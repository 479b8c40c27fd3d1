/**
  What every run of the turn slot keeps: whose turn may be ended by whom, when a turn may leave, what
  `Closed` promises, and whose reducer a frame reaches.
*/
module TurnSafety {
  import opened Prelude
  import opened TurnSlot

  // The slot.

  /** What a turn's own task has done by each stage. */
  predicate StageFits(t: Turn) {
    match t.stage
    case Reserved => !t.handedOut
    case FailPrepared => !t.handedOut
    case FailClaimed => !t.handedOut && t.finished
    case Claimed => t.finished
    case Prepared(_) => t.finished
    case Written => t.finished && t.terminal.Some?
    case Releasing => t.finished && t.terminal.Some?
    case CleanClaimed(_) => t.finished
    case CleanWritten => t.finished && t.terminal.Some?
    case _ => true
  }

  /** A turn that left the slot was finished first, and its host had its terminal. */
  ghost predicate TurnFits(s: Session, g: nat)
    requires g < |s.turns|
  {
    && StageFits(s.turns[g])
    && (s.slot != Some(g) ==> s.turns[g].finished && (s.turns[g].handedOut ==> s.turns[g].terminal.Some?))
  }

  predicate EmptyOrHolds(s: Session, g: nat) {
    g < |s.turns| && (s.slot.None? || s.slot == Some(g))
  }

  /** The turn in the slot, if any, has had its terminal claimed. */
  predicate SlotFinished(s: Session) {
    s.slot.Some? ==> s.slot.value < |s.turns| && s.turns[s.slot.value].finished
  }

  predicate CloserFits(s: Session) {
    match s.closer
    case NotClosing => true
    case CloseClaimed => s.lifecycleClosed
    case CloseRead(ending) => s.lifecycleClosed && (s.slot.None? || s.slot == ending)
    case CloseStopped(ending, _) => s.lifecycleClosed && (s.slot.None? || s.slot == ending)
    case ClosePrepared(g, _, _) => s.lifecycleClosed && EmptyOrHolds(s, g)
    case CloseOwned(g, _, _) => s.lifecycleClosed && EmptyOrHolds(s, g) && s.turns[g].finished
    case CloseWritten(g, _) =>
      s.lifecycleClosed && EmptyOrHolds(s, g) && s.turns[g].finished && s.turns[g].terminal.Some?
    case CloseWaiting => s.lifecycleClosed && SlotFinished(s)
    case CloseFinished(ok) => s.lifecycleClosed && SlotFinished(s) && (ok ==> s.slot.None?)
  }

  predicate WatcherFits(s: Session) {
    match s.watcher
    case Watching | Retired => true
    case AdmissionShut | Cleaned => s.admissionClosed
    case Settled | Publishing => s.admissionClosed && s.slot.None?
  }

  predicate HandlerFits(s: Session) {
    match s.handler
    case Idle | Stopped => true
    case Captured(current, _) => current.Some? ==> current.value < |s.turns|
    case Passed(g, _) => g < |s.turns|
    case Emitting(g) => g < |s.turns|
    case Sending(g) => g < |s.turns|
    case Refusing(g) => g < |s.turns|
    case RefusePrepared(g, _) => g < |s.turns|
  }

  ghost predicate TurnsFit(s: Session) {
    && (s.slot.Some? ==> s.slot.value + 1 == |s.turns|)
    && (forall g: nat | g < |s.turns| :: TurnFits(s, g))
  }

  ghost predicate Safe(s: Session) {
    && TurnsFit(s)
    && CloserFits(s) && WatcherFits(s) && HandlerFits(s)
    && (s.published ==> s.slot.None? && (s.admissionClosed || s.lifecycleClosed))
    && (forall entry <- s.reduced :: entry.captured == entry.owner)
  }

  lemma BeginIsSafe(s: Session)
    requires Safe(s)
    ensures Safe(BeginTurn(s))
  {
    var after := BeginTurn(s);
    forall g: nat | g < |after.turns|
      ensures TurnFits(after, g)
    {
      assert g < |s.turns| ==> TurnFits(s, g) && after.turns[g] == s.turns[g];
    }
  }

  /** At most the record of turn `g` moved on, and the slot is as it was or gave that turn back. */
  ghost predicate Moved(s: Session, after: Session, g: nat) {
    && g < |s.turns| == |after.turns|
    && after.turns == s.turns[g := after.turns[g]]
    && (after.slot == s.slot || (s.slot == Some(g) && after.slot.None?))
    && (s.turns[g].finished ==> after.turns[g].finished)
    && (s.turns[g].terminal.Some? ==> after.turns[g].terminal.Some?)
    && TurnFits(after, g)
    && after.published == s.published && after.lifecycleClosed == s.lifecycleClosed
    && (s.admissionClosed ==> after.admissionClosed)
  }

  lemma MovedTurnsFit(s: Session, after: Session, g: nat)
    requires TurnsFit(s) && Moved(s, after, g)
    ensures TurnsFit(after)
  {
    forall other: nat | other < |after.turns|
      ensures TurnFits(after, other)
    {
      assert TurnFits(s, other);
    }
  }

  lemma MovedTasksFit(s: Session, after: Session, g: nat)
    requires Moved(s, after, g)
    ensures CloserFits(s) && after.closer == s.closer ==> CloserFits(after)
    ensures WatcherFits(s) && after.watcher == s.watcher ==> WatcherFits(after)
    ensures HandlerFits(s) && after.handler == s.handler ==> HandlerFits(after)
  {
  }

  /** What a step of a turn's own task leaves alone. */
  predicate OthersWait(s: Session, after: Session) {
    after.closer == s.closer && after.watcher == s.watcher && after.handler == s.handler && after.reduced == s.reduced
  }

  lemma MovedIsSafe(s: Session, after: Session, g: nat)
    requires Safe(s) && Moved(s, after, g) && OthersWait(s, after)
    ensures Safe(after)
  {
    MovedTurnsFit(s, after, g);
    MovedTasksFit(s, after, g);
  }

  /** Taking the reducer moves nothing but the turn's history and its task's stage. */
  lemma PrepareMoves(s: Session, g: nat, task: Task, kept: set<string>, stage: Stage)
    requires Holds(s, g) && StageFits(s.turns[g].(stage := stage))
    ensures var after := PrepareTerminal(s, g, task, kept, stage); Moved(s, after, g) && OthersWait(s, after)
  {
  }

  lemma StartMoves(s: Session, g: nat, step: Step)
    requires g < |s.turns| && TurnFits(s, g) && !step.FailPrepare? && !step.FailRelease?
    ensures Moved(s, StartStep(s, g, step), g) && OthersWait(s, StartStep(s, g, step))
  {
  }

  lemma PromptMoves(s: Session, g: nat, step: Step)
    requires g < |s.turns| && TurnFits(s, g) && !step.PromptPrepare? && !step.PromptRelease?
    ensures Moved(s, PromptStep(s, g, step), g) && OthersWait(s, PromptStep(s, g, step))
  {
  }

  lemma CleanupMoves(s: Session, g: nat, step: Step)
    requires g < |s.turns| && TurnFits(s, g) && !step.CleanupPrepare? && !step.CleanupRelease?
    ensures Moved(s, CleanupStep(s, g, step), g) && OthersWait(s, CleanupStep(s, g, step))
  {
  }

  /** Giving a finished turn's slot back. */
  lemma ReleasingMoves(s: Session, g: nat)
    requires g < |s.turns| && s.turns[g].finished && (s.turns[g].handedOut ==> s.turns[g].terminal.Some?)
    ensures var after := Release(WithStage(s, g, Gone), g);
      Moved(s, after, g) && OthersWait(s, after)
  {
  }

  lemma StartPreparing(s: Session, g: nat, kept: set<string>)
    requires g < |s.turns| && TurnFits(s, g)
    ensures var after := StartStep(s, g, FailPrepare(g, kept)); Moved(s, after, g) && OthersWait(s, after)
  {
    if Holds(s, g) && s.turns[g].stage.Reserved? {
      PrepareMoves(s, g, Starter, kept, FailPrepared);
    }
  }

  lemma PromptPreparing(s: Session, g: nat, kept: set<string>)
    requires g < |s.turns| && TurnFits(s, g)
    ensures var after := PromptStep(s, g, PromptPrepare(g, kept)); Moved(s, after, g) && OthersWait(s, after)
  {
    if Holds(s, g) && s.turns[g].stage.Claimed? {
      PrepareMoves(s, g, Prompt, kept, Prepared(s.open.Values));
    }
  }

  lemma CleanupPreparing(s: Session, g: nat, kept: set<string>)
    requires g < |s.turns| && TurnFits(s, g)
    ensures var after := CleanupStep(s, g, CleanupPrepare(g, kept)); Moved(s, after, g) && OthersWait(s, after)
  {
    if Holds(s, g) && s.turns[g].stage.Cleaning? {
      PrepareMoves(s, g, Cleanup, kept, CleanPrepared(s.open.Values));
    }
  }

  lemma StartReleasing(s: Session, g: nat)
    requires g < |s.turns| && TurnFits(s, g)
    ensures var after := StartStep(s, g, FailRelease(g)); Moved(s, after, g) && OthersWait(s, after)
  {
    if s.turns[g].stage.FailClaimed? {
      ReleasingMoves(s, g);
    }
  }

  lemma PromptReleasing(s: Session, g: nat)
    requires g < |s.turns| && TurnFits(s, g)
    ensures var after := PromptStep(s, g, PromptRelease(g)); Moved(s, after, g) && OthersWait(s, after)
  {
    if s.turns[g].stage.Releasing? {
      ReleasingMoves(s, g);
    }
  }

  lemma CleanupReleasing(s: Session, g: nat)
    requires g < |s.turns| && TurnFits(s, g)
    ensures var after := CleanupStep(s, g, CleanupRelease(g)); Moved(s, after, g) && OthersWait(s, after)
  {
    if s.turns[g].stage.CleanWritten? {
      ReleasingMoves(s, g);
    }
  }

  lemma OwnStepIsSafe(s: Session, step: Step)
    requires Safe(s) && OwnTurn(step).Some? && OwnTurn(step).value < |s.turns|
    ensures Safe(Next(s, step))
  {
    var g := OwnTurn(step).value;
    assert TurnFits(s, g);
    OwnStepMoves(s, step);
    MovedIsSafe(s, Next(s, step), g);
  }

  lemma OwnStepMoves(s: Session, step: Step)
    requires OwnTurn(step).Some? && OwnTurn(step).value < |s.turns| && TurnFits(s, OwnTurn(step).value)
    ensures Moved(s, Next(s, step), OwnTurn(step).value) && OthersWait(s, Next(s, step))
  {
    var g := OwnTurn(step).value;
    match step {
      case FailPrepare(_, kept) => StartPreparing(s, g, kept);
      case FailRelease(_) => StartReleasing(s, g);
      case PromptPrepare(_, kept) => PromptPreparing(s, g, kept);
      case PromptRelease(_) => PromptReleasing(s, g);
      case CleanupPrepare(_, kept) => CleanupPreparing(s, g, kept);
      case CleanupRelease(_) => CleanupReleasing(s, g);
      case _ => OtherStepMoves(s, g, step);
    }
  }

  lemma OtherStepMoves(s: Session, g: nat, step: Step)
    requires OwnTurn(step) == Some(g) && g < |s.turns| && TurnFits(s, g)
    requires !step.FailPrepare? && !step.PromptPrepare? && !step.CleanupPrepare?
    requires !step.FailRelease? && !step.PromptRelease? && !step.CleanupRelease?
    ensures Moved(s, Next(s, step), g) && OthersWait(s, Next(s, step))
  {
    if IsStart(step) {
      StartMoves(s, g, step);
    } else if IsPrompt(step) {
      PromptMoves(s, g, step);
    } else {
      CleanupMoves(s, g, step);
    }
  }

  function ClosersTurn(closer: CloseTask): Option<nat> {
    match closer
    case CloseStopped(ending, _) => ending
    case ClosePrepared(turn, _, _) => Some(turn)
    case CloseOwned(turn, _, _) => Some(turn)
    case CloseWritten(turn, _) => Some(turn)
    case _ => None
  }

  predicate NotYetPrepared(closer: CloseTask) {
    closer.NotClosing? || closer.CloseClaimed? || closer.CloseRead? || closer.CloseStopped?
  }

  lemma CloseTouchesNoTurn(s: Session, step: Step)
    requires ClosersTurn(s.closer).None? || ClosersTurn(s.closer).value >= |s.turns|
    ensures var after := CloseStep(s, step);
      && after == s.(closer := after.closer, slot := after.slot, lifecycleClosed := after.lifecycleClosed,
                     published := after.published)
      && (after.slot == s.slot || after.slot.None?)
      && (after.closer == s.closer
          || (!after.closer.ClosePrepared? && !after.closer.CloseOwned?
              && (NotYetPrepared(after.closer) ==> NotYetPrepared(s.closer))))
  {
  }

  lemma CloserFitsWithoutTurn(s: Session, step: Step)
    requires CloserFits(s) && (s.published ==> s.slot.None? && (s.admissionClosed || s.lifecycleClosed))
    requires ClosersTurn(s.closer).None? || ClosersTurn(s.closer).value >= |s.turns|
    requires s.slot.Some? ==> s.slot.value < |s.turns|
    ensures var after := CloseStep(s, step);
      && CloserFits(after)
      && (after.published ==> after.slot.None? && (after.admissionClosed || after.lifecycleClosed))
      && (after.slot == s.slot || (s.closer.CloseWritten? && after.slot.None?))
  {
  }

  lemma CloseWithoutTurn(s: Session, step: Step)
    requires Safe(s) && (ClosersTurn(s.closer).None? || ClosersTurn(s.closer).value >= |s.turns|)
    ensures Safe(CloseStep(s, step))
  {
    var after := CloseStep(s, step);
    CloseTouchesNoTurn(s, step);
    CloserFitsWithoutTurn(s, step);
    forall g: nat | g < |s.turns|
      ensures TurnFits(after, g)
    {
      assert TurnFits(s, g);
    }
  }

  lemma CloseMoves(s: Session, step: Step, g: nat)
    requires CloserFits(s) && ClosersTurn(s.closer) == Some(g) && g < |s.turns| && TurnFits(s, g)
    ensures var after := CloseStep(s, step);
      && Moved(s, after, g) && CloserFits(after)
      && after.watcher == s.watcher && after.handler == s.handler && after.reduced == s.reduced
  {
    if step.ClosePrepare? && Holds(s, g) {
      PrepareMoves(s, g, Closer, step.kept, s.turns[g].stage);
    }
  }

  lemma CloseIsSafe(s: Session, step: Step)
    requires Safe(s)
    ensures Safe(CloseStep(s, step))
  {
    if ClosersTurn(s.closer).None? || ClosersTurn(s.closer).value >= |s.turns| {
      CloseWithoutTurn(s, step);
    } else {
      var g := ClosersTurn(s.closer).value;
      assert TurnFits(s, g);
      CloseMoves(s, step, g);
      MovedTurnsFit(s, CloseStep(s, step), g);
      MovedTasksFit(s, CloseStep(s, step), g);
    }
  }

  lemma WatchIsSafe(s: Session, step: Step)
    requires Safe(s)
    ensures Safe(WatchStep(s, step))
  {
    forall g: nat | g < |s.turns|
      ensures TurnFits(WatchStep(s, step), g)
    {
      assert TurnFits(s, g);
    }
  }

  function HandlersTurn(handler: HandlerTask): Option<nat> {
    match handler
    case Passed(turn, _) => Some(turn)
    case Emitting(turn) => Some(turn)
    case Sending(turn) => Some(turn)
    case Refusing(turn) => Some(turn)
    case RefusePrepared(turn, _) => Some(turn)
    case _ => None
  }

  lemma HandleWithoutTurn(s: Session, step: Step)
    requires Safe(s) && HandlersTurn(s.handler).None?
    ensures Safe(HandleStep(s, step))
  {
    HandlesNoTurn(s, step);
    forall g: nat | g < |s.turns|
      ensures TurnFits(HandleStep(s, step), g)
    {
      assert TurnFits(s, g);
    }
  }

  lemma HandlesNoTurn(s: Session, step: Step)
    requires HandlersTurn(s.handler).None? && HandlerFits(s) && (s.slot.Some? ==> s.slot.value < |s.turns|)
    ensures var after := HandleStep(s, step);
      HandlerFits(after) && after == s.(closedCalls := after.closedCalls, handler := after.handler)
  {
  }

  /** An unfinished turn is the one in the slot, which is the last that began. */
  lemma UnfinishedIsCurrent(s: Session, g: nat)
    requires TurnsFit(s) && g < |s.turns| && !s.turns[g].finished
    ensures s.slot == Some(g) && g + 1 == |s.turns|
  {
    assert TurnFits(s, g);
  }

  lemma ReducingMoves(s: Session, step: Step, g: nat)
    requires s.handler.Passed? && s.handler.turn == g && g < |s.turns| && TurnFits(s, g) && step.Reduce?
    requires s.turns[g].finished || g + 1 == |s.turns|
    ensures var after := HandleStep(s, step);
      && Moved(s, after, g) && HandlerFits(after)
      && after.watcher == s.watcher && after.closer == s.closer
      && (after.reduced == s.reduced || after.reduced == s.reduced + [Reduced(g, g, s.handler.frame)])
  {
  }

  lemma HandleMoves(s: Session, step: Step, g: nat)
    requires HandlerFits(s) && HandlersTurn(s.handler) == Some(g) && g < |s.turns| && TurnFits(s, g)
    requires s.turns[g].finished || g + 1 == |s.turns|
    ensures var after := HandleStep(s, step);
      && Moved(s, after, g) && HandlerFits(after)
      && after.watcher == s.watcher && after.closer == s.closer
      && (after.reduced == s.reduced
          || (exists frame :: after.reduced == s.reduced + [Reduced(g, g, frame)]))
  {
    if step.RefusePrepare? && Holds(s, g) {
      PrepareMoves(s, g, Handler, step.kept, s.turns[g].stage);
    } else if step.Reduce? && s.handler.Passed? {
      ReducingMoves(s, step, g);
    }
  }

  lemma HandleIsSafe(s: Session, step: Step)
    requires Safe(s)
    ensures Safe(HandleStep(s, step))
  {
    if HandlersTurn(s.handler).None? {
      HandleWithoutTurn(s, step);
    } else {
      var g := HandlersTurn(s.handler).value;
      assert TurnFits(s, g);
      if !s.turns[g].finished {
        UnfinishedIsCurrent(s, g);
      }
      HandleMoves(s, step, g);
      MovedTurnsFit(s, HandleStep(s, step), g);
      MovedTasksFit(s, HandleStep(s, step), g);
    }
  }

  lemma StepIsSafe(s: Session, step: Step)
    requires Safe(s)
    ensures Safe(Next(s, step))
  {
    if step.Begin? {
      BeginIsSafe(s);
    } else if OwnTurn(step).Some? {
      if OwnTurn(step).value < |s.turns| {
        OwnStepIsSafe(s, step);
      }
    } else if IsHandler(step) {
      HandleIsSafe(s, step);
    } else if IsWatcher(step) {
      WatchIsSafe(s, step);
    } else {
      CloseIsSafe(s, step);
    }
  }

  lemma {:induction false} RunIsSafe(s: Session, steps: seq<Step>)
    requires Safe(s)
    ensures Safe(RunFrom(s, steps))
  {
    if steps != [] {
      var n := |steps| - 1;
      RunIsSafe(s, steps[..n]);
      StepIsSafe(RunFrom(s, steps[..n]), steps[n]);
    }
  }
}
