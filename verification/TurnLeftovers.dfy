/**
  What becomes of the calls a turn leaves open.

  Every task that may end a turn takes the turn's reducer, and only the first to take it finds those calls.
  A first taker that goes on to end the turn has closed them all; when that is sure to happen is in
  `TurnEndings.dfy`.
*/
module TurnLeftovers {
  import opened Prelude
  import opened TurnSlot
  import opened TurnSafety

  /** What a task holds of a turn: all the turn left that it did not close yet if it was first, or none of it. */
  predicate HandFits(t: Turn, task: Task, closing: set<nat>) {
    && (t.firstBy.None? ==> closing == {})
    && (if t.firstBy == Some(task) then t.terminal.None? ==> t.leftovers <= closing + t.closed
        else closing !! t.leftovers)
  }

  predicate OwnHandFits(t: Turn) {
    match t.stage
    case Prepared(closing) => t.firstBy.Some? && HandFits(t, Prompt, closing)
    case CleanPrepared(closing) => t.firstBy.Some? && HandFits(t, Cleanup, closing)
    case CleanClaimed(closing) => t.firstBy.Some? && HandFits(t, Cleanup, closing)
    case FailPrepared | FailClaimed => t.firstBy.Some?
    case Reserved | Prompting | Checked | Claimed | Cleaning => !ByOwnTask(t.firstBy)
    case _ => true
  }

  predicate ByOwnTask(task: Option<Task>) {
    task == Some(Starter) || task == Some(Prompt) || task == Some(Cleanup)
  }

  predicate CloserHandFits(closer: CloseTask, g: nat, t: Turn) {
    match closer
    case NotClosing | CloseClaimed | CloseRead(_) | CloseStopped(_, _) => t.firstBy != Some(Closer)
    case ClosePrepared(turn, closing, _) => turn == g ==> t.firstBy.Some? && HandFits(t, Closer, closing)
    case CloseOwned(turn, closing, _) => turn == g ==> t.firstBy.Some? && HandFits(t, Closer, closing)
    case _ => true
  }

  predicate HandlerHandFits(handler: HandlerTask, g: nat, t: Turn) {
    match handler
    case RefusePrepared(turn, closing) =>
      if turn == g then HandFits(t, Handler, closing) else t.firstBy == Some(Handler) ==> t.terminal.Some?
    case Refusing(turn) =>
      && (turn == g ==> t.firstBy != Some(Handler))
      && (t.firstBy == Some(Handler) ==> t.terminal.Some?)
    case _ => t.firstBy == Some(Handler) ==> t.terminal.Some?
  }

  /** Nothing is closed before a reducer was taken, and a first taker that ends the turn has closed it all. */
  predicate StreamFits(t: Turn) {
    && (t.firstBy.None? ==> t.closed == {})
    && (t.terminal.Some? && t.firstBy == t.terminal ==> t.leftovers <= t.closed)
  }

  /** A claimed terminal whose reducer nobody took yet is the prompt task's. */
  predicate ClaimFits(t: Turn, inSlot: bool) {
    inSlot && t.finished && t.firstBy.None? ==> t.stage.Claimed?
  }

  /** A turn's leftovers are numbered calls that no reducer holds any more. */
  predicate LeftBehind(s: Session, t: Turn) {
    && (forall call <- t.leftovers :: call < s.nextCall)
    && (forall id <- s.open :: s.open[id] !in t.leftovers)
    && (t.firstBy.None? ==> t.leftovers == {})
  }

  predicate AboutToRefuse(handler: HandlerTask, g: nat) {
    handler.RefusePrepared? && handler.turn == g
  }

  predicate Traced(s: Session, g: nat)
    requires g < |s.turns|
  {
    var t := s.turns[g];
    && OwnHandFits(t) && CloserHandFits(s.closer, g, t) && HandlerHandFits(s.handler, g, t)
    && StreamFits(t) && LeftBehind(s, t) && ClaimFits(t, s.slot == Some(g))
    && (s.slot == Some(g) && (t.terminal.Some? || AboutToRefuse(s.handler, g)) ==> t.firstBy.Some?)
  }

  ghost predicate AllTraced(s: Session) {
    && (forall id <- s.open :: s.open[id] < s.nextCall)
    && (forall g: nat | g < |s.turns| :: Traced(s, g))
  }

  /** The reducer's calls are the ones it held, some gone, and new ones under new numbers. */
  ghost predicate CallsMove(s: Session, after: Session) {
    && s.nextCall <= after.nextCall
    && (forall id <- after.open ::
          && after.open[id] < after.nextCall
          && ((id in s.open && after.open[id] == s.open[id]) || after.open[id] >= s.nextCall))
  }

  /** The close task stays as it is, or goes on with turn `g`. */
  predicate CloserGoesOn(before: CloseTask, after: CloseTask, g: nat) {
    || after == before
    || ((NotYetPrepared(after) ==> NotYetPrepared(before))
        && (after.ClosePrepared? ==> after.turn == g)
        && (after.CloseOwned? ==> after.turn == g))
  }

  /** The handler stays as it is, or goes on with turn `g`. */
  predicate HandlerGoesOn(before: HandlerTask, after: HandlerTask, g: nat) {
    || after == before
    || ((before.RefusePrepared? ==> before.turn == g)
        && (after.RefusePrepared? ==> after.turn == g)
        && (after.Refusing? ==> after.turn == g))
  }

  /** A step that changes one turn leaves what is traced of every other. */
  lemma OtherTurnsTraced(s: Session, after: Session, g: nat)
    requires AllTraced(s) && g < |after.turns| == |s.turns|
    requires forall other: nat | other < |s.turns| && other != g :: after.turns[other] == s.turns[other]
    requires after.slot == s.slot || after.slot.None?
    requires CallsMove(s, after)
    requires CloserGoesOn(s.closer, after.closer, g) && HandlerGoesOn(s.handler, after.handler, g)
    requires Traced(after, g)
    ensures AllTraced(after)
  {
    forall other: nat | other < |after.turns|
      ensures Traced(after, other)
    {
      if other != g {
        assert Traced(s, other);
      }
    }
  }

  lemma BeginTraces(s: Session)
    requires Safe(s) && AllTraced(s)
    ensures AllTraced(BeginTurn(s))
  {
    var after := BeginTurn(s);
    if after != s {
      forall g: nat | g < |after.turns|
        ensures Traced(after, g)
      {
        if g < |s.turns| {
          assert Traced(s, g) && after.turns[g] == s.turns[g];
        }
      }
    }
  }

  /** Whoever takes the reducer is handed all of the leftovers if first, and none of them otherwise. */
  lemma TakingFits(s: Session, g: nat, task: Task)
    requires (forall id <- s.open :: s.open[id] < s.nextCall)
    requires g < |s.turns| && LeftBehind(s, s.turns[g]) && s.turns[g].firstBy != Some(task)
    ensures HandFits(Taken(s, s.turns[g], task), task, s.open.Values)
    ensures forall call <- Taken(s, s.turns[g], task).leftovers :: call < s.nextCall
  {
  }

  lemma PreparingTraced(
    s: Session, g: nat, task: Task, kept: set<string>, stage: Stage, closer: CloseTask, handler: HandlerTask)
    requires AllTraced(s) && Holds(s, g) && s.turns[g].firstBy != Some(task)
    requires CloserGoesOn(s.closer, closer, g) && HandlerGoesOn(s.handler, handler, g)
    requires OwnHandFits(Taken(s, s.turns[g], task).(stage := stage))
    requires CloserHandFits(closer, g, Taken(s, s.turns[g], task))
    requires HandlerHandFits(handler, g, Taken(s, s.turns[g], task))
    requires s.turns[g].terminal.Some? ==> s.turns[g].firstBy.Some?
    ensures AllTraced(PrepareTerminal(s, g, task, kept, stage).(closer := closer, handler := handler))
  {
    var after := PrepareTerminal(s, g, task, kept, stage).(closer := closer, handler := handler);
    assert Traced(s, g);
    TakingFits(s, g, task);
    assert Traced(after, g);
    OtherTurnsTraced(s, after, g);
  }

  /** Closing a call moves it from the task's hand to the stream. */
  lemma ClosingFits(t: Turn, task: Task, closing: set<nat>, call: nat)
    requires StreamFits(t) && HandFits(t, task, closing) && call in closing
    ensures StreamFits(Close(t, call)) && HandFits(Close(t, call), task, closing - {call})
  {
  }

  /** A first taker that has said all has closed everything that was left. */
  lemma CommittingFits(t: Turn, task: Task, closing: set<nat>)
    requires StreamFits(t) && HandFits(t, task, closing) && SaidAll(t, closing)
    ensures StreamFits(Commit(t, task))
  {
    assert closing == {} ==> closing + t.closed == t.closed;
  }

  /** One turn's record and perhaps the slot and a task changed, and what is traced of it still fits. */
  ghost predicate RecordStep(s: Session, after: Session, g: nat) {
    && g < |s.turns| == |after.turns|
    && after == s.(turns := s.turns[g := after.turns[g]], slot := after.slot, admissionClosed := after.admissionClosed,
                   closer := after.closer, handler := after.handler)
    && (after.slot == s.slot || after.slot.None?)
    && after.turns[g].firstBy == s.turns[g].firstBy && after.turns[g].leftovers == s.turns[g].leftovers
    && OwnHandFits(after.turns[g]) && StreamFits(after.turns[g])
    && ClaimFits(after.turns[g], after.slot == Some(g))
    && (after.slot == Some(g) && (after.turns[g].terminal.Some? || AboutToRefuse(after.handler, g)) ==>
          after.turns[g].firstBy.Some?)
    && CloserGoesOn(s.closer, after.closer, g) && CloserHandFits(after.closer, g, after.turns[g])
    && HandlerGoesOn(s.handler, after.handler, g) && HandlerHandFits(after.handler, g, after.turns[g])
  }

  lemma RecordTraced(s: Session, after: Session, g: nat)
    requires AllTraced(s) && RecordStep(s, after, g)
    ensures AllTraced(after)
  {
    assert Traced(s, g);
    assert Traced(after, g);
    OtherTurnsTraced(s, after, g);
  }

  /** A step of a turn's own task that takes no reducer: one record, and perhaps the slot given back. */
  predicate OwnShape(s: Session, after: Session, g: nat) {
    && g < |s.turns| == |after.turns|
    && after == s.(turns := s.turns[g := after.turns[g]], slot := after.slot, admissionClosed := after.admissionClosed)
    && (after.slot == s.slot || after.slot.None?)
  }

  /** The same history of the reducer, and a terminal written with what was held. */
  predicate GoesOn(t: Turn, t': Turn) {
    && t'.firstBy == t.firstBy && t'.leftovers == t.leftovers
    && OwnHandFits(t') && StreamFits(t') && t.closed <= t'.closed
    && (t.terminal.Some? ==> t'.terminal.Some?)
    && (t'.terminal.Some? ==> t.terminal.Some? || t.firstBy.Some?)
  }

  lemma OwnRecords(s: Session, after: Session, g: nat)
    requires OwnShape(s, after, g) && Traced(s, g) && GoesOn(s.turns[g], after.turns[g])
    requires ClaimFits(after.turns[g], after.slot == Some(g))
    ensures RecordStep(s, after, g)
  {
  }

  /** No step of a turn's own task leaves a claimed terminal, with its reducer untaken, to another stage. */
  lemma StartClaims(s: Session, g: nat, step: Step)
    requires g < |s.turns| && ClaimFits(s.turns[g], s.slot == Some(g)) && OwnHandFits(s.turns[g])
    requires !(step.FailPrepare? && Holds(s, g))
    ensures var after := StartStep(s, g, step); g < |after.turns| && ClaimFits(after.turns[g], after.slot == Some(g))
  {
  }

  lemma PromptClaimFits(s: Session, g: nat, step: Step)
    requires g < |s.turns| && ClaimFits(s.turns[g], s.slot == Some(g)) && OwnHandFits(s.turns[g])
    requires !(step.PromptPrepare? && Holds(s, g))
    ensures var after := PromptStep(s, g, step); g < |after.turns| && ClaimFits(after.turns[g], after.slot == Some(g))
  {
  }

  lemma CleanupClaimFits(s: Session, g: nat, step: Step)
    requires g < |s.turns| && ClaimFits(s.turns[g], s.slot == Some(g)) && OwnHandFits(s.turns[g])
    requires !(step.CleanupPrepare? && Holds(s, g))
    ensures var after := CleanupStep(s, g, step); g < |after.turns| && ClaimFits(after.turns[g], after.slot == Some(g))
  {
  }

  lemma StartRecords(s: Session, g: nat, step: Step)
    requires g < |s.turns| && Traced(s, g) && IsStart(step) && TurnFits(s, g)
    requires !(step.FailPrepare? && Holds(s, g))
    ensures RecordStep(s, StartStep(s, g, step), g)
  {
    StartGoesOn(s, g, step);
    StartClaims(s, g, step);
    OwnRecords(s, StartStep(s, g, step), g);
  }

  lemma StartGoesOn(s: Session, g: nat, step: Step)
    requires g < |s.turns| && OwnHandFits(s.turns[g]) && StreamFits(s.turns[g])
    requires !(step.FailPrepare? && Holds(s, g))
    ensures var after := StartStep(s, g, step); OwnShape(s, after, g) && GoesOn(s.turns[g], after.turns[g])
  {
  }

  lemma StartTraces(s: Session, g: nat, step: Step)
    requires Safe(s) && AllTraced(s) && g < |s.turns| && IsStart(step)
    ensures AllTraced(StartStep(s, g, step))
  {
    assert Traced(s, g);
    if step.FailPrepare? && Holds(s, g) {
      if s.turns[g].stage.Reserved? && MayKeep(s, step.kept) {
        PreparingTraced(s, g, Starter, step.kept, FailPrepared, s.closer, s.handler);
      }
    } else {
      StartRecords(s, g, step);
      RecordTraced(s, StartStep(s, g, step), g);
    }
  }

  lemma PromptKeepsShape(s: Session, g: nat, step: Step)
    requires g < |s.turns| && !(step.PromptPrepare? && Holds(s, g))
    ensures OwnShape(s, PromptStep(s, g, step), g)
  {
  }

  /** A task with something in hand closes a call. */
  lemma ClosingGoesOn(t: Turn, task: Task, stage: Stage, call: nat)
    requires OwnHandFits(t) && StreamFits(t) && t.firstBy.Some?
    requires
      || (task == Prompt && t.stage.Prepared? && call in t.stage.closing
          && stage == Prepared(t.stage.closing - {call}))
      || (task == Cleanup && t.stage.CleanClaimed? && call in t.stage.closing
          && stage == CleanClaimed(t.stage.closing - {call}))
    ensures GoesOn(t, Close(t, call).(stage := stage))
  {
    ClosingFits(t, task, t.stage.closing, call);
  }

  /** A task that has said all it can commits. */
  lemma CommittingGoesOn(t: Turn, task: Task, stage: Stage)
    requires OwnHandFits(t) && StreamFits(t) && t.firstBy.Some?
    requires (task == Prompt && t.stage.Prepared?) || (task == Cleanup && t.stage.CleanClaimed?)
    requires SaidAll(t, t.stage.closing) && (stage == Gone || stage == Written || stage == CleanWritten)
    ensures GoesOn(t, Commit(t, task).(stage := stage))
  {
    CommittingFits(t, task, t.stage.closing);
  }

  lemma PrompterGoesOn(s: Session, g: nat, step: Step)
    requires g < |s.turns| && OwnHandFits(s.turns[g]) && StreamFits(s.turns[g]) && s.turns[g].stage.Prepared?
    ensures var after := PromptStep(s, g, step); |after.turns| == |s.turns| && GoesOn(s.turns[g], after.turns[g])
  {
    var t := s.turns[g];
    if step.PromptEmit? && step.call in t.stage.closing {
      ClosingGoesOn(t, Prompt, Prepared(t.stage.closing - {step.call}), step.call);
    } else if step.PromptCommit? && SaidAll(t, t.stage.closing) {
      CommittingGoesOn(t, Prompt, if step.keep then Gone else Written);
    } else {
      assert PromptStep(s, g, step) == s;
    }
  }

  lemma PromptGoesOn(s: Session, g: nat, step: Step)
    requires g < |s.turns| && OwnHandFits(s.turns[g]) && StreamFits(s.turns[g])
    requires !(step.PromptPrepare? && Holds(s, g)) && OwnShape(s, PromptStep(s, g, step), g)
    ensures GoesOn(s.turns[g], PromptStep(s, g, step).turns[g])
  {
    if s.turns[g].stage.Prepared? {
      PrompterGoesOn(s, g, step);
    }
  }

  lemma PromptRecords(s: Session, g: nat, step: Step)
    requires g < |s.turns| && Traced(s, g) && !(step.PromptPrepare? && Holds(s, g))
    ensures RecordStep(s, PromptStep(s, g, step), g)
  {
    PromptKeepsShape(s, g, step);
    PromptGoesOn(s, g, step);
    PromptClaimFits(s, g, step);
    OwnRecords(s, PromptStep(s, g, step), g);
  }

  lemma PromptTraces(s: Session, g: nat, step: Step)
    requires Safe(s) && AllTraced(s) && g < |s.turns| && IsPrompt(step)
    ensures AllTraced(PromptStep(s, g, step))
  {
    assert Traced(s, g);
    if step.PromptPrepare? && Holds(s, g) {
      if s.turns[g].stage.Claimed? && MayKeep(s, step.kept) {
        TakingFits(s, g, Prompt);
        PreparingTraced(s, g, Prompt, step.kept, Prepared(s.open.Values), s.closer, s.handler);
      }
    } else {
      PromptRecords(s, g, step);
      RecordTraced(s, PromptStep(s, g, step), g);
    }
  }

  lemma CleanupKeepsShape(s: Session, g: nat, step: Step)
    requires g < |s.turns| && !(step.CleanupPrepare? && Holds(s, g))
    ensures OwnShape(s, CleanupStep(s, g, step), g)
  {
  }

  lemma CleanerGoesOn(s: Session, g: nat, step: Step)
    requires g < |s.turns| && OwnHandFits(s.turns[g]) && StreamFits(s.turns[g]) && s.turns[g].stage.CleanClaimed?
    ensures var after := CleanupStep(s, g, step); |after.turns| == |s.turns| && GoesOn(s.turns[g], after.turns[g])
  {
    var t := s.turns[g];
    if step.CleanupEmit? && step.call in t.stage.closing {
      ClosingGoesOn(t, Cleanup, CleanClaimed(t.stage.closing - {step.call}), step.call);
    } else if step.CleanupCommit? && SaidAll(t, t.stage.closing) {
      CommittingGoesOn(t, Cleanup, CleanWritten);
    } else {
      assert CleanupStep(s, g, step) == s;
    }
  }

  lemma CleanupGoesOn(s: Session, g: nat, step: Step)
    requires g < |s.turns| && OwnHandFits(s.turns[g]) && StreamFits(s.turns[g])
    requires !(step.CleanupPrepare? && Holds(s, g)) && OwnShape(s, CleanupStep(s, g, step), g)
    ensures GoesOn(s.turns[g], CleanupStep(s, g, step).turns[g])
  {
    if s.turns[g].stage.CleanClaimed? {
      CleanerGoesOn(s, g, step);
    }
  }

  lemma CleanupRecords(s: Session, g: nat, step: Step)
    requires g < |s.turns| && Traced(s, g) && !(step.CleanupPrepare? && Holds(s, g))
    ensures RecordStep(s, CleanupStep(s, g, step), g)
  {
    CleanupKeepsShape(s, g, step);
    CleanupGoesOn(s, g, step);
    CleanupClaimFits(s, g, step);
    OwnRecords(s, CleanupStep(s, g, step), g);
  }

  lemma CleanupTraces(s: Session, g: nat, step: Step)
    requires Safe(s) && AllTraced(s) && g < |s.turns|
    ensures AllTraced(CleanupStep(s, g, step))
  {
    assert Traced(s, g);
    if step.CleanupPrepare? && Holds(s, g) {
      if s.turns[g].stage.Cleaning? && MayKeep(s, step.kept) {
        TakingFits(s, g, Cleanup);
        PreparingTraced(s, g, Cleanup, step.kept, CleanPrepared(s.open.Values), s.closer, s.handler);
      }
    } else {
      CleanupRecords(s, g, step);
      RecordTraced(s, CleanupStep(s, g, step), g);
    }
  }

  lemma ClaimKeepsShape(s: Session, g: nat, closing: set<nat>, ok: bool)
    requires g < |s.turns|
    ensures OwnShape(s, CloserClaims(s, g, closing, ok).(closer := s.closer), g)
  {
  }

  lemma CloseKeepsShape(s: Session, g: nat, step: Step)
    requires g < |s.turns| && ClosersTurn(s.closer) == Some(g) && !(step.ClosePrepare? && Holds(s, g))
    ensures OwnShape(s, CloseStep(s, step).(closer := s.closer), g)
  {
    if step.CloseClaimTurn? {
      if s.closer.ClosePrepared? {
        ClaimKeepsShape(s, g, s.closer.closing, s.closer.ok);
      }
    } else if step.CloseEmit? && s.closer.CloseOwned? && step.call in s.closer.closing {
      assert CloseStep(s, step).turns == s.turns[g := Close(s.turns[g], step.call)];
    } else if step.CloseCommit? && s.closer.CloseOwned? && SaidAll(s.turns[g], s.closer.closing) {
      assert CloseStep(s, step).turns == s.turns[g := Commit(s.turns[g], Closer)];
    }
  }

  lemma CloseGoesOnWith(s: Session, g: nat, step: Step)
    requires g < |s.turns| && ClosersTurn(s.closer) == Some(g) && !(step.ClosePrepare? && Holds(s, g))
    ensures CloserGoesOn(s.closer, CloseStep(s, step).closer, g)
  {
  }

  /** The close task closes a call, or commits. */
  lemma OwnerGoesOn(s: Session, g: nat, step: Step)
    requires g < |s.turns| && OwnHandFits(s.turns[g]) && StreamFits(s.turns[g])
    requires s.closer.CloseOwned? && s.closer.turn == g && CloserHandFits(s.closer, g, s.turns[g])
    requires step.CloseEmit? || step.CloseCommit?
    ensures var after := CloseStep(s, step);
      && |after.turns| == |s.turns|
      && GoesOn(s.turns[g], after.turns[g]) && CloserHandFits(after.closer, g, after.turns[g])
  {
    if step.CloseEmit? && step.call in s.closer.closing {
      ClosingFits(s.turns[g], Closer, s.closer.closing, step.call);
    } else if step.CloseCommit? && SaidAll(s.turns[g], s.closer.closing) {
      CommittingFits(s.turns[g], Closer, s.closer.closing);
    }
  }

  lemma CloseGoesOn(s: Session, g: nat, step: Step)
    requires g < |s.turns| && OwnHandFits(s.turns[g]) && StreamFits(s.turns[g])
    requires ClosersTurn(s.closer) == Some(g) && CloserHandFits(s.closer, g, s.turns[g])
    requires !(step.ClosePrepare? && Holds(s, g)) && OwnShape(s, CloseStep(s, step).(closer := s.closer), g)
    ensures var after := CloseStep(s, step);
      GoesOn(s.turns[g], after.turns[g]) && CloserHandFits(after.closer, g, after.turns[g])
  {
    if s.closer.CloseOwned? && (step.CloseEmit? || step.CloseCommit?) {
      OwnerGoesOn(s, g, step);
    }
  }

  lemma CloseRecords(s: Session, g: nat, step: Step)
    requires g < |s.turns| && Traced(s, g) && ClosersTurn(s.closer) == Some(g)
    requires !(step.ClosePrepare? && Holds(s, g))
    ensures RecordStep(s, CloseStep(s, step), g)
  {
    CloseKeepsShape(s, g, step);
    CloseGoesOnWith(s, g, step);
    CloseGoesOn(s, g, step);
    OwnRecords(s, CloseStep(s, step).(closer := s.closer), g);
  }

  /** The close task's steps before it has a turn, and after it is done with one. */
  lemma CloseWaits(s: Session, step: Step)
    requires AllTraced(s) && (ClosersTurn(s.closer).None? || ClosersTurn(s.closer).value >= |s.turns|)
    ensures AllTraced(CloseStep(s, step))
  {
    var after := CloseStep(s, step);
    CloseTouchesNoTurn(s, step);
    forall g: nat | g < |s.turns|
      ensures Traced(after, g)
    {
      assert Traced(s, g);
    }
  }

  lemma CloseTraces(s: Session, step: Step)
    requires Safe(s) && AllTraced(s)
    ensures AllTraced(CloseStep(s, step))
  {
    if ClosersTurn(s.closer).None? || ClosersTurn(s.closer).value >= |s.turns| {
      CloseWaits(s, step);
    } else {
      var g := ClosersTurn(s.closer).value;
      assert Traced(s, g);
      if step.ClosePrepare? && Holds(s, g) {
        if s.closer.CloseStopped? && MayKeep(s, step.kept) {
          TakingFits(s, g, Closer);
          PreparingTraced(
            s, g, Closer, step.kept, s.turns[g].stage, ClosePrepared(g, s.open.Values, s.closer.ok), s.handler);
        }
      } else {
        CloseRecords(s, g, step);
        RecordTraced(s, CloseStep(s, step), g);
      }
    }
  }

  lemma RefusalRecords(s: Session, g: nat, step: Step)
    requires g < |s.turns| && Traced(s, g) && s.handler.RefusePrepared? && s.handler.turn == g
    requires (step.RefuseEmit? && step.call in s.handler.closing) || (step.RefuseCommit? && s.handler.closing == {})
    ensures RecordStep(s, HandleStep(s, step), g)
  {
    if step.RefuseEmit? {
      ClosingFits(s.turns[g], Handler, s.handler.closing, step.call);
      assert HandleStep(s, step).turns == s.turns[g := Close(s.turns[g], step.call)];
    } else {
      CommittingFits(s.turns[g], Handler, {});
      assert HandleStep(s, step).turns == s.turns[g := Commit(s.turns[g], Handler)];
    }
  }

  /** Any other step of a handler that has a turn changes no turn. */
  lemma HandlerRecords(s: Session, g: nat, step: Step)
    requires g < |s.turns| && Traced(s, g) && HandlersTurn(s.handler) == Some(g)
    requires !(step.RefusePrepare? && Holds(s, g)) && !step.Reduce? && !step.RefuseEmit? && !step.RefuseCommit?
    ensures RecordStep(s, HandleStep(s, step), g)
  {
    assert s.turns[g := s.turns[g]] == s.turns;
  }

  lemma HandleRecords(s: Session, g: nat, step: Step)
    requires g < |s.turns| && Traced(s, g) && HandlersTurn(s.handler) == Some(g)
    requires !(step.RefusePrepare? && Holds(s, g)) && !step.Reduce?
    ensures HandleStep(s, step) == s || RecordStep(s, HandleStep(s, step), g)
  {
    if !step.RefuseEmit? && !step.RefuseCommit? {
      HandlerRecords(s, g, step);
    } else if HandleStep(s, step) != s {
      RefusalRecords(s, g, step);
    }
  }

  /** A reduced frame changes no turn, and opens a call only under a new number. */
  lemma ReduceShape(s: Session, step: Step)
    requires step.Reduce? && s.handler.Passed? && forall id <- s.open :: s.open[id] < s.nextCall
    ensures var after := HandleStep(s, step);
      && after.turns == s.turns && after.slot == s.slot && after.closer == s.closer
      && (after.handler.Idle? || after.handler == Emitting(s.handler.turn))
      && CallsMove(s, after)
  {
    FrameMovesCalls(s, s.handler.frame.id, step.staysOpen);
    assert HandleStep(s, step) == ReduceFor(s, s.handler.turn, s.handler.frame, step.staysOpen);
  }

  lemma FrameMovesCalls(s: Session, id: string, staysOpen: bool)
    requires forall other <- s.open :: s.open[other] < s.nextCall
    ensures var after := ReduceFrame(s, id, staysOpen); CallsMove(s, after) && after.open.Keys <= s.open.Keys + {id}
  {
  }

  lemma ReduceTraces(s: Session, g: nat, step: Step)
    requires AllTraced(s) && g < |s.turns| && step.Reduce? && s.handler.Passed? && s.handler.turn == g
    ensures AllTraced(HandleStep(s, step))
  {
    ReduceShape(s, step);
    assert Traced(s, g);
    OtherTurnsTraced(s, HandleStep(s, step), g);
  }

  lemma HandleWaits(s: Session, step: Step)
    requires AllTraced(s) && HandlersTurn(s.handler).None?
    requires HandlerFits(s) && (s.slot.Some? ==> s.slot.value < |s.turns|)
    ensures AllTraced(HandleStep(s, step))
  {
    HandlesNoTurn(s, step);
    var after := HandleStep(s, step);
    assert !s.handler.RefusePrepared? && !after.handler.RefusePrepared? && !after.handler.Refusing?;
    forall g: nat | g < |s.turns|
      ensures Traced(after, g)
    {
      assert Traced(s, g);
    }
  }

  lemma HandleTraces(s: Session, step: Step)
    requires Safe(s) && AllTraced(s)
    ensures AllTraced(HandleStep(s, step))
  {
    if HandlersTurn(s.handler).None? {
      HandleWaits(s, step);
    } else {
      var g := HandlersTurn(s.handler).value;
      assert Traced(s, g);
      if step.RefusePrepare? && Holds(s, g) {
        if s.handler.Refusing? && MayKeep(s, step.kept) {
          TakingFits(s, g, Handler);
          PreparingTraced(s, g, Handler, step.kept, s.turns[g].stage, s.closer, RefusePrepared(g, s.open.Values));
        }
      } else if step.Reduce? && s.handler.Passed? {
        ReduceTraces(s, g, step);
      } else if !step.Reduce? {
        HandleRecords(s, g, step);
        if HandleStep(s, step) != s {
          RecordTraced(s, HandleStep(s, step), g);
        }
      }
    }
  }

  lemma WatchTraces(s: Session, step: Step)
    requires AllTraced(s)
    ensures AllTraced(WatchStep(s, step))
  {
    var after := WatchStep(s, step);
    forall g: nat | g < |s.turns|
      ensures Traced(after, g)
    {
      assert Traced(s, g);
    }
  }

  lemma StepTraces(s: Session, step: Step)
    requires Safe(s) && AllTraced(s)
    ensures AllTraced(Next(s, step))
  {
    if step.Begin? {
      BeginTraces(s);
    } else if OwnTurn(step).Some? {
      var g := OwnTurn(step).value;
      if g < |s.turns| {
        assert TurnFits(s, g);
        if IsStart(step) {
          StartTraces(s, g, step);
        } else if IsPrompt(step) {
          PromptTraces(s, g, step);
        } else {
          CleanupTraces(s, g, step);
        }
      }
    } else if IsHandler(step) {
      HandleTraces(s, step);
    } else if IsWatcher(step) {
      WatchTraces(s, step);
    } else {
      CloseTraces(s, step);
    }
  }

  lemma {:induction false} RunTraces(steps: seq<Step>)
    ensures Safe(Run(steps)) && AllTraced(Run(steps))
  {
    if steps != [] {
      var n := |steps| - 1;
      RunTraces(steps[..n]);
      StepIsSafe(Run(steps[..n]), steps[n]);
      StepTraces(Run(steps[..n]), steps[n]);
    }
  }

  /** A task that first took a turn's reducer and goes on to end the turn has closed all that was left. */
  lemma TheFirstTakerClosesWhatItEnds(steps: seq<Step>, g: nat)
    requires g < |Run(steps).turns| && Run(steps).turns[g].terminal.Some?
    requires Run(steps).turns[g].firstBy == Run(steps).turns[g].terminal
    ensures Run(steps).turns[g].leftovers <= Run(steps).turns[g].closed
  {
    RunTraces(steps);
    assert Traced(Run(steps), g);
  }
}
