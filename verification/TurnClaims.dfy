/**
  Who ends a turn: of the prompt task, a cleanup and the close task at most one ever comes to own a turn's terminal,
  and no other of them commits it.
*/
module TurnClaims {
  import opened Prelude
  import opened TurnSlot
  import opened TurnSafety

  /** The task has claimed the terminal of `g`, and is on its way to give the turn back. */
  predicate Owns(s: Session, g: nat, task: Task) {
    && g < |s.turns|
    && match task
       case Prompt => OwnedByPrompt(s.turns[g].stage)
       case Cleanup => OwnedByCleanup(s.turns[g].stage)
       case Closer => (s.closer.CloseOwned? || s.closer.CloseWritten?) && s.closer.turn == g
       case _ => false
  }

  predicate OwnedByPrompt(stage: Stage) {
    stage.Claimed? || stage.Prepared? || stage.Written? || stage.Releasing?
  }

  predicate Claims(s: Session, step: Step, g: nat, task: Task) {
    !Owns(s, g, task) && Owns(Next(s, step), g, task)
  }

  predicate ClaimsAt(steps: seq<Step>, i: nat, g: nat, task: Task) {
    i < |steps| && Claims(Run(steps[..i]), steps[i], g, task)
  }

  predicate IsFinished(s: Session, g: nat) {
    g < |s.turns| && s.turns[g].finished
  }

  function TerminalOf(s: Session, g: nat): Option<Task> {
    if g < |s.turns| then s.turns[g].terminal else None
  }

  /** What one step does to the claim and the terminal of `g`, as `s` becomes `after`. */
  ghost predicate ClaimsOnce(s: Session, after: Session, g: nat) {
    && |s.turns| <= |after.turns|
    && (IsFinished(s, g) ==> IsFinished(after, g))
    && (forall task :: !Owns(s, g, task) && Owns(after, g, task) ==> !IsFinished(s, g) && IsFinished(after, g))
    && (TerminalOf(after, g) != TerminalOf(s, g) ==>
          && TerminalOf(s, g).None? && TerminalOf(after, g).Some?
          && (TerminalOf(after, g) == Some(Handler) || Owns(s, g, TerminalOf(after, g).value)))
  }

  // Step by step.

  predicate OwnedByCleanup(stage: Stage) {
    stage.CleanClaimed? || stage.CleanWritten?
  }

  /** The same of the turn alone, whoever owns it through its stage. */
  predicate GoesOn(t: Turn, u: Turn) {
    && (t.finished ==> u.finished)
    && (!OwnedByPrompt(t.stage) && OwnedByPrompt(u.stage) ==> !t.finished && u.finished)
    && (!OwnedByCleanup(t.stage) && OwnedByCleanup(u.stage) ==> !t.finished && u.finished)
    && (u.terminal != t.terminal ==>
          && t.terminal.None?
          && (|| (u.terminal == Some(Prompt) && OwnedByPrompt(t.stage))
              || (u.terminal == Some(Cleanup) && OwnedByCleanup(t.stage))))
  }

  lemma TurnClaims(s: Session, after: Session, g: nat)
    requires g < |s.turns| && |s.turns| <= |after.turns| && GoesOn(s.turns[g], after.turns[g])
    requires after.closer == s.closer
    ensures ClaimsOnce(s, after, g)
  {
  }

  lemma BeginClaims(s: Session, g: nat)
    requires Safe(s)
    ensures ClaimsOnce(s, BeginTurn(s), g)
  {
    var after := BeginTurn(s);
    if g < |s.turns| {
      TurnClaims(s, after, g);
    }
  }

  /** Taking the reducer moves the turn to the next stage of its task. */
  lemma TakingGoesOn(s: Session, g: nat, task: Task, kept: set<string>, stage: Stage)
    requires Holds(s, g) && GoesOn(s.turns[g], s.turns[g].(stage := stage))
    ensures var after := PrepareTerminal(s, g, task, kept, stage);
      |after.turns| == |s.turns| && GoesOn(s.turns[g], after.turns[g])
  {
    var t := s.turns[g];
    var taken := Taken(s, t, task);
    assert taken.finished == t.finished && taken.terminal == t.terminal;
    assert PrepareTerminal(s, g, task, kept, stage).turns[g] == taken.(stage := stage);
  }

  lemma PreparingGoesOn(s: Session, g: nat, task: Task, kept: set<string>, stage: Stage)
    requires g < |s.turns|
    requires GoesOn(s.turns[g], s.turns[g].(stage := stage)) && GoesOn(s.turns[g], s.turns[g].(stage := Gone))
    ensures var after := PrepareOwn(s, g, task, kept, stage);
      |after.turns| == |s.turns| && GoesOn(s.turns[g], after.turns[g])
  {
    if !Holds(s, g) {
      assert PrepareOwn(s, g, task, kept, stage) == WithStage(s, g, Gone);
    } else if MayKeep(s, kept) {
      TakingGoesOn(s, g, task, kept, stage);
    } else {
      assert PrepareOwn(s, g, task, kept, stage) == s;
    }
  }

  lemma PromptGoesOn(s: Session, g: nat, step: Step)
    requires g < |s.turns| && StageFits(s.turns[g])
    ensures var after := PromptStep(s, g, step); |after.turns| == |s.turns| && GoesOn(s.turns[g], after.turns[g])
  {
    if step.PromptPrepare? && s.turns[g].stage.Claimed? {
      PreparingGoesOn(s, g, Prompt, step.kept, Prepared(s.open.Values));
    }
  }

  lemma CleanupGoesOn(s: Session, g: nat, step: Step)
    requires g < |s.turns| && StageFits(s.turns[g])
    ensures var after := CleanupStep(s, g, step); |after.turns| == |s.turns| && GoesOn(s.turns[g], after.turns[g])
  {
    if step.CleanupPrepare? && s.turns[g].stage.Cleaning? {
      PreparingGoesOn(s, g, Cleanup, step.kept, CleanPrepared(s.open.Values));
    }
  }

  lemma StartGoesOn(s: Session, g: nat, step: Step)
    requires g < |s.turns| && StageFits(s.turns[g])
    ensures var after := StartStep(s, g, step); |after.turns| == |s.turns| && GoesOn(s.turns[g], after.turns[g])
  {
    if step.FailPrepare? && s.turns[g].stage.Reserved? {
      PreparingGoesOn(s, g, Starter, step.kept, FailPrepared);
    }
  }

  /** A step of a turn's own task, for that turn and for any other. */
  lemma OwnClaims(s: Session, step: Step, g: nat)
    requires Safe(s) && OwnTurn(step).Some? && OwnTurn(step).value < |s.turns|
    ensures ClaimsOnce(s, Next(s, step), g)
  {
    var turn, after := OwnTurn(step).value, Next(s, step);
    assert TurnFits(s, turn);
    OwnStepMoves(s, step);
    if turn == g {
      OwnGoesOn(s, step, g);
    }
    if g < |s.turns| {
      assert turn != g ==> after.turns[g] == s.turns[g];
      TurnClaims(s, after, g);
    }
  }

  lemma OwnGoesOn(s: Session, step: Step, g: nat)
    requires OwnTurn(step) == Some(g) && g < |s.turns| && StageFits(s.turns[g])
    ensures var after := Next(s, step); |after.turns| == |s.turns| && GoesOn(s.turns[g], after.turns[g])
  {
    if IsStart(step) {
      StartGoesOn(s, g, step);
    } else if IsPrompt(step) {
      PromptGoesOn(s, g, step);
    } else {
      CleanupGoesOn(s, g, step);
    }
  }

  lemma ClosePreparing(s: Session, kept: set<string>, g: nat)
    requires CloserFits(s)
    ensures ClaimsOnce(s, CloseStep(s, ClosePrepare(kept)), g)
  {
  }

  lemma CloseClaiming(s: Session, g: nat)
    requires CloserFits(s)
    ensures ClaimsOnce(s, CloseStep(s, CloseClaimTurn), g)
  {
  }

  lemma CloseWriting(s: Session, step: Step, g: nat)
    requires CloserFits(s) && (step.CloseEmit? || step.CloseCommit?)
    ensures ClaimsOnce(s, CloseStep(s, step), g)
  {
  }

  lemma CloseClaims(s: Session, step: Step, g: nat)
    requires CloserFits(s)
    ensures ClaimsOnce(s, CloseStep(s, step), g)
  {
    match step {
      case ClosePrepare(kept) => ClosePreparing(s, kept, g);
      case CloseClaimTurn => CloseClaiming(s, g);
      case CloseEmit(_) => CloseWriting(s, step, g);
      case CloseCommit => CloseWriting(s, step, g);
      case _ => CloseLeavesTurns(s, step, g);
    }
  }

  lemma CloseLeavesTurns(s: Session, step: Step, g: nat)
    requires !step.ClosePrepare? && !step.CloseClaimTurn? && !step.CloseEmit? && !step.CloseCommit?
    ensures ClaimsOnce(s, CloseStep(s, step), g)
  {
    var after := CloseStep(s, step);
    assert after.turns == s.turns;
    assert after.closer.CloseOwned? || after.closer.CloseWritten? ==> after.closer == s.closer;
  }

  /** What the handler does to a turn: its reducer taken, a closing event, its terminal. */
  predicate HandledTurn(t: Turn, u: Turn) {
    && u.stage == t.stage && u.finished == t.finished
    && (u.terminal == t.terminal || (t.terminal.None? && u.terminal == Some(Handler)))
  }

  lemma HandledClaims(s: Session, after: Session, g: nat)
    requires |after.turns| == |s.turns| && after.closer == s.closer
    requires g < |s.turns| ==> HandledTurn(s.turns[g], after.turns[g])
    ensures ClaimsOnce(s, after, g)
  {
  }

  lemma RefusingHandles(s: Session, kept: set<string>, g: nat)
    requires s.handler.Refusing?
    ensures var after := RefusePrepares(s, s.handler.turn, kept);
      && |after.turns| == |s.turns| && after.closer == s.closer
      && (g < |s.turns| ==> HandledTurn(s.turns[g], after.turns[g]))
  {
  }

  lemma RefusingWrites(s: Session, step: Step, g: nat)
    requires step.RefuseEmit? || step.RefuseCommit?
    ensures var after := HandleStep(s, step);
      && |after.turns| == |s.turns| && after.closer == s.closer
      && (g < |s.turns| ==> HandledTurn(s.turns[g], after.turns[g]))
  {
  }

  lemma HandleClaims(s: Session, step: Step, g: nat)
    ensures ClaimsOnce(s, HandleStep(s, step), g)
  {
    if step.RefusePrepare? && s.handler.Refusing? {
      RefusingHandles(s, step.kept, g);
    } else if step.RefuseEmit? || step.RefuseCommit? {
      RefusingWrites(s, step, g);
    } else {
      HandlerLeavesTurns(s, step);
    }
    HandledClaims(s, HandleStep(s, step), g);
  }

  lemma HandlerLeavesTurns(s: Session, step: Step)
    requires !step.RefuseEmit? && !step.RefuseCommit? && !(step.RefusePrepare? && s.handler.Refusing?)
    ensures HandleStep(s, step).turns == s.turns && HandleStep(s, step).closer == s.closer
  {
  }

  lemma WatchClaims(s: Session, step: Step, g: nat)
    ensures ClaimsOnce(s, WatchStep(s, step), g)
  {
    assert WatchStep(s, step).turns == s.turns && WatchStep(s, step).closer == s.closer;
  }

  lemma StepClaims(s: Session, step: Step, g: nat)
    requires Safe(s)
    ensures ClaimsOnce(s, Next(s, step), g)
  {
    if step.Begin? {
      BeginClaims(s, g);
    } else if OwnTurn(step).Some? {
      if OwnTurn(step).value < |s.turns| {
        OwnClaims(s, step, g);
      }
    } else if IsHandler(step) {
      HandleClaims(s, step, g);
    } else if IsWatcher(step) {
      WatchClaims(s, step, g);
    } else {
      CloseClaims(s, step, g);
    }
  }

  // Over a run.

  lemma {:induction false} FinishedStays(steps: seq<Step>, i: nat, g: nat)
    requires i <= |steps| && IsFinished(Run(steps[..i]), g)
    ensures IsFinished(Run(steps), g)
  {
    if i < |steps| {
      var n := |steps| - 1;
      assert steps[..n][..i] == steps[..i];
      FinishedStays(steps[..n], i, g);
      RunIsSafe(NEW_SESSION, steps[..n]);
      StepClaims(Run(steps[..n]), steps[n], g);
    } else {
      assert steps[..i] == steps;
    }
  }

  lemma ClaimFinishes(steps: seq<Step>, i: nat, g: nat, task: Task)
    requires ClaimsAt(steps, i, g, task)
    ensures !IsFinished(Run(steps[..i]), g) && IsFinished(Run(steps[..i + 1]), g)
  {
    RunIsSafe(NEW_SESSION, steps[..i]);
    StepClaims(Run(steps[..i]), steps[i], g);
    assert steps[..i + 1][..i] == steps[..i];
  }

  lemma LaterClaimFails(steps: seq<Step>, i: nat, j: nat, g: nat, a: Task, b: Task)
    requires i < j && ClaimsAt(steps, i, g, a)
    ensures !ClaimsAt(steps, j, g, b)
  {
    ClaimFinishes(steps, i, g, a);
    if ClaimsAt(steps, j, g, b) {
      StillFinished(steps, i + 1, j, g);
      ClaimFinishes(steps, j, g, b);
    }
  }

  lemma StillFinished(steps: seq<Step>, i: nat, j: nat, g: nat)
    requires i <= j <= |steps| && IsFinished(Run(steps[..i]), g)
    ensures IsFinished(Run(steps[..j]), g)
  {
    assert steps[..j][..i] == steps[..i];
    FinishedStays(steps[..j], i, g);
  }

  lemma OwnStepsLeaveTheClose(s: Session, step: Step)
    requires Safe(s) && OwnTurn(step).Some?
    ensures Next(s, step).closer == s.closer && |Next(s, step).turns| == |s.turns|
  {
    if OwnTurn(step).value < |s.turns| {
      assert TurnFits(s, OwnTurn(step).value);
      OwnStepMoves(s, step);
    }
  }

  /** A stage is one task's, so without a step of the close only one task can come to own. */
  lemma OneByStage(s: Session, after: Session, g: nat, a: Task, b: Task)
    requires after.closer == s.closer && |after.turns| == |s.turns|
    requires !Owns(s, g, a) && Owns(after, g, a) && !Owns(s, g, b) && Owns(after, g, b)
    ensures a == b
  {
  }

  /** And without a new stage only the close can. */
  lemma OneByClose(s: Session, after: Session, g: nat, a: Task, b: Task)
    requires |after.turns| == |s.turns| && (g < |s.turns| ==> after.turns[g].stage == s.turns[g].stage)
    requires !Owns(s, g, a) && Owns(after, g, a) && !Owns(s, g, b) && Owns(after, g, b)
    ensures a == b
  {
  }

  lemma OneClaimAtATime(s: Session, step: Step, g: nat, a: Task, b: Task)
    requires Safe(s) && Claims(s, step, g, a) && Claims(s, step, g, b)
    ensures a == b
  {
    var after := Next(s, step);
    if step.Begin? {
      BeginClaimsNothing(s, g, a);
    } else if OwnTurn(step).Some? {
      OwnStepsLeaveTheClose(s, step);
      OneByStage(s, after, g, a, b);
    } else {
      OthersKeepStage(s, step, g);
      OneByClose(s, after, g, a, b);
    }
  }

  lemma BeginClaimsNothing(s: Session, g: nat, task: Task)
    requires Safe(s)
    ensures Owns(BeginTurn(s), g, task) ==> Owns(s, g, task)
  {
  }

  lemma OthersKeepStage(s: Session, step: Step, g: nat)
    requires OwnTurn(step).None? && !step.Begin?
    ensures var after := Next(s, step);
      |after.turns| == |s.turns| && (g < |s.turns| ==> after.turns[g].stage == s.turns[g].stage)
  {
    if IsHandler(step) {
      HandlerKeepsStage(s, step, g);
    } else if !IsWatcher(step) {
      CloseKeepsStage(s, step, g);
    }
  }

  lemma HandlerKeepsStage(s: Session, step: Step, g: nat)
    ensures var after := HandleStep(s, step);
      |after.turns| == |s.turns| && (g < |s.turns| ==> after.turns[g].stage == s.turns[g].stage)
  {
    if step.RefusePrepare? && s.handler.Refusing? {
      RefusingHandles(s, step.kept, g);
    } else if !step.RefuseEmit? && !step.RefuseCommit? {
      HandlerLeavesTurns(s, step);
    }
  }

  lemma CloseKeepsStage(s: Session, step: Step, g: nat)
    ensures var after := CloseStep(s, step);
      |after.turns| == |s.turns| && (g < |s.turns| ==> after.turns[g].stage == s.turns[g].stage)
  {
    if step.ClosePrepare? {
      ClosePreparingKeepsStage(s, step.kept, g);
    }
  }

  lemma ClosePreparingKeepsStage(s: Session, kept: set<string>, g: nat)
    ensures var after := CloseStep(s, ClosePrepare(kept));
      |after.turns| == |s.turns| && (g < |s.turns| ==> after.turns[g].stage == s.turns[g].stage)
  {
  }

  /** However the tasks interleave, the terminal of a turn is claimed at most once, by one of them. */
  lemma TheTerminalIsClaimedOnce(steps: seq<Step>, i: nat, j: nat, g: nat, a: Task, b: Task)
    requires ClaimsAt(steps, i, g, a) && ClaimsAt(steps, j, g, b)
    ensures i == j && a == b
  {
    if i < j {
      LaterClaimFails(steps, i, j, g, a, b);
    } else if j < i {
      LaterClaimFails(steps, j, i, g, b, a);
    } else {
      RunIsSafe(NEW_SESSION, steps[..i]);
      OneClaimAtATime(Run(steps[..i]), steps[i], g, a, b);
    }
  }

  ghost predicate Claimed(steps: seq<Step>, g: nat, task: Task) {
    exists i: nat :: ClaimsAt(steps, i, g, task)
  }

  lemma ClaimedStays(steps: seq<Step>, n: nat, g: nat, task: Task)
    requires n <= |steps| && Claimed(steps[..n], g, task)
    ensures Claimed(steps, g, task)
  {
    var i: nat :| ClaimsAt(steps[..n], i, g, task);
    assert steps[..n][..i] == steps[..i];
    assert ClaimsAt(steps, i, g, task);
  }

  lemma {:induction false} OwnersClaimed(steps: seq<Step>, g: nat, task: Task)
    requires Owns(Run(steps), g, task)
    ensures Claimed(steps, g, task)
  {
    var n := |steps| - 1;
    if Owns(Run(steps[..n]), g, task) {
      OwnersClaimed(steps[..n], g, task);
      ClaimedStays(steps, n, g, task);
    } else {
      assert ClaimsAt(steps, n, g, task);
    }
  }

  /** Whoever committed a turn's terminal had claimed it, unless it was the handler, whose event was refused. */
  lemma {:induction false} OnlyTheClaimantCommits(steps: seq<Step>, g: nat, task: Task)
    requires TerminalOf(Run(steps), g) == Some(task) && task != Handler
    ensures Claimed(steps, g, task)
  {
    var n := |steps| - 1;
    RunIsSafe(NEW_SESSION, steps[..n]);
    StepClaims(Run(steps[..n]), steps[n], g);
    if TerminalOf(Run(steps[..n]), g) == Some(task) {
      OnlyTheClaimantCommits(steps[..n], g, task);
    } else {
      OwnersClaimed(steps[..n], g, task);
    }
    ClaimedStays(steps, n, g, task);
  }
}
