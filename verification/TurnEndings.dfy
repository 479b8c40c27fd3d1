/**
  When the calls a turn leaves open are sure to be closed for its host.

  Whoever may end a turn takes its reducer first, and finds in it the calls still open. Whether those are
  closed ahead of the terminal, however the tasks go on, can be told at that moment: it depends on who takes
  it, on whether the terminal was claimed already, and on who else may still come to write one.
*/
module TurnEndings {
  import opened Prelude
  import opened TurnSlot
  import opened TurnSafety
  import opened TurnLeftovers
  import opened TurnPromises

  /** A step that is the first to take the reducer of `g`, a turn some host reads, with calls still open. */
  predicate FirstTake(s: Session, step: Step, g: nat) {
    TakenTurn(s, step) == Some(g) && s.turns[g].firstBy.None? && s.turns[g].handedOut && s.open != map[]
  }

  /** However the run goes on, no terminal comes before every leftover was closed. */
  ghost predicate SureToClose(s: Session, g: nat) {
    forall more: seq<Step> :: !Lost(RunFrom(s, more), g)
  }

  /** A terminal with a leftover that was not closed before it, and so never will be. */
  predicate Lost(s: Session, g: nat) {
    g < |s.turns| && s.turns[g].terminal.Some? && !(s.turns[g].leftovers <= s.turns[g].closed)
  }

  /**
    What has to hold when the reducer is taken. The prompt task claimed the terminal before, so that only a
    refused event can still come between. The close task did not, so that nobody else may be about to claim
    it, and no event may still be refused. A cleanup and a handler cannot keep a close from coming between.
  */
  predicate MayRelyOn(s: Session, step: Step, g: nat)
    requires g < |s.turns|
  {
    match step
    case PromptPrepare(_, _) => !MayRefuse(s.handler, g)
    case ClosePrepare(_) =>
      !s.turns[g].finished && !s.turns[g].stage.Checked? && !s.turns[g].stage.Cleaning? && s.handler.Stopped?
    case _ => false
  }

  // Runs.

  lemma RunOne(s: Session, step: Step)
    ensures RunFrom(s, [step]) == Next(s, step)
  {
    assert [step][..0] == [];
  }

  lemma {:induction false} RunConcat(s: Session, first: seq<Step>, next: seq<Step>)
    ensures RunFrom(s, first + next) == RunFrom(RunFrom(s, first), next)
  {
    if next == [] {
      assert first + next == first;
    } else {
      var n := |next| - 1;
      RunConcat(s, first, next[..n]);
      assert (first + next)[..|first| + n] == first + next[..n];
    }
  }

  lemma RunNext(s: Session, step: Step, more: seq<Step>)
    ensures RunFrom(s, [step] + more) == RunFrom(Next(s, step), more)
  {
    RunConcat(s, [step], more);
    RunOne(s, step);
  }

  lemma RunTwo(s: Session, first: Step, second: Step)
    ensures RunFrom(s, [first] + [second]) == Next(Next(s, first), second)
  {
    RunNext(s, first, [second]);
    RunOne(Next(s, first), second);
  }

  // Sure to close: the prompt task.

  predicate HandlerKeepsOff(handler: HandlerTask, g: nat) {
    !MayRefuse(handler, g) && !AboutToRefuse(handler, g)
  }

  predicate CloserOwns(closer: CloseTask, g: nat) {
    closer.CloseOwned? && closer.turn == g
  }

  /** The prompt task took the reducer, and nobody else writes. */
  predicate PromptSettles(t: Turn) {
    && t.finished && t.firstBy == Some(Prompt)
    && match t.stage
       case Prepared(closing) => t.terminal.None? && t.leftovers <= closing + t.closed
       case Written | Releasing | Gone => t.leftovers <= t.closed
       case _ => false
  }

  predicate PromptAlone(s: Session, g: nat) {
    g < |s.turns| && PromptSettles(s.turns[g]) && HandlerKeepsOff(s.handler, g) && !CloserOwns(s.closer, g)
  }

  lemma PromptSettling(s: Session, g: nat, step: Step)
    requires g < |s.turns| && PromptSettles(s.turns[g])
    ensures g < |PromptStep(s, g, step).turns| && PromptSettles(PromptStep(s, g, step).turns[g])
  {
    var t := s.turns[g];
    if t.stage.Prepared? {
      assert t.stage.closing == {} ==> t.stage.closing + t.closed == t.closed;
    }
  }

  lemma PromptAloneOwn(s: Session, g: nat, step: Step)
    requires Safe(s) && PromptAlone(s, g) && OwnTurn(step).Some? && OwnTurn(step).value < |s.turns|
    ensures PromptAlone(Next(s, step), g)
  {
    var h := OwnTurn(step).value;
    assert TurnFits(s, h);
    OwnStepMoves(s, step);
    if h == g {
      if IsPrompt(step) {
        PromptSettling(s, g, step);
      } else {
        OnlyThePromptMoves(s, g, step);
      }
    }
  }

  lemma OnlyThePromptMoves(s: Session, g: nat, step: Step)
    requires g < |s.turns| && PromptSettles(s.turns[g])
    ensures StartStep(s, g, step) == s && CleanupStep(s, g, step) == s
  {
  }

  lemma PromptAloneHandled(s: Session, g: nat, step: Step)
    requires PromptAlone(s, g)
    ensures PromptAlone(HandleStep(s, step), g)
  {
  }

  lemma PromptAloneClosed(s: Session, g: nat, step: Step)
    requires PromptAlone(s, g)
    ensures PromptAlone(CloseStep(s, step), g)
  {
  }

  lemma PromptAloneStays(s: Session, g: nat, step: Step)
    requires Safe(s) && PromptAlone(s, g)
    ensures PromptAlone(Next(s, step), g)
  {
    if OwnTurn(step).Some? {
      if OwnTurn(step).value < |s.turns| {
        PromptAloneOwn(s, g, step);
      }
    } else if IsHandler(step) {
      PromptAloneHandled(s, g, step);
    } else if !step.Begin? && !IsWatcher(step) {
      PromptAloneClosed(s, g, step);
    }
  }

  lemma {:induction false} PromptAloneRuns(s: Session, g: nat, more: seq<Step>)
    requires Safe(s) && PromptAlone(s, g)
    ensures Safe(RunFrom(s, more)) && PromptAlone(RunFrom(s, more), g)
  {
    if more != [] {
      var n := |more| - 1;
      PromptAloneRuns(s, g, more[..n]);
      StepIsSafe(RunFrom(s, more[..n]), more[n]);
      PromptAloneStays(RunFrom(s, more[..n]), g, more[n]);
    }
  }

  // Sure to close: the close task.

  /** The close task took the reducer, and nobody else writes. */
  predicate CloserSettles(closer: CloseTask, g: nat, t: Turn) {
    match closer
    case ClosePrepared(turn, closing, _) =>
      turn == g && !t.finished && t.terminal.None? && t.leftovers <= closing + t.closed
    case CloseOwned(turn, closing, _) => turn == g && t.terminal.None? && t.leftovers <= closing + t.closed
    case CloseWritten(_, _) | CloseFinished(_) => t.leftovers <= t.closed
    case _ => false
  }

  predicate CloserAlone(s: Session, g: nat) {
    && g < |s.turns| && s.lifecycleClosed && s.handler.Stopped?
    && (s.turns[g].stage.Prompting? || s.turns[g].stage.Gone?)
    && CloserSettles(s.closer, g, s.turns[g])
  }

  lemma CloserSettling(s: Session, g: nat, step: Step)
    requires CloserAlone(s, g)
    ensures CloserAlone(CloseStep(s, step), g)
  {
    if s.closer.CloseOwned? {
      assert s.closer.closing == {} ==> s.closer.closing + s.turns[g].closed == s.turns[g].closed;
    }
  }

  lemma CloserAloneOwn(s: Session, g: nat, step: Step)
    requires Safe(s) && CloserAlone(s, g) && OwnTurn(step).Some? && OwnTurn(step).value < |s.turns|
    ensures CloserAlone(Next(s, step), g)
  {
    var h := OwnTurn(step).value;
    assert TurnFits(s, h);
    OwnStepMoves(s, step);
    if h == g {
      WaitingPromptStays(s, g, step);
    }
  }

  /** A prompt task that was not past its check when the session closed goes no further. */
  lemma WaitingPromptStays(s: Session, g: nat, step: Step)
    requires OwnTurn(step) == Some(g) && g < |s.turns| && s.lifecycleClosed
    requires s.turns[g].stage.Prompting? || s.turns[g].stage.Gone?
    ensures var after := Next(s, step);
      && g < |after.turns|
      && (after.turns[g] == s.turns[g] || after.turns[g] == s.turns[g].(stage := Gone))
  {
    if IsStart(step) {
      NoStarterMoves(s, g, step);
    } else if IsPrompt(step) {
      UncheckedPromptStays(s, g, step);
    } else {
      NoCleanupMoves(s, g, step);
    }
  }

  lemma NoStarterMoves(s: Session, g: nat, step: Step)
    requires g < |s.turns| && (s.turns[g].stage.Prompting? || s.turns[g].stage.Gone?)
    ensures StartStep(s, g, step) == s
  {
  }

  lemma NoCleanupMoves(s: Session, g: nat, step: Step)
    requires g < |s.turns| && (s.turns[g].stage.Prompting? || s.turns[g].stage.Gone?)
    ensures CleanupStep(s, g, step) == s
  {
  }

  lemma UncheckedPromptStays(s: Session, g: nat, step: Step)
    requires g < |s.turns| && s.lifecycleClosed && (s.turns[g].stage.Prompting? || s.turns[g].stage.Gone?)
    ensures var after := PromptStep(s, g, step); after == s || after == WithStage(s, g, Gone)
  {
  }

  lemma CloserAloneStays(s: Session, g: nat, step: Step)
    requires Safe(s) && CloserAlone(s, g)
    ensures CloserAlone(Next(s, step), g)
  {
    if OwnTurn(step).Some? {
      if OwnTurn(step).value < |s.turns| {
        CloserAloneOwn(s, g, step);
      }
    } else if !step.Begin? && !IsHandler(step) && !IsWatcher(step) {
      CloserSettling(s, g, step);
    }
  }

  lemma {:induction false} CloserAloneRuns(s: Session, g: nat, more: seq<Step>)
    requires Safe(s) && CloserAlone(s, g)
    ensures Safe(RunFrom(s, more)) && CloserAlone(RunFrom(s, more), g)
  {
    if more != [] {
      var n := |more| - 1;
      CloserAloneRuns(s, g, more[..n]);
      StepIsSafe(RunFrom(s, more[..n]), more[n]);
      CloserAloneStays(RunFrom(s, more[..n]), g, more[n]);
    }
  }

  // What is known when a reducer is first taken.

  /** Everybody is where they can be while nobody has taken the reducer of the turn in the slot. */
  predicate Untaken(s: Session, g: nat) {
    && Holds(s, g) && s.turns[g].firstBy.None? && s.turns[g].terminal.None? && s.turns[g].closed == {}
    && !AboutToRefuse(s.handler, g) && !CloserOwns(s.closer, g)
    && (s.turns[g].finished ==> s.turns[g].stage.Claimed?)
  }

  lemma NothingWasTaken(steps: seq<Step>, step: Step, g: nat)
    requires FirstTake(Run(steps), step, g)
    ensures Safe(Run(steps)) && AllTraced(Run(steps)) && Untaken(Run(steps), g)
  {
    RunTraces(steps);
    assert Traced(Run(steps), g);
  }

  /** With the close task not past taking this turn, or not begun, it may still take it over. */
  predicate CloserMayCome(closer: CloseTask, g: nat) {
    match closer
    case NotClosing | CloseClaimed => true
    case CloseRead(ending) => ending == Some(g)
    case CloseStopped(ending, _) => ending == Some(g)
    case _ => false
  }

  lemma TheCloserMayCome(s: Session, g: nat)
    requires Safe(s) && AllTraced(s) && Untaken(s, g) && !s.turns[g].finished
    ensures CloserMayCome(s.closer, g)
  {
    assert Traced(s, g);
  }

  /** The turn once its reducer was taken: what it left, and nothing closed yet. */
  predicate JustTaken(s: Session, g: nat) {
    && Holds(s, g) && s.open == map[]
    && s.turns[g].firstBy.Some? && s.turns[g].terminal.None? && s.turns[g].closed == {} && s.turns[g].leftovers != {}
  }

  lemma TakingIsJustTaken(s: Session, step: Step, g: nat)
    requires Untaken(s, g) && FirstTake(s, step, g)
    ensures var after := Next(s, step);
      && JustTaken(after, g) && after.turns[g].leftovers == s.open.Values
      && after.turns[g].finished == s.turns[g].finished && |after.turns| == |s.turns|
      && (step.PromptPrepare? ==>
            after.turns[g].stage == Prepared(s.open.Values) && after.turns[g].firstBy == Some(Prompt))
      && (step.CleanupPrepare? ==> after.turns[g].stage == CleanPrepared(s.open.Values))
      && (step.ClosePrepare? || step.RefusePrepare? ==> after.turns[g].stage == s.turns[g].stage)
      && (step.ClosePrepare? ==> after.closer == ClosePrepared(g, s.open.Values, s.closer.ok))
      && (!step.ClosePrepare? ==> after.closer == s.closer)
      && (!step.RefusePrepare? ==> after.handler == s.handler)
      && after.lifecycleClosed == s.lifecycleClosed
  {
    var id :| id in s.open;
    assert s.open[id] in s.open.Values;
  }

  /** Whoever takes the reducer of a turn after that finds none of what the turn left. */
  lemma LaterTakersFindNoLeftover(steps: seq<Step>, step: Step, g: nat)
    requires TakenTurn(Run(steps), step) == Some(g) && Run(steps).turns[g].firstBy.Some?
    ensures Run(steps).open.Values !! Run(steps).turns[g].leftovers
    ensures Next(Run(steps), step).turns[g].leftovers == Run(steps).turns[g].leftovers
  {
    RunTraces(steps);
    assert Traced(Run(steps), g);
  }

  // Lost: somebody else gets to the terminal first.

  /** An event of this turn is on its way and may be refused, or was. */
  predicate MayRefuse(handler: HandlerTask, g: nat) {
    handler == Sending(g) || handler == Refusing(g)
  }

  lemma NothingMayBeKept(s: Session)
    requires s.open == map[]
    ensures MayKeep(s, {}) && s.open.Values == {}
  {
  }

  lemma PromptMayCommit(s: Session, g: nat) returns (more: seq<Step>)
    requires JustTaken(s, g) && s.turns[g].stage.Claimed?
    ensures Lost(RunFrom(s, more), g)
  {
    NothingMayBeKept(s);
    more := [PromptPrepare(g, {})] + [PromptCommit(g, false)];
    RunNext(s, PromptPrepare(g, {}), [PromptCommit(g, false)]);
    RunOne(Next(s, PromptPrepare(g, {})), PromptCommit(g, false));
  }

  lemma PromptMayClaim(s: Session, g: nat) returns (more: seq<Step>)
    requires JustTaken(s, g) && s.turns[g].stage.Checked? && !s.turns[g].finished
    ensures Lost(RunFrom(s, more), g)
  {
    var claimed := Next(s, PromptClaim(g));
    var rest := PromptMayCommit(claimed, g);
    more := [PromptClaim(g)] + rest;
    RunNext(s, PromptClaim(g), rest);
  }

  lemma CleanupTakesNothing(s: Session, g: nat)
    requires JustTaken(s, g) && s.turns[g].stage.Cleaning?
    ensures CleanupStep(s, g, CleanupPrepare(g, {}))
      == s.(turns := s.turns[g := s.turns[g].(stage := CleanPrepared({}))], closedCalls := {})
  {
    NothingMayBeKept(s);
  }

  lemma CleanupEndsNothing(s: Session, g: nat)
    requires g < |s.turns| && s.turns[g].stage == CleanPrepared({}) && !s.turns[g].finished
    requires s.turns[g].terminal.None? && s.turns[g].leftovers != {} && s.turns[g].closed == {}
    ensures Lost(CleanupStep(CleanupStep(s, g, CleanupClaim(g)), g, CleanupCommit(g)), g)
  {
    var t := s.turns[g].(stage := CleanClaimed({}), finished := true);
    assert CleanupStep(s, g, CleanupClaim(g)) == s.(turns := s.turns[g := t]);
  }

  lemma CleanupMayCommit(s: Session, g: nat) returns (more: seq<Step>)
    requires JustTaken(s, g) && s.turns[g].stage.Cleaning? && !s.turns[g].finished
    ensures Lost(RunFrom(s, more), g)
  {
    var taken := CleanupStep(s, g, CleanupPrepare(g, {}));
    more := [CleanupPrepare(g, {})] + ([CleanupClaim(g)] + [CleanupCommit(g)]);
    RunNext(s, CleanupPrepare(g, {}), [CleanupClaim(g)] + [CleanupCommit(g)]);
    RunTwo(taken, CleanupClaim(g), CleanupCommit(g));
    CleanupTakesNothing(s, g);
    CleanupEndsNothing(taken, g);
    assert |CleanupStep(taken, g, CleanupClaim(g)).turns| == |taken.turns|;
  }

  lemma RefusingNothing(s: Session, g: nat)
    requires JustTaken(s, g) && s.handler == Refusing(g)
    ensures Lost(HandleStep(HandleStep(s, RefusePrepare({})), RefuseCommit), g)
  {
    NothingMayBeKept(s);
    var taken := HandleStep(s, RefusePrepare({}));
    assert taken.handler == RefusePrepared(g, {}) && taken.turns[g] == s.turns[g];
  }

  lemma HandlerMayCommit(s: Session, g: nat) returns (more: seq<Step>)
    requires JustTaken(s, g) && MayRefuse(s.handler, g)
    ensures Lost(RunFrom(s, more), g)
    decreases s.handler.Sending?
  {
    if s.handler == Refusing(g) {
      more := [RefusePrepare({})] + [RefuseCommit];
      RunTwo(s, RefusePrepare({}), RefuseCommit);
      RefusingNothing(s, g);
    } else {
      var refused := HandleStep(s, EmitEvent(true));
      assert JustTaken(refused, g) && refused.handler == Refusing(g);
      var rest := HandlerMayCommit(refused, g);
      more := [EmitEvent(true)] + rest;
      RunNext(s, EmitEvent(true), rest);
    }
  }

  /** The close task comes, claims the terminal, and ends the turn with nothing in its hand. */
  lemma CloserMayCommit(s: Session, g: nat) returns (more: seq<Step>)
    requires JustTaken(s, g) && !s.turns[g].finished && CloserMayCome(s.closer, g)
    ensures Lost(RunFrom(s, more), g)
    decreases
      if s.closer.NotClosing? then 3 else if s.closer.CloseClaimed? then 2 else if s.closer.CloseRead? then 1 else 0
  {
    if s.closer.CloseStopped? {
      more := StoppedCloserCommits(s, g);
    } else {
      var step :=
        if s.closer.NotClosing? then CloseClaim else if s.closer.CloseClaimed? then CloseReadTurn else CloseStop(true);
      var rest := CloserMayCommit(Next(s, step), g);
      more := [step] + rest;
      RunNext(s, step, rest);
    }
  }

  lemma StoppedCloserCommits(s: Session, g: nat) returns (more: seq<Step>)
    requires JustTaken(s, g) && !s.turns[g].finished && s.closer.CloseStopped? && s.closer.ending == Some(g)
    ensures Lost(RunFrom(s, more), g)
  {
    var taken := s.(closer := ClosePrepared(g, {}, s.closer.ok), closedCalls := {});
    more := [ClosePrepare({})] + ([CloseClaimTurn] + [CloseCommit]);
    assert RunFrom(s, more) == RunFrom(taken, [CloseClaimTurn] + [CloseCommit]) by {
      RunNext(s, ClosePrepare({}), [CloseClaimTurn] + [CloseCommit]);
      TakingNothing(s, g);
    }
    RunTwo(taken, CloseClaimTurn, CloseCommit);
    ClaimingNothing(taken, g);
  }

  lemma TakingNothing(s: Session, g: nat)
    requires JustTaken(s, g) && s.closer.CloseStopped? && s.closer.ending == Some(g)
    ensures CloseStep(s, ClosePrepare({})) == s.(closer := ClosePrepared(g, {}, s.closer.ok), closedCalls := {})
  {
    NothingMayBeKept(s);
    assert s.turns[g := s.turns[g]] == s.turns;
  }

  lemma ClaimingNothing(s: Session, g: nat)
    requires s.closer.ClosePrepared? && s.closer.turn == g && s.closer.closing == {} && g < |s.turns|
    requires !s.turns[g].finished && s.turns[g].terminal.None?
    requires s.turns[g].leftovers != {} && s.turns[g].closed == {}
    ensures Lost(CloseStep(CloseStep(s, CloseClaimTurn), CloseCommit), g)
  {
    var claimed := CloseStep(s, CloseClaimTurn);
    assert claimed.closer == CloseOwned(g, {}, s.closer.ok);
    assert claimed.turns == s.turns[g := s.turns[g].(finished := true)];
  }

  // Lost: a frame's event is refused in between.

  /** A handler that is not stopped, and not in the middle of failing this turn. */
  ghost predicate HandlerMayCome(s: Session, g: nat) {
    && Safe(s) && JustTaken(s, g) && !s.turns[g].finished
    && !s.handler.Stopped? && !AboutToRefuse(s.handler, g)
  }

  /** How many steps at most the handler is from an event of this turn. */
  function Distance(handler: HandlerTask, g: nat): nat {
    if MayRefuse(handler, g) then 0
    else
      match handler
      case Passed(turn, _) => if turn == g then 2 else 5
      case Captured(current, frame) => if current == Some(g) && frame.Opens? then 3 else 6
      case Idle => 4
      case Emitting(turn) => if turn == g then 1 else 5
      case Sending(_) => 6
      case Refusing(_) => 6
      case RefusePrepared(_, closing) => 5 + |closing|
      case Stopped => 0
  }

  function OnItsWay(s: Session, call: nat): Step {
    match s.handler
    case Idle => Capture(Opens(""))
    case Captured(_, _) => LateCheck
    case Passed(_, _) => Reduce(false)
    case Emitting(_) => EmitCheck(true)
    case Sending(_) => EmitEvent(false)
    case Refusing(_) => RefusePrepare({})
    case RefusePrepared(_, closing) => if closing == {} then RefuseCommit else RefuseEmit(call)
    case Stopped => RefuseCommit
  }

  /** The steps on the way change nothing of this turn. */
  lemma OnlyTheHandlerMoves(s: Session, g: nat, step: Step)
    requires HandlerMayCome(s, g) && !MayRefuse(s.handler, g) && HandlersWay(s, step)
    ensures var after := HandleStep(s, step);
      && g < |after.turns| && after.turns[g] == s.turns[g] && after.slot == s.slot && after.open == map[]
  {
    NothingMayBeKept(s);
  }

  predicate HandlersWay(s: Session, step: Step) {
    match s.handler
    case Idle => step == Capture(Opens(""))
    case Captured(_, _) => step == LateCheck
    case Passed(_, _) => step == Reduce(false)
    case Emitting(_) => step == EmitCheck(true)
    case Sending(_) => step == EmitEvent(false)
    case Refusing(_) => step == RefusePrepare({})
    case RefusePrepared(_, closing) =>
      if closing == {} then step == RefuseCommit else step.RefuseEmit? && step.call in closing
    case Stopped => false
  }

  lemma FrameDistanceShrinks(s: Session, g: nat, step: Step)
    requires HandlerMayCome(s, g) && !MayRefuse(s.handler, g) && HandlersWay(s, step)
    requires s.handler.Idle? || s.handler.Captured? || s.handler.Sending?
    ensures var after := HandleStep(s, step).handler;
      !after.Stopped? && !AboutToRefuse(after, g) && Distance(after, g) < Distance(s.handler, g)
  {
  }

  lemma EmitDistanceShrinks(s: Session, g: nat)
    requires HandlerMayCome(s, g) && s.handler.Emitting?
    ensures var after := HandleStep(s, EmitCheck(true)).handler;
      !after.Stopped? && !AboutToRefuse(after, g) && Distance(after, g) < Distance(s.handler, g)
  {
    if s.handler.turn != g && !s.turns[s.handler.turn].finished {
      UnfinishedIsCurrent(s, s.handler.turn);
    }
  }

  lemma ReduceDistanceShrinks(s: Session, g: nat)
    requires HandlerMayCome(s, g) && s.handler.Passed?
    ensures var after := HandleStep(s, Reduce(false)).handler;
      !after.Stopped? && !AboutToRefuse(after, g) && Distance(after, g) < Distance(s.handler, g)
  {
    if s.handler.turn != g && !s.turns[s.handler.turn].finished {
      UnfinishedIsCurrent(s, s.handler.turn);
    }
  }

  lemma RefusalDistanceShrinks(s: Session, g: nat, step: Step)
    requires HandlerMayCome(s, g) && !MayRefuse(s.handler, g) && HandlersWay(s, step)
    requires s.handler.Refusing? || s.handler.RefusePrepared?
    ensures var after := HandleStep(s, step).handler;
      !after.Stopped? && !AboutToRefuse(after, g) && Distance(after, g) < Distance(s.handler, g)
  {
    if s.handler.RefusePrepared? && s.handler.closing != {} {
      assert |s.handler.closing - {step.call}| == |s.handler.closing| - 1;
    }
  }

  lemma DistanceShrinks(s: Session, g: nat, step: Step)
    requires HandlerMayCome(s, g) && !MayRefuse(s.handler, g) && HandlersWay(s, step)
    ensures var after := HandleStep(s, step).handler;
      !after.Stopped? && !AboutToRefuse(after, g) && Distance(after, g) < Distance(s.handler, g)
  {
    match s.handler
    case Passed(_, _) => ReduceDistanceShrinks(s, g);
    case Emitting(_) => EmitDistanceShrinks(s, g);
    case Refusing(_) => RefusalDistanceShrinks(s, g, step);
    case RefusePrepared(_, _) => RefusalDistanceShrinks(s, g, step);
    case _ => FrameDistanceShrinks(s, g, step);
  }

  lemma Nearer(s: Session, g: nat, step: Step)
    requires HandlerMayCome(s, g) && !MayRefuse(s.handler, g) && HandlersWay(s, step)
    ensures HandlerMayCome(Next(s, step), g) && Distance(Next(s, step).handler, g) < Distance(s.handler, g)
  {
    HandleIsSafe(s, step);
    OnlyTheHandlerMoves(s, g, step);
    DistanceShrinks(s, g, step);
    StillMayCome(s, HandleStep(s, step), g);
    HandlersWayIsHandled(s, step);
  }

  lemma StillMayCome(s: Session, after: Session, g: nat)
    requires HandlerMayCome(s, g) && Safe(after)
    requires g < |after.turns| && after.turns[g] == s.turns[g] && after.slot == s.slot && after.open == map[]
    requires !after.handler.Stopped? && !AboutToRefuse(after.handler, g)
    ensures HandlerMayCome(after, g)
  {
  }

  lemma HandlersWayIsHandled(s: Session, step: Step)
    requires HandlersWay(s, step)
    ensures Next(s, step) == HandleStep(s, step)
  {
  }

  /** Some frame's event is refused, and the handler fails the turn. */
  lemma RefusalMayCome(s: Session, g: nat) returns (more: seq<Step>)
    requires HandlerMayCome(s, g)
    ensures Lost(RunFrom(s, more), g)
    decreases Distance(s.handler, g)
  {
    if MayRefuse(s.handler, g) {
      more := HandlerMayCommit(s, g);
    } else {
      var call: nat := 0;
      if s.handler.RefusePrepared? && s.handler.closing != {} {
        call :| call in s.handler.closing;
      }
      var step := OnItsWay(s, call);
      Nearer(s, g, step);
      var rest := RefusalMayCome(Next(s, step), g);
      more := [step] + rest;
      RunNext(s, step, rest);
    }
  }

  // The exact condition.

  lemma RelyingOnThePrompt(s: Session, step: Step, g: nat)
    requires Safe(s) && AllTraced(s) && Untaken(s, g) && FirstTake(s, step, g) && step.PromptPrepare?
    ensures MayRelyOn(s, step, g) ==> SureToClose(Next(s, step), g)
    ensures !MayRelyOn(s, step, g) ==> !SureToClose(Next(s, step), g)
  {
    var after := Next(s, step);
    assert TurnFits(s, g);
    TakingIsJustTaken(s, step, g);
    StepIsSafe(s, step);
    if MayRelyOn(s, step, g) {
      forall more: seq<Step>
        ensures !Lost(RunFrom(after, more), g)
      {
        PromptAloneRuns(after, g, more);
      }
    } else {
      var more := HandlerMayCommit(after, g);
    }
  }

  lemma RelyingOnTheCloser(s: Session, step: Step, g: nat)
    requires Safe(s) && AllTraced(s) && Untaken(s, g) && FirstTake(s, step, g) && step.ClosePrepare?
    ensures MayRelyOn(s, step, g) ==> SureToClose(Next(s, step), g)
    ensures !MayRelyOn(s, step, g) ==> !SureToClose(Next(s, step), g)
  {
    var after := Next(s, step);
    assert TurnFits(s, g) && Traced(s, g);
    TakingIsJustTaken(s, step, g);
    StepIsSafe(s, step);
    if MayRelyOn(s, step, g) {
      forall more: seq<Step>
        ensures !Lost(RunFrom(after, more), g)
      {
        CloserAloneRuns(after, g, more);
      }
    } else {
      var more := SomebodyElseCommits(after, g);
    }
  }

  lemma SomebodyElseCommits(s: Session, g: nat) returns (more: seq<Step>)
    requires Safe(s) && JustTaken(s, g) && !AboutToRefuse(s.handler, g)
    requires (s.turns[g].finished ==> s.turns[g].stage.Claimed?)
    requires s.turns[g].finished || s.turns[g].stage.Checked? || s.turns[g].stage.Cleaning? || !s.handler.Stopped?
    ensures Lost(RunFrom(s, more), g)
  {
    if s.turns[g].finished {
      more := PromptMayCommit(s, g);
    } else if s.turns[g].stage.Checked? {
      more := PromptMayClaim(s, g);
    } else if s.turns[g].stage.Cleaning? {
      more := CleanupMayCommit(s, g);
    } else {
      more := RefusalMayCome(s, g);
    }
  }

  lemma NobodyElseIsRelied(s: Session, step: Step, g: nat)
    requires Safe(s) && AllTraced(s) && Untaken(s, g) && FirstTake(s, step, g)
    requires step.CleanupPrepare? || step.RefusePrepare?
    ensures !SureToClose(Next(s, step), g)
  {
    var after := Next(s, step);
    TakingIsJustTaken(s, step, g);
    if s.turns[g].finished {
      var more := PromptMayCommit(after, g);
    } else {
      TheCloserMayCome(s, g);
      var more := CloserMayCommit(after, g);
    }
  }

  /**
    At the step that first takes the reducer of a turn with calls open: those calls are closed ahead of the
    turn's terminal, however the run goes on, exactly when that task may be relied on. Otherwise some run goes
    on to a terminal before which one of them was never closed.
  */
  lemma LeftoversAreClosedIff(steps: seq<Step>, step: Step, g: nat)
    requires FirstTake(Run(steps), step, g)
    ensures SureToClose(Next(Run(steps), step), g) <==> MayRelyOn(Run(steps), step, g)
  {
    var s := Run(steps);
    NothingWasTaken(steps, step, g);
    assert TurnFits(s, g);
    match step
    case PromptPrepare(_, _) => RelyingOnThePrompt(s, step, g);
    case ClosePrepare(_) => RelyingOnTheCloser(s, step, g);
    case _ => NobodyElseIsRelied(s, step, g);
  }
}
