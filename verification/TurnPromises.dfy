/**
  What the turn protocol promises, over every interleaving of the tasks that act on a session, and where
  two of its paths break what a host would expect.
*/
module TurnPromises {
  import opened Prelude
  import opened TurnSlot
  import opened TurnSafety
  import opened TurnLeftovers

  lemma RunIsSafeFromStart(steps: seq<Step>)
    ensures Safe(Run(steps))
  {
    RunIsSafe(NEW_SESSION, steps);
  }

  /**
    A prompt, cleanup or starting task of one turn never ends or releases another: its steps change no
    other turn's record, give the slot back only from that turn, and take the reducer only while that turn
    is the last that began.
  */
  lemma OwnStepsTouchOnlyTheirTurn(steps: seq<Step>, step: Step)
    requires OwnTurn(step).Some?
    ensures var s := Run(steps);
      var after := Next(s, step);
      var g := OwnTurn(step).value;
      && |after.turns| == |s.turns|
      && (forall other: nat | other < |s.turns| && other != g :: after.turns[other] == s.turns[other])
      && (after.slot == s.slot || (s.slot == Some(g) && after.slot.None?))
      && (after.open != s.open ==> s.slot == Some(g) && g + 1 == |s.turns|)
  {
    RunIsSafeFromStart(steps);
    var s := Run(steps);
    var g := OwnTurn(step).value;
    if g < |s.turns| {
      assert TurnFits(s, g);
      OwnStepMoves(s, step);
      OwnStepTakes(s, step);
    }
  }

  lemma OwnStepTakes(s: Session, step: Step)
    requires OwnTurn(step).Some? && OwnTurn(step).value < |s.turns|
    ensures Next(s, step).open != s.open ==> s.slot == OwnTurn(step)
  {
    var g := OwnTurn(step).value;
    if IsStart(step) {
      StartTakes(s, g, step);
    } else if IsPrompt(step) {
      PromptTakes(s, g, step);
    } else {
      CleanupTakes(s, g, step);
    }
  }

  lemma StartTakes(s: Session, g: nat, step: Step)
    requires g < |s.turns|
    ensures StartStep(s, g, step).open != s.open ==> s.slot == Some(g)
  {
  }

  lemma PromptTakes(s: Session, g: nat, step: Step)
    requires g < |s.turns|
    ensures PromptStep(s, g, step).open != s.open ==> s.slot == Some(g)
  {
  }

  lemma CleanupTakes(s: Session, g: nat, step: Step)
    requires g < |s.turns|
    ensures CleanupStep(s, g, step).open != s.open ==> s.slot == Some(g)
  {
  }

  /** A turn whose stream a host was given leaves the slot only after its terminal was committed. */
  lemma HandedOutTurnsLeaveWithTheirTerminal(steps: seq<Step>, g: nat)
    requires g < |Run(steps).turns| && Run(steps).turns[g].handedOut && Run(steps).slot != Some(g)
    ensures Run(steps).turns[g].terminal.Some? && Run(steps).turns[g].finished
  {
    RunIsSafeFromStart(steps);
    assert TurnFits(Run(steps), g);
  }

  /** Once `Closed` was published the slot is empty, and no turn ever takes it again. */
  lemma {:induction false} ClosedIsForever(s: Session, more: seq<Step>)
    requires Safe(s) && s.published
    ensures var after := RunFrom(s, more);
      Safe(after) && after.published && after.slot.None? && |after.turns| == |s.turns|
  {
    if more != [] {
      var n := |more| - 1;
      ClosedIsForever(s, more[..n]);
      var mid := RunFrom(s, more[..n]);
      StepIsSafe(mid, more[n]);
      PublishedStays(mid, more[n]);
    }
  }

  lemma PublishedStays(s: Session, step: Step)
    requires Safe(s) && s.published
    ensures Next(s, step).published && |Next(s, step).turns| == |s.turns|
  {
    if OwnTurn(step).Some? && OwnTurn(step).value < |s.turns| {
      assert TurnFits(s, OwnTurn(step).value);
      OwnStepMoves(s, step);
    } else if IsHandler(step) {
      HandlerPublishes(s, step);
    }
  }

  lemma HandlerPublishes(s: Session, step: Step)
    ensures HandleStep(s, step).published == s.published && |HandleStep(s, step).turns| == |s.turns|
  {
  }

  /** Who may publish it: the close task or the watcher, and each only over an empty slot. */
  lemma ClosedIsPublishedOverAnEmptySlot(steps: seq<Step>)
    requires Run(steps).published
    ensures Run(steps).slot.None? && (Run(steps).admissionClosed || Run(steps).lifecycleClosed)
  {
    RunIsSafeFromStart(steps);
  }

  /** No frame is ever reduced into a turn other than the one the handler read it for. */
  lemma FramesReachTheirOwnTurn(steps: seq<Step>, i: nat)
    requires i < |Run(steps).reduced|
    ensures Run(steps).reduced[i].captured == Run(steps).reduced[i].owner
  {
    RunIsSafeFromStart(steps);
    assert Run(steps).reduced[i] in Run(steps).reduced;
  }

  /** A frame for a turn whose terminal was claimed opens no call, reaches no turn and has nothing to emit. */
  lemma AFinishedTurnIsLeftAlone(s: Session, staysOpen: bool)
    requires s.handler.Passed? && s.handler.turn < |s.turns| && s.turns[s.handler.turn].finished
    ensures Next(s, Reduce(staysOpen)) == s.(handler := Idle)
  {
  }

  // A late frame for a call the previous turn closed.

  /** The turn whose reducer a step takes, and what is remembered of it: nothing when its guards fail. */
  function TakenTurn(s: Session, step: Step): Option<nat> {
    var turn :=
      match step
      case FailPrepare(g, _) => if StageOf(s, g).Reserved? then Some(g) else None
      case PromptPrepare(g, _) => if StageOf(s, g).Claimed? then Some(g) else None
      case CleanupPrepare(g, _) => if StageOf(s, g).Cleaning? then Some(g) else None
      case ClosePrepare(_) => if s.closer.CloseStopped? then s.closer.ending else None
      case RefusePrepare(_) => if s.handler.Refusing? then Some(s.handler.turn) else None
      case _ => None;
    if turn.Some? && Holds(s, turn.value) && MayKeep(s, Kept(step)) then turn else None
  }

  function Kept(step: Step): set<string> {
    match step
    case FailPrepare(_, kept) => kept
    case PromptPrepare(_, kept) => kept
    case CleanupPrepare(_, kept) => kept
    case ClosePrepare(kept) => kept
    case RefusePrepare(kept) => kept
    case _ => {}
  }

  lemma TakingReplacesWhatIsRemembered(s: Session, step: Step)
    requires TakenTurn(s, step).Some?
    ensures var after := Next(s, step);
      && after.closedCalls == Kept(step) && after.reduced == s.reduced
      && (after.handler == s.handler || after.handler.RefusePrepared?)
  {
  }

  /** The handler lets a `tool_call` frame for `id` through. */
  predicate ReusesId(s: Session, step: Step, id: string) {
    step.LateCheck? && s.handler.Captured? && s.handler.frame == Opens(id)
  }

  /** Along `steps` no reducer is taken again and the id is not reused. */
  predicate Undisturbed(s: Session, steps: seq<Step>, id: string) {
    if steps == [] then true
    else
      var n := |steps| - 1;
      var mid := RunFrom(s, steps[..n]);
      Undisturbed(s, steps[..n], id) && TakenTurn(mid, steps[n]).None? && !ReusesId(mid, steps[n], id)
  }

  /** The id is remembered, and a frame already past the check was read for turn `g` or before. */
  predicate Remembers(s: Session, g: nat, id: string) {
    && id in s.closedCalls
    && (s.handler.Passed? && s.handler.frame == Updates(id) ==> s.handler.turn <= g)
  }

  /** Since `from`, updates of `id` were reduced in turn `g` or before only. */
  ghost predicate OnlyOlder(reduced: seq<Reduced>, from: nat, g: nat, id: string) {
    forall i :: from <= i < |reduced| && reduced[i].frame == Updates(id) ==> reduced[i].owner <= g
  }

  /** What a step adds to the reduced frames: at most one, which is not a late update of `id`. */
  predicate AddsOlder(s: Session, after: Session, g: nat, id: string) {
    || after.reduced == s.reduced
    || (s.handler.Passed?
        && after.reduced == s.reduced + [Reduced(s.handler.turn, s.handler.turn, s.handler.frame)]
        && (s.handler.frame == Updates(id) ==> s.handler.turn <= g))
  }

  lemma RememberingStep(s: Session, g: nat, id: string, step: Step)
    requires Safe(s) && Remembers(s, g, id)
    requires TakenTurn(s, step).None? && !ReusesId(s, step, id)
    ensures Remembers(Next(s, step), g, id) && AddsOlder(s, Next(s, step), g, id)
  {
    if step.Reduce? && s.handler.Passed? {
      ReducesForItsOwner(s, step);
    } else if OwnTurn(step).Some? {
      OwnStepRemembers(s, step);
    } else if IsHandler(step) {
      HandlerRemembers(s, g, id, step);
    } else {
      OthersRemember(s, step);
    }
  }

  /** What a step remembers of closed calls and of frames is as it was. */
  predicate Recalls(s: Session, after: Session) {
    after.closedCalls == s.closedCalls && after.handler == s.handler && after.reduced == s.reduced
  }

  lemma OthersRemember(s: Session, step: Step)
    requires OwnTurn(step).None? && !IsHandler(step) && TakenTurn(s, step).None?
    ensures Recalls(s, Next(s, step))
  {
    if IsWatcher(step) {
      assert Recalls(s, WatchStep(s, step));
    } else if !step.Begin? {
      CloserRecalls(s, step);
    }
  }

  lemma CloserRecalls(s: Session, step: Step)
    requires TakenTurn(s, step).None?
    ensures Recalls(s, CloseStep(s, step))
  {
  }

  lemma HandlerRemembers(s: Session, g: nat, id: string, step: Step)
    requires IsHandler(step) && !(step.Reduce? && s.handler.Passed?)
    requires Remembers(s, g, id) && TakenTurn(s, step).None? && !ReusesId(s, step, id)
    ensures Remembers(HandleStep(s, step), g, id) && HandleStep(s, step).reduced == s.reduced
  {
  }

  lemma ReducesForItsOwner(s: Session, step: Step)
    requires Safe(s) && step.Reduce? && s.handler.Passed?
    ensures var after := HandleStep(s, step);
      && after.closedCalls == s.closedCalls && !after.handler.Passed?
      && (after.reduced == s.reduced
          || after.reduced == s.reduced + [Reduced(s.handler.turn, s.handler.turn, s.handler.frame)])
  {
    var g := s.handler.turn;
    if !s.turns[g].finished {
      UnfinishedIsCurrent(s, g);
    }
  }

  lemma OwnStepRemembers(s: Session, step: Step)
    requires OwnTurn(step).Some? && TakenTurn(s, step).None?
    ensures Recalls(s, Next(s, step))
  {
    var g := OwnTurn(step).value;
    if g < |s.turns| {
      if IsStart(step) {
        StarterRecalls(s, g, step);
      } else if IsPrompt(step) {
        PromptRecalls(s, g, step);
      } else {
        CleanupRecalls(s, g, step);
      }
    }
  }

  lemma StarterRecalls(s: Session, g: nat, step: Step)
    requires g < |s.turns| && OwnTurn(step) == Some(g) && TakenTurn(s, step).None?
    ensures Recalls(s, StartStep(s, g, step))
  {
  }

  lemma PromptRecalls(s: Session, g: nat, step: Step)
    requires g < |s.turns| && OwnTurn(step) == Some(g) && TakenTurn(s, step).None?
    ensures Recalls(s, PromptStep(s, g, step))
  {
  }

  lemma CleanupRecalls(s: Session, g: nat, step: Step)
    requires g < |s.turns| && OwnTurn(step) == Some(g) && TakenTurn(s, step).None?
    ensures Recalls(s, CleanupStep(s, g, step))
  {
  }

  lemma {:induction false} RememberingRun(s: Session, g: nat, id: string, steps: seq<Step>)
    requires Safe(s) && Remembers(s, g, id) && Undisturbed(s, steps, id)
    ensures Safe(RunFrom(s, steps)) && Remembers(RunFrom(s, steps), g, id)
    ensures |s.reduced| <= |RunFrom(s, steps).reduced| && OnlyOlder(RunFrom(s, steps).reduced, |s.reduced|, g, id)
  {
    if steps != [] {
      var n := |steps| - 1;
      RememberingRun(s, g, id, steps[..n]);
      var mid := RunFrom(s, steps[..n]);
      StepIsSafe(mid, steps[n]);
      RememberingStep(mid, g, id, steps[n]);
      OlderExtends(mid, RunFrom(s, steps), |s.reduced|, g, id);
    }
  }

  lemma OlderExtends(mid: Session, after: Session, from: nat, g: nat, id: string)
    requires OnlyOlder(mid.reduced, from, g, id) && AddsOlder(mid, after, g, id) && from <= |mid.reduced|
    ensures OnlyOlder(after.reduced, from, g, id) && |mid.reduced| <= |after.reduced|
  {
  }

  /**
    Turn isolation. A step takes the reducer of turn `g` with at most 256 calls open. Then, as long as no
    reducer is taken again and the agent does not reuse the id, no update of one of those calls is ever
    reduced in a later turn.
  */
  lemma LateUpdatesNeverReachALaterTurn(steps: seq<Step>, step: Step, g: nat, id: string, more: seq<Step>)
    requires TakenTurn(Run(steps), step) == Some(g)
    requires |Run(steps).open| <= CLOSED_CALLS_KEPT && id in Run(steps).open
    requires Undisturbed(Next(Run(steps), step), more, id)
    ensures var s := Next(Run(steps), step);
      OnlyOlder(RunFrom(s, more).reduced, |s.reduced|, g, id)
  {
    RunIsSafeFromStart(steps);
    var s := Run(steps);
    StepIsSafe(s, step);
    TakingReplacesWhatIsRemembered(s, step);
    KeepsAll(s.open.Keys, Kept(step));
    RememberingRun(Next(s, step), g, id, more);
  }

  lemma KeepsAll(open: set<string>, kept: set<string>)
    requires kept <= open && |kept| == |open|
    ensures kept == open
  {
    var rest := open - kept;
    assert open == kept + rest;
    assert |open| == |kept| + |rest|;
  }

  /** A late update reaches the running turn exactly when its id is not remembered. */
  lemma LateUpdateReachesTheTurnIffForgotten(steps: seq<Step>, g: nat, id: string, staysOpen: bool)
    requires var s := Run(steps); Holds(s, g) && s.handler.Idle? && !s.turns[g].finished
    ensures var s := Run(steps);
      var after := Next(Next(Next(s, Capture(Updates(id))), LateCheck), Reduce(staysOpen));
      after.reduced == s.reduced + (if id in s.closedCalls then [] else [Reduced(g, g, Updates(id))])
  {
    RunIsSafeFromStart(steps);
    var s := Run(steps);
    UnfinishedIsCurrent(s, g);
    var captured := Next(s, Capture(Updates(id)));
    assert captured == s.(handler := Captured(Some(g), Updates(id)));
    var checked := Next(captured, LateCheck);
    assert checked == s.(handler := if id in s.closedCalls then Idle else Passed(g, Updates(id)));
    assert s.reduced + [] == s.reduced;
  }

  // Two runs in which a reducer is taken twice.

  function Then(s: Session, first: Step, second: Step): Session {
    Next(Next(s, first), second)
  }

  lemma Extend(steps: seq<Step>, step: Step)
    ensures Run(steps + [step]) == Next(Run(steps), step)
  {
  }

  lemma ExtendTwice(steps: seq<Step>, first: Step, second: Step)
    ensures Run(steps + [first] + [second]) == Then(Run(steps), first, second)
  {
    Extend(steps, first);
    Extend(steps + [first], second);
  }

  const PROMPTED := NEW_TURN.(stage := Prompting, handedOut := true)

  /** One turn running, in which the agent opened the call "c". */
  function CallOpen(handler: HandlerTask): Session {
    NEW_SESSION.(
      slot := Some(0), turns := [PROMPTED], open := map["c" := 0], nextCall := 1,
      handler := handler, reduced := [Reduced(0, 0, Opens("c"))])
  }

  lemma SomeRunPrompts() returns (steps: seq<Step>)
    ensures Run(steps) == RUNNING
  {
    assert Run([]) == NEW_SESSION;
    ExtendTwice([], Begin, Submit(0, false));
    steps := [] + [Begin] + [Submit(0, false)];
  }

  /** The one turn running. */
  const RUNNING := NEW_SESSION.(slot := Some(0), turns := [PROMPTED])

  lemma FrameOpensACall()
    ensures Then(Then(RUNNING, Capture(Opens("c")), LateCheck), Reduce(true), EmitCheck(true)) == CallOpen(Sending(0))
  {
    var captured := Next(RUNNING, Capture(Opens("c")));
    assert captured == RUNNING.(handler := Captured(Some(0), Opens("c")));
    var passed := Next(captured, LateCheck);
    assert {} - {"c"} == {};
    assert passed == RUNNING.(handler := Passed(0, Opens("c")));
    assert [] + [Reduced(0, 0, Opens("c"))] == [Reduced(0, 0, Opens("c"))];
    assert Next(passed, Reduce(true)) == CallOpen(Emitting(0));
  }

  lemma SomeRunSendsACall() returns (steps: seq<Step>)
    ensures Run(steps) == CallOpen(Sending(0))
  {
    var prompted := SomeRunPrompts();
    var passed := prompted + [Capture(Opens("c"))] + [LateCheck];
    ExtendTwice(prompted, Capture(Opens("c")), LateCheck);
    ExtendTwice(passed, Reduce(true), EmitCheck(true));
    steps := passed + [Reduce(true)] + [EmitCheck(true)];
    FrameOpensACall();
  }

  lemma EventGoesOut()
    ensures Next(CallOpen(Sending(0)), EmitEvent(true)) == CallOpen(Refusing(0))
    ensures Then(CallOpen(Sending(0)), EmitEvent(false), EmitCheck(false)) == CallOpen(Idle)
  {
    assert Next(CallOpen(Sending(0)), EmitEvent(false)) == CallOpen(Emitting(0));
  }

  lemma SomeRunOpensACall(refused: bool) returns (steps: seq<Step>)
    ensures Run(steps) == CallOpen(if refused then Refusing(0) else Idle)
  {
    var sending := SomeRunSendsACall();
    EventGoesOut();
    if refused {
      Extend(sending, EmitEvent(true));
      steps := sending + [EmitEvent(true)];
    } else {
      ExtendTwice(sending, EmitEvent(false), EmitCheck(false));
      steps := sending + [EmitEvent(false)] + [EmitCheck(false)];
    }
  }

  const REFUSED := CallOpen(Idle).(
    open := map[], closedCalls := {"c"},
    turns := [PROMPTED.(firstBy := Some(Handler), leftovers := {0}, terminal := Some(Handler), closed := {0})])

  const CLOSED_WHILE_REFUSING := REFUSED.(
    handler := RefusePrepared(0, {}),
    turns := [PROMPTED.(firstBy := Some(Handler), leftovers := {0}, closed := {0})])

  lemma RefusingCloses()
    ensures Then(CallOpen(Refusing(0)), RefusePrepare({"c"}), RefuseEmit(0)) == CLOSED_WHILE_REFUSING
  {
    var s := CallOpen(Refusing(0));
    OneCallMayBeKept(s);
    var t := PROMPTED.(firstBy := Some(Handler), leftovers := {0});
    var taken := s.(open := map[], closedCalls := {"c"}, handler := RefusePrepared(0, {0}), turns := [t]);
    assert HandleStep(s, RefusePrepare({"c"})) == taken;
    assert {} + {0} == {0} && {0} - {0} == {};
    assert HandleStep(taken, RefuseEmit(0)) == CLOSED_WHILE_REFUSING by {
      assert Close(t, 0) == t.(closed := {0});
    }
  }

  lemma SomeRunClosesWhileRefusing() returns (steps: seq<Step>)
    ensures Run(steps) == CLOSED_WHILE_REFUSING
  {
    var running := SomeRunOpensACall(true);
    ExtendTwice(running, RefusePrepare({"c"}), RefuseEmit(0));
    steps := running + [RefusePrepare({"c"})] + [RefuseEmit(0)];
    RefusingCloses();
  }

  /** The core refuses an event, and the handler fails the turn, closing its call. */
  lemma SomeRunIsRefused() returns (steps: seq<Step>)
    ensures Run(steps) == REFUSED
  {
    var refusing := SomeRunClosesWhileRefusing();
    Extend(refusing, RefuseCommit);
    steps := refusing + [RefuseCommit];
    assert Next(CLOSED_WHILE_REFUSING, RefuseCommit) == REFUSED;
  }

  lemma OneCallMayBeKept(s: Session)
    requires s.open == map["c" := 0]
    ensures MayKeep(s, {"c"}) && s.open.Values == {0}
  {
  }

  lemma PromptClaims(s: Session, t: Turn)
    requires s.slot == Some(0) && s.turns == [t] && t.stage == Prompting && !t.finished && !s.lifecycleClosed
    ensures Then(s, PromptCheck(0), PromptClaim(0)) == s.(turns := [t.(stage := Claimed, finished := true)])
  {
  }

  /** The prompt task ends its turn, taking the emptied reducer again. */
  lemma PromptEnds(s: Session, t: Turn)
    requires s.slot == Some(0) && s.turns == [t] && t.stage == Claimed && t.firstBy.Some? && s.open == map[]
    ensures Then(s, PromptPrepare(0, {}), PromptCommit(0, false))
      == s.(turns := [Commit(t, Prompt).(stage := Written)], closedCalls := {})
  {
  }

  /** A refused turn is ended again by its prompt task, and the next turn begins. */
  lemma SomeRunGoesOnToTheNextTurn() returns (steps: seq<Step>)
    ensures var s := Run(steps);
      && |s.turns| == 2 && Holds(s, 1) && s.handler.Idle? && !s.turns[1].finished
      && s.turns[0].leftovers == {0} && s.closedCalls == {}
      && s.reduced == [Reduced(0, 0, Opens("c"))]
  {
    var written := SomeRunIsWritten();
    var released := written + [PromptShut(0, false)] + [PromptRelease(0)];
    ExtendTwice(written, PromptShut(0, false), PromptRelease(0));
    Extend(released, Begin);
    steps := released + [Begin];
    assert Then(REFUSED_AND_WRITTEN, PromptShut(0, false), PromptRelease(0)) == REFUSED_AND_WRITTEN.(
      slot := None, turns := [REFUSED_AND_WRITTEN.turns[0].(stage := Gone)]);
  }

  const REFUSED_AND_WRITTEN := REFUSED.(
    closedCalls := {}, turns := [REFUSED.turns[0].(stage := Written, finished := true)])

  lemma SomeRunIsWritten() returns (steps: seq<Step>)
    ensures Run(steps) == REFUSED_AND_WRITTEN
  {
    var refused := SomeRunIsRefused();
    var claimed := refused + [PromptCheck(0)] + [PromptClaim(0)];
    ExtendTwice(refused, PromptCheck(0), PromptClaim(0));
    PromptClaims(REFUSED, REFUSED.turns[0]);
    steps := claimed + [PromptPrepare(0, {})] + [PromptCommit(0, false)];
    ExtendTwice(claimed, PromptPrepare(0, {}), PromptCommit(0, false));
    PromptEnds(Run(claimed), Run(claimed).turns[0]);
  }

  /**
    Taking the reducer twice loses the isolation of turns. The handler fails a turn whose event the core
    refused, closing its call "c"; the prompt task then takes the emptied reducer again and so forgets "c";
    and a late update of "c" is reduced in the next turn.
  */
  lemma ARefusedTurnLeaksItsLateUpdates() returns (steps: seq<Step>)
    ensures var s := Run(steps);
      && |s.turns| == 2 && s.turns[0].leftovers == {0}
      && s.reduced == [Reduced(0, 0, Opens("c")), Reduced(1, 1, Updates("c"))]
  {
    var next := SomeRunGoesOnToTheNextTurn();
    var captured := next + [Capture(Updates("c"))];
    steps := captured + [LateCheck] + [Reduce(true)];
    assert Run(steps) == Then(Next(Run(next), Capture(Updates("c"))), LateCheck, Reduce(true)) by {
      Extend(next, Capture(Updates("c")));
      ExtendTwice(captured, LateCheck, Reduce(true));
    }
    LateUpdateReachesTheTurnIffForgotten(next, 1, "c", true);
    LateFrameTouchesNoTurn(Run(next), Updates("c"));
  }

  lemma LateFrameTouchesNoTurn(s: Session, frame: Frame)
    ensures Then(Next(s, Capture(frame)), LateCheck, Reduce(true)).turns == s.turns
  {
    var captured := Next(s, Capture(frame));
    var checked := Next(captured, LateCheck);
    FrameStepTouchesNoTurn(s, Capture(frame));
    FrameStepTouchesNoTurn(captured, LateCheck);
    FrameStepTouchesNoTurn(checked, Reduce(true));
  }

  lemma FrameStepTouchesNoTurn(s: Session, step: Step)
    requires step.Capture? || step.LateCheck? || step.Reduce?
    ensures Next(s, step).turns == s.turns
  {
  }

  /**
    A close that takes the reducer while the prompt task holds the terminal leaves a call open for ever.
    The close prepares before it claims, the prompt task claims before it prepares: the one that has the
    leftovers does not write, and the one that writes has none.
  */
  lemma AClosedTurnCanLeaveACallOpen() returns (steps: seq<Step>)
    ensures |Run(steps).turns| == 1
    ensures var t := Run(steps).turns[0];
      t.handedOut && t.terminal == Some(Prompt) && t.firstBy == Some(Closer) && t.leftovers == {0} && t.closed == {}
  {
    var running := SomeRunOpensACall(false);
    var closing := running + [PromptCheck(0)] + [CloseClaim];
    ExtendTwice(running, PromptCheck(0), CloseClaim);
    var stopped := closing + [CloseReadTurn] + [CloseStop(true)];
    ExtendTwice(closing, CloseReadTurn, CloseStop(true));
    var taken := stopped + [PromptClaim(0)] + [ClosePrepare({"c"})];
    ExtendTwice(stopped, PromptClaim(0), ClosePrepare({"c"}));
    CloseTakesWhatThePromptClaimed();
    ExtendTwice(taken, PromptPrepare(0, {}), PromptCommit(0, false));
    PromptEnds(Run(taken), Run(taken).turns[0]);
    steps := taken + [PromptPrepare(0, {})] + [PromptCommit(0, false)];
  }

  /**
    And the other way round: the one that ends a turn need not be the one that closed its calls. The handler
    closes the call of a refused turn, and before it can fail the turn the prompt task has completed it.
  */
  lemma AnotherTaskCanCommitWhatTheHandlerClosed() returns (steps: seq<Step>)
    ensures |Run(steps).turns| == 1
    ensures var t := Run(steps).turns[0];
      && t.handedOut && t.terminal == Some(Prompt) && t.firstBy == Some(Handler)
      && t.leftovers == {0} && t.closed == {0}
  {
    var refusing := SomeRunClosesWhileRefusing();
    var claimed := refusing + [PromptCheck(0)] + [PromptClaim(0)];
    ExtendTwice(refusing, PromptCheck(0), PromptClaim(0));
    PromptClaims(CLOSED_WHILE_REFUSING, CLOSED_WHILE_REFUSING.turns[0]);
    ExtendTwice(claimed, PromptPrepare(0, {}), PromptCommit(0, false));
    PromptEnds(Run(claimed), Run(claimed).turns[0]);
    steps := claimed + [PromptPrepare(0, {})] + [PromptCommit(0, false)];
  }

  const STOPPED := CallOpen(Idle).(
    turns := [PROMPTED.(stage := Checked)], lifecycleClosed := true, closer := CloseStopped(Some(0), true))

  lemma CloseStops()
    ensures Then(Then(CallOpen(Idle), PromptCheck(0), CloseClaim), CloseReadTurn, CloseStop(true)) == STOPPED
  {
    var claimed := Then(CallOpen(Idle), PromptCheck(0), CloseClaim);
    assert claimed == CallOpen(Idle).(
      turns := [PROMPTED.(stage := Checked)], lifecycleClosed := true, closer := CloseClaimed);
  }

  lemma CloseTakesWhatThePromptClaimed()
    ensures Then(Then(CallOpen(Idle), PromptCheck(0), CloseClaim), CloseReadTurn, CloseStop(true)) == STOPPED
    ensures var taken := Then(STOPPED, PromptClaim(0), ClosePrepare({"c"}));
      && taken.slot == Some(0) && taken.open == map[]
      && taken.turns == [PROMPTED.(stage := Claimed, finished := true, firstBy := Some(Closer), leftovers := {0})]
  {
    CloseStops();
    var claimed := Next(STOPPED, PromptClaim(0));
    assert claimed == STOPPED.(turns := [PROMPTED.(stage := Claimed, finished := true)]);
    OneCallMayBeKept(claimed);
  }
}
