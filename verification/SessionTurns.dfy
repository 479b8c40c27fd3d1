/**
  The prompt slot as the session state's methods change it, one lock section each. Every method is proved to
  take exactly the step of the turn protocol that its caller is at, so whatever is proved of the protocol's
  runs holds of this object; and the questions and the cancel reason it takes or drops under the same lock go
  through the questions' own protocol.
*/
module SessionTurns {
  import opened Prelude
  import opened TurnSlot
  import TurnPromises
  import Approvals
  import SessionQuestions

  datatype Admission = Admitted(turn: nat) | Closed | Busy

  /** What a task takes from the slot when it may end the turn in it. */
  datatype Terminal = Terminal(closing: set<nat>, reason: Option<Approvals.Reason>)

  // Where a task has to be to make each call.

  /** The task is about to take the reducer of `turn`. */
  predicate AtPrepare(s: Session, turn: nat, task: Task) {
    match task
    case Starter => turn < |s.turns| && s.turns[turn].stage.Reserved?
    case Prompt => turn < |s.turns| && s.turns[turn].stage.Claimed?
    case Cleanup => turn < |s.turns| && s.turns[turn].stage.Cleaning?
    case Closer => s.closer.CloseStopped? && s.closer.ending == Some(turn)
    case Handler => s.handler == Refusing(turn)
  }

  function PrepareStep(turn: nat, task: Task, kept: set<string>): Step {
    match task
    case Starter => FailPrepare(turn, kept)
    case Prompt => PromptPrepare(turn, kept)
    case Cleanup => CleanupPrepare(turn, kept)
    case Closer => ClosePrepare(kept)
    case Handler => RefusePrepare(kept)
  }

  /** The task is about to claim the terminal of `turn`; a handler never does. */
  predicate AtClaim(s: Session, turn: nat, task: Task) {
    && turn < |s.turns|
    && match task
       case Starter => s.turns[turn].stage.FailPrepared?
       case Prompt => s.turns[turn].stage.Checked?
       case Cleanup => s.turns[turn].stage.CleanPrepared?
       case Closer => s.closer.ClosePrepared? && s.closer.turn == turn
       case Handler => false
  }

  function ClaimStep(turn: nat, task: Task): Step {
    match task
    case Starter => FailClaim(turn)
    case Prompt => PromptClaim(turn)
    case Cleanup => CleanupClaim(turn)
    case _ => CloseClaimTurn
  }

  /** The task is about to give the slot back. */
  predicate AtRelease(s: Session, turn: nat, task: Task) {
    match task
    case Starter => turn < |s.turns| && s.turns[turn].stage.FailClaimed?
    case Prompt => turn < |s.turns| && s.turns[turn].stage.Releasing?
    case Cleanup => turn < |s.turns| && s.turns[turn].stage.CleanWritten?
    case Closer => s.closer.CloseWritten? && s.closer.turn == turn
    case Handler => false
  }

  function ReleaseStep(turn: nat, task: Task): Step {
    match task
    case Starter => FailRelease(turn)
    case Prompt => PromptRelease(turn)
    case Cleanup => CleanupRelease(turn)
    case _ => CloseRelease
  }

  /** What a step of the protocol does to the fields that are shared. */
  predicate OnlyFinishes(s: Session, after: Session, turn: nat) {
    && turn < |s.turns| == |after.turns|
    && SameShared(s, after) && after.slot == s.slot
    && (forall g: nat | g < |s.turns| ::
          after.turns[g].finished == (s.turns[g].finished || g == turn))
  }

  predicate SameFlags(s: Session, after: Session) {
    |after.turns| == |s.turns| && forall g: nat | g < |s.turns| :: after.turns[g].finished == s.turns[g].finished
  }

  predicate SameShared(s: Session, after: Session) {
    && after.admissionClosed == s.admissionClosed && after.lifecycleClosed == s.lifecycleClosed
    && after.published == s.published && after.open == s.open && after.nextCall == s.nextCall
    && after.closedCalls == s.closedCalls
  }

  /** Taking a reducer, whoever takes it: all but the reducer and what is remembered of it stays. */
  predicate OnlyTakes(s: Session, after: Session, kept: set<string>) {
    && SameFlags(s, after) && after.slot == s.slot
    && SameShared(s.(open := map[], closedCalls := kept), after)
  }

  lemma TakingTakes(s: Session, turn: nat, task: Task, kept: set<string>, stage: Stage)
    requires Holds(s, turn)
    ensures OnlyTakes(s, PrepareTerminal(s, turn, task, kept, stage), kept)
  {
  }

  lemma PreparingTakes(s: Session, turn: nat, task: Task, kept: set<string>)
    requires AtPrepare(s, turn, task) && Holds(s, turn) && MayKeep(s, kept)
    ensures OnlyTakes(s, Next(s, PrepareStep(turn, task, kept)), kept)
  {
    if task.Closer? {
      CloserPreparingTakes(s, turn, kept);
    } else if task.Handler? {
      HandlerPreparingTakes(s, turn, kept);
    } else {
      OwnPreparingTakes(s, turn, task, kept);
    }
  }

  lemma CloserPreparingTakes(s: Session, turn: nat, kept: set<string>)
    requires AtPrepare(s, turn, Closer) && Holds(s, turn) && MayKeep(s, kept)
    ensures OnlyTakes(s, CloseStep(s, ClosePrepare(kept)), kept)
  {
    TakingTakes(s, turn, Closer, kept, s.turns[turn].stage);
  }

  lemma HandlerPreparingTakes(s: Session, turn: nat, kept: set<string>)
    requires AtPrepare(s, turn, Handler) && Holds(s, turn) && MayKeep(s, kept)
    ensures OnlyTakes(s, HandleStep(s, RefusePrepare(kept)), kept)
  {
    TakingTakes(s, turn, Handler, kept, s.turns[turn].stage);
  }

  lemma OwnPreparingTakes(s: Session, turn: nat, task: Task, kept: set<string>)
    requires AtPrepare(s, turn, task) && Holds(s, turn) && MayKeep(s, kept) && !task.Closer? && !task.Handler?
    ensures OnlyTakes(s, Next(s, PrepareStep(turn, task, kept)), kept)
  {
    var stage :=
      match task
      case Starter => FailPrepared
      case Prompt => Prepared(s.open.Values)
      case _ => CleanPrepared(s.open.Values);
    TakingTakes(s, turn, task, kept, stage);
    assert Next(s, PrepareStep(turn, task, kept)) == PrepareOwn(s, turn, task, kept, stage);
  }

  lemma PreparingFindsAnother(s: Session, turn: nat, task: Task, kept: set<string>)
    requires AtPrepare(s, turn, task) && !Holds(s, turn)
    ensures var after := Next(s, PrepareStep(turn, task, kept));
      SameFlags(s, after) && after.slot == s.slot && SameShared(s, after)
  {
  }

  lemma OneTurnFinishes(s: Session, turn: nat, t: Turn)
    requires turn < |s.turns| && t.finished
    ensures OnlyFinishes(s, WithTurn(s, turn, t), turn)
  {
  }

  lemma ClaimingFinishes(s: Session, turn: nat, task: Task)
    requires AtClaim(s, turn, task)
    ensures OnlyFinishes(s, Next(s, ClaimStep(turn, task)), turn)
  {
    var t := s.turns[turn];
    match task {
      case Starter => OneTurnFinishes(s, turn, t.(stage := FailClaimed, finished := true));
      case Prompt => OneTurnFinishes(s, turn, t.(stage := if t.finished then Gone else Claimed, finished := true));
      case Cleanup =>
        var stage := if t.finished then Gone else CleanClaimed(t.stage.closing);
        OneTurnFinishes(s, turn, t.(stage := stage, finished := true));
      case Closer =>
        OneTurnFinishes(s, turn, t.(finished := true));
        CloserClaiming(s, turn);
      case Handler =>
    }
  }

  lemma CloserClaiming(s: Session, turn: nat)
    requires s.closer.ClosePrepared? && s.closer.turn == turn && turn < |s.turns|
    ensures var after := Next(s, CloseClaimTurn);
      after.(closer := s.closer) == WithTurn(s, turn, s.turns[turn].(finished := true))
  {
    assert s.turns[turn].finished ==> s.turns[turn := s.turns[turn].(finished := true)] == s.turns;
  }

  lemma ReleasingEmpties(s: Session, turn: nat, task: Task)
    requires AtRelease(s, turn, task)
    ensures var after := Next(s, ReleaseStep(turn, task));
      && SameFlags(s, after) && SameShared(s, after)
      && after.slot == if s.slot == Some(turn) then None else s.slot
  {
  }

  class SessionTurns {
    var slot: Option<nat>
    /** The `finished` flag of each generation's handle. */
    var finished: seq<bool>
    var admissionClosed: bool
    var lifecycleClosed: bool
    var reducer: map<string, nat>
    var closedCalls: set<string>
    const questions: SessionQuestions.SessionQuestions
    /** The steps taken so far, and where they have brought everybody. */
    ghost var steps: seq<Step>
    ghost var here: Session

    ghost predicate Valid()
      reads this, questions
    {
      Agrees() && questions.Valid()
    }

    /** The fields are those of the protocol's state. */
    ghost predicate Agrees()
      reads this
    {
      && here == Run(steps)
      && slot == here.slot && admissionClosed == here.admissionClosed && lifecycleClosed == here.lifecycleClosed
      && reducer == here.open && closedCalls == here.closedCalls
      && |finished| == |here.turns| && forall g: nat | g < |finished| :: finished[g] == here.turns[g].finished
    }

    constructor (limit: nat)
      ensures Valid() && steps == [] && questions.steps == [] && fresh(questions)
    {
      slot, finished, admissionClosed, lifecycleClosed := None, [], false, false;
      reducer, closedCalls, steps, here := map[], {}, [], NEW_SESSION;
      questions := new SessionQuestions.SessionQuestions(limit);
    }

    /** Records that a task has taken its step. */
    ghost method Took(step: Step)
      requires here == Run(steps)
      modifies this`steps, this`here
      ensures steps == old(steps) + [step] && here == Next(old(here), step) && here == Run(steps)
    {
      TurnPromises.Extend(steps, step);
      steps, here := steps + [step], Next(here, step);
    }

    /**
      Opens a turn, refusing a second one and any on a session that no longer admits them. Questions left of
      the turn before are taken to be withdrawn, and no reason to cancel is left over.
    */
    method BeginTurn() returns (admission: Admission)
      requires Valid()
      modifies this, questions
      ensures Valid() && steps == old(steps) + [Begin]
      ensures admission.Admitted? <==> old(!lifecycleClosed && !admissionClosed && slot.None?)
      ensures admission.Admitted? ==>
        && admission.turn == |old(finished)| && slot == Some(admission.turn) && reducer == map[]
        && questions.steps == old(questions.steps) + [Approvals.Drain] + [Approvals.ResetReason]
        && questions.pending == map[] && questions.cancelReason == None
      ensures !admission.Admitted? ==> slot == old(slot) && questions.steps == old(questions.steps)
      ensures admission.Busy? ==> old(slot.Some?)
    {
      Took(Begin);
      if lifecycleClosed || admissionClosed {
        return Admission.Closed;
      }
      if slot.Some? {
        return Busy;
      }
      questions.TakePending();
      questions.ResetReason();
      var generation := |finished|;
      finished := finished + [false];
      slot := Some(generation);
      reducer := map[];
      return Admitted(generation);
    }

    /** Keeps the ids of the calls still open, in whatever order the reducer yields them. */
    method RememberClosedCalls() returns (kept: set<string>)
      requires Agrees()
      ensures MayKeep(here, kept)
    {
      kept := {};
      var rest := reducer.Keys;
      assert |reducer| == |reducer.Keys|;
      while rest != {} && |kept| < CLOSED_CALLS_KEPT
        invariant kept !! rest && kept + rest == reducer.Keys
        invariant |kept| + |rest| == |reducer|
        invariant |kept| <= CLOSED_CALLS_KEPT
        decreases rest
      {
        var id: string :| id in rest;
        assert |rest - {id}| == |rest| - 1;
        kept, rest := kept + {id}, rest - {id};
      }
    }

    /**
      Takes what `turn` owes, when it is the one in the slot: the calls open in its reducer, the reason it was
      cancelled for, and its questions, which are to be withdrawn. The slot is left to whoever ends the turn.
    */
    method PrepareTerminalMatching(turn: nat, ghost task: Task)
      returns (taken: Option<Terminal>, ghost kept: set<string>)
      requires Valid() && AtPrepare(here, turn, task)
      modifies this`reducer, this`closedCalls, this`steps, this`here, questions
      ensures Valid() && steps == old(steps) + [PrepareStep(turn, task, kept)]
      ensures taken.Some? <==> slot == Some(turn)
      ensures taken.None? ==>
        reducer == old(reducer) && closedCalls == old(closedCalls) && questions.steps == old(questions.steps)
      ensures taken.Some? ==>
        && taken.value == Terminal(old(reducer.Values), old(questions.cancelReason))
        && reducer == map[] && closedCalls == kept && MayKeep(old(here), kept)
        && questions.steps == old(questions.steps) + [Approvals.TakeReason] + [Approvals.Drain]
        && questions.pending == map[] && questions.cancelReason == None
    {
      if slot != Some(turn) {
        kept := {};
        FindAnother(turn, task);
        return None, kept;
      }
      var reason := TakeQuestions();
      var closing := TakeReducer(turn, task);
      return Some(Terminal(closing, reason)), closedCalls;
    }

    /** The reason a turn was cancelled for, with its questions taken to be withdrawn. */
    method TakeQuestions() returns (reason: Option<Approvals.Reason>)
      requires questions.Valid()
      modifies questions
      ensures questions.Valid() && reason == old(questions.cancelReason)
      ensures questions.steps == old(questions.steps) + [Approvals.TakeReason] + [Approvals.Drain]
      ensures questions.pending == map[] && questions.cancelReason == None
    {
      reason := questions.TakeReason();
      questions.TakePending();
    }

    method TakeReducer(turn: nat, ghost task: Task) returns (closing: set<nat>)
      requires Agrees() && AtPrepare(here, turn, task) && slot == Some(turn)
      modifies this`reducer, this`closedCalls, this`steps, this`here
      ensures Agrees() && steps == old(steps) + [PrepareStep(turn, task, closedCalls)]
      ensures closing == old(reducer.Values) && reducer == map[] && MayKeep(old(here), closedCalls)
    {
      TurnPromises.RunIsSafeFromStart(steps);
      closing := reducer.Values;
      var kept := RememberClosedCalls();
      PreparingTakes(here, turn, task, kept);
      Took(PrepareStep(turn, task, kept));
      reducer := map[];
      closedCalls := kept;
    }

    /** A task whose turn is no longer in the slot takes nothing. */
    ghost method FindAnother(turn: nat, task: Task)
      requires Agrees() && AtPrepare(here, turn, task) && slot != Some(turn)
      modifies this`steps, this`here
      ensures Agrees() && steps == old(steps) + [PrepareStep(turn, task, {})]
    {
      PreparingFindsAnother(here, turn, task, {});
      Took(PrepareStep(turn, task, {}));
    }

    /** Claims the right to write this turn's terminal, once. */
    method Finish(turn: nat, ghost task: Task) returns (claimed: bool)
      requires Valid() && AtClaim(here, turn, task)
      modifies this`finished, this`steps, this`here
      ensures Valid() && steps == old(steps) + [ClaimStep(turn, task)]
      ensures turn < |old(finished)| && (claimed <==> !old(finished)[turn])
      ensures finished == old(finished)[turn := true]
    {
      ClaimingFinishes(here, turn, task);
      Took(ClaimStep(turn, task));
      claimed := !finished[turn];
      finished := finished[turn := true];
    }

    method ReleaseTurnMatching(turn: nat, ghost task: Task)
      requires Valid() && AtRelease(here, turn, task)
      modifies this`slot, this`steps, this`here
      ensures Valid() && steps == old(steps) + [ReleaseStep(turn, task)]
      ensures slot == if old(slot) == Some(turn) then None else old(slot)
    {
      ReleasingEmpties(here, turn, task);
      Took(ReleaseStep(turn, task));
      if slot == Some(turn) {
        slot := None;
      }
    }

    /** What a prompt task does ahead of a release on a connection that ended, and a watcher that wakes. */
    method CloseTurnAdmission(ghost step: Step)
      requires Valid()
      requires || (step.PromptShut? && step.connectionEnded && StageOf(here, step.turn).Written?)
        || (step.WatchWake? && here.watcher.Watching? && here.closer.NotClosing?)
      modifies this`admissionClosed, this`steps, this`here
      ensures Valid() && steps == old(steps) + [step] && admissionClosed
    {
      Took(step);
      admissionClosed := true;
    }

    /** Whether a frame is the tail of the turn before; a `tool_call` makes its id the running turn's. */
    method IsLateForAClosedCall(frame: Frame, ghost turn: nat) returns (late: bool)
      requires Valid() && here.handler == Captured(Some(turn), frame)
      modifies this`closedCalls, this`steps, this`here
      ensures Valid() && steps == old(steps) + [LateCheck]
      ensures late <==> frame.Updates? && frame.id in old(closedCalls)
      ensures here.handler == if late then Idle else Passed(turn, frame)
      ensures closedCalls == if frame.Opens? then old(closedCalls) - {frame.id} else old(closedCalls)
    {
      Took(LateCheck);
      match frame {
        case Updates(id) => late := id in closedCalls;
        case Opens(id) =>
          closedCalls := closedCalls - {id};
          late := false;
      }
    }
  }
}
