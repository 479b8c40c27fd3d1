/**
  Bounding held updates early is invisible over whole runs: a reducer that kept every held body as
  large as it came would have its host told exactly the same.
*/
module EarlyBounding {
  import opened Prelude
  import opened Events
  import opened HeldMerge
  import opened ReducerSpec

  /** The same held update, or none in either: `b`'s bounded as it came, `r`'s as it came. */
  ghost predicate SameHeld(core: Core, b: Option<Held>, r: Option<Held>) {
    && (b.Some? <==> r.Some?)
    && (b.Some? ==>
          && Represents(core, b.value, r.value.update)
          && WithinLimits(b.value)
          && !r.value.titleCut && !r.value.detailCut && !r.value.contentCut)
  }

  ghost predicate SameCall(core: Core, b: OpenCall, r: OpenCall) {
    b.openedAt == r.openedAt && b.lastUpdate == r.lastUpdate && SameHeld(core, b.held, r.held)
  }

  ghost predicate SameCalls(core: Core, b: map<string, OpenCall>, r: map<string, OpenCall>) {
    && b.Keys == r.Keys
    && (forall id <- b :: SameCall(core, b[id], r[id]))
  }

  /** The memory of a reducer that bounds early against that of one that does not. */
  ghost predicate SameBut(core: Core, b: State, r: State) {
    b.(openCalls := map[]) == r.(openCalls := map[]) && SameCalls(core, b.openCalls, r.openCalls)
  }

  ghost predicate StepIsInvisible(core: Core, b: Reduction, r: Reduction) {
    SameBut(core, b.state, r.state) && PublishedTrace(core, b.events) == PublishedTrace(core, r.events)
  }

  lemma MergeWithinLimits(earlier: Held, later: Held)
    requires WithinLimits(earlier) && WithinLimits(later)
    ensures WithinLimits(MergedWith(earlier, later))
  {
  }

  lemma OnePublishesTheSame(core: Core, id: string, held: Held, raw: Held)
    requires Represents(core, held, raw.update) && !raw.titleCut && !raw.detailCut && !raw.contentCut
    ensures PublishedTrace(core, [ActivityUpdated(id, held.IntoUpdate())])
      == PublishedTrace(core, [ActivityUpdated(id, raw.IntoUpdate())])
  {
  }

  /** What is withheld of an update, with what was already held, stays the same but for bounding. */
  lemma WithheldIsInvisible(
    core: Core, interval: nat, b: OpenCall, r: OpenCall, update: Update, now: nat)
    requires core.Lawful() && SameCall(core, b, r)
    ensures var (kept, raw) :=
        (Withheld(core, Policy(interval, true), b, update, now),
         Withheld(core, Policy(interval, false), r, update, now));
      && Represents(core, kept, raw.update)
      && !raw.titleCut && !raw.detailCut && !raw.contentCut
      && (Recent(Policy(interval, true), b, now) ==> WithinLimits(kept))
  {
    BoundedRepresents(core, update);
    BoundedIsWithinLimits(core, update);
    UnboundedRepresents(core, update);
    var later := if Recent(Policy(interval, true), b, now) then BoundedHeld(core, update) else Unbounded(update);
    if b.held.Some? {
      MergeRepresents(core, b.held.value, later, r.held.value.update, Unbounded(update).update);
      assert MergedWith(r.held.value, Unbounded(update)).update
        == RawMerge(r.held.value.update, Unbounded(update).update);
      if Recent(Policy(interval, true), b, now) {
        MergeWithinLimits(b.held.value, later);
      }
    }
  }

  lemma SayOrHoldIsInvisible(core: Core, interval: nat, b: State, r: State, id: string, update: Update, now: nat)
    requires core.Lawful() && SameBut(core, b, r) && id in b.openCalls
    ensures StepIsInvisible(core,
      SayOrHold(core, Policy(interval, true), b, id, update, now),
      SayOrHold(core, Policy(interval, false), r, id, update, now))
  {
    assert SameCall(core, b.openCalls[id], r.openCalls[id]);
    WithheldIsInvisible(core, interval, b.openCalls[id], r.openCalls[id], update, now);
    OnePublishesTheSame(core, id,
      Withheld(core, Policy(interval, true), b.openCalls[id], update, now),
      Withheld(core, Policy(interval, false), r.openCalls[id], update, now));
  }

  /** Last words are the same words, or none in either. */
  lemma LastWordsAreInvisible(core: Core, id: string, b: OpenCall, r: OpenCall, result: Result)
    requires SameCall(core, b, r)
    ensures PublishedTrace(core, LastWords(id, b, result)) == PublishedTrace(core, LastWords(id, r, result))
  {
  }

  lemma EndCallIsInvisible(core: Core, b: State, r: State, id: string, result: Result)
    requires SameBut(core, b, r) && id in b.openCalls
    ensures StepIsInvisible(core, EndCall(core, b, id, result), EndCall(core, r, id, result))
  {
    LastWordsAreInvisible(core, id, b.openCalls[id], r.openCalls[id], result);
    PublishedTraceConcat(core, LastWords(id, b.openCalls[id], result), [ActivityCompleted(id, result)]);
    PublishedTraceConcat(core, LastWords(id, r.openCalls[id], result), [ActivityCompleted(id, result)]);
  }

  /** A frame about a call, as a revision when it is running and an announcement when it is not. */
  lemma CallIsInvisible(
    core: Core, interval: nat, b: State, r: State, id: string, fields: ToolCallFields, call: ToolCall, now: nat)
    requires core.Lawful() && SameBut(core, b, r)
    ensures if id in b.openCalls
      then StepIsInvisible(core,
             ReviseOpen(core, Policy(interval, true), b, id, fields, now),
             ReviseOpen(core, Policy(interval, false), r, id, fields, now))
      else StepIsInvisible(core, Announce(core, b, id, call), Announce(core, r, id, call))
  {
    if id in b.openCalls {
      match UpdateMeaning(fields) {
        case Ends(result) => EndCallIsInvisible(core, b, r, id, result);
        case Says(update) => SayOrHoldIsInvisible(core, interval, b, r, id, update, now);
      }
    }
  }

  lemma BodyIsInvisible(core: Core, interval: nat, b: State, r: State, frame: Frame, now: nat)
    requires core.Lawful() && SameBut(core, b, r)
    ensures StepIsInvisible(core,
      Body(core, Policy(interval, true), b, frame, now), Body(core, Policy(interval, false), r, frame, now))
  {
    match frame {
      case ToolCallFrame(id, call) =>
        CallIsInvisible(core, interval, b, r, ClearOfPlan(id), RepeatFields(call), call, now);
      case ToolCallUpdateFrame(id, fields) =>
        CallIsInvisible(core, interval, b, r, ClearOfPlan(id), fields, FirstSighting(fields), now);
      case _ =>
    }
  }

  lemma ReduceIsInvisible(core: Core, interval: nat, b: State, r: State, frame: Frame, now: nat)
    requires core.Lawful() && SameBut(core, b, r)
    ensures StepIsInvisible(core,
      Reduce(core, Policy(interval, true), b, frame, now), Reduce(core, Policy(interval, false), r, frame, now))
  {
    var first := if Transcript(frame) then CloseReasoning(b) else Reduction(b, []);
    var firstR := if Transcript(frame) then CloseReasoning(r) else Reduction(r, []);
    BodyIsInvisible(core, interval, first.state, firstR.state, frame, now);
    PublishedTraceConcat(core, first.events, Body(core, Policy(interval, true), first.state, frame, now).events);
    PublishedTraceConcat(core, firstR.events, Body(core, Policy(interval, false), firstR.state, frame, now).events);
  }

  /**
    Whatever the frames, the clock and the interval, a host is told the same, field by field and flag
    by flag, whether held updates are bounded as they come or kept whole until they are delivered.
  */
  lemma {:induction false} RunsAreInvisible(core: Core, interval: nat, inputs: seq<Input>)
    requires core.Lawful()
    ensures StepIsInvisible(core, Run(core, Policy(interval, true), inputs), Run(core, Policy(interval, false), inputs))
  {
    if inputs != [] {
      var n := |inputs| - 1;
      var input := inputs[n];
      RunsAreInvisible(core, interval, inputs[..n]);
      var b := Run(core, Policy(interval, true), inputs[..n]);
      var r := Run(core, Policy(interval, false), inputs[..n]);
      ReduceIsInvisible(core, interval, b.state, r.state, input.frame, input.now);
      PublishedTraceConcat(
        core, b.events, Reduce(core, Policy(interval, true), b.state, input.frame, input.now).events);
      PublishedTraceConcat(
        core, r.events, Reduce(core, Policy(interval, false), r.state, input.frame, input.now).events);
    }
  }

  /** Whatever a run left held is within what the core publishes, whatever the agent sent. */
  lemma HeldMergesStayBounded(core: Core, interval: nat, inputs: seq<Input>, id: string)
    requires core.Lawful()
    requires id in Run(core, Policy(interval, true), inputs).state.openCalls
    ensures var held := Run(core, Policy(interval, true), inputs).state.openCalls[id].held;
      held.Some? ==> WithinLimits(held.value)
  {
    RunsAreInvisible(core, interval, inputs);
    var b := Run(core, Policy(interval, true), inputs).state.openCalls;
    var r := Run(core, Policy(interval, false), inputs).state.openCalls;
    assert SameCall(core, b[id], r[id]);
  }

  lemma ClosingOfCallIsInvisible(core: Core, id: string, b: OpenCall, r: OpenCall, outcome: Outcome)
    requires SameCall(core, b, r)
    ensures PublishedTrace(core, ClosingOfCall(id, b, outcome)) == PublishedTrace(core, ClosingOfCall(id, r, outcome))
  {
  }

  lemma {:induction false} ClosingIsInvisible(
    core: Core, b: map<string, OpenCall>, r: map<string, OpenCall>, order: seq<string>, outcome: Outcome)
    requires SameCalls(core, b, r) && forall id <- order :: id in b
    ensures PublishedTrace(core, ClosingOfCalls(b, order, outcome))
      == PublishedTrace(core, ClosingOfCalls(r, order, outcome))
  {
    if order != [] {
      var n := |order| - 1;
      var id := order[n];
      ClosingIsInvisible(core, b, r, order[..n], outcome);
      ClosingOfCallIsInvisible(core, id, b[id], r[id], outcome);
      PublishedTraceConcat(core, ClosingOfCalls(b, order[..n], outcome), ClosingOfCall(id, b[id], outcome));
      PublishedTraceConcat(core, ClosingOfCalls(r, order[..n], outcome), ClosingOfCall(id, r[id], outcome));
    }
  }

  /** The end of a turn is told the same as well. */
  lemma FinishIsInvisible(
    core: Core, interval: nat, inputs: seq<Input>, order: seq<string>, outcome: Outcome)
    requires core.Lawful()
    requires forall id <- order :: id in Run(core, Policy(interval, true), inputs).state.openCalls
    ensures var b := Run(core, Policy(interval, true), inputs).state;
      var r := Run(core, Policy(interval, false), inputs).state;
      && b.openCalls.Keys == r.openCalls.Keys
      && PublishedTrace(core, FinishInOrder(core, b, order, outcome).events)
         == PublishedTrace(core, FinishInOrder(core, r, order, outcome).events)
  {
    RunsAreInvisible(core, interval, inputs);
    var b := Run(core, Policy(interval, true), inputs).state;
    var r := Run(core, Policy(interval, false), inputs).state;
    ClosingIsInvisible(core, b.openCalls, r.openCalls, order, outcome);
    FinishPublishes(core, b, order, outcome);
    FinishPublishes(core, r, order, outcome);
  }

  lemma FinishPublishes(core: Core, s: State, order: seq<string>, outcome: Outcome)
    requires forall id <- order :: id in s.openCalls
    ensures PublishedTrace(core, FinishInOrder(core, s, order, outcome).events)
      == PublishedTrace(core, CloseReasoning(s).events)
         + PublishedTrace(core, ClosingOfCalls(s.openCalls, order, outcome))
         + PublishedTrace(core,
             if s.planStarted then [ActivityCompleted(PLAN_CALL_ID, Result(Succeeded, None, None))] else [])
  {
    var quiet, closing := CloseReasoning(s).events, ClosingOfCalls(s.openCalls, order, outcome);
    PublishedTraceConcat(core, quiet, closing);
    PublishedTraceConcat(core, quiet + closing,
      if s.planStarted then [ActivityCompleted(PLAN_CALL_ID, Result(Succeeded, None, None))] else []);
  }
}
