/**
  The reducer itself: one object per turn, whose methods change its memory in place. Each method is
  proved to compute the function of the same name, and to keep what the end of a turn relies on.
*/
module Reducers {
  import opened Prelude
  import opened Events
  import opened HeldMerge
  import opened ReducerSpec

  /** No two running calls were opened at the same count, and the next count is a new one. */
  ghost predicate DistinctOpenings(openCalls: map<string, OpenCall>, nextCall: nat) {
    && (forall id <- openCalls :: openCalls[id].openedAt < nextCall)
    && (forall a, b :: a in openCalls && b in openCalls && openCalls[a].openedAt == openCalls[b].openedAt ==> a == b)
  }

  /** `order` lists the calls in `listed`, oldest first. */
  ghost predicate Sorted(openCalls: map<string, OpenCall>, order: seq<string>, listed: set<string>) {
    && (forall id :: id in order <==> id in listed)
    && (forall id <- order :: id in openCalls)
    && (forall i, j :: 0 <= i < j < |order| ==> openCalls[order[i]].openedAt < openCalls[order[j]].openedAt)
  }

  lemma InsertionSorts(
    openCalls: map<string, OpenCall>, order: seq<string>, listed: set<string>, id: string, k: nat)
    requires Sorted(openCalls, order, listed) && id in openCalls && id !in listed && k <= |order|
    requires forall i :: 0 <= i < k ==> openCalls[order[i]].openedAt < openCalls[id].openedAt
    requires k < |order| ==> openCalls[id].openedAt < openCalls[order[k]].openedAt
    ensures Sorted(openCalls, order[..k] + [id] + order[k..], listed + {id})
  {
  }

  method InsertByOpening(
    openCalls: map<string, OpenCall>, ghost nextCall: nat, order: seq<string>, ghost listed: set<string>, id: string)
    returns (extended: seq<string>)
    requires DistinctOpenings(openCalls, nextCall)
    requires Sorted(openCalls, order, listed) && id in openCalls && id !in listed
    ensures Sorted(openCalls, extended, listed + {id})
  {
    var k := 0;
    while k < |order| && openCalls[order[k]].openedAt < openCalls[id].openedAt
      invariant 0 <= k <= |order|
      invariant forall i :: 0 <= i < k ==> openCalls[order[i]].openedAt < openCalls[id].openedAt
    {
      k := k + 1;
    }
    InsertionSorts(openCalls, order, listed, id, k);
    extended := order[..k] + [id] + order[k..];
  }

  /** The ids of a map, drained in whatever order it yields them and sorted by when each was opened. */
  method OpeningOrder(openCalls: map<string, OpenCall>, ghost nextCall: nat) returns (order: seq<string>)
    requires DistinctOpenings(openCalls, nextCall)
    ensures IsOpeningOrder(openCalls, order)
  {
    order := [];
    var rest := openCalls.Keys;
    while rest != {}
      invariant rest <= openCalls.Keys
      invariant Sorted(openCalls, order, openCalls.Keys - rest)
      decreases |rest|
    {
      var id: string :| id in rest;
      order := InsertByOpening(openCalls, nextCall, order, openCalls.Keys - rest, id);
      assert openCalls.Keys - rest + {id} == openCalls.Keys - (rest - {id});
      rest := rest - {id};
    }
  }

  class Reducer {
    const core: Core
    const updateInterval: nat
    var reasoningOpen: bool
    var planStarted: bool
    var openCalls: map<string, OpenCall>
    var finishedCalls: set<int>
    var nextCall: nat

    ghost function Memory(): State
      reads this
    {
      State(reasoningOpen, planStarted, openCalls, finishedCalls, nextCall)
    }

    ghost predicate Valid()
      reads this
    {
      DistinctOpenings(openCalls, nextCall)
    }

    ghost function Pace(): Policy {
      Policy(updateInterval, true)
    }

    constructor (core: Core, updateInterval: nat)
      ensures Valid() && Memory() == FRESH && this.core == core && this.updateInterval == updateInterval
    {
      this.core, this.updateInterval := core, updateInterval;
      reasoningOpen, planStarted := false, false;
      openCalls, finishedCalls, nextCall := map[], {}, 0;
    }

    /** The events and session facts one frame produces, in order. */
    method UpdateAt(frame: Frame, now: nat) returns (events: seq<Event>, facts: seq<Fact>)
      requires Valid()
      modifies this
      ensures Valid() && Reduction(Memory(), events) == Reduce(core, Pace(), old(Memory()), frame, now)
      ensures facts == SessionFacts(frame)
    {
      events := [];
      if Transcript(frame) {
        events := TakeReasoning();
      }
      var bodyEvents;
      bodyEvents, facts := UpdateBody(frame, now);
      events := events + bodyEvents;
    }

    method TakeReasoning() returns (events: seq<Event>)
      requires Valid()
      modifies this`reasoningOpen
      ensures Valid() && Reduction(Memory(), events) == CloseReasoning(old(Memory()))
    {
      var wasOpen := reasoningOpen;
      reasoningOpen := false;
      if !wasOpen {
        return [];
      }
      return [ReasoningEnded];
    }

    method UpdateBody(frame: Frame, now: nat) returns (events: seq<Event>, facts: seq<Fact>)
      requires Valid()
      modifies this
      ensures Valid() && Reduction(Memory(), events) == Body(core, Pace(), old(Memory()), frame, now)
      ensures facts == SessionFacts(frame)
    {
      events, facts := [], [];
      match frame {
        case AgentMessage(text) =>
          if text.Some? {
            events := [TextDelta(text.value)];
          }
        case AgentThought(text) => events := Reason(text);
        case ToolCallFrame(id, call) => events := UpdateCall(ClearOfPlan(id), call, now);
        case ToolCallUpdateFrame(id, fields) => events := UpdateFields(ClearOfPlan(id), fields, now);
        case PlanFrame(entries) => events := RevisePlan(entries);
        case CommandsFrame(commands) => facts := [Commands(commands)];
        case UsageFrame(used, size) => events := [ThreadUsage(used, size)];
        case ConfigOptionsFrame(options) => facts := [ConfigurationOptions(options)];
        case UntrackedFrame =>
      }
    }

    /** A `tool_call` frame: a new bracket, or a revision of one this turn already opened. */
    method UpdateCall(id: string, call: ToolCall, now: nat) returns (events: seq<Event>)
      requires Valid()
      modifies this
      ensures Valid() && Reduction(Memory(), events) == ToolCallStep(core, Pace(), old(Memory()), id, call, now)
      decreases id in openCalls, 1
    {
      if id in openCalls {
        events := UpdateFields(id, RepeatFields(call), now);
        return;
      }
      if core.digest(id) in finishedCalls {
        return [];
      }
      var refused := !core.publishes(id);
      events := AnnouncedEvents(core, id, call);
      Remember(id, Finished(call.status).Some? || refused);
    }

    /** A `tool_call_update` frame, opening the bracket first when this is the call's first frame. */
    method UpdateFields(id: string, fields: ToolCallFields, now: nat) returns (events: seq<Event>)
      requires Valid()
      modifies this
      ensures Valid()
      ensures Reduction(Memory(), events) == ToolCallUpdateStep(core, Pace(), old(Memory()), id, fields, now)
      decreases id in openCalls, if id in openCalls then 0 else 2
    {
      if id !in openCalls {
        if core.digest(id) in finishedCalls {
          return [];
        }
        events := UpdateCall(id, FirstSighting(fields), now);
        return;
      }
      match UpdateMeaning(fields) {
        case Says(update) =>
          if update.IsEmpty() {
            return [];
          }
          events := Coalesce(id, update, now);
        case Ends(result) =>
          events := Complete(id, result);
      }
    }

    method Coalesce(id: string, update: Update, now: nat) returns (events: seq<Event>)
      requires Valid() && id in openCalls
      modifies this`openCalls
      ensures Valid() && Reduction(Memory(), events) == SayOrHold(core, Pace(), old(Memory()), id, update, now)
    {
      var open := openCalls[id];
      var recent := false;
      if open.lastUpdate.Some? {
        var since := if now < open.lastUpdate.value then 0 else now - open.lastUpdate.value;
        recent := since < updateInterval;
      }
      var merged := if recent then BoundedHeld(core, update) else Unbounded(update);
      if open.held.Some? {
        merged := MergedWith(open.held.value, merged);
        open := open.(held := None);
      }
      if recent {
        openCalls := openCalls[id := open.(held := Some(merged))];
        return [];
      }
      openCalls := openCalls[id := open.(lastUpdate := Some(now))];
      return [ActivityUpdated(id, merged.IntoUpdate())];
    }

    method Complete(id: string, result: Result) returns (events: seq<Event>)
      requires Valid() && id in openCalls
      modifies this
      ensures Valid() && Reduction(Memory(), events) == EndCall(core, old(Memory()), id, result)
    {
      events := [];
      if openCalls[id].held.Some? {
        var held := SupersededBy(openCalls[id].held.value, result);
        if !held.IsEmpty() {
          events := events + [ActivityUpdated(id, held.IntoUpdate())];
        }
      }
      openCalls := openCalls - {id};
      finishedCalls := finishedCalls + {core.digest(id)};
      events := events + [ActivityCompleted(id, result)];
    }

    /** Records a call the host has just been told about, as running or as already over. */
    method Remember(id: string, over: bool)
      requires Valid()
      modifies this
      ensures Valid() && Memory() == Track(core, old(Memory()), id, over)
    {
      if over {
        finishedCalls := finishedCalls + {core.digest(id)};
        return;
      }
      var openedAt := nextCall;
      nextCall := nextCall + 1;
      openCalls := openCalls[id := OpenCall(openedAt, None, None)];
    }

    method Reason(text: Option<string>) returns (events: seq<Event>)
      requires Valid()
      modifies this`reasoningOpen
      ensures Valid() && Reduction(Memory(), events) == ReasoningStep(old(Memory()), text)
    {
      if text.None? {
        return [];
      }
      events := [];
      if !reasoningOpen {
        reasoningOpen := true;
        events := events + [ReasoningStarted];
      }
      events := events + [ReasoningDelta(text.value)];
    }

    method RevisePlan(entries: seq<PlanEntry>) returns (events: seq<Event>)
      requires Valid()
      modifies this`planStarted
      ensures Valid() && Reduction(Memory(), events) == PlanReduction(old(Memory()), entries)
    {
      var title, detail, content := PlanTitle(entries), PlanDetail(entries), PlanContent(entries);
      var started := planStarted;
      planStarted := true;
      if started {
        return [ActivityUpdated(PLAN_CALL_ID, Update(Some(title), Some(detail), Some(content), false))];
      }
      return [ActivityStarted(PLAN_CALL_ID,
                Activity("plan", PlanKind, title, Some(detail), Some(content), None))];
    }

    /** The events that close out a turn, with the calls the agent left running ending as `outcome`. */
    method FinishWith(outcome: Outcome) returns (events: seq<Event>, ghost order: seq<string>)
      requires Valid()
      modifies this
      ensures Valid() && IsOpeningOrder(old(openCalls), order)
      ensures Reduction(Memory(), events) == FinishInOrder(core, old(Memory()), order, outcome)
    {
      events := TakeReasoning();
      var sorted := OpeningOrder(openCalls, nextCall);
      order := sorted;
      var closing := CloseCalls(sorted, outcome);
      events := events + closing;
      if planStarted {
        planStarted := false;
        events := events + [ActivityCompleted(PLAN_CALL_ID, Result(Succeeded, None, None))];
      }
    }

    /** Drains the running calls, ending each in the order given, its held update first. */
    method CloseCalls(sorted: seq<string>, outcome: Outcome) returns (events: seq<Event>)
      requires Valid() && IsOpeningOrder(openCalls, sorted)
      modifies this`openCalls, this`finishedCalls
      ensures Valid() && openCalls == map[]
      ensures finishedCalls == FinishedAll(core, old(finishedCalls), sorted)
      ensures events == ClosingOfCalls(old(openCalls), sorted, outcome)
    {
      events := [];
      var drained := openCalls;
      openCalls := map[];
      ghost var already := finishedCalls;
      var k := 0;
      while k < |sorted|
        invariant 0 <= k <= |sorted|
        invariant openCalls == map[] && finishedCalls == FinishedAll(core, already, sorted[..k])
        invariant events == ClosingOfCalls(drained, sorted[..k], outcome)
      {
        var id := sorted[k];
        assert sorted[..k + 1] == sorted[..k] + [id];
        OneMoreClosed(core, drained, already, sorted[..k], id, outcome);
        finishedCalls := finishedCalls + {core.digest(id)};
        var closing := CloseCall(id, drained[id], outcome);
        events := events + closing;
        k := k + 1;
      }
      assert sorted[..k] == sorted;
    }
  }

  /** One leftover's last events. */
  method CloseCall(id: string, call: OpenCall, outcome: Outcome) returns (events: seq<Event>)
    ensures events == ClosingOfCall(id, call, outcome)
  {
    events := [];
    if call.held.Some? && !call.held.value.IsEmpty() {
      events := [ActivityUpdated(id, call.held.value.IntoUpdate())];
    }
    events := events + [ActivityCompleted(id, Result(outcome, None, None))];
  }

  lemma OneMoreClosed(
    core: Core, calls: map<string, OpenCall>, already: set<int>, order: seq<string>, id: string, outcome: Outcome)
    requires id in calls && forall other <- order :: other in calls
    ensures FinishedAll(core, already, order + [id]) == FinishedAll(core, already, order) + {core.digest(id)}
    ensures ClosingOfCalls(calls, order + [id], outcome)
      == ClosingOfCalls(calls, order, outcome) + ClosingOfCall(id, calls[id], outcome)
  {
  }
}
