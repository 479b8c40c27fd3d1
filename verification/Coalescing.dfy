/**
  Coalescing a running call's updates refines sending each one at once.

  The same frames are reduced twice, once with an interval and once with none. What the two hosts
  show differs at most by the merges still held back, and not at all once a call or a turn ended.
*/
module Coalescing {
  import opened Prelude
  import opened Events
  import opened HeldMerge
  import opened ReducerSpec
  import Bracketing

  // What a host shows.

  datatype Row = Row(title: string, detail: Option<string>, content: Option<Content>, outcome: Option<Outcome>)

  type View = map<string, Row>

  function Shown<T>(bound: T -> Bounded<T>, value: Option<T>): Option<T> {
    match value
    case None => None
    case Some(v) => Some(bound(v).value)
  }

  /** A row with an update's fields, as published, in place of its own. */
  function Overlay(core: Core, row: Row, update: Update): Row {
    Row(
      Shown(core.title, update.title).GetOr(row.title),
      Latest(row.detail, Shown(core.detail, update.detail)),
      Latest(row.content, Shown(core.content, update.content)),
      row.outcome)
  }

  function Ended(core: Core, row: Row, result: Result): Row {
    Row(
      row.title,
      Latest(row.detail, Shown(core.detail, result.detail)),
      Latest(row.content, Shown(core.content, result.content)),
      Some(result.outcome))
  }

  function Show(core: Core, view: View, event: Event): View {
    match event
    case ActivityStarted(id, activity) =>
      view[id := Row(core.title(activity.title).value, Shown(core.detail, activity.detail),
                     Shown(core.content, activity.content), None)]
    case ActivityUpdated(id, update) => if id in view then view[id := Overlay(core, view[id], update)] else view
    case ActivityCompleted(id, result) => if id in view then view[id := Ended(core, view[id], result)] else view
    case _ => view
  }

  function ShowAll(core: Core, view: View, events: seq<Event>): View {
    if events == [] then view
    else Show(core, ShowAll(core, view, events[..|events| - 1]), events[|events| - 1])
  }

  lemma {:induction false} ShowAllConcat(core: Core, view: View, a: seq<Event>, b: seq<Event>)
    ensures ShowAll(core, view, a + b) == ShowAll(core, ShowAll(core, view, a), b)
  {
    if b == [] {
      assert a + b == a;
    } else {
      ShowAllConcat(core, view, a, b[..|b| - 1]);
      assert (a + b)[..|a + b| - 1] == a + b[..|b| - 1];
    }
  }

  /** Everything in the transcript except the updates. */
  function WithoutUpdates(events: seq<Event>): seq<Event> {
    if events == [] then []
    else
      var n := |events| - 1;
      WithoutUpdates(events[..n]) + if events[n].ActivityUpdated? then [] else [events[n]]
  }

  lemma {:induction false} WithoutUpdatesConcat(a: seq<Event>, b: seq<Event>)
    ensures WithoutUpdates(a + b) == WithoutUpdates(a) + WithoutUpdates(b)
  {
    if b == [] {
      assert a + b == a;
    } else {
      WithoutUpdatesConcat(a, b[..|b| - 1]);
      assert (a + b)[..|a + b| - 1] == a + b[..|b| - 1];
    }
  }

  // Overlaying merges.

  lemma OverlayMerged(core: Core, row: Row, earlier: Held, later: Held)
    ensures Overlay(core, row, MergedWith(earlier, later).update)
      == Overlay(core, Overlay(core, row, earlier.update), later.update)
  {
  }

  lemma OverlayBounded(core: Core, row: Row, update: Update)
    requires core.Lawful()
    ensures Overlay(core, row, BoundedHeld(core, update).update) == Overlay(core, row, update)
  {
  }

  lemma OverlaySuperseded(core: Core, row: Row, held: Held, result: Result)
    ensures Ended(core, Overlay(core, row, SupersededBy(held, result).update), result)
      == Ended(core, Overlay(core, row, held.update), result)
  {
  }

  lemma OverlayNothing(core: Core, row: Row, update: Update)
    requires update.IsEmpty()
    ensures Overlay(core, row, update) == row
  {
  }

  // The relation between the two reducers and their hosts.

  /** One row, with whatever its call still holds back laid over it. */
  function WithHeld(core: Core, s: State, view: View, id: string): Row
    requires id in view
  {
    if id in s.openCalls && s.openCalls[id].held.Some?
    then Overlay(core, view[id], s.openCalls[id].held.value.update)
    else view[id]
  }

  /** Both reducers remember the same calls, and only the coalescing one holds anything back. */
  ghost predicate SameMemory(c: State, z: State) {
    && c.reasoningOpen == z.reasoningOpen
    && c.planStarted == z.planStarted
    && c.finishedCalls == z.finishedCalls
    && c.nextCall == z.nextCall
    && c.openCalls.Keys == z.openCalls.Keys
    && (forall id <- c.openCalls :: z.openCalls[id].openedAt == c.openCalls[id].openedAt && z.openCalls[id].held.None?)
    && PLAN_CALL_ID !in c.openCalls
  }

  ghost predicate SameShown(core: Core, c: State, shownC: View, shownZ: View) {
    && shownC.Keys == shownZ.Keys
    && (forall id <- c.openCalls :: id in shownC)
    && (forall id <- shownC :: WithHeld(core, c, shownC, id) == shownZ[id])
  }

  ghost predicate Refines(core: Core, c: State, z: State, shownC: View, shownZ: View) {
    SameMemory(c, z) && SameShown(core, c, shownC, shownZ)
  }

  /** A step of each reducer keeps the relation, and the transcripts differ in updates only. */
  ghost predicate StepRefines(core: Core, shownC: View, shownZ: View, rc: Reduction, rz: Reduction) {
    && Refines(core, rc.state, rz.state, ShowAll(core, shownC, rc.events), ShowAll(core, shownZ, rz.events))
    && WithoutUpdates(rc.events) == WithoutUpdates(rz.events)
  }

  lemma ShowOne(core: Core, view: View, event: Event)
    ensures ShowAll(core, view, [event]) == Show(core, view, event)
    ensures WithoutUpdates([event]) == if event.ActivityUpdated? then [] else [event]
  {
  }

  lemma ShowTwo(core: Core, view: View, first: Event, second: Event)
    ensures ShowAll(core, view, [first, second]) == Show(core, Show(core, view, first), second)
    ensures WithoutUpdates([first, second]) == WithoutUpdates([first]) + WithoutUpdates([second])
  {
    assert [first, second] == [first] + [second];
    ShowOne(core, view, first);
    ShowOne(core, Show(core, view, first), second);
    ShowAllConcat(core, view, [first], [second]);
    WithoutUpdatesConcat([first], [second]);
  }

  /** One running call and its two rows change together. */
  lemma RevisionRefines(
    core: Core, c: State, z: State, shownC: View, shownZ: View,
    id: string, callC: OpenCall, callZ: OpenCall, rowC: Row, rowZ: Row)
    requires Refines(core, c, z, shownC, shownZ) && id in c.openCalls
    requires callC.openedAt == c.openCalls[id].openedAt && callZ.openedAt == callC.openedAt && callZ.held.None?
    requires rowZ == if callC.held.Some? then Overlay(core, rowC, callC.held.value.update) else rowC
    ensures Refines(
      core, c.(openCalls := c.openCalls[id := callC]), z.(openCalls := z.openCalls[id := callZ]),
      shownC[id := rowC], shownZ[id := rowZ])
  {
  }

  /** However an update is merged, laid over the row it shows what sending it at once shows. */
  lemma WithheldShows(
    core: Core, policy: Policy, c: State, shownC: View, id: string, update: Update, now: nat)
    requires core.Lawful() && id in c.openCalls && id in shownC
    ensures Overlay(core, shownC[id], Withheld(core, policy, c.openCalls[id], update, now).update)
      == Overlay(core, WithHeld(core, c, shownC, id), update)
  {
    var call := c.openCalls[id];
    OverlayBounded(core, WithHeld(core, c, shownC, id), update);
    var later :=
      if Recent(policy, call, now) && policy.boundsEarly then BoundedHeld(core, update) else Unbounded(update);
    if call.held.Some? {
      OverlayMerged(core, shownC[id], call.held.value, later);
    }
  }

  lemma SayOrHoldRefines(
    core: Core, interval: nat, c: State, z: State, shownC: View, shownZ: View, id: string, update: Update, now: nat)
    requires core.Lawful() && Refines(core, c, z, shownC, shownZ) && id in c.openCalls
    ensures StepRefines(core, shownC, shownZ,
      SayOrHold(core, Policy(interval, true), c, id, update, now),
      SayOrHold(core, Policy(0, true), z, id, update, now))
  {
    var policy := Policy(interval, true);
    WithheldShows(core, policy, c, shownC, id, update, now);
    assert WithHeld(core, c, shownC, id) == shownZ[id];
    SentAtOnce(core, z, shownZ, id, update, now);
    var callZ := z.openCalls[id].(held := None, lastUpdate := Some(now));
    var rowZ := Overlay(core, shownZ[id], update);
    var merged := Withheld(core, policy, c.openCalls[id], update, now);
    if Recent(policy, c.openCalls[id], now) {
      var callC := c.openCalls[id].(held := Some(merged));
      RevisionRefines(core, c, z, shownC, shownZ, id, callC, callZ, shownC[id], rowZ);
      assert shownC[id := shownC[id]] == shownC;
    } else {
      var callC := c.openCalls[id].(held := None, lastUpdate := Some(now));
      RevisionRefines(core, c, z, shownC, shownZ, id, callC, callZ, rowZ, rowZ);
      ShowOne(core, shownC, ActivityUpdated(id, merged.IntoUpdate()));
    }
  }

  /** With no interval an update is sent as it comes. */
  lemma SentAtOnce(core: Core, z: State, shownZ: View, id: string, update: Update, now: nat)
    requires id in z.openCalls && z.openCalls[id].held.None? && id in shownZ
    ensures var r := SayOrHold(core, Policy(0, true), z, id, update, now);
      && r.state == z.(openCalls := z.openCalls[id := z.openCalls[id].(held := None, lastUpdate := Some(now))])
      && ShowAll(core, shownZ, r.events) == shownZ[id := Overlay(core, shownZ[id], update)]
      && WithoutUpdates(r.events) == []
  {
  }

  /** One running call leaves both memories, and both hosts show the same row for it. */
  lemma RemovalRefines(core: Core, c: State, z: State, shownC: View, shownZ: View, id: string, row: Row)
    requires Refines(core, c, z, shownC, shownZ) && id in c.openCalls
    ensures Refines(
      core, MarkFinished(core, c.(openCalls := c.openCalls - {id}), id),
      MarkFinished(core, z.(openCalls := z.openCalls - {id}), id),
      shownC[id := row], shownZ[id := row])
  {
  }

  /** A call that ends shows the same in both, whatever was still held back for it. */
  lemma EndCallRefines(
    core: Core, c: State, z: State, shownC: View, shownZ: View, id: string, result: Result)
    requires Refines(core, c, z, shownC, shownZ) && id in c.openCalls
    ensures StepRefines(core, shownC, shownZ, EndCall(core, c, id, result), EndCall(core, z, id, result))
  {
    LastWordsShow(core, c, shownC, id, result);
    LastWordsShow(core, z, shownZ, id, result);
    RemovalRefines(core, c, z, shownC, shownZ, id, Ended(core, shownZ[id], result));
  }

  lemma LastWordsShow(core: Core, c: State, shownC: View, id: string, result: Result)
    requires id in c.openCalls && id in shownC
    ensures var events := EndCall(core, c, id, result).events;
      && ShowAll(core, shownC, events) == shownC[id := Ended(core, WithHeld(core, c, shownC, id), result)]
      && WithoutUpdates(events) == [ActivityCompleted(id, result)]
  {
    var completed := ActivityCompleted(id, result);
    var last := LastWords(id, c.openCalls[id], result);
    if c.openCalls[id].held.Some? {
      var held := c.openCalls[id].held.value;
      OverlaySuperseded(core, shownC[id], held, result);
      if last == [] {
        OverlayNothing(core, shownC[id], SupersededBy(held, result).update);
      }
    }
    if last == [] {
      ShowOne(core, shownC, completed);
      assert last + [completed] == [completed];
    } else {
      ShowTwo(core, shownC, last[0], completed);
      ShowOne(core, shownC, last[0]);
      ShowOne(core, shownC, completed);
      assert last + [completed] == [last[0], completed];
    }
  }

  lemma ReviseOpenRefines(
    core: Core, interval: nat, c: State, z: State, shownC: View, shownZ: View,
    id: string, fields: ToolCallFields, now: nat)
    requires core.Lawful() && Refines(core, c, z, shownC, shownZ) && id in c.openCalls
    ensures StepRefines(core, shownC, shownZ,
      ReviseOpen(core, Policy(interval, true), c, id, fields, now),
      ReviseOpen(core, Policy(0, true), z, id, fields, now))
  {
    match UpdateMeaning(fields) {
      case Ends(result) => EndCallRefines(core, c, z, shownC, shownZ, id, result);
      case Says(update) =>
        if !update.IsEmpty() {
          SayOrHoldRefines(core, interval, c, z, shownC, shownZ, id, update, now);
        }
    }
  }

  /** A call announced to both hosts, running or already over. */
  lemma AnnounceRefines(
    core: Core, c: State, z: State, shownC: View, shownZ: View, id: string, call: ToolCall)
    requires Refines(core, c, z, shownC, shownZ) && id !in c.openCalls && id != PLAN_CALL_ID
    ensures StepRefines(core, shownC, shownZ, Announce(core, c, id, call), Announce(core, z, id, call))
  {
    if !IsFinished(core, c, id) {
      var events := AnnouncedEvents(core, id, call);
      var row := AnnouncedRow(core, call);
      AnnouncedShows(core, shownC, id, call);
      AnnouncedShows(core, shownZ, id, call);
      TrackRefines(core, c, z, shownC, shownZ, id, Finished(call.status).Some? || !core.publishes(id), row);
    }
  }

  function AnnouncedRow(core: Core, call: ToolCall): Row {
    var activity := StartedActivity(core, call);
    Row(core.title(activity.title).value, Shown(core.detail, activity.detail),
        Shown(core.content, activity.content), Finished(call.status))
  }

  lemma AnnouncedShows(core: Core, view: View, id: string, call: ToolCall)
    ensures ShowAll(core, view, AnnouncedEvents(core, id, call)) == view[id := AnnouncedRow(core, call)]
  {
    var started := ActivityStarted(id, StartedActivity(core, call));
    if Finished(call.status).Some? {
      var completed := ActivityCompleted(id, Result(Finished(call.status).value, None, None));
      assert AnnouncedEvents(core, id, call) == [started, completed];
      ShowTwo(core, view, started, completed);
    } else {
      assert AnnouncedEvents(core, id, call) == [started];
      ShowOne(core, view, started);
    }
  }

  lemma TrackRefines(
    core: Core, c: State, z: State, shownC: View, shownZ: View, id: string, over: bool, row: Row)
    requires Refines(core, c, z, shownC, shownZ) && id !in c.openCalls && id != PLAN_CALL_ID
    ensures Refines(core, Track(core, c, id, over), Track(core, z, id, over), shownC[id := row], shownZ[id := row])
  {
    var c', shownC' := Track(core, c, id, over), shownC[id := row];
    forall other | other in shownC'
      ensures WithHeld(core, c', shownC', other) == shownZ[id := row][other]
    {
      if other != id {
        assert WithHeld(core, c', shownC', other) == WithHeld(core, c, shownC, other);
      }
    }
  }

  /** A row no running call has is the same in both views, and may change in both alike. */
  lemma OtherRowRefines(core: Core, c: State, z: State, shownC: View, shownZ: View, id: string, row: Row)
    requires Refines(core, c, z, shownC, shownZ) && id !in c.openCalls
    ensures Refines(
      core, c.(planStarted := true), z.(planStarted := true), shownC[id := row], shownZ[id := row])
    ensures id in shownC ==> shownC[id] == shownZ[id]
    ensures Refines(core, c.(planStarted := true), z.(planStarted := true), shownC, shownZ)
  {
  }

  /** An event about an activity that is never held back is shown alike by both. */
  lemma OtherEventRefines(core: Core, c: State, z: State, shownC: View, shownZ: View, event: Event)
    requires Refines(core, c, z, shownC, shownZ)
    requires (event.ActivityStarted? || event.ActivityUpdated?) && event.id !in c.openCalls
    ensures Refines(
      core, c.(planStarted := true), z.(planStarted := true), Show(core, shownC, event), Show(core, shownZ, event))
  {
    var row := if event.id in Show(core, shownC, event) then Show(core, shownC, event)[event.id]
               else Row("", None, None, None);
    OtherRowRefines(core, c, z, shownC, shownZ, event.id, row);
  }

  /** The plan is never held back: both hosts are told of every revision. */
  lemma PlanRefines(core: Core, c: State, z: State, shownC: View, shownZ: View, entries: seq<PlanEntry>)
    requires Refines(core, c, z, shownC, shownZ)
    ensures StepRefines(core, shownC, shownZ, PlanReduction(c, entries), PlanReduction(z, entries))
  {
    var event := PlanReduction(c, entries).events[0];
    assert PlanReduction(c, entries).events == [event] == PlanReduction(z, entries).events;
    ShowOne(core, shownC, event);
    ShowOne(core, shownZ, event);
    OtherEventRefines(core, c, z, shownC, shownZ, event);
  }

  /** Events about no activity. */
  predicate Silent(events: seq<Event>) {
    forall event <- events :: !event.ActivityStarted? && !event.ActivityUpdated? && !event.ActivityCompleted?
  }

  lemma {:induction false} SilentShows(core: Core, view: View, events: seq<Event>)
    requires Silent(events)
    ensures ShowAll(core, view, events) == view
  {
    if |events| > 0 {
      assert events[|events| - 1] in events;
      SilentShows(core, view, events[..|events| - 1]);
    }
  }

  lemma QuietBody(core: Core, interval: nat, s: State, frame: Frame, now: nat)
    requires !frame.ToolCallFrame? && !frame.ToolCallUpdateFrame? && !frame.PlanFrame?
    ensures var r := Body(core, Policy(interval, true), s, frame, now);
      r.state == s.(reasoningOpen := r.state.reasoningOpen) && Silent(r.events)
    ensures Body(core, Policy(interval, true), s, frame, now) == Body(core, Policy(0, true), s, frame, now)
  {
  }

  lemma ReasoningRefines(core: Core, c: State, z: State, shownC: View, shownZ: View, reasoning: bool)
    requires Refines(core, c, z, shownC, shownZ)
    ensures Refines(core, c.(reasoningOpen := reasoning), z.(reasoningOpen := reasoning), shownC, shownZ)
  {
  }

  /** Quiet frames read nothing of a state but whether reasoning is open. */
  lemma QuietAlike(core: Core, c: State, z: State, frame: Frame, now: nat)
    requires !frame.ToolCallFrame? && !frame.ToolCallUpdateFrame? && !frame.PlanFrame?
    requires c.reasoningOpen == z.reasoningOpen
    ensures var rc := Body(core, Policy(0, true), c, frame, now);
      var rz := Body(core, Policy(0, true), z, frame, now);
      rc.events == rz.events && rc.state.reasoningOpen == rz.state.reasoningOpen
  {
  }

  /** A frame that is about no call and no plan shows nothing in either view. */
  lemma QuietBodyRefines(
    core: Core, interval: nat, c: State, z: State, shownC: View, shownZ: View, frame: Frame, now: nat)
    requires Refines(core, c, z, shownC, shownZ)
    requires !frame.ToolCallFrame? && !frame.ToolCallUpdateFrame? && !frame.PlanFrame?
    ensures StepRefines(core, shownC, shownZ,
      Body(core, Policy(interval, true), c, frame, now), Body(core, Policy(0, true), z, frame, now))
  {
    var rc := Body(core, Policy(interval, true), c, frame, now);
    QuietBody(core, interval, c, frame, now);
    QuietBody(core, 0, z, frame, now);
    QuietAlike(core, c, z, frame, now);
    SilentShows(core, shownC, rc.events);
    SilentShows(core, shownZ, rc.events);
    ReasoningRefines(core, c, z, shownC, shownZ, rc.state.reasoningOpen);
  }

  /** A frame about a call: a revision of one that is running, or the first of one that is not. */
  lemma CallRefines(
    core: Core, interval: nat, c: State, z: State, shownC: View, shownZ: View,
    agentId: string, fields: ToolCallFields, call: ToolCall, now: nat)
    requires core.Lawful() && Refines(core, c, z, shownC, shownZ)
    ensures var id := ClearOfPlan(agentId);
      if id in c.openCalls
      then StepRefines(core, shownC, shownZ,
             ReviseOpen(core, Policy(interval, true), c, id, fields, now),
             ReviseOpen(core, Policy(0, true), z, id, fields, now))
      else StepRefines(core, shownC, shownZ, Announce(core, c, id, call), Announce(core, z, id, call))
  {
    AgentIdIsNeverThePlan(agentId);
    var id := ClearOfPlan(agentId);
    if id in c.openCalls {
      ReviseOpenRefines(core, interval, c, z, shownC, shownZ, id, fields, now);
    } else {
      AnnounceRefines(core, c, z, shownC, shownZ, id, call);
    }
  }

  lemma BodyRefines(
    core: Core, interval: nat, c: State, z: State, shownC: View, shownZ: View, frame: Frame, now: nat)
    requires core.Lawful() && Refines(core, c, z, shownC, shownZ)
    ensures StepRefines(core, shownC, shownZ,
      Body(core, Policy(interval, true), c, frame, now), Body(core, Policy(0, true), z, frame, now))
  {
    match frame {
      case ToolCallFrame(id, call) =>
        CallRefines(core, interval, c, z, shownC, shownZ, id, RepeatFields(call), call, now);
      case ToolCallUpdateFrame(id, fields) =>
        CallRefines(core, interval, c, z, shownC, shownZ, id, fields, FirstSighting(fields), now);
      case PlanFrame(entries) => PlanRefines(core, c, z, shownC, shownZ, entries);
      case _ => QuietBodyRefines(core, interval, c, z, shownC, shownZ, frame, now);
    }
  }

  lemma ReduceRefines(
    core: Core, interval: nat, c: State, z: State, shownC: View, shownZ: View, frame: Frame, now: nat)
    requires core.Lawful() && Refines(core, c, z, shownC, shownZ)
    ensures StepRefines(core, shownC, shownZ,
      Reduce(core, Policy(interval, true), c, frame, now), Reduce(core, Policy(0, true), z, frame, now))
  {
    var first := if Transcript(frame) then CloseReasoning(c) else Reduction(c, []);
    var firstZ := if Transcript(frame) then CloseReasoning(z) else Reduction(z, []);
    SilentShows(core, shownC, first.events);
    SilentShows(core, shownZ, firstZ.events);
    assert forall id <- shownC :: WithHeld(core, first.state, shownC, id) == WithHeld(core, c, shownC, id);
    BodyRefines(core, interval, first.state, firstZ.state, shownC, shownZ, frame, now);
    Sequenced(core, shownC, shownZ, first, firstZ,
      Body(core, Policy(interval, true), first.state, frame, now),
      Body(core, Policy(0, true), firstZ.state, frame, now));
  }

  /** Two steps in a row, each of which keeps the relation, are one that does. */
  lemma Sequenced(
    core: Core, shownC: View, shownZ: View, first: Reduction, firstZ: Reduction, next: Reduction, nextZ: Reduction)
    requires WithoutUpdates(first.events) == WithoutUpdates(firstZ.events)
    requires StepRefines(
      core, ShowAll(core, shownC, first.events), ShowAll(core, shownZ, firstZ.events), next, nextZ)
    ensures StepRefines(core, shownC, shownZ,
      Reduction(next.state, first.events + next.events), Reduction(nextZ.state, firstZ.events + nextZ.events))
  {
    ShowAllConcat(core, shownC, first.events, next.events);
    ShowAllConcat(core, shownZ, firstZ.events, nextZ.events);
    WithoutUpdatesConcat(first.events, next.events);
    WithoutUpdatesConcat(firstZ.events, nextZ.events);
  }

  /**
    After every frame, whatever the interval and the clock, each row of the coalescing host with its
    held merge laid over it is the row of the host that was sent everything at once, and the two
    transcripts are the same but for the updates in them.
  */
  lemma {:induction false} CoalescingRefinesImmediate(core: Core, interval: nat, inputs: seq<Input>)
    requires core.Lawful()
    ensures StepRefines(core, map[], map[],
      Run(core, Policy(interval, true), inputs), Run(core, Policy(0, true), inputs))
  {
    if inputs != [] {
      var n := |inputs| - 1;
      var input := inputs[n];
      CoalescingRefinesImmediate(core, interval, inputs[..n]);
      var c := Run(core, Policy(interval, true), inputs[..n]);
      var z := Run(core, Policy(0, true), inputs[..n]);
      var shownC, shownZ := ShowAll(core, map[], c.events), ShowAll(core, map[], z.events);
      ReduceRefines(core, interval, c.state, z.state, shownC, shownZ, input.frame, input.now);
      Sequenced(core, map[], map[], c, z,
        Reduce(core, Policy(interval, true), c.state, input.frame, input.now),
        Reduce(core, Policy(0, true), z.state, input.frame, input.now));
    }
  }

  /** A call that is no longer running shows the same in both. */
  lemma EndedCallsShowTheSame(core: Core, interval: nat, inputs: seq<Input>, id: string)
    requires core.Lawful()
    requires id !in Run(core, Policy(interval, true), inputs).state.openCalls
    ensures var shownC := ShowAll(core, map[], Run(core, Policy(interval, true), inputs).events);
      var shownZ := ShowAll(core, map[], Run(core, Policy(0, true), inputs).events);
      (id in shownC <==> id in shownZ) && (id in shownC ==> shownC[id] == shownZ[id])
  {
    CoalescingRefinesImmediate(core, interval, inputs);
    var c := Run(core, Policy(interval, true), inputs);
    var shownC := ShowAll(core, map[], c.events);
    assert id in shownC ==> WithHeld(core, c.state, shownC, id) == shownC[id];
  }

  // The end of a turn.

  lemma ClosingOfCallShows(core: Core, s: State, view: View, id: string, outcome: Outcome)
    requires id in s.openCalls && id in view
    ensures ShowAll(core, view, ClosingOfCall(id, s.openCalls[id], outcome))
      == view[id := WithHeld(core, s, view, id).(outcome := Some(outcome))]
  {
    var call := s.openCalls[id];
    var completed := ActivityCompleted(id, Result(outcome, None, None));
    var closing := ClosingOfCall(id, call, outcome);
    if |closing| == 1 {
      if call.held.Some? {
        OverlayNothing(core, view[id], call.held.value.update);
      }
      assert closing == [completed];
      ShowOne(core, view, completed);
    } else {
      assert closing == [closing[0], completed];
      ShowTwo(core, view, closing[0], completed);
    }
  }

  /** What a view becomes once each call in `order` was closed: its held merge, and its outcome. */
  ghost predicate Closed(core: Core, s: State, before: View, after: View, order: seq<string>, outcome: Outcome) {
    && after.Keys == before.Keys
    && (forall id <- before ::
          after[id] == if id in order then WithHeld(core, s, before, id).(outcome := Some(outcome)) else before[id])
  }

  lemma ClosedOneMore(core: Core, s: State, before: View, mid: View, order: seq<string>, outcome: Outcome)
    requires Bracketing.Distinct(order) && order != [] && order[|order| - 1] in before
    requires Closed(core, s, before, mid, order[..|order| - 1], outcome)
    ensures var id := order[|order| - 1];
      Closed(core, s, before, mid[id := WithHeld(core, s, mid, id).(outcome := Some(outcome))], order, outcome)
  {
  }

  lemma {:induction false} ClosingOfCallsShows(
    core: Core, s: State, view: View, order: seq<string>, outcome: Outcome)
    requires Bracketing.Distinct(order) && forall id <- order :: id in s.openCalls && id in view
    ensures Closed(core, s, view, ShowAll(core, view, ClosingOfCalls(s.openCalls, order, outcome)), order, outcome)
  {
    if order != [] {
      var n := |order| - 1;
      var earlier := ClosingOfCalls(s.openCalls, order[..n], outcome);
      var last := ClosingOfCall(order[n], s.openCalls[order[n]], outcome);
      ClosingOfCallsShows(core, s, view, order[..n], outcome);
      var mid := ShowAll(core, view, earlier);
      ClosingOfCallShows(core, s, mid, order[n], outcome);
      ClosedOneMore(core, s, view, mid, order, outcome);
      assert ShowAll(core, view, earlier + last) == ShowAll(core, mid, last) by {
        ShowAllConcat(core, view, earlier, last);
      }
    }
  }

  /** Once the turn is finished nothing is held back: both hosts show the very same. */
  lemma FinishedTurnsShowTheSame(
    core: Core, interval: nat, inputs: seq<Input>, order: seq<string>, outcome: Outcome)
    requires core.Lawful()
    requires IsOpeningOrder(Run(core, Policy(interval, true), inputs).state.openCalls, order)
    ensures IsOpeningOrder(Run(core, Policy(0, true), inputs).state.openCalls, order)
    ensures ShowAll(core, map[], Bracketing.Turn(core, Policy(interval, true), inputs, order, outcome))
      == ShowAll(core, map[], Bracketing.Turn(core, Policy(0, true), inputs, order, outcome))
  {
    CoalescingRefinesImmediate(core, interval, inputs);
    var c := Run(core, Policy(interval, true), inputs);
    var z := Run(core, Policy(0, true), inputs);
    var shownC, shownZ := ShowAll(core, map[], c.events), ShowAll(core, map[], z.events);
    Bracketing.OpeningOrderIsDistinct(c.state.openCalls, order);
    ClosingOfCallsShows(core, c.state, shownC, order, outcome);
    ClosingOfCallsShows(core, z.state, shownZ, order, outcome);
    ClosedAlike(core, c.state, z.state, shownC, shownZ,
      ShowAll(core, shownC, ClosingOfCalls(c.state.openCalls, order, outcome)),
      ShowAll(core, shownZ, ClosingOfCalls(z.state.openCalls, order, outcome)), order, outcome);
    FinishShows(core, c, order, outcome);
    FinishShows(core, z, order, outcome);
  }

  /** Hosts related through what was held back show the same once every running call was closed. */
  lemma ClosedAlike(
    core: Core, c: State, z: State, shownC: View, shownZ: View, closedC: View, closedZ: View,
    order: seq<string>, outcome: Outcome)
    requires Refines(core, c, z, shownC, shownZ) && IsOpeningOrder(c.openCalls, order)
    requires Closed(core, c, shownC, closedC, order, outcome) && Closed(core, z, shownZ, closedZ, order, outcome)
    ensures closedC == closedZ
  {
  }

  /** What a host shows once a turn is finished: its closed calls, and then its closed plan. */
  lemma FinishShows(core: Core, run: Reduction, order: seq<string>, outcome: Outcome)
    requires forall id <- order :: id in run.state.openCalls
    ensures ShowAll(core, map[], run.events + FinishInOrder(core, run.state, order, outcome).events)
      == ShowAll(
           core,
           ShowAll(core, ShowAll(core, map[], run.events), ClosingOfCalls(run.state.openCalls, order, outcome)),
           Bracketing.PlanClosing(run.state))
  {
    var quiet := CloseReasoning(run.state).events;
    var closing := ClosingOfCalls(run.state.openCalls, order, outcome);
    var shown := ShowAll(core, map[], run.events);
    SilentShows(core, shown, quiet);
    ShowAllConcat(core, shown, quiet, closing);
    ShowAllConcat(core, shown, quiet + closing, Bracketing.PlanClosing(run.state));
    ShowAllConcat(core, map[], run.events, quiet + closing + Bracketing.PlanClosing(run.state));
  }
}
