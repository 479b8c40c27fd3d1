/**
  Every turn a reducer reports is well bracketed.

  A listener that only hears events, and knows nothing of the reducer, refuses any event out of
  place. Following it through a run gives the statement in counts, over every prefix of the events.
*/
module Bracketing {
  import opened Prelude
  import opened Events
  import opened HeldMerge
  import opened ReducerSpec

  // What well bracketed means, counted.

  function Starts(events: seq<Event>, id: string): nat {
    if events == [] then 0
    else
      var n := |events| - 1;
      Starts(events[..n], id) + if events[n].ActivityStarted? && events[n].id == id then 1 else 0
  }

  function Ends(events: seq<Event>, id: string): nat {
    if events == [] then 0
    else
      var n := |events| - 1;
      Ends(events[..n], id) + if events[n].ActivityCompleted? && events[n].id == id then 1 else 0
  }

  function ReasoningStarts(events: seq<Event>): nat {
    if events == [] then 0
    else ReasoningStarts(events[..|events| - 1]) + if events[|events| - 1].ReasoningStarted? then 1 else 0
  }

  function ReasoningEnds(events: seq<Event>): nat {
    if events == [] then 0
    else ReasoningEnds(events[..|events| - 1]) + if events[|events| - 1].ReasoningEnded? then 1 else 0
  }

  /** The counts before and at position `n` are those of events in their place. */
  ghost predicate InPlace(events: seq<Event>, n: nat)
    requires n <= |events|
  {
    var before := events[..n];
    && (forall id :: Ends(before, id) <= Starts(before, id) <= 1)
    && ReasoningEnds(before) <= ReasoningStarts(before) <= ReasoningEnds(before) + 1
    && (n < |events| && events[n].ActivityUpdated? ==>
          Starts(before, events[n].id) == 1 && Ends(before, events[n].id) == 0)
    && (n < |events| && events[n].ReasoningDelta? ==> ReasoningStarts(before) == ReasoningEnds(before) + 1)
  }

  /**
    No id starts twice or ends more often than it started, an update falls between its call's start
    and end, and reasoning starts and ends alternate around its text.
  */
  ghost predicate Bracketed(events: seq<Event>) {
    forall n :: 0 <= n <= |events| ==> InPlace(events, n)
  }

  /** Everything opened was closed, except a call whose id the core publishes nothing about. */
  ghost predicate Balanced(core: Core, events: seq<Event>) {
    && (forall id :: core.publishes(id) ==> Starts(events, id) == Ends(events, id))
    && ReasoningStarts(events) == ReasoningEnds(events)
  }

  // A listener.

  /** What a listener holds open, in the order it was opened, and what it saw end. */
  datatype Host = Host(open: seq<string>, ended: set<string>, reasoning: bool)

  const QUIET := Host([], {}, false)

  /** `ids` with everything in `gone` taken out. */
  function Discard(ids: seq<string>, gone: set<string>): seq<string> {
    if ids == [] then []
    else (if ids[0] in gone then [] else [ids[0]]) + Discard(ids[1..], gone)
  }

  /** One event heard in its place, or nothing when it is out of place. */
  function Hear(host: Host, event: Event): Option<Host> {
    match event
    case ActivityStarted(id, _) =>
      if id in host.open || id in host.ended then None else Some(host.(open := host.open + [id]))
    case ActivityUpdated(id, _) => if id in host.open then Some(host) else None
    case ActivityCompleted(id, _) =>
      if id in host.open then Some(host.(open := Discard(host.open, {id}), ended := host.ended + {id})) else None
    case ReasoningStarted => if host.reasoning then None else Some(host.(reasoning := true))
    case ReasoningDelta(_) => if host.reasoning then Some(host) else None
    case ReasoningEnded => if host.reasoning then Some(host.(reasoning := false)) else None
    case TextDelta(_) | ThreadUsage(_, _) => Some(host)
  }

  function HearAll(host: Option<Host>, events: seq<Event>): Option<Host> {
    if events == [] then host
    else
      var before := HearAll(host, events[..|events| - 1]);
      if before.None? then None else Hear(before.value, events[|events| - 1])
  }

  lemma {:induction false} HearAllConcat(host: Option<Host>, a: seq<Event>, b: seq<Event>)
    ensures HearAll(host, a + b) == HearAll(HearAll(host, a), b)
  {
    if b == [] {
      assert a + b == a;
    } else {
      var n := |b| - 1;
      HearAllConcat(host, a, b[..n]);
      assert (a + b)[..|a + b| - 1] == a + b[..n];
    }
  }

  lemma DiscardContents(ids: seq<string>, gone: set<string>)
    ensures forall other :: other in Discard(ids, gone) <==> other in ids && other !in gone
  {
  }

  predicate Distinct(ids: seq<string>) {
    forall i, j :: 0 <= i < j < |ids| ==> ids[i] != ids[j]
  }

  lemma {:induction false} DiscardDistinct(ids: seq<string>, gone: set<string>)
    requires Distinct(ids)
    ensures Distinct(Discard(ids, gone))
  {
    if ids != [] {
      assert Distinct(ids[1..]);
      DiscardDistinct(ids[1..], gone);
      DiscardContents(ids[1..], gone);
      assert ids[0] !in ids[1..];
    }
  }

  lemma {:induction false} DiscardConcat(a: seq<string>, b: seq<string>, gone: set<string>)
    ensures Discard(a + b, gone) == Discard(a, gone) + Discard(b, gone)
  {
    if a == [] {
      assert a + b == b;
    } else {
      assert (a + b)[1..] == a[1..] + b;
      DiscardConcat(a[1..], b, gone);
    }
  }

  lemma DiscardNothing(ids: seq<string>, gone: set<string>)
    requires forall id <- ids :: id !in gone
    ensures Discard(ids, gone) == ids
  {
  }

  lemma {:induction false} DiscardTwice(ids: seq<string>, first: set<string>, second: set<string>)
    ensures Discard(Discard(ids, first), second) == Discard(ids, first + second)
  {
    if ids != [] {
      DiscardTwice(ids[1..], first, second);
      DiscardConcat(if ids[0] in first then [] else [ids[0]], Discard(ids[1..], first), second);
    }
  }

  /** What a listener holds is what the counts say. */
  ghost predicate Counted(host: Host, events: seq<Event>) {
    && (forall id :: Starts(events, id) == if id in host.open || id in host.ended then 1 else 0)
    && (forall id :: Ends(events, id) == if id in host.ended then 1 else 0)
    && (forall id <- host.open :: id !in host.ended)
    && ReasoningStarts(events) == ReasoningEnds(events) + if host.reasoning then 1 else 0
  }

  lemma HearingCounts(host: Host, events: seq<Event>, event: Event)
    requires Counted(host, events) && Hear(host, event).Some?
    ensures Counted(Hear(host, event).value, events + [event])
  {
    assert (events + [event])[..|events|] == events;
    if event.ActivityCompleted? {
      DiscardContents(host.open, {event.id});
    }
  }

  lemma {:induction false} HeardIsCounted(events: seq<Event>)
    requires HearAll(Some(QUIET), events).Some?
    ensures Counted(HearAll(Some(QUIET), events).value, events)
  {
    if events != [] {
      var n := |events| - 1;
      HeardIsCounted(events[..n]);
      HearingCounts(HearAll(Some(QUIET), events[..n]).value, events[..n], events[n]);
      assert events[..n] + [events[n]] == events;
    }
  }

  lemma {:induction false} HeardPrefix(events: seq<Event>, n: nat)
    requires n <= |events| && HearAll(Some(QUIET), events).Some?
    ensures HearAll(Some(QUIET), events[..n]).Some?
    ensures n < |events| ==> Hear(HearAll(Some(QUIET), events[..n]).value, events[n]).Some?
    decreases |events| - n
  {
    if n == |events| {
      assert events[..n] == events;
    } else {
      HeardPrefix(events, n + 1);
      assert events[..n + 1][..n] == events[..n];
    }
  }

  /** A listener that refuses nothing heard a well bracketed turn. */
  lemma HeardIsBracketed(events: seq<Event>)
    requires HearAll(Some(QUIET), events).Some?
    ensures Bracketed(events)
  {
    forall n: nat | n <= |events|
      ensures InPlace(events, n)
    {
      HeardPrefix(events, n);
      HeardIsCounted(events[..n]);
    }
  }

  // The reducer and its listener agree.

  /** A call the reducer reported under an id the core refuses: started, and never heard of again. */
  predicate Orphaned(core: Core, s: State, id: string) {
    !core.publishes(id) && id !in s.openCalls && core.digest(id) in s.finishedCalls
  }

  /** The running calls among `ids` are listed in the order they were opened. */
  ghost predicate Rising(ids: seq<string>, calls: map<string, OpenCall>) {
    forall i, j :: 0 <= i < j < |ids| && ids[i] in calls && ids[j] in calls ==>
      calls[ids[i]].openedAt < calls[ids[j]].openedAt
  }

  lemma {:induction false} DiscardRising(ids: seq<string>, gone: set<string>, calls: map<string, OpenCall>)
    requires Rising(ids, calls)
    ensures Rising(Discard(ids, gone), calls)
  {
    if ids != [] {
      assert Rising(ids[1..], calls);
      DiscardRising(ids[1..], gone, calls);
      DiscardContents(ids[1..], gone);
      forall other | other in Discard(ids[1..], gone) && ids[0] in calls && other in calls
        ensures calls[ids[0]].openedAt < calls[other].openedAt
      {
        assert other in ids[1..];
      }
    }
  }

  ghost predicate Follows(core: Core, host: Host, s: State) {
    && host.reasoning == s.reasoningOpen
    && Distinct(host.open)
    && PLAN_CALL_ID !in s.openCalls
    && (PLAN_CALL_ID in host.open <==> s.planStarted)
    && PLAN_CALL_ID !in host.ended
    && (forall id <- host.open :: id == PLAN_CALL_ID || id in s.openCalls || Orphaned(core, s, id))
    && (forall id <- s.openCalls :: id in host.open && core.publishes(id) && s.openCalls[id].openedAt < s.nextCall)
    && (forall id <- host.ended :: core.digest(id) in s.finishedCalls && id !in host.open)
    && Rising(host.open, s.openCalls)
  }

  ghost predicate StillFollows(core: Core, host: Host, r: Reduction) {
    var heard := HearAll(Some(host), r.events);
    heard.Some? && Follows(core, heard.value, r.state)
  }

  lemma HearOne(host: Host, event: Event)
    ensures HearAll(Some(host), [event]) == Hear(host, event)
  {
  }

  lemma HearTwo(host: Host, first: Event, second: Event)
    ensures HearAll(Some(host), [first, second])
      == if Hear(host, first).None? then None else Hear(Hear(host, first).value, second)
  {
    HearOne(host, first);
    assert [first, second][..1] == [first];
  }

  /** A call the host has just been told about, tracked as running. */
  lemma OpeningFollows(core: Core, host: Host, s: State, id: string)
    requires Follows(core, host, s) && id !in host.open && id !in host.ended
    requires id != PLAN_CALL_ID && core.publishes(id)
    ensures Follows(core, host.(open := host.open + [id]), Track(core, s, id, false))
  {
  }

  /** A call under an id the core refuses, remembered only as ended. */
  lemma OrphaningFollows(core: Core, host: Host, s: State, id: string)
    requires Follows(core, host, s) && id !in host.open && id !in host.ended
    requires id != PLAN_CALL_ID && !core.publishes(id) && id !in s.openCalls
    ensures Follows(core, host.(open := host.open + [id]), Track(core, s, id, true))
  {
  }

  lemma NeverHeardOf(core: Core, host: Host, s: State, id: string)
    requires Follows(core, host, s) && id !in s.openCalls && id != PLAN_CALL_ID
    requires !IsFinished(core, s, id)
    ensures id !in host.open && id !in host.ended
  {
  }

  /** A call that started and ended in one frame. */
  lemma OverAtOnceFollows(core: Core, host: Host, s: State, id: string)
    requires Follows(core, host, s) && id !in host.open && id !in host.ended && id != PLAN_CALL_ID
    ensures Follows(core, host.(ended := host.ended + {id}), Track(core, s, id, true))
  {
  }

  lemma StartedHeard(host: Host, started: Event)
    requires started.ActivityStarted? && started.id !in host.open && started.id !in host.ended
    ensures HearAll(Some(host), [started]) == Some(host.(open := host.open + [started.id]))
  {
  }

  lemma StartedAndEndedHeard(host: Host, started: Event, completed: Event)
    requires started.ActivityStarted? && started.id !in host.open && started.id !in host.ended
    requires completed.ActivityCompleted? && completed.id == started.id
    ensures HearAll(Some(host), [started, completed]) == Some(host.(ended := host.ended + {started.id}))
  {
    HearTwo(host, started, completed);
    DiscardConcat(host.open, [started.id], {started.id});
    DiscardNothing(host.open, {started.id});
    assert Discard(host.open + [started.id], {started.id}) == host.open;
  }

  lemma AnnounceFollows(core: Core, host: Host, s: State, id: string, call: ToolCall)
    requires Follows(core, host, s) && id !in s.openCalls && id != PLAN_CALL_ID
    ensures StillFollows(core, host, Announce(core, s, id, call))
  {
    if !IsFinished(core, s, id) {
      NeverHeardOf(core, host, s, id);
      var started := ActivityStarted(id, StartedActivity(core, call));
      if Finished(call.status).Some? {
        var completed := ActivityCompleted(id, Result(Finished(call.status).value, None, None));
        assert AnnouncedEvents(core, id, call) == [started, completed];
        StartedAndEndedHeard(host, started, completed);
        OverAtOnceFollows(core, host, s, id);
      } else {
        assert AnnouncedEvents(core, id, call) == [started];
        StartedHeard(host, started);
        if core.publishes(id) {
          OpeningFollows(core, host, s, id);
        } else {
          OrphaningFollows(core, host, s, id);
        }
      }
    }
  }

  /** The end of a running call, with or without last words, is heard and followed. */
  lemma EndCallFollows(core: Core, host: Host, s: State, id: string, result: Result)
    requires Follows(core, host, s) && id in s.openCalls
    ensures StillFollows(core, host, EndCall(core, s, id, result))
  {
    EndCallHeard(core, host, s, id, result);
    EndedFollows(core, host, s, id);
  }

  lemma EndCallHeard(core: Core, host: Host, s: State, id: string, result: Result)
    requires id in s.openCalls && id in host.open
    ensures HearAll(Some(host), EndCall(core, s, id, result).events)
      == Some(host.(open := Discard(host.open, {id}), ended := host.ended + {id}))
  {
    var completed := ActivityCompleted(id, result);
    var last := LastWords(id, s.openCalls[id], result);
    if last == [] {
      HearOne(host, completed);
      assert last + [completed] == [completed];
    } else {
      HearTwo(host, last[0], completed);
      assert last + [completed] == [last[0], completed];
    }
  }

  lemma EndedFollows(core: Core, host: Host, s: State, id: string)
    requires Follows(core, host, s) && id in s.openCalls
    ensures Follows(
      core, host.(open := Discard(host.open, {id}), ended := host.ended + {id}),
      MarkFinished(core, s.(openCalls := s.openCalls - {id}), id))
  {
    DiscardContents(host.open, {id});
    DiscardDistinct(host.open, {id});
    DiscardRising(host.open, {id}, s.openCalls);
  }

  lemma SayOrHoldFollows(core: Core, policy: Policy, host: Host, s: State, id: string, update: Update, now: nat)
    requires Follows(core, host, s) && id in s.openCalls
    ensures StillFollows(core, host, SayOrHold(core, policy, s, id, update, now))
  {
    var r := SayOrHold(core, policy, s, id, update, now);
    if r.events != [] {
      HearOne(host, r.events[0]);
    }
    RevisedFollows(core, host, s, id, r.state.openCalls[id]);
  }

  lemma RevisedFollows(core: Core, host: Host, s: State, id: string, call: OpenCall)
    requires Follows(core, host, s) && id in s.openCalls && call.openedAt == s.openCalls[id].openedAt
    ensures Follows(core, host, s.(openCalls := s.openCalls[id := call]))
  {
  }

  lemma ReviseOpenFollows(
    core: Core, policy: Policy, host: Host, s: State, id: string, fields: ToolCallFields, now: nat)
    requires Follows(core, host, s) && id in s.openCalls
    ensures StillFollows(core, host, ReviseOpen(core, policy, s, id, fields, now))
  {
    match UpdateMeaning(fields) {
      case Ends(result) => EndCallFollows(core, host, s, id, result);
      case Says(update) =>
        if !update.IsEmpty() {
          SayOrHoldFollows(core, policy, host, s, id, update, now);
        }
    }
  }

  lemma PlanFollows(core: Core, host: Host, s: State, entries: seq<PlanEntry>)
    requires Follows(core, host, s)
    ensures StillFollows(core, host, PlanReduction(s, entries))
  {
    var event := PlanReduction(s, entries).events[0];
    HearOne(host, event);
    if !s.planStarted {
      var extended := host.open + [PLAN_CALL_ID];
      assert forall i :: 0 <= i < |extended| ==> extended[i] == if i < |host.open| then host.open[i] else PLAN_CALL_ID;
    }
  }

  lemma ReasoningFollows(core: Core, host: Host, s: State, text: string)
    requires Follows(core, host, s)
    ensures StillFollows(core, host, ReasoningStep(s, Some(text)))
  {
    var delta := ReasoningDelta(text);
    if s.reasoningOpen {
      HearOne(host, delta);
      assert ReasoningStep(s, Some(text)).events == [delta];
    } else {
      HearTwo(host, ReasoningStarted, delta);
      assert ReasoningStep(s, Some(text)).events == [ReasoningStarted, delta];
    }
  }

  lemma CloseReasoningFollows(core: Core, host: Host, s: State)
    requires Follows(core, host, s)
    ensures StillFollows(core, host, CloseReasoning(s))
  {
  }

  lemma BodyFollows(core: Core, policy: Policy, host: Host, s: State, frame: Frame, now: nat)
    requires Follows(core, host, s)
    ensures StillFollows(core, host, Body(core, policy, s, frame, now))
  {
    match frame {
      case AgentMessage(text) => HearOne(host, TextDelta(text.GetOr("")));
      case AgentThought(text) =>
        if text.Some? {
          ReasoningFollows(core, host, s, text.value);
        }
      case ToolCallFrame(id, call) =>
        AgentIdIsNeverThePlan(id);
        if ClearOfPlan(id) in s.openCalls {
          ReviseOpenFollows(core, policy, host, s, ClearOfPlan(id), RepeatFields(call), now);
        } else {
          AnnounceFollows(core, host, s, ClearOfPlan(id), call);
        }
      case ToolCallUpdateFrame(id, fields) =>
        AgentIdIsNeverThePlan(id);
        if ClearOfPlan(id) in s.openCalls {
          ReviseOpenFollows(core, policy, host, s, ClearOfPlan(id), fields, now);
        } else {
          AnnounceFollows(core, host, s, ClearOfPlan(id), FirstSighting(fields));
        }
      case PlanFrame(entries) => PlanFollows(core, host, s, entries);
      case UsageFrame(used, size) => HearOne(host, ThreadUsage(used, size));
      case _ =>
    }
  }

  lemma ReduceFollows(core: Core, policy: Policy, host: Host, s: State, frame: Frame, now: nat)
    requires Follows(core, host, s)
    ensures StillFollows(core, host, Reduce(core, policy, s, frame, now))
  {
    var first := if Transcript(frame) then CloseReasoning(s) else Reduction(s, []);
    CloseReasoningFollows(core, host, s);
    var mid := HearAll(Some(host), first.events).value;
    BodyFollows(core, policy, mid, first.state, frame, now);
    HearAllConcat(Some(host), first.events, Body(core, policy, first.state, frame, now).events);
  }

  /** After any run of frames, a listener refused nothing and holds open exactly what the reducer does. */
  lemma {:induction false} RunFollows(core: Core, policy: Policy, inputs: seq<Input>)
    ensures StillFollows(core, QUIET, Run(core, policy, inputs))
  {
    if inputs != [] {
      var n := |inputs| - 1;
      RunFollows(core, policy, inputs[..n]);
      var before := Run(core, policy, inputs[..n]);
      var host := HearAll(Some(QUIET), before.events).value;
      ReduceFollows(core, policy, host, before.state, inputs[n].frame, inputs[n].now);
      HearAllConcat(
        Some(QUIET), before.events,
        Reduce(core, policy, before.state, inputs[n].frame, inputs[n].now).events);
    }
  }

  // The end of the turn.

  /** The ids that start, and those that end, in the order a listener hears them. */
  function StartOrder(events: seq<Event>): seq<string> {
    if events == [] then []
    else
      var n := |events| - 1;
      StartOrder(events[..n]) + if events[n].ActivityStarted? then [events[n].id] else []
  }

  function EndOrder(events: seq<Event>): seq<string> {
    if events == [] then []
    else
      var n := |events| - 1;
      EndOrder(events[..n]) + if events[n].ActivityCompleted? then [events[n].id] else []
  }

  lemma {:induction false} EndOrderConcat(a: seq<Event>, b: seq<Event>)
    ensures EndOrder(a + b) == EndOrder(a) + EndOrder(b)
  {
    if b == [] {
      assert a + b == a;
    } else {
      EndOrderConcat(a, b[..|b| - 1]);
      assert (a + b)[..|a + b| - 1] == a + b[..|b| - 1];
    }
  }

  /** A listener holds open what started, in that order, without what it saw end. */
  lemma {:induction false} HeldOpenInStartOrder(events: seq<Event>)
    requires HearAll(Some(QUIET), events).Some?
    ensures var host := HearAll(Some(QUIET), events).value;
      host.open == Discard(StartOrder(events), host.ended)
  {
    if events != [] {
      var n := |events| - 1;
      HeldOpenInStartOrder(events[..n]);
      var before := HearAll(Some(QUIET), events[..n]).value;
      if events[n].ActivityStarted? {
        DiscardConcat(StartOrder(events[..n]), [events[n].id], before.ended);
      } else if events[n].ActivityCompleted? {
        DiscardTwice(StartOrder(events[..n]), before.ended, {events[n].id});
      }
      assert !events[n].ActivityStarted? ==> StartOrder(events) == StartOrder(events[..n]);
    }
  }

  /** The calls still running, in the order the host saw them start. */
  function Running(ids: seq<string>, calls: map<string, OpenCall>): seq<string> {
    if ids == [] then []
    else (if ids[0] in calls then [ids[0]] else []) + Running(ids[1..], calls)
  }

  lemma {:induction false} RunningIsOpeningOrder(ids: seq<string>, calls: map<string, OpenCall>)
    requires Rising(ids, calls)
    ensures forall id :: id in Running(ids, calls) <==> id in ids && id in calls
    ensures forall i, j :: 0 <= i < j < |Running(ids, calls)| ==>
      calls[Running(ids, calls)[i]].openedAt < calls[Running(ids, calls)[j]].openedAt
  {
    if ids != [] {
      assert Rising(ids[1..], calls);
      RunningIsOpeningOrder(ids[1..], calls);
      forall other | other in Running(ids[1..], calls) && ids[0] in calls
        ensures calls[ids[0]].openedAt < calls[other].openedAt
      {
        assert other in ids[1..];
      }
    }
  }

  lemma EmptyTogether(a: seq<string>, b: seq<string>)
    requires forall id :: id in a <==> id in b
    ensures a == [] <==> b == []
  {
    if a != [] {
      assert a[0] in b;
    }
    if b != [] {
      assert b[0] in a;
    }
  }

  /** There is one order the running calls were opened in. */
  lemma {:induction false} OneOpeningOrder(calls: map<string, OpenCall>, a: seq<string>, b: seq<string>)
    requires IsOpeningOrder(calls, a) && IsOpeningOrder(calls, b)
    ensures a == b
    decreases |a|
  {
    EmptyTogether(a, b);
    if a != [] {
      var n, m := |a| - 1, |b| - 1;
      LastOpened(calls, a, b);
      LastOpened(calls, b, a);
      var rest := calls - {a[n]};
      DropLastOpened(calls, a);
      DropLastOpened(calls, b);
      OneOpeningOrder(rest, a[..n], b[..m]);
      assert a == a[..n] + [a[n]] && b == b[..m] + [b[m]];
    }
  }

  lemma LastOpened(calls: map<string, OpenCall>, a: seq<string>, b: seq<string>)
    requires IsOpeningOrder(calls, a) && IsOpeningOrder(calls, b) && a != [] && b != []
    ensures b[|b| - 1] in calls && a[|a| - 1] in calls
    ensures calls[b[|b| - 1]].openedAt <= calls[a[|a| - 1]].openedAt
    ensures calls[b[|b| - 1]].openedAt == calls[a[|a| - 1]].openedAt ==> a[|a| - 1] == b[|b| - 1]
  {
  }

  lemma DropLastOpened(calls: map<string, OpenCall>, a: seq<string>)
    requires IsOpeningOrder(calls, a) && a != []
    ensures IsOpeningOrder(calls - {a[|a| - 1]}, a[..|a| - 1])
  {
  }

  lemma ClosingOfCallHeard(host: Host, id: string, call: OpenCall, outcome: Outcome)
    requires id in host.open
    ensures HearAll(Some(host), ClosingOfCall(id, call, outcome)) == Some(Ended(host, {id}))
  {
    var completed := ActivityCompleted(id, Result(outcome, None, None));
    var closing := ClosingOfCall(id, call, outcome);
    if |closing| == 1 {
      assert closing == [completed];
      HearOne(host, completed);
    } else {
      assert closing == [closing[0], completed];
      HearTwo(host, closing[0], completed);
    }
  }

  lemma EndOrderOne(event: Event)
    ensures EndOrder([event]) == if event.ActivityCompleted? then [event.id] else []
  {
  }

  lemma ClosingOfCallEnds(id: string, call: OpenCall, outcome: Outcome)
    ensures EndOrder(ClosingOfCall(id, call, outcome)) == [id]
  {
    var completed := ActivityCompleted(id, Result(outcome, None, None));
    var closing := ClosingOfCall(id, call, outcome);
    EndOrderOne(completed);
    if |closing| == 1 {
      assert closing == [completed];
    } else {
      assert closing == [closing[0]] + [completed];
      EndOrderOne(closing[0]);
      EndOrderConcat([closing[0]], [completed]);
    }
  }

  function Members(ids: seq<string>): set<string> {
    set id | id in ids
  }

  /** A listener that saw every call in `gone` end. */
  function Ended(host: Host, gone: set<string>): Host {
    host.(open := Discard(host.open, gone), ended := host.ended + gone)
  }

  lemma EndedTwice(host: Host, first: set<string>, second: set<string>)
    ensures Ended(Ended(host, first), second) == Ended(host, first + second)
  {
    DiscardTwice(host.open, first, second);
    assert host.ended + first + second == host.ended + (first + second);
  }

  lemma EndedNone(host: Host)
    ensures Ended(host, {}) == host
  {
    DiscardNothing(host.open, {});
    assert host.ended + {} == host.ended;
  }

  /** The leftovers' closing events are heard, each in its place. */
  lemma {:induction false} ClosingOfCallsHeard(
    host: Host, calls: map<string, OpenCall>, order: seq<string>, outcome: Outcome)
    requires Distinct(order) && forall id <- order :: id in calls && id in host.open
    ensures HearAll(Some(host), ClosingOfCalls(calls, order, outcome)) == Some(Ended(host, Members(order)))
  {
    if order == [] {
      assert Members(order) == {};
      EndedNone(host);
    } else {
      var n := |order| - 1;
      var id := order[n];
      ClosingOfCallsHeard(host, calls, order[..n], outcome);
      var mid := Ended(host, Members(order[..n]));
      DiscardContents(host.open, Members(order[..n]));
      assert id !in order[..n];
      ClosingOfCallHeard(mid, id, calls[id], outcome);
      HearAllConcat(Some(host), ClosingOfCalls(calls, order[..n], outcome), ClosingOfCall(id, calls[id], outcome));
      EndedTwice(host, Members(order[..n]), {id});
      assert Members(order[..n]) + {id} == Members(order);
    }
  }

  /** They end the leftovers in the order the calls were opened. */
  lemma {:induction false} ClosingOfCallsInOrder(calls: map<string, OpenCall>, order: seq<string>, outcome: Outcome)
    requires forall id <- order :: id in calls
    ensures EndOrder(ClosingOfCalls(calls, order, outcome)) == order
  {
    if order != [] {
      var n := |order| - 1;
      var id := order[n];
      var earlier := ClosingOfCalls(calls, order[..n], outcome);
      var last := ClosingOfCall(id, calls[id], outcome);
      ClosingOfCallsInOrder(calls, order[..n], outcome);
      ClosingOfCallEnds(id, calls[id], outcome);
      assert EndOrder(earlier + last) == order[..n] + [id] by {
        EndOrderConcat(earlier, last);
      }
      assert order[..n] + [id] == order;
    }
  }

  /** What a listener heard of the run, which it refused nothing of. */
  function HostAfter(core: Core, policy: Policy, inputs: seq<Input>): Option<Host> {
    HearAll(Some(QUIET), Run(core, policy, inputs).events)
  }

  function Turn(core: Core, policy: Policy, inputs: seq<Input>, order: seq<string>, outcome: Outcome): seq<Event>
    requires forall id <- order :: id in Run(core, policy, inputs).state.openCalls
  {
    var run := Run(core, policy, inputs);
    run.events + FinishInOrder(core, run.state, order, outcome).events
  }

  /** The running calls have an opening order, and it is the order the host saw them start in. */
  lemma OpeningOrderExists(core: Core, policy: Policy, inputs: seq<Input>)
    ensures var run := Run(core, policy, inputs);
      IsOpeningOrder(run.state.openCalls, Running(StartOrder(run.events), run.state.openCalls))
  {
    RunFollows(core, policy, inputs);
    var run := Run(core, policy, inputs);
    var host := HostAfter(core, policy, inputs).value;
    HeldOpenInStartOrder(run.events);
    RunningIsOpeningOrder(host.open, run.state.openCalls);
    RunningAfterDiscard(StartOrder(run.events), host.ended, run.state.openCalls);
  }

  lemma {:induction false} RunningAfterDiscard(ids: seq<string>, gone: set<string>, calls: map<string, OpenCall>)
    requires forall id <- gone :: id !in calls
    ensures Running(Discard(ids, gone), calls) == Running(ids, calls)
  {
    if ids != [] {
      RunningAfterDiscard(ids[1..], gone, calls);
      if ids[0] in gone {
        assert Discard(ids, gone) == Discard(ids[1..], gone);
      } else {
        assert Discard(ids, gone)[1..] == Discard(ids[1..], gone);
      }
    }
  }

  lemma OpeningOrderIsDistinct(calls: map<string, OpenCall>, order: seq<string>)
    requires IsOpeningOrder(calls, order)
    ensures Distinct(order)
  {
  }

  function PlanClosing(s: State): seq<Event> {
    if s.planStarted then [ActivityCompleted(PLAN_CALL_ID, Result(Succeeded, None, None))] else []
  }

  lemma PlanClosingHeard(host: Host, s: State)
    requires s.planStarted ==> PLAN_CALL_ID in host.open
    ensures HearAll(Some(host), PlanClosing(s)) == Some(if s.planStarted then Ended(host, {PLAN_CALL_ID}) else host)
  {
  }

  /** What a listener is left with once a turn is finished. */
  function Settled(host: Host, s: State, order: seq<string>): Host {
    var done := Ended(host.(reasoning := false), Members(order));
    if s.planStarted then Ended(done, {PLAN_CALL_ID}) else done
  }

  lemma FinishIsHeard(core: Core, host: Host, s: State, order: seq<string>, outcome: Outcome)
    requires Follows(core, host, s) && IsOpeningOrder(s.openCalls, order)
    ensures HearAll(Some(host), FinishInOrder(core, s, order, outcome).events) == Some(Settled(host, s, order))
  {
    var quiet := host.(reasoning := false);
    HearOne(host, ReasoningEnded);
    OpeningOrderIsDistinct(s.openCalls, order);
    ClosingOfCallsHeard(quiet, s.openCalls, order, outcome);
    var closing := ClosingOfCalls(s.openCalls, order, outcome);
    HearAllConcat(Some(host), CloseReasoning(s).events, closing);
    DiscardContents(host.open, Members(order));
    PlanClosingHeard(Ended(quiet, Members(order)), s);
    HearAllConcat(Some(host), CloseReasoning(s).events + closing, PlanClosing(s));
  }

  /** Only a call the core publishes nothing about is left open once a turn is finished. */
  lemma OnlyOrphansRemain(core: Core, host: Host, s: State, order: seq<string>)
    requires Follows(core, host, s) && IsOpeningOrder(s.openCalls, order)
    ensures !Settled(host, s, order).reasoning
    ensures forall id <- Settled(host, s, order).open :: !core.publishes(id)
  {
    var done := Ended(host.(reasoning := false), Members(order));
    DiscardContents(host.open, Members(order));
    DiscardContents(done.open, {PLAN_CALL_ID});
  }

  /**
    A turn is any run of frames and then its end. No id starts twice, updates and completions fall
    only between a call's start and its one completion, reasoning alternates, and everything
    started under an id the core publishes is completed exactly once.
  */
  lemma TurnIsWellBracketed(
    core: Core, policy: Policy, inputs: seq<Input>, order: seq<string>, outcome: Outcome)
    requires IsOpeningOrder(Run(core, policy, inputs).state.openCalls, order)
    ensures Bracketed(Turn(core, policy, inputs, order, outcome))
    ensures Balanced(core, Turn(core, policy, inputs, order, outcome))
  {
    RunFollows(core, policy, inputs);
    TurnIsHeard(core, Run(core, policy, inputs), HostAfter(core, policy, inputs).value, order, outcome);
  }

  lemma TurnIsHeard(core: Core, run: Reduction, host: Host, order: seq<string>, outcome: Outcome)
    requires HearAll(Some(QUIET), run.events) == Some(host)
    requires Follows(core, host, run.state) && IsOpeningOrder(run.state.openCalls, order)
    ensures var events := run.events + FinishInOrder(core, run.state, order, outcome).events;
      Bracketed(events) && Balanced(core, events)
  {
    var events := run.events + FinishInOrder(core, run.state, order, outcome).events;
    FinishIsHeard(core, host, run.state, order, outcome);
    OnlyOrphansRemain(core, host, run.state, order);
    HearAllConcat(Some(QUIET), run.events, FinishInOrder(core, run.state, order, outcome).events);
    HeardIsBracketed(events);
    HeardIsCounted(events);
  }

  lemma FinishEndOrder(core: Core, s: State, order: seq<string>, outcome: Outcome)
    requires forall id <- order :: id in s.openCalls
    ensures EndOrder(FinishInOrder(core, s, order, outcome).events)
      == order + if s.planStarted then [PLAN_CALL_ID] else []
  {
    ClosingOfCallsInOrder(s.openCalls, order, outcome);
    var quiet := CloseReasoning(s).events;
    var closing := ClosingOfCalls(s.openCalls, order, outcome);
    assert EndOrder(quiet) == [] by {
      EndOrderOne(ReasoningEnded);
    }
    assert EndOrder(PlanClosing(s)) == if s.planStarted then [PLAN_CALL_ID] else [] by {
      EndOrderOne(ActivityCompleted(PLAN_CALL_ID, Result(Succeeded, None, None)));
    }
    assert EndOrder(quiet + closing) == order by {
      EndOrderConcat(quiet, closing);
    }
    assert EndOrder(quiet + closing + PlanClosing(s)) == order + EndOrder(PlanClosing(s)) by {
      EndOrderConcat(quiet + closing, PlanClosing(s));
    }
  }

  lemma PlanStartsWhenHeard(core: Core, policy: Policy, inputs: seq<Input>)
    ensures var run := Run(core, policy, inputs);
      run.state.planStarted <==> PLAN_CALL_ID in StartOrder(run.events)
  {
    RunFollows(core, policy, inputs);
    var events := Run(core, policy, inputs).events;
    HeldOpenInStartOrder(events);
    DiscardContents(StartOrder(events), HostAfter(core, policy, inputs).value.ended);
  }

  /** What a turn ends owing is closed in the order the host saw it start, and the plan last. */
  lemma LeftoversCloseInOpeningOrder(
    core: Core, policy: Policy, inputs: seq<Input>, order: seq<string>, outcome: Outcome)
    requires IsOpeningOrder(Run(core, policy, inputs).state.openCalls, order)
    ensures var run := Run(core, policy, inputs);
      EndOrder(FinishInOrder(core, run.state, order, outcome).events)
      == Running(StartOrder(run.events), run.state.openCalls)
         + if PLAN_CALL_ID in StartOrder(run.events) then [PLAN_CALL_ID] else []
  {
    var run := Run(core, policy, inputs);
    OpeningOrderExists(core, policy, inputs);
    OneOpeningOrder(run.state.openCalls, order, Running(StartOrder(run.events), run.state.openCalls));
    FinishEndOrder(core, run.state, order, outcome);
    PlanStartsWhenHeard(core, policy, inputs);
  }

  /** Whether something is held back for the call, to be said before its end. */
  predicate HoldsBack(call: OpenCall) {
    call.held.Some? && !call.held.value.IsEmpty()
  }

  /** What was held for a call stands right before its end, and no other update does. */
  predicate HeldFirst(open: map<string, OpenCall>, events: seq<Event>) {
    forall k :: 0 <= k < |events| ==> HeldFirstAt(open, events, k)
  }

  predicate HeldFirstAt(open: map<string, OpenCall>, events: seq<Event>, k: nat)
    requires k < |events|
  {
    match events[k]
    case ActivityCompleted(id, _) =>
      id in open && HoldsBack(open[id]) ==>
        k > 0 && events[k - 1] == ActivityUpdated(id, open[id].held.value.IntoUpdate())
    case ActivityUpdated(id, _) =>
      && id in open && HoldsBack(open[id])
      && k + 1 < |events| && events[k + 1].ActivityCompleted? && events[k + 1].id == id
    case _ => true
  }

  lemma HeldFirstConcat(open: map<string, OpenCall>, a: seq<Event>, b: seq<Event>)
    requires HeldFirst(open, a) && HeldFirst(open, b)
    ensures HeldFirst(open, a + b)
  {
    var both := a + b;
    assert forall k :: 0 <= k < |a| ==> both[k] == a[k];
    assert forall k :: 0 <= k < |b| ==> both[|a| + k] == b[k];
    forall k | 0 <= k < |both|
      ensures HeldFirstAt(open, both, k)
    {
      if k < |a| {
        assert HeldFirstAt(open, a, k);
      } else {
        assert HeldFirstAt(open, b, k - |a|) && both[k] == b[k - |a|];
      }
    }
  }

  lemma {:induction false} ClosingSaysHeldFirst(open: map<string, OpenCall>, order: seq<string>, outcome: Outcome)
    requires forall id <- order :: id in open
    ensures HeldFirst(open, ClosingOfCalls(open, order, outcome))
  {
    if order != [] {
      var n := |order| - 1;
      assert forall id <- order[..n] :: id in order;
      ClosingSaysHeldFirst(open, order[..n], outcome);
      HeldFirstConcat(
        open, ClosingOfCalls(open, order[..n], outcome), ClosingOfCall(order[n], open[order[n]], outcome));
    }
  }

  /**
    Among the events that finish a turn, the end of a call for which something is held comes right behind that
    update; and no other update is among them.
  */
  lemma LeftoversSayWhatWasHeldFirst(
    core: Core, policy: Policy, inputs: seq<Input>, order: seq<string>, outcome: Outcome)
    requires IsOpeningOrder(Run(core, policy, inputs).state.openCalls, order)
    ensures var s := Run(core, policy, inputs).state;
      HeldFirst(s.openCalls, FinishInOrder(core, s, order, outcome).events)
  {
    var s := Run(core, policy, inputs).state;
    RunFollows(core, policy, inputs);
    var quiet := CloseReasoning(s).events;
    var plan := if s.planStarted then [ActivityCompleted(PLAN_CALL_ID, Result(Succeeded, None, None))] else [];
    ClosingSaysHeldFirst(s.openCalls, order, outcome);
    HeldFirstConcat(s.openCalls, quiet, ClosingOfCalls(s.openCalls, order, outcome));
    HeldFirstConcat(s.openCalls, quiet + ClosingOfCalls(s.openCalls, order, outcome), plan);
  }

  /** A second finish emits nothing. */
  lemma SecondFinishIsSilent(
    core: Core, s: State, order: seq<string>, again: seq<string>, outcome: Outcome, second: Outcome)
    requires forall id <- order :: id in s.openCalls
    requires IsOpeningOrder(FinishInOrder(core, s, order, outcome).state.openCalls, again)
    ensures FinishInOrder(core, FinishInOrder(core, s, order, outcome).state, again, second).events == []
  {
    EmptyTogether(again, []);
  }

  /** A call other than the plan, which started and no longer runs, has this digest. */
  ghost predicate SomeEnded(core: Core, s: State, started: seq<string>, digest: int) {
    exists id <- started :: id != PLAN_CALL_ID && id !in s.openCalls && core.digest(id) == digest
  }

  /** Every running call was seen to start, and so was a call for every digest kept as finished. */
  ghost predicate OnlyHeard(core: Core, s: State, started: seq<string>) {
    && (forall id <- s.openCalls :: id in started)
    && (forall digest <- s.finishedCalls :: SomeEnded(core, s, started, digest))
  }

  lemma MoreHeard(core: Core, s: State, started: seq<string>, more: seq<string>)
    requires OnlyHeard(core, s, started)
    ensures OnlyHeard(core, s, started + more)
  {
  }

  lemma AnnounceOnlyHeard(core: Core, s: State, started: seq<string>, id: string, call: ToolCall)
    requires OnlyHeard(core, s, started) && id !in s.openCalls && id != PLAN_CALL_ID
    ensures var r := Announce(core, s, id, call); OnlyHeard(core, r.state, started + StartOrder(r.events))
  {
    var r := Announce(core, s, id, call);
    var heard := started + StartOrder(r.events);
    AnnouncementStarts(core, s, id, call);
    MoreHeard(core, s, started, StartOrder(r.events));
    if !IsFinished(core, s, id) {
      assert id in heard;
      forall digest <- r.state.finishedCalls
        ensures SomeEnded(core, r.state, heard, digest)
      {
        if digest in s.finishedCalls {
          var other :| other in heard && other != PLAN_CALL_ID && other !in s.openCalls && core.digest(other) == digest;
          assert other !in r.state.openCalls;
        } else {
          assert digest == core.digest(id) && id !in r.state.openCalls;
        }
      }
    }
  }

  lemma ReviseOnlyHeard(
    core: Core, policy: Policy, s: State, started: seq<string>, id: string, fields: ToolCallFields, now: nat)
    requires OnlyHeard(core, s, started) && id in s.openCalls && id != PLAN_CALL_ID
    ensures OnlyHeard(core, ReviseOpen(core, policy, s, id, fields, now).state, started)
  {
  }

  lemma SameKeysOnlyHeard(core: Core, s: State, after: State, started: seq<string>)
    requires OnlyHeard(core, s, started)
    requires after.openCalls.Keys == s.openCalls.Keys && after.finishedCalls == s.finishedCalls
    ensures OnlyHeard(core, after, started)
  {
  }

  lemma BodyOnlyHeard(core: Core, policy: Policy, s: State, started: seq<string>, frame: Frame, now: nat)
    requires OnlyHeard(core, s, started)
    ensures var r := Body(core, policy, s, frame, now); OnlyHeard(core, r.state, started + StartOrder(r.events))
  {
    var r := Body(core, policy, s, frame, now);
    match frame
    case ToolCallFrame(id, call) =>
      AgentIdIsNeverThePlan(id);
      if ClearOfPlan(id) in s.openCalls {
        ReviseOnlyHeard(core, policy, s, started, ClearOfPlan(id), RepeatFields(call), now);
        MoreHeard(core, r.state, started, StartOrder(r.events));
      } else {
        AnnounceOnlyHeard(core, s, started, ClearOfPlan(id), call);
      }
    case ToolCallUpdateFrame(id, fields) =>
      AgentIdIsNeverThePlan(id);
      if ClearOfPlan(id) in s.openCalls {
        ReviseOnlyHeard(core, policy, s, started, ClearOfPlan(id), fields, now);
        MoreHeard(core, r.state, started, StartOrder(r.events));
      } else {
        AnnounceOnlyHeard(core, s, started, ClearOfPlan(id), FirstSighting(fields));
      }
    case _ =>
      assert r.state.openCalls == s.openCalls && r.state.finishedCalls == s.finishedCalls;
      SameKeysOnlyHeard(core, s, r.state, started);
      MoreHeard(core, r.state, started, StartOrder(r.events));
  }

  lemma ReduceOnlyHeard(core: Core, policy: Policy, s: State, started: seq<string>, frame: Frame, now: nat)
    requires OnlyHeard(core, s, started)
    ensures var r := Reduce(core, policy, s, frame, now); OnlyHeard(core, r.state, started + StartOrder(r.events))
  {
    var first := if Transcript(frame) then CloseReasoning(s) else Reduction(s, []);
    var body := Body(core, policy, first.state, frame, now);
    QuietStartsNothing(s);
    SameKeysOnlyHeard(core, s, first.state, started);
    BodyOnlyHeard(core, policy, first.state, started, frame, now);
    StartOrderConcat(first.events, body.events);
    assert StartOrder(first.events) == [] by {
      if !Transcript(frame) {
        assert first.events == [];
      }
    }
    assert [] + StartOrder(body.events) == StartOrder(body.events);
  }

  lemma {:induction false} RunOnlyHeard(core: Core, policy: Policy, inputs: seq<Input>)
    ensures OnlyHeard(core, Run(core, policy, inputs).state, StartOrder(Run(core, policy, inputs).events))
  {
    if inputs != [] {
      var n := |inputs| - 1;
      var before := Run(core, policy, inputs[..n]);
      RunOnlyHeard(core, policy, inputs[..n]);
      ReduceOnlyHeard(core, policy, before.state, StartOrder(before.events), inputs[n].frame, inputs[n].now);
      StartOrderConcat(before.events, Reduce(core, policy, before.state, inputs[n].frame, inputs[n].now).events);
    }
  }

  /** The call a frame is about. */
  function Mentioned(frame: Frame): Option<string> {
    match frame
    case ToolCallFrame(id, _) => Some(ClearOfPlan(id))
    case ToolCallUpdateFrame(id, _) => Some(ClearOfPlan(id))
    case _ => None
  }

  /** A call that started and no longer runs was remembered as finished. */
  lemma EndedIsRemembered(core: Core, policy: Policy, inputs: seq<Input>, id: string)
    requires id in StartOrder(Run(core, policy, inputs).events) && id != PLAN_CALL_ID
    requires id !in Run(core, policy, inputs).state.openCalls
    ensures core.digest(id) in Run(core, policy, inputs).state.finishedCalls
  {
    var events := Run(core, policy, inputs).events;
    RunFollows(core, policy, inputs);
    var host := HostAfter(core, policy, inputs).value;
    HeldOpenInStartOrder(events);
    DiscardContents(StartOrder(events), host.ended);
  }

  /** A call never heard of opens unless its digest is kept as finished. */
  lemma UnheardOpens(core: Core, policy: Policy, inputs: seq<Input>, frame: Frame, now: nat)
    requires Mentioned(frame).Some?
    requires Mentioned(frame).value !in StartOrder(Run(core, policy, inputs).events)
    ensures var s := Run(core, policy, inputs).state;
      Mentioned(frame).value in StartOrder(Reduce(core, policy, s, frame, now).events)
      <==> !IsFinished(core, s, Mentioned(frame).value)
  {
    var s, id := Run(core, policy, inputs).state, Mentioned(frame).value;
    RunOnlyHeard(core, policy, inputs);
    var quiet := CloseReasoning(s);
    var call := if frame.ToolCallFrame? then frame.call else FirstSighting(frame.fields);
    AnnouncementStarts(core, quiet.state, id, call);
    QuietStartsNothing(s);
    StartOrderConcat(quiet.events, Announce(core, quiet.state, id, call).events);
    assert Body(core, policy, quiet.state, frame, now) == Announce(core, quiet.state, id, call);
  }

  /** Whether only the plan and running calls, of all that started, share the digest of `id`. */
  ghost predicate Unshared(core: Core, run: Reduction, id: string) {
    forall other <- StartOrder(run.events) ::
      core.digest(other) == core.digest(id) ==> other == PLAN_CALL_ID || other in run.state.openCalls
  }

  /**
    The first frame that mentions a call opens its bracket exactly when no call that started and no longer
    runs shares its digest; so with digests that never collide no call is lost.
  */
  lemma FirstFrameOpens(core: Core, policy: Policy, inputs: seq<Input>, frame: Frame, now: nat)
    requires Mentioned(frame).Some?
    requires Mentioned(frame).value !in StartOrder(Run(core, policy, inputs).events)
    ensures var run := Run(core, policy, inputs);
      var opens := Mentioned(frame).value in StartOrder(Reduce(core, policy, run.state, frame, now).events);
      && (opens <==> Unshared(core, run, Mentioned(frame).value))
      && (core.InjectiveDigest() ==> opens)
  {
    var run, id := Run(core, policy, inputs), Mentioned(frame).value;
    UnheardOpens(core, policy, inputs, frame, now);
    RunOnlyHeard(core, policy, inputs);
    if IsFinished(core, run.state, id) {
      assert SomeEnded(core, run.state, StartOrder(run.events), core.digest(id));
    } else {
      forall other <- StartOrder(run.events) | core.digest(other) == core.digest(id)
        ensures other == PLAN_CALL_ID || other in run.state.openCalls
      {
        if other != PLAN_CALL_ID && other !in run.state.openCalls {
          EndedIsRemembered(core, policy, inputs, other);
        }
      }
    }
  }

  lemma StartOrderOne(event: Event)
    ensures StartOrder([event]) == if event.ActivityStarted? then [event.id] else []
  {
  }

  lemma QuietStartsNothing(s: State)
    ensures StartOrder(CloseReasoning(s).events) == []
  {
  }

  lemma AnnouncementStarts(core: Core, s: State, id: string, call: ToolCall)
    ensures StartOrder(Announce(core, s, id, call).events) == if IsFinished(core, s, id) then [] else [id]
  {
    var started := ActivityStarted(id, StartedActivity(core, call));
    StartOrderOne(started);
    if Finished(call.status).Some? {
      var completed := ActivityCompleted(id, Result(Finished(call.status).value, None, None));
      StartOrderOne(completed);
      StartOrderConcat([started], [completed]);
    } else {
      assert AnnouncedEvents(core, id, call) == [started];
    }
  }

  lemma {:induction false} StartOrderConcat(a: seq<Event>, b: seq<Event>)
    ensures StartOrder(a + b) == StartOrder(a) + StartOrder(b)
  {
    if b == [] {
      assert a + b == a;
    } else {
      StartOrderConcat(a, b[..|b| - 1]);
      assert (a + b)[..|a + b| - 1] == a + b[..|b| - 1];
    }
  }
}
