/**
  How often one running call speaks: outside its closing flush, never twice within an interval,
  whatever the clock does, and what it does not send it holds.
*/
module RateBound {
  import opened Prelude
  import opened Events
  import opened HeldMerge
  import opened ReducerSpec
  import Bracketing

  predicate Speaks(events: seq<Event>, id: string) {
    exists event <- events :: event.ActivityUpdated? && event.id == id
  }

  /** The instants of the frames at which the running call `id` sent an update and went on running. */
  function Instants(core: Core, policy: Policy, inputs: seq<Input>, id: string): seq<nat> {
    if inputs == [] then []
    else
      var n := |inputs| - 1;
      var step := Reduce(core, policy, Run(core, policy, inputs[..n]).state, inputs[n].frame, inputs[n].now);
      Instants(core, policy, inputs[..n], id)
      + if Speaks(step.events, id) && id in step.state.openCalls then [inputs[n].now] else []
  }

  ghost predicate Apart(instants: seq<nat>, interval: nat) {
    forall i, j :: 0 <= i < j < |instants| ==> instants[i] + interval <= instants[j]
  }

  /** The call's own record of when it last spoke is the last of its instants. */
  ghost predicate Remembered(core: Core, s: State, instants: seq<nat>, id: string) {
    if id in s.openCalls
    then s.openCalls[id].lastUpdate == if instants == [] then None else Some(instants[|instants| - 1])
    else instants == [] || IsFinished(core, s, id)
  }

  lemma AppendApart(instants: seq<nat>, interval: nat, now: nat)
    requires Apart(instants, interval)
    requires instants != [] ==> instants[|instants| - 1] + interval <= now
    ensures Apart(instants + [now], interval)
  {
  }

  /** A frame about the running call `id` either leaves its instant alone or speaks at `now`. */
  lemma ReviseSpeaks(core: Core, policy: Policy, s: State, id: string, fields: ToolCallFields, now: nat)
    requires id in s.openCalls
    ensures var r := ReviseOpen(core, policy, s, id, fields, now);
      && (id !in r.state.openCalls ==> IsFinished(core, r.state, id))
      && (id in r.state.openCalls && Speaks(r.events, id) ==>
            !Recent(policy, s.openCalls[id], now) && r.state.openCalls[id].lastUpdate == Some(now))
      && (id in r.state.openCalls && !Speaks(r.events, id) ==>
            r.state.openCalls[id].lastUpdate == s.openCalls[id].lastUpdate)
  {
  }

  /** A frame about another call changes nothing that is remembered of `id`. */
  ghost predicate Untouched(core: Core, s: State, r: Reduction, id: string) {
    && !Speaks(r.events, id)
    && (id in s.openCalls <==> id in r.state.openCalls)
    && (id in s.openCalls ==> s.openCalls[id] == r.state.openCalls[id])
    && s.finishedCalls <= r.state.finishedCalls
  }

  lemma ReviseOtherTouchesNothing(
    core: Core, policy: Policy, s: State, other: string, fields: ToolCallFields, now: nat, id: string)
    requires other in s.openCalls && other != id
    ensures Untouched(core, s, ReviseOpen(core, policy, s, other, fields, now), id)
  {
  }

  /** An announcement speaks for no call, and opens only one that has not ended. */
  lemma AnnounceIsNoUpdate(core: Core, s: State, other: string, call: ToolCall, id: string)
    requires other !in s.openCalls
    ensures var r := Announce(core, s, other, call);
      if id == other
      then !Speaks(r.events, id)
           && (id in r.state.openCalls ==> !IsFinished(core, s, id) && r.state.openCalls[id].lastUpdate.None?)
           && s.finishedCalls <= r.state.finishedCalls
      else Untouched(core, s, r, id)
  {
  }

  /** What one frame does to the record of `id`: its instants grow exactly when it speaks. */
  ghost predicate StepRemembers(core: Core, interval: nat, r: Reduction, instants: seq<nat>, id: string, now: nat) {
    var after := instants + if Speaks(r.events, id) && id in r.state.openCalls then [now] else [];
    Remembered(core, r.state, after, id) && Apart(after, interval)
  }

  lemma CallRemembers(
    core: Core, policy: Policy, s: State, other: string, fields: ToolCallFields, call: ToolCall, now: nat,
    instants: seq<nat>, id: string)
    requires Remembered(core, s, instants, id) && Apart(instants, policy.interval) && policy.interval > 0
    ensures StepRemembers(core, policy.interval,
      if other in s.openCalls then ReviseOpen(core, policy, s, other, fields, now) else Announce(core, s, other, call),
      instants, id, now)
  {
    if other !in s.openCalls {
      AnnounceIsNoUpdate(core, s, other, call, id);
    } else if other != id {
      ReviseOtherTouchesNothing(core, policy, s, other, fields, now, id);
    } else {
      ReviseSpeaks(core, policy, s, id, fields, now);
      var r := ReviseOpen(core, policy, s, id, fields, now);
      if Speaks(r.events, id) && id in r.state.openCalls {
        AppendApart(instants, policy.interval, now);
      }
    }
  }

  lemma BodyRemembers(
    core: Core, policy: Policy, s: State, frame: Frame, now: nat, instants: seq<nat>, id: string)
    requires Remembered(core, s, instants, id) && Apart(instants, policy.interval) && policy.interval > 0
    requires PLAN_CALL_ID !in s.openCalls
    ensures StepRemembers(core, policy.interval, Body(core, policy, s, frame, now), instants, id, now)
  {
    match frame {
      case ToolCallFrame(agentId, call) =>
        CallRemembers(core, policy, s, ClearOfPlan(agentId), RepeatFields(call), call, now, instants, id);
      case ToolCallUpdateFrame(agentId, fields) =>
        CallRemembers(core, policy, s, ClearOfPlan(agentId), fields, FirstSighting(fields), now, instants, id);
      case _ => assert id in s.openCalls ==> !Speaks(Body(core, policy, s, frame, now).events, id);
    }
  }

  lemma ReasoningSpeaksForNoCall(first: seq<Event>, next: seq<Event>, id: string)
    requires forall event <- first :: !event.ActivityUpdated?
    ensures Speaks(first + next, id) <==> Speaks(next, id)
  {
  }

  lemma {:induction false} RunRemembers(core: Core, policy: Policy, inputs: seq<Input>, id: string)
    requires policy.interval > 0
    ensures Remembered(core, Run(core, policy, inputs).state, Instants(core, policy, inputs, id), id)
    ensures Apart(Instants(core, policy, inputs, id), policy.interval)
  {
    if inputs != [] {
      var n := |inputs| - 1;
      var input := inputs[n];
      RunRemembers(core, policy, inputs[..n], id);
      Bracketing.RunFollows(core, policy, inputs[..n]);
      var s := Run(core, policy, inputs[..n]).state;
      var first := if Transcript(input.frame) then CloseReasoning(s) else Reduction(s, []);
      BodyRemembers(
        core, policy, first.state, input.frame, input.now, Instants(core, policy, inputs[..n], id), id);
      ReasoningSpeaksForNoCall(
        first.events, Body(core, policy, first.state, input.frame, input.now).events, id);
    }
  }

  /**
    However often the agent revises a running call and whatever the clock reads, even when it goes
    backwards, the instants at which the call speaks before its end are an interval apart.
  */
  lemma SpeaksOncePerInterval(core: Core, policy: Policy, inputs: seq<Input>, id: string)
    requires policy.interval > 0
    ensures Apart(Instants(core, policy, inputs, id), policy.interval)
  {
    RunRemembers(core, policy, inputs, id);
  }

  /**
    An update that carries a title or a content collection, and does not end its call, is sent or held, never
    dropped: it is held exactly when the call spoke less than an interval before, and when it speaks nothing stays
    held.
  */
  lemma SentOrHeld(
    core: Core, policy: Policy, inputs: seq<Input>, agentId: string, fields: ToolCallFields, now: nat)
    requires ClearOfPlan(agentId) in Run(core, policy, inputs).state.openCalls
    requires fields.title.Some? || fields.content.Some?
    requires fields.status !in {Some(Completed), Some(Faulted)}
    ensures var id := ClearOfPlan(agentId);
      var s := Run(core, policy, inputs).state;
      var r := Reduce(core, policy, s, ToolCallUpdateFrame(agentId, fields), now);
      && id in r.state.openCalls
      && (Speaks(r.events, id) <==> !Recent(policy, s.openCalls[id], now))
      && (Speaks(r.events, id) <==> r.state.openCalls[id].held.None?)
  {
    var id := ClearOfPlan(agentId);
    var s := Run(core, policy, inputs).state;
    var quiet := CloseReasoning(s);
    var next := ReviseOpen(core, policy, quiet.state, id, fields, now);
    ReasoningSpeaksForNoCall(quiet.events, next.events, id);
    if next.events != [] {
      assert next.events[0].ActivityUpdated? && next.events[0].id == id;
    }
  }
}
