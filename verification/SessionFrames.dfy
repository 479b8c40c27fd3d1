/**
  One `session/update` frame as the session handles it: for the turn its handler read, if any, once it is known
  not to be the tail of the turn before, and under the claim on that turn's terminal.
*/
module SessionFrames {
  import opened Prelude
  import opened Events
  import opened ReducerSpec
  import Reducers
  import TurnSlot
  import SessionTurns

  /** What a frame is to the calls of a turn: the opening of one, an update of one, or neither. */
  function Bearing(frame: Frame): Option<TurnSlot.Frame> {
    match frame
    case ToolCallFrame(id, _) => Some(TurnSlot.Opens(ClearOfPlan(id)))
    case ToolCallUpdateFrame(id, _) => Some(TurnSlot.Updates(ClearOfPlan(id)))
    case _ => None
  }

  /**
    The events and facts of one frame for `turn`. A turn that claimed its terminal has nowhere to send events:
    its frame leaves the reducer as it is, emits nothing, and still yields its facts.
  */
  method ReduceFor(session: SessionTurns.SessionTurns, reducer: Reducers.Reducer, turn: nat, frame: Frame, now: nat)
    returns (events: seq<Event>, facts: seq<Fact>)
    requires reducer.Valid() && turn < |session.finished|
    modifies reducer
    ensures reducer.Valid() && facts == SessionFacts(frame)
    ensures session.finished[turn] ==> reducer.Memory() == old(reducer.Memory()) && events == []
    ensures !session.finished[turn] ==>
      Reduction(reducer.Memory(), events) == Reduce(reducer.core, reducer.Pace(), old(reducer.Memory()), frame, now)
  {
    if session.finished[turn] {
      return [], SessionFacts(frame);
    }
    events, facts := reducer.UpdateAt(frame, now);
  }

  /** Whether a frame updates a call of the turn before. */
  predicate Late(frame: Frame, closedCalls: set<string>) {
    frame.ToolCallUpdateFrame? && ClearOfPlan(frame.id) in closedCalls
  }

  /**
    One frame, whoever it is for. Without a turn, as the tail of the turn before, or under a claimed terminal it
    leaves the reducer as it is and emits nothing; in every case the facts it carries are published; and a
    `tool_call` for a turn makes its id that turn's own, so that no later frame of it is a tail.
  */
  method HandleUpdate(
    session: SessionTurns.SessionTurns, reducer: Reducers.Reducer, turn: Option<nat>, frame: Frame, now: nat)
    returns (events: seq<Event>, facts: seq<Fact>)
    requires session.Valid() && reducer.Valid()
    requires turn.Some? ==> turn.value < |session.finished|
    requires turn.Some? && Bearing(frame).Some? ==>
      session.here.handler == TurnSlot.Captured(turn, Bearing(frame).value)
    modifies reducer, session`closedCalls, session`steps, session`here
    ensures session.Valid() && reducer.Valid()
    ensures facts == (if frame.CommandsFrame? then [Commands(frame.commands)]
                      else if frame.ConfigOptionsFrame? then [ConfigurationOptions(frame.options)]
                      else [])
    ensures session.closedCalls
      == if turn.Some? && frame.ToolCallFrame? then old(session.closedCalls) - {ClearOfPlan(frame.id)}
         else old(session.closedCalls)
    ensures turn.None? || session.finished[turn.value] || Late(frame, old(session.closedCalls)) ==>
      reducer.Memory() == old(reducer.Memory()) && events == []
    ensures turn.Some? && !session.finished[turn.value] && !Late(frame, old(session.closedCalls)) ==>
      Reduction(reducer.Memory(), events) == Reduce(reducer.core, reducer.Pace(), old(reducer.Memory()), frame, now)
  {
    if turn.None? {
      return [], SessionFacts(frame);
    }
    var bearing := Bearing(frame);
    if bearing.Some? {
      var late := session.IsLateForAClosedCall(bearing.value, turn.value);
      if late {
        return [], [];
      }
    }
    events, facts := ReduceFor(session, reducer, turn.value, frame, now);
  }
}
