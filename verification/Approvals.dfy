/**
  The agent's permission questions: parked, announced, answered, withdrawn and let go by several
  tasks at once, with the events a host hears of them queued per turn.

  One step is what happens under one acquisition of the locks the source takes; between steps any
  other task may run. A step whose lock section would find nothing to do changes nothing.
*/
module Approvals {
  import opened Prelude

  datatype Outcome = Cancelled | Selected(option: string)

  datatype Source = FromHost | FromPolicy | FromStandingRefusal | FromExpiry

  /** What a host is told a question came to: an option somebody chose, or nobody's withdrawal. */
  datatype Verdict = Chosen(option: string, source: Source) | Nobody

  datatype Notice = Requested(key: nat) | Resolved(key: nat, verdict: Verdict)

  // The approval events of one turn.

  /** The delivery gate: free, held, holding a copy of the front, or holding a front already sent. */
  datatype Gate = Free | Delivering | Peeked(front: Notice) | Sent

  /** What was registered and what was emitted are histories; only `queued` and `gate` are kept. */
  datatype Queue = Queue(registered: seq<Notice>, queued: seq<Notice>, emitted: seq<Notice>, gate: Gate)

  const EMPTY_QUEUE := Queue([], [], [], Free)

  function Push(q: Queue, notice: Notice): Queue {
    q.(registered := q.registered + [notice], queued := q.queued + [notice])
  }

  datatype FlushStep = Enter | Peek | Emit(accepted: bool) | Pop | Abort

  /** One step of a flush. Only waiting for the gate or the sink can be abandoned. */
  function FlushNext(q: Queue, step: FlushStep): Queue {
    match (q.gate, step)
    case (Free, Enter) => q.(gate := Delivering)
    case (Delivering, Peek) => q.(gate := if q.queued == [] then Free else Peeked(q.queued[0]))
    case (Peeked(front), Emit(accepted)) =>
      if accepted then q.(emitted := q.emitted + [front], gate := Sent) else q.(gate := Free)
    case (Sent, Pop) => q.(queued := if q.queued == [] then [] else q.queued[1..], gate := Delivering)
    case (Delivering, Abort) => q.(gate := Free)
    case (Peeked(_), Abort) => q.(gate := Free)
    case _ => q
  }

  /** What is still to be emitted: the queue, without a front that was sent and not yet popped. */
  function Outstanding(q: Queue): seq<Notice> {
    if q.gate.Sent? && q.queued != [] then q.queued[1..] else q.queued
  }

  ghost predicate Delivers(q: Queue) {
    && q.emitted + Outstanding(q) == q.registered
    && (q.gate.Peeked? ==> q.queued != [] && q.queued[0] == q.gate.front)
    && (q.gate.Sent? ==> q.queued != [])
  }

  lemma PushDelivers(q: Queue, notice: Notice)
    requires Delivers(q)
    ensures Delivers(Push(q, notice))
  {
    assert Outstanding(Push(q, notice)) == Outstanding(q) + [notice];
  }

  lemma FlushDelivers(q: Queue, step: FlushStep)
    requires Delivers(q)
    ensures Delivers(FlushNext(q, step))
  {
    if q.gate.Peeked? && step.Emit? {
      assert q.queued == [q.queued[0]] + q.queued[1..];
    }
  }

  // The questions of one session.

  /** One parked question: the wire request it answers, its turn, and what may be answered. */
  datatype Pending = Pending(
    request: nat, turn: nat, options: set<string>, expiryOption: Option<string>, hostAnswerable: bool, announced: bool)

  /** How far the notification handler is with the request it was handed. */
  datatype Stage = Fresh | Minted(key: nat) | Bound(key: nat, pending: Pending) | Refused

  datatype Ask = Ask(request: nat, stage: Stage)

  /** What a task is doing with a question it took out of the map. */
  datatype Task = Withdrawing(told: bool) | LettingGo

  datatype Hand = Hand(pending: Pending, task: Task)

  /** How a request came to its reply. */
  datatype Manner = AtTheDoor | Decided | Withdrawn | LetGo

  /** One reply handed to the wire, the key of its question if it had one, and whether it was taken. */
  datatype Reply = Reply(request: nat, key: Option<nat>, outcome: Outcome, taken: bool, manner: Manner)

  datatype Reason = User | Shutdown | Timeout | Superseded

  datatype Desk = Desk(
    received: nat,
    handler: Option<Ask>,
    nextKey: nat,
    parked: map<nat, Pending>,
    hands: map<nat, Hand>,
    entitled: set<(nat, string)>,
    reason: Option<Reason>,
    handed: seq<Option<Reason>>,
    queues: map<nat, Queue>,
    replies: seq<Reply>)

  const OPEN_DESK := Desk(0, None, 0, map[], map[], {}, None, [], map[], [])

  datatype Step =
    | Receive
    | RefuseOutright(taken: bool)
    | Mint
    | Bind(turn: nat, options: set<string>, expiryOption: Option<string>)
    | Park
    | Announce(key: nat, decided: Option<string>)
    | HostCheck(key: nat, option: string)
    | Respond(key: nat, requested: Outcome, source: Source, elapsed: bool, taken: bool)
    | Drain
    | BeginCancellation(reason: Reason)
    | TakeReason
    | ResetReason
    | WithdrawById(key: nat)
    | TellWithdrawn(key: nat)
    | ReplyWithdrawn(key: nat, taken: bool)
    | ReplyLetGo(key: nat, taken: bool)
    | Flush(turn: nat, flush: FlushStep)

  function QueueOf(s: Desk, turn: nat): Queue {
    if turn in s.queues then s.queues[turn] else EMPTY_QUEUE
  }

  function Tell(s: Desk, turn: nat, notice: Notice): Desk {
    s.(queues := s.queues[turn := Push(QueueOf(s, turn), notice)])
  }

  /** Registers the announcement of a question a host was not told of yet. */
  function TellRequested(s: Desk, key: nat, pending: Pending): Desk {
    if pending.announced then s else Tell(s, pending.turn, Requested(key))
  }

  function Send(s: Desk, request: nat, key: Option<nat>, outcome: Outcome, taken: bool, manner: Manner): Desk {
    s.(replies := s.replies + [Reply(request, key, outcome, taken, manner)])
  }

  /** Every parked question moves into the hands of whoever withdraws it. */
  function TakePending(s: Desk): Desk {
    s.(hands := s.hands + map key | key in s.parked :: Hand(s.parked[key], Withdrawing(false)), parked := map[])
  }

  function ParkStep(limit: nat, s: Desk, ask: Ask): Desk
    requires ask.stage.Bound?
  {
    if s.reason.Some? || |s.parked| >= limit then s.(handler := Some(ask.(stage := Refused)))
    else s.(handler := None, parked := s.parked[ask.stage.key := ask.stage.pending])
  }

  /** Publishes a parked question, for the host to answer unless something else already decided. */
  function AnnounceStep(s: Desk, key: nat, decided: Option<string>): Desk {
    if s.reason.Some? || key !in s.parked || (decided.Some? && decided.value !in s.parked[key].options) then s
    else
      var pending := s.parked[key];
      TellRequested(s, key, pending).(
        parked := s.parked[key := pending.(hostAnswerable := decided.None?, announced := true)],
        entitled := s.entitled + if decided.Some? then {(key, decided.value)} else {})
  }

  /** A choice sent with its resolution, or the withdrawal a connection that ended makes of it. */
  function RespondWithResolution(
    s: Desk, key: nat, pending: Pending, option: string, source: Source, taken: bool): Desk
  {
    var told :=
      if taken then Tell(s, pending.turn, Resolved(key, Chosen(option, source)))
      else if pending.announced then Tell(s, pending.turn, Resolved(key, Nobody))
      else s;
    Send(told, pending.request, Some(key), Selected(option), taken, Decided)
  }

  /** A reply with no resolution of its own: a host is told only when the connection refused it. */
  function RespondUnresolved(s: Desk, key: nat, pending: Pending, taken: bool): Desk {
    Send(
      if !taken && pending.announced then Tell(s, pending.turn, Resolved(key, Nobody)) else s,
      pending.request, Some(key), Cancelled, taken, LetGo)
  }

  /** A question out of time: its own refusal when it has one, otherwise the turn is cancelled. */
  function ExpireStep(s: Desk, key: nat, pending: Pending, taken: bool): Desk {
    var told := TellRequested(s, key, pending);
    var known := pending.(announced := true);
    match pending.expiryOption
    case Some(option) => RespondWithResolution(told, key, known, option, FromExpiry, taken)
    case None => told.(reason := Some(Timeout), hands := s.hands[key := Hand(known, Withdrawing(false))])
  }

  /** One answer to a parked question, under the cancellation guard until its reply is out. */
  function RespondStep(
    s: Desk, key: nat, requested: Outcome, source: Source, elapsed: bool, taken: bool): Desk
  {
    if key !in s.parked || (requested.Selected? && (key, requested.option) !in s.entitled) then s
    else
      var pending := s.parked[key];
      var rest := s.(parked := s.parked - {key});
      if s.reason.Some? then RespondUnresolved(rest, key, pending, taken)
      else if elapsed then ExpireStep(rest, key, pending, taken)
      else
        match requested
        case Selected(option) => RespondWithResolution(rest, key, pending, option, source, taken)
        case Cancelled => RespondUnresolved(rest, key, pending, taken)
  }

  function HandStep(s: Desk, key: nat, step: Step): Desk
    requires key in s.hands
  {
    var pending := s.hands[key].pending;
    var rest := s.(hands := s.hands - {key});
    match (s.hands[key].task, step)
    case (Withdrawing(false), TellWithdrawn(_)) =>
      if pending.announced
      then Tell(s, pending.turn, Resolved(key, Nobody)).(hands := s.hands[key := Hand(pending, Withdrawing(true))])
      else s
    case (Withdrawing(told), ReplyWithdrawn(_, taken)) =>
      if told || !pending.announced then Send(rest, pending.request, Some(key), Cancelled, taken, Withdrawn) else s
    case (LettingGo, ReplyLetGo(_, taken)) => RespondUnresolved(rest, key, pending, taken)
    case _ => s
  }

  function HandlerStep(limit: nat, s: Desk, ask: Ask, step: Step): Desk {
    match (ask.stage, step)
    case (_, RefuseOutright(taken)) => Send(s.(handler := None), ask.request, None, Cancelled, taken, AtTheDoor)
    case (Fresh, Mint) => s.(handler := Some(ask.(stage := Minted(s.nextKey))), nextKey := s.nextKey + 1)
    case (Minted(key), Bind(turn, options, expiryOption)) =>
      if expiryOption.Some? && expiryOption.value !in options then s
      else
        s.(handler := Some(ask.(stage := Bound(key, Pending(ask.request, turn, options, expiryOption, false, false)))))
    case (Bound(_, _), Park) => ParkStep(limit, s, ask)
    case _ => s
  }

  function Next(limit: nat, s: Desk, step: Step): Desk {
    match step
    case Receive =>
      if s.handler.Some? then s else s.(handler := Some(Ask(s.received, Fresh)), received := s.received + 1)
    case RefuseOutright(_) | Mint | Bind(_, _, _) | Park =>
      if s.handler.Some? then HandlerStep(limit, s, s.handler.value, step) else s
    case Announce(key, decided) => AnnounceStep(s, key, decided)
    case HostCheck(key, option) =>
      if key in s.parked && s.parked[key].hostAnswerable && option in s.parked[key].options
      then s.(entitled := s.entitled + {(key, option)}) else s
    case Respond(key, requested, source, elapsed, taken) => RespondStep(s, key, requested, source, elapsed, taken)
    case Drain => TakePending(s)
    case BeginCancellation(reason) => TakePending(s.(reason := Some(s.reason.GetOr(reason))))
    case TakeReason => s.(handed := s.handed + [s.reason], reason := None)
    case ResetReason => s.(reason := None)
    case WithdrawById(key) =>
      if key !in s.parked then s
      else s.(parked := s.parked - {key}, hands := s.hands[key := Hand(s.parked[key], LettingGo)])
    case TellWithdrawn(key) => if key in s.hands then HandStep(s, key, step) else s
    case ReplyWithdrawn(key, _) => if key in s.hands then HandStep(s, key, step) else s
    case ReplyLetGo(key, _) => if key in s.hands then HandStep(s, key, step) else s
    case Flush(turn, flush) => s.(queues := s.queues[turn := FlushNext(QueueOf(s, turn), flush)])
  }

  function Run(limit: nat, steps: seq<Step>): Desk {
    if steps == [] then OPEN_DESK
    else Next(limit, Run(limit, steps[..|steps| - 1]), steps[|steps| - 1])
  }
}
