/**
  The permission half of the session state as its methods change it. Each method is one lock section of
  the source, or several in a row, and is proved to take exactly the steps of the protocol it names, so
  everything proved of the protocol's runs holds of this object whatever its callers do.
*/
module SessionQuestions {
  import opened Prelude
  import opened Approvals
  import ApprovalPromises

  datatype Answered = Sent | AlreadyResolved

  /** A withdrawal in two steps, told and then replied. */
  lemma WithdrawalSteps(limit: nat, s: Desk, key: nat, taken: bool)
    requires key in s.hands && s.hands[key].task == Withdrawing(false)
    ensures var question := s.hands[key].pending;
      Next(limit, Next(limit, s, TellWithdrawn(key)), ReplyWithdrawn(key, taken))
      == Send(if question.announced then Tell(s, question.turn, Resolved(key, Nobody)) else s,
              question.request, Some(key), Cancelled, taken, Withdrawn).(hands := s.hands - {key})
  {
  }

  class SessionQuestions {
    const limit: nat
    var received: nat
    var handler: Option<Ask>
    var nextApproval: nat
    var pending: map<nat, Pending>
    var hands: map<nat, Hand>
    var entitled: set<(nat, string)>
    var cancelReason: Option<Reason>
    var handed: seq<Option<Reason>>
    var queues: map<nat, Queue>
    var replies: seq<Reply>
    /** The steps taken so far. */
    ghost var steps: seq<Step>

    ghost function Here(): Desk
      reads this
    {
      Desk(received, handler, nextApproval, pending, hands, entitled, cancelReason, handed, queues, replies)
    }

    ghost predicate Valid()
      reads this
    {
      Here() == Run(limit, steps)
    }

    constructor (limit: nat)
      ensures Valid() && steps == [] && this.limit == limit
    {
      this.limit := limit;
      received, handler, nextApproval := 0, None, 0;
      pending, hands, entitled := map[], map[], {};
      cancelReason, handed, queues, replies, steps := None, [], map[], [], [];
    }

    /** Registers a notice on its turn's queue. */
    method Register(turn: nat, notice: Notice)
      modifies this`queues
      ensures queues == Tell(old(Here()), turn, notice).queues
    {
      var queue := if turn in queues then queues[turn] else EMPTY_QUEUE;
      queues := queues[turn := Push(queue, notice)];
    }

    /** Parks a question, or answers it as cancelled when a cancellation won the race or the map is full. */
    method ParkPending(taken: bool) returns (parked: bool)
      requires Valid() && handler.Some? && handler.value.stage.Bound?
      modifies this
      ensures Valid() && handler.None?
      ensures parked <==> old(cancelReason.None? && |pending| < limit)
      ensures parked ==>
        && steps == old(steps) + [Park] && replies == old(replies)
        && pending == old(pending[handler.value.stage.key := handler.value.stage.pending])
      ensures !parked ==>
        && steps == old(steps) + [Park] + [RefuseOutright(taken)] && pending == old(pending)
        && replies == old(replies)
          + [Approvals.Reply(old(handler.value.request), None, Cancelled, taken, AtTheDoor)]
    {
      if cancelReason.Some? || |pending| >= limit {
        steps := steps + [Park] + [RefuseOutright(taken)];
        ApprovalPromises.ExtendTwice(limit, old(steps), Park, RefuseOutright(taken));
        replies := replies + [Approvals.Reply(handler.value.request, None, Cancelled, taken, AtTheDoor)];
        handler := None;
        return false;
      }
      steps := steps + [Park];
      ApprovalPromises.Extend(limit, old(steps), Park);
      pending := pending[handler.value.stage.key := handler.value.stage.pending];
      handler := None;
      return true;
    }

    /** Tells the host of a question, once, unless the turn is being cancelled. */
    method AnnouncePending(key: nat, decided: Option<string>) returns (announced: bool)
      requires Valid()
      requires key in pending && decided.Some? ==> decided.value in pending[key].options
      modifies this
      ensures Valid() && steps == old(steps) + [Announce(key, decided)]
      ensures announced <==> old(cancelReason.None? && key in pending)
    {
      steps := steps + [Announce(key, decided)];
      ApprovalPromises.Extend(limit, old(steps), Announce(key, decided));
      if cancelReason.Some? || key !in pending {
        return false;
      }
      var question := pending[key];
      if !question.announced {
        Register(question.turn, Requested(key));
      }
      pending := pending[key := question.(hostAnswerable := decided.None?, announced := true)];
      if decided.Some? {
        entitled := entitled + {(key, decided.value)};
      } else {
        assert entitled + {} == entitled;
      }
      return true;
    }

    /** Empties the map into the caller's hands. */
    method TakePending()
      requires Valid()
      modifies this
      ensures Valid() && steps == old(steps) + [Drain] && pending == map[] && cancelReason == old(cancelReason)
      ensures hands == old(hands + map key | key in pending :: Hand(pending[key], Withdrawing(false)))
    {
      steps := steps + [Drain];
      ApprovalPromises.Extend(limit, old(steps), Drain);
      hands := hands + map key | key in pending :: Hand(pending[key], Withdrawing(false));
      pending := map[];
    }

    /** Hands the recorded reason to the terminal of the turn it was recorded for. */
    method TakeReason() returns (reason: Option<Reason>)
      requires Valid()
      modifies this
      ensures Valid() && steps == old(steps) + [Step.TakeReason] && pending == old(pending)
      ensures reason == old(cancelReason) && cancelReason == None && handed == old(handed) + [reason]
    {
      steps := steps + [Step.TakeReason];
      ApprovalPromises.Extend(limit, old(steps), Step.TakeReason);
      reason := cancelReason;
      cancelReason, handed := None, handed + [reason];
    }

    /** A turn that begins has no reason to end yet. */
    method ResetReason()
      requires Valid()
      modifies this
      ensures Valid() && steps == old(steps) + [Step.ResetReason] && cancelReason == None && pending == old(pending)
    {
      steps := steps + [Step.ResetReason];
      ApprovalPromises.Extend(limit, old(steps), Step.ResetReason);
      cancelReason := None;
    }

    /** Records why the turn is cancelled, unless something already did, and takes every question. */
    method BeginCancellation(reason: Reason)
      requires Valid()
      modifies this
      ensures Valid() && steps == old(steps) + [Step.BeginCancellation(reason)]
      ensures cancelReason == Some(old(cancelReason).GetOr(reason)) && pending == map[]
    {
      steps := steps + [Step.BeginCancellation(reason)];
      ApprovalPromises.Extend(limit, old(steps), Step.BeginCancellation(reason));
      if cancelReason.None? {
        cancelReason := Some(reason);
      }
      hands := hands + map key | key in pending :: Hand(pending[key], Withdrawing(false));
      pending := map[];
      assert Here() == Approvals.TakePending(old(Here()).(reason := cancelReason));
    }

    /** One reply, handed to the wire. */
    method Reply(request: nat, key: nat, outcome: Outcome, taken: bool, manner: Manner)
      modifies this`replies
      ensures replies == old(replies) + [Approvals.Reply(request, Some(key), outcome, taken, manner)]
    {
      replies := replies + [Approvals.Reply(request, Some(key), outcome, taken, manner)];
    }

    method RespondWithResolution(key: nat, question: Pending, option: string, source: Source, taken: bool)
      returns (answered: Answered)
      modifies this`queues, this`replies
      ensures Here() == Approvals.RespondWithResolution(old(Here()), key, question, option, source, taken)
      ensures answered.Sent? <==> taken
      ensures replies == old(replies)
        + [Approvals.Reply(question.request, Some(key), Selected(option), taken, Decided)]
      ensures taken ==> queues == Tell(old(Here()), question.turn, Resolved(key, Chosen(option, source))).queues
      ensures !taken && question.announced ==>
        queues == Tell(old(Here()), question.turn, Resolved(key, Nobody)).queues
      ensures !taken && !question.announced ==> queues == old(queues)
    {
      Reply(question.request, key, Selected(option), taken, Decided);
      if taken {
        Register(question.turn, Resolved(key, Chosen(option, source)));
        return Answered.Sent;
      }
      if question.announced {
        Register(question.turn, Resolved(key, Nobody));
      }
      return AlreadyResolved;
    }

    method RespondUnresolved(key: nat, question: Pending, taken: bool) returns (answered: Answered)
      modifies this`queues, this`replies
      ensures Here() == Approvals.RespondUnresolved(old(Here()), key, question, taken)
      ensures answered.Sent? <==> taken
      ensures replies == old(replies) + [Approvals.Reply(question.request, Some(key), Cancelled, taken, LetGo)]
      ensures taken || !question.announced ==> queues == old(queues)
      ensures !taken && question.announced ==>
        queues == Tell(old(Here()), question.turn, Resolved(key, Nobody)).queues
    {
      Reply(question.request, key, Cancelled, taken, LetGo);
      if taken {
        return Answered.Sent;
      }
      if question.announced {
        Register(question.turn, Resolved(key, Nobody));
      }
      return AlreadyResolved;
    }

    /** What a question out of time comes to: its own refusal, or a cancelled turn. */
    method Expire(key: nat, question: Pending, taken: bool)
      modifies this
      ensures Here() == ExpireStep(old(Here()), key, question, taken) && steps == old(steps)
      ensures question.expiryOption.Some? ==>
        && cancelReason == old(cancelReason) && hands == old(hands)
        && replies == old(replies)
          + [Approvals.Reply(question.request, Some(key), Selected(question.expiryOption.value), taken, Decided)]
        && queues == Tell(TellRequested(old(Here()), key, question), question.turn,
             Resolved(key, if taken then Chosen(question.expiryOption.value, FromExpiry) else Nobody)).queues
      ensures question.expiryOption.None? ==>
        && cancelReason == Some(Timeout) && replies == old(replies)
        && hands == old(hands)[key := Hand(question.(announced := true), Withdrawing(false))]
        && queues == TellRequested(old(Here()), key, question).queues
    {
      if !question.announced {
        Register(question.turn, Requested(key));
      }
      var known := question.(announced := true);
      if known.expiryOption.None? {
        cancelReason := Some(Timeout);
        hands := hands[key := Hand(known, Withdrawing(false))];
        return;
      }
      var _ := RespondWithResolution(key, known, known.expiryOption.value, FromExpiry, taken);
    }

    /**
      Sends one answer under the cancellation guard: in time and with no reason recorded, the answer asked for.
      A question out of time is refused with its own option, or, when it has none, records a timeout and is left
      in the caller's hands.
    */
    method RespondPending(key: nat, requested: Outcome, source: Source, elapsed: bool, taken: bool)
      returns (answered: Answered)
      requires Valid() && (requested.Selected? ==> (key, requested.option) in entitled)
      modifies this
      ensures Valid() && steps == old(steps) + [Respond(key, requested, source, elapsed, taken)]
      ensures answered.Sent? <==> old(key in pending && cancelReason.None?) && !elapsed && taken
      ensures pending == old(pending) - {key}
      ensures old(key !in pending) ==> replies == old(replies) && queues == old(queues)
      ensures old(key in pending && cancelReason.Some?) ==>
        replies == old(replies) + [Approvals.Reply(old(pending[key].request), Some(key), Cancelled, taken, LetGo)]
      ensures old(key in pending && cancelReason.None?) && !elapsed ==>
        && replies == old(replies) + [Approvals.Reply(old(pending[key].request), Some(key), requested, taken,
             if requested.Selected? then Decided else LetGo)]
        && (taken && requested.Selected? ==>
              queues == Tell(
                old(Here()), old(pending[key].turn), Resolved(key, Chosen(requested.option, source))).queues)
        && (taken && requested.Cancelled? ==> queues == old(queues))
        && (!taken && old(pending[key].announced) ==>
              queues == Tell(old(Here()), old(pending[key].turn), Resolved(key, Nobody)).queues)
      ensures old(key in pending && cancelReason.None? && pending[key].expiryOption.Some?) && elapsed ==>
        var question := old(pending[key]);
        && replies == old(replies) + [Approvals.Reply(
             question.request, Some(key), Selected(question.expiryOption.value), taken, Decided)]
        && queues == Tell(TellRequested(old(Here()), key, question), question.turn,
             Resolved(key, if taken then Chosen(question.expiryOption.value, FromExpiry) else Nobody)).queues
      ensures old(key in pending && cancelReason.None? && pending[key].expiryOption.None?) && elapsed ==>
        cancelReason == Some(Timeout) && replies == old(replies) && key in hands
    {
      var step := Respond(key, requested, source, elapsed, taken);
      steps := steps + [step];
      ApprovalPromises.Extend(limit, old(steps), step);
      if key !in pending {
        return AlreadyResolved;
      }
      var question := pending[key];
      pending := pending - {key};
      if cancelReason.Some? {
        var _ := RespondUnresolved(key, question, taken);
        return AlreadyResolved;
      }
      if !elapsed {
        match requested {
          case Selected(option) => answered := RespondWithResolution(key, question, option, source, taken);
          case Cancelled => answered := RespondUnresolved(key, question, taken);
        }
        return;
      }
      Expire(key, question, taken);
      return AlreadyResolved;
    }

    /** Takes one question back: its withdrawal is registered first, and then the agent hears it. */
    method Withdraw(key: nat, taken: bool)
      requires Valid() && key in hands && hands[key].task == Withdrawing(false)
      modifies this
      ensures Valid() && steps == old(steps) + [TellWithdrawn(key)] + [ReplyWithdrawn(key, taken)]
      ensures hands == old(hands) - {key}
      ensures replies == old(replies)
        + [Approvals.Reply(old(hands)[key].pending.request, Some(key), Cancelled, taken, Withdrawn)]
    {
      var question := hands[key].pending;
      WithdrawalSteps(limit, Here(), key, taken);
      if question.announced {
        Register(question.turn, Resolved(key, Nobody));
      }
      hands := hands - {key};
      Reply(question.request, key, Cancelled, taken, Withdrawn);
      steps := steps + [TellWithdrawn(key)] + [ReplyWithdrawn(key, taken)];
      ApprovalPromises.ExtendTwice(limit, old(steps), TellWithdrawn(key), ReplyWithdrawn(key, taken));
    }

    /** The reply that a question taken back got, if it is among those since `from`. */
    ghost predicate Replied(from: nat, key: nat, hand: Hand, taken: bool)
      reads this
    {
      exists i :: from <= i < |replies|
        && replies[i] == Approvals.Reply(hand.pending.request, Some(key), Cancelled, taken, Withdrawn)
    }

    /**
      Withdraws the questions one task took, in whatever order it drained them; the wire may take some of the
      replies, those of the keys in `taken`, and refuse others.
    */
    method WithdrawAll(mine: set<nat>, taken: set<nat>)
      requires Valid() && forall key <- mine :: key in hands && hands[key].task == Withdrawing(false)
      modifies this
      ensures Valid() && hands == old(hands) - mine
      ensures |replies| == |old(replies)| + |mine| && old(replies) <= replies
      ensures forall key <- mine :: Replied(|old(replies)|, key, old(hands)[key], key in taken)
    {
      var rest := mine;
      while rest != {}
        invariant rest <= mine && Valid() && hands == old(hands) - (mine - rest)
        invariant |replies| + |rest| == |old(replies)| + |mine| && old(replies) <= replies
        invariant forall key <- mine - rest :: Replied(|old(replies)|, key, old(hands)[key], key in taken)
        decreases rest
      {
        var key: nat :| key in rest;
        ghost var before := replies;
        Withdraw(key, key in taken);
        assert replies[|before|]
          == Approvals.Reply(old(hands)[key].pending.request, Some(key), Cancelled, key in taken, Withdrawn);
        RepliesStay(before, replies);
        assert |rest - {key}| == |rest| - 1;
        rest := rest - {key};
      }
    }
  }

  lemma RepliesStay(before: seq<Reply>, after: seq<Reply>)
    requires before <= after
    ensures forall i :: 0 <= i < |before| ==> after[i] == before[i]
  {
  }
}
