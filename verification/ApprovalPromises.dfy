/**
  What the approval protocol promises its two sides, over every interleaving: the agent that each
  question gets one reply and nothing is allowed once a cancellation began, and the host that it hears
  of each question once, and of its end unless the question was let go.
*/
module ApprovalPromises {
  import opened Prelude
  import opened Approvals
  import opened ApprovalSafety

  // Conservation.

  predicate WithHandler(s: Desk, r: nat) {
    s.handler.Some? && s.handler.value.request == r
  }

  predicate Parked(s: Desk, r: nat) {
    exists key <- s.parked :: s.parked[key].request == r
  }

  predicate InHands(s: Desk, r: nat) {
    exists key <- s.hands :: s.hands[key].pending.request == r
  }

  predicate Answered(s: Desk, r: nat) {
    exists i :: 0 <= i < |s.replies| && s.replies[i].request == r
  }

  function One(b: bool): nat {
    if b then 1 else 0
  }

  /** Exactly one of the four places a request can be in. */
  predicate Accounted(s: Desk, r: nat) {
    One(WithHandler(s, r)) + One(Parked(s, r)) + One(InHands(s, r)) + One(Answered(s, r)) == 1
  }

  /**
    Permission replies are conserved. However the tasks interleave, each request received is with the
    handler, parked, in the hands of a task that owes its reply, or answered, and in one of these
    only; no request is answered twice; and no reply is to a request that never came.
  */
  lemma RepliesAreConserved(limit: nat, steps: seq<Step>)
    ensures var s := Run(limit, steps);
      && (forall r: nat :: r < s.received ==> Accounted(s, r))
      && (forall i, j :: 0 <= i < j < |s.replies| ==> s.replies[i].request != s.replies[j].request)
      && (forall i :: 0 <= i < |s.replies| ==> s.replies[i].request < s.received)
  {
    var s := Run(limit, steps);
    var l := RunKeepsBooks(limit, steps);
    forall r: nat | r < s.received
      ensures Accounted(s, r)
    {
      RequestAccounted(s, l, r);
    }
    forall i, j | 0 <= i < j < |s.replies|
      ensures s.replies[i].request != s.replies[j].request
    {
      assert AnsweredBy(l, s.replies[i].request, i) && AnsweredBy(l, s.replies[j].request, j);
    }
  }

  lemma PlacesOf(s: Desk, l: Ledger, r: nat)
    requires Books(s, l) && r in l.requests
    ensures Parked(s, r) <==> l.requests[r].Carded? && l.cards[l.requests[r].key].place.OnTheDesk?
    ensures InHands(s, r) <==> l.requests[r].Carded? && l.cards[l.requests[r].key].place.InHand?
  {
  }

  lemma AnsweredWhen(s: Desk, l: Ledger, r: nat)
    requires Books(s, l) && r in l.requests
    ensures Answered(s, r) <==>
      || l.requests[r].TurnedAwayAt?
      || (l.requests[r].Carded? && l.cards[l.requests[r].key].place.AnsweredAt?)
  {
  }

  lemma RequestAccounted(s: Desk, l: Ledger, r: nat)
    requires Books(s, l) && r < s.received
    ensures Accounted(s, r)
  {
    PlacesOf(s, l, r);
    AnsweredWhen(s, l, r);
  }

  /**
    The key the handler holds was never a parked question's, so parking it overwrites none, and no
    choice made for another question fits it; and the map never holds more than it is allowed.
  */
  lemma MintedKeysOverwriteNothing(limit: nat, steps: seq<Step>)
    ensures var s := Run(limit, steps);
      && (HandlerKey(s).Some? ==>
            var key := HandlerKey(s).value;
            && key !in s.parked && key !in s.hands
            && (forall pair <- s.entitled :: pair.0 != key)
            && (forall i :: 0 <= i < |s.replies| ==> s.replies[i].key != Some(key)))
      && |s.parked| <= limit
  {
    var s := Run(limit, steps);
    var l := RunKeepsBooks(limit, steps);
    forall i | 0 <= i < |s.replies|
      ensures s.replies[i].key.Some? ==> s.replies[i].key.value in l.cards
    {
      ReplyKeyIsCarded(s, l, i);
    }
    ParkedStaysWithinLimit(limit, steps);
  }

  lemma ReplyKeyIsCarded(s: Desk, l: Ledger, i: nat)
    requires Books(s, l) && i < |s.replies|
    ensures s.replies[i].key.Some? ==>
      var key := s.replies[i].key.value;
      key in l.cards && l.cards[key].place == AnsweredAt(i) && Settled(key, l.cards[key], s.replies[i])
    ensures s.replies[i].key.None? ==> s.replies[i].outcome.Cancelled?
  {
  }

  lemma {:induction false} ParkedStaysWithinLimit(limit: nat, steps: seq<Step>)
    ensures |Run(limit, steps).parked| <= limit
  {
    if steps != [] {
      var n := |steps| - 1;
      ParkedStaysWithinLimit(limit, steps[..n]);
      var s := Run(limit, steps[..n]);
      if Next(limit, s, steps[n]).parked != s.parked {
        ParkedGrowsByOne(limit, s, steps[n]);
      }
    }
  }

  lemma ParkedGrowsByOne(limit: nat, s: Desk, step: Step)
    requires |s.parked| <= limit
    ensures |Next(limit, s, step).parked| <= limit
  {
    var after := Next(limit, s, step);
    if !step.Park? {
      NothingElseParks(limit, s, step);
      SubsetIsSmaller(after.parked.Keys, s.parked.Keys);
      assert |after.parked| == |after.parked.Keys| && |s.parked| == |s.parked.Keys|;
    }
  }

  lemma NothingElseParks(limit: nat, s: Desk, step: Step)
    requires !step.Park?
    ensures Next(limit, s, step).parked.Keys <= s.parked.Keys
  {
    if step.Respond? {
      RespondLeaves(s, step.key, step.requested, step.source, step.elapsed, step.taken);
    } else if step.Announce? {
      AnnounceLeaves(s, step.key, step.decided);
    }
  }

  /** A response takes its question off the desk, or does nothing. */
  lemma RespondLeaves(s: Desk, key: nat, requested: Outcome, source: Source, elapsed: bool, taken: bool)
    ensures var after := RespondStep(s, key, requested, source, elapsed, taken);
      after == s || after.parked == s.parked - {key}
  {
  }

  lemma AnnounceLeaves(s: Desk, key: nat, decided: Option<string>)
    ensures AnnounceStep(s, key, decided).parked.Keys == s.parked.Keys
  {
  }

  lemma SubsetIsSmaller(a: set<nat>, b: set<nat>)
    requires a <= b
    ensures |a| <= |b|
  {
    assert b == a + (b - a);
  }

  // What a host is told.

  /** Two notices about one question are its announcement and then its resolution. */
  ghost predicate ToldOnce(notices: seq<Notice>, key: nat) {
    && (forall i, j :: 0 <= i < j < |notices| && notices[i].key == key && notices[j].key == key ==>
          notices[i].Requested? && notices[j].Resolved?)
    && (forall j :: 0 <= j < |notices| && notices[j] .key == key && notices[j].Resolved? ==>
          exists i :: 0 <= i < j && notices[i] == Requested(key))
  }

  predicate IsStory(told: seq<Notice>, key: nat) {
    || told == []
    || told == [Requested(key)]
    || (|told| == 2 && told[0] == Requested(key) && told[1].Resolved? && told[1].key == key)
  }

  lemma ToldNothing(notices: seq<Notice>, key: nat)
    requires Told(notices, key) == []
    ensures forall i :: 0 <= i < |notices| ==> notices[i].key != key
  {
  }

  lemma ToldMember(notices: seq<Notice>, key: nat, k: nat)
    requires k < |Told(notices, key)|
    ensures Told(notices, key)[k] in notices
  {
  }

  lemma {:induction false} StoryIsToldOnce(notices: seq<Notice>, key: nat)
    requires IsStory(Told(notices, key), key)
    ensures ToldOnce(notices, key)
  {
    if notices != [] {
      var n := |notices| - 1;
      var before := Told(notices[..n], key);
      assert before == Told(notices, key)[..|before|];
      StoryIsToldOnce(notices[..n], key);
      assert forall i :: 0 <= i < n ==> notices[i] == notices[..n][i];
      if notices[n].key == key {
        if before == [] {
          ToldNothing(notices[..n], key);
        } else {
          ToldMember(notices[..n], key, 0);
          OnlyAnnounced(notices[..n], key);
        }
      }
    }
  }

  lemma {:induction false} OnlyAnnounced(notices: seq<Notice>, key: nat)
    requires Told(notices, key) == [Requested(key)]
    ensures forall i :: 0 <= i < |notices| && notices[i].key == key ==> notices[i].Requested?
  {
    var n := |notices| - 1;
    assert forall i :: 0 <= i < n ==> notices[i] == notices[..n][i];
    if notices[n].key == key {
      var before := Told(notices[..n], key);
      assert (before + [notices[n]])[|before|] == notices[n] && |before + [notices[n]]| == 1;
      ToldNothing(notices[..n], key);
    } else {
      OnlyAnnounced(notices[..n], key);
    }
  }

  lemma {:induction false} RunDelivers(limit: nat, steps: seq<Step>)
    ensures QueuesDeliver(Run(limit, steps))
  {
    if steps != [] {
      var n := |steps| - 1;
      RunDelivers(limit, steps[..n]);
      StepDelivers(limit, Run(limit, steps[..n]), steps[n]);
    }
  }

  lemma TellKeepsDelivering(s: Desk, turn: nat, notice: Notice)
    requires QueuesDeliver(s)
    ensures QueuesDeliver(Tell(s, turn, notice))
  {
  }

  lemma StepDelivers(limit: nat, s: Desk, step: Step)
    requires QueuesDeliver(s)
    ensures QueuesDeliver(Next(limit, s, step))
  {
    if step.Flush? {
      FlushDelivers(QueueOf(s, step.turn), step.flush);
    } else if step.Announce? && step.key in s.parked {
      TellKeepsDelivering(s, s.parked[step.key].turn, Requested(step.key));
    } else if step.Respond? && step.key in s.parked {
      RespondDelivers(s, step.key, step.requested, step.source, step.elapsed, step.taken);
    } else if (step.TellWithdrawn? || step.ReplyLetGo?) && step.key in s.hands {
      HandDelivers(s, step.key, step);
    }
  }

  lemma HandDelivers(s: Desk, key: nat, step: Step)
    requires QueuesDeliver(s) && key in s.hands
    ensures QueuesDeliver(HandStep(s, key, step))
  {
    var notice := Resolved(key, Nobody);
    TellKeepsDelivering(s, s.hands[key].pending.turn, notice);
    TellKeepsDelivering(s.(hands := s.hands - {key}), s.hands[key].pending.turn, notice);
  }

  lemma RespondDelivers(s: Desk, key: nat, requested: Outcome, source: Source, elapsed: bool, taken: bool)
    requires QueuesDeliver(s) && key in s.parked
    ensures QueuesDeliver(RespondStep(s, key, requested, source, elapsed, taken))
  {
    var pending := s.parked[key];
    var rest := s.(parked := s.parked - {key});
    if s.reason.Some? || (!elapsed && requested.Cancelled?) {
      TellKeepsDelivering(rest, pending.turn, Resolved(key, Nobody));
    } else if !elapsed {
      ResolutionDelivers(rest, key, pending, requested.option, source, taken);
    } else {
      TellKeepsDelivering(rest, pending.turn, Requested(key));
      var told := TellRequested(rest, key, pending);
      if pending.expiryOption.Some? {
        ResolutionDelivers(told, key, pending.(announced := true), pending.expiryOption.value, FromExpiry, taken);
      }
    }
  }

  lemma ResolutionDelivers(s: Desk, key: nat, pending: Pending, option: string, source: Source, taken: bool)
    requires QueuesDeliver(s)
    ensures QueuesDeliver(RespondWithResolution(s, key, pending, option, source, taken))
  {
  }

  /**
    The approval queue of a turn loses, duplicates and reorders nothing, and each question is told to
    its own turn only: announced at most once, resolved at most once, and only after that.
  */
  lemma HostHearsEachQuestionOnce(limit: nat, steps: seq<Step>, turn: nat)
    ensures var q := QueueOf(Run(limit, steps), turn);
      && q.emitted + Outstanding(q) == q.registered
      && (forall key: nat :: ToldOnce(q.registered, key))
      && (forall key: nat, other: nat :: other != turn && Told(q.registered, key) != [] ==>
            Told(QueueOf(Run(limit, steps), other).registered, key) == [])
  {
    var s := Run(limit, steps);
    var l := RunKeepsBooks(limit, steps);
    RunDelivers(limit, steps);
    forall key: nat
      ensures ToldOnce(QueueOf(s, turn).registered, key)
    {
      CardStory(s, l, turn, key);
      StoryIsToldOnce(QueueOf(s, turn).registered, key);
    }
    forall key: nat, other: nat | other != turn && Told(QueueOf(s, turn).registered, key) != []
      ensures Told(QueueOf(s, other).registered, key) == []
    {
      assert Told(QueueOf(s, turn).registered, key) == Expected(l, turn, key);
      assert Told(QueueOf(s, other).registered, key) == Expected(l, other, key);
    }
  }

  lemma CardStory(s: Desk, l: Ledger, turn: nat, key: nat)
    requires Books(s, l)
    ensures IsStory(Told(QueueOf(s, turn).registered, key), key)
  {
  }

  /** What a host was told of an answered question, by how the reply came about. */
  lemma AnsweredQuestionsHaveTheirStory(limit: nat, steps: seq<Step>, i: nat, turn: nat)
    requires i < |Run(limit, steps).replies| && Run(limit, steps).replies[i].key.Some?
    ensures var s := Run(limit, steps);
      var reply := s.replies[i];
      var key := reply.key.value;
      var told := Told(QueueOf(s, turn).registered, key);
      && (told != [] ==> |told| == if reply.manner.LetGo? && reply.taken then 1 else 2)
      && (reply.outcome.Selected? ==> exists its: nat :: Told(QueueOf(s, its).registered, key) != [])
  {
    var s := Run(limit, steps);
    var l := RunKeepsBooks(limit, steps);
    ReplyKeyIsCarded(s, l, i);
    var key := s.replies[i].key.value;
    assert Told(QueueOf(s, turn).registered, key) == Expected(l, turn, key);
    var its := l.cards[key].turn;
    assert Told(QueueOf(s, its).registered, key) == Expected(l, its, key);
  }

  lemma Extend(limit: nat, steps: seq<Step>, step: Step)
    ensures Run(limit, steps + [step]) == Next(limit, Run(limit, steps), step)
  {
  }

  lemma ExtendTwice(limit: nat, steps: seq<Step>, first: Step, second: Step)
    ensures Run(limit, steps + [first] + [second]) == Next(limit, Next(limit, Run(limit, steps), first), second)
  {
  }

  /** An idle handler's next request is brought to the desk in four steps. */
  lemma ParkOne(steps: seq<Step>, options: set<string>) returns (more: seq<Step>)
    requires var s := Run(2, steps); s.handler.None? && s.reason.None? && |s.parked| < 2
    ensures var s := Run(2, steps);
      Run(2, more) == s.(received := s.received + 1, nextKey := s.nextKey + 1,
                         parked := s.parked[s.nextKey := Pending(s.received, 0, options, None, false, false)])
  {
    var minted := steps + [Receive] + [Mint];
    ExtendTwice(2, steps, Receive, Mint);
    more := minted + [Bind(0, options, None)] + [Park];
    ExtendTwice(2, minted, Bind(0, options, None), Park);
  }

  const FIRST := Pending(0, 0, {"yes"}, None, false, false)
  const SECOND := Pending(1, 0, {"yes"}, None, false, false)
  const ASKED := [Requested(0), Requested(1)]

  /** Two questions parked; and both announced, the second read by the host. */
  const TWO_PARKED := Desk(2, None, 2, map[0 := FIRST, 1 := SECOND], map[], {}, None, [], map[], [])
  const TWO_ASKED := Desk(
    2, None, 2,
    map[0 := FIRST.(hostAnswerable := true, announced := true),
        1 := SECOND.(hostAnswerable := true, announced := true)],
    map[], {(1, "yes")}, None, [], map[0 := Queue(ASKED, ASKED, [], Free)], [])

  lemma TwoAreAsked()
    ensures Next(2, Next(2, Next(2, TWO_PARKED, Announce(0, None)), Announce(1, None)), HostCheck(1, "yes"))
      == TWO_ASKED
  {
    var one := Next(2, TWO_PARKED, Announce(0, None));
    assert [] + [Requested(0)] == [Requested(0)];
    assert one.queues == map[0 := Queue([Requested(0)], [Requested(0)], [], Free)];
    var two := Next(2, one, Announce(1, None));
    assert [Requested(0)] + [Requested(1)] == ASKED;
    assert two.queues == map[0 := Queue(ASKED, ASKED, [], Free)];
  }

  lemma SecondIsLetGo()
    ensures var s := Next(2, Next(2, TWO_ASKED, Respond(0, Cancelled, FromExpiry, true, true)),
                          Respond(1, Selected("yes"), FromHost, false, true));
      s.replies == [Reply(1, Some(1), Cancelled, true, LetGo)] && s.queues == TWO_ASKED.queues
  {
  }

  lemma SomeRunParksTwo() returns (steps: seq<Step>)
    ensures Run(2, steps) == TWO_PARKED
  {
    assert Run(2, []) == OPEN_DESK;
    var one := ParkOne([], {"yes"});
    assert Run(2, one) == OPEN_DESK.(received := 1, nextKey := 1, parked := map[0 := FIRST]);
    steps := ParkOne(one, {"yes"});
  }

  lemma SomeRunAsksTwo() returns (steps: seq<Step>)
    ensures Run(2, steps) == TWO_ASKED
  {
    var parked := SomeRunParksTwo();
    var announced := parked + [Announce(0, None)] + [Announce(1, None)];
    assert Run(2, announced) == Next(2, Next(2, TWO_PARKED, Announce(0, None)), Announce(1, None)) by {
      ExtendTwice(2, parked, Announce(0, None), Announce(1, None));
    }
    steps := announced + [HostCheck(1, "yes")];
    assert Run(2, steps) == Next(2, Run(2, announced), HostCheck(1, "yes")) by {
      Extend(2, announced, HostCheck(1, "yes"));
    }
    TwoAreAsked();
  }

  lemma SecondWasAnnounced()
    ensures Told(ASKED, 1) == [Requested(1)]
  {
  }

  /**
    The exception happens. Two questions are announced; one runs out of time with nothing to refuse it
    with, which records a reason; the host answers the other before the siblings are withdrawn. Its
    agent hears `Cancelled`, and the host is never told that its own question is over.
  */
  lemma AnAnnouncedQuestionCanBeLetGo() returns (steps: seq<Step>)
    ensures var s := Run(2, steps);
      && s.replies == [Reply(1, Some(1), Cancelled, true, LetGo)]
      && Told(QueueOf(s, 0).registered, 1) == [Requested(1)]
  {
    var asked := SomeRunAsksTwo();
    var expire := Respond(0, Cancelled, FromExpiry, true, true);
    var answer := Respond(1, Selected("yes"), FromHost, false, true);
    steps := asked + [expire] + [answer];
    ExtendTwice(2, asked, expire, answer);
    SecondIsLetGo();
    SecondWasAnnounced();
  }

  // Cancellation.

  function RunFrom(limit: nat, s: Desk, steps: seq<Step>): Desk {
    if steps == [] then s else Next(limit, RunFrom(limit, s, steps[..|steps| - 1]), steps[|steps| - 1])
  }

  /** What may have been told since: resolutions that nobody chose, and no announcement. */
  ghost predicate OnlyWithdrawn(before: seq<Notice>, after: seq<Notice>) {
    && before <= after
    && (forall i :: |before| <= i < |after| ==> after[i].Resolved? && after[i].verdict.Nobody?)
  }

  /** Nothing was parked, announced or allowed since `s`, and the reason is still the one recorded. */
  ghost predicate Cancelling(s: Desk, t: Desk) {
    && t.reason == s.reason
    && (forall key <- t.parked :: key in s.parked && t.parked[key] == s.parked[key])
    && s.replies <= t.replies
    && (forall i :: |s.replies| <= i < |t.replies| ==> t.replies[i].outcome.Cancelled?)
    && (forall turn: nat :: OnlyWithdrawn(QueueOf(s, turn).registered, QueueOf(t, turn).registered))
  }

  lemma CancellingStep(limit: nat, s: Desk, step: Step)
    requires s.reason.Some? && !step.TakeReason? && !step.ResetReason?
    ensures Cancelling(s, Next(limit, s, step))
  {
    if step.Respond? {
      CancellingRespond(s, step.key, step.requested, step.source, step.elapsed, step.taken);
    } else if (step.TellWithdrawn? || step.ReplyWithdrawn? || step.ReplyLetGo?) && step.key in s.hands {
      CancellingHand(s, step.key, step);
    } else if s.handler.Some? && (step.RefuseOutright? || step.Mint? || step.Bind? || step.Park?) {
      CancellingHandler(limit, s, s.handler.value, step);
    }
  }

  lemma CancellingRespond(s: Desk, key: nat, requested: Outcome, source: Source, elapsed: bool, taken: bool)
    requires s.reason.Some?
    ensures Cancelling(s, RespondStep(s, key, requested, source, elapsed, taken))
  {
  }

  lemma CancellingReply(s: Desk, rest: Desk, key: nat, pending: Pending, taken: bool)
    requires rest == s.(parked := rest.parked, hands := rest.hands)
    requires forall other <- rest.parked :: other in s.parked && rest.parked[other] == s.parked[other]
    ensures Cancelling(s, RespondUnresolved(rest, key, pending, taken))
  {
  }

  lemma CancellingTell(s: Desk, key: nat, pending: Pending)
    ensures var hand := Hand(pending, Withdrawing(true));
      Cancelling(s, Tell(s, pending.turn, Resolved(key, Nobody)).(hands := s.hands[key := hand]))
  {
  }

  lemma CancellingHand(s: Desk, key: nat, step: Step)
    requires s.reason.Some? && key in s.hands
    ensures Cancelling(s, HandStep(s, key, step))
  {
    if step.ReplyLetGo? {
      CancellingReply(s, s.(hands := s.hands - {key}), key, s.hands[key].pending, step.taken);
    } else if step.TellWithdrawn? {
      CancellingTell(s, key, s.hands[key].pending);
    }
  }

  lemma CancellingHandler(limit: nat, s: Desk, ask: Ask, step: Step)
    requires s.reason.Some?
    ensures Cancelling(s, HandlerStep(limit, s, ask, step))
  {
  }

  lemma CancellingTwice(s: Desk, mid: Desk, t: Desk)
    requires Cancelling(s, mid) && Cancelling(mid, t)
    ensures Cancelling(s, t)
  {
  }

  /**
    From the step that records a reason to the step that takes it, whatever runs in between: every reply
    the agent hears is `Cancelled`, nothing is parked or announced, and the terminal is handed the reason
    recorded first.
  */
  lemma {:induction false} CancellationHolds(limit: nat, s: Desk, steps: seq<Step>)
    requires s.reason.Some?
    requires forall step <- steps :: !step.TakeReason? && !step.ResetReason?
    ensures Cancelling(s, RunFrom(limit, s, steps))
    ensures var t := RunFrom(limit, s, steps);
      Next(limit, t, TakeReason).handed == t.handed + [s.reason]
  {
    if steps != [] {
      var n := |steps| - 1;
      CancellationHolds(limit, s, steps[..n]);
      var mid := RunFrom(limit, s, steps[..n]);
      CancellingStep(limit, mid, steps[n]);
      CancellingTwice(s, mid, RunFrom(limit, s, steps));
    }
  }

  /** A reason is recorded by a cancellation, which leaves nothing parked, or by a question out of time. */
  lemma WhatRecordsAReason(limit: nat, s: Desk, step: Step)
    requires s.reason.None? && Next(limit, s, step).reason.Some?
    ensures step.BeginCancellation? || (step.Respond? && step.elapsed)
    ensures step.BeginCancellation? ==>
      Next(limit, s, step).reason == Some(step.reason) && Next(limit, s, step).parked == map[]
    ensures step.Respond? ==>
      && Next(limit, s, step).reason == Some(Timeout)
      && step.key in s.parked && s.parked[step.key].expiryOption.None?
  {
    if step.Respond? {
      TimeoutRecords(s, step.key, step.requested, step.source, step.elapsed, step.taken);
    }
  }

  lemma TimeoutRecords(s: Desk, key: nat, requested: Outcome, source: Source, elapsed: bool, taken: bool)
    requires s.reason.None?
    ensures var after := RespondStep(s, key, requested, source, elapsed, taken);
      after.reason.Some? ==>
        after.reason == Some(Timeout) && elapsed && key in s.parked && s.parked[key].expiryOption.None?
  {
  }
}
