/**
  When a question the host was told of is answered for the agent and never closed for the host: the step that
  does it, told by what can be seen before it, and that no other step does.
*/
module OpenQuestions {
  import opened Prelude
  import opened Approvals
  import opened ApprovalSafety
  import opened ApprovalPromises

  ghost predicate Replied(s: Desk, key: nat) {
    exists i :: 0 <= i < |s.replies| && s.replies[i].key == Some(key)
  }

  /** The agent has its reply, and all the host was ever told is that there is a question. */
  ghost predicate LeftOpen(s: Desk, key: nat) {
    Replied(s, key) && exists turn: nat :: Told(QueueOf(s, turn).registered, key) == [Requested(key)]
  }

  /** Whether a caller may ask for this outcome: an option is chosen only by who checked it. */
  predicate Honoured(s: Desk, key: nat, requested: Outcome) {
    requested.Selected? ==> (key, requested.option) in s.entitled
  }

  /** An announced question is about to be answered, during a cancellation or as cancelled in time. */
  predicate RespondLetsGo(s: Desk, key: nat, requested: Outcome, elapsed: bool, taken: bool) {
    && key in s.parked && s.parked[key].announced && Honoured(s, key, requested)
    && taken && (s.reason.Some? || (!elapsed && requested.Cancelled?))
  }

  /** A question taken back by its own task, which goes without a resolution. */
  predicate TakenBack(s: Desk, key: nat) {
    key in s.hands && s.hands[key].task.LettingGo? && s.hands[key].pending.announced
  }

  predicate LetsGo(s: Desk, key: nat, step: Step) {
    match step
    case Respond(other, requested, _, elapsed, taken) =>
      other == key && RespondLetsGo(s, key, requested, elapsed, taken)
    case ReplyLetGo(other, taken) => other == key && TakenBack(s, key) && taken
    case _ => false
  }

  // What the ledger says of it.

  lemma OpenOnItsCard(s: Desk, l: Ledger, key: nat)
    requires Books(s, l)
    ensures LeftOpen(s, key) <==>
      key in l.cards && l.cards[key].place.AnsweredAt? && l.cards[key].announced && l.cards[key].resolution.None?
    ensures Replied(s, key) <==> key in l.cards && l.cards[key].place.AnsweredAt?
  {
    forall i | 0 <= i < |s.replies|
      ensures s.replies[i].key == Some(key) ==> key in l.cards && l.cards[key].place == AnsweredAt(i)
    {
      ReplyKeyIsCarded(s, l, i);
    }
    if key in l.cards {
      var card := l.cards[key];
      assert CardMatches(s, key, card);
      assert Told(QueueOf(s, card.turn).registered, key) == Story(key, card);
    }
  }

  /** A question parked or taken back was told of exactly when it is marked so, and answered by nobody. */
  lemma UnansweredStory(s: Desk, l: Ledger, key: nat)
    requires Books(s, l)
    ensures Replied(s, key) ==> key !in s.parked && key !in s.hands
    ensures key in s.parked && s.parked[key].announced ==>
      Told(QueueOf(s, s.parked[key].turn).registered, key) == [Requested(key)]
    ensures TakenBack(s, key) ==> Told(QueueOf(s, s.hands[key].pending.turn).registered, key) == [Requested(key)]
  {
    OpenOnItsCard(s, l, key);
    if key in l.cards {
      assert CardMatches(s, key, l.cards[key]);
      assert Told(QueueOf(s, l.cards[key].turn).registered, key) == Story(key, l.cards[key]);
    }
  }

  // What a step can add.

  /** Nothing more is told of `key`. */
  ghost predicate SameTold(s: Desk, t: Desk, key: nat) {
    forall turn: nat :: Told(QueueOf(t, turn).registered, key) == Told(QueueOf(s, turn).registered, key)
  }

  lemma TellOther(s: Desk, turn: nat, notice: Notice, key: nat)
    requires notice.key != key
    ensures SameTold(s, Tell(s, turn, notice), key)
  {
    var before := QueueOf(s, turn).registered;
    assert (before + [notice])[..|before|] == before;
  }

  /** A question nobody holds any more is told of no more. */
  lemma OnlyHeldAreTold(limit: nat, s: Desk, step: Step, key: nat)
    requires key !in s.parked && key !in s.hands
    ensures SameTold(s, Next(limit, s, step), key)
  {
    match step
    case Announce(other, decided) =>
      if other in s.parked {
        TellOther(s, s.parked[other].turn, Requested(other), key);
      }
    case Respond(other, requested, source, elapsed, taken) =>
      if other in s.parked {
        RespondTellsOther(s, other, requested, source, elapsed, taken, key);
      }
    case TellWithdrawn(other) => HandTellsOther(s, other, step, key);
    case ReplyWithdrawn(other, _) => HandTellsOther(s, other, step, key);
    case ReplyLetGo(other, _) => HandTellsOther(s, other, step, key);
    case Flush(turn, flush) => FlushTellsNothing(s, turn, flush, key);
    case _ => OthersTellNothing(limit, s, step);
  }

  lemma OthersTellNothing(limit: nat, s: Desk, step: Step)
    requires !step.Announce? && !step.Respond? && !step.Flush?
    requires !step.TellWithdrawn? && !step.ReplyWithdrawn? && !step.ReplyLetGo?
    ensures Next(limit, s, step).queues == s.queues
  {
  }

  lemma FlushTellsNothing(s: Desk, turn: nat, flush: FlushStep, key: nat)
    ensures SameTold(s, s.(queues := s.queues[turn := FlushNext(QueueOf(s, turn), flush)]), key)
  {
  }

  /** A task with a question in hand tells of that one. */
  lemma HandTellsOther(s: Desk, other: nat, step: Step, key: nat)
    requires other in s.hands ==> other != key
    ensures other in s.hands ==> SameTold(s, HandStep(s, other, step), key)
  {
    if other in s.hands {
      var pending := s.hands[other].pending;
      if step.ReplyLetGo? && s.hands[other].task.LettingGo? {
        UnresolvedTellsOther(s.(hands := s.hands - {other}), other, pending, step.taken, key);
      } else if step.TellWithdrawn? {
        TellOther(s, pending.turn, Resolved(other, Nobody), key);
      } else {
        assert HandStep(s, other, step).queues == s.queues;
      }
    }
  }

  lemma RespondTellsOther(
    s: Desk, other: nat, requested: Outcome, source: Source, elapsed: bool, taken: bool, key: nat)
    requires other in s.parked && other != key
    ensures SameTold(s, RespondStep(s, other, requested, source, elapsed, taken), key)
  {
    var pending := s.parked[other];
    var rest := s.(parked := s.parked - {other});
    assert SameTold(s, rest, key);
    if s.reason.Some? || (!elapsed && requested.Cancelled?) {
      UnresolvedTellsOther(rest, other, pending, taken, key);
    } else if elapsed {
      ExpiryTellsOther(rest, other, pending, taken, key);
    } else {
      ResolutionTellsOther(rest, other, pending, requested.option, source, taken, key);
    }
  }

  lemma UnresolvedTellsOther(s: Desk, other: nat, pending: Pending, taken: bool, key: nat)
    requires other != key
    ensures SameTold(s, Approvals.RespondUnresolved(s, other, pending, taken), key)
  {
    TellOther(s, pending.turn, Resolved(other, Nobody), key);
  }

  lemma ResolutionTellsOther(
    s: Desk, other: nat, pending: Pending, option: string, source: Source, taken: bool, key: nat)
    requires other != key
    ensures SameTold(s, RespondWithResolution(s, other, pending, option, source, taken), key)
  {
    TellOther(s, pending.turn, Resolved(other, Chosen(option, source)), key);
    TellOther(s, pending.turn, Resolved(other, Nobody), key);
  }

  lemma ExpiryTellsOther(s: Desk, other: nat, pending: Pending, taken: bool, key: nat)
    requires other != key
    ensures SameTold(s, ExpireStep(s, other, pending, taken), key)
  {
    var told := TellRequested(s, other, pending);
    TellOther(s, pending.turn, Requested(other), key);
    if pending.expiryOption.Some? {
      ResolutionTellsOther(
        told, other, pending.(announced := true), pending.expiryOption.value, FromExpiry, taken, key);
    }
  }

  /** Replies only accumulate, one at a time. */
  lemma OneReplyAtMost(limit: nat, s: Desk, step: Step)
    ensures s.replies <= Next(limit, s, step).replies && |Next(limit, s, step).replies| <= |s.replies| + 1
  {
    if step.Respond? && step.key in s.parked {
      RespondAddsOne(s, step.key, step.requested, step.source, step.elapsed, step.taken);
    }
  }

  lemma RespondAddsOne(s: Desk, key: nat, requested: Outcome, source: Source, elapsed: bool, taken: bool)
    requires key in s.parked
    ensures var t := RespondStep(s, key, requested, source, elapsed, taken);
      s.replies <= t.replies && |t.replies| <= |s.replies| + 1
  {
    var pending := s.parked[key];
    var rest := s.(parked := s.parked - {key});
    if s.reason.None? && elapsed {
      ExpiryAddsOne(rest, key, pending, taken);
    }
  }

  lemma ExpiryAddsOne(s: Desk, key: nat, pending: Pending, taken: bool)
    ensures var t := ExpireStep(s, key, pending, taken);
      s.replies <= t.replies && |t.replies| <= |s.replies| + 1
  {
  }

  /** A step that adds a reply which let a question go met the guard, and told the host nothing. */
  lemma LettingGoMetTheGuard(limit: nat, s: Desk, step: Step, key: nat)
    requires AddsLetGo(s, Next(limit, s, step), key)
    ensures Next(limit, s, step).queues == s.queues
    ensures || (step.ReplyLetGo? && step.key == key && step.taken && key in s.hands && s.hands[key].task.LettingGo?)
      || (step.Respond? && step.key == key && step.taken && key in s.parked && Honoured(s, key, step.requested)
          && (s.reason.Some? || (!step.elapsed && step.requested.Cancelled?)))
  {
    if step.Respond? {
      RespondMetTheGuard(s, step.key, step.requested, step.source, step.elapsed, step.taken, key);
    }
  }

  /** The one new reply lets `key` go. */
  predicate AddsLetGo(s: Desk, t: Desk, key: nat) {
    |t.replies| == |s.replies| + 1 && LetsItGo(t.replies[|s.replies|], key)
  }

  lemma RespondMetTheGuard(
    s: Desk, other: nat, requested: Outcome, source: Source, elapsed: bool, taken: bool, key: nat)
    requires AddsLetGo(s, RespondStep(s, other, requested, source, elapsed, taken), key)
    ensures RespondStep(s, other, requested, source, elapsed, taken).queues == s.queues
    ensures other == key && taken && key in s.parked && Honoured(s, key, requested)
    ensures s.reason.Some? || (!elapsed && requested.Cancelled?)
  {
  }

  lemma GuardLetsGo(limit: nat, s: Desk, step: Step, key: nat)
    requires LetsGo(s, key, step)
    ensures var t := Next(limit, s, step); t.queues == s.queues && Replied(t, key)
  {
    var t := Next(limit, s, step);
    assert t.replies[|s.replies|].key == Some(key);
  }

  // The exact condition.

  /** One step leaves a question open exactly when it meets the guard, and what is open stays so. */
  lemma StepLeavesOpenIff(limit: nat, s: Desk, l: Ledger, step: Step, key: nat)
    requires Books(s, l)
    ensures LeftOpen(Next(limit, s, step), key) <==> LeftOpen(s, key) || LetsGo(s, key, step)
  {
    var t := Next(limit, s, step);
    var l' := StepKeepsBooks(limit, s, l, step);
    OneReplyAtMost(limit, s, step);
    UnansweredStory(s, l, key);
    if LeftOpen(s, key) {
      OnlyHeldAreTold(limit, s, step, key);
      RepliedStays(s, t, key);
    } else if LetsGo(s, key, step) {
      GuardLetsGo(limit, s, step, key);
      var turn := if step.Respond? then s.parked[key].turn else s.hands[key].pending.turn;
      assert Told(QueueOf(t, turn).registered, key) == [Requested(key)];
    } else if LeftOpen(t, key) {
      NothingElseLeavesOpen(limit, s, l, step, l', key);
    }
  }

  lemma RepliedStays(s: Desk, t: Desk, key: nat)
    requires s.replies <= t.replies && Replied(s, key)
    ensures Replied(t, key)
  {
    var i :| 0 <= i < |s.replies| && s.replies[i].key == Some(key);
    assert t.replies[i] == s.replies[i];
  }

  lemma NothingElseLeavesOpen(limit: nat, s: Desk, l: Ledger, step: Step, l': Ledger, key: nat)
    requires Books(s, l) && Books(Next(limit, s, step), l') && !LeftOpen(s, key)
    requires LeftOpen(Next(limit, s, step), key)
    ensures LetsGo(s, key, step)
  {
    var turn: nat :| Told(QueueOf(Next(limit, s, step), turn).registered, key) == [Requested(key)];
    OneReplyAtMost(limit, s, step);
    RepliedBeforeOrNow(s, Next(limit, s, step), l', key);
    if Replied(s, key) {
      AnsweredBefore(limit, s, l, step, key, turn);
    } else {
      NewReplyMetTheGuard(limit, s, l, step, key, turn);
    }
  }

  lemma RepliedBeforeOrNow(s: Desk, t: Desk, l': Ledger, key: nat)
    requires s.replies <= t.replies && |t.replies| <= |s.replies| + 1 && Books(t, l') && LeftOpen(t, key)
    ensures Replied(s, key) || AddsLetGo(s, t, key)
  {
    var i :| 0 <= i < |t.replies| && t.replies[i].key == Some(key);
    OpenMeansLetGo(t, l', key, i);
    if i < |s.replies| {
      assert s.replies[i].key == Some(key);
    }
  }

  predicate LetsItGo(reply: Reply, key: nat) {
    reply.key == Some(key) && reply.manner.LetGo? && reply.taken
  }

  lemma OpenMeansLetGo(s: Desk, l: Ledger, key: nat, i: nat)
    requires Books(s, l) && LeftOpen(s, key) && i < |s.replies| && s.replies[i].key == Some(key)
    ensures s.replies[i].manner.LetGo? && s.replies[i].taken
  {
    ReplyKeyIsCarded(s, l, i);
    OpenOnItsCard(s, l, key);
  }

  lemma NewReplyMetTheGuard(limit: nat, s: Desk, l: Ledger, step: Step, key: nat, turn: nat)
    requires AddsLetGo(s, Next(limit, s, step), key)
    requires Books(s, l) && Told(QueueOf(Next(limit, s, step), turn).registered, key) == [Requested(key)]
    ensures LetsGo(s, key, step)
  {
    LettingGoMetTheGuard(limit, s, step, key);
    assert QueueOf(s, turn) == QueueOf(Next(limit, s, step), turn);
    HeldAndTold(s, l, key, turn);
  }

  lemma AnsweredBefore(limit: nat, s: Desk, l: Ledger, step: Step, key: nat, turn: nat)
    requires Books(s, l) && Replied(s, key)
    requires Told(QueueOf(Next(limit, s, step), turn).registered, key) == [Requested(key)]
    ensures LeftOpen(s, key)
  {
    UnansweredStory(s, l, key);
    OnlyHeldAreTold(limit, s, step, key);
    assert Told(QueueOf(s, turn).registered, key) == [Requested(key)];
  }

  lemma HeldAndTold(s: Desk, l: Ledger, key: nat, turn: nat)
    requires Books(s, l) && Told(QueueOf(s, turn).registered, key) == [Requested(key)]
    ensures key in s.parked ==> s.parked[key].announced
    ensures key in s.hands ==> s.hands[key].pending.announced
  {
    assert Told(QueueOf(s, turn).registered, key) == Expected(l, turn, key);
    assert key in l.cards ==> CardMatches(s, key, l.cards[key]);
  }

  /** Some step of the run met the guard in the state it found. */
  ghost predicate LetGoWithin(limit: nat, steps: seq<Step>, key: nat) {
    exists i :: 0 <= i < |steps| && LetGoAt(limit, steps, key, i)
  }

  lemma LetGoEarlierOrLast(limit: nat, steps: seq<Step>, key: nat)
    requires steps != []
    ensures var n := |steps| - 1;
      LetGoWithin(limit, steps, key) <==> LetGoWithin(limit, steps[..n], key) || LetGoAt(limit, steps, key, n)
  {
    var n := |steps| - 1;
    forall i | 0 <= i < n
      ensures LetGoAt(limit, steps[..n], key, i) <==> LetGoAt(limit, steps, key, i)
    {
      assert steps[..n][..i] == steps[..i];
    }
  }

  /**
    Over a whole run: a question the host heard of is answered and never closed for it exactly when some step
    of the run met the guard.
  */
  lemma {:induction false} LeftOpenIffLetGo(limit: nat, steps: seq<Step>, key: nat)
    ensures LeftOpen(Run(limit, steps), key) <==> LetGoWithin(limit, steps, key)
  {
    if steps != [] {
      LeftOpenIffLetGo(limit, steps[..|steps| - 1], key);
      LetGoEarlierOrLast(limit, steps, key);
      LastStepLeavesOpenIff(limit, steps, key);
    } else {
      assert !LeftOpen(OPEN_DESK, key);
    }
  }

  lemma LastStepLeavesOpenIff(limit: nat, steps: seq<Step>, key: nat)
    requires steps != []
    ensures var n := |steps| - 1;
      LeftOpen(Run(limit, steps), key) <==> LeftOpen(Run(limit, steps[..n]), key) || LetGoAt(limit, steps, key, n)
  {
    var n := |steps| - 1;
    var l := RunKeepsBooks(limit, steps[..n]);
    StepLeavesOpenIff(limit, Run(limit, steps[..n]), l, steps[n], key);
  }

  /** The `i`th step met the guard in the state it found. */
  predicate LetGoAt(limit: nat, steps: seq<Step>, key: nat, i: nat)
    requires i < |steps|
  {
    LetsGo(Run(limit, steps[..i]), key, steps[i])
  }

  /**
    An answered question that the host was asked about is closed for the host too, unless some step of the run
    met the guard; and an option is only ever chosen for a question the host was asked about.
  */
  lemma AnsweredQuestionsAreClosedUnlessLetGo(limit: nat, steps: seq<Step>, i: nat, turn: nat)
    requires i < |Run(limit, steps).replies| && Run(limit, steps).replies[i].key.Some?
    ensures var s := Run(limit, steps);
      var key := s.replies[i].key.value;
      var told := Told(QueueOf(s, turn).registered, key);
      && (told != [] ==> told[0] == Requested(key) && |told| == if LetGoWithin(limit, steps, key) then 1 else 2)
      && (|told| == 2 ==> told[1].Resolved?)
      && (s.replies[i].outcome.Selected? ==> exists its: nat :: Told(QueueOf(s, its).registered, key) != [])
  {
    var s := Run(limit, steps);
    var key := s.replies[i].key.value;
    var l := RunKeepsBooks(limit, steps);
    AnsweredQuestionsHaveTheirStory(limit, steps, i, turn);
    LeftOpenIffLetGo(limit, steps, key);
    OpenOnItsCard(s, l, key);
    ReplyKeyIsCarded(s, l, i);
    assert Told(QueueOf(s, turn).registered, key) == Expected(l, turn, key);
  }

  /** What a caller can tell before it answers an announced question with something it may ask for. */
  lemma AnsweringLeavesOpenIff(
    limit: nat, steps: seq<Step>, key: nat, requested: Outcome, source: Source, elapsed: bool, taken: bool)
    requires var s := Run(limit, steps);
      key in s.parked && s.parked[key].announced && Honoured(s, key, requested)
    ensures var s := Run(limit, steps);
      LeftOpen(Next(limit, s, Respond(key, requested, source, elapsed, taken)), key)
      <==> taken && (s.reason.Some? || (!elapsed && requested.Cancelled?))
  {
    var l := RunKeepsBooks(limit, steps);
    UnansweredStory(Run(limit, steps), l, key);
    StepLeavesOpenIff(limit, Run(limit, steps), l, Respond(key, requested, source, elapsed, taken), key);
  }

  /** And before its task takes an announced question back, because its announcement could not be delivered. */
  lemma TakingBackLeavesOpenIff(limit: nat, steps: seq<Step>, key: nat, taken: bool)
    requires var s := Run(limit, steps); key in s.parked && s.parked[key].announced
    ensures var s := Run(limit, steps);
      LeftOpen(Next(limit, Next(limit, s, WithdrawById(key)), ReplyLetGo(key, taken)), key) <==> taken
  {
    var s := Run(limit, steps);
    var mid := Next(limit, s, WithdrawById(key));
    var l := RunKeepsBooks(limit, steps);
    var l' := StepKeepsBooks(limit, s, l, WithdrawById(key));
    UnansweredStory(s, l, key);
    StepLeavesOpenIff(limit, s, l, WithdrawById(key), key);
    StepLeavesOpenIff(limit, mid, l', ReplyLetGo(key, taken), key);
  }
}
