/**
  What an answer carries, over every interleaving: the agent is sent the option that was chosen, it is one the
  question offered, and the host is told of the same option and of who chose it.
*/
module ApprovalAnswers {
  import opened Prelude
  import opened Approvals
  import opened ApprovalSafety
  import opened ApprovalPromises

  // What each question offered.

  /** The options bound to each key, from the steps alone. */
  function Offers(limit: nat, steps: seq<Step>): map<nat, set<string>> {
    if steps == [] then map[]
    else
      var n := |steps| - 1;
      Offering(Run(limit, steps[..n]), steps[n], Offers(limit, steps[..n]))
  }

  function Offering(s: Desk, step: Step, offers: map<nat, set<string>>): map<nat, set<string>> {
    if step.Bind? && s.handler.Some? && s.handler.value.stage.Minted?
       && (step.expiryOption.Some? ==> step.expiryOption.value in step.options)
    then offers[s.handler.value.stage.key := step.options]
    else offers
  }

  ghost predicate PendingOffers(pending: Pending, key: nat, offers: map<nat, set<string>>) {
    && key in offers && offers[key] == pending.options
    && (pending.expiryOption.Some? ==> pending.expiryOption.value in pending.options)
  }

  /** Every question is held with the options it offered, and nobody is entitled to any other. */
  ghost predicate KeptOffers(s: Desk, offers: map<nat, set<string>>) {
    && (forall key <- s.parked :: PendingOffers(s.parked[key], key, offers))
    && (forall pair <- s.entitled :: pair.0 in offers && pair.1 in offers[pair.0])
    && (forall key <- offers :: key < s.nextKey)
    && (s.handler.Some? ==>
          match s.handler.value.stage
          case Minted(key) => key < s.nextKey && key !in offers
          case Bound(key, pending) => PendingOffers(pending, key, offers)
          case _ => true)
  }

  lemma HandlerKeepsOffers(limit: nat, s: Desk, step: Step, offers: map<nat, set<string>>)
    requires KeptOffers(s, offers) && (step.RefuseOutright? || step.Mint? || step.Bind? || step.Park?)
    ensures KeptOffers(Next(limit, s, step), Offering(s, step, offers))
  {
  }

  lemma RespondKeepsOffers(
    s: Desk, key: nat, requested: Outcome, source: Source, elapsed: bool, taken: bool, offers: map<nat, set<string>>)
    requires KeptOffers(s, offers)
    ensures KeptOffers(RespondStep(s, key, requested, source, elapsed, taken), offers)
  {
    var after := RespondStep(s, key, requested, source, elapsed, taken);
    RespondTakesOne(s, key, requested, source, elapsed, taken);
    assert forall other <- after.parked :: PendingOffers(s.parked[other], other, offers);
  }

  lemma RespondTakesOne(s: Desk, key: nat, requested: Outcome, source: Source, elapsed: bool, taken: bool)
    ensures var after := RespondStep(s, key, requested, source, elapsed, taken);
      && (after.parked == s.parked || after.parked == s.parked - {key})
      && after.entitled == s.entitled && after.nextKey == s.nextKey && after.handler == s.handler
  {
    if key in s.parked && (requested.Selected? ==> (key, requested.option) in s.entitled) {
      var pending := s.parked[key];
      var rest := s.(parked := s.parked - {key});
      if s.reason.None? && elapsed {
        ExpiryTakesNone(rest, key, pending, taken);
      } else {
        ReplyTakesNone(rest, key, pending, if requested.Selected? then requested.option else "", source, taken);
      }
    }
  }

  predicate SameQuestions(s: Desk, after: Desk) {
    && after.parked == s.parked && after.entitled == s.entitled && after.nextKey == s.nextKey
    && after.handler == s.handler
  }

  lemma ReplyTakesNone(s: Desk, key: nat, pending: Pending, option: string, source: Source, taken: bool)
    ensures SameQuestions(s, RespondWithResolution(s, key, pending, option, source, taken))
    ensures SameQuestions(s, RespondUnresolved(s, key, pending, taken))
  {
  }

  lemma ExpiryTakesNone(s: Desk, key: nat, pending: Pending, taken: bool)
    ensures SameQuestions(s, ExpireStep(s, key, pending, taken))
  {
    var told := TellRequested(s, key, pending);
    if pending.expiryOption.Some? {
      ReplyTakesNone(told, key, pending.(announced := true), pending.expiryOption.value, FromExpiry, taken);
    }
  }

  lemma AnnounceKeepsOffers(s: Desk, key: nat, decided: Option<string>, offers: map<nat, set<string>>)
    requires KeptOffers(s, offers)
    ensures KeptOffers(AnnounceStep(s, key, decided), offers)
  {
    if key in s.parked {
      assert PendingOffers(s.parked[key], key, offers);
    }
  }

  lemma StepKeepsOffers(limit: nat, s: Desk, step: Step, offers: map<nat, set<string>>)
    requires KeptOffers(s, offers)
    ensures KeptOffers(Next(limit, s, step), Offering(s, step, offers))
  {
    if step.RefuseOutright? || step.Mint? || step.Bind? || step.Park? {
      HandlerKeepsOffers(limit, s, step, offers);
    } else if step.Respond? {
      RespondKeepsOffers(s, step.key, step.requested, step.source, step.elapsed, step.taken, offers);
    } else if step.Announce? {
      AnnounceKeepsOffers(s, step.key, step.decided, offers);
    } else if step.HostCheck? {
      if step.key in s.parked {
        assert PendingOffers(s.parked[step.key], step.key, offers);
      }
    } else {
      assert forall key <- Next(limit, s, step).parked :: key in s.parked;
    }
  }

  lemma {:induction false} RunKeepsOffers(limit: nat, steps: seq<Step>)
    ensures KeptOffers(Run(limit, steps), Offers(limit, steps))
  {
    if steps != [] {
      var n := |steps| - 1;
      RunKeepsOffers(limit, steps[..n]);
      StepKeepsOffers(limit, Run(limit, steps[..n]), steps[n], Offers(limit, steps[..n]));
    }
  }

  // How a decided reply comes about.

  /** Who a response says chose: its own source, or the clock. */
  function SourceOf(step: Step): Source
    requires step.Respond?
  {
    if step.elapsed then FromExpiry else step.source
  }

  /** The reply sends what was asked for in time, or the question's own refusal once it was out of time. */
  ghost predicate Decides(s: Desk, step: Step, after: Desk, reply: Reply) {
    && step.Respond? && step.key in s.parked && s.reason.None?
    && reply.outcome.Selected?
    && reply.request == s.parked[step.key].request && reply.key == Some(step.key) && reply.taken == step.taken
    && (if step.elapsed then s.parked[step.key].expiryOption == Some(reply.outcome.option)
        else step.requested == reply.outcome && (step.key, reply.outcome.option) in s.entitled)
    && (step.taken || step.elapsed || s.parked[step.key].announced ==>
          var told := QueueOf(after, s.parked[step.key].turn).registered;
          told != [] && told[|told| - 1] == Ending(step.key, reply, SourceOf(step)))
  }

  /** What the host is told a decided question came to. */
  function Ending(key: nat, reply: Reply, source: Source): Notice
    requires reply.outcome.Selected?
  {
    Resolved(key, if reply.taken then Chosen(reply.outcome.option, source) else Nobody)
  }

  ghost predicate DecidedBy(limit: nat, steps: seq<Step>, j: nat, reply: Reply) {
    j < |steps| && Decides(Run(limit, steps[..j]), steps[j], Run(limit, steps[..j + 1]), reply)
  }

  ghost predicate Explained(limit: nat, steps: seq<Step>, reply: Reply) {
    && (reply.outcome.Selected? <==> reply.manner.Decided?)
    && (reply.outcome.Selected? ==> exists j: nat :: DecidedBy(limit, steps, j, reply))
  }

  /** One more reply, if any, is cancelled or decides by this step. */
  ghost predicate RepliesGrow(s: Desk, step: Step, after: Desk) {
    || after.replies == s.replies
    || (&& |after.replies| == |s.replies| + 1 && after.replies[..|s.replies|] == s.replies
        && var reply := after.replies[|s.replies|];
           && (reply.outcome.Selected? <==> reply.manner.Decided?)
           && (reply.outcome.Selected? ==> Decides(s, step, after, reply)))
  }

  lemma ResolutionReplies(s: Desk, key: nat, pending: Pending, option: string, source: Source, taken: bool)
    ensures var after := RespondWithResolution(s, key, pending, option, source, taken);
      && after.replies == s.replies + [Reply(pending.request, Some(key), Selected(option), taken, Decided)]
      && var told := QueueOf(after, pending.turn).registered;
         taken || pending.announced ==>
           told != [] && told[|told| - 1] == Resolved(key, if taken then Chosen(option, source) else Nobody)
  {
  }

  lemma AnswerInTimeReplies(s: Desk, step: Step)
    requires step.Respond? && step.key in s.parked && s.reason.None? && !step.elapsed && step.requested.Selected?
    requires (step.key, step.requested.option) in s.entitled
    ensures RepliesGrow(s, step, RespondStep(s, step.key, step.requested, step.source, step.elapsed, step.taken))
  {
    ResolutionReplies(
      s.(parked := s.parked - {step.key}), step.key, s.parked[step.key], step.requested.option, step.source,
      step.taken);
  }

  lemma ExpiryReplies(s: Desk, step: Step)
    requires step.Respond? && step.key in s.parked && s.reason.None? && step.elapsed
    requires s.parked[step.key].expiryOption.Some?
    ensures RepliesGrow(s, step,
      ExpireStep(s.(parked := s.parked - {step.key}), step.key, s.parked[step.key], step.taken))
  {
    var pending := s.parked[step.key];
    ResolutionReplies(
      TellRequested(s.(parked := s.parked - {step.key}), step.key, pending), step.key, pending.(announced := true),
      pending.expiryOption.value, FromExpiry, step.taken);
  }

  lemma UnresolvedReplies(s: Desk, step: Step, rest: Desk, key: nat, pending: Pending, taken: bool)
    requires rest.replies == s.replies
    ensures RepliesGrow(s, step, RespondUnresolved(rest, key, pending, taken))
  {
  }

  lemma RespondReplies(s: Desk, step: Step)
    requires step.Respond?
    ensures RepliesGrow(s, step, RespondStep(s, step.key, step.requested, step.source, step.elapsed, step.taken))
  {
    if step.key !in s.parked || (step.requested.Selected? && (step.key, step.requested.option) !in s.entitled) {
      return;
    }
    if s.reason.None? && step.elapsed {
      if s.parked[step.key].expiryOption.Some? {
        ExpiryReplies(s, step);
      }
    } else if s.reason.None? && step.requested.Selected? {
      AnswerInTimeReplies(s, step);
    } else {
      UnresolvedReplies(s, step, s.(parked := s.parked - {step.key}), step.key, s.parked[step.key], step.taken);
    }
  }

  lemma HandReplies(s: Desk, key: nat, step: Step)
    requires key in s.hands
    ensures RepliesGrow(s, step, HandStep(s, key, step))
  {
  }

  lemma StepReplies(limit: nat, s: Desk, step: Step)
    ensures RepliesGrow(s, step, Next(limit, s, step))
  {
    if step.Respond? {
      RespondReplies(s, step);
    } else if (step.TellWithdrawn? || step.ReplyWithdrawn? || step.ReplyLetGo?) && step.key in s.hands {
      HandReplies(s, step.key, step);
    }
  }

  lemma DecidedEarlier(limit: nat, steps: seq<Step>, n: nat, reply: Reply)
    requires n <= |steps| && Explained(limit, steps[..n], reply)
    ensures Explained(limit, steps, reply)
  {
    if reply.outcome.Selected? {
      var j: nat :| DecidedBy(limit, steps[..n], j, reply);
      assert steps[..n][..j] == steps[..j] && steps[..n][..j + 1] == steps[..j + 1];
      assert DecidedBy(limit, steps, j, reply);
    }
  }

  lemma {:induction false} RepliesAreExplained(limit: nat, steps: seq<Step>, i: nat)
    requires i < |Run(limit, steps).replies|
    ensures Explained(limit, steps, Run(limit, steps).replies[i])
  {
    var n := |steps| - 1;
    var before, after := Run(limit, steps[..n]), Run(limit, steps);
    StepReplies(limit, before, steps[n]);
    if i < |before.replies| {
      RepliesAreExplained(limit, steps[..n], i);
      assert after.replies[i] == before.replies[i];
      DecidedEarlier(limit, steps, n, after.replies[i]);
    } else if after.replies[i].outcome.Selected? {
      assert steps[..n + 1] == steps;
      assert DecidedBy(limit, steps, n, after.replies[i]);
    }
  }

  // What the host is told of it.

  /** Nothing registered is taken back. */
  ghost predicate RegistersMore(s: Desk, after: Desk) {
    forall turn: nat :: QueueOf(s, turn).registered <= QueueOf(after, turn).registered
  }

  lemma TellRegisters(s: Desk, turn: nat, notice: Notice)
    ensures RegistersMore(s, Tell(s, turn, notice))
  {
  }

  lemma SameQueuesRegister(s: Desk, after: Desk)
    requires after.queues == s.queues
    ensures RegistersMore(s, after)
  {
  }

  lemma RegistersTwice(s: Desk, mid: Desk, after: Desk)
    requires RegistersMore(s, mid) && RegistersMore(mid, after)
    ensures RegistersMore(s, after)
  {
  }

  lemma RequestRegisters(s: Desk, key: nat, pending: Pending)
    ensures RegistersMore(s, TellRequested(s, key, pending))
  {
    TellRegisters(s, pending.turn, Requested(key));
  }

  lemma ResolutionRegisters(s: Desk, key: nat, pending: Pending, option: string, source: Source, taken: bool)
    ensures RegistersMore(s, RespondWithResolution(s, key, pending, option, source, taken))
    ensures RegistersMore(s, RespondUnresolved(s, key, pending, taken))
  {
    TellRegisters(s, pending.turn, Resolved(key, Chosen(option, source)));
    TellRegisters(s, pending.turn, Resolved(key, Nobody));
  }

  lemma RespondRegisters(
    s: Desk, key: nat, requested: Outcome, source: Source, elapsed: bool, taken: bool)
    ensures RegistersMore(s, RespondStep(s, key, requested, source, elapsed, taken))
  {
    var after := RespondStep(s, key, requested, source, elapsed, taken);
    if key in s.parked && (requested.Selected? ==> (key, requested.option) in s.entitled) {
      var pending := s.parked[key];
      var rest := s.(parked := s.parked - {key});
      SameQueuesRegister(s, rest);
      if s.reason.None? && elapsed {
        RequestRegisters(rest, key, pending);
        var told := TellRequested(rest, key, pending);
        RegistersTwice(s, rest, told);
        if pending.expiryOption.Some? {
          ResolutionRegisters(told, key, pending.(announced := true), pending.expiryOption.value, FromExpiry, taken);
        } else {
          SameQueuesRegister(told, after);
        }
        RegistersTwice(s, told, after);
      } else {
        ResolutionRegisters(rest, key, pending, if requested.Selected? then requested.option else "", source, taken);
        RegistersTwice(s, rest, after);
      }
    }
  }

  lemma HandRegisters(s: Desk, key: nat, step: Step)
    requires key in s.hands
    ensures RegistersMore(s, HandStep(s, key, step))
  {
    var pending := s.hands[key].pending;
    TellRegisters(s, pending.turn, Resolved(key, Nobody));
    ResolutionRegisters(s.(hands := s.hands - {key}), key, pending, "", FromHost, true);
    if step.ReplyLetGo? {
      ResolutionRegisters(s.(hands := s.hands - {key}), key, pending, "", FromHost, step.taken);
    }
  }

  lemma StepRegisters(limit: nat, s: Desk, step: Step)
    ensures RegistersMore(s, Next(limit, s, step))
  {
    if step.Respond? {
      RespondRegisters(s, step.key, step.requested, step.source, step.elapsed, step.taken);
    } else if step.TellWithdrawn? || step.ReplyWithdrawn? || step.ReplyLetGo? {
      if step.key in s.hands {
        HandRegisters(s, step.key, step);
      }
    } else if step.Announce? {
      if step.key in s.parked {
        RequestRegisters(s, step.key, s.parked[step.key]);
      }
    } else if !step.Flush? {
      SameQueuesRegister(s, Next(limit, s, step));
    }
  }

  lemma {:induction false} RegisteredStays(limit: nat, steps: seq<Step>, j: nat, turn: nat)
    requires j <= |steps|
    ensures QueueOf(Run(limit, steps[..j]), turn).registered <= QueueOf(Run(limit, steps), turn).registered
  {
    if j < |steps| {
      var n := |steps| - 1;
      RegisteredStays(limit, steps[..n], j, turn);
      assert steps[..n][..j] == steps[..j];
      StepRegisters(limit, Run(limit, steps[..n]), steps[n]);
    } else {
      assert steps[..j] == steps;
    }
  }

  lemma {:induction false} ToldIncludes(notices: seq<Notice>, notice: Notice)
    requires notice in notices
    ensures notice in Told(notices, notice.key)
  {
    var n := |notices| - 1;
    if notices[n] != notice {
      ToldIncludes(notices[..n], notice);
    }
  }

  /** The two notices a decided question comes to, in the queue of the turn it was parked for. */
  function Decision(key: nat, reply: Reply, source: Source): seq<Notice>
    requires reply.outcome.Selected?
  {
    [Requested(key), Ending(key, reply, source)]
  }

  lemma CardDecides(s: Desk, l: Ledger, i: nat)
    requires Books(s, l) && i < |s.replies| && s.replies[i].outcome.Selected? && s.replies[i].key.Some?
    requires s.replies[i].manner.Decided?
    ensures var reply := s.replies[i];
      var key := reply.key.value;
      && key in l.cards && l.cards[key].announced && l.cards[key].resolution.Some?
      && (if reply.taken
          then l.cards[key].resolution.value.Chosen? && l.cards[key].resolution.value.option == reply.outcome.option
          else l.cards[key].resolution == Some(Nobody))
  {
    ReplyKeyIsCarded(s, l, i);
  }

  /**
    Over every run, whoever answers when: a reply selects an option exactly when it was decided, every other
    being cancelled. The option is the one asked for by somebody entitled to it, or the question's own refusal once
    it was out of time; the question offered it; and the host is told, once, of that option and of that source,
    or of nobody's withdrawal when the wire did not take the reply.
  */
  lemma RepliesSayWhatWasChosen(limit: nat, steps: seq<Step>, i: nat)
    requires i < |Run(limit, steps).replies|
    ensures var s := Run(limit, steps);
      var reply := s.replies[i];
      && (reply.outcome.Selected? <==> reply.manner.Decided?)
      && (reply.outcome.Selected? ==> exists j: nat ::
            && DecidedBy(limit, steps, j, reply)
            && var key := steps[j].key;
               && key in Offers(limit, steps) && reply.outcome.option in Offers(limit, steps)[key]
               && Told(QueueOf(s, Run(limit, steps[..j]).parked[key].turn).registered, key)
                  == Decision(key, reply, SourceOf(steps[j])))
  {
    var s := Run(limit, steps);
    var reply := s.replies[i];
    RepliesAreExplained(limit, steps, i);
    if reply.outcome.Selected? {
      var j: nat :| DecidedBy(limit, steps, j, reply);
      WhatWasOffered(limit, steps, j, reply);
      WhatWasTold(limit, steps, i, j);
    }
  }

  lemma WhatWasOffered(limit: nat, steps: seq<Step>, j: nat, reply: Reply)
    requires DecidedBy(limit, steps, j, reply)
    ensures steps[j].key in Offers(limit, steps) && reply.outcome.option in Offers(limit, steps)[steps[j].key]
  {
    RunKeepsOffers(limit, steps[..j]);
    assert PendingOffers(Run(limit, steps[..j]).parked[steps[j].key], steps[j].key, Offers(limit, steps[..j]));
    OffersStay(limit, steps, j);
  }

  lemma {:induction false} OffersStay(limit: nat, steps: seq<Step>, j: nat)
    requires j <= |steps|
    ensures forall key <- Offers(limit, steps[..j]) ::
      key in Offers(limit, steps) && Offers(limit, steps)[key] == Offers(limit, steps[..j])[key]
  {
    if j < |steps| {
      var n := |steps| - 1;
      OffersStay(limit, steps[..n], j);
      assert steps[..n][..j] == steps[..j];
      RunKeepsOffers(limit, steps[..n]);
    } else {
      assert steps[..j] == steps;
    }
  }

  lemma WhatWasTold(limit: nat, steps: seq<Step>, i: nat, j: nat)
    requires i < |Run(limit, steps).replies| && DecidedBy(limit, steps, j, Run(limit, steps).replies[i])
    requires Run(limit, steps).replies[i].manner.Decided?
    ensures var s := Run(limit, steps);
      Told(QueueOf(s, Run(limit, steps[..j]).parked[steps[j].key].turn).registered, steps[j].key)
      == Decision(steps[j].key, s.replies[i], SourceOf(steps[j]))
  {
    var turn := Run(limit, steps[..j]).parked[steps[j].key].turn;
    var l := RunKeepsBooks(limit, steps);
    EndingIsRegistered(limit, steps, j, Run(limit, steps).replies[i]);
    RegisteredStays(limit, steps, j + 1, turn);
    DecisionIsTold(Run(limit, steps), l, i, steps[j].key, turn, SourceOf(steps[j]));
  }

  lemma EndingIsRegistered(limit: nat, steps: seq<Step>, j: nat, reply: Reply)
    requires DecidedBy(limit, steps, j, reply)
    ensures var turn := Run(limit, steps[..j]).parked[steps[j].key].turn;
      Ending(steps[j].key, reply, SourceOf(steps[j])) in QueueOf(Run(limit, steps[..j + 1]), turn).registered
  {
    var earlier := RunKeepsBooks(limit, steps[..j]);
    assert Entitlements(Run(limit, steps[..j]), earlier);
  }

  lemma DecisionIsTold(s: Desk, l: Ledger, i: nat, key: nat, turn: nat, source: Source)
    requires Books(s, l) && i < |s.replies| && s.replies[i].outcome.Selected? && s.replies[i].manner.Decided?
    requires s.replies[i].key == Some(key) && Ending(key, s.replies[i], source) in QueueOf(s, turn).registered
    ensures Told(QueueOf(s, turn).registered, key) == Decision(key, s.replies[i], source)
  {
    CardDecides(s, l, i);
    var notice := Ending(key, s.replies[i], source);
    ToldIncludes(QueueOf(s, turn).registered, notice);
    assert Told(QueueOf(s, turn).registered, key) == Expected(l, turn, key);
    assert notice in Story(key, l.cards[key]);
  }

  /** And only such a choice is ever told: it was sent, under the question's key, and the wire took it. */
  lemma WhatIsToldWasSent(limit: nat, steps: seq<Step>, turn: nat, key: nat, option: string, source: Source)
    requires Resolved(key, Chosen(option, source)) in QueueOf(Run(limit, steps), turn).registered
    ensures exists reply <- Run(limit, steps).replies ::
      reply.key == Some(key) && reply.outcome == Selected(option) && reply.taken && reply.manner.Decided?
  {
    var s := Run(limit, steps);
    var l := RunKeepsBooks(limit, steps);
    var notice := Resolved(key, Chosen(option, source));
    ToldIncludes(QueueOf(s, turn).registered, notice);
    assert Told(QueueOf(s, turn).registered, key) == Expected(l, turn, key);
    assert CardMatches(s, key, l.cards[key]);
    assert l.cards[key].resolution == Some(Chosen(option, source));
    assert s.replies[l.cards[key].place.reply] in s.replies;
  }

  // Who may choose.

  /** The host was asked, and nothing had decided for it. */
  ghost predicate Asked(steps: seq<Step>, n: nat, key: nat) {
    exists i: nat :: i < n && i < |steps| && steps[i] == Announce(key, None)
  }

  /** The option was decided when its question was announced, or the host, having been asked, named it. */
  ghost predicate Entitling(steps: seq<Step>, j: nat, key: nat, option: string) {
    && j < |steps|
    && (steps[j] == Announce(key, Some(option)) || (steps[j] == HostCheck(key, option) && Asked(steps, j, key)))
  }

  ghost predicate EntitledIn(steps: seq<Step>, key: nat, option: string) {
    exists j: nat :: Entitling(steps, j, key, option)
  }

  ghost predicate KeptAsked(s: Desk, steps: seq<Step>) {
    && (forall key <- s.parked :: s.parked[key].hostAnswerable ==> Asked(steps, |steps|, key))
    && (s.handler.Some? && s.handler.value.stage.Bound? ==> !s.handler.value.stage.pending.hostAnswerable)
    && (forall pair <- s.entitled :: EntitledIn(steps, pair.0, pair.1))
  }

  lemma AskedStays(steps: seq<Step>, step: Step, key: nat)
    requires Asked(steps, |steps|, key)
    ensures Asked(steps + [step], |steps|, key) && Asked(steps + [step], |steps| + 1, key)
  {
    var i: nat :| i < |steps| && steps[i] == Announce(key, None);
    assert (steps + [step])[i] == Announce(key, None);
  }

  lemma EntitledStays(steps: seq<Step>, step: Step, key: nat, option: string)
    requires EntitledIn(steps, key, option)
    ensures EntitledIn(steps + [step], key, option)
  {
    var j: nat :| Entitling(steps, j, key, option);
    var more := steps + [step];
    assert more[j] == steps[j];
    if steps[j].HostCheck? {
      var i: nat :| i < j && steps[i] == Announce(key, None);
      assert more[i] == Announce(key, None);
    }
    assert Entitling(more, j, key, option);
  }

  lemma SameAsked(s: Desk, after: Desk, steps: seq<Step>, step: Step)
    requires KeptAsked(s, steps) && after.entitled == s.entitled
    requires forall key <- after.parked ::
      after.parked[key].hostAnswerable ==> key in s.parked && s.parked[key].hostAnswerable
    requires after.handler.Some? && after.handler.value.stage.Bound? ==>
      !after.handler.value.stage.pending.hostAnswerable
    ensures KeptAsked(after, steps + [step])
  {
    forall key | key in after.parked && after.parked[key].hostAnswerable
      ensures Asked(steps + [step], |steps| + 1, key)
    {
      AskedStays(steps, step, key);
    }
    forall pair | pair in after.entitled
      ensures EntitledIn(steps + [step], pair.0, pair.1)
    {
      EntitledStays(steps, step, pair.0, pair.1);
    }
  }

  lemma AnnounceKeepsAsked(s: Desk, steps: seq<Step>, key: nat, decided: Option<string>)
    requires KeptAsked(s, steps)
    ensures KeptAsked(AnnounceStep(s, key, decided), steps + [Announce(key, decided)])
  {
    var step := Announce(key, decided);
    var more := steps + [step];
    assert more[|steps|] == step;
    SameAsked(s, s, steps, step);
    if decided.Some? {
      assert Entitling(more, |steps|, key, decided.value);
    }
  }

  lemma HostCheckKeepsAsked(limit: nat, s: Desk, steps: seq<Step>, key: nat, option: string)
    requires KeptAsked(s, steps)
    ensures KeptAsked(Next(limit, s, HostCheck(key, option)), steps + [HostCheck(key, option)])
  {
    var step := HostCheck(key, option);
    var more := steps + [step];
    assert more[|steps|] == step;
    SameAsked(s, s, steps, step);
    if key in s.parked && s.parked[key].hostAnswerable {
      AskedStays(steps, step, key);
      assert Entitling(more, |steps|, key, option);
    }
  }

  lemma HandlerNeverAsks(limit: nat, s: Desk, step: Step)
    requires step.RefuseOutright? || step.Mint? || step.Bind? || step.Park?
    requires s.handler.Some? && s.handler.value.stage.Bound? ==> !s.handler.value.stage.pending.hostAnswerable
    ensures var after := Next(limit, s, step);
      && after.entitled == s.entitled
      && (after.handler.Some? && after.handler.value.stage.Bound? ==>
            !after.handler.value.stage.pending.hostAnswerable)
      && (forall key <- after.parked ::
            after.parked[key].hostAnswerable ==> key in s.parked && s.parked[key].hostAnswerable)
  {
  }

  lemma StepKeepsAsked(limit: nat, s: Desk, steps: seq<Step>, step: Step)
    requires KeptAsked(s, steps)
    ensures KeptAsked(Next(limit, s, step), steps + [step])
  {
    if step.Announce? {
      AnnounceKeepsAsked(s, steps, step.key, step.decided);
    } else if step.HostCheck? {
      HostCheckKeepsAsked(limit, s, steps, step.key, step.option);
    } else if step.Respond? {
      RespondTakesOne(s, step.key, step.requested, step.source, step.elapsed, step.taken);
      SameAsked(s, Next(limit, s, step), steps, step);
    } else if step.RefuseOutright? || step.Mint? || step.Bind? || step.Park? {
      HandlerNeverAsks(limit, s, step);
      SameAsked(s, Next(limit, s, step), steps, step);
    } else {
      SameAsked(s, Next(limit, s, step), steps, step);
    }
  }

  lemma {:induction false} RunKeepsAsked(limit: nat, steps: seq<Step>)
    ensures KeptAsked(Run(limit, steps), steps)
  {
    if steps != [] {
      var n := |steps| - 1;
      RunKeepsAsked(limit, steps[..n]);
      StepKeepsAsked(limit, Run(limit, steps[..n]), steps[..n], steps[n]);
      assert steps[..n] + [steps[n]] == steps;
    }
  }

  /**
    Nobody chooses for a host that was not asked: an option is one it was decided on when the question was
    announced, or one the host named after it was announced with nothing decided.
  */
  lemma OnlyTheEntitledChoose(limit: nat, steps: seq<Step>, j: nat, reply: Reply)
    requires DecidedBy(limit, steps, j, reply) && !steps[j].elapsed
    ensures exists i: nat :: i < j && Entitling(steps, i, steps[j].key, reply.outcome.option)
  {
    RunKeepsAsked(limit, steps[..j]);
    var i: nat :| Entitling(steps[..j], i, steps[j].key, reply.outcome.option);
    assert steps[..j][i] == steps[i];
    if steps[i].HostCheck? {
      var k: nat :| k < i && steps[..j][k] == Announce(steps[j].key, None);
      assert steps[k] == Announce(steps[j].key, None);
    }
    assert Entitling(steps, i, steps[j].key, reply.outcome.option);
  }
}
