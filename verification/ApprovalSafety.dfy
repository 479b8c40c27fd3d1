/**
  What every interleaving of the approval steps keeps.

  A ledger is kept beside a run, recording where each wire request is and what its question came to.
  Every step keeps the desk in agreement with it; what that promises is in `ApprovalPromises.dfy`.
*/
module ApprovalSafety {
  import opened Prelude
  import opened Approvals

  // What a queue says of one question.

  function Told(notices: seq<Notice>, key: nat): seq<Notice> {
    if notices == [] then []
    else
      var n := |notices| - 1;
      Told(notices[..n], key) + if notices[n].key == key then [notices[n]] else []
  }

  // The ledger.

  datatype Place = OnTheDesk | InHand | AnsweredAt(reply: nat)

  /** One question that was parked: its request and turn, and all that happened to it. */
  datatype Card = Card(request: nat, turn: nat, announced: bool, resolution: Option<Verdict>, place: Place)

  datatype Whereabouts = AtTheHandler | Carded(key: nat) | TurnedAwayAt(reply: nat)

  datatype Ledger = Ledger(requests: map<nat, Whereabouts>, cards: map<nat, Card>)

  function Story(key: nat, card: Card): seq<Notice> {
    (if card.announced then [Requested(key)] else [])
    + if card.resolution.Some? then [Resolved(key, card.resolution.value)] else []
  }

  /** A resolution follows its announcement, and is owed to all but a question the agent let go. */
  predicate Settled(key: nat, card: Card, reply: Reply) {
    && reply.request == card.request && reply.key == Some(key)
    && (card.announced ==> (card.resolution.Some? <==> !(reply.manner.LetGo? && reply.taken)))
    && (card.resolution.Some? ==> card.announced)
    && (reply.outcome.Selected? ==> card.announced)
    && !reply.manner.AtTheDoor?
    && Tallies(card.resolution, reply)
  }

  /** What the host is told was chosen is what the agent was sent, and was sent only if the wire took it. */
  predicate Tallies(resolution: Option<Verdict>, reply: Reply) {
    match resolution
    case Some(Chosen(option, _)) => reply.outcome == Selected(option) && reply.taken && reply.manner.Decided?
    case Some(Nobody) => reply.outcome.Selected? ==> !reply.taken
    case None => reply.outcome.Cancelled?
  }

  /** Each request received is with the handler, on a card, or was turned away. */
  ghost predicate RequestsKept(s: Desk, l: Ledger) {
    && (forall r: nat :: r in l.requests <==> r < s.received)
    && (s.handler.Some? ==> s.handler.value.request in l.requests)
    && (forall r <- l.requests ::
          l.requests[r].AtTheHandler? <==> s.handler.Some? && s.handler.value.request == r)
    && (forall r <- l.requests :: l.requests[r].Carded? ==>
          l.requests[r].key in l.cards && l.cards[l.requests[r].key].request == r)
    && (forall key <- l.cards :: l.cards[key].request in l.requests && l.requests[l.cards[key].request] == Carded(key))
  }

  function HandlerKey(s: Desk): Option<nat> {
    if s.handler.None? then None
    else
      match s.handler.value.stage
      case Minted(key) => Some(key)
      case Bound(key, _) => Some(key)
      case _ => None
  }

  /** The key the handler minted is one no question ever had. */
  ghost predicate KeysFresh(s: Desk, l: Ledger) {
    && (forall key <- l.cards :: key < s.nextKey)
    && (HandlerKey(s).Some? ==> HandlerKey(s).value < s.nextKey && HandlerKey(s).value !in l.cards)
    && (s.handler.Some? && s.handler.value.stage.Bound? ==>
          var pending := s.handler.value.stage.pending;
          && pending.request == s.handler.value.request
          && !pending.announced && !pending.hostAnswerable
          && (pending.expiryOption.Some? ==> pending.expiryOption.value in pending.options))
  }

  ghost predicate ParkedMatches(s: Desk, key: nat, card: Card) {
    if key in s.parked
    then card.place.OnTheDesk? && card.resolution.None? && OfCard(s.parked[key], card)
      && (s.parked[key].hostAnswerable ==> card.announced)
      && (s.parked[key].expiryOption.Some? ==> s.parked[key].expiryOption.value in s.parked[key].options)
    else !card.place.OnTheDesk?
  }

  ghost predicate HandMatches(s: Desk, key: nat, card: Card) {
    if key in s.hands
    then card.place.InHand? && OfCard(s.hands[key].pending, card)
      && (card.resolution.Some? <==> s.hands[key].task == Withdrawing(true))
      && (card.resolution.Some? ==> card.resolution == Some(Nobody) && card.announced)
    else !card.place.InHand?
  }

  predicate OfCard(pending: Pending, card: Card) {
    pending.request == card.request && pending.turn == card.turn && pending.announced == card.announced
  }

  ghost predicate ReplyMatches(s: Desk, key: nat, card: Card) {
    card.place.AnsweredAt? ==> card.place.reply < |s.replies| && Settled(key, card, s.replies[card.place.reply])
  }

  ghost predicate CardMatches(s: Desk, key: nat, card: Card) {
    ParkedMatches(s, key, card) && HandMatches(s, key, card) && ReplyMatches(s, key, card)
  }

  ghost predicate CardsKept(s: Desk, l: Ledger) {
    && s.parked.Keys <= l.cards.Keys && s.hands.Keys <= l.cards.Keys
    && (forall key <- l.cards :: CardMatches(s, key, l.cards[key]))
  }

  /** Every reply is the one reply of its request. */
  ghost predicate RepliesKept(s: Desk, l: Ledger) {
    && (forall i :: 0 <= i < |s.replies| ==>
          s.replies[i].request in l.requests && AnsweredBy(l, s.replies[i].request, i))
    && (forall r <- l.requests :: l.requests[r].TurnedAwayAt? ==>
          var i := l.requests[r].reply;
          i < |s.replies| && s.replies[i].request == r && s.replies[i].key.None? && s.replies[i].outcome.Cancelled?)
  }

  ghost predicate AnsweredBy(l: Ledger, r: nat, i: nat)
    requires r in l.requests
  {
    match l.requests[r]
    case AtTheHandler => false
    case TurnedAwayAt(reply) => reply == i
    case Carded(key) => key in l.cards && l.cards[key].place == AnsweredAt(i)
  }

  function Expected(l: Ledger, turn: nat, key: nat): seq<Notice> {
    if key in l.cards && l.cards[key].turn == turn then Story(key, l.cards[key]) else []
  }

  /** Each turn's queue was told the story of each of its questions, and of nobody else's. */
  ghost predicate StoriesTold(s: Desk, l: Ledger) {
    forall turn: nat, key: nat :: Told(QueueOf(s, turn).registered, key) == Expected(l, turn, key)
  }

  /** Nobody may choose an option a question did not offer, nor choose before the host was told. */
  ghost predicate Entitlements(s: Desk, l: Ledger) {
    forall pair <- s.entitled ::
      && pair.0 in l.cards
      && (pair.0 in s.parked ==> s.parked[pair.0].announced && pair.1 in s.parked[pair.0].options)
  }

  ghost predicate QueuesDeliver(s: Desk) {
    forall turn <- s.queues :: Delivers(s.queues[turn])
  }

  ghost predicate Books(s: Desk, l: Ledger) {
    && RequestsKept(s, l) && KeysFresh(s, l) && CardsKept(s, l) && RepliesKept(s, l)
    && StoriesTold(s, l) && Entitlements(s, l)
  }

  // One card changes.

  ghost predicate SameElsewhere<V(!new)>(before: map<nat, V>, after: map<nat, V>, key: nat) {
    forall other: nat :: other != key ==>
      (other in after <==> other in before) && (other in after ==> after[other] == before[other])
  }

  /** `after` differs from `before` only in what it does with the question `key`. */
  ghost predicate OnlyOf(before: Desk, after: Desk, key: nat) {
    && after.received == before.received && after.handler == before.handler && after.nextKey == before.nextKey
    && SameElsewhere(before.parked, after.parked, key)
    && SameElsewhere(before.hands, after.hands, key)
  }

  /** The replies are the same, or one more that answers this card. */
  ghost predicate RepliesFollow(before: Desk, after: Desk, was: Card, card: Card) {
    && !was.place.AnsweredAt?
    && if card.place.AnsweredAt?
       then after.replies != [] && before.replies == after.replies[..|after.replies| - 1]
            && card.place.reply == |before.replies|
       else after.replies == before.replies
  }

  /** The notices are the same, but for those that finish this card's story. */
  ghost predicate StoryFollows(before: Desk, after: Desk, key: nat, card: Card) {
    forall turn: nat, other: nat ::
      Told(QueueOf(after, turn).registered, other)
      == if other == key then (if turn == card.turn then Story(key, card) else [])
         else Told(QueueOf(before, turn).registered, other)
  }

  function Filed(l: Ledger, key: nat, card: Card): Ledger {
    l.(cards := l.cards[key := card])
  }

  lemma OtherCardsMatch(before: Desk, after: Desk, l: Ledger, key: nat, card: Card)
    requires CardsKept(before, l) && key in l.cards && OnlyOf(before, after, key)
    requires CardMatches(after, key, card) && RepliesFollow(before, after, l.cards[key], card)
    ensures CardsKept(after, Filed(l, key, card))
  {
  }

  lemma OtherRepliesMatch(before: Desk, after: Desk, l: Ledger, key: nat, card: Card)
    requires RepliesKept(before, l) && RequestsKept(before, l) && key in l.cards
    requires card.request == l.cards[key].request
    requires RepliesFollow(before, after, l.cards[key], card)
    requires card.place.AnsweredAt? ==> Settled(key, card, after.replies[card.place.reply])
    ensures RepliesKept(after, Filed(l, key, card))
  {
    var l' := Filed(l, key, card);
    forall i | 0 <= i < |after.replies|
      ensures after.replies[i].request in l.requests && AnsweredBy(l', after.replies[i].request, i)
    {
      if i < |before.replies| {
        assert after.replies[i] == before.replies[i];
        assert AnsweredBy(l, before.replies[i].request, i);
      }
    }
  }

  lemma RequestsStay(before: Desk, after: Desk, l: Ledger, key: nat, card: Card)
    requires RequestsKept(before, l) && KeysFresh(before, l) && key in l.cards && OnlyOf(before, after, key)
    requires card.request == l.cards[key].request
    ensures RequestsKept(after, Filed(l, key, card)) && KeysFresh(after, Filed(l, key, card))
  {
  }

  lemma StoriesStayTold(before: Desk, after: Desk, l: Ledger, key: nat, card: Card)
    requires StoriesTold(before, l) && StoryFollows(before, after, key, card)
    ensures StoriesTold(after, Filed(l, key, card))
  {
  }

  lemma CardChanges(before: Desk, after: Desk, l: Ledger, key: nat, card: Card)
    requires Books(before, l) && key in l.cards && OnlyOf(before, after, key)
    requires card.request == l.cards[key].request && card.turn == l.cards[key].turn
    requires CardMatches(after, key, card) && RepliesFollow(before, after, l.cards[key], card)
    requires StoryFollows(before, after, key, card)
    requires Entitlements(after, l)
    ensures Books(after, Filed(l, key, card))
  {
    RequestsStay(before, after, l, key, card);
    OtherCardsMatch(before, after, l, key, card);
    OtherRepliesMatch(before, after, l, key, card);
    StoriesStayTold(before, after, l, key, card);
    assert Entitlements(after, Filed(l, key, card));
  }

  // What each step does to the ledger.

  function TellIfAny(s: Desk, turn: nat, notice: Option<Notice>): Desk {
    if notice.Some? then Tell(s, turn, notice.value) else s
  }

  function Listed(notice: Option<Notice>): seq<Notice> {
    if notice.Some? then [notice.value] else []
  }

  lemma TellTells(s: Desk, turn: nat, notice: Option<Notice>)
    ensures forall other: nat, key: nat ::
      Told(QueueOf(TellIfAny(s, turn, notice), other).registered, key)
      == Told(QueueOf(s, other).registered, key)
         + if notice.Some? && other == turn && notice.value.key == key then [notice.value] else []
  {
  }

  /** At most two notices, told to the question's own turn, take its story to the new card's. */
  lemma StoryGrows(
    before: Desk, after: Desk, l: Ledger, key: nat, card: Card, first: Option<Notice>, second: Option<Notice>)
    requires StoriesTold(before, l) && key in l.cards && card.turn == l.cards[key].turn
    requires first.Some? ==> first.value.key == key
    requires second.Some? ==> second.value.key == key
    requires after.queues == TellIfAny(TellIfAny(before, card.turn, first), card.turn, second).queues
    requires Story(key, card) == Story(key, l.cards[key]) + Listed(first) + Listed(second)
    ensures StoryFollows(before, after, key, card)
  {
    var mid := TellIfAny(before, card.turn, first);
    TellTells(before, card.turn, first);
    TellTells(mid, card.turn, second);
    forall turn: nat, other: nat
      ensures Told(QueueOf(after, turn).registered, other)
        == if other == key then (if turn == card.turn then Story(key, card) else [])
           else Told(QueueOf(before, turn).registered, other)
    {
      assert QueueOf(after, turn) == QueueOf(TellIfAny(mid, card.turn, second), turn);
      assert Told(QueueOf(before, turn).registered, other) == Expected(l, turn, other);
    }
  }

  /** One question moved, telling its turn at most two notices that finish its story, and nothing else did. */
  ghost predicate Moves(
    s: Desk, after: Desk, key: nat, was: Card, card: Card, first: Option<Notice>, second: Option<Notice>)
  {
    && OnlyOf(s, after, key) && after.entitled == s.entitled
    && card.request == was.request && card.turn == was.turn
    && CardMatches(after, key, card) && RepliesFollow(s, after, was, card)
    && (key in after.parked ==>
          && key in s.parked
          && after.parked[key].options == s.parked[key].options
          && (s.parked[key].announced ==> after.parked[key].announced))
    && (first.Some? ==> first.value.key == key)
    && (second.Some? ==> second.value.key == key)
    && after.queues == TellIfAny(TellIfAny(s, card.turn, first), card.turn, second).queues
    && Story(key, card) == Story(key, was) + Listed(first) + Listed(second)
  }

  lemma EntitlementsMove(s: Desk, after: Desk, l: Ledger, key: nat)
    requires Entitlements(s, l) && SameElsewhere(s.parked, after.parked, key) && after.entitled == s.entitled
    requires key in after.parked ==>
      && key in s.parked
      && after.parked[key].options == s.parked[key].options
      && (s.parked[key].announced ==> after.parked[key].announced)
    ensures Entitlements(after, l)
  {
  }

  /** A question that moved keeps the books, on its new card. */
  lemma MovedKeepsBooks(
    s: Desk, after: Desk, l: Ledger, key: nat, card: Card, first: Option<Notice>, second: Option<Notice>)
    requires Books(s, l) && key in l.cards && Moves(s, after, key, l.cards[key], card, first, second)
    ensures Books(after, Filed(l, key, card))
  {
    StoryGrows(s, after, l, key, card, first, second);
    EntitlementsMove(s, after, l, key);
    CardChanges(s, after, l, key, card);
  }

  lemma CardOf(s: Desk, l: Ledger, key: nat)
    requires CardsKept(s, l) && (key in s.parked || key in s.hands)
    ensures key in l.cards && CardMatches(s, key, l.cards[key])
  {
  }

  /** An option a question offers, chosen once the host was told of it. */
  lemma EntitleKeepsBooks(s: Desk, l: Ledger, key: nat, option: string)
    requires Books(s, l) && key in s.parked && s.parked[key].announced && option in s.parked[key].options
    ensures Books(s.(entitled := s.entitled + {(key, option)}), l)
  {
    SameButEntitled(s, s.(entitled := s.entitled + {(key, option)}), l);
  }

  lemma SameButEntitled(s: Desk, after: Desk, l: Ledger)
    requires RequestsKept(s, l) && KeysFresh(s, l) && CardsKept(s, l) && RepliesKept(s, l) && StoriesTold(s, l)
    requires after == s.(entitled := after.entitled)
    ensures RequestsKept(after, l) && KeysFresh(after, l) && CardsKept(after, l) && RepliesKept(after, l)
    ensures StoriesTold(after, l)
  {
    forall other | other in l.cards
      ensures CardMatches(after, other, l.cards[other])
    {
      assert CardMatches(s, other, l.cards[other]);
    }
    forall turn: nat, key: nat
      ensures Told(QueueOf(after, turn).registered, key) == Expected(l, turn, key)
    {
      assert QueueOf(after, turn) == QueueOf(s, turn);
    }
  }

  function Unannounced(key: nat, pending: Pending): Option<Notice> {
    if pending.announced then None else Some(Requested(key))
  }

  lemma AnnounceMoves(s: Desk, after: Desk, key: nat, was: Card, decided: Option<string>)
    requires key in s.parked && CardMatches(s, key, was) && s.reason.None?
    requires decided.Some? ==> decided.value in s.parked[key].options
    requires after == AnnounceStep(s, key, decided).(entitled := s.entitled)
    ensures Moves(s, after, key, was, was.(announced := true), Unannounced(key, s.parked[key]), None)
  {
  }

  lemma AnnounceKeepsBooks(s: Desk, l: Ledger, key: nat, decided: Option<string>) returns (l': Ledger)
    requires Books(s, l)
    ensures Books(AnnounceStep(s, key, decided), l')
  {
    if s.reason.Some? || key !in s.parked || (decided.Some? && decided.value !in s.parked[key].options) {
      return l;
    }
    CardOf(s, l, key);
    var after := AnnounceStep(s, key, decided).(entitled := s.entitled);
    var card := l.cards[key].(announced := true);
    AnnounceMoves(s, after, key, l.cards[key], decided);
    MovedKeepsBooks(s, after, l, key, card, Unannounced(key, s.parked[key]), None);
    l' := Filed(l, key, card);
    if decided.Some? {
      EntitleKeepsBooks(after, l', key, decided.value);
    } else {
      assert s.entitled + {} == s.entitled;
    }
  }

  /** A question taken out of the map, or out of a task's hands, to be answered in the same step. */
  ghost predicate TakenFrom(s: Desk, rest: Desk, key: nat, pending: Pending) {
    || (key in s.parked && pending == s.parked[key] && rest == s.(parked := s.parked - {key}))
    || (key in s.hands && s.hands[key].task.LettingGo? && pending == s.hands[key].pending
        && rest == s.(hands := s.hands - {key}))
  }

  lemma UnresolvedMoves(s: Desk, rest: Desk, key: nat, pending: Pending, taken: bool, was: Card)
    requires TakenFrom(s, rest, key, pending) && CardMatches(s, key, was)
    ensures var told := !taken && pending.announced;
      Moves(s, RespondUnresolved(rest, key, pending, taken), key, was,
        was.(resolution := if told then Some(Nobody) else None, place := AnsweredAt(|s.replies|)),
        if told then Some(Resolved(key, Nobody)) else None, None)
  {
    assert s.replies == RespondUnresolved(rest, key, pending, taken).replies[..|s.replies|];
  }

  lemma UnresolvedKeepsBooks(s: Desk, rest: Desk, l: Ledger, key: nat, pending: Pending, taken: bool)
    returns (l': Ledger)
    requires Books(s, l) && TakenFrom(s, rest, key, pending)
    ensures Books(RespondUnresolved(rest, key, pending, taken), l')
  {
    CardOf(s, l, key);
    UnresolvedMoves(s, rest, key, pending, taken, l.cards[key]);
    var told := !taken && pending.announced;
    var card := l.cards[key].(resolution := if told then Some(Nobody) else None, place := AnsweredAt(|s.replies|));
    MovedKeepsBooks(
      s, RespondUnresolved(rest, key, pending, taken), l, key, card,
      if told then Some(Resolved(key, Nobody)) else None, None);
    return Filed(l, key, card);
  }

  /** A question answered with an option, announced first if it was not. */
  function Resolving(s: Desk, key: nat, option: string, source: Source, taken: bool): Desk
    requires key in s.parked
  {
    RespondWithResolution(
      TellRequested(s.(parked := s.parked - {key}), key, s.parked[key]),
      key, s.parked[key].(announced := true), option, source, taken)
  }

  function ResolvedCard(s: Desk, was: Card, option: string, source: Source, taken: bool): Card {
    was.(announced := true, resolution := Some(if taken then Chosen(option, source) else Nobody),
         place := AnsweredAt(|s.replies|))
  }

  lemma ResolutionMoves(s: Desk, key: nat, option: string, source: Source, taken: bool, was: Card)
    requires key in s.parked && CardMatches(s, key, was)
    ensures var card := ResolvedCard(s, was, option, source, taken);
      Moves(s, Resolving(s, key, option, source, taken), key, was, card,
        Unannounced(key, s.parked[key]), Some(Resolved(key, card.resolution.value)))
  {
    assert s.replies == Resolving(s, key, option, source, taken).replies[..|s.replies|];
  }

  lemma ResolutionKeepsBooks(s: Desk, l: Ledger, key: nat, option: string, source: Source, taken: bool)
    returns (l': Ledger)
    requires Books(s, l) && key in s.parked
    ensures Books(Resolving(s, key, option, source, taken), l')
  {
    CardOf(s, l, key);
    ResolutionMoves(s, key, option, source, taken, l.cards[key]);
    var card := ResolvedCard(s, l.cards[key], option, source, taken);
    MovedKeepsBooks(
      s, Resolving(s, key, option, source, taken), l, key, card,
      Unannounced(key, s.parked[key]), Some(Resolved(key, card.resolution.value)));
    return Filed(l, key, card);
  }

  lemma TimeoutMoves(s: Desk, after: Desk, key: nat, taken: bool, was: Card)
    requires key in s.parked && CardMatches(s, key, was) && s.parked[key].expiryOption.None?
    requires after == ExpireStep(s.(parked := s.parked - {key}), key, s.parked[key], taken)
    ensures Moves(
      s, after, key, was, was.(announced := true, place := InHand), Unannounced(key, s.parked[key]), None)
  {
  }

  /** A question that runs out of time with nothing to refuse it with is taken out to be withdrawn. */
  lemma TimeoutKeepsBooks(s: Desk, l: Ledger, key: nat, taken: bool) returns (l': Ledger)
    requires Books(s, l) && key in s.parked && s.parked[key].expiryOption.None?
    ensures Books(ExpireStep(s.(parked := s.parked - {key}), key, s.parked[key], taken), l')
  {
    var after := ExpireStep(s.(parked := s.parked - {key}), key, s.parked[key], taken);
    CardOf(s, l, key);
    TimeoutMoves(s, after, key, taken, l.cards[key]);
    var card := l.cards[key].(announced := true, place := InHand);
    MovedKeepsBooks(s, after, l, key, card, Unannounced(key, s.parked[key]), None);
    return Filed(l, key, card);
  }

  /** What a response does, in terms of the four ways it can end. */
  lemma RespondKeepsBooks(
    s: Desk, l: Ledger, key: nat, requested: Outcome, source: Source, elapsed: bool, taken: bool)
    returns (l': Ledger)
    requires Books(s, l)
    ensures Books(RespondStep(s, key, requested, source, elapsed, taken), l')
  {
    if key !in s.parked || (requested.Selected? && (key, requested.option) !in s.entitled) {
      return l;
    }
    var pending := s.parked[key];
    var rest := s.(parked := s.parked - {key});
    if s.reason.None? && elapsed && pending.expiryOption.None? {
      l' := TimeoutKeepsBooks(s, l, key, taken);
    } else if s.reason.None? && elapsed {
      l' := ResolutionKeepsBooks(s, l, key, pending.expiryOption.value, FromExpiry, taken);
    } else if s.reason.None? && requested.Selected? {
      assert pending.announced;
      assert pending.(announced := true) == pending;
      l' := ResolutionKeepsBooks(s, l, key, requested.option, source, taken);
    } else {
      l' := UnresolvedKeepsBooks(s, rest, l, key, pending, taken);
    }
  }

  lemma WithdrawnMoves(s: Desk, after: Desk, key: nat, taken: bool, was: Card)
    requires key in s.hands && CardMatches(s, key, was) && s.hands[key].task.Withdrawing?
    requires s.hands[key].task.told || !s.hands[key].pending.announced
    requires after == HandStep(s, key, ReplyWithdrawn(key, taken))
    ensures Moves(s, after, key, was, was.(place := AnsweredAt(|s.replies|)), None, None)
  {
  }

  lemma TellingMoves(s: Desk, after: Desk, key: nat, was: Card)
    requires key in s.hands && CardMatches(s, key, was)
    requires s.hands[key].task == Withdrawing(false) && s.hands[key].pending.announced
    requires after == HandStep(s, key, TellWithdrawn(key))
    ensures Moves(s, after, key, was, was.(resolution := Some(Nobody)), Some(Resolved(key, Nobody)), None)
  {
  }

  lemma TellKeepsBooks(s: Desk, l: Ledger, key: nat) returns (l': Ledger)
    requires Books(s, l) && key in s.hands
    ensures Books(HandStep(s, key, TellWithdrawn(key)), l')
  {
    if s.hands[key].task != Withdrawing(false) || !s.hands[key].pending.announced {
      return l;
    }
    CardOf(s, l, key);
    var after := HandStep(s, key, TellWithdrawn(key));
    TellingMoves(s, after, key, l.cards[key]);
    MovedKeepsBooks(
      s, after, l, key, l.cards[key].(resolution := Some(Nobody)), Some(Resolved(key, Nobody)), None);
    return Filed(l, key, l.cards[key].(resolution := Some(Nobody)));
  }

  lemma ReplyKeepsBooks(s: Desk, l: Ledger, key: nat, taken: bool) returns (l': Ledger)
    requires Books(s, l) && key in s.hands
    ensures Books(HandStep(s, key, ReplyWithdrawn(key, taken)), l')
  {
    var task := s.hands[key].task;
    if task.LettingGo? || (!task.told && s.hands[key].pending.announced) {
      return l;
    }
    CardOf(s, l, key);
    var after := HandStep(s, key, ReplyWithdrawn(key, taken));
    WithdrawnMoves(s, after, key, taken, l.cards[key]);
    MovedKeepsBooks(s, after, l, key, l.cards[key].(place := AnsweredAt(|s.replies|)), None, None);
    return Filed(l, key, l.cards[key].(place := AnsweredAt(|s.replies|)));
  }

  lemma LetGoMoves(s: Desk, after: Desk, key: nat, was: Card)
    requires key in s.parked && CardMatches(s, key, was)
    requires after == s.(parked := s.parked - {key}, hands := s.hands[key := Hand(s.parked[key], LettingGo)])
    ensures Moves(s, after, key, was, was.(place := InHand), None, None)
  {
  }

  lemma LetGoKeepsBooks(s: Desk, l: Ledger, key: nat) returns (l': Ledger)
    requires Books(s, l) && key in s.parked
    ensures Books(s.(parked := s.parked - {key}, hands := s.hands[key := Hand(s.parked[key], LettingGo)]), l')
  {
    var after := s.(parked := s.parked - {key}, hands := s.hands[key := Hand(s.parked[key], LettingGo)]);
    CardOf(s, l, key);
    LetGoMoves(s, after, key, l.cards[key]);
    MovedKeepsBooks(s, after, l, key, l.cards[key].(place := InHand), None, None);
    return Filed(l, key, l.cards[key].(place := InHand));
  }

  // Steps that move no question, a new one, or all of them.

  /** Books read neither the reason nor the queues past what was registered. */
  lemma OtherFieldsKeepBooks(s: Desk, after: Desk, l: Ledger)
    requires Books(s, l)
    requires after == s.(reason := after.reason, handed := after.handed, queues := after.queues)
    requires forall turn: nat :: QueueOf(after, turn).registered == QueueOf(s, turn).registered
    ensures Books(after, l)
  {
    CardsRead(s, after, l);
    forall turn: nat, key: nat
      ensures Told(QueueOf(after, turn).registered, key) == Expected(l, turn, key)
    {
    }
  }

  lemma CardsRead(s: Desk, after: Desk, l: Ledger)
    requires CardsKept(s, l)
    requires after.parked == s.parked && after.hands == s.hands
    requires after.replies == s.replies || (after.replies != [] && after.replies[..|after.replies| - 1] == s.replies)
    ensures CardsKept(after, l)
  {
  }

  lemma FlushKeepsBooks(s: Desk, l: Ledger, turn: nat, flush: FlushStep)
    requires Books(s, l)
    ensures Books(s.(queues := s.queues[turn := FlushNext(QueueOf(s, turn), flush)]), l)
  {
    OtherFieldsKeepBooks(s, s.(queues := s.queues[turn := FlushNext(QueueOf(s, turn), flush)]), l);
  }

  lemma SameQueuesTold(s: Desk, after: Desk, l: Ledger, l': Ledger)
    requires StoriesTold(s, l) && after.queues == s.queues
    requires forall turn: nat, key: nat :: Expected(l', turn, key) == Expected(l, turn, key)
    ensures StoriesTold(after, l')
  {
  }

  lemma ReceiveKeepsBooks(s: Desk, l: Ledger) returns (l': Ledger)
    requires Books(s, l) && s.handler.None?
    ensures Books(s.(handler := Some(Ask(s.received, Fresh)), received := s.received + 1), l')
  {
    var after := s.(handler := Some(Ask(s.received, Fresh)), received := s.received + 1);
    l' := l.(requests := l.requests[s.received := AtTheHandler]);
    CardsRead(s, after, l);
    assert CardsKept(after, l');
    SameQueuesTold(s, after, l, l');
  }

  lemma TurnedAwayRepliesKept(s: Desk, after: Desk, l: Ledger, l': Ledger, r: nat)
    requires RepliesKept(s, l) && r in l.requests && l.requests[r].AtTheHandler?
    requires l' == l.(requests := l.requests[r := TurnedAwayAt(|s.replies|)])
    requires |after.replies| == |s.replies| + 1 && after.replies[..|s.replies|] == s.replies
    requires after.replies[|s.replies|].request == r && after.replies[|s.replies|].key.None?
    requires after.replies[|s.replies|].outcome.Cancelled?
    ensures RepliesKept(after, l')
  {
  }

  lemma RefuseKeepsBooks(s: Desk, l: Ledger, taken: bool) returns (l': Ledger)
    requires Books(s, l) && s.handler.Some?
    ensures Books(Send(s.(handler := None), s.handler.value.request, None, Cancelled, taken, AtTheDoor), l')
  {
    var r := s.handler.value.request;
    var after := Send(s.(handler := None), r, None, Cancelled, taken, AtTheDoor);
    l' := l.(requests := l.requests[r := TurnedAwayAt(|s.replies|)]);
    assert after.replies[..|after.replies| - 1] == s.replies;
    CardsRead(s, after, l);
    assert CardsKept(after, l');
    TurnedAwayRepliesKept(s, after, l, l', r);
    SameQueuesTold(s, after, l, l');
  }

  /** The handler goes on with the same request, holding a fresh key or none. */
  lemma HandlerKeepsBooks(s: Desk, after: Desk, l: Ledger)
    requires Books(s, l) && s.handler.Some? && after.handler.Some?
    requires after == s.(handler := after.handler, nextKey := after.nextKey) && s.nextKey <= after.nextKey
    requires after.handler.value.request == s.handler.value.request
    requires KeysFresh(after, l)
    ensures Books(after, l)
  {
    CardsRead(s, after, l);
    SameQueuesTold(s, after, l, l);
  }

  lemma ParkKeepsCards(s: Desk, l: Ledger, key: nat, pending: Pending)
    requires CardsKept(s, l) && key !in l.cards && !pending.hostAnswerable
    requires pending.expiryOption.Some? ==> pending.expiryOption.value in pending.options
    ensures CardsKept(
      s.(handler := None, parked := s.parked[key := pending]),
      Filed(l, key, Card(pending.request, pending.turn, pending.announced, None, OnTheDesk)))
  {
  }

  lemma ParkKeepsReplies(s: Desk, after: Desk, l: Ledger, l': Ledger, key: nat, r: nat)
    requires RepliesKept(s, l) && after.replies == s.replies
    requires r in l.requests && l.requests[r].AtTheHandler? && key !in l.cards
    requires l'.requests == l.requests[r := Carded(key)]
    requires key in l'.cards && l'.cards - {key} == l.cards
    ensures RepliesKept(after, l')
  {
  }

  lemma ParkKeepsRequests(s: Desk, l: Ledger, l': Ledger, key: nat, pending: Pending)
    requires RequestsKept(s, l) && KeysFresh(s, l)
    requires s.handler.Some? && s.handler.value.stage == Bound(key, pending)
    requires l' == Ledger(
      l.requests[pending.request := Carded(key)],
      l.cards[key := Card(pending.request, pending.turn, false, None, OnTheDesk)])
    ensures RequestsKept(s.(handler := None, parked := s.parked[key := pending]), l')
    ensures KeysFresh(s.(handler := None, parked := s.parked[key := pending]), l')
  {
  }

  lemma ParkKeepsStories(s: Desk, after: Desk, l: Ledger, l': Ledger, key: nat, card: Card)
    requires StoriesTold(s, l) && after.queues == s.queues
    requires key !in l.cards && l'.cards == l.cards[key := card] && Story(key, card) == []
    ensures StoriesTold(after, l')
  {
    forall turn: nat, other: nat
      ensures Expected(l', turn, other) == Expected(l, turn, other)
    {
    }
    SameQueuesTold(s, after, l, l');
  }

  lemma ParkKeepsBooks(s: Desk, l: Ledger) returns (l': Ledger)
    requires Books(s, l) && s.handler.Some? && s.handler.value.stage.Bound?
    ensures var stage := s.handler.value.stage;
      Books(s.(handler := None, parked := s.parked[stage.key := stage.pending]), l')
  {
    var key, pending := s.handler.value.stage.key, s.handler.value.stage.pending;
    var r := pending.request;
    var after := s.(handler := None, parked := s.parked[key := pending]);
    var card := Card(r, pending.turn, false, None, OnTheDesk);
    l' := Ledger(l.requests[r := Carded(key)], l.cards[key := card]);
    assert CardsKept(after, l') by {
      ParkKeepsCards(s, l, key, pending);
      assert CardsKept(after, Filed(l, key, card));
    }
    assert l'.cards - {key} == l.cards;
    ParkKeepsRequests(s, l, l', key, pending);
    ParkKeepsReplies(s, after, l, l', key, r);
    ParkKeepsStories(s, after, l, l', key, card);
    EntitlementsUnlessParked(s, after, l, l', key);
  }

  lemma EntitlementsUnlessParked(s: Desk, after: Desk, l: Ledger, l': Ledger, key: nat)
    requires Entitlements(s, l) && key !in l.cards && l.cards.Keys <= l'.cards.Keys
    requires SameElsewhere(s.parked, after.parked, key) && after.entitled == s.entitled
    ensures Entitlements(after, l')
  {
  }

  /** Draining moves every card on the desk into somebody's hands. */
  function Drained(l: Ledger): Ledger {
    l.(cards := map key | key in l.cards ::
        if l.cards[key].place.OnTheDesk? then l.cards[key].(place := InHand) else l.cards[key])
  }

  lemma DrainKeepsCards(s: Desk, l: Ledger)
    requires CardsKept(s, l)
    ensures CardsKept(TakePending(s), Drained(l))
  {
    forall key | key in l.cards
      ensures CardMatches(TakePending(s), key, Drained(l).cards[key])
    {
      assert CardMatches(s, key, l.cards[key]);
    }
  }

  lemma DrainKeepsReplies(s: Desk, l: Ledger)
    requires RepliesKept(s, l)
    ensures RepliesKept(TakePending(s), Drained(l))
  {
  }

  lemma DrainKeepsRequests(s: Desk, l: Ledger)
    requires RequestsKept(s, l) && KeysFresh(s, l)
    ensures RequestsKept(TakePending(s), Drained(l)) && KeysFresh(TakePending(s), Drained(l))
  {
  }

  lemma DrainKeepsStories(s: Desk, l: Ledger)
    requires StoriesTold(s, l)
    ensures StoriesTold(TakePending(s), Drained(l))
  {
    forall turn: nat, key: nat
      ensures Expected(Drained(l), turn, key) == Expected(l, turn, key)
    {
    }
    SameQueuesTold(s, TakePending(s), l, Drained(l));
  }

  lemma DrainKeepsBooks(s: Desk, l: Ledger)
    requires Books(s, l)
    ensures Books(TakePending(s), Drained(l))
  {
    DrainKeepsRequests(s, l);
    DrainKeepsCards(s, l);
    DrainKeepsReplies(s, l);
    DrainKeepsStories(s, l);
    assert Entitlements(TakePending(s), Drained(l));
  }

  // Every step, and every run.

  lemma HandlerStaysFresh(limit: nat, s: Desk, l: Ledger, step: Step)
    requires KeysFresh(s, l) && s.handler.Some? && !step.RefuseOutright?
    requires HandlerStep(limit, s, s.handler.value, step).handler.Some?
    ensures var after := HandlerStep(limit, s, s.handler.value, step);
      && KeysFresh(after, l)
      && after == s.(handler := after.handler, nextKey := after.nextKey) && s.nextKey <= after.nextKey
      && after.handler.value.request == s.handler.value.request
  {
  }

  lemma HandlerStepKeepsBooks(limit: nat, s: Desk, l: Ledger, step: Step) returns (l': Ledger)
    requires Books(s, l) && s.handler.Some?
    ensures Books(HandlerStep(limit, s, s.handler.value, step), l')
  {
    var after := HandlerStep(limit, s, s.handler.value, step);
    if step.RefuseOutright? {
      l' := RefuseKeepsBooks(s, l, step.taken);
    } else if after.handler.None? {
      l' := ParkKeepsBooks(s, l);
    } else {
      HandlerStaysFresh(limit, s, l, step);
      HandlerKeepsBooks(s, after, l);
      l' := l;
    }
  }

  lemma WithdrawalKeepsBooks(limit: nat, s: Desk, l: Ledger, step: Step) returns (l': Ledger)
    requires Books(s, l)
    requires step.Drain? || step.WithdrawById? || step.TellWithdrawn? || step.ReplyWithdrawn? || step.ReplyLetGo?
    ensures Books(Next(limit, s, step), l')
  {
    l' := l;
    match step {
      case Drain => DrainKeepsBooks(s, l); l' := Drained(l);
      case WithdrawById(key) => if key in s.parked { l' := LetGoKeepsBooks(s, l, key); }
      case TellWithdrawn(key) => if key in s.hands { l' := TellKeepsBooks(s, l, key); }
      case ReplyWithdrawn(key, taken) => if key in s.hands { l' := ReplyKeepsBooks(s, l, key, taken); }
      case ReplyLetGo(key, taken) =>
        if key in s.hands && s.hands[key].task.LettingGo? {
          l' := UnresolvedKeepsBooks(s, s.(hands := s.hands - {key}), l, key, s.hands[key].pending, taken);
        }
    }
  }

  lemma CancellationKeepsBooks(s: Desk, l: Ledger, reason: Option<Reason>)
    requires Books(s, l)
    ensures Books(TakePending(s.(reason := reason)), Drained(l))
  {
    OtherFieldsKeepBooks(s, s.(reason := reason), l);
    DrainKeepsBooks(s.(reason := reason), l);
  }

  lemma StepKeepsBooks(limit: nat, s: Desk, l: Ledger, step: Step) returns (l': Ledger)
    requires Books(s, l)
    ensures Books(Next(limit, s, step), l')
  {
    if step.Receive? {
      l' := l;
      if s.handler.None? { l' := ReceiveKeepsBooks(s, l); }
    } else if step.RefuseOutright? || step.Mint? || step.Bind? || step.Park? {
      l' := l;
      if s.handler.Some? { l' := HandlerStepKeepsBooks(limit, s, l, step); }
    } else if step.Announce? {
      l' := AnnounceKeepsBooks(s, l, step.key, step.decided);
    } else if step.HostCheck? {
      l' := HostCheckKeepsBooks(limit, s, l, step.key, step.option);
    } else if step.Respond? {
      l' := RespondKeepsBooks(s, l, step.key, step.requested, step.source, step.elapsed, step.taken);
    } else if step.Flush? {
      FlushKeepsBooks(s, l, step.turn, step.flush);
      l' := l;
    } else if step.BeginCancellation? {
      CancellationKeepsBooks(s, l, Some(s.reason.GetOr(step.reason)));
      l' := Drained(l);
    } else if step.TakeReason? || step.ResetReason? {
      OtherFieldsKeepBooks(s, Next(limit, s, step), l);
      l' := l;
    } else {
      l' := WithdrawalKeepsBooks(limit, s, l, step);
    }
  }

  lemma HostCheckKeepsBooks(limit: nat, s: Desk, l: Ledger, key: nat, option: string) returns (l': Ledger)
    requires Books(s, l)
    ensures Books(Next(limit, s, HostCheck(key, option)), l')
  {
    l' := l;
    if key in s.parked && s.parked[key].hostAnswerable && option in s.parked[key].options {
      CardOf(s, l, key);
      EntitleKeepsBooks(s, l, key, option);
    }
  }

  lemma {:induction false} RunKeepsBooks(limit: nat, steps: seq<Step>) returns (l: Ledger)
    ensures Books(Run(limit, steps), l)
  {
    if steps == [] {
      l := Ledger(map[], map[]);
    } else {
      var n := |steps| - 1;
      var before := RunKeepsBooks(limit, steps[..n]);
      l := StepKeepsBooks(limit, Run(limit, steps[..n]), before, steps[n]);
    }
  }
}
