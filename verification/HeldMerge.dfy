/**
  The merge of a running call's held updates, with any field too large to publish bounded at once,
  and the proof that bounding early never changes what a host is finally sent.
*/
module HeldMerge {
  import opened Prelude
  import opened Events

  /** A merge, and for each field whether bounding it cut something. */
  datatype Held = Held(update: Update, titleCut: bool, detailCut: bool, contentCut: bool) {
    predicate IsEmpty() {
      update.IsEmpty()
    }

    /** The update to deliver, reporting a cut for any field still in it that was cut. */
    function IntoUpdate(): Update {
      update.(truncated := titleCut || detailCut || contentCut)
    }
  }

  /** The UTF-8 bytes of several texts together. */
  function ByteTotal(texts: seq<string>): nat {
    if texts == [] then 0 else Utf8Length(texts[0]) + ByteTotal(texts[1..])
  }

  /** Whether the core would shorten `content`, or drop rows of it. Sized in bytes. */
  predicate ExceedsBound(content: Content) {
    match content
    case Output(text) => Utf8Length(text) > DETAIL_LIMIT
    case Diff(files) =>
      || |files| > DIFF_MAX_FILES
      || (exists file <- files :: !PathFits(file))
      || (exists body <- AllBodies(files) :: Utf8Length(body) > DETAIL_LIMIT)
      || ByteTotal(AllBodies(files)) > DIFF_MAX_CONTENT_LENGTH
    case _ => false
  }

  /** An update as it arrived, to be bounded by the core when it is delivered. */
  function Unbounded(update: Update): Held {
    Held(update.(truncated := false), false, false, false)
  }

  /** An update to hold: each field over the published size bounded now, the rest left as it is. */
  function BoundedHeld(core: Core, update: Update): Held {
    var title :=
      if update.title.Some? && Utf8Length(update.title.value) > TITLE_LIMIT
      then var b := core.title(update.title.value); Bounded(Some(b.value), b.cut)
      else Bounded(update.title, false);
    var detail :=
      if update.detail.Some? && Utf8Length(update.detail.value) > DETAIL_LIMIT
      then var b := core.detail(update.detail.value); Bounded(Some(b.value), b.cut)
      else Bounded(update.detail, false);
    var content :=
      if update.content.Some? && ExceedsBound(update.content.value)
      then var b := core.content(update.content.value); Bounded(Some(b.value), b.cut)
      else Bounded(update.content, false);
    Held(Update(title.value, detail.value, content.value, false), title.cut, detail.cut, content.cut)
  }

  /** `earlier` and `later` as one, the later one's fields winning, each with its own cut. */
  function MergedWith(earlier: Held, later: Held): Held {
    Held(
      Update(
        Latest(earlier.update.title, later.update.title),
        Latest(earlier.update.detail, later.update.detail),
        Latest(earlier.update.content, later.update.content),
        earlier.update.truncated),
      if later.update.title.Some? then later.titleCut else earlier.titleCut,
      if later.update.detail.Some? then later.detailCut else earlier.detailCut,
      if later.update.content.Some? then later.contentCut else earlier.contentCut)
  }

  /** What of `held` a call's completion does not already replace: a result has no title. */
  function SupersededBy(held: Held, result: Result): Held {
    var update := held.update;
    Held(
      Update(
        update.title,
        if result.detail.Some? then None else update.detail,
        if result.content.Some? then None else update.content,
        update.truncated),
      held.titleCut,
      held.detailCut && result.detail.None?,
      held.contentCut && result.content.None?)
  }

  /** The unbounded latest-wins merge, which is what bounding early must not be told apart from. */
  function RawMerge(earlier: Update, later: Update): Update {
    Update(
      Latest(earlier.title, later.title),
      Latest(earlier.detail, later.detail),
      Latest(earlier.content, later.content),
      false)
  }

  /** One field of a held merge stands for the raw field: same published value, same reported cut. */
  ghost predicate StandsFor<T(!new)>(bound: T -> Bounded<T>, kept: Option<T>, cut: bool, raw: Option<T>) {
    && (kept.Some? <==> raw.Some?)
    && (raw.None? ==> !cut)
    && (raw.Some? ==>
          && bound(kept.value).value == bound(raw.value).value
          && (cut || bound(kept.value).cut) == bound(raw.value).cut)
  }

  ghost predicate Represents(core: Core, held: Held, raw: Update) {
    && StandsFor(core.title, held.update.title, held.titleCut, raw.title)
    && StandsFor(core.detail, held.update.detail, held.detailCut, raw.detail)
    && StandsFor(core.content, held.update.content, held.contentCut, raw.content)
    && !held.update.truncated && !raw.truncated
  }

  lemma UnboundedRepresents(core: Core, update: Update)
    ensures Represents(core, Unbounded(update), update.(truncated := false))
  {
  }

  lemma BoundedRepresents(core: Core, update: Update)
    requires core.Lawful()
    ensures Represents(core, BoundedHeld(core, update), update.(truncated := false))
  {
  }

  lemma MergeRepresents(core: Core, earlier: Held, later: Held, rawEarlier: Update, rawLater: Update)
    requires Represents(core, earlier, rawEarlier) && Represents(core, later, rawLater)
    ensures Represents(core, MergedWith(earlier, later), RawMerge(rawEarlier, rawLater))
  {
  }

  /** A held merge that represents a raw update is published exactly as the raw update is. */
  lemma RepresentedPublishesTheSame(core: Core, held: Held, raw: Update)
    requires Represents(core, held, raw)
    ensures Published(core, held.IntoUpdate()) == Published(core, raw)
  {
  }

  /** Updates to merge, each with whether it arrived inside the interval and was bounded to be held. */
  datatype Arrival = Arrival(update: Update, recent: bool)

  function Kept(core: Core, arrival: Arrival): Held {
    if arrival.recent then BoundedHeld(core, arrival.update) else Unbounded(arrival.update)
  }

  function MergeAll(core: Core, arrivals: seq<Arrival>): Held
    requires arrivals != []
  {
    var last := Kept(core, arrivals[|arrivals| - 1]);
    if |arrivals| == 1 then last else MergedWith(MergeAll(core, arrivals[..|arrivals| - 1]), last)
  }

  function RawMergeAll(arrivals: seq<Arrival>): Update
    requires arrivals != []
  {
    var last := arrivals[|arrivals| - 1].update.(truncated := false);
    if |arrivals| == 1 then last else RawMerge(RawMergeAll(arrivals[..|arrivals| - 1]), last)
  }

  lemma {:induction false} MergeAllRepresents(core: Core, arrivals: seq<Arrival>)
    requires core.Lawful() && arrivals != []
    ensures Represents(core, MergeAll(core, arrivals), RawMergeAll(arrivals))
  {
    var n := |arrivals| - 1;
    UnboundedRepresents(core, arrivals[n].update);
    BoundedRepresents(core, arrivals[n].update);
    if n > 0 {
      MergeAllRepresents(core, arrivals[..n]);
      MergeRepresents(
        core, MergeAll(core, arrivals[..n]), Kept(core, arrivals[n]),
        RawMergeAll(arrivals[..n]), arrivals[n].update.(truncated := false));
    }
  }

  /**
    Bounding early is invisible: whatever updates are merged, in whatever mixture of held and
    delivered at once, the merge is published with the fields and the `truncated` flag that
    publishing the raw latest-wins merge once would give.
  */
  lemma EarlyBoundingIsInvisible(core: Core, arrivals: seq<Arrival>)
    requires core.Lawful() && arrivals != []
    ensures Published(core, MergeAll(core, arrivals).IntoUpdate()) == Published(core, RawMergeAll(arrivals))
  {
    MergeAllRepresents(core, arrivals);
    RepresentedPublishesTheSame(core, MergeAll(core, arrivals), RawMergeAll(arrivals));
  }

  /** Every field of a held merge is within what the core publishes. */
  predicate WithinLimits(held: Held) {
    && (held.update.title.Some? ==> |held.update.title.value| <= TITLE_LIMIT)
    && (held.update.detail.Some? ==> |held.update.detail.value| <= DETAIL_LIMIT)
    && (held.update.content.Some? ==> Fits(held.update.content.value))
  }

  lemma CodePointsAtMostBytes(texts: seq<string>)
    ensures CodePoints(texts) <= ByteTotal(texts)
  {
  }

  /** A content whose bytes fit is certain to fit: bytes are never fewer than code points. */
  lemma BytesFitMeansFits(content: Content)
    requires !ExceedsBound(content)
    ensures Fits(content)
  {
    if content.Diff? {
      CodePointsAtMostBytes(AllBodies(content.files));
    }
  }

  lemma BoundedIsWithinLimits(core: Core, update: Update)
    requires core.Lawful()
    ensures WithinLimits(BoundedHeld(core, update))
  {
    if update.content.Some? && !ExceedsBound(update.content.value) {
      BytesFitMeansFits(update.content.value);
    }
  }

  lemma {:induction false} HeldStaysWithinLimits(core: Core, arrivals: seq<Arrival>)
    requires core.Lawful() && arrivals != []
    requires forall arrival <- arrivals :: arrival.recent
    ensures WithinLimits(MergeAll(core, arrivals))
  {
    var n := |arrivals| - 1;
    BoundedIsWithinLimits(core, arrivals[n].update);
    if n > 0 {
      HeldStaysWithinLimits(core, arrivals[..n]);
    }
  }

  /** A core that cuts every text at its limit: the laws asked of a core can be met. */
  function CuttingCore(): Core {
    Core(
      s => if |s| <= TITLE_LIMIT then Bounded(s, false) else Bounded(s[..TITLE_LIMIT], true),
      s => if |s| <= DETAIL_LIMIT then Bounded(s, false) else Bounded(s[..DETAIL_LIMIT], true),
      c => if Fits(c) then Bounded(c, false) else Bounded(Empty, true),
      s => s != "" && |s| <= 128,
      s => s != "",
      s => |s|)
  }

  lemma CuttingCoreIsLawful()
    ensures CuttingCore().Lawful()
  {
  }
}
