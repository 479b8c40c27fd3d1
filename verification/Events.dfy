/**
  The vocabulary a turn is told in: the activity values of the core crate, the events a host
  receives, and the bounding the core applies to an event as it publishes it.
*/
module Events {
  import opened Prelude

  /** One row of a diff. */
  datatype FileChange = FileChange(
    path: string,
    previousPath: Option<string>,
    unifiedDiff: Option<string>,
    oldText: Option<string>,
    newText: Option<string>)

  datatype StepStatus = StepPending | StepInProgress | StepCompleted

  datatype StepPriority = High | Medium | Low

  datatype PlanStep = PlanStep(title: string, status: StepStatus, priority: Option<StepPriority>)

  datatype Content =
    | Empty
    | Plan(steps: seq<PlanStep>)
    | Diff(files: seq<FileChange>)
    | Output(text: string)

  datatype Kind = CommandKind | FileChangeKind | WebSearchKind | PlanKind | OtherKind

  datatype Activity = Activity(
    name: string,
    kind: Kind,
    title: string,
    detail: Option<string>,
    content: Option<Content>,
    locationCount: Option<nat>)

  /** Every field is a replacement; a field left `None` is one the update says nothing about. */
  datatype Update = Update(
    title: Option<string>,
    detail: Option<string>,
    content: Option<Content>,
    truncated: bool)
  {
    predicate IsEmpty() {
      title.None? && detail.None? && content.None?
    }
  }

  datatype Outcome = Succeeded | Failed | Cancelled

  datatype Result = Result(outcome: Outcome, detail: Option<string>, content: Option<Content>)

  datatype Event =
    | TextDelta(text: string)
    | ReasoningStarted
    | ReasoningDelta(text: string)
    | ReasoningEnded
    | ActivityStarted(id: string, activity: Activity)
    | ActivityUpdated(id: string, update: Update)
    | ActivityCompleted(id: string, result: Result)
    | ThreadUsage(used: nat, size: nat)

  /** A value after bounding, and whether anything was removed from it. */
  datatype Bounded<+T> = Bounded(value: T, cut: bool)

  /** How many code points the core publishes of a title and of a detail line. */
  const TITLE_LIMIT := 256
  const DETAIL_LIMIT := 4_096
  const DIFF_MAX_FILES := 256
  const DIFF_MAX_CONTENT_LENGTH := 262_144
  const MAX_PATH_LENGTH := 4_096

  /**
    What the core crate does to an agent's text: the bound of each field, which ids it publishes,
    and which tool names leave something to show. `digest` is the reducer's own keyed digest.
  */
  datatype Core = Core(
    title: string -> Bounded<string>,
    detail: string -> Bounded<string>,
    content: Content -> Bounded<Content>,
    publishes: string -> bool,
    namesATool: string -> bool,
    digest: string -> int)
  {
    /** Bounding what was already bounded changes nothing and cuts nothing, and its result fits. */
    ghost predicate Lawful() {
      && (forall s :: title(title(s).value) == Bounded(title(s).value, false))
      && (forall s :: detail(detail(s).value) == Bounded(detail(s).value, false))
      && (forall c :: content(content(c).value) == Bounded(content(c).value, false))
      && (forall s :: |title(s).value| <= TITLE_LIMIT)
      && (forall s :: |detail(s).value| <= DETAIL_LIMIT)
      && (forall c :: Fits(content(c).value))
    }

    ghost predicate InjectiveDigest() {
      forall a, b :: digest(a) == digest(b) ==> a == b
    }
  }

  /** The bytes UTF-8 spends on one code point. */
  function Utf8Width(c: char): (n: nat)
    ensures 1 <= n <= 4
  {
    if c as int < 0x80 then 1
    else if c as int < 0x800 then 2
    else if c as int < 0x1_0000 then 3
    else 4
  }

  function Utf8Length(s: string): (n: nat)
    ensures |s| <= n <= 4 * |s|
  {
    if s == [] then 0 else Utf8Width(s[0]) + Utf8Length(s[1..])
  }

  function Bodies(file: FileChange): seq<string> {
    (if file.unifiedDiff.Some? then [file.unifiedDiff.value] else [])
    + (if file.oldText.Some? then [file.oldText.value] else [])
    + (if file.newText.Some? then [file.newText.value] else [])
  }

  function AllBodies(files: seq<FileChange>): seq<string> {
    if files == [] then [] else Bodies(files[0]) + AllBodies(files[1..])
  }

  function CodePoints(texts: seq<string>): nat {
    if texts == [] then 0 else |texts[0]| + CodePoints(texts[1..])
  }

  predicate PathFits(file: FileChange) {
    && Utf8Length(file.path) <= MAX_PATH_LENGTH
    && (file.previousPath.Some? ==> Utf8Length(file.previousPath.value) <= MAX_PATH_LENGTH)
  }

  /**
    Whether a content is within the size the core publishes: a text in code points, a diff in rows,
    path bytes and code points of its bodies. A plan is never held back, so its size is not counted.
  */
  predicate Fits(content: Content) {
    match content
    case Output(text) => |text| <= DETAIL_LIMIT
    case Diff(files) =>
      && |files| <= DIFF_MAX_FILES
      && (forall file <- files :: PathFits(file))
      && (forall body <- AllBodies(files) :: |body| <= DETAIL_LIMIT)
      && CodePoints(AllBodies(files)) <= DIFF_MAX_CONTENT_LENGTH
    case _ => true
  }

  /** What the core publishes of an update: each field bounded, and one flag for every cut. */
  function Published(core: Core, update: Update): Update {
    var title := MapOption(core.title, update.title);
    var detail := MapOption(core.detail, update.detail);
    var content := MapOption(core.content, update.content);
    Update(
      MapOption((b: Bounded<string>) => b.value, title),
      MapOption((b: Bounded<string>) => b.value, detail),
      MapOption((b: Bounded<Content>) => b.value, content),
      || update.truncated
      || (title.Some? && title.value.cut)
      || (detail.Some? && detail.value.cut)
      || (content.Some? && content.value.cut))
  }

  /** What a host is sent for one event, as far as this reducer can vary it. */
  function PublishedEvent(core: Core, event: Event): Event {
    if event.ActivityUpdated? then event.(update := Published(core, event.update)) else event
  }

  function PublishedTrace(core: Core, events: seq<Event>): (published: seq<Event>)
    ensures |published| == |events|
  {
    if events == [] then [] else [PublishedEvent(core, events[0])] + PublishedTrace(core, events[1..])
  }

  lemma {:induction false} PublishedTraceConcat(core: Core, a: seq<Event>, b: seq<Event>)
    ensures PublishedTrace(core, a + b) == PublishedTrace(core, a) + PublishedTrace(core, b)
  {
    if a == [] {
      assert a + b == b;
    } else {
      assert (a + b)[1..] == a[1..] + b;
      PublishedTraceConcat(core, a[1..], b);
    }
  }
}
