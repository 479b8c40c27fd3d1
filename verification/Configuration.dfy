/**
  One configuration patch against a live session: axis by axis and option by option, each setting is
  checked, sent to the agent and confirmed before the next, so a refusal part-way leaves what was
  confirmed. The methods keep an account of every setting the patch mentions; what the account says is in
  `ConfigurationReports.dfy`.

  Other tasks go on meanwhile: catalogs are announced and installed between a setting's check and its request,
  and between a request and its answer, in the order `CatalogOrder.dfy` gives them.
*/
module Configuration {
  import opened Prelude
  import opened CatalogOptions
  import opened CatalogOrder

  datatype Change<+T> = Keep | Set(value: T) | Reset

  datatype Level = ReadOnly | Default | FullAccess

  datatype Routing = User | AutoReview

  datatype NativeChange = NativeChange(id: string, change: Change<Value>)

  /** Native changes are listed by id, each id once. */
  datatype Patch = Patch(
    model: Change<string>,
    effort: Change<string>,
    level: Change<Level>,
    routing: Change<Routing>,
    native: seq<NativeChange>)
  {
    predicate Distinct() {
      forall i, j :: 0 <= i < j < |native| ==> native[i].id != native[j].id
    }
  }

  datatype Settings = Settings(
    model: Option<string>,
    effort: Option<string>,
    level: Option<Level>,
    routing: Option<Routing>,
    native: map<string, Value>)

  /** What a profile can establish, and the modes the agent advertised. */
  datatype Profile = Profile(
    supports: (Level, Routing) -> bool,
    modeFor: Level -> Option<string>,
    advertised: set<string>)

  /** One thing a patch may change. */
  datatype Setting = ModelAxis | EffortAxis | LevelAxis | RoutingAxis | Native(id: string)

  datatype Why = ResetNotSupported | UnknownOption | RefusedByHarness | UnsupportedValue | RefusedByVendor

  datatype Verdict = Applied | Rejected(why: Why)

  /** What became of one setting: the id it is reported under, the catalog held by then, the writes before. */
  datatype Entry = Entry(setting: Setting, id: string, catalog: Catalog, after: nat, verdict: Verdict)

  /** One request to the agent, with the catalog this side held when it was checked. */
  datatype Write = Write(setting: Setting, id: string, value: Value, catalog: Catalog)

  datatype Answer = Confirmed(catalog: Catalog) | VendorRefusal | Failure

  /** How an agent answers its `n`th request; any agent is some such function. */
  type Agent = (nat, Write) -> Answer

  /** What other tasks do to the catalogs ahead of a request's submission, and ahead of its answer. */
  datatype Gap = Gap(before: seq<CatalogOrder.Step>, during: seq<CatalogOrder.Step>)

  /** One call: what is asked, and all it meets. `start` holds the catalog it read when it began. */
  datatype Call = Call(
    patch: Patch, profile: Profile, agent: Agent, gaps: nat -> Gap, before: Settings, start: State)

  datatype Progress = Progress(accepted: Settings, shared: State, log: seq<Entry>, sent: seq<Write>)

  /** How a patch ends: every setting settled, or cut short by the agent's answer to one write. */
  datatype Report =
    | Settled(progress: Progress)
    | RefusedAt(progress: Progress, refused: Write)
    | FailedAt(progress: Progress, failed: Write)

  // What the patch mentions, and what it asks for.

  function NativeChangeOf(patch: Patch, id: string): Change<Value> {
    NativeChangeIn(patch.native, id)
  }

  function NativeChangeIn(native: seq<NativeChange>, id: string): Change<Value> {
    if native == [] then Keep
    else if native[0].id == id then native[0].change
    else NativeChangeIn(native[1..], id)
  }

  predicate Mentions(patch: Patch, setting: Setting) {
    match setting
    case ModelAxis => !patch.model.Keep?
    case EffortAxis => !patch.effort.Keep?
    case LevelAxis => !patch.level.Keep?
    case RoutingAxis => !patch.routing.Keep?
    case Native(id) => !NativeChangeOf(patch, id).Keep?
  }

  predicate Sets(patch: Patch, setting: Setting) {
    match setting
    case ModelAxis => patch.model.Set?
    case EffortAxis => patch.effort.Set?
    case LevelAxis => patch.level.Set?
    case RoutingAxis => patch.routing.Set?
    case Native(id) => NativeChangeOf(patch, id).Set?
  }

  predicate Resets(patch: Patch, setting: Setting) {
    Mentions(patch, setting) && !Sets(patch, setting)
  }

  predicate Axis(setting: Setting) {
    setting.ModelAxis? || setting.EffortAxis?
  }

  function AxisCategory(setting: Setting): Category {
    if setting.ModelAxis? then ModelCategory else EffortCategory
  }

  function AxisChange(patch: Patch, setting: Setting): Change<string> {
    if setting.ModelAxis? then patch.model else patch.effort
  }

  function AxisName(setting: Setting): string {
    match setting
    case ModelAxis => "model"
    case EffortAxis => "effort"
    case LevelAxis => "level"
    case RoutingAxis => "routing"
    case Native(id) => id
  }

  /** The id a setting is reported under: an axis under the option it reaches, once it reaches one. */
  function ReportedId(patch: Patch, setting: Setting, catalog: Catalog): string {
    if !Axis(setting) || !Sets(patch, setting) then AxisName(setting)
    else
      var option := UniqueOptionIn(catalog, AxisCategory(setting));
      if option.None? || NativeChangeOf(patch, option.value.id).Set? then AxisName(setting) else option.value.id
  }

  // What was logged.

  predicate IsApplied(log: seq<Entry>, setting: Setting) {
    exists i :: 0 <= i < |log| && log[i].setting == setting && log[i].verdict.Applied?
  }

  /** How often a setting was settled, either way. */
  function TimesSettled(log: seq<Entry>, setting: Setting): nat {
    if log == [] then 0
    else TimesSettled(log[..|log| - 1], setting) + if log[|log| - 1].setting == setting then 1 else 0
  }

  /** The settings before, changed to what the patch asks for at exactly the settings applied. */
  ghost predicate ChangedAt(before: Settings, patch: Patch, log: seq<Entry>, after: Settings) {
    && (forall i :: 0 <= i < |log| && log[i].verdict.Applied? ==> Sets(patch, log[i].setting))
    && after.model == (if IsApplied(log, ModelAxis) then Some(patch.model.value) else before.model)
    && after.effort == (if IsApplied(log, EffortAxis) then Some(patch.effort.value) else before.effort)
    && after.level == (if IsApplied(log, LevelAxis) then Some(patch.level.value) else before.level)
    && after.routing == (if IsApplied(log, RoutingAxis) then Some(patch.routing.value) else before.routing)
    && (forall id :: id in after.native <==> id in before.native || IsApplied(log, Native(id)))
    && (forall id <- after.native :: after.native[id] ==
          if IsApplied(log, Native(id)) then NativeChangeOf(patch, id).value else before.native[id])
  }

  // What other tasks do to the catalogs, and what a request does.

  predicate ByOthers(step: CatalogOrder.Step) {
    step.Notify? || step.Abandon? || step.Submit? || step.AnswerLifecycle?
  }

  function Elapse(s: State, steps: seq<CatalogOrder.Step>): State {
    if steps == [] then s
    else
      var before := Elapse(s, steps[..|steps| - 1]);
      var step := steps[|steps| - 1];
      if ByOthers(step) then CatalogOrder.Next(before, step) else before
  }

  /** The catalog a call carries: the one it read last, or the last answer that nothing came ahead of. */
  function Held(s: State): Catalog {
    if s.carried.Some? then s.carried.value.catalog else s.catalog
  }

  /** What a request finds when it is submitted. */
  function Submitted(s: State, gap: Gap): State {
    Elapse(s, gap.before)
  }

  /** What its answer leaves. Only an option's answer carries a catalog; a mode's does not. */
  function Answered(s: State, gap: Gap, w: Write, answer: Answer): State {
    var at := Submitted(s, gap);
    if w.setting.LevelAxis? then Elapse(at, gap.during)
    else
      var later := Elapse(CatalogOrder.Next(at, Submit), gap.during);
      if answer.Confirmed? then CatalogOrder.Next(later, AnswerOption(|at.requests|, answer.catalog)) else later
  }

  /** The catalogs once the first `k` requests were answered. */
  function SharedAfter(call: Call, sent: seq<Write>, k: nat): State
    requires k <= |sent|
  {
    if k == 0 then call.start
    else
      var s := SharedAfter(call, sent, k - 1);
      Answered(s, call.gaps(k - 1), sent[k - 1], call.agent(k - 1, sent[k - 1]))
  }

  lemma {:induction false} SharedBefore(call: Call, sent: seq<Write>, more: seq<Write>, k: nat)
    requires k <= |sent|
    ensures SharedAfter(call, sent + more, k) == SharedAfter(call, sent, k)
  {
    if k > 0 {
      SharedBefore(call, sent, more, k - 1);
    }
  }

  // What may be sent, and what may be refused.

  /** The one option of the category, which takes the value and which no native change also sets. */
  predicate AllowedOnAxis(patch: Patch, w: Write, catalog: Catalog, category: Category) {
    var option := UniqueOptionIn(catalog, category);
    && option.Some? && option.value.id == w.id && Takes(option.value, w.value)
    && !NativeChangeOf(patch, w.id).Set?
  }

  /**
    What a write must be under a catalog: an axis reaches the one option of its category, a native write never
    reaches the model, the effort or the mode, and either option takes the value; a mode is one the agent
    advertised.
  */
  ghost predicate AllowedIn(patch: Patch, profile: Profile, w: Write, catalog: Catalog) {
    match w.setting
    case ModelAxis =>
      patch.model.Set? && w.value == Text(patch.model.value) && AllowedOnAxis(patch, w, catalog, ModelCategory)
    case EffortAxis =>
      patch.effort.Set? && w.value == Text(patch.effort.value) && AllowedOnAxis(patch, w, catalog, EffortCategory)
    case Native(id) =>
      && Sets(patch, w.setting) && w.id == id && w.value == NativeChangeOf(patch, id).value
      && var option := OptionIn(catalog, id);
      && option.Some? && !Semantic(option.value.category) && Takes(option.value, w.value)
    case LevelAxis =>
      && patch.level.Set? && profile.modeFor(patch.level.value) == Some(w.id) && w.id in profile.advertised
      && w.value == Text(w.id)
    case RoutingAxis => false
  }

  ghost predicate Allowed(call: Call, w: Write) {
    AllowedIn(call.patch, call.profile, w, w.catalog)
  }

  /** The routing a level is established with, and the level a routing is. */
  function RoutingFor(call: Call): Routing {
    if call.patch.routing.Set? then call.patch.routing.value else call.before.routing.GetOr(User)
  }

  function LevelFor(call: Call): Option<Level> {
    if call.patch.level.Set? then Some(call.patch.level.value) else call.before.level
  }

  predicate LevelEstablished(call: Call)
    requires call.patch.level.Set?
  {
    var level := call.patch.level.value;
    && call.profile.supports(level, RoutingFor(call))
    && (call.profile.modeFor(level).Some? ==> call.profile.modeFor(level).value in call.profile.advertised)
  }

  /** No level in force, or one the profile supports with the routing that is asked for. */
  predicate RoutingEstablished(call: Call)
    requires call.patch.routing.Set?
  {
    LevelFor(call).Some? ==> call.profile.supports(LevelFor(call).value, call.patch.routing.value)
  }

  /** What a setting must meet on this side to be applied, whatever catalogs come and go. */
  predicate Earned(call: Call, setting: Setting)
    requires Sets(call.patch, setting)
  {
    match setting
    case LevelAxis => LevelEstablished(call)
    case RoutingAxis => RoutingEstablished(call)
    case _ => true
  }

  /** What a setting is refused for on this side: each reason holds of the patch and of the catalog held then. */
  predicate Deserves(call: Call, setting: Setting, catalog: Catalog, why: Why) {
    if Resets(call.patch, setting) then why.ResetNotSupported?
    else
      match setting
      case ModelAxis | EffortAxis =>
        var option := UniqueOptionIn(catalog, AxisCategory(setting));
        && AxisChange(call.patch, setting).Set?
        && if option.None? then why.UnknownOption?
           else if NativeChangeOf(call.patch, option.value.id).Set? then why.RefusedByHarness?
           else why.UnsupportedValue? && !Takes(option.value, Text(AxisChange(call.patch, setting).value))
      case Native(id) =>
        var option := OptionIn(catalog, id);
        && NativeChangeOf(call.patch, id).Set?
        && if option.None? then why.UnknownOption?
           else if Semantic(option.value.category) then why.RefusedByHarness?
           else why.UnsupportedValue? && !Takes(option.value, NativeChangeOf(call.patch, id).value)
      case LevelAxis => why.RefusedByHarness? && call.patch.level.Set? && !LevelEstablished(call)
      case RoutingAxis =>
        && why.RefusedByHarness? && call.patch.routing.Set? && LevelFor(call).Some?
        && !call.profile.supports(LevelFor(call).value, call.patch.routing.value)
  }

  /** Settings that are an option of the agent's. */
  predicate NeedsAWrite(setting: Setting) {
    Axis(setting) || setting.Native?
  }

  /** Settings the agent is asked for: every option, and a level that has a mode. */
  predicate IsWritten(call: Call, setting: Setting) {
    || NeedsAWrite(setting)
    || (setting.LevelAxis? && call.patch.level.Set? && call.profile.modeFor(call.patch.level.value).Some?)
  }

  // The account.

  /** A write was allowed by the catalog held when it was checked, and confirmed, and its setting applied. */
  ghost predicate WriteConfirmed(call: Call, log: seq<Entry>, sent: seq<Write>, i: nat)
    requires i < |sent|
  {
    && Allowed(call, sent[i]) && sent[i].catalog == Held(SharedAfter(call, sent, i))
    && call.agent(i, sent[i]).Confirmed? && IsApplied(log, sent[i].setting)
  }

  /** A mode is the last thing sent. */
  predicate ModeLast(sent: seq<Write>) {
    forall i: nat | i < |sent| :: sent[i].setting.LevelAxis? ==> i + 1 == |sent|
  }

  /** Every write was confirmed, and nothing that needs one was applied without it. */
  ghost predicate WritesConfirmed(call: Call, log: seq<Entry>, sent: seq<Write>) {
    && (forall i: nat | i < |sent| :: WriteConfirmed(call, log, sent, i))
    && (forall i: nat, j: nat | i < j < |sent| :: sent[i].setting != sent[j].setting) && ModeLast(sent)
    && (forall setting :: IsApplied(log, setting) && IsWritten(call, setting) ==>
          exists i: nat :: i < |sent| && sent[i].setting == setting)
  }

  /**
    A setting is reported under its id, judged by the catalog held by then, applied when this side can establish
    it and by the write that follows if it needs one, and refused for a reason.
  */
  ghost predicate EntryFits(call: Call, sent: seq<Write>, e: Entry) {
    && e.after <= |sent| && e.catalog == Held(SharedAfter(call, sent, e.after))
    && (e.verdict.Applied? ==> Sets(call.patch, e.setting) && Earned(call, e.setting))
    && (e.verdict.Applied? && IsWritten(call, e.setting) ==> e.after < |sent| && sent[e.after].setting == e.setting)
    && e.id == ReportedId(call.patch, e.setting, e.catalog)
    && (e.verdict.Rejected? ==> Deserves(call, e.setting, e.catalog, e.verdict.why))
  }

  ghost predicate EntriesFit(call: Call, log: seq<Entry>, sent: seq<Write>) {
    forall i: nat | i < |log| :: EntryFits(call, sent, log[i])
  }

  /** How many requests were answered before an axis the patch sets was come to: at most the model's. */
  function AxisPlace(log: seq<Entry>, setting: Setting): nat {
    if setting.EffortAxis? && IsApplied(log, ModelAxis) then 1 else 0
  }

  /** The model is settled ahead of every request, and the effort ahead of all but the model's. */
  ghost predicate AxesFirst(patch: Patch, log: seq<Entry>) {
    forall i: nat | i < |log| ::
      Axis(log[i].setting) && Sets(patch, log[i].setting) ==> log[i].after == AxisPlace(log, log[i].setting)
  }

  /** An axis the patch sets is come to in its place. */
  ghost predicate InPlace(patch: Patch, log: seq<Entry>, sent: seq<Write>, setting: Setting) {
    Axis(setting) && Sets(patch, setting) ==>
      && |sent| == AxisPlace(log, setting)
      && (setting.ModelAxis? ==>
            forall i: nat | i < |log| :: log[i].setting.EffortAxis? ==> !Sets(patch, EffortAxis))
  }

  /** The account so far: the settings in `done` are settled exactly once each, and no others are. */
  ghost predicate Accounts(call: Call, p: Progress, done: iset<Setting>) {
    && (forall setting :: TimesSettled(p.log, setting) == if setting in done then 1 else 0)
    && ChangedAt(call.before, call.patch, p.log, p.accepted)
    && WritesConfirmed(call, p.log, p.sent)
    && EntriesFit(call, p.log, p.sent) && AxesFirst(call.patch, p.log)
    && p.shared == SharedAfter(call, p.sent, |p.sent|)
  }

  // Settling one setting.

  function Logged(call: Call, p: Progress, setting: Setting, verdict: Verdict): Entry {
    Entry(setting, ReportedId(call.patch, setting, Held(p.shared)), Held(p.shared), |p.sent|, verdict)
  }

  function Rejecting(call: Call, p: Progress, setting: Setting, why: Why): Progress {
    p.(log := p.log + [Logged(call, p, setting, Rejected(why))])
  }

  function WithSetting(accepted: Settings, patch: Patch, setting: Setting): Settings
    requires Sets(patch, setting)
  {
    match setting
    case ModelAxis => accepted.(model := Some(patch.model.value))
    case EffortAxis => accepted.(effort := Some(patch.effort.value))
    case LevelAxis => accepted.(level := Some(patch.level.value))
    case RoutingAxis => accepted.(routing := Some(patch.routing.value))
    case Native(id) => accepted.(native := accepted.native[id := NativeChangeOf(patch, id).value])
  }

  function Applying(call: Call, p: Progress, setting: Setting): Progress
    requires Sets(call.patch, setting)
  {
    p.(accepted := WithSetting(p.accepted, call.patch, setting),
       log := p.log + [Logged(call, p, setting, Applied)])
  }

  /** A write the agent confirmed, and the setting it was for. */
  function Confirming(call: Call, p: Progress, w: Write): Progress
    requires Sets(call.patch, w.setting)
  {
    var n := |p.sent|;
    Applying(call, p, w.setting).(
      sent := p.sent + [w], shared := Answered(p.shared, call.gaps(n), w, call.agent(n, w)))
  }

  lemma TimesAppend(log: seq<Entry>, last: Entry, setting: Setting)
    ensures TimesSettled(log + [last], setting)
      == TimesSettled(log, setting) + if last.setting == setting then 1 else 0
  {
    assert (log + [last])[..|log|] == log;
  }

  lemma {:induction false} TimesZero(log: seq<Entry>, setting: Setting)
    ensures TimesSettled(log, setting) == 0 <==> forall i :: 0 <= i < |log| ==> log[i].setting != setting
  {
    if log != [] {
      var n := |log| - 1;
      TimesZero(log[..n], setting);
      assert forall i :: 0 <= i < n ==> log[..n][i] == log[i];
    }
  }

  lemma AppliedAppend(log: seq<Entry>, last: Entry, setting: Setting)
    ensures IsApplied(log + [last], setting)
      <==> IsApplied(log, setting) || (last.setting == setting && last.verdict.Applied?)
  {
    var both := log + [last];
    assert both[|log|] == last;
    assert forall i :: 0 <= i < |log| ==> both[i] == log[i];
  }

  lemma EntriesStay(call: Call, log: seq<Entry>, sent: seq<Write>, more: seq<Write>)
    requires EntriesFit(call, log, sent)
    ensures EntriesFit(call, log, sent + more)
  {
    forall i: nat | i < |log|
      ensures EntryFits(call, sent + more, log[i])
    {
      assert EntryFits(call, sent, log[i]);
      SharedBefore(call, sent, more, log[i].after);
    }
  }

  lemma EntriesAppend(call: Call, log: seq<Entry>, sent: seq<Write>, last: Entry)
    requires EntriesFit(call, log, sent) && EntryFits(call, sent, last)
    ensures EntriesFit(call, log + [last], sent)
  {
  }

  lemma WritesStay(call: Call, log: seq<Entry>, sent: seq<Write>, last: Entry)
    requires WritesConfirmed(call, log, sent)
    requires last.verdict.Applied? ==> !IsWritten(call, last.setting)
    ensures WritesConfirmed(call, log + [last], sent)
  {
    forall setting {
      AppliedAppend(log, last, setting);
    }
    forall i: nat | i < |sent|
      ensures WriteConfirmed(call, log + [last], sent, i)
    {
      assert WriteConfirmed(call, log, sent, i);
    }
  }

  lemma RejectingChanges(before: Settings, patch: Patch, log: seq<Entry>, after: Settings, last: Entry)
    requires ChangedAt(before, patch, log, after) && last.verdict.Rejected?
    ensures ChangedAt(before, patch, log + [last], after)
  {
    forall setting {
      AppliedAppend(log, last, setting);
    }
  }

  lemma ApplyingChanges(before: Settings, patch: Patch, log: seq<Entry>, after: Settings, last: Entry)
    requires ChangedAt(before, patch, log, after) && last.verdict.Applied? && Sets(patch, last.setting)
    ensures ChangedAt(before, patch, log + [last], WithSetting(after, patch, last.setting))
  {
    forall setting {
      AppliedAppend(log, last, setting);
    }
  }

  lemma AxisAppends(patch: Patch, log: seq<Entry>, sent: seq<Write>, last: Entry)
    requires AxesFirst(patch, log) && InPlace(patch, log, sent, last.setting) && last.after == |sent|
    requires last.verdict.Applied? ==> Sets(patch, last.setting)
    ensures AxesFirst(patch, log + [last])
  {
    AppliedAppend(log, last, ModelAxis);
  }

  lemma RejectingAccounts(call: Call, p: Progress, done: iset<Setting>, setting: Setting, why: Why)
    requires Accounts(call, p, done) && setting !in done && Deserves(call, setting, Held(p.shared), why)
    requires InPlace(call.patch, p.log, p.sent, setting)
    ensures Accounts(call, Rejecting(call, p, setting, why), done + iset{setting})
  {
    var last := Logged(call, p, setting, Rejected(why));
    forall other {
      TimesAppend(p.log, last, other);
    }
    RejectingChanges(call.before, call.patch, p.log, p.accepted, last);
    WritesStay(call, p.log, p.sent, last);
    EntriesAppend(call, p.log, p.sent, last);
    AxisAppends(call.patch, p.log, p.sent, last);
  }

  /** A setting that is decided on this side alone. */
  lemma ApplyingAccounts(call: Call, p: Progress, done: iset<Setting>, setting: Setting)
    requires Accounts(call, p, done) && setting !in done && Sets(call.patch, setting)
    requires Earned(call, setting) && !IsWritten(call, setting)
    ensures Accounts(call, Applying(call, p, setting), done + iset{setting})
  {
    var last := Logged(call, p, setting, Applied);
    forall other {
      TimesAppend(p.log, last, other);
    }
    ApplyingChanges(call.before, call.patch, p.log, p.accepted, last);
    WritesStay(call, p.log, p.sent, last);
    EntriesAppend(call, p.log, p.sent, last);
    AxisAppends(call.patch, p.log, p.sent, last);
  }

  lemma NotDoneIsNotApplied(call: Call, p: Progress, done: iset<Setting>, setting: Setting)
    requires Accounts(call, p, done) && setting !in done
    ensures !IsApplied(p.log, setting)
  {
    assert TimesSettled(p.log, setting) == 0;
    TimesZero(p.log, setting);
  }

  /** A setting whose write the agent just confirmed. */
  lemma ConfirmingAccounts(call: Call, p: Progress, done: iset<Setting>, w: Write)
    requires Accounts(call, p, done) && w.setting !in done && Sets(call.patch, w.setting) && Earned(call, w.setting)
    requires Allowed(call, w) && w.catalog == Held(p.shared) && call.agent(|p.sent|, w).Confirmed?
    requires InPlace(call.patch, p.log, p.sent, w.setting) && ModeToCome(call, done)
    ensures Accounts(call, Confirming(call, p, w), done + iset{w.setting})
  {
    var last := Logged(call, p, w.setting, Applied);
    var p' := Confirming(call, p, w);
    assert p'.log == p.log + [last] && p'.sent == p.sent + [w];
    OneMoreSettled(p.log, last, done);
    ApplyingChanges(call.before, call.patch, p.log, p.accepted, last);
    NotDoneIsNotApplied(call, p, done, w.setting);
    NoModeYet(call, p, done);
    WriteAppends(call, p.log, p.sent, w, last);
    ConfirmedFits(call, p, done, w);
    AxisAppends(call.patch, p.log, p.sent, last);
    AnswerShared(call, p.sent, w);
  }

  lemma OneMoreSettled(log: seq<Entry>, last: Entry, done: iset<Setting>)
    requires last.setting !in done
    requires forall setting :: TimesSettled(log, setting) == if setting in done then 1 else 0
    ensures forall setting ::
      TimesSettled(log + [last], setting) == if setting in done + iset{last.setting} then 1 else 0
  {
    forall other {
      TimesAppend(log, last, other);
    }
  }

  lemma ConfirmedFits(call: Call, p: Progress, done: iset<Setting>, w: Write)
    requires Accounts(call, p, done) && Sets(call.patch, w.setting) && Earned(call, w.setting)
    ensures EntriesFit(call, p.log + [Logged(call, p, w.setting, Applied)], p.sent + [w])
  {
    SharedBefore(call, p.sent, [w], |p.sent|);
    ConfirmingEntries(call, p.log, p.sent, w, Logged(call, p, w.setting, Applied));
  }

  lemma AnswerShared(call: Call, sent: seq<Write>, w: Write)
    ensures var n := |sent|;
      SharedAfter(call, sent + [w], n + 1)
      == Answered(SharedAfter(call, sent, n), call.gaps(n), w, call.agent(n, w))
  {
    SharedBefore(call, sent, [w], |sent|);
  }

  lemma ConfirmingEntries(call: Call, log: seq<Entry>, sent: seq<Write>, w: Write, last: Entry)
    requires EntriesFit(call, log, sent) && EntryFits(call, sent + [w], last)
    ensures EntriesFit(call, log + [last], sent + [w])
  {
    EntriesStay(call, log, sent, [w]);
    EntriesAppend(call, log, sent + [w], last);
  }

  /** The level is not settled by a write yet. */
  predicate ModeToCome(call: Call, done: iset<Setting>) {
    LevelAxis in done ==> !Sets(call.patch, LevelAxis)
  }

  lemma NoModeYet(call: Call, p: Progress, done: iset<Setting>)
    requires Accounts(call, p, done) && ModeToCome(call, done)
    ensures !IsApplied(p.log, LevelAxis)
  {
    if LevelAxis !in done {
      NotDoneIsNotApplied(call, p, done, LevelAxis);
    }
  }

  lemma WriteAppends(call: Call, log: seq<Entry>, sent: seq<Write>, w: Write, last: Entry)
    requires WritesConfirmed(call, log, sent) && !IsApplied(log, w.setting) && !IsApplied(log, LevelAxis)
    requires Allowed(call, w) && w.catalog == Held(SharedAfter(call, sent, |sent|))
    requires call.agent(|sent|, w).Confirmed? && last.setting == w.setting && last.verdict.Applied?
    ensures WritesConfirmed(call, log + [last], sent + [w])
  {
    var sent' := sent + [w];
    forall setting {
      AppliedAppend(log, last, setting);
    }
    forall i: nat | i < |sent'|
      ensures WriteConfirmed(call, log + [last], sent', i)
    {
      SharedBefore(call, sent, [w], i);
      if i < |sent| {
        assert WriteConfirmed(call, log, sent, i);
      }
    }
    WriteIsNew(call, log, sent, w);
    forall setting | IsApplied(log + [last], setting) && IsWritten(call, setting)
      ensures exists i: nat :: i < |sent'| && sent'[i].setting == setting
    {
      if setting == w.setting {
        assert sent'[|sent|].setting == setting;
      } else {
        var i: nat :| i < |sent| && sent[i].setting == setting;
        assert sent'[i].setting == setting;
      }
    }
  }

  lemma WriteIsNew(call: Call, log: seq<Entry>, sent: seq<Write>, w: Write)
    requires WritesConfirmed(call, log, sent) && !IsApplied(log, w.setting) && !IsApplied(log, LevelAxis)
    ensures var sent' := sent + [w];
      ModeLast(sent') && forall i: nat, j: nat | i < j < |sent'| :: sent'[i].setting != sent'[j].setting
  {
    forall i: nat | i < |sent|
      ensures sent[i].setting != w.setting && !sent[i].setting.LevelAxis?
    {
      assert WriteConfirmed(call, log, sent, i);
    }
  }

  // The methods.

  /** Sends one request and waits for its answer. */
  method Send(call: Call, n: nat, w: Write) returns (answer: Answer)
    ensures answer == call.agent(n, w)
  {
    answer := call.agent(n, w);
  }

  /** The write a report was cut short by was allowed, and its setting neither settled nor settled again. */
  ghost predicate CutShortBy(call: Call, p: Progress, done: iset<Setting>, w: Write) {
    && Allowed(call, w) && w.catalog == Held(p.shared)
    && Sets(call.patch, w.setting) && w.setting !in done && !IsApplied(p.log, LevelAxis)
  }

  /** What a report says, whichever way the patch ended. */
  ghost predicate Reported(call: Call, report: Report, done: iset<Setting>) {
    && Accounts(call, report.progress, done)
    && (report.RefusedAt? ==>
          && CutShortBy(call, report.progress, done, report.refused)
          && call.agent(|report.progress.sent|, report.refused).VendorRefusal?)
    && (report.FailedAt? ==>
          && CutShortBy(call, report.progress, done, report.failed)
          && call.agent(|report.progress.sent|, report.failed).Failure?)
  }

  /** One write, and what its answer makes of the setting. */
  method WriteOne(call: Call, p: Progress, w: Write, ghost done: iset<Setting>) returns (report: Report)
    requires Accounts(call, p, done) && w.setting !in done
    requires Sets(call.patch, w.setting) && Earned(call, w.setting)
    requires Allowed(call, w) && w.catalog == Held(p.shared)
    requires InPlace(call.patch, p.log, p.sent, w.setting) && ModeToCome(call, done)
    ensures Reported(call, report, if report.Settled? then done + iset{w.setting} else done)
    ensures report.Settled? ==>
      |report.progress.sent| == |p.sent| + 1 && IsApplied(report.progress.log, w.setting)
  {
    NoModeYet(call, p, done);
    var answer := Send(call, |p.sent|, w);
    match answer {
      case Confirmed(_) =>
        ConfirmingAccounts(call, p, done, w);
        AppliedAppend(p.log, Logged(call, p, w.setting, Applied), w.setting);
        report := Settled(Confirming(call, p, w));
      case VendorRefusal => report := RefusedAt(p, w);
      case Failure => report := FailedAt(p, w);
    }
  }

  // The order settings are settled in.

  /** The settings settled before anything is sent: every reset, and native writes to a reserved option. */
  ghost function SettledAtOnce(patch: Patch, reserved: set<string>): iset<Setting> {
    iset setting: Setting | Resets(patch, setting) || (setting.Native? && setting.id in reserved)
  }

  ghost function SettledAxes(patch: Patch, axes: nat): iset<Setting> {
    iset setting: Setting |
      Sets(patch, setting) && ((setting.ModelAxis? && axes >= 1) || (setting.EffortAxis? && axes >= 2))
  }

  ghost function SettledNatives(patch: Patch, k: nat): iset<Setting>
    requires k <= |patch.native|
  {
    iset setting: Setting | setting.Native? && Sets(patch, setting) && ListedBefore(patch, k, setting.id)
  }

  predicate ListedBefore(patch: Patch, k: nat, id: string)
    requires k <= |patch.native|
  {
    exists i :: 0 <= i < k && patch.native[i].id == id
  }

  /** Ids set as native changes whose option belongs to a semantic axis of `catalog`. */
  ghost predicate Reserves(patch: Patch, catalog: Catalog, k: nat, reserved: set<string>)
    requires k <= |patch.native|
  {
    forall id :: id in reserved <==>
      && ListedBefore(patch, k, id) && NativeChangeOf(patch, id).Set?
      && OptionIn(catalog, id).Some? && Semantic(OptionIn(catalog, id).value.category)
  }

  lemma {:induction false} ListedChange(native: seq<NativeChange>, k: nat)
    requires k < |native| && forall i, j :: 0 <= i < j < |native| ==> native[i].id != native[j].id
    ensures NativeChangeIn(native, native[k].id) == native[k].change
  {
    if k > 0 {
      ListedChange(native[1..], k - 1);
    }
  }

  lemma UnlistedIsKept(native: seq<NativeChange>, id: string)
    requires forall i :: 0 <= i < |native| ==> native[i].id != id
    ensures NativeChangeIn(native, id).Keep?
  {
  }

  const AXES := [ModelAxis, EffortAxis, LevelAxis, RoutingAxis]

  ghost function AxisResetsBefore(patch: Patch, k: nat): iset<Setting>
    requires k <= |AXES|
  {
    iset setting: Setting | setting in AXES[..k] && Resets(patch, setting)
  }

  /** Where a call begins: nothing settled, nothing sent. */
  function Begun(call: Call): Progress {
    Progress(call.before, call.start, [], [])
  }

  predicate NothingSent(call: Call, p: Progress) {
    p.sent == [] && p.shared == call.start
  }

  /** Resets of the four axes are refused before anything else. */
  method RejectAxisResets(call: Call) returns (p: Progress)
    ensures Accounts(call, p, AxisResetsBefore(call.patch, |AXES|)) && NothingSent(call, p)
  {
    p := Begun(call);
    var k := 0;
    assert AxisResetsBefore(call.patch, 0) == iset{};
    while k < |AXES|
      invariant 0 <= k <= |AXES|
      invariant Accounts(call, p, AxisResetsBefore(call.patch, k)) && NothingSent(call, p)
    {
      OneMoreAxis(call.patch, k);
      if Resets(call.patch, AXES[k]) {
        RejectingAccounts(call, p, AxisResetsBefore(call.patch, k), AXES[k], ResetNotSupported);
        p := Rejecting(call, p, AXES[k], ResetNotSupported);
      }
      k := k + 1;
    }
  }

  lemma OneMoreAxis(patch: Patch, k: nat)
    requires k < |AXES|
    ensures Resets(patch, AXES[k]) ==>
      && AXES[k] !in AxisResetsBefore(patch, k)
      && AxisResetsBefore(patch, k + 1) == AxisResetsBefore(patch, k) + iset{AXES[k]}
    ensures !Resets(patch, AXES[k]) ==> AxisResetsBefore(patch, k + 1) == AxisResetsBefore(patch, k)
  {
    assert AXES[..k + 1] == AXES[..k] + [AXES[k]];
    assert AXES[k] !in AXES[..k];
  }

  ghost function ResetsBefore(patch: Patch, k: nat): iset<Setting>
    requires k <= |patch.native|
  {
    iset setting: Setting |
      && Resets(patch, setting)
      && (setting.Native? ==> ListedBefore(patch, k, setting.id))
  }

  lemma EveryAxisIsListed(patch: Patch)
    ensures AxisResetsBefore(patch, |AXES|) == ResetsBefore(patch, 0)
  {
    assert AXES[..4] == AXES;
    assert AXES[0] == ModelAxis && AXES[1] == EffortAxis && AXES[2] == LevelAxis && AXES[3] == RoutingAxis;
  }

  /** Every reset is refused: only explicit current values can be set. */
  method RejectResets(call: Call) returns (p: Progress)
    requires call.patch.Distinct()
    ensures Accounts(call, p, SettledAtOnce(call.patch, {})) && NothingSent(call, p)
  {
    p := RejectAxisResets(call);
    var patch := call.patch;
    var k := 0;
    EveryAxisIsListed(patch);
    while k < |patch.native|
      invariant 0 <= k <= |patch.native|
      invariant Accounts(call, p, ResetsBefore(patch, k)) && NothingSent(call, p)
    {
      var setting := Native(patch.native[k].id);
      ListedChange(patch.native, k);
      if patch.native[k].change.Reset? {
        RejectingAccounts(call, p, ResetsBefore(patch, k), setting, ResetNotSupported);
        p := Rejecting(call, p, setting, ResetNotSupported);
        assert ResetsBefore(patch, k + 1) == ResetsBefore(patch, k) + iset{setting};
      } else {
        assert ResetsBefore(patch, k + 1) == ResetsBefore(patch, k);
      }
      k := k + 1;
    }
    AllAreListed(patch);
    assert ResetsBefore(patch, k) == SettledAtOnce(patch, {});
  }

  lemma AllAreListed(patch: Patch)
    ensures forall id :: !ListedBefore(patch, |patch.native|, id) ==> NativeChangeOf(patch, id).Keep?
  {
    forall id | !ListedBefore(patch, |patch.native|, id)
      ensures NativeChangeOf(patch, id).Keep?
    {
      UnlistedIsKept(patch.native, id);
    }
  }

  lemma ReservesOneMore(patch: Patch, catalog: Catalog, k: nat, reserved: set<string>)
    requires patch.Distinct() && k < |patch.native| && Reserves(patch, catalog, k, reserved)
    ensures var id := patch.native[k].id;
      var option := OptionIn(catalog, id);
      if patch.native[k].change.Set? && option.Some? && Semantic(option.value.category)
      then
        && Reserves(patch, catalog, k + 1, reserved + {id})
        && Native(id) !in SettledAtOnce(patch, reserved) && NativeChangeOf(patch, id).Set?
        && SettledAtOnce(patch, reserved + {id}) == SettledAtOnce(patch, reserved) + iset{Native(id)}
      else Reserves(patch, catalog, k + 1, reserved)
  {
    ListedChange(patch.native, k);
    var id := patch.native[k].id;
    assert !ListedBefore(patch, k, id);
    assert forall other :: ListedBefore(patch, k + 1, other) <==> ListedBefore(patch, k, other) || other == id;
  }

  /** Native writes that could side-step a semantic axis are refused before anything is sent. */
  method RejectSemanticTargets(call: Call, start: Progress) returns (p: Progress, reserved: set<string>)
    requires call.patch.Distinct()
    requires Accounts(call, start, SettledAtOnce(call.patch, {})) && NothingSent(call, start)
    ensures Accounts(call, p, SettledAtOnce(call.patch, reserved)) && NothingSent(call, p)
    ensures Reserves(call.patch, Held(call.start), |call.patch.native|, reserved)
  {
    p, reserved := start, {};
    var patch, catalog := call.patch, Held(call.start);
    var k := 0;
    while k < |patch.native|
      invariant 0 <= k <= |patch.native|
      invariant Accounts(call, p, SettledAtOnce(patch, reserved)) && NothingSent(call, p)
      invariant Reserves(patch, catalog, k, reserved)
    {
      var id := patch.native[k].id;
      var option := OptionIn(catalog, id);
      ReservesOneMore(patch, catalog, k, reserved);
      if patch.native[k].change.Set? && option.Some? && Semantic(option.value.category) {
        RejectingAccounts(call, p, SettledAtOnce(patch, reserved), Native(id), RefusedByHarness);
        p := Rejecting(call, p, Native(id), RefusedByHarness);
        reserved := reserved + {id};
      }
      k := k + 1;
    }
  }

  /** Settles one axis: refused when the catalog or the patch makes it ambiguous, otherwise sent. */
  method SettleAxis(call: Call, p: Progress, setting: Setting, ghost done: iset<Setting>) returns (report: Report)
    requires Axis(setting) && Accounts(call, p, done) && setting !in done && Sets(call.patch, setting)
    requires InPlace(call.patch, p.log, p.sent, setting) && ModeToCome(call, done)
    ensures Reported(call, report, if report.Settled? then done + iset{setting} else done)
    ensures report.Settled? ==>
      |report.progress.sent| == |p.sent| + if IsApplied(report.progress.log, setting) then 1 else 0
  {
    NotDoneIsNotApplied(call, p, done, setting);
    forall why {
      AppliedAppend(p.log, Logged(call, p, setting, Rejected(why)), setting);
    }
    var text := AxisChange(call.patch, setting).value;
    var catalog := Held(p.shared);
    var option := UniqueOptionIn(catalog, AxisCategory(setting));
    if option.None? {
      RejectingAccounts(call, p, done, setting, UnknownOption);
      return Settled(Rejecting(call, p, setting, UnknownOption));
    }
    if NativeChangeOf(call.patch, option.value.id).Set? {
      RejectingAccounts(call, p, done, setting, RefusedByHarness);
      return Settled(Rejecting(call, p, setting, RefusedByHarness));
    }
    if !Takes(option.value, Text(text)) {
      RejectingAccounts(call, p, done, setting, UnsupportedValue);
      return Settled(Rejecting(call, p, setting, UnsupportedValue));
    }
    report := WriteOne(call, p, Write(setting, option.value.id, Text(text), catalog), done);
  }

  /** Settles one native change against the catalog held by then. */
  method SettleNative(call: Call, p: Progress, id: string, value: Value, ghost done: iset<Setting>)
    returns (report: Report)
    requires Accounts(call, p, done) && Native(id) !in done && NativeChangeOf(call.patch, id) == Set(value)
    requires ModeToCome(call, done)
    ensures Reported(call, report, if report.Settled? then done + iset{Native(id)} else done)
  {
    var catalog := Held(p.shared);
    var option := OptionIn(catalog, id);
    if option.None? {
      RejectingAccounts(call, p, done, Native(id), UnknownOption);
      return Settled(Rejecting(call, p, Native(id), UnknownOption));
    }
    if Semantic(option.value.category) {
      RejectingAccounts(call, p, done, Native(id), RefusedByHarness);
      return Settled(Rejecting(call, p, Native(id), RefusedByHarness));
    }
    if !Takes(option.value, value) {
      RejectingAccounts(call, p, done, Native(id), UnsupportedValue);
      return Settled(Rejecting(call, p, Native(id), UnsupportedValue));
    }
    report := WriteOne(call, p, Write(Native(id), id, value, catalog), done);
  }

  lemma RoutingIsTheOneBefore(call: Call, p: Progress, done: iset<Setting>)
    requires Accounts(call, p, done) && (RoutingAxis in done ==> !Sets(call.patch, RoutingAxis))
    ensures p.accepted.routing == call.before.routing
  {
    if RoutingAxis !in done {
      NotDoneIsNotApplied(call, p, done, RoutingAxis);
    }
  }

  lemma LevelIsTheOneBefore(call: Call, p: Progress)
    requires ChangedAt(call.before, call.patch, p.log, p.accepted) && !Sets(call.patch, LevelAxis)
    ensures p.accepted.level == call.before.level
  {
  }

  /** The level, through the profile's matrix and, when the level has a mode, the agent. */
  method SettleLevel(call: Call, p: Progress, ghost done: iset<Setting>) returns (report: Report)
    requires call.patch.level.Set? && LevelAxis !in done && Accounts(call, p, done)
    requires RoutingAxis in done ==> !Sets(call.patch, RoutingAxis)
    ensures Reported(call, report, if report.Settled? then done + iset{LevelAxis} else done)
  {
    RoutingIsTheOneBefore(call, p, done);
    var level, profile := call.patch.level.value, call.profile;
    var routing := if call.patch.routing.Set? then call.patch.routing.value else p.accepted.routing.GetOr(User);
    if !profile.supports(level, routing) {
      RejectingAccounts(call, p, done, LevelAxis, RefusedByHarness);
      return Settled(Rejecting(call, p, LevelAxis, RefusedByHarness));
    }
    var mode := profile.modeFor(level);
    if mode.None? {
      ApplyingAccounts(call, p, done, LevelAxis);
      return Settled(Applying(call, p, LevelAxis));
    }
    if mode.value !in profile.advertised {
      RejectingAccounts(call, p, done, LevelAxis, RefusedByHarness);
      return Settled(Rejecting(call, p, LevelAxis, RefusedByHarness));
    }
    report := WriteOne(call, p, Write(LevelAxis, mode.value, Text(mode.value), Held(p.shared)), done);
  }

  /** The routing, which is decided on this side alone. */
  method SettleRouting(call: Call, p: Progress, ghost done: iset<Setting>) returns (after: Progress)
    requires call.patch.routing.Set? && RoutingAxis !in done && Accounts(call, p, done)
    ensures Accounts(call, after, done + iset{RoutingAxis})
  {
    if !call.patch.level.Set? {
      LevelIsTheOneBefore(call, p);
    }
    var level := if call.patch.level.Set? then Some(call.patch.level.value) else p.accepted.level;
    if level.Some? && !call.profile.supports(level.value, call.patch.routing.value) {
      RejectingAccounts(call, p, done, RoutingAxis, RefusedByHarness);
      return Rejecting(call, p, RoutingAxis, RefusedByHarness);
    }
    ApplyingAccounts(call, p, done, RoutingAxis);
    return Applying(call, p, RoutingAxis);
  }

  /** Everything settled once the axes and the first `k` native changes were gone through. */
  ghost function SettledSoFar(patch: Patch, reserved: set<string>, axes: nat, k: nat): iset<Setting>
    requires k <= |patch.native|
  {
    SettledAtOnce(patch, reserved) + SettledAxes(patch, axes) + SettledNatives(patch, k)
  }

  /** One of the two axes has been gone through, or both, and only their own writes were sent. */
  ghost predicate AxesSettled(call: Call, p: Progress, reserved: set<string>, axes: nat) {
    && axes <= 2 && Accounts(call, p, SettledSoFar(call.patch, reserved, axes, 0))
    && (axes == 0 ==> p.sent == [])
    && (axes == 1 ==> |p.sent| == AxisPlace(p.log, EffortAxis))
  }

  /** Goes through one axis, which the patch may leave alone. */
  method SettleAxisIfSet(call: Call, p: Progress, ghost reserved: set<string>, axes: nat) returns (report: Report)
    requires axes < 2 && AxesSettled(call, p, reserved, axes)
    ensures report.Settled? ==> AxesSettled(call, report.progress, reserved, axes + 1)
    ensures !report.Settled? ==> Reported(call, report, SettledSoFar(call.patch, reserved, axes, 0))
  {
    ghost var done := SettledSoFar(call.patch, reserved, axes, 0);
    var setting := AXES[axes];
    AxisSettles(call.patch, reserved, axes);
    AxisInPlace(call, p, done, reserved, axes);
    if Sets(call.patch, setting) {
      report := SettleAxis(call, p, setting, done);
    } else {
      report := Settled(p);
    }
  }

  /** Goes through the model and then the effort. */
  method SettleAxes(call: Call, start: Progress, ghost reserved: set<string>)
    returns (report: Report, ghost done: iset<Setting>)
    requires AxesSettled(call, start, reserved, 0)
    ensures Reported(call, report, done) && done <= SettledSoFar(call.patch, reserved, 2, 0)
    ensures report.Settled? ==> done == SettledSoFar(call.patch, reserved, 2, 0)
  {
    report, done := Settled(start), SettledSoFar(call.patch, reserved, 0, 0);
    var axes := 0;
    while axes < 2
      invariant 0 <= axes <= 2 && done == SettledSoFar(call.patch, reserved, axes, 0)
      invariant report.Settled? && AxesSettled(call, report.progress, reserved, axes)
    {
      report := SettleAxisIfSet(call, report.progress, reserved, axes);
      if !report.Settled? {
        AxesGrow(call.patch, reserved, axes);
        return;
      }
      axes := axes + 1;
      done := SettledSoFar(call.patch, reserved, axes, 0);
    }
  }

  lemma AxisSettles(patch: Patch, reserved: set<string>, axes: nat)
    requires axes < 2
    ensures Sets(patch, AXES[axes]) ==>
      && AXES[axes] !in SettledSoFar(patch, reserved, axes, 0)
      && SettledSoFar(patch, reserved, axes + 1, 0) == SettledSoFar(patch, reserved, axes, 0) + iset{AXES[axes]}
    ensures !Sets(patch, AXES[axes]) ==>
      SettledSoFar(patch, reserved, axes + 1, 0) == SettledSoFar(patch, reserved, axes, 0)
  {
  }

  lemma AxisInPlace(call: Call, p: Progress, done: iset<Setting>, reserved: set<string>, axes: nat)
    requires axes < 2 && done == SettledSoFar(call.patch, reserved, axes, 0)
    requires AxesSettled(call, p, reserved, axes)
    ensures InPlace(call.patch, p.log, p.sent, AXES[axes])
    ensures axes == 0 && !Sets(call.patch, ModelAxis) ==> !IsApplied(p.log, ModelAxis)
  {
    if axes == 0 && Sets(call.patch, EffortAxis) {
      assert EffortAxis !in done;
      assert TimesSettled(p.log, EffortAxis) == 0;
      TimesZero(p.log, EffortAxis);
    }
  }

  lemma AxesGrow(patch: Patch, reserved: set<string>, axes: nat)
    requires axes < 2
    ensures SettledSoFar(patch, reserved, axes, 0) <= SettledSoFar(patch, reserved, 2, 0)
  {
  }

  /** Goes through the native changes in the order the patch lists them. */
  method SettleNatives(call: Call, start: Progress, reserved: set<string>)
    returns (report: Report, ghost done: iset<Setting>)
    requires call.patch.Distinct() && (forall id <- reserved :: NativeChangeOf(call.patch, id).Set?)
    requires Accounts(call, start, SettledSoFar(call.patch, reserved, 2, 0))
    ensures Reported(call, report, done)
    ensures done <= SettledSoFar(call.patch, reserved, 2, |call.patch.native|)
    ensures report.Settled? ==> done == SettledSoFar(call.patch, reserved, 2, |call.patch.native|)
  {
    report, done := Settled(start), SettledSoFar(call.patch, reserved, 2, 0);
    var patch := call.patch;
    var k := 0;
    while k < |patch.native|
      invariant 0 <= k <= |patch.native|
      invariant done == SettledSoFar(patch, reserved, 2, k)
      invariant report.Settled? && Accounts(call, report.progress, done)
    {
      var id, change := patch.native[k].id, patch.native[k].change;
      NativeSettles(patch, reserved, k);
      if change.Set? && id !in reserved {
        report := SettleNative(call, report.progress, id, change.value, done);
        if !report.Settled? {
          return;
        }
        done := done + iset{Native(id)};
      }
      k := k + 1;
    }
  }

  lemma NativeSettles(patch: Patch, reserved: set<string>, k: nat)
    requires patch.Distinct() && k < |patch.native| && forall id <- reserved :: NativeChangeOf(patch, id).Set?
    ensures var id, change := patch.native[k].id, patch.native[k].change;
      && change == NativeChangeOf(patch, id)
      && (change.Set? && id !in reserved ==>
            && Native(id) !in SettledSoFar(patch, reserved, 2, k)
            && SettledSoFar(patch, reserved, 2, k + 1) == SettledSoFar(patch, reserved, 2, k) + iset{Native(id)})
      && (!change.Set? || id in reserved ==>
            SettledSoFar(patch, reserved, 2, k + 1) == SettledSoFar(patch, reserved, 2, k))
    ensures SettledSoFar(patch, reserved, 2, k) <= SettledSoFar(patch, reserved, 2, |patch.native|)
  {
    ListedChange(patch.native, k);
    var id := patch.native[k].id;
    assert !ListedBefore(patch, k, id);
    assert forall other :: ListedBefore(patch, k + 1, other) <==> ListedBefore(patch, k, other) || other == id;
  }

  /** The two permission axes come last. */
  method SettlePermissions(call: Call, start: Progress, ghost settled: iset<Setting>)
    returns (report: Report, ghost done: iset<Setting>)
    requires Accounts(call, start, settled)
    requires forall setting :: setting in settled <==>
      Mentions(call.patch, setting) && !(Sets(call.patch, setting) && (setting.LevelAxis? || setting.RoutingAxis?))
    ensures Reported(call, report, done) && forall setting <- done :: Mentions(call.patch, setting)
    ensures report.Settled? ==> forall setting :: setting in done <==> Mentions(call.patch, setting)
  {
    report, done := Settled(start), settled;
    if call.patch.level.Set? {
      report := SettleLevel(call, start, done);
      if !report.Settled? {
        return;
      }
      done := done + iset{LevelAxis};
    }
    if call.patch.routing.Set? {
      var p := SettleRouting(call, report.progress, done);
      report, done := Settled(p), done + iset{RoutingAxis};
    }
  }

  lemma AllButPermissions(patch: Patch, reserved: set<string>, setting: Setting)
    requires forall id <- reserved :: NativeChangeOf(patch, id).Set?
    ensures setting in SettledSoFar(patch, reserved, 2, |patch.native|) <==>
      Mentions(patch, setting) && !(Sets(patch, setting) && (setting.LevelAxis? || setting.RoutingAxis?))
  {
    AllAreListed(patch);
  }

  /** What was settled was mentioned; and when the patch ran to its end, all of that was. */
  ghost predicate Covers(call: Call, report: Report, done: iset<Setting>) {
    && Reported(call, report, done)
    && (forall setting <- done :: Mentions(call.patch, setting))
    && (report.Settled? ==> forall setting :: setting in done <==> Mentions(call.patch, setting))
  }

  ghost predicate Accounted(call: Call, report: Report) {
    exists done: iset<Setting> :: Covers(call, report, done)
  }

  /** Settles a patch: resets and semantic targets, then the two axes, the native changes, the permissions. */
  method SettlePatch(call: Call) returns (report: Report)
    requires call.patch.Distinct()
    ensures Accounted(call, report)
  {
    var patch := call.patch;
    var p := RejectResets(call);
    var reserved;
    p, reserved := RejectSemanticTargets(call, p);
    ghost var done;
    assert SettledSoFar(patch, reserved, 0, 0) == SettledAtOnce(patch, reserved);
    report, done := SettleAxes(call, p, reserved);
    if report.Settled? {
      report, done := SettleNatives(call, report.progress, reserved);
    }
    forall setting {
      AllButPermissions(patch, reserved, setting);
    }
    SoFarGrows(patch, reserved);
    if report.Settled? {
      report, done := SettlePermissions(call, report.progress, done);
    }
    assert Covers(call, report, done);
  }

  lemma SoFarGrows(patch: Patch, reserved: set<string>)
    ensures SettledSoFar(patch, reserved, 2, 0) <= SettledSoFar(patch, reserved, 2, |patch.native|)
  {
  }
}
