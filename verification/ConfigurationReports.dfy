/**
  What the account of a configuration patch says to a host: each setting settled once and for a reason, each id
  reported once exactly when no two settings share it, exactly which writes keep to what they may reach while
  catalogs are announced between their check and their submission, and nothing published but what was confirmed.
*/
module ConfigurationReports {
  import opened Prelude
  import opened CatalogOptions
  import opened CatalogOrder
  import opened Configuration

  // Settings.

  /** The log a report ends with: a refused write closes it. */
  function FinalLog(call: Call, report: Report): seq<Entry> {
    match report
    case Settled(p) => p.log
    case RefusedAt(p, w) => p.log + [Logged(call, p, w.setting, Rejected(RefusedByVendor))]
    case FailedAt(p, _) => p.log
  }

  /**
    Every setting the patch mentions is applied or rejected exactly once when it runs to its end, and never
    twice otherwise; and the settings accepted are the ones before, changed at exactly the applied ones.
  */
  lemma EverySettingIsSettledOnce(call: Call, report: Report, setting: Setting)
    requires Accounted(call, report)
    ensures var times := TimesSettled(FinalLog(call, report), setting);
      if report.Settled? then times == if Mentions(call.patch, setting) then 1 else 0
      else times <= if Mentions(call.patch, setting) then 1 else 0
    ensures ChangedAt(call.before, call.patch, report.progress.log, report.progress.accepted)
  {
    var done :| Covers(call, report, done);
    if report.RefusedAt? {
      TimesAppend(
        report.progress.log, Logged(call, report.progress, report.refused.setting, Rejected(RefusedByVendor)), setting);
    }
  }

  /** Whatever is rejected on this side deserves it, under the catalog held when it was come to. */
  lemma RejectionsAreDeserved(call: Call, report: Report, i: nat)
    requires Accounted(call, report) && i < |report.progress.log| && report.progress.log[i].verdict.Rejected?
    ensures var e := report.progress.log[i];
      && e.after <= |report.progress.sent| && e.catalog == Held(SharedAfter(call, report.progress.sent, e.after))
      && Deserves(call, e.setting, e.catalog, e.verdict.why)
  {
    assert EntryFits(call, report.progress.sent, report.progress.log[i]);
  }

  // Values.

  /** A value an option takes: a text that it lists, or for a switch either setting of it. */
  predicate Listed(option: Option_, value: Value) {
    match option.valueType
    case Enumerated => value.Text? && exists i :: 0 <= i < |option.values| && option.values[i] == value
    case BooleanType => value == Boolean(true) || value == Boolean(false)
    case OtherType => false
  }

  lemma TakesWhatIsListed(option: Option_, value: Value)
    ensures Takes(option, value) <==> Listed(option, value)
  {
    if value.Boolean? {
      assert value == Boolean(true) || value == Boolean(false);
    }
  }

  /**
    Whatever was asked of the agent was listed by the option it was asked of, and whatever was turned down for its
    value was not.
  */
  lemma ValuesAreListedIff(call: Call, report: Report, i: nat)
    requires Accounted(call, report)
    ensures i < |report.progress.sent| && !report.progress.sent[i].setting.LevelAxis? ==>
      var w := report.progress.sent[i];
      exists option <- w.catalog :: option.id == w.id && Listed(option, w.value)
    ensures i < |report.progress.log| && report.progress.log[i].verdict == Rejected(UnsupportedValue) ==>
      var e := report.progress.log[i];
      match e.setting
      case Native(id) =>
        && NativeChangeOf(call.patch, id).Set?
        && exists option <- e.catalog :: option.id == id && !Listed(option, NativeChangeOf(call.patch, id).value)
      case _ =>
        && AxisChange(call.patch, e.setting).Set?
        && exists option <- e.catalog ::
             option.id == e.id && !Listed(option, Text(AxisChange(call.patch, e.setting).value))
  {
    var p := report.progress;
    if i < |p.sent| && !p.sent[i].setting.LevelAxis? {
      assert WriteConfirmed(call, p.log, p.sent, i);
      AllowedIsListed(call, p.sent[i]);
    }
    if i < |p.log| && p.log[i].verdict == Rejected(UnsupportedValue) {
      assert EntryFits(call, p.sent, p.log[i]);
      UnsupportedIsUnlisted(call, p.log[i]);
    }
  }

  lemma AllowedIsListed(call: Call, w: Write)
    requires Allowed(call, w) && !w.setting.LevelAxis?
    ensures exists option <- w.catalog :: option.id == w.id && Listed(option, w.value)
  {
    var option := if w.setting.Native? then OptionIn(w.catalog, w.id)
                  else UniqueOptionIn(w.catalog, AxisCategory(w.setting));
    TakesWhatIsListed(option.value, w.value);
    TheFirstOfItsId(w.catalog, w.id, option.value);
    TheOnlyOneOfItsCategory(w.catalog, AxisCategory(w.setting), option.value);
  }

  lemma UnsupportedIsUnlisted(call: Call, e: Entry)
    requires Deserves(call, e.setting, e.catalog, UnsupportedValue)
    requires e.id == ReportedId(call.patch, e.setting, e.catalog)
    ensures match e.setting
      case Native(id) =>
        && NativeChangeOf(call.patch, id).Set?
        && exists option <- e.catalog :: option.id == id && !Listed(option, NativeChangeOf(call.patch, id).value)
      case _ =>
        && AxisChange(call.patch, e.setting).Set?
        && exists option <- e.catalog ::
             option.id == e.id && !Listed(option, Text(AxisChange(call.patch, e.setting).value))
  {
    if e.setting.Native? {
      var option := OptionIn(e.catalog, e.setting.id).value;
      TakesWhatIsListed(option, NativeChangeOf(call.patch, e.setting.id).value);
      TheFirstOfItsId(e.catalog, e.setting.id, option);
    } else {
      var option := UniqueOptionIn(e.catalog, AxisCategory(e.setting)).value;
      TakesWhatIsListed(option, Text(AxisChange(call.patch, e.setting).value));
      TheOnlyOneOfItsCategory(e.catalog, AxisCategory(e.setting), option);
    }
  }

  // Permissions.

  /** The agent confirmed the mode, and was asked for no other. */
  ghost predicate ModeConfirmed(call: Call, sent: seq<Write>, mode: string) {
    exists i: nat :: i < |sent|
      && sent[i].setting.LevelAxis? && sent[i].id == mode && sent[i].value == Text(mode)
      && call.agent(i, sent[i]).Confirmed?
  }

  lemma AppliedIsEarned(call: Call, report: Report, setting: Setting)
    requires Accounted(call, report) && IsApplied(report.progress.log, setting)
    ensures Sets(call.patch, setting) && Earned(call, setting)
  {
    var p := report.progress;
    var i: nat :| i < |p.log| && p.log[i].setting == setting && p.log[i].verdict.Applied?;
    assert EntryFits(call, p.sent, p.log[i]);
  }

  /**
    A level is reported as applied only when the profile supports it with the routing it comes with, and, when it
    has a mode, only after the agent was asked for that mode and confirmed it.
  */
  lemma AppliedLevelsAreEstablished(call: Call, report: Report)
    requires Accounted(call, report) && IsApplied(report.progress.log, LevelAxis)
    ensures var level := call.patch.level.value;
      && call.patch.level.Set? && call.profile.supports(level, RoutingFor(call))
      && (call.profile.modeFor(level).Some? ==>
            ModeConfirmed(call, report.progress.sent, call.profile.modeFor(level).value))
  {
    AppliedIsEarned(call, report, LevelAxis);
    var p := report.progress;
    if call.profile.modeFor(call.patch.level.value).Some? {
      assert IsWritten(call, LevelAxis);
      var i: nat :| i < |p.sent| && p.sent[i].setting == LevelAxis;
      assert WriteConfirmed(call, p.log, p.sent, i);
    }
  }

  /** A routing is reported as applied only when no level in force is unsupported with it. */
  lemma AppliedRoutingsAreEstablished(call: Call, report: Report)
    requires Accounted(call, report) && IsApplied(report.progress.log, RoutingAxis)
    ensures call.patch.routing.Set?
    ensures LevelFor(call).Some? ==> call.profile.supports(LevelFor(call).value, call.patch.routing.value)
  {
    AppliedIsEarned(call, report, RoutingAxis);
  }

  /** A setting that was settled and cannot have deserved a refusal was applied. */
  lemma SettledIsApplied(call: Call, report: Report, setting: Setting)
    requires Accounted(call, report) && report.Settled? && Mentions(call.patch, setting)
    requires forall catalog, why :: !Deserves(call, setting, catalog, why)
    ensures IsApplied(report.progress.log, setting)
  {
    var p := report.progress;
    EverySettingIsSettledOnce(call, report, setting);
    TimesZero(p.log, setting);
    var i: nat :| i < |p.log| && p.log[i].setting == setting;
    assert EntryFits(call, p.sent, p.log[i]);
  }

  /**
    When a patch runs to its end, the level and the routing are applied if and only if they can be established,
    which is told from the patch, the settings before and the profile, before anything is sent.
  */
  lemma PermissionsAreAppliedIff(call: Call, report: Report)
    requires Accounted(call, report) && report.Settled?
    ensures IsApplied(report.progress.log, LevelAxis) <==>
      && call.patch.level.Set?
      && var level := call.patch.level.value;
         && call.profile.supports(level, RoutingFor(call))
         && (call.profile.modeFor(level).Some? ==> call.profile.modeFor(level).value in call.profile.advertised)
    ensures IsApplied(report.progress.log, RoutingAxis) <==>
      && call.patch.routing.Set?
      && (LevelFor(call).Some? ==> call.profile.supports(LevelFor(call).value, call.patch.routing.value))
  {
    var log := report.progress.log;
    if IsApplied(log, LevelAxis) {
      AppliedIsEarned(call, report, LevelAxis);
    } else if call.patch.level.Set? && LevelEstablished(call) {
      SettledIsApplied(call, report, LevelAxis);
    }
    if IsApplied(log, RoutingAxis) {
      AppliedIsEarned(call, report, RoutingAxis);
    } else if call.patch.routing.Set? && RoutingEstablished(call) {
      SettledIsApplied(call, report, RoutingAxis);
    }
  }

  // Reported ids.

  /** How often an id is reported, as applied or as rejected. */
  function TimesReported(log: seq<Entry>, id: string): nat {
    if log == [] then 0
    else TimesReported(log[..|log| - 1], id) + if log[|log| - 1].id == id then 1 else 0
  }

  lemma {:induction false} ReportedTwiceWhen(log: seq<Entry>, id: string)
    ensures TimesReported(log, id) >= 1 <==> exists i :: 0 <= i < |log| && log[i].id == id
    ensures TimesReported(log, id) >= 2 <==> exists i, j :: 0 <= i < j < |log| && log[i].id == id && log[j].id == id
  {
    if log != [] {
      var n := |log| - 1;
      ReportedTwiceWhen(log[..n], id);
      assert forall i :: 0 <= i < n ==> log[..n][i] == log[i];
      if log[n].id == id && TimesReported(log[..n], id) >= 1 {
        var i :| 0 <= i < n && log[i].id == id;
        assert log[n].id == id;
      }
    }
  }

  lemma {:induction false} SettledTwiceWhen(log: seq<Entry>, setting: Setting)
    ensures TimesSettled(log, setting) >= 1 <==> exists i :: 0 <= i < |log| && log[i].setting == setting
    ensures TimesSettled(log, setting) >= 2 <==>
      exists i, j :: 0 <= i < j < |log| && log[i].setting == setting && log[j].setting == setting
  {
    if log != [] {
      var n := |log| - 1;
      SettledTwiceWhen(log[..n], setting);
      assert forall i :: 0 <= i < n ==> log[..n][i] == log[i];
      if log[n].setting == setting && TimesSettled(log[..n], setting) >= 1 {
        var i :| 0 <= i < n && log[i].setting == setting;
        assert log[n].setting == setting;
      }
    }
  }

  /** The model's write, when the patch sets it and nothing on this side refuses it. */
  function ModelWrite(call: Call): Option<Write> {
    var option := UniqueOptionIn(Held(call.start), ModelCategory);
    if !call.patch.model.Set? || option.None? || NativeChangeOf(call.patch, option.value.id).Set? then None
    else if !Takes(option.value, Text(call.patch.model.value)) then None
    else Some(Write(ModelAxis, option.value.id, Text(call.patch.model.value), Held(call.start)))
  }

  /** The catalog held when the effort is come to: the one the call read, or what the model's answer leaves. */
  function HeldForEffort(call: Call): Catalog {
    match ModelWrite(call)
    case None => Held(call.start)
    case Some(w) => Held(Answered(call.start, call.gaps(0), w, call.agent(0, w)))
  }

  /** The same as a report shows it. */
  function ShownForEffort(call: Call, report: Report): Catalog {
    var place := AxisPlace(report.progress.log, EffortAxis);
    Held(if place <= |report.progress.sent| then SharedAfter(call, report.progress.sent, place) else call.start)
  }

  /** When the model was applied, its write was the first, and the one that could be told ahead of the call. */
  lemma AppliedModelWasWritten(call: Call, report: Report)
    requires Accounted(call, report) && IsApplied(report.progress.log, ModelAxis)
    ensures |report.progress.sent| > 0 && ModelWrite(call) == Some(report.progress.sent[0])
  {
    var p := report.progress;
    var i :| 0 <= i < |p.log| && p.log[i].setting == ModelAxis && p.log[i].verdict.Applied?;
    assert EntryFits(call, p.sent, p.log[i]);
    assert p.log[i].after == AxisPlace(p.log, ModelAxis);
    assert WriteConfirmed(call, p.log, p.sent, 0);
  }

  /** When it was not, in a patch that ran to its end, nothing could have been written. */
  lemma UnappliedModelIsUnwritten(call: Call, report: Report)
    requires Accounted(call, report) && report.Settled? && !IsApplied(report.progress.log, ModelAxis)
    ensures ModelWrite(call).None?
  {
    var p := report.progress;
    if call.patch.model.Set? {
      EverySettingIsSettledOnce(call, report, ModelAxis);
      SettledTwiceWhen(p.log, ModelAxis);
      var i :| 0 <= i < |p.log| && p.log[i].setting == ModelAxis;
      RejectionsAreDeserved(call, report, i);
      assert p.log[i].after == AxisPlace(p.log, ModelAxis);
    }
  }

  lemma TheEffortsCatalogIsKnown(call: Call, report: Report)
    requires Accounted(call, report) && report.Settled?
    ensures ShownForEffort(call, report) == HeldForEffort(call)
  {
    if IsApplied(report.progress.log, ModelAxis) {
      AppliedModelWasWritten(call, report);
      assert SharedAfter(call, report.progress.sent, 0) == call.start;
    } else {
      UnappliedModelIsUnwritten(call, report);
    }
  }

  /** The id each setting is reported under, from the patch and the catalogs held when the axes are come to. */
  function IdOf(patch: Patch, setting: Setting, forModel: Catalog, forEffort: Catalog): string {
    ReportedId(patch, setting, if setting.ModelAxis? then forModel else forEffort)
  }

  /** No two settings of the patch would be reported under one id. */
  ghost predicate ToldApart(patch: Patch, forModel: Catalog, forEffort: Catalog) {
    forall a, b :: Mentions(patch, a) && Mentions(patch, b) && a != b ==>
      IdOf(patch, a, forModel, forEffort) != IdOf(patch, b, forModel, forEffort)
  }

  lemma EntriesAreUnderTheirIds(call: Call, report: Report, i: nat)
    requires Accounted(call, report) && report.Settled? && i < |report.progress.log|
    ensures var e := report.progress.log[i];
      e.id == IdOf(call.patch, e.setting, Held(call.start), HeldForEffort(call))
  {
    var p := report.progress;
    assert EntryFits(call, p.sent, p.log[i]);
    TheEffortsCatalogIsKnown(call, report);
    var e := p.log[i];
    if Axis(e.setting) && Sets(call.patch, e.setting) {
      assert e.after == AxisPlace(p.log, e.setting);
    }
  }

  /**
    A patch that runs to its end reports each id at most once exactly when it mentions no two settings of one
    id: the axes under the option they reach in the catalog held by then, the rest under their own names. Which
    catalogs those are is settled by the call: what it read, and what the agent's answer to the model leaves.
  */
  lemma IdsAreReportedOnceIff(call: Call, report: Report)
    requires Accounted(call, report) && report.Settled?
    ensures (forall id :: TimesReported(report.progress.log, id) <= 1)
      <==> ToldApart(call.patch, Held(call.start), HeldForEffort(call))
  {
    var log := report.progress.log;
    forall setting
      ensures TimesSettled(log, setting) <= if Mentions(call.patch, setting) then 1 else 0
    {
      EverySettingIsSettledOnce(call, report, setting);
    }
    forall i: nat | i < |log|
      ensures log[i].id == IdOf(call.patch, log[i].setting, Held(call.start), HeldForEffort(call))
      ensures Mentions(call.patch, log[i].setting)
      ensures forall j: nat | i < j < |log| :: log[j].setting != log[i].setting
    {
      EntriesAreUnderTheirIds(call, report, i);
      SettledTwiceWhen(log, log[i].setting);
    }
    if ToldApart(call.patch, Held(call.start), HeldForEffort(call)) {
      forall id
        ensures TimesReported(log, id) <= 1
      {
        ReportedTwiceWhen(log, id);
      }
    } else {
      var a, b :| Mentions(call.patch, a) && Mentions(call.patch, b) && a != b
        && IdOf(call.patch, a, Held(call.start), HeldForEffort(call))
           == IdOf(call.patch, b, Held(call.start), HeldForEffort(call));
      SharedIdIsReportedTwice(call, report, a, b);
    }
  }

  /** Where a setting that was mentioned was settled, under the id it shares. */
  lemma SettledUnderItsId(call: Call, report: Report, setting: Setting) returns (i: nat)
    requires Accounted(call, report) && report.Settled? && Mentions(call.patch, setting)
    ensures i < |report.progress.log| && report.progress.log[i].setting == setting
    ensures report.progress.log[i].id == IdOf(call.patch, setting, Held(call.start), HeldForEffort(call))
  {
    var log := report.progress.log;
    EverySettingIsSettledOnce(call, report, setting);
    TimesZero(log, setting);
    i :| i < |log| && log[i].setting == setting;
    EntriesAreUnderTheirIds(call, report, i);
  }

  lemma SharedIdIsReportedTwice(call: Call, report: Report, a: Setting, b: Setting)
    requires Accounted(call, report) && report.Settled?
    requires Mentions(call.patch, a) && Mentions(call.patch, b) && a != b
    requires IdOf(call.patch, a, Held(call.start), HeldForEffort(call))
      == IdOf(call.patch, b, Held(call.start), HeldForEffort(call))
    ensures TimesReported(report.progress.log, IdOf(call.patch, a, Held(call.start), HeldForEffort(call))) >= 2
  {
    var i := SettledUnderItsId(call, report, a);
    var j := SettledUnderItsId(call, report, b);
    TwoPlacesAreTwice(report.progress.log, i, j);
  }

  lemma TwoPlacesAreTwice(log: seq<Entry>, i: nat, j: nat)
    requires i < |log| && j < |log| && i != j && log[i].id == log[j].id
    ensures TimesReported(log, log[i].id) >= 2
  {
    ReportedTwiceWhen(log, log[i].id);
    if i > j {
      assert log[j].id == log[i].id;
    }
  }

  /**
    A patch that sets the model and resets, natively, the very option the model reaches is reported under that
    option's id twice: whatever becomes of the model, and as a reset that is not supported.
  */
  lemma ResettingTheModelsOwnOptionIsReportedTwice(call: Call, report: Report, id: string)
    requires Accounted(call, report) && report.Settled?
    requires call.patch.model.Set? && NativeChangeOf(call.patch, id).Reset?
    requires UniqueOptionIn(Held(call.start), ModelCategory).Some?
    requires UniqueOptionIn(Held(call.start), ModelCategory).value.id == id
    ensures TimesReported(report.progress.log, id) >= 2
    ensures !ToldApart(call.patch, Held(call.start), HeldForEffort(call))
  {
    assert IdOf(call.patch, ModelAxis, Held(call.start), HeldForEffort(call)) == id;
    assert Mentions(call.patch, ModelAxis) && Mentions(call.patch, Native(id));
    SharedIdIsReportedTwice(call, report, ModelAxis, Native(id));
  }

  // Catalogs.

  /** What a call may begin with: a state some run reached, in which it has just read the catalog. */
  ghost predicate Begins(call: Call) {
    JustRead(call.start)
  }

  /** What is held is the catalog installed last, or an answer that nothing was installed ahead of. */
  ghost predicate JustRead(s: State) {
    Ordered(s) && s.carried.Some? && s.revision == s.carried.value.revision
  }

  /** What other tasks do leaves what the call carries, and only adds to what was installed. */
  lemma {:induction false} ElapseKeeps(s: State, steps: seq<CatalogOrder.Step>)
    requires Ordered(s)
    ensures var after := Elapse(s, steps);
      Ordered(after) && after.carried == s.carried && s.installs <= after.installs && s.requests <= after.requests
  {
    if steps != [] {
      var n := |steps| - 1;
      ElapseKeeps(s, steps[..n]);
      if ByOthers(steps[n]) {
        StepOrdered(Elapse(s, steps[..n]), steps[n]);
      }
    }
  }

  lemma AnsweredOrdered(s: State, gap: Gap, w: Write, answer: Answer)
    requires Ordered(s) && s.carried.Some?
    ensures Ordered(Answered(s, gap, w, answer)) && Answered(s, gap, w, answer).carried.Some?
    ensures answer.Confirmed? && !w.setting.LevelAxis? ==> JustRead(Answered(s, gap, w, answer))
  {
    var at := Submitted(s, gap);
    ElapseKeeps(s, gap.before);
    if w.setting.LevelAxis? {
      ElapseKeeps(at, gap.during);
    } else {
      StepOrdered(at, Submit);
      var submitted := CatalogOrder.Next(at, Submit);
      ElapseKeeps(submitted, gap.during);
      var later := Elapse(submitted, gap.during);
      if answer.Confirmed? {
        StepOrdered(later, AnswerOption(|at.requests|, answer.catalog));
        assert later.requests[..|submitted.requests|] == submitted.requests;
      }
    }
  }

  lemma {:induction false} SharedOrdered(call: Call, sent: seq<Write>, k: nat)
    requires Begins(call) && k <= |sent|
    ensures Ordered(SharedAfter(call, sent, k)) && SharedAfter(call, sent, k).carried.Some?
  {
    if k > 0 {
      SharedOrdered(call, sent, k - 1);
      AnsweredOrdered(
        SharedAfter(call, sent, k - 1), call.gaps(k - 1), sent[k - 1], call.agent(k - 1, sent[k - 1]));
    }
  }

  /** Until a mode is sent, each answer leaves the call holding what it has just read. */
  lemma {:induction false} SharedJustRead(call: Call, sent: seq<Write>, k: nat)
    requires Begins(call) && k <= |sent|
    requires forall i: nat | i < k :: call.agent(i, sent[i]).Confirmed? && !sent[i].setting.LevelAxis?
    ensures JustRead(SharedAfter(call, sent, k))
  {
    if k > 0 {
      SharedJustRead(call, sent, k - 1);
      AnsweredOrdered(
        SharedAfter(call, sent, k - 1), call.gaps(k - 1), sent[k - 1], call.agent(k - 1, sent[k - 1]));
    }
  }

  /** Every write that was submitted: the confirmed ones, and one the report was cut short by. */
  function Submissions(report: Report): seq<Write> {
    match report
    case Settled(p) => p.sent
    case RefusedAt(p, w) => p.sent + [w]
    case FailedAt(p, w) => p.sent + [w]
  }

  /** What the `i`th request of a call is checked against, and what it finds when it is submitted. */
  function CheckedIn(call: Call, sent: seq<Write>, i: nat): State
    requires i < |sent|
  {
    SharedAfter(call, sent, i)
  }

  function FoundBy(call: Call, sent: seq<Write>, i: nat): State
    requires i < |sent|
  {
    Submitted(CheckedIn(call, sent, i), call.gaps(i))
  }

  /** What was installed since the catalog a call holds was read, or was answered. */
  function NewerThanHeld(s: State): seq<Install> {
    if s.carried.Some? && s.carried.value.revision <= |s.installs| then s.installs[s.carried.value.revision..] else []
  }

  /** The catalog in force for a call: the last installed since, or else the one it holds. */
  function InForceFor(s: State): Catalog {
    var newer := NewerThanHeld(s);
    if newer == [] then Held(s) else newer[|newer| - 1].catalog
  }

  // What other tasks install meanwhile.

  /** Whether a step of another task installs a catalog in this state. */
  predicate Installs(s: State, step: CatalogOrder.Step) {
    match step
    case Notify(_) => true
    case Abandon => true
    case AnswerLifecycle(r, _) => r < |s.requests| && s.revision == s.requests[r].baseline
    case _ => false
  }

  /** The last of these steps that installs a catalog. */
  function LastInstalled(s: State, steps: seq<CatalogOrder.Step>): Option<CatalogOrder.Step> {
    if steps == [] then None
    else
      var n := |steps| - 1;
      if Installs(Elapse(s, steps[..n]), steps[n]) then Some(steps[n]) else LastInstalled(s, steps[..n])
  }

  /** The catalog such a step installs; an abandoned session leaves an empty one. */
  function Installing(step: CatalogOrder.Step): Catalog {
    match step
    case Notify(catalog) => catalog
    case AnswerLifecycle(_, catalog) => catalog
    case _ => EMPTY_CATALOG
  }

  /** Whether the agent says which catalog it is. */
  predicate Announces(step: CatalogOrder.Step) {
    step.Notify? || step.AnswerLifecycle?
  }

  predicate SameStep(a: CatalogOrder.Step, b: CatalogOrder.Step) {
    match a
    case Notify(_) => b.Notify?
    case AnswerLifecycle(r, _) => b.AnswerLifecycle? && b.request == r
    case _ => a == b
  }

  /** The same steps of other tasks, with whatever catalogs the agent announces in them. */
  predicate SameSteps(a: seq<CatalogOrder.Step>, b: seq<CatalogOrder.Step>) {
    |a| == |b| && forall i :: 0 <= i < |a| ==> SameStep(a[i], b[i])
  }

  function Announcing(steps: seq<CatalogOrder.Step>, catalog: Catalog): seq<CatalogOrder.Step> {
    if steps == [] then []
    else
      var n := |steps| - 1;
      Announcing(steps[..n], catalog)
      + [match steps[n]
         case Notify(_) => Notify(catalog)
         case AnswerLifecycle(r, _) => AnswerLifecycle(r, catalog)
         case step => step]
  }

  lemma {:induction false} AnnouncingIsTheSame(steps: seq<CatalogOrder.Step>, catalog: Catalog)
    ensures SameSteps(steps, Announcing(steps, catalog))
    ensures forall step <- Announcing(steps, catalog) :: Announces(step) ==> Installing(step) == catalog
  {
    if steps != [] {
      AnnouncingIsTheSame(steps[..|steps| - 1], catalog);
    }
  }

  /** Which steps install does not depend on the catalogs they announce. */
  lemma {:induction false} SameStepsInstallAlike(s: State, a: seq<CatalogOrder.Step>, b: seq<CatalogOrder.Step>)
    requires SameSteps(a, b)
    ensures Elapse(s, a).revision == Elapse(s, b).revision && Elapse(s, a).requests == Elapse(s, b).requests
    ensures |Elapse(s, a).installs| == |Elapse(s, b).installs|
    ensures LastInstalled(s, a).Some? <==> LastInstalled(s, b).Some?
    ensures LastInstalled(s, a).Some? ==> SameStep(LastInstalled(s, a).value, LastInstalled(s, b).value)
  {
    if a != [] {
      var n := |a| - 1;
      SameStepsInstallAlike(s, a[..n], b[..n]);
      assert SameStep(a[n], b[n]);
    }
  }

  /** The steps leave the catalog the last of them installed, if any did. */
  lemma {:induction false} ElapseInstalls(s: State, steps: seq<CatalogOrder.Step>)
    ensures var after := Elapse(s, steps);
      && s.installs <= after.installs
      && (LastInstalled(s, steps).None? ==> after.installs == s.installs)
      && (LastInstalled(s, steps).Some? ==>
            && |after.installs| > |s.installs|
            && after.installs[|after.installs| - 1].catalog == Installing(LastInstalled(s, steps).value)
            && LastInstalled(s, steps).value in steps)
  {
    if steps != [] {
      ElapseInstalls(s, steps[..|steps| - 1]);
    }
  }

  /** What is in force once the steps were taken: what the last of them installed, or what was just read. */
  lemma InForceAfter(s: State, steps: seq<CatalogOrder.Step>)
    requires JustRead(s)
    ensures var last := LastInstalled(s, steps);
      InForceFor(Elapse(s, steps)) == if last.Some? then Installing(last.value) else Held(s)
    ensures Elapse(s, steps).carried == s.carried
    ensures LastInstalled(s, steps).None? <==> Elapse(s, steps).revision == s.carried.value.revision
  {
    ElapseKeeps(s, steps);
    ElapseInstalls(s, steps);
  }

  // What a write reaches.

  /** Whether the option is the model, the effort or the mode. */
  predicate ReachesSemantic(id: string, catalog: Catalog) {
    OptionIn(catalog, id).Some? && Semantic(OptionIn(catalog, id).value.category)
  }

  /** A catalog in which the option is the model. */
  function LosingCatalog(id: string): Catalog {
    [Option_(id, ModelCategory, Enumerated, [])]
  }

  /** Whatever catalogs the agent announces in these steps, the write reaches no semantic option. */
  ghost predicate SureToKeepOff(s: State, steps: seq<CatalogOrder.Step>, id: string) {
    forall other | SameSteps(steps, other) :: !ReachesSemantic(id, InForceFor(Elapse(s, other)))
  }

  /** Whatever catalogs the agent announces in these steps, the write is allowed under the one in force. */
  ghost predicate SureToBeAllowed(call: Call, s: State, steps: seq<CatalogOrder.Step>, w: Write) {
    forall other | SameSteps(steps, other) :: AllowedIn(call.patch, call.profile, w, InForceFor(Elapse(s, other)))
  }

  /** The last catalog installed in these steps is one the agent announced. */
  predicate EndsAnnounced(s: State, steps: seq<CatalogOrder.Step>) {
    LastInstalled(s, steps).Some? && Announces(LastInstalled(s, steps).value)
  }

  lemma NativeKeepsOffIff(s: State, steps: seq<CatalogOrder.Step>, id: string)
    requires JustRead(s) && !ReachesSemantic(id, Held(s))
    ensures SureToKeepOff(s, steps, id) <==> !EndsAnnounced(s, steps)
  {
    if EndsAnnounced(s, steps) {
      var losing := Announcing(steps, LosingCatalog(id));
      AnnouncingIsTheSame(steps, LosingCatalog(id));
      SameStepsInstallAlike(s, steps, losing);
      ElapseInstalls(s, losing);
      InForceAfter(s, losing);
      assert OptionIn(LosingCatalog(id), id) == Some(LosingCatalog(id)[0]);
      assert ReachesSemantic(id, InForceFor(Elapse(s, losing)));
    } else {
      forall other | SameSteps(steps, other)
        ensures !ReachesSemantic(id, InForceFor(Elapse(s, other)))
      {
        SameStepsInstallAlike(s, steps, other);
        InForceAfter(s, other);
      }
    }
  }

  lemma NothingIsAllowedWithoutOptions(call: Call, w: Write)
    requires NeedsAWrite(w.setting)
    ensures !AllowedIn(call.patch, call.profile, w, EMPTY_CATALOG)
  {
  }

  lemma StaysAllowedIff(call: Call, s: State, steps: seq<CatalogOrder.Step>, w: Write)
    requires JustRead(s) && NeedsAWrite(w.setting) && AllowedIn(call.patch, call.profile, w, Held(s))
    ensures SureToBeAllowed(call, s, steps, w) <==> LastInstalled(s, steps).None?
    ensures AllowedIn(call.patch, call.profile, w, InForceFor(Elapse(s, steps))) <==>
      var last := LastInstalled(s, steps);
      last.None? || AllowedIn(call.patch, call.profile, w, Installing(last.value))
  {
    InForceAfter(s, steps);
    if LastInstalled(s, steps).Some? {
      var empty := Announcing(steps, EMPTY_CATALOG);
      AnnouncingIsTheSame(steps, EMPTY_CATALOG);
      SameStepsInstallAlike(s, steps, empty);
      ElapseInstalls(s, empty);
      InForceAfter(s, empty);
      NothingIsAllowedWithoutOptions(call, w);
      assert !AllowedIn(call.patch, call.profile, w, InForceFor(Elapse(s, empty)));
    } else {
      forall other | SameSteps(steps, other)
        ensures AllowedIn(call.patch, call.profile, w, InForceFor(Elapse(s, other)))
      {
        SameStepsInstallAlike(s, steps, other);
        InForceAfter(s, other);
      }
    }
  }

  /** Whatever was submitted, the last of it refused or failed perhaps, was allowed by what the call had just read. */
  lemma SubmissionsWereChecked(call: Call, report: Report, i: nat)
    requires Accounted(call, report) && Begins(call) && i < |Submissions(report)|
    ensures var w := Submissions(report)[i];
      var s := CheckedIn(call, Submissions(report), i);
      JustRead(s) && w.catalog == Held(s) && Allowed(call, w)
  {
    var p, submitted := report.progress, Submissions(report);
    ConfirmedBefore(call, report, i);
    assert submitted == p.sent + submitted[|p.sent|..];
    SharedBefore(call, p.sent, submitted[|p.sent|..], i);
    SharedJustRead(call, p.sent, i);
    if i < |p.sent| {
      SentWasAllowed(call, report, i);
    } else {
      CutShortWasAllowed(call, report);
    }
  }

  lemma SentWasAllowed(call: Call, report: Report, i: nat)
    requires Accounted(call, report) && i < |report.progress.sent|
    ensures var w := report.progress.sent[i];
      w.catalog == Held(SharedAfter(call, report.progress.sent, i)) && Allowed(call, w)
  {
    assert WriteConfirmed(call, report.progress.log, report.progress.sent, i);
  }

  lemma ConfirmedBefore(call: Call, report: Report, i: nat)
    requires Accounted(call, report) && i < |Submissions(report)|
    ensures i <= |report.progress.sent| <= |Submissions(report)|
    ensures forall j: nat | j < |report.progress.sent| :: Submissions(report)[j] == report.progress.sent[j]
    ensures forall j: nat | j < i ::
      call.agent(j, report.progress.sent[j]).Confirmed? && !report.progress.sent[j].setting.LevelAxis?
  {
    var p := report.progress;
    var done :| Covers(call, report, done);
    forall j: nat | j < i
      ensures call.agent(j, p.sent[j]).Confirmed? && !p.sent[j].setting.LevelAxis?
    {
      assert WriteConfirmed(call, p.log, p.sent, j);
    }
  }

  lemma CutShortWasAllowed(call: Call, report: Report)
    requires Accounted(call, report) && !report.Settled?
    ensures var w := Submissions(report)[|report.progress.sent|];
      w.catalog == Held(SharedAfter(call, report.progress.sent, |report.progress.sent|)) && Allowed(call, w)
  {
  }

  /**
    Every write submitted was checked against the catalog the call had just read. Meanwhile other tasks install
    what they will. A native write is sure to reach neither the model, the effort nor the mode, whatever is
    announced, exactly when the last catalog installed before its submission is none the agent announced; it is
    sure to be allowed exactly when none was installed, which the revision tells; and it is allowed under the
    catalog in force exactly when none was, or the last of them allows it.
  */
  lemma WritesKeepToTheirReachIff(call: Call, report: Report, i: nat)
    requires Accounted(call, report) && Begins(call) && i < |Submissions(report)|
    ensures var w := Submissions(report)[i];
      var s, steps := CheckedIn(call, Submissions(report), i), call.gaps(i).before;
      var found, last := FoundBy(call, Submissions(report), i), LastInstalled(s, steps);
      && found == Elapse(s, steps) && w.catalog == Held(s) && Allowed(call, w)
      && (w.setting.Native? ==> (SureToKeepOff(s, steps, w.id) <==> !EndsAnnounced(s, steps)))
      && (NeedsAWrite(w.setting) ==> (SureToBeAllowed(call, s, steps, w) <==> last.None?))
      && (NeedsAWrite(w.setting) ==>
            (AllowedIn(call.patch, call.profile, w, InForceFor(found)) <==>
              last.None? || AllowedIn(call.patch, call.profile, w, Installing(last.value))))
      && (last.None? <==> found.carried.Some? && found.revision == found.carried.value.revision)
  {
    var w := Submissions(report)[i];
    var s, steps := CheckedIn(call, Submissions(report), i), call.gaps(i).before;
    SubmissionsWereChecked(call, report, i);
    InForceAfter(s, steps);
    ElapseKeeps(s, steps);
    if NeedsAWrite(w.setting) {
      StaysAllowedIff(call, s, steps, w);
    }
    if w.setting.Native? {
      NativeKeepsOffIff(s, steps, w.id);
    }
  }

  // A write that a notification outran.

  const ON := Text("on")

  /** One option, first announced as something of the agent's own and then as the model. */
  const PLAIN: Catalog := [Option_("x", OtherCategory("custom"), Enumerated, [ON])]
  const AS_MODEL: Catalog := [Option_("x", ModelCategory, Enumerated, [ON])]

  const ONE_NATIVE := Patch(Keep, Keep, Keep, Keep, [NativeChange("x", Set(ON))])

  const NOTHING_SET := Settings(None, None, None, None, map[])

  /** The catalog is announced anew between the check and the request, and the agent confirms what it gets. */
  function Outrun(): Call {
    Call(
      ONE_NATIVE, Profile((level: Level, routing: Routing) => true, (level: Level) => None, {}),
      (n: nat, w: Write) => Confirmed(w.catalog), (n: nat) => Gap([Notify(AS_MODEL)], []),
      NOTHING_SET, Run([Notify(PLAIN)] + [StartPatch]))
  }

  lemma OutrunBegins()
    ensures Begins(Outrun()) && Held(Outrun().start) == PLAIN
    ensures Outrun().start == State(1, PLAIN, [], Some(Carried(Snapshot, PLAIN, 1)), [Install(Notification, PLAIN)])
  {
    RunOrdered([Notify(PLAIN)] + [StartPatch]);
    assert ([Notify(PLAIN)] + [StartPatch])[..1] == [Notify(PLAIN)];
    assert Run([Notify(PLAIN)]) == State(1, PLAIN, [], None, [Install(Notification, PLAIN)]) by {
      assert [Notify(PLAIN)][..0] == [];
      assert [] + [Install(Notification, PLAIN)] == [Install(Notification, PLAIN)];
    }
  }

  lemma OnlyXIsMentioned(setting: Setting)
    ensures Mentions(ONE_NATIVE, setting) <==> setting == Native("x")
    ensures NativeChangeOf(ONE_NATIVE, "x") == Set(ON) && ONE_NATIVE.Distinct()
  {
    var native := ONE_NATIVE.native;
    assert |native| == 1 && native[0] == NativeChange("x", Set(ON)) && native[1..] == [];
    if setting.Native? && setting.id != "x" {
      assert NativeChangeIn(native, setting.id) == NativeChangeIn([], setting.id);
    }
  }

  /** It is found while nothing of it was sent, under the catalog in which it may be written. */
  lemma XIsNotRejected(report: Report, i: nat)
    requires Accounted(Outrun(), report) && i < |report.progress.log| && report.progress.sent == []
    ensures report.progress.log[i].setting == Native("x") ==> report.progress.log[i].verdict.Applied?
  {
    OutrunBegins();
    OnlyXIsMentioned(Native("x"));
    assert OptionIn(PLAIN, "x") == Some(PLAIN[0]) && ON in PLAIN[0].values;
    if report.progress.log[i].setting == Native("x") && report.progress.log[i].verdict.Rejected? {
      RejectionsAreDeserved(Outrun(), report, i);
      assert false;
    }
  }

  lemma FirstTwoDiffer(call: Call, log: seq<Entry>, sent: seq<Write>)
    requires WritesConfirmed(call, log, sent)
    ensures |sent| > 1 ==> sent[0].setting != sent[1].setting
  {
  }

  lemma OnlyXIsWritten(report: Report)
    requires Accounted(Outrun(), report)
    ensures report.Settled? && |report.progress.sent| <= 1
    ensures forall w <- report.progress.sent :: w.setting == Native("x")
  {
    var call, p := Outrun(), report.progress;
    var done :| Covers(call, report, done);
    forall i: nat | i < |p.sent|
      ensures p.sent[i].setting == Native("x")
    {
      assert WriteConfirmed(call, p.log, p.sent, i);
      OnlyXIsMentioned(p.sent[i].setting);
    }
    FirstTwoDiffer(call, p.log, p.sent);
  }

  /** Whatever the report, the write was sent. */
  lemma XIsWritten(report: Report)
    requires Accounted(Outrun(), report)
    ensures |report.progress.sent| == 1 && report.progress.sent[0].setting == Native("x")
  {
    var p := report.progress;
    OnlyXIsWritten(report);
    if p.sent == [] {
      OnlyXIsMentioned(Native("x"));
      EverySettingIsSettledOnce(Outrun(), report, Native("x"));
      SettledTwiceWhen(p.log, Native("x"));
      var i :| 0 <= i < |p.log| && p.log[i].setting == Native("x");
      XIsNotRejected(report, i);
      AppliedNeedsAWrite(Outrun(), report, Native("x"), i);
    }
  }

  lemma AppliedNeedsAWrite(call: Call, report: Report, setting: Setting, i: nat)
    requires Accounted(call, report) && i < |report.progress.log| && NeedsAWrite(setting)
    requires report.progress.log[i].setting == setting && report.progress.log[i].verdict.Applied?
    ensures report.progress.sent != []
  {
    assert IsApplied(report.progress.log, setting);
  }

  /**
    Between the check and the submission the option became the model, and the native write goes to it all the
    same: the last catalog installed meanwhile is one the agent announced.
  */
  lemma ANotificationCanOutrunAWrite(report: Report)
    requires Accounted(Outrun(), report)
    ensures |report.progress.sent| == 1 && report.progress.sent[0].setting == Native("x")
    ensures var found := FoundBy(Outrun(), report.progress.sent, 0);
      && found.carried.Some? && found.revision != found.carried.value.revision
      && ReachesSemantic("x", InForceFor(found))
  {
    XIsWritten(report);
    OutrunBegins();
    var start, found := Outrun().start, FoundBy(Outrun(), report.progress.sent, 0);
    ElapseOne(start, Notify(AS_MODEL));
    assert found == Elapse(start, [Notify(AS_MODEL)]);
    assert found.installs == [Install(Notification, PLAIN), Install(Notification, AS_MODEL)];
  }

  lemma ElapseOne(s: State, step: CatalogOrder.Step)
    requires ByOthers(step)
    ensures Elapse(s, [step]) == CatalogOrder.Next(s, step)
  {
    assert [step][..0] == [];
  }

  // Publication.

  /** The catalogs once a report was made: as its last answer left them. */
  function SharedAtEnd(call: Call, report: Report): State {
    var p := report.progress;
    match report
    case Settled(_) => p.shared
    case RefusedAt(_, w) => Answered(p.shared, call.gaps(|p.sent|), w, call.agent(|p.sent|, w))
    case FailedAt(_, w) => Answered(p.shared, call.gaps(|p.sent|), w, call.agent(|p.sent|, w))
  }

  datatype Outcome = NotSubmitted | Unpublished(report: Report) | Published(report: Report)

  /** A session as a host sees it: the settings later turns inherit, those shown, and the catalogs. */
  class ConfiguredSession {
    var configuration: Settings
    var shown: Settings
    var shared: State

    ghost predicate Valid()
      reads this
    {
      Ordered(shared)
    }

    constructor (configuration: Settings)
      ensures Valid() && this.configuration == this.shown == configuration
    {
      this.configuration, this.shown := configuration, configuration;
      shared := CatalogOrder.FRESH;
    }

    /**
      Settles a patch and publishes what was confirmed, whichever way it ended, unless the session ended
      meanwhile. What is published is the configuration before, changed at exactly the settings applied; another
      level only when the profile supports it and the agent confirmed its mode, if it has one.
    */
    method ConfigureSession(
      patch: Patch, profile: Profile, agent: Agent, gaps: nat -> Gap, admitted: bool, mayPublish: bool)
      returns (outcome: Outcome, ghost call: Call)
      requires Valid() && patch.Distinct()
      modifies this
      ensures Valid()
      ensures call == Call(
        patch, profile, agent, gaps, old(configuration), CatalogOrder.Next(old(shared), StartPatch))
      ensures outcome.NotSubmitted? <==> !admitted
      ensures outcome.Published? <==> admitted && mayPublish
      ensures !admitted ==> configuration == old(configuration) && shown == old(shown) && shared == old(shared)
      ensures admitted ==> Begins(call) && Accounted(call, outcome.report)
      ensures admitted && mayPublish ==>
        && ChangedAt(old(configuration), patch, outcome.report.progress.log, configuration) && shown == configuration
        && shared == CatalogOrder.Next(SharedAtEnd(call, outcome.report), PublishPatch)
      ensures admitted && !mayPublish ==>
        && configuration == old(configuration) && shown == old(shown)
        && shared == SharedAtEnd(call, outcome.report)
      ensures configuration.level != old(configuration.level) ==>
        && admitted && mayPublish && patch.level == Set(configuration.level.value)
        && profile.supports(configuration.level.value, RoutingFor(call))
        && (profile.modeFor(configuration.level.value).Some? ==>
              ModeConfirmed(call, outcome.report.progress.sent, profile.modeFor(configuration.level.value).value))
    {
      var asked := Call(patch, profile, agent, gaps, configuration, CatalogOrder.Next(shared, StartPatch));
      call := asked;
      if !admitted {
        return NotSubmitted, call;
      }
      StepOrdered(shared, StartPatch);
      var report := SettlePatch(asked);
      EverySettingIsSettledOnce(asked, report, ModelAxis);
      SharedAtEndOrdered(asked, report);
      shared := SharedAtEnd(asked, report);
      if !mayPublish {
        return Unpublished(report), call;
      }
      if IsApplied(report.progress.log, LevelAxis) {
        AppliedLevelsAreEstablished(asked, report);
      }
      configuration := report.progress.accepted;
      shown := configuration;
      StepOrdered(shared, PublishPatch);
      shared := CatalogOrder.Next(shared, PublishPatch);
      return Published(report), call;
    }
  }

  lemma SharedAtEndOrdered(call: Call, report: Report)
    requires Accounted(call, report) && Begins(call)
    ensures Ordered(SharedAtEnd(call, report))
  {
    var p := report.progress;
    SharedOrdered(call, p.sent, |p.sent|);
    if report.RefusedAt? {
      AnsweredOrdered(p.shared, call.gaps(|p.sent|), report.refused, call.agent(|p.sent|, report.refused));
    } else if report.FailedAt? {
      AnsweredOrdered(p.shared, call.gaps(|p.sent|), report.failed, call.agent(|p.sent|, report.failed));
    }
  }
}
