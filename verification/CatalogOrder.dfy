/**
  How complete configuration catalogs from requests and from notifications are ordered: a revision counts
  what was installed, each request is submitted under the revision of that moment, and its response is
  installed only under the same one.
*/
module CatalogOrder {
  import opened Prelude
  import opened CatalogOptions

  const EMPTY_CATALOG: Catalog := []

  datatype Source = Notification | Abandonment | Response(request: nat) | Snapshot

  /** One catalog installed, and where it came from. */
  datatype Install = Install(source: Source, catalog: Catalog)

  /** A request in flight: the revision it was submitted under, and how much was installed by then. */
  datatype Request = Request(baseline: nat, submittedAt: nat)

  /** What a configuration call carries towards its publication. */
  datatype Carried = Carried(source: Source, catalog: Catalog, revision: nat)

  /** The shared state, the requests, and what each configuration call carries. `installs` is history. */
  datatype State = State(
    revision: nat,
    catalog: Catalog,
    requests: seq<Request>,
    carried: Option<Carried>,
    installs: seq<Install>)

  const FRESH := State(0, EMPTY_CATALOG, [], None, [])

  datatype Step =
    | Notify(catalog: Catalog)
    | Abandon
    | Submit
    | AnswerLifecycle(request: nat, catalog: Catalog)
    | StartPatch
    | AnswerOption(request: nat, catalog: Catalog)
    | PublishPatch

  function Installed(s: State, source: Source, catalog: Catalog): State {
    s.(revision := s.revision + 1, catalog := catalog, installs := s.installs + [Install(source, catalog)])
  }

  /** Installs a response's catalog unless another catalog already won the order. */
  function WithResponse(s: State, revision: nat, source: Source, catalog: Catalog): State {
    if s.revision == revision then Installed(s, source, catalog) else s
  }

  function Next(s: State, step: Step): State {
    match step
    case Notify(catalog) => Installed(s, Notification, catalog)
    case Abandon => Installed(s, Abandonment, EMPTY_CATALOG)
    case Submit => s.(requests := s.requests + [Request(s.revision, |s.installs|)])
    case AnswerLifecycle(r, catalog) =>
      if r < |s.requests| then WithResponse(s, s.requests[r].baseline, Response(r), catalog) else s
    case StartPatch => s.(carried := Some(Carried(Snapshot, s.catalog, s.revision)))
    case AnswerOption(r, catalog) =>
      if r >= |s.requests| then s
      else if s.revision != s.requests[r].baseline then s.(carried := Some(Carried(Snapshot, s.catalog, s.revision)))
      else s.(carried := Some(Carried(Response(r), catalog, s.requests[r].baseline)))
    case PublishPatch =>
      if s.carried.None? then s
      else WithResponse(s, s.carried.value.revision, s.carried.value.source, s.carried.value.catalog).(carried := None)
  }

  function Run(steps: seq<Step>): State {
    if steps == [] then FRESH else Next(Run(steps[..|steps| - 1]), steps[|steps| - 1])
  }

  /** The catalog in force after the first `n` installs. */
  function InForce(installs: seq<Install>, n: nat): Catalog
    requires n <= |installs|
  {
    if n == 0 then EMPTY_CATALOG else installs[n - 1].catalog
  }

  /** Whether the `i`th install came straight after its request's submission, or changed nothing. */
  ghost predicate InOrder(s: State, i: nat)
    requires i < |s.installs|
  {
    match s.installs[i].source
    case Response(r) => r < |s.requests| && s.requests[r].submittedAt == i
    case Snapshot => s.installs[i].catalog == InForce(s.installs, i)
    case _ => true
  }

  ghost predicate Ordered(s: State) {
    && s.revision == |s.installs|
    && s.catalog == InForce(s.installs, |s.installs|)
    && (forall request <- s.requests :: request.baseline == request.submittedAt <= |s.installs|)
    && (s.carried.Some? ==>
          var c := s.carried.value;
          && c.revision <= |s.installs|
          && (match c.source
              case Response(r) => r < |s.requests| && s.requests[r].submittedAt == c.revision
              case Snapshot => c.catalog == InForce(s.installs, c.revision)
              case _ => false))
    && (forall i: nat | i < |s.installs| :: InOrder(s, i))
  }

  lemma InstallOrdered(s: State, source: Source, catalog: Catalog)
    requires Ordered(s)
    requires match source
      case Response(r) => r < |s.requests| && s.requests[r].submittedAt == |s.installs|
      case Snapshot => catalog == s.catalog
      case _ => true
    ensures Ordered(Installed(s, source, catalog))
  {
    var after := Installed(s, source, catalog);
    assert after.installs[..|s.installs|] == s.installs;
    forall i: nat | i < |after.installs|
      ensures InOrder(after, i)
    {
      if i < |s.installs| {
        assert InOrder(s, i) && after.installs[i] == s.installs[i];
      }
    }
  }

  lemma StepOrdered(s: State, step: Step)
    requires Ordered(s)
    ensures Ordered(Next(s, step))
  {
    match step {
      case Notify(catalog) => InstallOrdered(s, Notification, catalog);
      case Abandon => InstallOrdered(s, Abandonment, EMPTY_CATALOG);
      case Submit =>
        forall i: nat | i < |s.installs|
          ensures InOrder(Next(s, Submit), i)
        {
          assert InOrder(s, i);
        }
      case AnswerLifecycle(r, catalog) =>
        if r < |s.requests| && s.revision == s.requests[r].baseline {
          assert s.requests[r] in s.requests;
          InstallOrdered(s, Response(r), catalog);
        }
      case PublishPatch =>
        if s.carried.Some? {
          var c := s.carried.value;
          if c.revision == s.revision {
            InstallOrdered(s, c.source, c.catalog);
          }
          DropCarried(WithResponse(s, c.revision, c.source, c.catalog));
        }
      case _ => CarryOrdered(s, step);
    }
  }

  lemma DropCarried(s: State)
    requires Ordered(s)
    ensures Ordered(s.(carried := None))
  {
    forall i: nat | i < |s.installs|
      ensures InOrder(s.(carried := None), i)
    {
      assert InOrder(s, i);
    }
  }

  lemma CarryOrdered(s: State, step: Step)
    requires Ordered(s) && (step.StartPatch? || step.AnswerOption?)
    ensures Ordered(Next(s, step))
  {
    var after := Next(s, step);
    if step.AnswerOption? && step.request < |s.requests| {
      assert s.requests[step.request] in s.requests;
    }
    forall i: nat | i < |s.installs|
      ensures InOrder(after, i)
    {
      assert InOrder(s, i);
    }
  }

  lemma {:induction false} RunOrdered(steps: seq<Step>)
    ensures Ordered(Run(steps))
  {
    if steps != [] {
      var n := |steps| - 1;
      RunOrdered(steps[..n]);
      StepOrdered(Run(steps[..n]), steps[n]);
    }
  }

  /** A run only adds to what was installed and requested. */
  lemma {:induction false} RunsGrow(steps: seq<Step>, more: seq<Step>)
    ensures Run(steps).installs <= Run(steps + more).installs && Run(steps).requests <= Run(steps + more).requests
  {
    if more == [] {
      assert steps + more == steps;
    } else {
      var n := |more| - 1;
      RunsGrow(steps, more[..n]);
      assert (steps + more)[..|steps + more| - 1] == steps + more[..n];
    }
  }

  /**
    A response's catalog is installed only if nothing else was since its request was submitted, whatever
    happened in between: no notification, lifecycle answer, other response or abandoned session.
  */
  lemma ResponsesNeverOverwriteWhatCameSince(before: seq<Step>, between: seq<Step>, step: Step)
    requires var mid := Run(before + [Submit] + between);
      var after := Next(mid, step);
      && |after.installs| == |mid.installs| + 1
      && after.installs[|mid.installs|].source == Response(|Run(before).requests|)
    ensures Run(before + [Submit] + between).installs == Run(before).installs
  {
    var r := |Run(before).requests|;
    var submitted := before + [Submit];
    assert submitted[..|before|] == before;
    RunsGrow(submitted, between);
    var mid := Run(submitted + between);
    RunOrdered(submitted + between);
    StepOrdered(mid, step);
    assert InOrder(Next(mid, step), |mid.installs|);
    StepKeepsRequests(mid, step);
    assert mid.requests[r] == Run(submitted).requests[r];
  }

  /**
    The catalog of a lifecycle answer is in force afterwards, under a new revision, exactly when nothing was
    installed since its request was submitted; otherwise the answer changes nothing.
  */
  lemma LifecycleAnswersAreInstalledIff(before: seq<Step>, between: seq<Step>, catalog: Catalog)
    ensures var r := |Run(before).requests|;
      var mid := Run(before + [Submit] + between);
      var after := Next(mid, AnswerLifecycle(r, catalog));
      if mid.installs == Run(before).installs
      then after == mid.(revision := mid.revision + 1, catalog := catalog,
                         installs := mid.installs + [Install(Response(r), catalog)])
      else after == mid
  {
    var r := |Run(before).requests|;
    var submitted := before + [Submit];
    assert submitted[..|before|] == before;
    RunsGrow(submitted, between);
    RunOrdered(before);
    RunOrdered(submitted + between);
    var mid := Run(submitted + between);
    assert mid.requests[r] == Run(submitted).requests[r];
    assert Run(submitted).installs == Run(before).installs <= mid.installs;
  }

  /** A patch publishes the answer of its last request exactly when nothing was installed since that request. */
  lemma PatchAnswersArePublishedIff(
    before: seq<Step>, between: seq<Step>, catalog: Catalog, meanwhile: seq<Step>)
    requires forall step <- meanwhile :: step.Notify? || step.Abandon? || step.Submit? || step.AnswerLifecycle?
    ensures var r := |Run(before).requests|;
      var answered := Next(Run(before + [Submit] + between), AnswerOption(r, catalog));
      var last := After(answered, meanwhile);
      var published := Next(last, PublishPatch);
      if last.installs == Run(before).installs
      then published.catalog == catalog && published.installs == last.installs + [Install(Response(r), catalog)]
      else published.catalog == last.catalog
  {
    var r := |Run(before).requests|;
    var submitted := before + [Submit];
    assert submitted[..|before|] == before;
    RunsGrow(submitted, between);
    RunOrdered(before);
    RunOrdered(submitted + between);
    var mid := Run(submitted + between);
    assert mid.requests[r] == Run(submitted).requests[r];
    StepOrdered(mid, AnswerOption(r, catalog));
    OthersLeaveCarried(Next(mid, AnswerOption(r, catalog)), meanwhile);
    assert Run(submitted).installs == Run(before).installs <= mid.installs;
  }

  function After(s: State, steps: seq<Step>): State {
    if steps == [] then s else Next(After(s, steps[..|steps| - 1]), steps[|steps| - 1])
  }

  /** What other tasks do leaves what a patch carries. */
  lemma {:induction false} OthersLeaveCarried(s: State, steps: seq<Step>)
    requires Ordered(s)
    requires forall step <- steps :: step.Notify? || step.Abandon? || step.Submit? || step.AnswerLifecycle?
    ensures Ordered(After(s, steps)) && After(s, steps).carried == s.carried
    ensures s.installs <= After(s, steps).installs
  {
    if steps != [] {
      var n := |steps| - 1;
      OthersLeaveCarried(s, steps[..n]);
      StepOrdered(After(s, steps[..n]), steps[n]);
      assert steps[n] in steps;
    }
  }

  lemma StepKeepsRequests(s: State, step: Step)
    ensures s.requests <= Next(s, step).requests
  {
  }

  /** One request's response is installed at most once. */
  lemma ResponsesAreInstalledOnce(steps: seq<Step>, i: nat, j: nat)
    requires i < |Run(steps).installs| && j < |Run(steps).installs|
    requires Run(steps).installs[i].source.Response? && Run(steps).installs[i].source == Run(steps).installs[j].source
    ensures i == j
  {
    RunOrdered(steps);
    assert InOrder(Run(steps), i) && InOrder(Run(steps), j);
  }

  /** A patch that publishes without a response of its own leaves the catalog as it is. */
  lemma SnapshotsChangeNothing(steps: seq<Step>, i: nat)
    requires i < |Run(steps).installs| && Run(steps).installs[i].source.Snapshot?
    ensures Run(steps).installs[i].catalog == InForce(Run(steps).installs, i)
  {
    RunOrdered(steps);
    assert InOrder(Run(steps), i);
  }

  // The same, as the session state keeps it.

  class Catalogs {
    var revision: nat
    var catalog: Catalog
    /** What was installed, and since when, for the proof. */
    ghost var installs: seq<Install>

    ghost predicate Valid()
      reads this
    {
      revision == |installs| && catalog == InForce(installs, |installs|)
    }

    constructor ()
      ensures Valid() && installs == []
    {
      revision, catalog, installs := 0, EMPTY_CATALOG, [];
    }

    method CatalogSnapshot() returns (current: Catalog, at: nat)
      requires Valid()
      ensures current == catalog && at == |installs|
    {
      return catalog, revision;
    }

    /** A notification replaces the catalog whatever is in flight. */
    method ApplyNotification(announced: Catalog)
      requires Valid()
      modifies this
      ensures Valid() && installs == old(installs) + [Install(Notification, announced)]
    {
      revision := revision + 1;
      catalog := announced;
      installs := installs + [Install(Notification, announced)];
    }

    method AbandonSession()
      requires Valid()
      modifies this
      ensures Valid() && installs == old(installs) + [Install(Abandonment, EMPTY_CATALOG)]
    {
      revision := revision + 1;
      catalog := EMPTY_CATALOG;
      installs := installs + [Install(Abandonment, EMPTY_CATALOG)];
    }

    /** The catalog a response publishes under: its own if nothing was installed since, or the current. */
    method WithResponseCatalog(baseline: nat, response: Catalog, ghost source: Source) returns (published: Catalog)
      requires Valid()
      modifies this
      ensures Valid() && published == catalog
      ensures installs
        == if |old(installs)| == baseline then old(installs) + [Install(source, response)] else old(installs)
    {
      if revision == baseline {
        revision := revision + 1;
        catalog := response;
        installs := installs + [Install(source, response)];
      }
      published := catalog;
    }
  }
}
