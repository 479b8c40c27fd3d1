/**
  How long a close takes, against how long the harness says it may.

  Durations are whole ticks and saturate at the largest one, which stands for "no bound". A close is told
  stage by stage, with a teardown that it starts or that another path started before it.
*/
module Deadlines {
  import opened Prelude

  /** The largest duration, in nanoseconds: 2^64 seconds less a nanosecond. */
  const MAX := 0x1_0000_0000_0000_0000 * 1_000_000_000 - 1

  type Duration = d: nat | d <= MAX

  function SaturatingAdd(a: Duration, b: Duration): (sum: Duration)
    ensures sum == MAX || sum == a + b
    ensures sum >= a && sum >= b
  {
    if a + b <= MAX then a + b else MAX
  }

  function SaturatingDouble(a: Duration): Duration {
    SaturatingAdd(a, a)
  }

  datatype Limits = Limits(requestTimeout: Duration, shutdownTimeout: Duration, killGrace: Duration)

  // The bounds of single stages.

  function ConnectionCloseBound(limits: Limits): Duration {
    limits.shutdownTimeout
  }

  function SessionCloseBound(limits: Limits): Duration {
    limits.shutdownTimeout
  }

  function TurnReleaseBound(limits: Limits): Duration {
    limits.shutdownTimeout
  }

  function CancelGrace(limits: Limits): Duration {
    limits.killGrace
  }

  function ProcessStopBound(limits: Limits): Duration {
    SaturatingAdd(SaturatingDouble(limits.killGrace), SaturatingDouble(limits.shutdownTimeout))
  }

  function ExitNoticeBound(limits: Limits): Duration {
    SaturatingDouble(limits.shutdownTimeout)
  }

  // The worst cases a host reads.

  function Teardown(limits: Limits): Duration {
    SaturatingAdd(ConnectionCloseBound(limits), ProcessStopBound(limits))
  }

  function Close(limits: Limits): Duration {
    SaturatingAdd(SaturatingAdd(SessionCloseBound(limits), Teardown(limits)), TurnReleaseBound(limits))
  }

  function CancelToTerminal(limits: Limits): Duration {
    SaturatingAdd(CancelGrace(limits), Teardown(limits))
  }

  function RequestTimeoutToClosed(limits: Limits): Duration {
    SaturatingAdd(SaturatingAdd(limits.requestTimeout, Teardown(limits)), TurnReleaseBound(limits))
  }

  function ExitToClosed(limits: Limits): Duration {
    SaturatingAdd(SaturatingAdd(ExitNoticeBound(limits), Teardown(limits)), TurnReleaseBound(limits))
  }

  /** An elapsed time is within a bound, or the bound is none. */
  predicate Within(elapsed: nat, bound: Duration) {
    bound == MAX || elapsed <= bound
  }

  // What one stop of a child does, in time.

  datatype Interrupt = Delivered | Undelivered

  /**
    How long the child's control takes over each thing a stop asks of it, `None` when it never answers, and what
    it answers: whether the interrupt was delivered, and whether the exit, the kill and the reap went well.
  */
  datatype Control = Control(
    interrupt: Option<nat>,
    interrupted: Interrupt,
    exit: Option<nat>,
    exited: bool,
    kill: Option<nat>,
    killed: bool,
    reap: Option<nat>,
    reaped: bool)

  /** One stage of a stop: how long it took, and whether it answered before its timeout. */
  datatype Stage = Stage(took: nat, answered: bool)

  /** A call under a timeout is cut at it, and one that answers no earlier than that was too late. */
  function UnderTimeout(answers: Option<nat>, timeout: Duration): (stage: Stage)
    ensures stage.took <= timeout && (stage.answered ==> stage.took < timeout)
  {
    if answers.Some? && answers.value < timeout then Stage(answers.value, true) else Stage(timeout, false)
  }

  datatype StopOutcome = Interrupted | Terminated | StopFailed

  datatype StopRun = StopRun(took: nat, outcome: StopOutcome)

  /** Everything is answered before its timeout, the interrupt by its delivery, and the kill goes well. */
  predicate InTime(limits: Limits, control: Control) {
    && control.interrupt.Some? && control.interrupt.value < limits.killGrace && control.interrupted.Delivered?
    && control.exit.Some? && control.exit.value < limits.killGrace
    && control.kill.Some? && control.kill.value < limits.shutdownTimeout && control.killed
    && control.reap.Some? && control.reap.value < limits.shutdownTimeout
  }

  /**
    A stop: the interrupt, the exit it should cause if it was delivered, the kill whatever came of them, and the
    reap if the kill went well.
  */
  method StopProcess(limits: Limits, control: Control) returns (run: StopRun)
    ensures run.took <= 2 * limits.killGrace + 2 * limits.shutdownTimeout
    ensures Within(run.took, ProcessStopBound(limits))
    ensures !run.outcome.StopFailed? ==>
      && control.kill.Some? && control.killed && control.reap.Some? && control.reaped
      && control.kill.value < limits.shutdownTimeout && control.reap.value < limits.shutdownTimeout
      && run.took + 2 <= 2 * limits.killGrace + 2 * limits.shutdownTimeout
    ensures !run.outcome.StopFailed? && ProcessStopBound(limits) < MAX ==> run.took < ProcessStopBound(limits)
    ensures !run.outcome.StopFailed? ==>
      (run.outcome.Interrupted? <==>
         && control.interrupt.Some? && control.interrupt.value < limits.killGrace && control.interrupted.Delivered?
         && control.exit.Some? && control.exit.value < limits.killGrace && control.exited)
    ensures control.kill.None? || control.reap.None? ==> run.outcome.StopFailed?
    ensures InTime(limits, control) ==>
      && run.took == control.interrupt.value + control.exit.value + control.kill.value + control.reap.value
      && (run.outcome.StopFailed? <==> !control.reaped)
  {
    var interrupt := UnderTimeout(control.interrupt, limits.killGrace);
    var took, interrupted := interrupt.took, false;
    if interrupt.answered && control.interrupted.Delivered? {
      var exit := UnderTimeout(control.exit, limits.killGrace);
      took, interrupted := took + exit.took, exit.answered && control.exited;
    }
    var kill := UnderTimeout(control.kill, limits.shutdownTimeout);
    took := took + kill.took;
    if !kill.answered || !control.killed {
      return StopRun(took, StopFailed);
    }
    var reap := UnderTimeout(control.reap, limits.shutdownTimeout);
    took := took + reap.took;
    if !reap.answered || !control.reaped {
      return StopRun(took, StopFailed);
    }
    return StopRun(took, if interrupted then Interrupted else Terminated);
  }

  // What one close does, in time.

  /** How long the connection takes to close and the child to stop, and whether the stop succeeded. */
  datatype Ending = Ending(closing: nat, stopping: nat, stopped: bool)

  /**
    A teardown: begun when a close reaches it or before, by another path, and its child's stop claimed when
    the connection closed or before, by a watcher.
  */
  datatype TeardownRun = TeardownRun(begun: nat, claimed: nat, ending: Ending)
  {
    function ConnectionClosed(): nat {
      begun + ending.closing
    }

    /** The child is reaped once, and everybody who waits for it waits for that. */
    function Over(): nat {
      var reaped := claimed + ending.stopping;
      if reaped < ConnectionClosed() then ConnectionClosed() else reaped
    }
  }

  /**
    One run of `finish_close`: when it was called, how long the `session/close` handshake took (not at all
    when the agent never advertised it), the teardown, whether the prompt task owned the terminal, and how
    long it was then waited for.
  */
  datatype CloseRun = CloseRun(
    called: nat,
    handshake: nat,
    teardown: TeardownRun,
    promptOwns: bool,
    waiting: nat)
  {
    function ReachesTeardown(): nat {
      called + handshake
    }

    function TornDown(): nat {
      if teardown.Over() < ReachesTeardown() then ReachesTeardown() else teardown.Over()
    }

    function Returns(): nat {
      TornDown() + waiting
    }

    function Elapsed(): nat {
      Returns() - called
    }
  }

  /**
    A run the harness can have: each timeout cuts its stage at its bound, the child's stop keeps the bound the
    core promises, a stop that used all of it failed, and a terminal owned elsewhere is waited for only
    after a stop that succeeded.
  */
  predicate Possible(limits: Limits, run: CloseRun) {
    && Within(run.handshake, SessionCloseBound(limits))
    && run.teardown.begun <= run.ReachesTeardown()
    && run.teardown.claimed <= run.teardown.ConnectionClosed()
    && Within(run.teardown.ending.closing, ConnectionCloseBound(limits))
    && Within(run.teardown.ending.stopping, ProcessStopBound(limits))
    && (run.teardown.ending.stopped ==> run.teardown.ending.stopping < ProcessStopBound(limits))
    && Within(run.waiting, TurnReleaseBound(limits))
    && (run.waiting > 0 ==> run.promptOwns && run.teardown.ending.stopped)
  }

  /** Stages within their bounds, run one after another, are within the saturating sum of the bounds. */
  lemma StagesAddUp(a: nat, b: nat, boundA: Duration, boundB: Duration)
    requires Within(a, boundA) && Within(b, boundB)
    ensures Within(a + b, SaturatingAdd(boundA, boundB))
  {
  }

  /** A teardown another path began earlier ends no later than one begun on arrival would. */
  lemma JoinedTeardownIsNoLonger(limits: Limits, run: CloseRun)
    requires Possible(limits, run)
    ensures run.TornDown() <= run.ReachesTeardown() + run.teardown.ending.closing + run.teardown.ending.stopping
  {
  }

  /**
    However a close runs, with an agent that answers or not, a teardown it starts or joins, and a terminal it
    owns or waits for, it takes no longer than `Close`.
  */
  lemma CloseKeepsItsDeadline(limits: Limits, run: CloseRun)
    requires Possible(limits, run)
    ensures Within(run.Elapsed(), Close(limits))
  {
    var ending := run.teardown.ending;
    JoinedTeardownIsNoLonger(limits, run);
    StagesAddUp(ending.closing, ending.stopping, ConnectionCloseBound(limits), ProcessStopBound(limits));
    StagesAddUp(run.handshake, ending.closing + ending.stopping, SessionCloseBound(limits), Teardown(limits));
    StagesAddUp(
      run.handshake + (ending.closing + ending.stopping), run.waiting,
      SaturatingAdd(SessionCloseBound(limits), Teardown(limits)), TurnReleaseBound(limits));
  }

  /** A close called while another runs joins its result, within the same bound from its own call. */
  lemma JoinedCloseKeepsItsDeadline(limits: Limits, run: CloseRun, called: nat)
    requires Possible(limits, run) && run.called <= called <= run.Returns()
    ensures Within(run.Returns() - called, Close(limits))
  {
    CloseKeepsItsDeadline(limits, run);
  }

  /**
    The bound is reached to within one tick and, where there is anything to wait for, never reached: a stop
    that used its whole bound failed, and after that nothing is waited for.
  */
  lemma CloseDeadlineIsTight(limits: Limits)
    requires Close(limits) < MAX && limits.shutdownTimeout > 0
    ensures forall run :: Possible(limits, run) ==> run.Elapsed() < Close(limits)
    ensures exists run :: Possible(limits, run) && run.Elapsed() + 1 == Close(limits)
  {
    var st, stop := limits.shutdownTimeout, ProcessStopBound(limits);
    var slowest := CloseRun(0, st, TeardownRun(st, st + st, Ending(st, stop - 1, true)), true, st);
    assert slowest.Elapsed() + 1 == Close(limits);
    assert Possible(limits, slowest);
    forall run | Possible(limits, run)
      ensures run.Elapsed() < Close(limits)
    {
      JoinedTeardownIsNoLonger(limits, run);
    }
  }

  // The other paths.

  /** A path that notices something, tears down and then waits for the turn. */
  datatype WatchedRun = WatchedRun(noticing: nat, ending: Ending, waiting: nat) {
    function Elapsed(): nat {
      noticing + ending.closing + ending.stopping + waiting
    }
  }

  predicate WatchedPossible(limits: Limits, run: WatchedRun, noticeBound: Duration) {
    && Within(run.noticing, noticeBound)
    && Within(run.ending.closing, ConnectionCloseBound(limits))
    && Within(run.ending.stopping, ProcessStopBound(limits))
    && Within(run.waiting, TurnReleaseBound(limits))
  }

  /** From the agent's exit, and from a request it never answers, until the session is closed. */
  lemma WatchedPathsKeepTheirDeadlines(limits: Limits, run: WatchedRun)
    ensures WatchedPossible(limits, run, ExitNoticeBound(limits)) ==> Within(run.Elapsed(), ExitToClosed(limits))
    ensures WatchedPossible(limits, run, limits.requestTimeout) ==>
      Within(run.Elapsed(), RequestTimeoutToClosed(limits))
    ensures WatchedPossible(limits, run, CancelGrace(limits)) && run.waiting == 0 ==>
      Within(run.Elapsed(), CancelToTerminal(limits))
  {
    if
      && Within(run.ending.closing, ConnectionCloseBound(limits))
      && Within(run.ending.stopping, ProcessStopBound(limits))
    {
      StagesAddUp(run.ending.closing, run.ending.stopping, ConnectionCloseBound(limits), ProcessStopBound(limits));
    }
  }

  /** Timing from the exit always allows at least what timing from the call does. */
  lemma ExitIsAllowedMoreThanClose(limits: Limits)
    ensures Teardown(limits) <= Close(limits) <= ExitToClosed(limits)
    ensures Close(limits) == MAX ==> ExitToClosed(limits) == MAX
  {
  }
}
