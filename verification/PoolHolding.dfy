/** Holding the reply back.  Under `go ponder` and `go infinite` the coordinator keeps its
    reply until the driver lets it go; once let go, the reply comes, and before that it
    does not. */
module PoolHolding {
  import opened WorkerPool
  import opened PoolInvariant
  import opened PoolRuns

  // ----- letting go -----

  /** The step starts the next search. */
  predicate Starts(s: State, a: Action) {
    a.Perform? && s.driver.Joined? && s.driver.op.Go?
  }

  ghost predicate StartsNone(s: State, actions: seq<Action>)
    requires Runs(s, actions)
    decreases |actions|
  {
    actions != [] ==> !Starts(s, actions[0]) && StartsNone(Apply(s, actions[0]), actions[1..])
  }

  /** `stop` lets the reply go and touches nothing but the flag. */
  lemma StopReleases(s: State)
    requires Enabled(s, StopCommand)
    ensures !Held(Apply(s, StopCommand))
    ensures Apply(s, StopCommand) == s.(stop := true)
  {}

  /** `ponderhit` lets it go unless the search is infinite as well; without a ponder signal
      it is a `stop`. */
  lemma PonderHitReleases(s: State)
    requires Enabled(s, PonderHit)
    ensures Held(Apply(s, PonderHit)) <==> s.infinite && s.ponder.Signal? && !s.stop
    ensures Apply(s, PonderHit) == s.(stop := Apply(s, PonderHit).stop, ponder := Apply(s, PonderHit).ponder)
    ensures Apply(s, PonderHit).stop <==> s.stop || s.ponder.NoSignal?
  {}

  /** No step but the start of the next search takes it back. */
  lemma StaysReleased(s: State, a: Action)
    requires Enabled(s, a) && !Held(s) && !Starts(s, a)
    ensures !Held(Apply(s, a))
  {
    if ByHelperThread(a) {
      HelperLeavesRest(s, a);
      hide HelperStep, CoordinatorStep, DriverStep, Enabled;
    } else if ByDriver(a) {
      hide HelperStep, CoordinatorStep, FreshPool;
    } else {
      hide HelperStep, DriverStep;
    }
  }

  lemma {:induction false} ReleasedThroughout(s: State, actions: seq<Action>)
    requires Runs(s, actions) && StartsNone(s, actions) && !Held(s)
    ensures !Held(After(s, actions))
    decreases |actions|
  {
    hide Apply, Enabled, Held, Starts;
    if actions != [] {
      StaysReleased(s, actions[0]);
      ReleasedThroughout(Apply(s, actions[0]), actions[1..]);
    }
  }

  // ----- the reply comes -----

  predicate ByThreads(actions: seq<Action>) {
    forall i :: 0 <= i < |actions| ==> !ByDriver(actions[i]) && !Spurious(actions[i])
  }

  /** The helpers and the coordinator run out of steps. */
  lemma {:induction false} ThreadsRunOut(s: State, actions: seq<Action>)
    requires Inv(s) && Runs(s, actions) && ByThreads(actions)
    ensures |actions| <= Measure(s)
    decreases |actions|
  {
    if actions == [] {
      MeasureNonNegative(s);
    } else {
      hide Inv, Apply, Enabled, Measure, ByDriver, Spurious;
      ThreadsProgress(s, actions[0]);
      ThreadsRunOut(Apply(s, actions[0]), actions[1..]);
    }
  }

  lemma {:induction false} ThreadsStartNone(s: State, actions: seq<Action>)
    requires Runs(s, actions) && ByThreads(actions)
    ensures StartsNone(s, actions)
    decreases |actions|
  {
    hide Apply, Enabled;
    if actions != [] {
      assert !ByDriver(actions[0]);
      ThreadsStartNone(Apply(s, actions[0]), actions[1..]);
    }
  }

  lemma {:induction false} ThreadsKeepOne(s: State, actions: seq<Action>)
    requires Inv(s) && Runs(s, actions) && ByThreads(actions) && !s.coordinator.NoThread?
    ensures !After(s, actions).coordinator.NoThread? && After(s, actions).driver == s.driver
    decreases |actions|
  {
    if actions != [] {
      assert !ByDriver(actions[0]);
      StepKeeps(s, actions[0]);
      ThreadKeeps(s, actions[0]);
      hide Inv, Apply, Enabled;
      ThreadsKeepOne(Apply(s, actions[0]), actions[1..]);
    }
  }

  lemma ThreadKeeps(s: State, a: Action)
    requires Enabled(s, a) && !ByDriver(a) && !s.coordinator.NoThread?
    ensures !Apply(s, a).coordinator.NoThread? && Apply(s, a).driver == s.driver
  {
    if ByHelperThread(a) {
      HelperLeavesRest(s, a);
      hide HelperStep, CoordinatorStep, DriverStep, Enabled;
    } else {
      hide HelperStep, DriverStep;
    }
  }

  /** A helper's step may wake the coordinator and else leaves all but slots, locks and
      handles alone. */
  lemma HelperLeavesRest(s: State, a: Action)
    requires Enabled(s, a) && ByHelperThread(a)
    ensures var t := HelperStep(s, a);
      && t.driver == s.driver && t.stop == s.stop && t.ponder == s.ponder && t.infinite == s.infinite
      && t.results == s.results && t.search == s.search
      && (t.coordinator == s.coordinator || (s.coordinator.AsleepOn? && t.coordinator == Collecting(s.coordinator.at)))
  {}

  /** A reply that is not held back comes: however the threads are scheduled, and if the
      driver does nothing more, there is a step to take until the search has ended, and
      only so many. */
  lemma ReplyComes(s: State, actions: seq<Action>)
    requires Reachable(s) && !s.coordinator.NoThread? && !Held(s)
    requires Runs(s, actions) && ByThreads(actions)
    ensures Shaped(s) && |actions| <= Measure(s)
    ensures After(s, actions).coordinator.Ended? || ThreadCanMove(After(s, actions))
  {
    ReachableInv(s);
    ThreadsRunOut(s, actions);
    ThreadsStartNone(s, actions);
    ReleasedThroughout(s, actions);
    ThreadsKeepOne(s, actions);
    InvAlways(s, actions);
    hide Held, Measure, ThreadCanMove, Reachable, Runs, After, StartsNone, ByThreads;
    var t := After(s, actions);
    if !t.coordinator.Ended? {
      CoordinatorMovesOn(t);
    }
    hide Inv;
  }

  /** The same from the driver's two ways to ask for it. */
  lemma StopBringsReply(s: State, actions: seq<Action>)
    requires Reachable(s) && Enabled(s, StopCommand)
    requires Runs(Apply(s, StopCommand), actions) && ByThreads(actions)
    ensures Shaped(Apply(s, StopCommand)) && |actions| <= Measure(Apply(s, StopCommand))
    ensures After(Apply(s, StopCommand), actions).coordinator.Ended?
         || ThreadCanMove(After(Apply(s, StopCommand), actions))
  {
    StopReleases(s);
    ReachableStep(s, StopCommand);
    hide Apply, Reachable, Measure, ThreadCanMove, Held;
    ReplyComes(Apply(s, StopCommand), actions);
  }

  lemma PonderHitBringsReply(s: State, actions: seq<Action>)
    requires Reachable(s) && Enabled(s, PonderHit) && !(s.infinite && s.ponder.Signal?)
    requires Runs(Apply(s, PonderHit), actions) && ByThreads(actions)
    ensures Shaped(Apply(s, PonderHit)) && |actions| <= Measure(Apply(s, PonderHit))
    ensures After(Apply(s, PonderHit), actions).coordinator.Ended?
         || ThreadCanMove(After(Apply(s, PonderHit), actions))
  {
    PonderHitReleases(s);
    ReachableStep(s, PonderHit);
    hide Apply, Reachable, Measure, ThreadCanMove, Held;
    ReplyComes(Apply(s, PonderHit), actions);
  }

  lemma ReachableStep(s: State, a: Action)
    requires Reachable(s) && Enabled(s, a)
    ensures Reachable(Apply(s, a))
  {
    hide Enabled, Apply;
    var actions :| Runs(Initial(), actions) && s == After(Initial(), actions);
    RunsOn(Initial(), actions, a);
  }

  lemma {:induction false} RunsOn(s: State, actions: seq<Action>, a: Action)
    requires Runs(s, actions) && Enabled(After(s, actions), a)
    ensures Runs(s, actions + [a]) && After(s, actions + [a]) == Apply(After(s, actions), a)
    decreases |actions|
  {
    hide Enabled, Apply;
    if actions == [] {
      assert (actions + [a])[0] == a && (actions + [a])[1..] == [];
    } else {
      assert (actions + [a])[0] == actions[0] && (actions + [a])[1..] == actions[1..] + [a];
      RunsOn(Apply(s, actions[0]), actions[1..], a);
    }
  }

  // ----- and not before -----

  /** The driver may only look on. */
  predicate Speaks(a: Action) {
    a.StopCommand? || a.PonderHit? || a.StoreStop?
  }

  /** A coordinator that holds its reply waits as long as the driver says nothing, whatever
      else happens. */
  lemma HoldingWaits(s: State, a: Action)
    requires Inv(s) && Enabled(s, a) && !Speaks(a)
    requires Held(s) && (s.coordinator.Holding? || s.coordinator.HoldingBook?)
    ensures Held(Apply(s, a)) && Apply(s, a).coordinator == s.coordinator
  {
    hide Slots, Collected, HeldBy, FreshPool;
  }

  ghost predicate Silent(actions: seq<Action>) {
    forall i :: 0 <= i < |actions| ==> !Speaks(actions[i])
  }

  lemma {:induction false} HeldBack(s: State, actions: seq<Action>)
    requires Inv(s) && Runs(s, actions) && Silent(actions)
    requires Held(s) && (s.coordinator.Holding? || s.coordinator.HoldingBook?)
    ensures Held(After(s, actions)) && After(s, actions).coordinator == s.coordinator
    decreases |actions|
  {
    if actions != [] {
      assert !Speaks(actions[0]);
      StepKeeps(s, actions[0]);
      HoldingWaits(s, actions[0]);
      hide Inv, Apply, Enabled, Held, Speaks;
      HeldBack(Apply(s, actions[0]), actions[1..]);
    }
  }

  /** The coordinator is past its hold, with the result of a search. */
  predicate PastHold(s: State) {
    match s.coordinator
    case Stopping => true
    case Collecting(_) => true
    case LookingAt(_) => true
    case AsleepOn(_) => true
    case TakingFrom(_) => true
    case Finishing => s.results != []
    case Ended => s.results != []
    case _ => false
  }

  /** It waits for the helpers. */
  predicate Waits(c: Coordinator) {
    c.Collecting? || c.LookingAt? || c.AsleepOn? || c.TakingFrom?
  }

  /** No reply of a search passes its hold while it is held, and the helpers have been told
      to stop before they are waited for. */
  predicate Honest(s: State) {
    (PastHold(s) ==> !Held(s)) && (Waits(s.coordinator) ==> s.stop)
  }

  lemma StepHonest(s: State, a: Action)
    requires Inv(s) && Honest(s) && Enabled(s, a)
    ensures Honest(Apply(s, a))
  {
    hide Slots, HeldBy, Results;
    if ByHelperThread(a) {
      HelperLeavesRest(s, a);
      hide HelperStep, CoordinatorStep, DriverStep, Enabled;
    } else if ByDriver(a) {
      hide HelperStep, CoordinatorStep, FreshPool;
    } else {
      hide HelperStep, DriverStep;
    }
  }

  lemma {:induction false} RunHonest(s: State, actions: seq<Action>)
    requires Inv(s) && Honest(s) && Runs(s, actions)
    ensures Honest(After(s, actions))
    decreases |actions|
  {
    hide Inv, Apply, Enabled, Honest;
    if actions != [] {
      StepKeeps(s, actions[0]);
      StepHonest(s, actions[0]);
      RunHonest(Apply(s, actions[0]), actions[1..]);
    }
  }

  lemma NeverEarly(s: State)
    requires Reachable(s)
    ensures PastHold(s) ==> !Held(s)
    ensures Waits(s.coordinator) ==> s.stop
    ensures s.driver.Join? ==> s.stop
  {
    ReachableInv(s);
    var actions :| Runs(Initial(), actions) && s == After(Initial(), actions);
    InitialInv();
    RunHonest(Initial(), actions);
  }

  /** A held search that the driver has not spoken to since it started. */
  ghost predicate Waiting(s: State) {
    Inv(s) && Honest(s) && Held(s) && !s.coordinator.NoThread? && (s.driver.Idle? || s.driver.Stop?)
  }

  lemma WaitingStays(s: State, a: Action)
    requires Waiting(s) && Enabled(s, a) && !Speaks(a)
    ensures Waiting(Apply(s, a))
  {
    StepKeeps(s, a);
    StepHonest(s, a);
    hide Inv, Honest;
    if ByHelperThread(a) {
      HelperLeavesRest(s, a);
      hide HelperStep, CoordinatorStep, DriverStep, Enabled;
    } else if ByDriver(a) {
      hide HelperStep, CoordinatorStep;
    } else {
      CoordinatorWaits(s, a);
      hide HelperStep, DriverStep, CoordinatorStep;
    }
  }

  lemma CoordinatorWaits(s: State, a: Action)
    requires Honest(s) && Held(s) && Enabled(s, a) && !ByDriver(a) && !ByHelperThread(a)
    ensures var t := CoordinatorStep(s, a);
      t.stop == s.stop && t.ponder == s.ponder && t.infinite == s.infinite && t.driver == s.driver
      && !t.coordinator.NoThread?
  {}

  lemma {:induction false} WaitingThroughout(s: State, actions: seq<Action>)
    requires Waiting(s) && Runs(s, actions) && Silent(actions)
    ensures Waiting(After(s, actions))
    decreases |actions|
  {
    hide Waiting, Apply, Enabled, Speaks;
    if actions != [] {
      assert !Speaks(actions[0]);
      WaitingStays(s, actions[0]);
      WaitingThroughout(Apply(s, actions[0]), actions[1..]);
    }
  }

  /** A search started to ponder or without an end holds its reply until the driver has
      spoken, on every run; any other is free to reply from the start. */
  lemma HeldFromStart(s: State, actions: seq<Action>)
    requires Reachable(s) && s.driver.Joined? && s.driver.op.Go?
    requires Enabled(s, Perform) && Runs(Apply(s, Perform), actions) && Silent(actions)
    ensures Held(Apply(s, Perform)) <==> s.driver.op.ponder == Signal(true) || s.driver.op.infinite
    ensures Held(Apply(s, Perform))
            ==> Held(After(Apply(s, Perform), actions)) && !PastHold(After(Apply(s, Perform), actions))
  {
    ReachableInv(s);
    StepKeeps(s, Perform);
    NoThreadHonest(s);
    StepHonest(s, Perform);
    var t := Apply(s, Perform);
    assert t.coordinator.Started? && t.driver.Idle?;
    hide Inv, Apply, Reachable, Enabled;
    if Held(t) {
      WaitingThroughout(t, actions);
    }
  }

  lemma NoThreadHonest(s: State)
    requires Inv(s) && s.driver.Joined?
    ensures Honest(s)
  {
    hide Slots, HeldBy;
  }
}
