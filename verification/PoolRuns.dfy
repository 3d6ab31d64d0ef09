/** The worker pool over all its runs: safety, the life of a slot, and progress. */
module PoolRuns {
  import opened WorkerPool
  import opened PoolInvariant

  /** `as` is an interleaving the threads can follow from `s`. */
  ghost predicate Runs(s: State, actions: seq<Action>)
    decreases |actions|
  {
    actions == [] || (Enabled(s, actions[0]) && Runs(Apply(s, actions[0]), actions[1..]))
  }

  ghost function After(s: State, actions: seq<Action>): State
    requires Runs(s, actions)
    decreases |actions|
  {
    if actions == [] then s else After(Apply(s, actions[0]), actions[1..])
  }

  lemma {:induction false} InvAlways(s: State, actions: seq<Action>)
    requires Inv(s) && Runs(s, actions)
    ensures Inv(After(s, actions))
    decreases |actions|
  {
    hide Inv, Apply, Enabled;
    if actions != [] {
      StepKeeps(s, actions[0]);
      InvAlways(Apply(s, actions[0]), actions[1..]);
    }
  }

  lemma InitialInv()
    ensures Inv(Initial())
  {}

  ghost predicate Reachable(s: State) {
    exists actions :: Runs(Initial(), actions) && s == After(Initial(), actions)
  }

  lemma ReachableInv(s: State)
    requires Reachable(s)
    ensures Inv(s)
  {
    var actions :| Runs(Initial(), actions) && s == After(Initial(), actions);
    InitialInv();
    InvAlways(Initial(), actions);
  }

  /** No run hits an `unreachable!` arm or a table that is still shared. */
  lemma NeverPanics(s: State)
    requires Reachable(s)
    ensures !s.panicked
    ensures s.driver.Joined? ==> s.refs == 1
  {
    ReachableInv(s);
    if s.driver.Joined? {
      SoleOwner(s);
    }
  }

  /** The life of a slot. */
  predicate Follows(before: Slot, after: Slot) {
    match before
    case Parked => after.Parked? || after.Assigned? || after.Exit?
    case Assigned(_) => after == before || after.Running?
    case Running => after.Running? || after.Finished?
    case Finished(_) => after == before || after.Parked?
    case Exit => after.Exit?
  }

  lemma HelperFollows(s: State, a: Action, h: nat)
    requires Inv(s) && Enabled(s, a) && h < Size(s) && ByHelperThread(a)
    ensures Size(Apply(s, a)) == Size(s) && Follows(s.slots[h], Apply(s, a).slots[h])
  {
    hide HeldBy, Results, InBounds, Collected;
    assert SlotOk(h, s.slots[h], s.owners[h], s.helpers[h], s.coordinator, s.driver, s.search);
  }

  lemma CoordinatorFollows(s: State, a: Action, h: nat)
    requires Inv(s) && Enabled(s, a) && h < Size(s) && !ByHelperThread(a) && !ByDriver(a)
    ensures Size(Apply(s, a)) == Size(s) && Follows(s.slots[h], Apply(s, a).slots[h])
  {
    hide HeldBy, Results, InBounds, Collected;
    assert SlotOk(h, s.slots[h], s.owners[h], s.helpers[h], s.coordinator, s.driver, s.search);
  }

  lemma DriverFollows(s: State, a: Action, h: nat)
    requires Inv(s) && Enabled(s, a) && h < Size(s) && ByDriver(a)
    requires !(a.JoinHelper? && s.driver.next == Size(s))
    ensures Size(Apply(s, a)) == Size(s) && Follows(s.slots[h], Apply(s, a).slots[h])
  {
    hide HeldBy, Results, Collected;
    assert SlotOk(h, s.slots[h], s.owners[h], s.helpers[h], s.coordinator, s.driver, s.search);
  }

  /** A job and the order to exit are only ever written over a parked slot, and a
      slot changes only to its next state, unless the pool itself is replaced. */
  lemma SlotLife(s: State, a: Action, h: nat)
    requires Reachable(s) && Enabled(s, a) && h < Size(s)
    requires !(a.JoinHelper? && s.driver.next == Size(s))
    ensures Size(Apply(s, a)) == Size(s) && Follows(s.slots[h], Apply(s, a).slots[h])
  {
    ReachableInv(s);
    hide Inv, Apply, Reachable, Follows;
    if ByHelperThread(a) {
      HelperFollows(s, a, h);
    } else if ByDriver(a) {
      DriverFollows(s, a, h);
    } else {
      CoordinatorFollows(s, a, h);
    }
  }

  /** The pool is replaced only when every helper thread has ended. */
  lemma ReplacedWhenDead(s: State, h: nat)
    requires Reachable(s) && s.driver.JoiningHelper? && s.driver.next == Size(s) && h < Size(s)
    ensures Shaped(s) && s.slots[h].Exit? && s.helpers[h].Dead?
  {
    ReachableInv(s);
    hide HeldBy, Results, Reachable;
    assert SlotOk(h, s.slots[h], s.owners[h], s.helpers[h], s.coordinator, s.driver, s.search);
  }

  /** When the last slot has been collected, the results are those of this search, one
      from each worker, in the order of the workers. */
  lemma EachResultOnce(s: State)
    requires Reachable(s) && s.coordinator == Collecting(Size(s))
    ensures |s.results| == Size(s) + 1
    ensures forall w :: 0 <= w <= Size(s) ==> s.results[w] == Job(w, s.search)
  {
    ReachableInv(s);
  }

  /** Nobody sleeps through what it waits for: the notification is still to come. */
  lemma NoLostWakeup(s: State, h: nat)
    requires Reachable(s) && h < Size(s)
    ensures Shaped(s)
    ensures s.helpers[h].Asleep? && s.slots[h].Assigned? ==> s.coordinator == AnnouncingJob(h)
    ensures s.helpers[h].Asleep? && s.slots[h].Exit? ==> s.driver.AnnouncingExit? && s.driver.to == h
    ensures s.coordinator == AsleepOn(h) && s.slots[h].Finished? ==> s.helpers[h].Announcing?
  {
    ReachableInv(s);
    hide HeldBy, Results, Reachable;
    assert SlotOk(h, s.slots[h], s.owners[h], s.helpers[h], s.coordinator, s.driver, s.search);
  }

  // ----- progress -----

  predicate Spurious(a: Action) {
    a.SpuriousHelper? || a.SpuriousCoordinator?
  }

  /** The driver is in the middle of a command. */
  predicate Busy(s: State) {
    !s.driver.Idle? && !s.driver.Gone?
  }

  ghost predicate CanMove(s: State) {
    exists a :: Enabled(s, a) && !Spurious(a)
  }

  /** A helper or the coordinator can, whatever the driver does. */
  ghost predicate ThreadCanMove(s: State) {
    exists a :: Enabled(s, a) && !Spurious(a) && !ByDriver(a)
  }

  /** The thread that holds a slot's lock can go on. */
  lemma OwnerMoves(s: State, h: nat)
    requires Inv(s) && h < Size(s) && !s.owners[h].Free?
    ensures ThreadCanMove(s)
  {
    hide HeldBy, Results;
    assert SlotOk(h, s.slots[h], s.owners[h], s.helpers[h], s.coordinator, s.driver, s.search);
    if s.helpers[h].Looking? {
      assert Enabled(s, Look(h));
    } else if s.helpers[h].Taking? {
      assert Enabled(s, Take(h));
    } else if s.coordinator == LookingAt(h) {
      assert Enabled(s, LookForResult);
    } else {
      assert Enabled(s, TakeResult);
    }
  }

  /** A helper that has a job, or is to exit, and is not asleep or dead can go on. */
  lemma HelperMoves(s: State, h: nat)
    requires Inv(s) && h < Size(s)
    requires !s.helpers[h].Asleep? && !s.helpers[h].Dead?
    ensures ThreadCanMove(s)
  {
    var p := s.helpers[h];
    if p.Searching? {
      assert Enabled(s, FinishSearch(h));
    } else if p.Searched? {
      assert Enabled(s, DropJob(h));
    } else if p.Announcing? {
      assert Enabled(s, Announce(h));
    } else if !s.owners[h].Free? {
      OwnerMoves(s, h);
    } else if p.ToLock? {
      assert Enabled(s, Lock(h));
    } else {
      assert SlotOk(h, s.slots[h], s.owners[h], p, s.coordinator, s.driver, s.search);
      assert Enabled(s, Publish(h));
    }
  }

  /** Unless its reply is held back, a coordinator that has not ended can be brought on. */
  lemma CoordinatorMovesOn(s: State)
    requires Inv(s) && !Held(s) && !s.coordinator.NoThread? && !s.coordinator.Ended?
    ensures ThreadCanMove(s)
  {
    hide HeldBy, Results;
    match s.coordinator {
      case Started => assert Enabled(s, Dispatch);
      case HoldingBook => assert Enabled(s, StopHoldingBook);
      case Assigning(next) =>
        if next < Size(s) && !s.owners[next].Free? {
          OwnerMoves(s, next);
        } else {
          assert Enabled(s, StoreJob);
        }
      case AnnouncingJob(_) => assert Enabled(s, AnnounceJob);
      case MainSearch => assert Enabled(s, FinishMain);
      case Holding => assert Enabled(s, StopHolding);
      case Stopping => assert Enabled(s, StopWorkers);
      case Collecting(next) =>
        if next < Size(s) && !s.owners[next].Free? {
          OwnerMoves(s, next);
        } else {
          assert Enabled(s, LockForCollect);
        }
      case LookingAt(_) => assert Enabled(s, LookForResult);
      case AsleepOn(at) =>
        assert SlotOk(at, s.slots[at], s.owners[at], s.helpers[at], s.coordinator, s.driver, s.search);
        HelperMoves(s, at);
      case TakingFrom(_) => assert Enabled(s, TakeResult);
      case Finishing => assert Enabled(s, EndSearch);
    }
  }

  /** No deadlock: as long as a command is not complete, some thread can take a step,
      and not because a wait returned by itself. */
  lemma NoDeadlock(s: State)
    requires Reachable(s) && Busy(s)
    ensures CanMove(s)
  {
    ReachableInv(s);
    hide HeldBy, Results, Reachable;
    match s.driver {
      case Stop(_) => assert Enabled(s, StoreStop);
      case Join(_) =>
        if s.coordinator.Ended? {
          assert Enabled(s, JoinSearch);
        } else {
          CoordinatorMovesOn(s);
        }
      case Joined(_) => assert Enabled(s, Perform);
      case StoringExit(next, _, _) =>
        if next < Size(s) && !s.owners[next].Free? {
          OwnerMoves(s, next);
        } else {
          assert Enabled(s, StoreExit);
        }
      case AnnouncingExit(_, _, _) => assert Enabled(s, AnnounceExit);
      case JoiningHelper(next, _, _) =>
        if next < Size(s) && !s.helpers[next].Dead? {
          assert SlotOk(next, s.slots[next], s.owners[next], s.helpers[next], s.coordinator, s.driver, s.search);
          HelperMoves(s, next);
        } else {
          assert Enabled(s, JoinHelper);
        }
      case _ =>
    }
  }

  // ----- how much is left to do -----

  /** What a helper still has to do before it sleeps or ends. */
  function Work(slot: Slot, p: Helper): nat {
    (if slot.Assigned? then 100 else 0)
    + match p
      case Asleep => 0
      case Dead => 0
      case Taking => 1
      case Looking => 2
      case ToLock => 3
      case Announcing => 8
      case Searching(_) => 30
      case Searched(_) => 29
      case Dropped(_) => 28
  }

  function CoordinatorWork(n: nat, c: Coordinator): int {
    match c
    case NoThread => 0
    case Ended => 5
    case Finishing => 10
    case HoldingBook => 20
    case Collecting(next) => 10 * (n - next) + 23
    case LookingAt(at) => 10 * (n - at) + 22
    case TakingFrom(at) => 10 * (n - at) + 21
    case AsleepOn(at) => 10 * (n - at) + 20
    case Stopping => 10 * n + 33
    case Holding => 10 * n + 34
    case MainSearch => 10 * n + 35
    case Assigning(next) => 10 * n + 50 + 200 * (n - next)
    case AnnouncingJob(to) => 10 * n - 100 + 200 * (n - to)
    case Started => 210 * n + 60
  }

  function DriverWork(n: nat, d: Driver): int {
    match d
    case Idle => 0
    case Gone => 0
    case JoiningHelper(next, _, _) => n - next + 1
    case StoringExit(next, _, _) => n + 10 + 20 * (n - next)
    case AnnouncingExit(to, _, _) => n + 20 * (n - to)
    case Joined(_) => 21 * n + 20
    case Join(_) => 21 * n + 21
    case Stop(_) => 21 * n + 22
  }

  function Measure(s: State): int
    requires Shaped(s)
  {
    Total(Work, s.slots, s.helpers) + CoordinatorWork(Size(s), s.coordinator) + DriverWork(Size(s), s.driver)
  }

  lemma MeasureNonNegative(s: State)
    requires Inv(s)
    ensures Measure(s) >= 0
  {}

  /** A helper's place changes, and its slot with it: so much less work. */
  lemma HelperChanges(s: State, t: State, h: nat)
    requires Shaped(s) && h < Size(s) && t.coordinator == s.coordinator && t.driver == s.driver
    requires |t.slots| == |t.helpers| == |t.owners| == Size(s)
    requires t.helpers == s.helpers[h := t.helpers[h]] && t.slots == s.slots[h := t.slots[h]]
    requires Work(t.slots[h], t.helpers[h]) < Work(s.slots[h], s.helpers[h])
    ensures Shaped(t) && Measure(t) < Measure(s)
  {
    hide Work, Total;
    TotalAt(Work, s, h, t.slots[h], t.helpers[h]);
  }

  lemma HelperWaits(s: State, a: Action)
    requires Inv(s) && Enabled(s, a) && (a.Lock? || a.Look?)
    ensures Shaped(HelperStep(s, a)) && Measure(HelperStep(s, a)) < Measure(s)
  {
    hide HeldBy, Results, Measure, Collected, InBounds;
    assert SlotOk(a.h, s.slots[a.h], s.owners[a.h], s.helpers[a.h], s.coordinator, s.driver, s.search);
    assert s.slots[a.h := s.slots[a.h]] == s.slots;
    HelperChanges(s, HelperStep(s, a), a.h);
  }

  lemma HelperRuns(s: State, a: Action)
    requires Inv(s) && Enabled(s, a) && (a.FinishSearch? || a.DropJob?)
    ensures Shaped(HelperStep(s, a)) && Measure(HelperStep(s, a)) < Measure(s)
  {
    hide HeldBy, Results, Measure, Collected, InBounds, SlotOk;
    assert s.slots[a.h := s.slots[a.h]] == s.slots;
    HelperChanges(s, HelperStep(s, a), a.h);
  }

  lemma HelperWrites(s: State, a: Action)
    requires Inv(s) && Enabled(s, a) && (a.Take? || a.Publish?)
    ensures Shaped(HelperStep(s, a)) && Measure(HelperStep(s, a)) < Measure(s)
  {
    hide HeldBy, Results, Measure, Collected, InBounds;
    assert SlotOk(a.h, s.slots[a.h], s.owners[a.h], s.helpers[a.h], s.coordinator, s.driver, s.search);
    HelperChanges(s, HelperStep(s, a), a.h);
  }

  lemma HelperWorks(s: State, a: Action)
    requires Inv(s) && Enabled(s, a) && ByHelperThread(a) && !Spurious(a) && !a.Announce?
    ensures Shaped(Apply(s, a)) && Measure(Apply(s, a)) < Measure(s)
  {
    hide Inv, Measure, HelperStep, DriverStep, CoordinatorStep, Enabled, Shaped;
    if a.Take? || a.Publish? {
      HelperWrites(s, a);
    } else if a.FinishSearch? || a.DropJob? {
      HelperRuns(s, a);
    } else {
      HelperWaits(s, a);
    }
  }

  lemma AnnounceWorks(s: State, h: nat)
    requires Inv(s) && Enabled(s, Announce(h))
    ensures Shaped(Apply(s, Announce(h))) && Measure(Apply(s, Announce(h))) < Measure(s)
  {
    hide HeldBy, Results, Total;
    TotalAt(Work, s, h, s.slots[h], ToLock);
  }

  lemma StoreJobWorks(s: State)
    requires Inv(s) && Enabled(s, StoreJob)
    ensures Shaped(Apply(s, StoreJob)) && Measure(Apply(s, StoreJob)) < Measure(s)
  {
    hide HeldBy, Results, Total;
    var h := s.coordinator.next;
    if h < Size(s) {
      TotalAt(Work, s, h, Assigned(Job(h + 1, s.search)), s.helpers[h]);
      assert SlotOk(h, s.slots[h], s.owners[h], s.helpers[h], s.coordinator, s.driver, s.search);
    }
  }

  lemma AnnounceJobWorks(s: State)
    requires Inv(s) && Enabled(s, AnnounceJob)
    ensures Shaped(Apply(s, AnnounceJob)) && Measure(Apply(s, AnnounceJob)) < Measure(s)
  {
    hide HeldBy, Results, Total;
    TotalAt(Work, s, s.coordinator.to, s.slots[s.coordinator.to], ToLock);
  }

  lemma TakeResultWorks(s: State)
    requires Inv(s) && Enabled(s, TakeResult)
    ensures Shaped(Apply(s, TakeResult)) && Measure(Apply(s, TakeResult)) < Measure(s)
  {
    hide HeldBy, Results, Total;
    var h := s.coordinator.at;
    TotalAt(Work, s, h, Parked, s.helpers[h]);
    assert SlotOk(h, s.slots[h], s.owners[h], s.helpers[h], s.coordinator, s.driver, s.search);
  }

  /** Steps of the coordinator that leave slots and helpers alone. */
  lemma CoordinatorGoesOn(s: State, a: Action)
    requires Inv(s) && Enabled(s, a)
    requires a.ShortCircuit? || a.BookHit? || a.StopHoldingBook? || a.Dispatch? || a.FinishMain? || a.StopHolding?
          || a.StopWorkers? || a.EndSearch?
    ensures Shaped(CoordinatorStep(s, a)) && Measure(CoordinatorStep(s, a)) < Measure(s)
  {
    hide HeldBy, Results, Total, Slots, Collected, NotifyAll;
  }

  lemma CoordinatorLooks(s: State, a: Action)
    requires Inv(s) && Enabled(s, a) && (a.LockForCollect? || a.LookForResult?)
    ensures Shaped(CoordinatorStep(s, a)) && Measure(CoordinatorStep(s, a)) < Measure(s)
  {
    hide HeldBy, Results, Total, Slots, Collected, NotifyAll;
    SlotsShaped(s);
  }

  lemma SlotsShaped(s: State)
    requires Slots(s)
    ensures Shaped(s)
  {}

  lemma CoordinatorWorks(s: State, a: Action)
    requires Inv(s) && Enabled(s, a) && !ByDriver(a) && !ByHelperThread(a) && !Spurious(a)
    requires !a.StoreJob? && !a.AnnounceJob? && !a.TakeResult?
    ensures Shaped(Apply(s, a)) && Measure(Apply(s, a)) < Measure(s)
  {
    hide Inv, Measure, HelperStep, DriverStep, CoordinatorStep, Enabled, Shaped;
    if a.LockForCollect? || a.LookForResult? {
      CoordinatorLooks(s, a);
    } else {
      CoordinatorGoesOn(s, a);
    }
  }

  lemma ExitWorks(s: State)
    requires Inv(s) && Enabled(s, StoreExit)
    ensures Shaped(DriverStep(s, StoreExit)) && Measure(DriverStep(s, StoreExit)) < Measure(s)
  {
    hide HeldBy, Results, Total, Collected;
    var h := s.driver.next;
    if h < Size(s) {
      TotalAt(Work, s, h, Exit, s.helpers[h]);
      assert SlotOk(h, s.slots[h], s.owners[h], s.helpers[h], s.coordinator, s.driver, s.search);
    }
  }

  lemma AnnounceExitWorks(s: State)
    requires Inv(s) && Enabled(s, AnnounceExit)
    ensures Shaped(DriverStep(s, AnnounceExit)) && Measure(DriverStep(s, AnnounceExit)) < Measure(s)
  {
    hide HeldBy, Results, Total, Collected;
    TotalAt(Work, s, s.driver.to, s.slots[s.driver.to], ToLock);
  }

  lemma DriverGoesOn(s: State, a: Action)
    requires Inv(s) && Enabled(s, a) && (a.StoreStop? || a.JoinSearch? || a.Perform? || a.JoinHelper?)
    requires Busy(s) && Busy(DriverStep(s, a))
    ensures Shaped(DriverStep(s, a)) && Measure(DriverStep(s, a)) < Measure(s)
  {
    hide HeldBy, Results, Total, Slots, Collected;
    SlotsShaped(s);
  }

  lemma DriverWorks(s: State, a: Action)
    requires Inv(s) && Enabled(s, a) && ByDriver(a) && Busy(s) && Busy(Apply(s, a))
    ensures Shaped(Apply(s, a)) && Measure(Apply(s, a)) < Measure(s)
  {
    hide Inv, Measure, HelperStep, DriverStep, CoordinatorStep, Shaped;
    if a.StoreExit? {
      ExitWorks(s);
    } else if a.AnnounceExit? {
      AnnounceExitWorks(s);
    } else {
      DriverGoesOn(s, a);
    }
  }

  /** Every step of a helper or of the coordinator that is not a spurious wakeup leaves less
      to do. */
  lemma ThreadsProgress(s: State, a: Action)
    requires Inv(s) && Enabled(s, a) && !Spurious(a) && !ByDriver(a)
    ensures Inv(Apply(s, a)) && Measure(Apply(s, a)) < Measure(s)
  {
    StepKeeps(s, a);
    hide Inv, Apply, Measure;
    if a.Announce? {
      AnnounceWorks(s, a.h);
    } else if ByHelperThread(a) {
      HelperWorks(s, a);
    } else if a.StoreJob? {
      StoreJobWorks(s);
    } else if a.AnnounceJob? {
      AnnounceJobWorks(s);
    } else if a.TakeResult? {
      TakeResultWorks(s);
    } else {
      CoordinatorWorks(s, a);
    }
  }

  /** While a command is under way every step that is not a spurious wakeup brings it
      nearer its end, whichever thread takes it. */
  lemma StepProgresses(s: State, a: Action)
    requires Inv(s) && Enabled(s, a) && !Spurious(a) && Busy(s) && Busy(Apply(s, a))
    ensures Inv(Apply(s, a)) && Measure(Apply(s, a)) < Measure(s)
  {
    StepKeeps(s, a);
    hide Inv, Apply, Measure;
    if ByDriver(a) {
      DriverWorks(s, a);
    } else {
      ThreadsProgress(s, a);
    }
  }

  ghost predicate BusyThroughout(s: State, actions: seq<Action>)
    requires Runs(s, actions)
    decreases |actions|
  {
    && Busy(s)
    && (actions != [] ==> !Spurious(actions[0]) && BusyThroughout(Apply(s, actions[0]), actions[1..]))
  }

  /** Every command completes: under every scheduling a run without spurious wakeups in
      which it is still under way is no longer than the work there was. */
  lemma {:induction false} CommandsComplete(s: State, actions: seq<Action>)
    requires Inv(s) && Runs(s, actions) && BusyThroughout(s, actions)
    ensures |actions| <= Measure(s)
    decreases |actions|
  {
    if actions == [] {
      MeasureNonNegative(s);
    } else {
      hide Inv, Apply, Enabled, Measure;
      var t := Apply(s, actions[0]);
      assert Busy(t);
      StepProgresses(s, actions[0]);
      CommandsComplete(t, actions[1..]);
    }
  }
}
