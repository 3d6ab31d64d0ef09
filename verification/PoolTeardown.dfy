/** Tearing the pool down. Every command joins the search first; but when reading a
    command or writing a reply fails, the driver is dropped with its pool and joins only
    the helpers. That can wait for ever, exactly when some job is still outstanding. */
module PoolTeardown {
  import opened WorkerPool
  import opened PoolInvariant
  import opened PoolRuns

  /** The command loop returns early and the pool is dropped. */
  function Abandon(s: State): State {
    s.(driver := StoringExit(0, 0, true))
  }

  ghost predicate Leads(s: State, t: State) {
    exists actions :: Runs(s, actions) && t == After(s, actions)
  }

  /** Whatever happens from here, the driver does not get to the end. */
  ghost predicate Doomed(s: State) {
    forall t :: Leads(s, t) ==> !t.driver.Gone?
  }

  ghost predicate CanDoom(s: State) {
    exists t :: Leads(s, t) && Doomed(t)
  }

  /** Some interleaving after the early return leaves the driver waiting for ever. */
  ghost predicate MayHang(s: State) {
    CanDoom(Abandon(s))
  }

  /** The job of slot `h` is not handed out yet, or not finished. */
  predicate Outstanding(slot: Slot, c: Coordinator, h: nat) {
    slot.Assigned? || slot.Running? || ToAssign(c, h)
  }

  predicate ToAssign(c: Coordinator, h: nat) {
    c.Started? || (c.Assigning? && h >= c.next) || (c.AnnouncingJob? && h > c.to)
  }

  predicate JobOutstanding(s: State) {
    exists h :: 0 <= h < Size(s) && Outstanding(s.slots[h], s.coordinator, h)
  }

  lemma LeadsHere(s: State)
    ensures Leads(s, s)
  {
    assert Runs(s, []) && s == After(s, []);
  }

  lemma LeadsFirst(s: State, a: Action, t: State)
    requires Enabled(s, a) && Leads(Apply(s, a), t)
    ensures Leads(s, t)
  {
    hide Enabled, Apply;
    var rest :| Runs(Apply(s, a), rest) && t == After(Apply(s, a), rest);
    var actions := [a] + rest;
    assert actions[0] == a && actions[1..] == rest;
    assert Runs(s, actions) && t == After(s, actions);
  }

  lemma DoomFirst(s: State, a: Action)
    requires Enabled(s, a) && CanDoom(Apply(s, a))
    ensures CanDoom(s)
  {
    hide Enabled, Apply, Leads, Doomed;
    var t :| Leads(Apply(s, a), t) && Doomed(t);
    LeadsFirst(s, a, t);
  }

  // ----- an order to exit that is lost -----

  /** The driver has left its order in slot `h`. */
  predicate Ordered(d: Driver, h: nat) {
    match d
    case StoringExit(next, _, _) => h < next
    case AnnouncingExit(to, _, _) => h <= to
    case JoiningHelper(_, _, _) => true
    case _ => false
  }

  /** The order has been overwritten and its helper lives on. */
  predicate OrderLost(s: State, k: nat) {
    && Shaped(s) && k < Size(s)
    && Ordered(s.driver, k) && (s.driver.JoiningHelper? ==> s.driver.next <= k)
    && !s.slots[k].Exit? && !s.helpers[k].Dead?
  }

  lemma LostToDriver(s: State, a: Action, k: nat)
    requires OrderLost(s, k) && Enabled(s, a) && ByDriver(a)
    ensures OrderLost(DriverStep(s, a), k) && !DriverStep(s, a).driver.Gone?
  {
    hide FreshPool, PerformOp, NewPool;
  }

  lemma LostToHelper(s: State, a: Action, k: nat)
    requires OrderLost(s, k) && Enabled(s, a) && ByHelperThread(a)
    ensures OrderLost(HelperStep(s, a), k)
  {}

  lemma LostToCoordinator(s: State, a: Action, k: nat)
    requires OrderLost(s, k) && Enabled(s, a) && !ByDriver(a) && !ByHelperThread(a)
    ensures OrderLost(CoordinatorStep(s, a), k)
  {}

  lemma LostStays(s: State, a: Action, k: nat)
    requires OrderLost(s, k) && Enabled(s, a)
    ensures OrderLost(Apply(s, a), k) && !Apply(s, a).driver.Gone?
  {
    hide Enabled, DriverStep, HelperStep, CoordinatorStep;
    if ByDriver(a) {
      LostToDriver(s, a, k);
    } else if ByHelperThread(a) {
      LostToHelper(s, a, k);
    } else {
      LostToCoordinator(s, a, k);
    }
  }

  lemma {:induction false} LostForEver(s: State, actions: seq<Action>, k: nat)
    requires OrderLost(s, k) && Runs(s, actions)
    ensures !After(s, actions).driver.Gone?
    decreases |actions|
  {
    hide Enabled, Apply;
    if actions != [] {
      LostStays(s, actions[0], k);
      LostForEver(Apply(s, actions[0]), actions[1..], k);
    }
  }

  /** Nobody orders the helper out again, and the driver waits for it. */
  lemma LostDooms(s: State, k: nat)
    requires OrderLost(s, k)
    ensures Doomed(s) && CanDoom(s)
  {
    hide OrderLost, Runs, After;
    forall t | Leads(s, t)
      ensures !t.driver.Gone?
    {
      var actions :| Runs(s, actions) && t == After(s, actions);
      LostForEver(s, actions, k);
    }
    assert Doomed(s);
    LeadsHere(s);
  }

  // ----- how an order gets lost -----

  /** Helper `k` will publish its result, or the coordinator hands it its job. */
  predicate AboutToWrite(s: State, k: nat)
    requires Shaped(s) && k < Size(s)
  {
    s.helpers[k].Searching? || s.helpers[k].Searched? || s.helpers[k].Dropped?
    || (s.coordinator == Assigning(k) && !s.helpers[k].Dead?)
  }

  function StepsLeft(p: Helper): nat {
    if p.Searching? then 2 else if p.Searched? then 1 else 0
  }

  /** The driver has passed the slot; now it is written to. */
  lemma OverwritesOrder(s: State, k: nat)
    requires Shaped(s) && k < Size(s) && s.owners[k].Free? && AboutToWrite(s, k)
    requires s.driver.StoringExit? && k < s.driver.next
    ensures CanDoom(s)
    decreases StepsLeft(s.helpers[k])
  {
    hide CanDoom;
    if s.helpers[k].Searching? {
      OverwritesOrder(Apply(s, FinishSearch(k)), k);
      DoomFirst(s, FinishSearch(k));
    } else if s.helpers[k].Searched? {
      OverwritesOrder(Apply(s, DropJob(k)), k);
      DoomFirst(s, DropJob(k));
    } else if s.helpers[k].Dropped? {
      LostDooms(Apply(s, Publish(k)), k);
      DoomFirst(s, Publish(k));
    } else {
      LostDooms(Apply(s, StoreJob), k);
      DoomFirst(s, StoreJob);
    }
  }

  /** The driver goes on to slot `k` and passes it. */
  lemma DriverPasses(s: State, k: nat)
    requires Shaped(s) && k < Size(s) && AboutToWrite(s, k)
    requires forall h :: 0 <= h < Size(s) ==> s.owners[h].Free?
    requires s.driver.StoringExit? && s.driver.next <= k
    ensures CanDoom(s)
    decreases k - s.driver.next
  {
    hide CanDoom;
    var t := Apply(s, StoreExit);
    var u := Apply(t, AnnounceExit);
    if s.driver.next < k {
      DriverPasses(u, k);
    } else {
      OverwritesOrder(u, k);
    }
    DoomFirst(t, AnnounceExit);
    DoomFirst(s, StoreExit);
  }

  /** The other threads do not look at the driver. */
  lemma HelperIgnoresDriver(s: State, a: Action)
    requires Enabled(s, a) && ByHelperThread(a)
    ensures Enabled(Abandon(s), a) && HelperStep(Abandon(s), a) == Abandon(HelperStep(s, a))
  {}

  lemma CoordinatorIgnoresDriver(s: State, a: Action)
    requires Enabled(s, a) && !ByDriver(a) && !ByHelperThread(a)
    ensures Enabled(Abandon(s), a) && CoordinatorStep(Abandon(s), a) == Abandon(CoordinatorStep(s, a))
  {}

  /** Their steps may come before the return or after it. */
  lemma StepBefore(s: State, a: Action)
    requires Enabled(s, a) && !ByDriver(a) && MayHang(Apply(s, a))
    ensures MayHang(s)
  {
    hide CanDoom, Enabled, HelperStep, CoordinatorStep, Abandon;
    if ByHelperThread(a) {
      HelperIgnoresDriver(s, a);
    } else {
      CoordinatorIgnoresDriver(s, a);
    }
    DoomFirst(Abandon(s), a);
  }

  predicate AtSlot(s: State, k: nat) {
    k < Size(s) && (s.slots[k].Running? || s.coordinator == Assigning(k))
  }

  /** Whoever holds a lock gives it back, sooner or later. */
  lemma HolderStep(s: State, h: nat, k: nat) returns (a: Action)
    requires Inv(s) && s.driver.Idle? && h < Size(s) && !s.owners[h].Free? && AtSlot(s, k)
    ensures Enabled(s, a) && !ByDriver(a) && !Spurious(a) && AtSlot(Apply(s, a), k) && Apply(s, a).driver.Idle?
  {
    hide HeldBy, Results, Collected, InBounds;
    assert SlotOk(h, s.slots[h], s.owners[h], s.helpers[h], s.coordinator, s.driver, s.search);
    a := if s.helpers[h].Looking? then Look(h)
         else if s.helpers[h].Taking? then Take(h)
         else if s.coordinator == LookingAt(h) then LookForResult
         else TakeResult;
  }

  lemma AtSlotWrites(s: State, k: nat)
    requires Inv(s) && AtSlot(s, k)
    ensures AboutToWrite(Abandon(s), k)
  {
    hide HeldBy, Results, Collected, InBounds;
    assert SlotOk(k, s.slots[k], s.owners[k], s.helpers[k], s.coordinator, s.driver, s.search);
  }

  lemma {:induction false} AtSlotHangs(s: State, k: nat)
    requires Inv(s) && s.driver.Idle? && AtSlot(s, k)
    ensures MayHang(s)
    decreases Measure(s)
  {
    hide CanDoom, MayHang, AtSlot, HeldBy, Results, AboutToWrite, Measure, Enabled, Apply;
    MeasureNonNegative(s);
    if h :| 0 <= h < Size(s) && !s.owners[h].Free? {
      var a := HolderStep(s, h, k);
      ThreadsProgress(s, a);
      AtSlotHangs(Apply(s, a), k);
      StepBefore(s, a);
    } else {
      AtSlotWrites(s, k);
      AtSlotBounds(s, k);
      DriverPasses(Abandon(s), k);
      HangsByDoom(s);
    }
  }

  lemma AtSlotBounds(s: State, k: nat)
    requires AtSlot(s, k)
    ensures k < Size(s)
  {}

  lemma HangsByDoom(s: State)
    requires CanDoom(Abandon(s))
    ensures MayHang(s)
  {}

  /** A step that brings an outstanding job nearer to its slot or to its helper. */
  lemma JobStep(s: State, h: nat) returns (a: Action)
    requires Inv(s) && s.driver.Idle? && h < Size(s) && Outstanding(s.slots[h], s.coordinator, h)
    requires !s.slots[h].Running? && !(s.coordinator.Assigning? && h >= s.coordinator.next)
    ensures Enabled(s, a) && !ByDriver(a) && !Spurious(a) && Apply(s, a).driver.Idle?
    ensures h < Size(Apply(s, a)) && Outstanding(Apply(s, a).slots[h], Apply(s, a).coordinator, h)
  {
    hide HeldBy, Results, Collected, InBounds;
    var p := s.helpers[h];
    assert SlotOk(h, s.slots[h], s.owners[h], p, s.coordinator, s.driver, s.search);
    a := if s.coordinator.Started? then Dispatch
         else if s.coordinator.AnnouncingJob? then AnnounceJob
         else if p.Taking? then Take(h)
         else if p.Looking? then Look(h)
         else if p.Announcing? then Announce(h)
         else if s.owners[h].Free? then Lock(h)
         else LookForResult;
  }

  lemma {:induction false} OutstandingHangs(s: State, h: nat)
    requires Inv(s) && s.driver.Idle? && h < Size(s) && Outstanding(s.slots[h], s.coordinator, h)
    ensures MayHang(s)
    decreases Measure(s)
  {
    hide MayHang, HeldBy, Results, Measure, Enabled, Apply, Slots;
    MeasureNonNegative(s);
    if s.slots[h].Running? {
      AtSlotHangs(s, h);
    } else if s.coordinator.Assigning? && h >= s.coordinator.next {
      AtSlotHangs(s, s.coordinator.next);
    } else {
      var a := JobStep(s, h);
      ThreadsProgress(s, a);
      OutstandingHangs(Apply(s, a), h);
      StepBefore(s, a);
    }
  }

  // ----- without an outstanding job -----

  /** No helper is at work or about to be, and every order to exit is still in its slot. */
  predicate QuietSlot(h: nat, slot: Slot, owner: Owner, p: Helper, c: Coordinator, d: Driver) {
    && (slot.Parked? || slot.Finished? || slot.Exit?)
    && (AtRest(p) || p.Dead?)
    && (Ordered(d, h) ==> slot.Exit?)
    && Owned(h, owner, p, c)
    && (c == TakingFrom(h) ==> slot.Finished?)
    && (p.Asleep? && slot.Exit? ==> d.AnnouncingExit? && d.to == h)
    && !ToAssign(c, h)
  }

  ghost predicate QuietSlots(s: State) {
    && Shaped(s)
    && forall h :: 0 <= h < Size(s) ==> QuietSlot(h, s.slots[h], s.owners[h], s.helpers[h], s.coordinator, s.driver)
  }

  ghost predicate Quiet(s: State) {
    || s.driver.Gone?
    || (&& QuietSlots(s)
        && InBounds(Size(s), s.coordinator, s.driver)
        && (s.driver.StoringExit? || s.driver.AnnouncingExit? || s.driver.JoiningHelper?) && s.driver.quit)
  }

  lemma QuietAtFirst(s: State)
    requires Inv(s) && s.driver.Idle? && !JobOutstanding(s)
    ensures Quiet(Abandon(s))
  {
    hide HeldBy, Results, Collected;
    forall h | 0 <= h < Size(s)
      ensures QuietSlot(h, s.slots[h], s.owners[h], s.helpers[h], s.coordinator, StoringExit(0, 0, true))
    {
      assert SlotOk(h, s.slots[h], s.owners[h], s.helpers[h], s.coordinator, s.driver, s.search);
      assert !Outstanding(s.slots[h], s.coordinator, h);
    }
  }

  lemma QuietForDriver(s: State, a: Action)
    requires Quiet(s) && Enabled(s, a) && ByDriver(a) && !a.AnnounceExit?
    ensures Quiet(DriverStep(s, a))
  {
    hide FreshPool, PerformOp;
  }

  lemma QuietForOrder(s: State)
    requires Quiet(s) && Enabled(s, AnnounceExit)
    ensures Quiet(DriverStep(s, AnnounceExit))
  {}

  lemma QuietForHelper(s: State, a: Action)
    requires Quiet(s) && Enabled(s, a) && ByHelperThread(a) && !a.Announce?
    ensures Quiet(HelperStep(s, a))
  {
    hide InBounds, NotifyAll;
    if !s.driver.Gone? {
      assert QuietSlot(a.h, s.slots[a.h], s.owners[a.h], s.helpers[a.h], s.coordinator, s.driver);
    }
  }

  lemma QuietForAnnouncer(s: State, h: nat)
    requires Quiet(s) && Enabled(s, Announce(h))
    ensures Quiet(HelperStep(s, Announce(h)))
  {
    hide InBounds;
    if !s.driver.Gone? {
      NotifiedInBounds(s, h);
    }
  }

  lemma NotifiedInBounds(s: State, h: nat)
    requires Shaped(s) && InBounds(Size(s), s.coordinator, s.driver)
    ensures InBounds(Size(s), NotifyAll(s, h).coordinator, s.driver)
  {}

  lemma QuietForJob(s: State)
    requires Quiet(s) && Enabled(s, AnnounceJob)
    ensures Quiet(CoordinatorStep(s, AnnounceJob))
  {}

  predicate ByCollector(a: Action) {
    a.LockForCollect? || a.LookForResult? || a.TakeResult? || a.SpuriousCoordinator?
  }

  lemma QuietForTaking(s: State)
    requires Quiet(s) && Enabled(s, TakeResult)
    ensures Quiet(CoordinatorStep(s, TakeResult))
  {
    if !s.driver.Gone? {
      var h := s.coordinator.at;
      assert QuietSlot(h, s.slots[h], s.owners[h], s.helpers[h], s.coordinator, s.driver);
    }
  }

  lemma QuietForLocking(s: State)
    requires Quiet(s) && Enabled(s, LockForCollect)
    ensures Quiet(CoordinatorStep(s, LockForCollect))
  {}

  lemma QuietForLooking(s: State)
    requires Quiet(s) && Enabled(s, LookForResult)
    ensures Quiet(CoordinatorStep(s, LookForResult))
  {
    hide InBounds;
    if !s.driver.Gone? {
      var h := s.coordinator.at;
      assert QuietSlot(h, s.slots[h], s.owners[h], s.helpers[h], s.coordinator, s.driver);
      LookingInBounds(s);
    }
  }

  lemma LookingInBounds(s: State)
    requires Shaped(s) && InBounds(Size(s), s.coordinator, s.driver) && Enabled(s, LookForResult)
    ensures InBounds(Size(s), CoordinatorStep(s, LookForResult).coordinator, s.driver)
  {}

  lemma QuietForWaking(s: State)
    requires Quiet(s) && Enabled(s, SpuriousCoordinator)
    ensures Quiet(CoordinatorStep(s, SpuriousCoordinator))
  {}

  lemma QuietForCollector(s: State, a: Action)
    requires Quiet(s) && Enabled(s, a) && ByCollector(a)
    ensures Quiet(CoordinatorStep(s, a))
  {
    hide Quiet, Enabled, CoordinatorStep;
    if a.TakeResult? {
      QuietForTaking(s);
    } else if a.LockForCollect? {
      QuietForLocking(s);
    } else if a.LookForResult? {
      QuietForLooking(s);
    } else {
      QuietForWaking(s);
    }
  }

  lemma QuietForCoordinator(s: State, a: Action)
    requires Quiet(s) && Enabled(s, a) && !ByDriver(a) && !ByHelperThread(a) && !ByCollector(a) && !a.AnnounceJob?
    ensures Quiet(CoordinatorStep(s, a))
  {
    hide NotifyAll;
    if !s.driver.Gone? && a.StoreJob? {
      NothingToAssign(s);
    }
  }

  lemma NothingToAssign(s: State)
    requires QuietSlots(s) && s.coordinator.Assigning? && s.coordinator.next <= Size(s)
    ensures s.coordinator.next == Size(s)
  {
    forall h | 0 <= h < Size(s)
      ensures !ToAssign(s.coordinator, h)
    {
      assert QuietSlot(h, s.slots[h], s.owners[h], s.helpers[h], s.coordinator, s.driver);
    }
    assert ToAssign(s.coordinator, s.coordinator.next);
  }

  lemma QuietStays(s: State, a: Action)
    requires Quiet(s) && Enabled(s, a)
    ensures Quiet(Apply(s, a))
  {
    hide Quiet, Enabled, DriverStep, HelperStep, CoordinatorStep;
    if a.AnnounceExit? {
      QuietForOrder(s);
    } else if ByDriver(a) {
      QuietForDriver(s, a);
    } else if a.Announce? {
      QuietForAnnouncer(s, a.h);
    } else if ByHelperThread(a) {
      QuietForHelper(s, a);
    } else if ByCollector(a) {
      QuietForCollector(s, a);
    } else if a.AnnounceJob? {
      QuietForJob(s);
    } else {
      QuietForCoordinator(s, a);
    }
  }

  lemma {:induction false} QuietAlways(s: State, actions: seq<Action>)
    requires Quiet(s) && Runs(s, actions)
    ensures Quiet(After(s, actions))
    decreases |actions|
  {
    hide Quiet, Enabled, Apply;
    if actions != [] {
      QuietStays(s, actions[0]);
      QuietAlways(Apply(s, actions[0]), actions[1..]);
    }
  }

  lemma DriverOrders(s: State)
    requires Quiet(s) && !s.driver.Gone? && Enabled(s, StoreExit)
    ensures Shaped(DriverStep(s, StoreExit)) && Measure(DriverStep(s, StoreExit)) < Measure(s)
  {
    hide Total, FreshPool;
    var h := s.driver.next;
    if h < Size(s) {
      assert QuietSlot(h, s.slots[h], s.owners[h], s.helpers[h], s.coordinator, s.driver);
      TotalAt(Work, s, h, Exit, s.helpers[h]);
    }
  }

  lemma DriverAnnounces(s: State)
    requires Quiet(s) && !s.driver.Gone? && Enabled(s, AnnounceExit)
    ensures Shaped(DriverStep(s, AnnounceExit)) && Measure(DriverStep(s, AnnounceExit)) < Measure(s)
  {
    hide Total, FreshPool;
    var h := s.driver.to;
    assert QuietSlot(h, s.slots[h], s.owners[h], s.helpers[h], s.coordinator, s.driver);
    TotalAt(Work, s, h, s.slots[h], ToLock);
  }

  lemma DriverJoins(s: State)
    requires Quiet(s) && !s.driver.Gone? && Enabled(s, JoinHelper)
    ensures DriverStep(s, JoinHelper).driver.Gone?
         || (Shaped(DriverStep(s, JoinHelper)) && Measure(DriverStep(s, JoinHelper)) < Measure(s))
  {
    hide Total, FreshPool, QuietSlot;
  }

  lemma HelperLeaves(s: State, a: Action)
    requires Quiet(s) && !s.driver.Gone? && Enabled(s, a) && (a.Lock? || a.Look?)
    ensures Shaped(HelperStep(s, a)) && Measure(HelperStep(s, a)) < Measure(s)
  {
    hide Total;
    var t := HelperStep(s, a);
    assert QuietSlot(a.h, s.slots[a.h], s.owners[a.h], s.helpers[a.h], s.coordinator, s.driver);
    TotalAt(Work, s, a.h, s.slots[a.h], t.helpers[a.h]);
  }

  lemma HelperAnnounces(s: State, h: nat)
    requires Quiet(s) && !s.driver.Gone? && Enabled(s, Announce(h))
    ensures Shaped(HelperStep(s, Announce(h))) && Measure(HelperStep(s, Announce(h))) < Measure(s)
  {
    hide Total, QuietSlot;
    TotalAt(Work, s, h, s.slots[h], ToLock);
  }

  lemma CoordinatorLetsGo(s: State)
    requires Quiet(s) && !s.driver.Gone? && Enabled(s, LookForResult)
    ensures Shaped(CoordinatorStep(s, LookForResult)) && Measure(CoordinatorStep(s, LookForResult)) < Measure(s)
  {
    hide Total;
    var h := s.coordinator.at;
    assert QuietSlot(h, s.slots[h], s.owners[h], s.helpers[h], s.coordinator, s.driver);
  }

  lemma CoordinatorTakes(s: State)
    requires Quiet(s) && !s.driver.Gone? && Enabled(s, TakeResult)
    ensures Shaped(CoordinatorStep(s, TakeResult)) && Measure(CoordinatorStep(s, TakeResult)) < Measure(s)
  {
    hide Total;
    var h := s.coordinator.at;
    assert QuietSlot(h, s.slots[h], s.owners[h], s.helpers[h], s.coordinator, s.driver);
    TotalAt(Work, s, h, Parked, s.helpers[h]);
  }

  /** Such a step leaves less to do. */
  lemma TeardownWorks(s: State, a: Action)
    requires Quiet(s) && !s.driver.Gone? && Enabled(s, a)
    requires a.StoreExit? || a.AnnounceExit? || a.JoinHelper? || a.LookForResult? || a.TakeResult?
          || a.Lock? || a.Look? || a.Announce?
    ensures Apply(s, a).driver.Gone? || (Shaped(Apply(s, a)) && Measure(Apply(s, a)) < Measure(s))
  {
    hide Quiet, Enabled, Measure, DriverStep, HelperStep, CoordinatorStep;
    match a
    case StoreExit => DriverOrders(s);
    case AnnounceExit => DriverAnnounces(s);
    case JoinHelper => DriverJoins(s);
    case Announce(h) => HelperAnnounces(s, h);
    case LookForResult => CoordinatorLetsGo(s);
    case TakeResult => CoordinatorTakes(s);
    case _ => HelperLeaves(s, a);
  }

  lemma QuietMeasure(s: State)
    requires Quiet(s) && !s.driver.Gone?
    ensures Shaped(s) && Measure(s) >= 0
  {}

  /** The thread the driver waits for can go on, or the driver itself. */
  lemma TeardownStep(s: State) returns (a: Action)
    requires Quiet(s) && !s.driver.Gone?
    ensures Enabled(s, a) && Quiet(Apply(s, a))
    ensures Apply(s, a).driver.Gone? || (Shaped(s) && Shaped(Apply(s, a)) && 0 <= Measure(Apply(s, a)) < Measure(s))
  {
    var d := s.driver;
    var h := if d.AnnouncingExit? then d.to else d.next;
    a := if d.AnnouncingExit? then AnnounceExit
         else if h == Size(s) || (d.JoiningHelper? && s.helpers[h].Dead?) then
           (if d.StoringExit? then StoreExit else JoinHelper)
         else if s.helpers[h].Looking? then Look(h)
         else if s.coordinator == LookingAt(h) then LookForResult
         else if s.coordinator == TakingFrom(h) then TakeResult
         else if d.StoringExit? then StoreExit
         else if s.helpers[h].Announcing? then Announce(h)
         else Lock(h);
    assert h < Size(s) ==> QuietSlot(h, s.slots[h], s.owners[h], s.helpers[h], s.coordinator, d);
    QuietStays(s, a);
    TeardownWorks(s, a);
    hide Total;
    QuietMeasure(s);
    if !Apply(s, a).driver.Gone? {
      QuietMeasure(Apply(s, a));
    }
  }

  lemma {:induction false} QuietEnds(s: State)
    requires Quiet(s)
    ensures !Doomed(s)
    decreases if Shaped(s) then Measure(s) else 0
  {
    hide Leads, Quiet, Measure, Enabled, Apply;
    if s.driver.Gone? {
      LeadsHere(s);
    } else {
      var a := TeardownStep(s);
      if Apply(s, a).driver.Gone? {
        LeadsHere(Apply(s, a));
        LeadsFirst(s, a, Apply(s, a));
      } else {
        QuietEnds(Apply(s, a));
        var t :| Leads(Apply(s, a), t) && t.driver.Gone?;
        LeadsFirst(s, a, t);
      }
    }
  }

  lemma QuietIsSafe(s: State)
    requires Inv(s) && s.driver.Idle? && !JobOutstanding(s)
    ensures !MayHang(s)
  {
    QuietAtFirst(s);
    hide Inv, Quiet, Runs, After;
    forall t | Leads(Abandon(s), t)
      ensures !Doomed(t)
    {
      var actions :| Runs(Abandon(s), actions) && t == After(Abandon(s), actions);
      QuietAlways(Abandon(s), actions);
      QuietEnds(t);
    }
  }

  /** The teardown without a join can hang exactly when a job is outstanding; after a join
      it cannot. */
  lemma HangsExactly(s: State)
    requires Reachable(s) && s.driver.Idle?
    ensures MayHang(s) <==> JobOutstanding(s)
    ensures s.coordinator.NoThread? ==> !MayHang(s)
  {
    ReachableInv(s);
    hide MayHang, Reachable, HeldBy, Results;
    if h :| 0 <= h < Size(s) && Outstanding(s.slots[h], s.coordinator, h) {
      OutstandingHangs(s, h);
      assert SlotOk(h, s.slots[h], s.owners[h], s.helpers[h], s.coordinator, s.driver, s.search);
    } else {
      QuietIsSafe(s);
    }
  }

  /** Such a state is reached: one helper, and a search just begun. */
  function JustStarted(): State {
    State([Parked], [Free], [ToLock], Started, Idle, false, NoSignal, false, 1, [], 2, false)
  }

  lemma JustStartedReachable()
    ensures Reachable(JustStarted())
  {
    var go := Go(NoSignal, false);
    var s0 := Initial();
    var s1, s2 := s0.(driver := Joined(Rebuild(2))), s0.(driver := StoringExit(0, 2, false));
    var s3 := s0.(driver := JoiningHelper(0, 2, false));
    var s4 := State([Parked], [Free], [ToLock], NoThread, Idle, false, NoSignal, false, 0, [], 1, false);
    var s5 := s4.(driver := Joined(go));
    assert Apply(s0, Command(Rebuild(2))) == s1 && Apply(s1, Perform) == s2 && Apply(s2, StoreExit) == s3;
    assert FreshPool(2) == [Parked];
    assert Apply(s3, JoinHelper) == s4;
    assert Apply(s4, Command(go)) == s5 && Apply(s5, Perform) == JustStarted();
    LeadsHere(JustStarted());
    hide Leads, Apply, Initial, JustStarted;
    LeadsFirst(s5, Perform, JustStarted());
    LeadsFirst(s4, Command(go), JustStarted());
    LeadsFirst(s3, JoinHelper, JustStarted());
    LeadsFirst(s2, StoreExit, JustStarted());
    LeadsFirst(s1, Perform, JustStarted());
    LeadsFirst(s0, Command(Rebuild(2)), JustStarted());
    ReachableByLead(JustStarted());
  }

  lemma ReachableByLead(s: State)
    requires Leads(Initial(), s)
    ensures Reachable(s)
  {}

  /** So the claim that every teardown joins the coordinator first fails on this path, and
      not without effect. */
  lemma AbandonMayHang()
    ensures Reachable(JustStarted()) && JustStarted().driver.Idle? && MayHang(JustStarted())
  {
    JustStartedReachable();
    hide MayHang, Reachable;
    assert Outstanding(JustStarted().slots[0], JustStarted().coordinator, 0);
    HangsExactly(JustStarted());
  }
}
