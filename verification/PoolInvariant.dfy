/** What every step of the worker pool keeps. */
module PoolInvariant {
  import opened WorkerPool

  datatype Want = WantParked | WantActive | WantExit

  /** What the coordinator and the driver, by where they are, have made of slot `h`. */
  function Wanted(h: nat, c: Coordinator, d: Driver): Want {
    match d
    case StoringExit(next, _, _) => if h < next then WantExit else WantParked
    case AnnouncingExit(to, _, _) => if h <= to then WantExit else WantParked
    case JoiningHelper(_, _, _) => WantExit
    case _ =>
      match c
      case Assigning(next) => if h < next then WantActive else WantParked
      case AnnouncingJob(to) => if h <= to then WantActive else WantParked
      case MainSearch => WantActive
      case Holding => WantActive
      case Stopping => WantActive
      case Collecting(next) => if h < next then WantParked else WantActive
      case LookingAt(at) => if h < at then WantParked else WantActive
      case AsleepOn(at) => if h < at then WantParked else WantActive
      case TakingFrom(at) => if h < at then WantParked else WantActive
      case _ => WantParked
  }

  /** A helper that is neither at work nor about to be. */
  predicate AtRest(p: Helper) {
    p.ToLock? || p.Looking? || p.Asleep? || p.Announcing?
  }

  /** The helper's place fits its slot. */
  predicate Fits(slot: Slot, p: Helper, job: Job) {
    match slot
    case Parked => AtRest(p)
    case Assigned(j) => j == job && (AtRest(p) || p.Taking?)
    case Running => p == Searching(job) || p == Searched(job) || p == Dropped(job)
    case Finished(r) => r == job && AtRest(p)
    case Exit => AtRest(p) || p.Dead?
  }

  predicate As(slot: Slot, want: Want) {
    match want
    case WantParked => slot.Parked?
    case WantActive => slot.Assigned? || slot.Running? || slot.Finished?
    case WantExit => slot.Exit?
  }

  /** Who holds the slot's lock. */
  predicate Owned(h: nat, owner: Owner, p: Helper, c: Coordinator) {
    && (owner.ByHelper? <==> p.Looking? || p.Taking?)
    && (owner.ByCoordinator? <==> c == LookingAt(h) || c == TakingFrom(h))
  }

  /** No wakeup is lost: a helper sleeps on a job or on the order to exit only while the
      notification is still to come, and so does the coordinator on a result. */
  predicate WillWake(h: nat, slot: Slot, p: Helper, c: Coordinator, d: Driver) {
    && (p.Asleep? && slot.Assigned? ==> c == AnnouncingJob(h))
    && (p.Asleep? && slot.Exit? ==> d.AnnouncingExit? && d.to == h)
    && (c == AsleepOn(h) && slot.Finished? ==> p.Announcing?)
  }

  predicate SlotOk(h: nat, slot: Slot, owner: Owner, p: Helper, c: Coordinator, d: Driver, search: nat) {
    && As(slot, Wanted(h, c, d))
    && Fits(slot, p, Job(h + 1, search))
    && Owned(h, owner, p, c)
    && WillWake(h, slot, p, c, d)
    && (c == TakingFrom(h) ==> slot.Finished?)
    && (d.JoiningHelper? && h < d.next ==> p.Dead?)
  }

  /** The coordinator's index into the slots. */
  predicate InBounds(n: nat, c: Coordinator, d: Driver) {
    && (c.Assigning? ==> c.next <= n) && (c.AnnouncingJob? ==> c.to < n)
    && (c.Collecting? ==> c.next <= n)
    && (c.LookingAt? || c.AsleepOn? || c.TakingFrom? ==> c.at < n)
    && (d.StoringExit? ==> d.next <= n) && (d.AnnouncingExit? ==> d.to < n) && (d.JoiningHelper? ==> d.next <= n)
  }

  /** The pool is torn down, and the table used alone, only without a coordinator. */
  predicate Alone(d: Driver) {
    d.Joined? || d.StoringExit? || d.AnnouncingExit? || d.JoiningHelper? || d.Gone?
  }

  /** The results of the main worker and of the first `k` helpers. */
  function Results(k: nat, search: nat): (r: seq<Job>)
    ensures |r| == k + 1
  {
    seq(k + 1, (i: nat) => Job(i, search))
  }

  predicate Collected(n: nat, c: Coordinator, results: seq<Job>, search: nat) {
    match c
    case Collecting(next) => results == Results(next, search)
    case LookingAt(at) => results == Results(at, search)
    case AsleepOn(at) => results == Results(at, search)
    case TakingFrom(at) => results == Results(at, search)
    case Finishing => results == [] || results == Results(n, search)
    case Ended => results == [] || results == Results(n, search)
    case NoThread => true
    case _ => results == []
  }

  /** One handle on the table for each job assigned or searched. */
  function Holds(slot: Slot, p: Helper): nat {
    if slot.Assigned? || p.Searching? || p.Searched? then 1 else 0
  }

  function Total(f: (Slot, Helper) -> nat, slots: seq<Slot>, helpers: seq<Helper>): nat
    requires |slots| == |helpers|
  {
    if slots == [] then 0
    else Total(f, slots[..|slots| - 1], helpers[..|slots| - 1]) + f(slots[|slots| - 1], helpers[|slots| - 1])
  }

  function HeldBy(slots: seq<Slot>, helpers: seq<Helper>): nat
    requires |slots| == |helpers|
  {
    Total(Holds, slots, helpers)
  }

  function HeldByCoordinator(c: Coordinator): nat {
    if c.NoThread? || c.Ended? then 0 else 1
  }

  ghost predicate Slots(s: State) {
    && Shaped(s)
    && forall h :: 0 <= h < Size(s) ==>
         SlotOk(h, s.slots[h], s.owners[h], s.helpers[h], s.coordinator, s.driver, s.search)
  }

  ghost predicate Inv(s: State) {
    && Slots(s)
    && InBounds(Size(s), s.coordinator, s.driver)
    && (Alone(s.driver) ==> s.coordinator.NoThread?)
    && (s.driver.Join? ==> s.stop && !s.coordinator.NoThread?)
    && (s.driver.Stop? ==> !s.coordinator.NoThread?)
    && Collected(Size(s), s.coordinator, s.results, s.search)
    && s.refs == 1 + HeldByCoordinator(s.coordinator) + HeldBy(s.slots, s.helpers)
    && !s.panicked
  }

  // ----- counting handles -----

  lemma {:induction false} TotalUpdate(f: (Slot, Helper) -> nat, slots: seq<Slot>, helpers: seq<Helper>, h: nat,
      slot: Slot, p: Helper)
    requires h < |slots| == |helpers|
    ensures Total(f, slots[h := slot], helpers[h := p]) + f(slots[h], helpers[h])
         == Total(f, slots, helpers) + f(slot, p)
  {
    var n := |slots| - 1;
    var slots', helpers' := slots[h := slot], helpers[h := p];
    if h < n {
      TotalUpdate(f, slots[..n], helpers[..n], h, slot, p);
      assert slots'[..n] == slots[..n][h := slot] && helpers'[..n] == helpers[..n][h := p];
    } else {
      assert slots'[..n] == slots[..n] && helpers'[..n] == helpers[..n];
    }
  }

  /** One slot and its helper change. */
  lemma TotalAt(f: (Slot, Helper) -> nat, s: State, h: nat, slot: Slot, p: Helper)
    requires Shaped(s) && h < Size(s)
    ensures Total(f, s.slots[h := slot], s.helpers[h := p]) + f(s.slots[h], s.helpers[h])
         == Total(f, s.slots, s.helpers) + f(slot, p)
    ensures Total(f, s.slots, s.helpers[h := p]) + f(s.slots[h], s.helpers[h])
         == Total(f, s.slots, s.helpers) + f(s.slots[h], p)
    ensures Total(f, s.slots[h := slot], s.helpers) + f(s.slots[h], s.helpers[h])
         == Total(f, s.slots, s.helpers) + f(slot, s.helpers[h])
  {
    TotalUpdate(f, s.slots, s.helpers, h, slot, p);
    TotalUpdate(f, s.slots, s.helpers, h, s.slots[h], p);
    TotalUpdate(f, s.slots, s.helpers, h, slot, s.helpers[h]);
    assert s.slots[h := s.slots[h]] == s.slots && s.helpers[h := s.helpers[h]] == s.helpers;
  }

  lemma HeldAt(s: State, h: nat, slot: Slot, p: Helper)
    requires Shaped(s) && h < Size(s)
    ensures HeldBy(s.slots[h := slot], s.helpers[h := p]) + Holds(s.slots[h], s.helpers[h])
         == HeldBy(s.slots, s.helpers) + Holds(slot, p)
    ensures HeldBy(s.slots, s.helpers[h := p]) + Holds(s.slots[h], s.helpers[h])
         == HeldBy(s.slots, s.helpers) + Holds(s.slots[h], p)
    ensures HeldBy(s.slots[h := slot], s.helpers) + Holds(s.slots[h], s.helpers[h])
         == HeldBy(s.slots, s.helpers) + Holds(slot, s.helpers[h])
  {
    TotalAt(Holds, s, h, slot, p);
  }

  lemma {:induction false} HeldByNone(slots: seq<Slot>, helpers: seq<Helper>)
    requires |slots| == |helpers|
    requires forall h :: 0 <= h < |slots| ==> Holds(slots[h], helpers[h]) == 0
    ensures HeldBy(slots, helpers) == 0
  {
    if slots != [] {
      HeldByNone(slots[..|slots| - 1], helpers[..|slots| - 1]);
    }
  }

  // ----- the helpers -----

  lemma LockKeeps(s: State, h: nat)
    requires Inv(s) && Enabled(s, Lock(h))
    ensures Inv(Apply(s, Lock(h)))
  {
    hide HeldBy, Results, Collected, InBounds, Alone, HeldByCoordinator;
    HeldAt(s, h, s.slots[h], Looking);
  }

  lemma LookKeeps(s: State, h: nat)
    requires Inv(s) && Enabled(s, Look(h))
    ensures Inv(Apply(s, Look(h)))
  {
    hide HeldBy, Results, Collected, InBounds, Alone, HeldByCoordinator;
    HeldAt(s, h, s.slots[h], Apply(s, Look(h)).helpers[h]);
  }

  lemma TakeKeeps(s: State, h: nat)
    requires Inv(s) && Enabled(s, Take(h))
    ensures Inv(Apply(s, Take(h)))
  {
    hide HeldBy, Results, Collected, InBounds, Alone, HeldByCoordinator;
    HeldAt(s, h, Running, Apply(s, Take(h)).helpers[h]);
  }

  lemma FinishSearchKeeps(s: State, h: nat)
    requires Inv(s) && Enabled(s, FinishSearch(h))
    ensures Inv(Apply(s, FinishSearch(h)))
  {
    hide HeldBy, Results, Collected, InBounds, Alone, HeldByCoordinator;
    HeldAt(s, h, s.slots[h], Searched(s.helpers[h].job));
  }

  lemma DropJobKeeps(s: State, h: nat)
    requires Inv(s) && Enabled(s, DropJob(h))
    ensures Inv(Apply(s, DropJob(h)))
  {
    hide HeldBy, Results, Collected, InBounds, Alone, HeldByCoordinator;
    HeldAt(s, h, s.slots[h], Dropped(s.helpers[h].job));
  }

  lemma PublishKeeps(s: State, h: nat)
    requires Inv(s) && Enabled(s, Publish(h))
    ensures Inv(Apply(s, Publish(h)))
  {
    hide HeldBy, Results, Collected, InBounds, Alone, HeldByCoordinator;
    HeldAt(s, h, Finished(s.helpers[h].job), Announcing);
  }

  lemma AnnounceKeeps(s: State, h: nat)
    requires Inv(s) && Enabled(s, Announce(h))
    ensures Inv(Apply(s, Announce(h)))
  {
    hide HeldBy, Results;
    HeldAt(s, h, s.slots[h], ToLock);
  }

  lemma SpuriousHelperKeeps(s: State, h: nat)
    requires Inv(s) && Enabled(s, SpuriousHelper(h))
    ensures Inv(Apply(s, SpuriousHelper(h)))
  {
    hide HeldBy, Results, Collected, InBounds, Alone, HeldByCoordinator;
    HeldAt(s, h, s.slots[h], ToLock);
  }

  // ----- the coordinator -----

  lemma CoordinatorMoves(s: State, a: Action)
    requires Inv(s) && Enabled(s, a)
    requires a.ShortCircuit? || a.BookHit? || a.StopHoldingBook? || a.Dispatch?
    ensures Inv(Apply(s, a))
  {
    hide HeldBy, Results;
  }

  lemma SearchMoves(s: State, a: Action)
    requires Inv(s) && Enabled(s, a)
    requires a.FinishMain? || a.StopHolding? || a.SpuriousCoordinator?
    ensures Inv(Apply(s, a))
  {
    hide HeldBy, Results;
  }

  lemma StopWorkersKeeps(s: State)
    requires Inv(s) && Enabled(s, StopWorkers)
    ensures Inv(Apply(s, StopWorkers))
  {
    hide HeldBy;
    assert Results(0, s.search) == [Job(0, s.search)];
  }

  lemma EndSearchKeeps(s: State)
    requires Inv(s) && Enabled(s, EndSearch)
    ensures Inv(Apply(s, EndSearch))
  {
    hide HeldBy, Results;
  }

  lemma StoreJobKeeps(s: State)
    requires Inv(s) && Enabled(s, StoreJob)
    ensures Inv(Apply(s, StoreJob))
  {
    hide HeldBy, Results;
    var h := s.coordinator.next;
    if h < Size(s) {
      HeldAt(s, h, Assigned(Job(h + 1, s.search)), s.helpers[h]);
    }
  }

  lemma AnnounceJobKeeps(s: State)
    requires Inv(s) && Enabled(s, AnnounceJob)
    ensures Inv(Apply(s, AnnounceJob))
  {
    hide HeldBy, Results;
    HeldAt(s, s.coordinator.to, s.slots[s.coordinator.to], ToLock);
  }

  lemma LockForCollectKeeps(s: State)
    requires Inv(s) && Enabled(s, LockForCollect)
    ensures Inv(Apply(s, LockForCollect))
  {
    hide HeldBy, Results;
  }

  lemma LookForResultKeeps(s: State)
    requires Inv(s) && Enabled(s, LookForResult)
    ensures Inv(Apply(s, LookForResult))
  {
    hide HeldBy, Results;
  }

  lemma TakeResultKeeps(s: State)
    requires Inv(s) && Enabled(s, TakeResult)
    ensures Inv(Apply(s, TakeResult))
  {
    hide HeldBy;
    var h := s.coordinator.at;
    HeldAt(s, h, Parked, s.helpers[h]);
    assert Results(h, s.search) + [Job(h + 1, s.search)] == Results(h + 1, s.search);
  }

  // ----- the driver -----

  lemma DriverMoves(s: State, a: Action)
    requires Inv(s) && Enabled(s, a)
    requires a.Command? || a.StopCommand? || a.PonderHit? || a.StoreStop? || a.JoinSearch?
    ensures Inv(Apply(s, a))
  {
    hide HeldBy, Results;
  }

  /** Whoever has joined the search holds the only handle on the table. */
  lemma SoleOwner(s: State)
    requires Inv(s) && s.driver.Joined?
    ensures s.refs == 1
  {
    forall h | 0 <= h < Size(s)
      ensures Holds(s.slots[h], s.helpers[h]) == 0
    {
      assert SlotOk(h, s.slots[h], s.owners[h], s.helpers[h], s.coordinator, s.driver, s.search);
    }
    HeldByNone(s.slots, s.helpers);
  }

  lemma PerformKeeps(s: State)
    requires Inv(s) && Enabled(s, Perform)
    ensures Inv(Apply(s, Perform))
  {
    SoleOwner(s);
    hide HeldBy, Results;
    if s.driver.op.Go? {
      GoKeeps(s);
    } else {
      OpKeeps(s);
    }
  }

  /** A new search starts on parked slots. */
  lemma GoKeeps(s: State)
    requires Inv(s) && Enabled(s, Perform) && s.driver.op.Go? && s.refs == 1
    ensures Inv(Apply(s, Perform))
  {
    hide HeldBy, Results;
    var t := Apply(s, Perform);
    forall h | 0 <= h < Size(s)
      ensures SlotOk(h, t.slots[h], t.owners[h], t.helpers[h], t.coordinator, t.driver, t.search)
    {
      assert SlotOk(h, s.slots[h], s.owners[h], s.helpers[h], s.coordinator, s.driver, s.search);
    }
  }

  lemma OpKeeps(s: State)
    requires Inv(s) && Enabled(s, Perform) && !s.driver.op.Go? && s.refs == 1
    ensures Inv(Apply(s, Perform))
  {
    hide HeldBy, Results, Collected;
    var t := Apply(s, Perform);
    forall h | 0 <= h < Size(s)
      ensures SlotOk(h, t.slots[h], t.owners[h], t.helpers[h], t.coordinator, t.driver, t.search)
    {
      assert SlotOk(h, s.slots[h], s.owners[h], s.helpers[h], s.coordinator, s.driver, s.search);
    }
  }

  lemma StoreExitKeeps(s: State)
    requires Inv(s) && Enabled(s, StoreExit)
    ensures Inv(Apply(s, StoreExit))
  {
    hide HeldBy, Results;
    var h := s.driver.next;
    if h < Size(s) {
      HeldAt(s, h, Exit, s.helpers[h]);
    }
  }

  lemma AnnounceExitKeeps(s: State)
    requires Inv(s) && Enabled(s, AnnounceExit)
    ensures Inv(Apply(s, AnnounceExit))
  {
    hide HeldBy, Results;
    HeldAt(s, s.driver.to, s.slots[s.driver.to], ToLock);
  }

  lemma JoinHelperKeeps(s: State)
    requires Inv(s) && Enabled(s, JoinHelper)
    ensures Inv(Apply(s, JoinHelper))
  {
    hide HeldBy, Results;
    if s.driver.next == Size(s) {
      NewPoolKeeps(s);
    }
  }

  lemma NewPoolKeeps(s: State)
    requires Inv(s) && s.driver.JoiningHelper?
    ensures Inv(NewPool(s, s.driver.size, s.driver.quit))
  {
    forall h | 0 <= h < Size(s)
      ensures Holds(s.slots[h], s.helpers[h]) == 0
    {
      assert SlotOk(h, s.slots[h], s.owners[h], s.helpers[h], s.coordinator, s.driver, s.search);
    }
    HeldByNone(s.slots, s.helpers);
    var t := NewPool(s, s.driver.size, s.driver.quit);
    HeldByNone(t.slots, t.helpers);
  }

  /** Every step keeps the invariant. */
  lemma StepKeeps(s: State, a: Action)
    requires Inv(s) && Enabled(s, a)
    ensures Inv(Apply(s, a))
  {
    hide Inv, Apply;
    match a {
      case Perform => PerformKeeps(s);
      case StoreExit => StoreExitKeeps(s);
      case AnnounceExit => AnnounceExitKeeps(s);
      case JoinHelper => JoinHelperKeeps(s);
      case StoreJob => StoreJobKeeps(s);
      case AnnounceJob => AnnounceJobKeeps(s);
      case LockForCollect => LockForCollectKeeps(s);
      case LookForResult => LookForResultKeeps(s);
      case TakeResult => TakeResultKeeps(s);
      case Lock(h) => LockKeeps(s, h);
      case Look(h) => LookKeeps(s, h);
      case Take(h) => TakeKeeps(s, h);
      case FinishSearch(h) => FinishSearchKeeps(s, h);
      case DropJob(h) => DropJobKeeps(s, h);
      case Publish(h) => PublishKeeps(s, h);
      case Announce(h) => AnnounceKeeps(s, h);
      case SpuriousHelper(h) => SpuriousHelperKeeps(s, h);
      case Command(_) => DriverMoves(s, a);
      case StopCommand => DriverMoves(s, a);
      case PonderHit => DriverMoves(s, a);
      case StoreStop => DriverMoves(s, a);
      case JoinSearch => DriverMoves(s, a);
      case FinishMain => SearchMoves(s, a);
      case StopHolding => SearchMoves(s, a);
      case SpuriousCoordinator => SearchMoves(s, a);
      case StopWorkers => StopWorkersKeeps(s);
      case EndSearch => EndSearchKeeps(s);
      case _ => CoordinatorMoves(s, a);
    }
  }
}
