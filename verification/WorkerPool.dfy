/** The driver, one coordinator thread per search, and the persistent helper threads, as
    atomic steps on the slots they share. A mutex is held across a check and the write it
    decides; a wait releases it and falls asleep in one step; a notification is a step of
    its own, after the write it announces. */
module WorkerPool {
  /** The work of one worker (1 and up are helpers, 0 the main worker) in one search. */
  datatype Job = Job(worker: nat, search: nat)

  datatype Slot = Parked | Assigned(job: Job) | Running | Finished(result: Job) | Exit

  datatype Owner = Free | ByHelper | ByCoordinator

  datatype Helper =
    | ToLock            // about to lock its slot and look
    | Looking           // holds the lock
    | Taking            // holds the lock and has seen a job
    | Asleep            // waits on the condition variable
    | Searching(job: Job)
    | Searched(job: Job)  // still holds the job's handle on the table
    | Dropped(job: Job)   // has released it
    | Announcing        // has published its result, not yet notified
    | Dead

  datatype Coordinator =
    | NoThread
    | Started
    | HoldingBook       // a book reply, held back likewise
    | Assigning(next: nat)
    | AnnouncingJob(to: nat)
    | MainSearch
    | Holding           // the reply is held back while pondering or infinite
    | Stopping
    | Collecting(next: nat)   // about to lock the slot
    | LookingAt(at: nat)      // holds the lock
    | AsleepOn(at: nat)
    | TakingFrom(at: nat)     // holds the lock and has seen a result
    | Finishing
    | Ended             // has released the table; not yet joined

  /** The ponder signal of a search, if it was started with one. */
  datatype Ponder = NoSignal | Signal(active: bool)

  datatype Op = Go(ponder: Ponder, infinite: bool) | Resize | Clear(size: nat) | Rebuild(size: nat) | Quit

  datatype Driver =
    | Idle
    | Stop(op: Op)      // about to store the stop flag
    | Join(op: Op)      // waits for the coordinator
    | Joined(op: Op)    // the search has been joined
    | StoringExit(next: nat, size: nat, quit: bool)
    | AnnouncingExit(to: nat, size: nat, quit: bool)
    | JoiningHelper(next: nat, size: nat, quit: bool)
    | Gone

  datatype State = State(
    slots: seq<Slot>, owners: seq<Owner>, helpers: seq<Helper>,
    coordinator: Coordinator, driver: Driver,
    stop: bool, ponder: Ponder, infinite: bool, search: nat, results: seq<Job>,
    refs: nat,          // handles on the transposition table, the driver's own among them
    panicked: bool)     // a sole-ownership check or an `unreachable!` arm was hit

  datatype Action =
    // driver
    | Command(op: Op) | StopCommand | PonderHit | StoreStop | JoinSearch | Perform
    | StoreExit | AnnounceExit | JoinHelper
    // coordinator
    | ShortCircuit | BookHit | StopHoldingBook | Dispatch | StoreJob | AnnounceJob | FinishMain | StopHolding
    | StopWorkers
    | LockForCollect | LookForResult | TakeResult | EndSearch
    // helper
    | Lock(h: nat) | Look(h: nat) | Take(h: nat) | FinishSearch(h: nat) | DropJob(h: nat) | Publish(h: nat)
    | Announce(h: nat)
    // a wait may also return by itself
    | SpuriousHelper(h: nat) | SpuriousCoordinator

  function Size(s: State): nat {
    |s.slots|
  }

  /** Is the reply withheld? */
  predicate Held(s: State) {
    !s.stop && (s.ponder == Signal(true) || s.infinite)
  }

  /** One lock and one thread for each slot. */
  predicate Shaped(s: State) {
    |s.owners| == Size(s) && |s.helpers| == Size(s)
  }

  /** May action `a` happen now? */
  predicate Enabled(s: State, a: Action) {
    var n, c, d := Size(s), s.coordinator, s.driver;
    Shaped(s)
    && match a
       case Command(_) => d.Idle?
       case StopCommand => d.Idle? && !c.NoThread?
       case PonderHit => d.Idle? && !c.NoThread?
       case StoreStop => d.Stop?
       case JoinSearch => d.Join? && c.Ended?
       case Perform => d.Joined?
       case StoreExit => d.StoringExit? && (d.next < n ==> s.owners[d.next].Free?)
       case AnnounceExit => d.AnnouncingExit?
       case JoinHelper => d.JoiningHelper? && (d.next < n ==> s.helpers[d.next].Dead?)
       case ShortCircuit => c.Started?
       case BookHit => c.Started?
       case StopHoldingBook => c.HoldingBook? && !Held(s)
       case Dispatch => c.Started?
       case StoreJob => c.Assigning? && (c.next < n ==> s.owners[c.next].Free?)
       case AnnounceJob => c.AnnouncingJob?
       case FinishMain => c.MainSearch?
       case StopHolding => c.Holding? && !Held(s)
       case StopWorkers => c.Stopping?
       case LockForCollect => c.Collecting? && (c.next < n ==> s.owners[c.next].Free?)
       case LookForResult => c.LookingAt? && c.at < n
       case TakeResult => c.TakingFrom? && c.at < n
       case EndSearch => c.Finishing?
       case Lock(h) => h < n && s.helpers[h].ToLock? && s.owners[h].Free?
       case Look(h) => h < n && s.helpers[h].Looking?
       case Take(h) => h < n && s.helpers[h].Taking?
       case FinishSearch(h) => h < n && s.helpers[h].Searching?
       case DropJob(h) => h < n && s.helpers[h].Searched?
       case Publish(h) => h < n && s.helpers[h].Dropped? && s.owners[h].Free?
       case Announce(h) => h < n && s.helpers[h].Announcing?
       case SpuriousHelper(h) => h < n && s.helpers[h].Asleep?
       case SpuriousCoordinator => c.AsleepOn?
  }

  /** `notify_all` on one slot: whoever sleeps on it goes back to its lock. */
  function NotifyAll(s: State, h: nat): State
    requires |s.helpers| == Size(s)
  {
    var helpers := if h < |s.helpers| && s.helpers[h].Asleep? then s.helpers[h := ToLock] else s.helpers;
    var c := if s.coordinator == AsleepOn(h) then Collecting(h) else s.coordinator;
    s.(helpers := helpers, coordinator := c)
  }

  function FreshPool(size: nat): seq<Slot> {
    seq(if size == 0 then 0 else size - 1, _ => Parked)
  }

  function Release(refs: nat): nat {
    if refs == 0 then 0 else refs - 1
  }

  function PerformOp(s: State, op: Op): State {
    match op
    case Go(ponder, infinite) =>
      s.(coordinator := Started, driver := Idle, stop := false, ponder := ponder, infinite := infinite,
         search := s.search + 1, results := [], refs := s.refs + 1)
    case Resize => s.(driver := Idle, panicked := s.panicked || s.refs != 1)
    case Clear(size) => s.(driver := StoringExit(0, size, false), panicked := s.panicked || s.refs != 1)
    case Rebuild(size) => s.(driver := StoringExit(0, size, false))
    case Quit => s.(driver := StoringExit(0, 0, true))
  }

  /** The old threads are joined; the new slots and threads take their place. */
  function NewPool(s: State, size: nat, quit: bool): State {
    var slots := if quit then [] else FreshPool(size);
    s.(slots := slots, owners := seq(|slots|, _ => Free), helpers := seq(|slots|, _ => ToLock),
       driver := if quit then Gone else Idle)
  }

  function DriverStep(s: State, a: Action): State
    requires Enabled(s, a)
    requires a.Command? || a.StopCommand? || a.PonderHit? || a.StoreStop? || a.JoinSearch? || a.Perform?
          || a.StoreExit? || a.AnnounceExit? || a.JoinHelper?
  {
    var d := s.driver;
    match a
    case Command(op) => s.(driver := if s.coordinator.NoThread? then Joined(op) else Stop(op))
    case StopCommand => s.(stop := true)
    case PonderHit => if s.ponder.Signal? then s.(ponder := Signal(false)) else s.(stop := true)
    case StoreStop => s.(stop := true, driver := Join(d.op))
    case JoinSearch => s.(coordinator := NoThread, driver := Joined(d.op))
    case Perform => PerformOp(s, d.op)
    case StoreExit =>
      if d.next < Size(s) then s.(slots := s.slots[d.next := Exit], driver := AnnouncingExit(d.next, d.size, d.quit))
      else s.(driver := JoiningHelper(0, d.size, d.quit))
    case AnnounceExit => NotifyAll(s, d.to).(driver := StoringExit(d.to + 1, d.size, d.quit))
    case JoinHelper =>
      if d.next < Size(s) then s.(driver := JoiningHelper(d.next + 1, d.size, d.quit))
      else NewPool(s, d.size, d.quit)
  }

  function CoordinatorStep(s: State, a: Action): State
    requires Enabled(s, a)
    requires a.ShortCircuit? || a.BookHit? || a.StopHoldingBook? || a.Dispatch? || a.StoreJob? || a.AnnounceJob?
          || a.FinishMain? || a.StopHolding? || a.StopWorkers? || a.LockForCollect? || a.LookForResult?
          || a.TakeResult? || a.EndSearch? || a.SpuriousCoordinator?
  {
    var c := s.coordinator;
    match a
    case ShortCircuit => s.(coordinator := Finishing)
    case BookHit => s.(coordinator := HoldingBook)
    case StopHoldingBook => s.(coordinator := Finishing)
    case Dispatch => s.(coordinator := Assigning(0))
    case StoreJob =>
      if c.next < Size(s) then
        s.(slots := s.slots[c.next := Assigned(Job(c.next + 1, s.search))], refs := s.refs + 1,
           coordinator := AnnouncingJob(c.next))
      else s.(coordinator := MainSearch)
    case AnnounceJob => NotifyAll(s, c.to).(coordinator := Assigning(c.to + 1))
    case FinishMain => s.(coordinator := Holding)
    case StopHolding => s.(coordinator := Stopping)
    case StopWorkers => s.(stop := true, results := [Job(0, s.search)], coordinator := Collecting(0))
    case LockForCollect =>
      if c.next < Size(s) then s.(owners := s.owners[c.next := ByCoordinator], coordinator := LookingAt(c.next))
      else s.(coordinator := Finishing)
    case LookForResult =>
      if s.slots[c.at].Finished? then s.(coordinator := TakingFrom(c.at))
      else s.(owners := s.owners[c.at := Free], coordinator := AsleepOn(c.at))
    case TakeResult =>
      if s.slots[c.at].Finished? then
        s.(slots := s.slots[c.at := Parked], owners := s.owners[c.at := Free],
           results := s.results + [s.slots[c.at].result], coordinator := Collecting(c.at + 1))
      else s.(panicked := true)
    case EndSearch => s.(coordinator := Ended, refs := Release(s.refs))
    case SpuriousCoordinator => s.(coordinator := Collecting(c.at))
  }

  function HelperStep(s: State, a: Action): State
    requires Enabled(s, a)
    requires a.Lock? || a.Look? || a.Take? || a.FinishSearch? || a.DropJob? || a.Publish? || a.Announce?
          || a.SpuriousHelper?
  {
    var h := a.h;
    match a
    case Lock(_) => s.(owners := s.owners[h := ByHelper], helpers := s.helpers[h := Looking])
    case Look(_) =>
      if s.slots[h].Assigned? then s.(helpers := s.helpers[h := Taking])
      else s.(owners := s.owners[h := Free], helpers := s.helpers[h := if s.slots[h].Exit? then Dead else Asleep])
    case Take(_) =>
      if s.slots[h].Assigned? then
        s.(slots := s.slots[h := Running], owners := s.owners[h := Free],
           helpers := s.helpers[h := Searching(s.slots[h].job)])
      else s.(panicked := true)
    case FinishSearch(_) => s.(helpers := s.helpers[h := Searched(s.helpers[h].job)])
    case DropJob(_) => s.(helpers := s.helpers[h := Dropped(s.helpers[h].job)], refs := Release(s.refs))
    case Publish(_) => s.(slots := s.slots[h := Finished(s.helpers[h].job)], helpers := s.helpers[h := Announcing])
    case Announce(_) => NotifyAll(s.(helpers := s.helpers[h := ToLock]), h)
    case SpuriousHelper(_) => s.(helpers := s.helpers[h := ToLock])
  }

  predicate ByDriver(a: Action) {
    a.Command? || a.StopCommand? || a.PonderHit? || a.StoreStop? || a.JoinSearch? || a.Perform?
    || a.StoreExit? || a.AnnounceExit? || a.JoinHelper?
  }

  predicate ByHelperThread(a: Action) {
    a.Lock? || a.Look? || a.Take? || a.FinishSearch? || a.DropJob? || a.Publish? || a.Announce? || a.SpuriousHelper?
  }

  function Apply(s: State, a: Action): State
    requires Enabled(s, a)
  {
    if ByDriver(a) then DriverStep(s, a)
    else if ByHelperThread(a) then HelperStep(s, a)
    else CoordinatorStep(s, a)
  }

  /** Before the first pool: no thread but the driver. */
  function Initial(): State {
    State([], [], [], NoThread, Idle, false, NoSignal, false, 0, [], 1, false)
  }
}
