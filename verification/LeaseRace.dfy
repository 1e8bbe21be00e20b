/**
  Who owns a lease when a coroutine awaits an acquire that runs on an executor
  thread and may be interrupted at any moment. The same protocol guards a gateway
  connection that is opened on an executor thread.
 */
module LeaseRace {

  /** The executor thread: acquire, then publish the lease or give it back, under the lock. */
  datatype Executor =
    | Acquiring | Granted | Checking | Storing | Dropping | Leaving(stored: bool) | Finished(ok: bool)

  /** The awaiting coroutine, on its way to return the lease or to raise. */
  datatype Coroutine =
    | Awaiting | Raising | CancelSet | Popping | Releasing(held: bool) | Raised
    | Succeeding | Clearing | Returned

  datatype Lock = Free | ByExecutor | ByCoroutine

  datatype State = State(x: Executor, c: Coroutine, lock: Lock, cancel: bool, holder: bool, active: bool)

  const START := State(Acquiring, Awaiting, Free, false, false, false)

  datatype Event =
    | AcquireSucceeds | AcquireFails | ExecutorLocks | ExecutorChecks | ExecutorStores | ExecutorDrops | ExecutorUnlocks
    | SeesResult | Interrupted | SetsCancel | CoroutineLocks | PopsHolder | ReleasesHeld | LocksToClear | ClearsHolder

  predicate Enabled(s: State, e: Event) {
    match e
    case AcquireSucceeds => s.x == Acquiring
    case AcquireFails => s.x == Acquiring
    case ExecutorLocks => s.x == Granted && s.lock == Free
    case ExecutorChecks => s.x == Checking
    case ExecutorStores => s.x == Storing
    case ExecutorDrops => s.x == Dropping
    case ExecutorUnlocks => s.x.Leaving?
    case SeesResult => s.c == Awaiting && s.x.Finished?
    case Interrupted => s.c == Awaiting
    case SetsCancel => s.c == Raising
    case CoroutineLocks => s.c == CancelSet && s.lock == Free
    case PopsHolder => s.c == Popping
    case ReleasesHeld => s.c.Releasing?
    case LocksToClear => s.c == Succeeding && s.lock == Free
    case ClearsHolder => s.c == Clearing
  }

  function Next(s: State, e: Event): State
    requires Enabled(s, e)
  {
    match e
    case AcquireSucceeds => s.(x := Granted, active := true)
    case AcquireFails => s.(x := Finished(false))
    case ExecutorLocks => s.(x := Checking, lock := ByExecutor)
    case ExecutorChecks => s.(x := if s.cancel then Dropping else Storing)
    case ExecutorStores => s.(x := Leaving(true), holder := true)
    case ExecutorDrops => s.(x := Leaving(false), active := false)
    case ExecutorUnlocks => s.(x := Finished(s.x.stored), lock := Free)
    case SeesResult => s.(c := if s.x.ok then Succeeding else Raising)
    case Interrupted => s.(c := Raising)
    case SetsCancel => s.(c := CancelSet, cancel := true)
    case CoroutineLocks => s.(c := Popping, lock := ByCoroutine)
    case PopsHolder => s.(c := Releasing(s.holder), holder := false, lock := Free)
    case ReleasesHeld => s.(c := Raised, active := s.active && !s.c.held)
    case LocksToClear => s.(c := Clearing, lock := ByCoroutine)
    case ClearsHolder => s.(c := Returned, holder := false, lock := Free)
  }

  /** The executor has published the lease. */
  predicate Published(s: State) {
    s.x == Leaving(true) || s.x == Finished(true)
  }

  predicate CancelSeen(s: State) {
    s.c == CancelSet || s.c == Popping || s.c.Releasing? || s.c == Raised
  }

  /** Before the coroutine takes the lock to pop, whatever is published is in the holder. */
  predicate BeforePop(s: State) {
    s.c == Awaiting || s.c == Raising || s.c == CancelSet || s.c == Popping || s.c == Succeeding || s.c == Clearing
  }

  predicate Inv(s: State) {
    && (s.lock == ByExecutor <==> s.x == Checking || s.x == Storing || s.x == Dropping || s.x.Leaving?)
    && (s.lock == ByCoroutine <==> s.c == Popping || s.c == Clearing)
    && (s.cancel <==> CancelSeen(s))
    && (s.x == Dropping ==> s.cancel)
    && (s.x == Storing ==> BeforePop(s))
    && (s.c == Succeeding || s.c == Clearing || s.c == Returned ==> s.x == Finished(true))
    && (BeforePop(s) ==> (s.holder <==> Published(s)))
    && (!BeforePop(s) ==> !s.holder)
    && (s.c.Releasing? ==> (s.c.held <==> Published(s)))
    && (s.active <==>
          || s.x == Granted || s.x == Checking || s.x == Storing || s.x == Dropping
          || (Published(s) && s.c != Raised))
  }

  lemma StepKeepsInv(s: State, e: Event)
    requires Inv(s) && Enabled(s, e)
    ensures Inv(Next(s, e))
  {
  }

  function Run(s: State, events: seq<Event>): State
    requires Legal(s, events)
    decreases |events|
  {
    if events == [] then s else Run(Next(s, events[0]), events[1..])
  }

  predicate Legal(s: State, events: seq<Event>)
    decreases |events|
  {
    events == [] || (Enabled(s, events[0]) && Legal(Next(s, events[0]), events[1..]))
  }

  lemma {:induction false} InvAlways(s: State, events: seq<Event>)
    requires Inv(s) && Legal(s, events)
    ensures Inv(Run(s, events))
    decreases |events|
  {
    if events != [] {
      StepKeepsInv(s, events[0]);
      InvAlways(Next(s, events[0]), events[1..]);
    }
  }

  /**
    In every interleaving: a returning caller holds an active lease, and once a
    raising caller and the executor are both done no lease is left active.
   */
  lemma NoLeaseIsLostOrLeaked(events: seq<Event>)
    requires Legal(START, events)
    ensures var s := Run(START, events);
      && (s.c == Returned ==> s.active && s.x == Finished(true))
      && (s.c == Raised && s.x.Finished? ==> !s.active)
  {
    InvAlways(START, events);
  }

  function Rank(s: State): nat {
    (match s.x
     case Acquiring => 6
     case Granted => 5
     case Checking => 4
     case Storing => 3
     case Dropping => 3
     case Leaving(_) => 2
     case Finished(_) => 0)
    + (match s.c
       case Awaiting => 6
       case Raising => 5
       case CancelSet => 4
       case Popping => 3
       case Releasing(_) => 2
       case Succeeding => 4
       case Clearing => 3
       case Raised => 0
       case Returned => 0)
  }

  predicate Done(s: State) {
    s.x.Finished? && (s.c == Raised || s.c == Returned)
  }

  /** A step of the executor if it can make one, else one of the coroutine. */
  function SomeStep(s: State): Event {
    match s.x
    case Acquiring => AcquireSucceeds
    case Granted =>
      if s.lock == Free then ExecutorLocks
      else if s.c == Popping then PopsHolder else ClearsHolder
    case Checking => ExecutorChecks
    case Storing => ExecutorStores
    case Dropping => ExecutorDrops
    case Leaving(_) => ExecutorUnlocks
    case Finished(_) =>
      match s.c
      case Awaiting => SeesResult
      case Raising => SetsCancel
      case CancelSet => CoroutineLocks
      case Popping => PopsHolder
      case Releasing(_) => ReleasesHeld
      case Succeeding => LocksToClear
      case _ => ClearsHolder
  }

  /** Neither side blocks the other for good: until both are done some step is enabled. */
  lemma NeverStuck(s: State)
    requires Inv(s)
    ensures !Done(s) ==> Enabled(s, SomeStep(s))
    ensures Done(s) ==> forall e :: !Enabled(s, e)
  {
  }

  /** Every step is progress, so each interleaving ends after at most twelve of them. */
  lemma {:induction false} RaceEnds(s: State, events: seq<Event>)
    requires Legal(s, events)
    ensures |events| + Rank(Run(s, events)) <= Rank(s)
    decreases |events|
  {
    if events != [] {
      RaceEnds(Next(s, events[0]), events[1..]);
    }
  }
}
