/**
  The lifecycle of a resident model instance, its request counters, and the
  registry of instances.
 */
module Instances {
  import opened Options

  datatype Lifecycle =
    | Discovered | Available | Queued | Launching | DistributedInitializing
    | LoadingMetadata | MaterializingWeights | CompilingWarming
    | Ready | Busy | Unloading | Stopped | Failed | Orphaned

  function Allowed(from: Lifecycle): set<Lifecycle> {
    match from
    case Discovered => {Available, Failed}
    case Available => {Queued, Stopped, Failed}
    case Queued => {Launching, Unloading, Failed}
    case Launching => {DistributedInitializing, LoadingMetadata, Unloading, Failed}
    case DistributedInitializing => {LoadingMetadata, Unloading, Failed}
    case LoadingMetadata => {MaterializingWeights, Unloading, Failed}
    case MaterializingWeights => {CompilingWarming, Unloading, Failed}
    case CompilingWarming => {Ready, Unloading, Failed}
    case Ready => {Busy, Unloading, Failed, Orphaned}
    case Busy => {Ready, Unloading, Failed, Orphaned}
    case Unloading => {Stopped, Failed}
    case Stopped => {Queued}
    case Failed => {Queued, Unloading, Stopped}
    case Orphaned => {Unloading, Stopped, Failed}
  }

  /** The part of an instance the lifecycle rules read and write. */
  datatype Instance = Instance(operation: string, state: Lifecycle, version: nat, active: nat, queued: nat)

  datatype Error = StaleUpdate | InvalidTransition | Conflict

  /** A request on an instance. */
  datatype Operation =
    | Transition(to: Lifecycle, expected: Option<int>)
    | AcquireLease
    | ReleaseLease
    | Enqueue
    | Dequeue

  predicate Serving(s: Lifecycle) {
    s == Ready || s == Busy
  }

  function Refusal(i: Instance, op: Operation): Option<Error> {
    match op
    case Transition(to, expected) =>
      if expected.Some? && expected.value != i.version then Some(StaleUpdate)
      else if to == i.state then None
      else if to !in Allowed(i.state) then Some(InvalidTransition)
      else if to.Unloading? && (i.active != 0 || i.queued != 0) then Some(Conflict)
      else None
    case AcquireLease => if Serving(i.state) then None else Some(Conflict)
    case ReleaseLease => if i.active == 0 then Some(Conflict) else None
    case Enqueue => if Serving(i.state) then None else Some(Conflict)
    case Dequeue => if i.queued == 0 then Some(Conflict) else None
  }

  function Moved(i: Instance, to: Lifecycle): Instance {
    if to == i.state then i else i.(state := to, version := i.version + 1)
  }

  /** A serving instance is BUSY while it has requests and READY again after the last. */
  function Settled(i: Instance): Instance {
    if i.state.Busy? && i.active == 0 && i.queued == 0 then Moved(i, Ready) else i
  }

  /** The instance after a request; a refused request changes nothing. */
  function Applied(i: Instance, op: Operation): Instance {
    if Refusal(i, op).Some? then i
    else
      match op
      case Transition(to, _) =>
        if to == i.state then i
        else if to.Stopped? then Moved(i, to).(active := 0, queued := 0)
        else Moved(i, to)
      case AcquireLease => Moved(i, Busy).(active := i.active + 1)
      case ReleaseLease => Settled(i.(active := i.active - 1))
      case Enqueue => Moved(i, Busy).(queued := i.queued + 1)
      case Dequeue => Settled(i.(queued := i.queued - 1))
  }

  /** A record of details, by name. */
  type Details = map<string, string>

  /** What an instance tells about itself; no lifecycle rule reads it. */
  datatype Report = Report(readinessEvidence: Details, lastError: Option<Details>, healthReady: Option<bool>,
                           healthSampledAt: Option<real>, healthIssues: seq<string>, actualMemory: Option<nat>)

  /** The report after a change of state to `to`: an instance that goes away is not healthy and holds no memory. */
  function Reported(was: Report, to: Lifecycle, evidence: Option<Details>, error: Option<Details>, now: real): Report {
    var r := was.(readinessEvidence := if evidence.Some? then evidence.value else was.readinessEvidence,
                  lastError := if error.Some? then error else was.lastError);
    match to
    case Unloading =>
      r.(healthReady := Some(false), healthSampledAt := Some(now), healthIssues := ["Instance is unloading."])
    case Stopped =>
      r.(healthReady := Some(false), healthSampledAt := Some(now), healthIssues := ["Instance is stopped."], actualMemory := None)
    case _ => r
  }

  class ModelInstance {
    const operation: string
    var state: Lifecycle
    var version: nat
    var active: nat
    var queued: nat
    var report: Report

    constructor (operation: string)
      ensures View() == Instance(operation, Queued, 0, 0, 0)
      ensures report == Report(map[], None, None, None, [], None)
    {
      this.operation := operation;
      this.state := Queued;
      this.version, this.active, this.queued := 0, 0, 0;
      this.report := Report(map[], None, None, None, [], None);
    }

    ghost function View(): Instance
      reads this
    {
      Instance(operation, state, version, active, queued)
    }

    /** The part of a transition that other parts of the system only read. */
    method Tell(to: Lifecycle, evidence: Option<Details>, cause: Option<Details>, now: real)
      modifies `report
      ensures report == Reported(old(report), to, evidence, cause, now)
    {
      if evidence.Some? {
        report := report.(readinessEvidence := evidence.value);
      }
      if cause.Some? {
        report := report.(lastError := cause);
      }
      if to.Unloading? || to.Stopped? {
        var issue := if to.Unloading? then "Instance is unloading." else "Instance is stopped.";
        report := report.(healthReady := Some(false), healthSampledAt := Some(now), healthIssues := [issue]);
      }
      if to.Stopped? {
        report := report.(actualMemory := None);
      }
    }

    method Transition(to: Lifecycle, expected: Option<int>, evidence: Option<Details>, cause: Option<Details>, now: real)
      returns (error: Option<Error>)
      modifies this
      ensures error == Refusal(old(View()), Operation.Transition(to, expected))
      ensures View() == Applied(old(View()), Operation.Transition(to, expected))
      ensures report == if version == old(version) then old(report) else Reported(old(report), to, evidence, cause, now)
    {
      hide Allowed, Reported;
      if expected.Some? && expected.value != version {
        return Some(StaleUpdate);
      }
      if to == state {
        return None;
      }
      if to !in Allowed(state) {
        return Some(InvalidTransition);
      }
      if to.Unloading? && (active != 0 || queued != 0) {
        return Some(Conflict);
      }
      state := to;
      version := version + 1;
      Tell(to, evidence, cause, now);
      if to.Stopped? {
        active := 0;
        queued := 0;
      }
      return None;
    }

    method AcquireRequestLease() returns (error: Option<Error>)
      modifies `state, `version, `active
      ensures error == Refusal(old(View()), AcquireLease) && View() == Applied(old(View()), AcquireLease)
    {
      if state != Ready && state != Busy {
        return Some(Conflict);
      }
      active := active + 1;
      if state == Ready {
        state := Busy;
        version := version + 1;
      }
      return None;
    }

    method ReleaseRequestLease() returns (error: Option<Error>)
      modifies `state, `version, `active
      ensures error == Refusal(old(View()), ReleaseLease) && View() == Applied(old(View()), ReleaseLease)
    {
      if active <= 0 {
        return Some(Conflict);
      }
      active := active - 1;
      if active == 0 && queued == 0 && state == Busy {
        state := Ready;
        version := version + 1;
      }
      return None;
    }

    method EnqueueRequest() returns (error: Option<Error>)
      modifies `state, `version, `queued
      ensures error == Refusal(old(View()), Enqueue) && View() == Applied(old(View()), Enqueue)
    {
      if state != Ready && state != Busy {
        return Some(Conflict);
      }
      queued := queued + 1;
      if state == Ready {
        state := Busy;
        version := version + 1;
      }
      return None;
    }

    method DequeueRequest() returns (error: Option<Error>)
      modifies `state, `version, `queued
      ensures error == Refusal(old(View()), Dequeue) && View() == Applied(old(View()), Dequeue)
    {
      if queued <= 0 {
        return Some(Conflict);
      }
      queued := queued - 1;
      if queued == 0 && active == 0 && state == Busy {
        state := Ready;
        version := version + 1;
      }
      return None;
    }
  }

  // ----- runs of one instance

  function Run(i: Instance, ops: seq<Operation>): Instance
    decreases |ops|
  {
    if ops == [] then i else Run(Applied(i, ops[0]), ops[1..])
  }

  /** A drained instance has nobody left to serve. */
  predicate DrainSafe(i: Instance) {
    i.state.Unloading? || i.state.Stopped? ==> i.active == 0 && i.queued == 0
  }

  /** No run of requests leaves an UNLOADING or STOPPED instance with requests. */
  lemma {:induction false} DrainSafeAlways(i: Instance, ops: seq<Operation>)
    requires DrainSafe(i)
    ensures DrainSafe(Run(i, ops))
    decreases |ops|
  {
    if ops != [] {
      DrainSafeAlways(Applied(i, ops[0]), ops[1..]);
    }
  }

  predicate BusyIffServing(i: Instance) {
    Serving(i.state) && (i.state.Busy? <==> i.active + i.queued > 0)
  }

  /** Under lease operations alone, BUSY means exactly that some request is active or queued. */
  lemma {:induction false} BusyExactlyWhileServing(i: Instance, ops: seq<Operation>)
    requires BusyIffServing(i)
    requires forall op | op in ops :: !op.Transition?
    ensures BusyIffServing(Run(i, ops))
    decreases |ops|
  {
    if ops != [] {
      assert ops[0] in ops;
      BusyExactlyWhileServing(Applied(i, ops[0]), ops[1..]);
    }
  }

  /** Every state change moves along an allowed edge and raises the version by one. */
  lemma VersionCountsStateChanges(i: Instance, op: Operation)
    ensures var next := Applied(i, op);
      if next.state == i.state then next.version == i.version
      else next.version == i.version + 1 && next.state in Allowed(i.state)
  {
  }

  lemma {:induction false} VersionNeverFalls(i: Instance, ops: seq<Operation>)
    ensures Run(i, ops).version >= i.version
    decreases |ops|
  {
    if ops != [] {
      VersionCountsStateChanges(i, ops[0]);
      VersionNeverFalls(Applied(i, ops[0]), ops[1..]);
    }
  }

  /**
    Optimistic concurrency: a transition that names the version it read is accepted after
    other requests only if none of them changed the state, not even for a while.
   */
  lemma {:induction false} StaleAfterAnyChange(i: Instance, ops: seq<Operation>)
    requires Run(i, ops).version == i.version
    ensures forall k | 0 <= k <= |ops| :: Run(i, ops[..k]).state == i.state && Run(i, ops[..k]).version == i.version
    decreases |ops|
  {
    if ops != [] {
      var next := Applied(i, ops[0]);
      VersionCountsStateChanges(i, ops[0]);
      VersionNeverFalls(next, ops[1..]);
      StaleAfterAnyChange(next, ops[1..]);
      forall k | 0 < k <= |ops|
        ensures Run(i, ops[..k]) == Run(next, ops[1..][..k - 1])
      {
        assert ops[..k][1..] == ops[1..][..k - 1];
      }
    }
  }

  // ----- the registry

  class InstanceRegistry {
    var instances: map<string, ModelInstance>

    constructor ()
      ensures Valid() && View() == map[]
    {
      instances := map[];
    }

    /** Different ids name different objects. */
    ghost predicate Valid()
      reads this
    {
      forall a, b | a in instances && b in instances && a != b :: instances[a] != instances[b]
    }

    ghost function Objects(): set<ModelInstance>
      reads this
    {
      set id | id in instances :: instances[id]
    }

    ghost function View(): map<string, Instance>
      reads this, Objects()
    {
      map id | id in instances :: instances[id].View()
    }

    method Create(id: string, operation: string) returns (created: bool, error: Option<Error>)
      requires Valid()
      modifies this
      ensures Valid()
      ensures id in old(View()) ==>
        && !created && View() == old(View()) && instances == old(instances)
        && (error == if old(View())[id].operation == operation then None else Some(Conflict))
      ensures id !in old(View()) ==>
        && created && error.None?
        && View() == old(View())[id := Instance(operation, Queued, 0, 0, 0)]
    {
      if id in instances {
        if instances[id].operation == operation {
          return false, None;
        }
        return false, Some(Conflict);
      }
      var i := new ModelInstance(operation);
      instances := instances[id := i];
      return true, None;
    }

    method Remove(id: string)
      requires Valid()
      modifies this
      ensures Valid() && View() == old(View()) - {id}
    {
      instances := instances - {id};
    }

    method EnqueueRequest(id: string) returns (error: Option<Error>)
      requires Valid()
      modifies Objects()
      ensures error == RegistryRefusal(old(View()), id, Enqueue)
      ensures View() == RegistryApplied(old(View()), id, Enqueue)
    {
      if id !in instances {
        return Some(Conflict);
      }
      error := instances[id].EnqueueRequest();
      assert View()[id] == Applied(old(View())[id], Enqueue);
    }

    method DequeueRequest(id: string) returns (error: Option<Error>)
      requires Valid()
      modifies Objects()
      ensures error == RegistryRefusal(old(View()), id, Dequeue)
      ensures View() == RegistryApplied(old(View()), id, Dequeue)
    {
      if id !in instances {
        return Some(Conflict);
      }
      error := instances[id].DequeueRequest();
      assert View()[id] == Applied(old(View())[id], Dequeue);
    }

    method AcquireRequestLease(id: string) returns (error: Option<Error>)
      requires Valid()
      modifies Objects()
      ensures error == RegistryRefusal(old(View()), id, AcquireLease)
      ensures View() == RegistryApplied(old(View()), id, AcquireLease)
    {
      if id !in instances {
        return Some(Conflict);
      }
      error := instances[id].AcquireRequestLease();
      assert View()[id] == Applied(old(View())[id], AcquireLease);
    }

    method ReleaseRequestLease(id: string) returns (error: Option<Error>)
      requires Valid()
      modifies Objects()
      ensures error == RegistryRefusal(old(View()), id, ReleaseLease)
      ensures View() == RegistryApplied(old(View()), id, ReleaseLease)
    {
      if id !in instances {
        return Some(Conflict);
      }
      error := instances[id].ReleaseRequestLease();
      assert View()[id] == Applied(old(View())[id], ReleaseLease);
    }
  }

  function RegistryRefusal(view: map<string, Instance>, id: string, op: Operation): Option<Error> {
    if id in view then Refusal(view[id], op) else Some(Conflict)
  }

  function RegistryApplied(view: map<string, Instance>, id: string, op: Operation): map<string, Instance> {
    if id in view then view[id := Applied(view[id], op)] else view
  }
}
