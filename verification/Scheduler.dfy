/**
  FIFO exclusion for generation requests on overlapping node sets.

  The values below are the scheduler under its lock: one step is one arrival, one
  turn of a waiter's loop, or one release. The registry's queued counters mirror
  the queue.
 */
module Scheduler {
  import opened Instances
  import opened Names
  import opened Options

  type Nodes = set<string>
  type LeaseId = nat

  const UNKNOWN_NODE := "*"

  datatype Record = Record(leaseId: LeaseId, instance: string, nodes: Nodes, sequence: nat)

  predicate Overlaps(a: Nodes, b: Nodes) {
    UNKNOWN_NODE in a || UNKNOWN_NODE in b || a * b != {}
  }

  // ----- node names

  function NormalizeNodes(selected: seq<string>): (nodes: Nodes)
    ensures nodes != {} && "" !in nodes
    ensures (forall s | s in selected :: Strip(s) == "") ==> forall other: Nodes :: Overlaps(nodes, other)
  {
    var nodes := set s | s in selected && Strip(s) != "" :: Strip(s);
    if nodes == {} then {UNKNOWN_NODE} else nodes
  }

  // ----- the state and its steps, on values

  datatype State = State(limit: nat, waiting: seq<Record>, active: map<LeaseId, Record>, sequence: nat)

  type View = map<string, Instance>

  /** The scheduler and, if it has one, the registry it mirrors its queue into. */
  datatype System = System(s: State, registry: Option<View>)

  /** The waiters before `id`, or all of them when it does not wait. */
  function Ahead(waiting: seq<Record>, id: LeaseId): (a: seq<Record>)
    ensures a <= waiting
    ensures forall w | w in a :: w.leaseId != id
    ensures |a| < |waiting| ==> waiting[|a|].leaseId == id
  {
    if waiting == [] || waiting[0].leaseId == id then []
    else [waiting[0]] + Ahead(waiting[1..], id)
  }

  predicate CanGrant(s: State, r: Record) {
    && (forall id | id in s.active :: !Overlaps(r.nodes, s.active[id].nodes))
    && (forall w | w in Ahead(s.waiting, r.leaseId) :: !Overlaps(r.nodes, w.nodes))
  }

  function Granted(s: State, r: Record): State {
    s.(active := s.active[r.leaseId := r])
  }

  function Without(waiting: seq<Record>, r: Record): (rest: seq<Record>)
    ensures r !in waiting ==> rest == waiting
  {
    if waiting == [] then []
    else if waiting[0] == r then waiting[1..]
    else [waiting[0]] + Without(waiting[1..], r)
  }

  function Mirrored(registry: Option<View>, instance: string, op: Operation): Option<View> {
    if registry.None? then None else Some(RegistryApplied(registry.value, instance, op))
  }

  predicate MirrorRefuses(registry: Option<View>, instance: string, op: Operation) {
    registry.Some? && RegistryRefusal(registry.value, instance, op).Some?
  }

  lemma RefusalChangesNothing(registry: Option<View>, instance: string, op: Operation)
    requires MirrorRefuses(registry, instance, op)
    ensures Mirrored(registry, instance, op) == registry
  {
    if instance in registry.value {
      assert registry.value[instance := registry.value[instance]] == registry.value;
    }
  }

  datatype Result =
    | Lease(record: Record) | NegativeTimeout | QueueFull | Cancelled | TimedOut | Refused | Waits(record: Record)

  /** The first half of `acquire`: take a number, then be granted, turned away or queued. */
  function Arrived(y: System, id: LeaseId, instance: string, nodes: Nodes): (System, Result) {
    var s := y.s.(sequence := y.s.sequence + 1);
    var r := Record(id, instance, nodes, s.sequence);
    if CanGrant(s, r) then (y.(s := Granted(s, r)), Lease(r))
    else if |s.waiting| >= s.limit then (y.(s := s), QueueFull)
    else Lined(y.(s := s), r)
  }

  /** Join the queue, unless the registry refuses to count the request in. */
  function Lined(y: System, r: Record): (System, Result) {
    if MirrorRefuses(y.registry, r.instance, Enqueue) then (y, Refused)
    else (System(y.s.(waiting := y.s.waiting + [r]), Mirrored(y.registry, r.instance, Enqueue)), Waits(r))
  }

  /** A waiter leaves the queue; false when the registry refuses to count it out. */
  function Removed(y: System, r: Record): (System, bool) {
    if r !in y.s.waiting then (y, true)
    else
      (System(y.s.(waiting := Without(y.s.waiting, r)), Mirrored(y.registry, r.instance, Dequeue)),
       !MirrorRefuses(y.registry, r.instance, Dequeue))
  }

  /** One turn of the loop of the waiter `r`. */
  function Woken(y: System, r: Record, cancelled: bool, expired: bool): (System, Result) {
    if cancelled then
      var (next, ok) := Removed(y, r);
      (next, if ok then Cancelled else Refused)
    else if CanGrant(y.s, r) then
      var (next, ok) := Removed(y, r);
      if ok then (next.(s := Granted(next.s, r)), Lease(r)) else (next, Refused)
    else if expired then
      var (next, ok) := Removed(y, r);
      (next, if ok then TimedOut else Refused)
    else (y, Waits(r))
  }

  function Released(y: System, id: LeaseId): (System, bool) {
    (y.(s := y.s.(active := y.s.active - {id})), id in y.s.active)
  }

  // ----- the scheduler object

  class GenerationSlotScheduler {
    const limit: nat
    const registry: InstanceRegistry?
    var waiting: seq<Record>
    var active: map<LeaseId, Record>
    var sequence: nat

    constructor (limit: nat, registry: InstanceRegistry?)
      ensures this.limit == limit && this.registry == registry
      ensures Now() == State(limit, [], map[], 0)
    {
      this.limit, this.registry := limit, registry;
      waiting, active, sequence := [], map[], 0;
    }

    ghost function Now(): State
      reads this
    {
      State(limit, waiting, active, sequence)
    }

    ghost predicate Valid()
      reads this, registry
    {
      registry != null ==> registry.Valid()
    }

    ghost function Mirror(): set<ModelInstance>
      reads this, registry
    {
      if registry == null then {} else registry.Objects()
    }

    ghost function Whole(): System
      reads this, registry, Mirror()
    {
      System(Now(), if registry == null then None else Some(registry.View()))
    }

    method MarkQueued(instance: string, enqueue: bool) returns (ok: bool)
      requires Valid()
      modifies Mirror()
      ensures Valid()
      ensures var op := if enqueue then Enqueue else Dequeue;
        && Whole() == old(Whole()).(registry := Mirrored(old(Whole().registry), instance, op))
        && ok == !MirrorRefuses(old(Whole().registry), instance, op)
    {
      ok := true;
      if registry != null {
        var error;
        if enqueue {
          error := registry.EnqueueRequest(instance);
        } else {
          error := registry.DequeueRequest(instance);
        }
        ok := error.None?;
      }
    }

    method MayGrant(r: Record) returns (ok: bool)
      ensures ok == CanGrant(Now(), r)
    {
      var ids := active.Keys;
      while ids != {}
        invariant ids <= active.Keys
        invariant forall id | id in active && id !in ids :: !Overlaps(r.nodes, active[id].nodes)
        decreases ids
      {
        var id :| id in ids;
        if Overlaps(r.nodes, active[id].nodes) {
          return false;
        }
        ids := ids - {id};
      }
      var i := 0;
      while i < |waiting| && waiting[i].leaseId != r.leaseId
        invariant 0 <= i <= |waiting|
        invariant i <= |Ahead(waiting, r.leaseId)|
        invariant forall j | 0 <= j < i :: !Overlaps(r.nodes, waiting[j].nodes)
      {
        assert waiting[i] in Ahead(waiting, r.leaseId) by {
          assert i < |Ahead(waiting, r.leaseId)|;
          assert Ahead(waiting, r.leaseId)[i] == waiting[i];
        }
        if Overlaps(r.nodes, waiting[i].nodes) {
          return false;
        }
        i := i + 1;
      }
      return true;
    }

    method Grant(r: Record)
      modifies `active
      ensures Now() == Granted(old(Now()), r)
    {
      active := active[r.leaseId := r];
    }

    /** False stands for the registry's error, raised after the waiter is gone. */
    method RemoveWaiter(r: Record) returns (ok: bool)
      requires Valid()
      modifies `waiting, Mirror()
      ensures Valid() && (Whole(), ok) == Removed(old(Whole()), r)
    {
      if r !in waiting {
        return true;
      }
      waiting := Without(waiting, r);
      ok := MarkQueued(r.instance, false);
    }

    method JoinQueue(r: Record) returns (result: Result)
      requires Valid()
      modifies `waiting, Mirror()
      ensures Valid() && (Whole(), result) == Lined(old(Whole()), r)
    {
      hide Refusal, Applied;
      ghost var was := Whole();
      waiting := waiting + [r];
      assert registry != null ==> registry.View() == old(registry.View());
      var marked := MarkQueued(r.instance, true);
      if !marked {
        RefusalChangesNothing(was.registry, r.instance, Enqueue);
        waiting := waiting[..|waiting| - 1];
        assert registry != null ==> Some(registry.View()) == was.registry;
        assert Whole() == was;
        return Refused;
      }
      return Waits(r);
    }

    /** `acquire` up to its waiting loop; a timeout below zero or an event already set ends it before it takes a number. */
    method Acquire(id: LeaseId, instance: string, selected: seq<string>, timeout: Option<real>, cancelled: bool)
      returns (result: Result)
      requires Valid()
      modifies this, Mirror()
      ensures Valid()
      ensures (Whole(), result) ==
        if timeout.Some? && timeout.value < 0.0 then (old(Whole()), NegativeTimeout)
        else if cancelled then (old(Whole()), Cancelled)
        else Arrived(old(Whole()), id, instance, NormalizeNodes(selected))
    {
      if timeout.Some? && timeout.value < 0.0 {
        return NegativeTimeout;
      }
      if cancelled {
        return Cancelled;
      }
      result := Arrive(id, instance, NormalizeNodes(selected));
    }

    /** Take a number, then be granted, turned away or queued. */
    method Arrive(id: LeaseId, instance: string, nodes: Nodes) returns (result: Result)
      requires Valid()
      modifies this, Mirror()
      ensures Valid() && (Whole(), result) == Arrived(old(Whole()), id, instance, nodes)
    {
      hide CanGrant, RegistryRefusal, RegistryApplied;
      sequence := sequence + 1;
      assert registry != null ==> registry.View() == old(registry.View());
      var r := Record(id, instance, nodes, sequence);
      var grantable := MayGrant(r);
      if grantable {
        Grant(r);
        assert registry != null ==> registry.View() == old(registry.View());
        return Lease(r);
      }
      if |waiting| >= limit {
        return QueueFull;
      }
      result := JoinQueue(r);
    }

    method Wake(r: Record, cancelled: bool, expired: bool) returns (result: Result)
      requires Valid()
      modifies this, Mirror()
      ensures Valid() && (Whole(), result) == Woken(old(Whole()), r, cancelled, expired)
    {
      if cancelled {
        var removed := RemoveWaiter(r);
        return if removed then Cancelled else Refused;
      }
      var grantable := MayGrant(r);
      if grantable {
        var removed := RemoveWaiter(r);
        if !removed {
          return Refused;
        }
        Grant(r);
        return Lease(r);
      }
      if expired {
        var removed := RemoveWaiter(r);
        return if removed then TimedOut else Refused;
      }
      return Waits(r);
    }

    method Release(id: LeaseId) returns (released: bool)
      requires Valid()
      modifies `active
      ensures Valid() && (Whole(), released) == Released(old(Whole()), id)
    {
      if id !in active {
        assert active - {id} == active;
        return false;
      }
      active := active - {id};
      assert registry != null ==> registry.View() == old(registry.View());
      assert Now() == old(Whole()).s.(active := old(Whole()).s.active - {id});
      return true;
    }
  }
}
