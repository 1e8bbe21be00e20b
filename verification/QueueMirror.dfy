/**
  The registry's queued counters as a mirror of the scheduler's queue: which
  steps keep the two equal, and exactly which ones tear them apart.
 */
module QueueMirror {
  import opened Options
  import opened Instances
  import opened Scheduler
  import opened SchedulerRuns

  function WaitersFor(waiting: seq<Record>, instance: string): nat {
    if waiting == [] then 0
    else (if waiting[0].instance == instance then 1 else 0) + WaitersFor(waiting[1..], instance)
  }

  /** Each registered instance counts exactly its waiters, and every waiter's instance is registered. */
  ghost predicate InStep(y: System) {
    y.registry.Some? ==>
      && (forall id | id in y.registry.value :: y.registry.value[id].queued == WaitersFor(y.s.waiting, id))
      && (forall w | w in y.s.waiting :: w.instance in y.registry.value)
  }

  /** The steps that lose count: stopping, or forgetting, an instance somebody waits for. */
  predicate TearsApart(y: System, step: Step) {
    y.registry.Some? &&
    match step
    case OnInstance(target, Transition(to, expected)) =>
      && target in y.registry.value && to.Stopped? && !y.registry.value[target].state.Stopped?
      && Refusal(y.registry.value[target], Transition(to, expected)).None?
      && WaitersFor(y.s.waiting, target) > 0
    case Remove(removed) =>
      removed in y.registry.value && WaitersFor(y.s.waiting, removed) > 0
    case _ => false
  }

  lemma {:induction false} WaitersForSplits(a: seq<Record>, b: seq<Record>, instance: string)
    ensures WaitersFor(a + b, instance) == WaitersFor(a, instance) + WaitersFor(b, instance)
  {
    if a == [] {
      assert a + b == b;
    } else {
      WaitersForSplits(a[1..], b, instance);
      assert (a + b)[1..] == a[1..] + b;
    }
  }

  lemma {:induction false} SomeWaiter(waiting: seq<Record>, instance: string)
    ensures WaitersFor(waiting, instance) > 0 <==> exists w :: w in waiting && w.instance == instance
  {
    if waiting != [] {
      SomeWaiter(waiting[1..], instance);
      assert waiting == [waiting[0]] + waiting[1..];
    }
  }

  lemma RemovedIsCounted(waiting: seq<Record>, r: Record, instance: string)
    requires r in waiting
    ensures WaitersFor(Without(waiting, r), instance) + (if r.instance == instance then 1 else 0)
         == WaitersFor(waiting, instance)
  {
    var i := WithoutAt(waiting, r);
    assert waiting == waiting[..i] + ([r] + waiting[i + 1..]);
    assert ([r] + waiting[i + 1..])[1..] == waiting[i + 1..];
    WaitersForSplits(waiting[..i], [r] + waiting[i + 1..], instance);
    WaitersForSplits(waiting[..i], waiting[i + 1..], instance);
  }

  /** In step, the registry never refuses to count a waiter out. */
  lemma RemovalIsNeverRefused(y: System, r: Record)
    requires InStep(y) && r in y.s.waiting
    ensures Removed(y, r).1 && InStep(Removed(y, r).0)
  {
    var next := Removed(y, r).0;
    if y.registry.Some? {
      SomeWaiter(y.s.waiting, r.instance);
      forall id | id in next.registry.value
        ensures next.registry.value[id].queued == WaitersFor(next.s.waiting, id)
      {
        RemovedIsCounted(y.s.waiting, r, id);
      }
      var i := WithoutAt(y.s.waiting, r);
      assert forall w | w in next.s.waiting :: w in y.s.waiting;
    }
  }

  lemma ArrivalStaysInStep(y: System, id: LeaseId, instance: string, nodes: Nodes)
    requires InStep(y)
    ensures InStep(Arrived(y, id, instance, nodes).0)
  {
    var (next, result) := Arrived(y, id, instance, nodes);
    if y.registry.Some? && result.Waits? {
      forall other | other in next.registry.value
        ensures next.registry.value[other].queued == WaitersFor(next.s.waiting, other)
      {
        WaitersForSplits(y.s.waiting, [result.record], other);
        assert [result.record][1..] == [];
      }
    }
  }

  lemma LifecycleStaysInStep(y: System, target: string, op: Operation)
    requires InStep(y) && !op.Enqueue? && !op.Dequeue?
    ensures InStep(Next(y, OnInstance(target, op))) <==> !TearsApart(y, OnInstance(target, op))
  {
    var next := Next(y, OnInstance(target, op));
    if y.registry.Some? && target in y.registry.value {
      assert next.registry.value[target] == Applied(y.registry.value[target], op);
      assert forall id | id in next.registry.value && id != target :: next.registry.value[id] == y.registry.value[id];
    }
  }

  lemma CreationStaysInStep(y: System, created: string, owner: string)
    requires InStep(y)
    ensures InStep(Next(y, Create(created, owner)))
  {
    if y.registry.Some? && created !in y.registry.value {
      SomeWaiter(y.s.waiting, created);
    }
  }

  lemma RemovalStaysInStep(y: System, removed: string)
    requires InStep(y)
    ensures InStep(Next(y, Remove(removed))) <==> !TearsApart(y, Remove(removed))
  {
    SomeWaiter(y.s.waiting, removed);
  }

  /** Counters and queue stay equal in a step exactly when it does not tear them apart. */
  lemma StepStaysInStep(y: System, step: Step)
    requires InStep(y) && Enabled(y, step)
    ensures InStep(Next(y, step)) <==> !TearsApart(y, step)
  {
    match step
    case Arrive(id, instance, nodes) => ArrivalStaysInStep(y, id, instance, nodes);
    case Wake(waiter, _, _) => RemovalIsNeverRefused(y, waiter);
    case Release(_) =>
    case OnInstance(target, operation) => LifecycleStaysInStep(y, target, operation);
    case Create(created, owner) => CreationStaysInStep(y, created, owner);
    case Remove(removed) => RemovalStaysInStep(y, removed);
  }

  predicate NeverTornApart(y: System, steps: seq<Step>)
    decreases |steps|
  {
    steps == [] || (!TearsApart(y, steps[0]) && NeverTornApart(Next(y, steps[0]), steps[1..]))
  }

  /** Over every run that stops and forgets only instances nobody waits for, the mirror is exact. */
  lemma {:induction false} MirrorIsExactAlways(y: System, steps: seq<Step>)
    requires InStep(y) && Legal(y, steps) && NeverTornApart(y, steps)
    ensures InStep(SchedulerRuns.Run(y, steps))
    decreases |steps|
  {
    if steps != [] {
      StepStaysInStep(y, steps[0]);
      MirrorIsExactAlways(Next(y, steps[0]), steps[1..]);
    }
  }

  /** No drained instance has requests, on any run at all of the whole system. */
  ghost predicate AllDrainSafe(y: System) {
    y.registry.Some? ==> forall id | id in y.registry.value :: DrainSafe(y.registry.value[id])
  }

  lemma StepKeepsDrainSafe(y: System, step: Step, id: string)
    requires AllDrainSafe(y) && Enabled(y, step) && y.registry.Some? && Next(y, step).registry.Some?
    requires id in Next(y, step).registry.value
    ensures DrainSafe(Next(y, step).registry.value[id])
  {
    hide CanGrant, Ahead, Without;
  }

  lemma {:induction false} DrainSafeInEveryRun(y: System, steps: seq<Step>)
    requires AllDrainSafe(y) && Legal(y, steps)
    ensures AllDrainSafe(SchedulerRuns.Run(y, steps))
    decreases |steps|
  {
    hide CanGrant, Ahead, Without, DrainSafe;
    if steps != [] {
      var next := Next(y, steps[0]);
      if y.registry.Some? {
        forall id | id in next.registry.value
          ensures DrainSafe(next.registry.value[id])
        {
          StepKeepsDrainSafe(y, steps[0], id);
        }
      }
      DrainSafeInEveryRun(next, steps[1..]);
    }
  }
}
