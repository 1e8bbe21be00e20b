/**
  From a grantable waiter to its lease. The turn of a waiter that nothing blocks
  counts it out of the registry first, and the registry can refuse that: exactly
  when the turn grants, that it can always be brought about, and a run in which an
  unblocked waiter is refused.
 */
module SchedulerProgress {
  import opened Options
  import opened Instances
  import opened Scheduler
  import opened SchedulerRuns
  import opened QueueMirror

  // ----- the turn that grants

  /** A turn grants exactly when nothing blocks the waiter and the registry lets it be counted out. */
  lemma TurnGrantsIff(y: System, r: Record)
    requires r in y.s.waiting
    ensures Woken(y, r, false, false).1 == Lease(r)
      <==> Blockers(y.s, r) == 0 && !MirrorRefuses(y.registry, r.instance, Dequeue)
    ensures Woken(y, r, false, false).1 == Lease(r) ==>
      var next := Woken(y, r, false, false).0.s;
      r.leaseId in next.active && next.active[r.leaseId] == r && next.waiting == Without(y.s.waiting, r)
  {
    GrantableIffUnblocked(y.s, r);
  }

  /** What the registry refuses is an instance it has forgotten or whose count is used up. */
  lemma CountingOutRefusedIff(registry: Option<View>, instance: string)
    ensures MirrorRefuses(registry, instance, Dequeue)
      <==> registry.Some? && (instance !in registry.value || registry.value[instance].queued == 0)
  {
  }

  /**
    Over any run, the waiter's next turn grants exactly when all its blockers are gone
    and its instance is still registered with a waiter on its count.
   */
  lemma NextTurnGrantsIff(y: System, steps: seq<Step>, r: Record)
    requires Safe(y.s) && Legal(y, steps) && WaitsThroughout(y, steps, r)
    ensures var end := SchedulerRuns.Run(y, steps);
      Woken(end, r, false, false).1 == Lease(r)
      <==> && TotalUnblocks(y, steps, r) == Blockers(y.s, r)
           && (end.registry.Some? ==>
                r.instance in end.registry.value && end.registry.value[r.instance].queued > 0)
  {
    hide Blockers, TotalUnblocks, CanGrant;
    var end := SchedulerRuns.Run(y, steps);
    WaiterIsFreedInFiniteTime(y, steps, r);
    StillWaits(y, steps, r);
    TurnGrantsIff(end, r);
    CountingOutRefusedIff(end.registry, r.instance);
  }

  lemma {:induction false} StillWaits(y: System, steps: seq<Step>, r: Record)
    requires WaitsThroughout(y, steps, r)
    ensures r in SchedulerRuns.Run(y, steps).s.waiting
    decreases |steps|
  {
    if steps != [] {
      StillWaits(Next(y, steps[0]), steps[1..], r);
    }
  }

  /**
    Over every run that stops and forgets only instances nobody waits for, the next
    turn that is neither cancelled nor expired grants exactly when as many blockers
    have left as there were.
   */
  lemma WaiterIsGrantedInFiniteTime(y: System, steps: seq<Step>, r: Record)
    requires Safe(y.s) && InStep(y) && Legal(y, steps) && NeverTornApart(y, steps) && WaitsThroughout(y, steps, r)
    ensures Woken(SchedulerRuns.Run(y, steps), r, false, false).1 == Lease(r)
      <==> TotalUnblocks(y, steps, r) == Blockers(y.s, r)
  {
    hide Blockers, TotalUnblocks, CanGrant, InStep, Safe;
    var end := SchedulerRuns.Run(y, steps);
    NextTurnGrantsIff(y, steps, r);
    StillWaits(y, steps, r);
    MirrorIsExactAlways(y, steps);
    NeverRefusedInStep(end, r);
    CountingOutRefusedIff(end.registry, r.instance);
  }

  lemma NeverRefusedInStep(y: System, r: Record)
    requires InStep(y) && r in y.s.waiting
    ensures !MirrorRefuses(y.registry, r.instance, Dequeue)
  {
    RemovalIsNeverRefused(y, r);
  }

  // ----- releases and turns that bring the grant about

  /** Only releases, and turns of waiters that are neither cancelled nor expired. */
  predicate OnlyReleasesAndTurns(steps: seq<Step>) {
    forall step | step in steps :: step.Release? || (step.Wake? && !step.cancelled && !step.expired)
  }

  /**
    From every safe state in step, finitely many releases and turns of earlier waiters,
    none of them cancelled or expired, bring any waiter to a turn that grants.
   */
  lemma {:induction false} FinitelyManyReleasesGrantIt(y: System, r: Record, k: nat) returns (steps: seq<Step>)
    requires Safe(y.s) && InStep(y) && k < |y.s.waiting| && y.s.waiting[k] == r
    ensures Legal(y, steps) && OnlyReleasesAndTurns(steps) && WaitsThroughout(y, steps, r)
    ensures Woken(SchedulerRuns.Run(y, steps), r, false, false).1 == Lease(r)
    decreases k, |y.s.active|
  {
    if y.s.active != map[] {
      var lease :| lease in y.s.active;
      var step := Release(lease);
      StepKeepsSafe(y, step);
      StepStaysInStep(y, step);
      FewerLeases(y.s.active, lease);
      var rest := FinitelyManyReleasesGrantIt(Next(y, step), r, k);
      steps := [step] + rest;
    } else {
      HeadIsGrantable(y.s);
      var head := y.s.waiting[0];
      NeverRefusedInStep(y, head);
      GrantableIffUnblocked(y.s, head);
      TurnGrantsIff(y, head);
      if k == 0 {
        steps := [];
      } else {
        var step := Wake(head, false, false);
        StepKeepsSafe(y, step);
        StepStaysInStep(y, step);
        assert y.s.waiting[1..][k - 1] == r;
        var rest := FinitelyManyReleasesGrantIt(Next(y, step), r, k - 1);
        steps := [step] + rest;
      }
    }
  }

  lemma FewerLeases(active: map<LeaseId, Record>, lease: LeaseId)
    requires lease in active
    ensures |active - {lease}| < |active|
  {
    assert (active - {lease}).Keys == active.Keys - {lease};
    assert |active - {lease}| == |(active - {lease}).Keys|;
    assert |active| == |active.Keys|;
  }

  // ----- a waiter that is refused

  const MODEL := "m"
  const NODES: Nodes := {"n"}
  const FIRST := Record(1, MODEL, NODES, 1)
  const SECOND := Record(2, MODEL, NODES, 2)

  /** One ready instance and a queue for one; then a request runs, another waits, the instance fails and is stopped. */
  const IDLE := System(State(1, [], map[], 0), Some(map[MODEL := Instance("op", Ready, 0, 0, 0)]))
  const RUNNING := System(State(1, [], map[1 := FIRST], 1), Some(map[MODEL := Instance("op", Ready, 0, 0, 0)]))
  const WAITING := System(State(1, [SECOND], map[1 := FIRST], 2), Some(map[MODEL := Instance("op", Busy, 1, 0, 1)]))
  const FAILED := System(State(1, [SECOND], map[1 := FIRST], 2), Some(map[MODEL := Instance("op", Failed, 2, 0, 1)]))
  const STOPPED := System(State(1, [SECOND], map[1 := FIRST], 2), Some(map[MODEL := Instance("op", Stopped, 3, 0, 0)]))
  const RELEASED := System(State(1, [SECOND], map[], 2), Some(map[MODEL := Instance("op", Stopped, 3, 0, 0)]))

  const STOPPING := [Arrive(1, MODEL, NODES), Arrive(2, MODEL, NODES),
                     OnInstance(MODEL, Transition(Failed, None)), OnInstance(MODEL, Transition(Stopped, None))]

  lemma FirstRuns()
    ensures Enabled(IDLE, Arrive(1, MODEL, NODES)) && Next(IDLE, Arrive(1, MODEL, NODES)) == RUNNING
  {
    assert map[][1 := FIRST] == map[1 := FIRST];
  }

  lemma SecondWaits()
    ensures Enabled(RUNNING, Arrive(2, MODEL, NODES)) && Next(RUNNING, Arrive(2, MODEL, NODES)) == WAITING
  {
    assert NODES * NODES == NODES && "n" in NODES;
    assert Overlaps(SECOND.nodes, FIRST.nodes);
    assert 1 in RUNNING.s.active;
    assert [] + [SECOND] == [SECOND];
    assert RUNNING.registry.value[MODEL := Instance("op", Busy, 1, 0, 1)] == WAITING.registry.value;
  }

  lemma InstanceStops()
    ensures Next(WAITING, OnInstance(MODEL, Transition(Failed, None))) == FAILED
    ensures Next(FAILED, OnInstance(MODEL, Transition(Stopped, None))) == STOPPED
  {
    assert WAITING.registry.value[MODEL := Instance("op", Failed, 2, 0, 1)] == FAILED.registry.value;
    assert FAILED.registry.value[MODEL := Instance("op", Stopped, 3, 0, 0)] == STOPPED.registry.value;
  }

  lemma StoppingRun()
    ensures Legal(IDLE, STOPPING) && SchedulerRuns.Run(IDLE, STOPPING) == STOPPED
  {
    hide Next, Enabled;
    FirstRuns();
    SecondWaits();
    InstanceStops();
    assert Enabled(WAITING, STOPPING[2]) && Enabled(FAILED, STOPPING[3]) by { LifecycleIsEnabled(); }
    OneStep(IDLE, STOPPING[0], STOPPING[1..]);
    OneStep(RUNNING, STOPPING[1], STOPPING[2..]);
    OneStep(WAITING, STOPPING[2], STOPPING[3..]);
    OneStep(FAILED, STOPPING[3], []);
    assert STOPPING == [STOPPING[0]] + STOPPING[1..] && STOPPING[1..] == [STOPPING[1]] + STOPPING[2..];
    assert STOPPING[2..] == [STOPPING[2]] + STOPPING[3..] && STOPPING[3..] == [STOPPING[3]] + [];
  }

  lemma OneStep(y: System, step: Step, rest: seq<Step>)
    ensures Legal(y, [step] + rest) <==> Enabled(y, step) && Legal(Next(y, step), rest)
    ensures SchedulerRuns.Run(y, [step] + rest) == SchedulerRuns.Run(Next(y, step), rest)
  {
    assert ([step] + rest)[1..] == rest;
  }

  lemma LifecycleIsEnabled()
    ensures forall y, to, expected :: Enabled(y, OnInstance(MODEL, Transition(to, expected)))
  {
  }

  /**
    The run is legal from an idle scheduler in step and ends out of step: stopping the
    instance forgot its waiter.
   */
  lemma StoppingTearsTheMirror()
    ensures Safe(IDLE.s) && InStep(IDLE) && Legal(IDLE, STOPPING)
    ensures !InStep(SchedulerRuns.Run(IDLE, STOPPING))
    ensures TearsApart(FAILED, STOPPING[3]) && Next(FAILED, STOPPING[3]) == SchedulerRuns.Run(IDLE, STOPPING)
  {
    hide Next, Enabled;
    StoppingRun();
    InstanceStops();
    IdleIsInStep();
    StoppedIsOutOfStep();
    TearingStep();
  }

  lemma IdleIsInStep()
    ensures Safe(IDLE.s) && InStep(IDLE)
  {
  }

  lemma StoppedIsOutOfStep()
    ensures !InStep(STOPPED)
  {
    assert WaitersFor([SECOND], MODEL) == 1 by { assert [SECOND][1..] == []; }
    assert MODEL in STOPPED.registry.value;
  }

  lemma TearingStep()
    ensures TearsApart(FAILED, STOPPING[3])
  {
    assert WaitersFor([SECOND], MODEL) == 1 by { assert [SECOND][1..] == []; }
  }

  /**
    Then the running request is released: the waiter heads the queue, nothing blocks it,
    and yet its turn ends in an error and takes it off the queue without a lease.
   */
  lemma UnblockedWaiterIsRefused()
    ensures Legal(IDLE, STOPPING + [Release(1)])
    ensures var end := SchedulerRuns.Run(IDLE, STOPPING + [Release(1)]);
      && end.s.waiting == [SECOND] && end.s.active == map[] && Blockers(end.s, SECOND) == 0 && CanGrant(end.s, SECOND)
      && Woken(end, SECOND, false, false).1 == Refused
      && Woken(end, SECOND, false, false).0.s.waiting == [] && Woken(end, SECOND, false, false).0.s.active == map[]
  {
    hide Next, Enabled, Blockers, CanGrant, Woken;
    StoppingRun();
    LastReleased();
    OneStepMore(IDLE, STOPPING, Release(1));
    HeadIsGrantable(RELEASED.s);
    GrantableIffUnblocked(RELEASED.s, SECOND);
    TurnIsRefused();
  }

  lemma LastReleased()
    ensures Enabled(STOPPED, Release(1)) && Next(STOPPED, Release(1)) == RELEASED
  {
    assert STOPPED.s.active - {1} == map[];
  }

  lemma TurnIsRefused()
    requires CanGrant(RELEASED.s, SECOND)
    ensures var (end, result) := Woken(RELEASED, SECOND, false, false);
      result == Refused && end.s.waiting == [] && end.s.active == map[]
  {
    hide CanGrant;
    assert Without([SECOND], SECOND) == [];
  }

  lemma {:induction false} OneStepMore(y: System, steps: seq<Step>, step: Step)
    requires Legal(y, steps) && Enabled(SchedulerRuns.Run(y, steps), step)
    ensures Legal(y, steps + [step])
    ensures SchedulerRuns.Run(y, steps + [step]) == Next(SchedulerRuns.Run(y, steps), step)
    decreases |steps|
  {
    hide Next, Enabled;
    if steps == [] {
      assert [] + [step] == [step] && [step][1..] == [];
    } else {
      assert (steps + [step])[1..] == steps[1..] + [step];
      OneStepMore(Next(y, steps[0]), steps[1..], step);
    }
  }
}
