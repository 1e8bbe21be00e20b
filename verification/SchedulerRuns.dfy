/**
  What every run of the generation scheduler keeps: exclusion, order, progress,
  and the mirror of its queue in the instance registry.
 */
module SchedulerRuns {
  import opened Options
  import opened Instances
  import opened Scheduler

  datatype Step =
    | Arrive(id: LeaseId, instance: string, nodes: Nodes)
    | Wake(waiter: Record, cancelled: bool, expired: bool)
    | Release(lease: LeaseId)
    | OnInstance(target: string, operation: Operation)
    | Create(created: string, owner: string)
    | Remove(removed: string)

  function Next(y: System, step: Step): System {
    match step
    case Arrive(id, instance, nodes) => Arrived(y, id, instance, nodes).0
    case Wake(waiter, cancelled, expired) => Woken(y, waiter, cancelled, expired).0
    case Release(lease) => Released(y, lease).0
    case OnInstance(target, operation) => y.(registry := Mirrored(y.registry, target, operation))
    case Create(created, owner) =>
      if y.registry.Some? && created !in y.registry.value
      then y.(registry := Some(y.registry.value[created := Instance(owner, Lifecycle.Queued, 0, 0, 0)]))
      else y
    case Remove(removed) =>
      if y.registry.Some? then y.(registry := Some(y.registry.value - {removed})) else y
  }

  /**
    New requests bring a lease id of their own and a non-empty node set; only
    queued requests have a loop to turn; only the scheduler counts the queue.
   */
  predicate Enabled(y: System, step: Step) {
    match step
    case Arrive(id, _, nodes) =>
      nodes != {} && id !in y.s.active && forall w | w in y.s.waiting :: w.leaseId != id
    case Wake(waiter, _, _) => waiter in y.s.waiting
    case OnInstance(_, operation) => !operation.Enqueue? && !operation.Dequeue?
    case _ => true
  }

  function Run(y: System, steps: seq<Step>): System
    decreases |steps|
  {
    if steps == [] then y else Run(Next(y, steps[0]), steps[1..])
  }

  predicate Legal(y: System, steps: seq<Step>)
    decreases |steps|
  {
    steps == [] || (Enabled(y, steps[0]) && Legal(Next(y, steps[0]), steps[1..]))
  }

  // ----- queue surgery

  predicate DistinctIds(waiting: seq<Record>) {
    forall i, j | 0 <= i < j < |waiting| :: waiting[i].leaseId != waiting[j].leaseId
  }

  lemma {:induction false} WithoutAt(waiting: seq<Record>, r: Record) returns (i: nat)
    requires r in waiting
    ensures i < |waiting| && waiting[i] == r
    ensures Without(waiting, r) == waiting[..i] + waiting[i + 1..]
  {
    if waiting[0] == r {
      i := 0;
    } else {
      var k := WithoutAt(waiting[1..], r);
      i := k + 1;
      assert waiting == [waiting[0]] + waiting[1..];
    }
  }

  lemma {:induction false} AheadAt(waiting: seq<Record>, i: nat)
    requires DistinctIds(waiting) && i < |waiting|
    ensures Ahead(waiting, waiting[i].leaseId) == waiting[..i]
  {
    if i > 0 {
      AheadAt(waiting[1..], i - 1);
      assert waiting[1..][i - 1] == waiting[i];
    }
  }

  lemma {:induction false} AheadOfStranger(waiting: seq<Record>, id: LeaseId)
    requires forall w | w in waiting :: w.leaseId != id
    ensures Ahead(waiting, id) == waiting
  {
    if waiting != [] {
      AheadOfStranger(waiting[1..], id);
    }
  }

  // ----- safety

  /** The queue is bounded and in arrival order. */
  ghost predicate Ordered(s: State) {
    && |s.waiting| <= s.limit
    && DistinctIds(s.waiting)
    && (forall i, j | 0 <= i < j < |s.waiting| :: s.waiting[i].sequence < s.waiting[j].sequence)
    && (forall i | 0 <= i < |s.waiting| :: s.waiting[i].sequence <= s.sequence)
  }

  /** Active leases exclude each other. */
  ghost predicate Exclusive(s: State) {
    && (forall id | id in s.active :: s.active[id].sequence <= s.sequence && s.active[id].leaseId == id)
    && (forall a, b | a in s.active && b in s.active && a != b :: !Overlaps(s.active[a].nodes, s.active[b].nodes))
  }

  /** Whoever waits came after every active lease it overlaps. */
  ghost predicate NoOvertaking(s: State) {
    && (forall w | w in s.waiting :: w.leaseId !in s.active)
    && (forall id, w | id in s.active && w in s.waiting && Overlaps(s.active[id].nodes, w.nodes) ::
          s.active[id].sequence < w.sequence)
  }

  ghost predicate Safe(s: State) {
    Ordered(s) && Exclusive(s) && NoOvertaking(s)
  }

  lemma OverlapsIsSymmetric(a: Nodes, b: Nodes)
    ensures Overlaps(a, b) == Overlaps(b, a)
  {
    assert a * b == b * a;
  }

  lemma RemovalKeepsOrder(s: State, r: Record)
    requires Ordered(s) && r in s.waiting
    ensures Ordered(s.(waiting := Without(s.waiting, r)))
    ensures forall w | w in Without(s.waiting, r) :: w in s.waiting && w.leaseId != r.leaseId
  {
    var i := WithoutAt(s.waiting, r);
    var rest := Without(s.waiting, r);
    forall k | 0 <= k < |rest|
      ensures rest[k] == s.waiting[if k < i then k else k + 1]
    {
    }
  }

  lemma RemovalKeepsSafe(s: State, r: Record)
    requires Safe(s) && r in s.waiting
    ensures Safe(s.(waiting := Without(s.waiting, r)))
  {
    RemovalKeepsOrder(s, r);
    hide Ordered, Overlaps, Without;
  }

  /** Behind a grantable waiter, every waiter it overlaps arrived later. */
  lemma OverlappedWaitersAreLater(s: State, r: Record, w: Record)
    requires Ordered(s) && r in s.waiting && CanGrant(s, r)
    requires w in s.waiting && w != r && Overlaps(r.nodes, w.nodes)
    ensures r.sequence < w.sequence
  {
    var i :| 0 <= i < |s.waiting| && s.waiting[i] == r;
    var k :| 0 <= k < |s.waiting| && s.waiting[k] == w;
    AheadAt(s.waiting, i);
  }

  lemma ActivationKeepsSafe(s: State, r: Record)
    requires Safe(s) && r.sequence <= s.sequence && r.leaseId !in s.active
    requires forall id | id in s.active :: !Overlaps(r.nodes, s.active[id].nodes)
    requires forall w | w in s.waiting :: w.leaseId != r.leaseId
    requires forall w | w in s.waiting && Overlaps(r.nodes, w.nodes) :: r.sequence < w.sequence
    ensures Safe(Granted(s, r))
  {
    forall id | id in s.active
      ensures !Overlaps(s.active[id].nodes, r.nodes)
    {
      OverlapsIsSymmetric(s.active[id].nodes, r.nodes);
    }
    hide Overlaps;
    assert Exclusive(Granted(s, r));
    assert NoOvertaking(Granted(s, r));
  }

  lemma GrantKeepsSafe(s: State, r: Record)
    requires Safe(s) && r in s.waiting && CanGrant(s, r)
    ensures Safe(Granted(s.(waiting := Without(s.waiting, r)), r))
  {
    RemovalKeepsSafe(s, r);
    RemovalKeepsOrder(s, r);
    var rest := s.(waiting := Without(s.waiting, r));
    forall w | w in rest.waiting && Overlaps(r.nodes, w.nodes)
      ensures r.sequence < w.sequence
    {
      OverlappedWaitersAreLater(s, r, w);
    }
    assert r.sequence <= s.sequence;
    assert r.leaseId !in s.active;
    hide Overlaps, Without, Exclusive, NoOvertaking, Ordered;
    ActivationKeepsSafe(rest, r);
  }

  lemma JoiningKeepsSafe(s: State, r: Record)
    requires Safe(s) && |s.waiting| < s.limit && r.leaseId !in s.active
    requires forall w | w in s.waiting :: w.leaseId != r.leaseId
    requires forall i | 0 <= i < |s.waiting| :: s.waiting[i].sequence < r.sequence
    requires forall id | id in s.active :: s.active[id].sequence < r.sequence
    requires r.sequence <= s.sequence
    ensures Safe(s.(waiting := s.waiting + [r]))
  {
    hide Overlaps;
    assert Ordered(s.(waiting := s.waiting + [r]));
    assert NoOvertaking(s.(waiting := s.waiting + [r]));
  }

  lemma NextNumberKeepsSafe(s: State)
    requires Safe(s)
    ensures var next := s.(sequence := s.sequence + 1);
      && Safe(next)
      && (forall i | 0 <= i < |next.waiting| :: next.waiting[i].sequence < next.sequence)
      && (forall id | id in next.active :: next.active[id].sequence < next.sequence)
  {
    hide Overlaps;
  }

  lemma ArrivalKeepsSafe(y: System, id: LeaseId, instance: string, nodes: Nodes)
    requires Safe(y.s) && Enabled(y, Arrive(id, instance, nodes))
    ensures Safe(Arrived(y, id, instance, nodes).0.s)
  {
    hide Overlaps, Safe;
    var s := y.s.(sequence := y.s.sequence + 1);
    var r := Record(id, instance, nodes, s.sequence);
    NextNumberKeepsSafe(y.s);
    AheadOfStranger(s.waiting, id);
    if CanGrant(s, r) {
      ActivationKeepsSafe(s, r);
    } else if |s.waiting| < s.limit {
      JoiningKeepsSafe(s, r);
    }
  }

  lemma StepKeepsSafe(y: System, step: Step)
    requires Safe(y.s) && Enabled(y, step)
    ensures Safe(Next(y, step).s)
  {
    match step
    case Arrive(id, instance, nodes) => ArrivalKeepsSafe(y, id, instance, nodes);
    case Wake(waiter, cancelled, expired) =>
      RemovalKeepsSafe(y.s, waiter);
      if CanGrant(y.s, waiter) {
        GrantKeepsSafe(y.s, waiter);
      }
    case _ =>
  }

  /** Exclusion, order, bound and no overtaking hold in every reachable state. */
  lemma {:induction false} SafeAlways(y: System, steps: seq<Step>)
    requires Safe(y.s) && Legal(y, steps)
    ensures Safe(Run(y, steps).s)
    decreases |steps|
  {
    if steps != [] {
      StepKeepsSafe(y, steps[0]);
      SafeAlways(Next(y, steps[0]), steps[1..]);
    }
  }

  // ----- progress

  function OverlapCount(waiting: seq<Record>, nodes: Nodes): nat {
    if waiting == [] then 0
    else (if Overlaps(waiting[0].nodes, nodes) then 1 else 0) + OverlapCount(waiting[1..], nodes)
  }

  function BlockingLeases(active: map<LeaseId, Record>, nodes: Nodes): set<LeaseId> {
    set id | id in active && Overlaps(active[id].nodes, nodes)
  }

  /** What stands between a waiter and its grant: overlapping leases and earlier overlapping waiters. */
  function Blockers(s: State, r: Record): nat {
    OverlapCount(Ahead(s.waiting, r.leaseId), r.nodes) + |BlockingLeases(s.active, r.nodes)|
  }

  lemma {:induction false} OverlapCountSplits(a: seq<Record>, b: seq<Record>, nodes: Nodes)
    ensures OverlapCount(a + b, nodes) == OverlapCount(a, nodes) + OverlapCount(b, nodes)
  {
    if a == [] {
      assert a + b == b;
    } else {
      OverlapCountSplits(a[1..], b, nodes);
      assert (a + b)[1..] == a[1..] + b;
    }
  }

  lemma {:induction false} NoOverlapsCounted(waiting: seq<Record>, nodes: Nodes)
    ensures OverlapCount(waiting, nodes) == 0 <==> forall w | w in waiting :: !Overlaps(w.nodes, nodes)
  {
    if waiting != [] {
      NoOverlapsCounted(waiting[1..], nodes);
      assert waiting == [waiting[0]] + waiting[1..];
    }
  }

  /** A request can be granted exactly when nothing blocks it. */
  lemma GrantableIffUnblocked(s: State, r: Record)
    ensures CanGrant(s, r) <==> Blockers(s, r) == 0
  {
    NoOverlapsCounted(Ahead(s.waiting, r.leaseId), r.nodes);
    forall a: Nodes
      ensures Overlaps(a, r.nodes) == Overlaps(r.nodes, a)
    {
      OverlapsIsSymmetric(a, r.nodes);
    }
    hide Overlaps;
    var leases := BlockingLeases(s.active, r.nodes);
    if |leases| == 0 {
      assert leases == {};
      assert forall id | id in s.active :: id !in leases;
    } else {
      assert exists id :: id in leases;
    }
  }

  /** With no lease active, the head of the queue can always be granted. */
  lemma HeadIsGrantable(s: State)
    requires s.active == map[] && s.waiting != []
    ensures CanGrant(s, s.waiting[0])
  {
    assert Ahead(s.waiting, s.waiting[0].leaseId) == [];
  }

  /** The steps that free `r` of a blocker: a release, or an earlier waiter giving up. */
  function Unblocks(y: System, step: Step, r: Record): nat {
    match step
    case Release(lease) => if lease in BlockingLeases(y.s.active, r.nodes) then 1 else 0
    case Wake(waiter, _, _) =>
      if waiter in Ahead(y.s.waiting, r.leaseId) && Overlaps(waiter.nodes, r.nodes)
         && waiter !in Next(y, step).s.waiting && waiter.leaseId !in Next(y, step).s.active
      then 1 else 0
    case _ => 0
  }

  lemma RestIsDistinct(w: seq<Record>, i: nat)
    requires DistinctIds(w) && i < |w|
    ensures DistinctIds(w[..i] + w[i + 1..])
  {
    var rest := w[..i] + w[i + 1..];
    assert forall k | 0 <= k < |rest| :: rest[k] == w[if k < i then k else k + 1];
  }

  lemma RemovedBehind(w: seq<Record>, i: nat, k: nat)
    requires DistinctIds(w) && k < i < |w|
    ensures var rest := w[..i] + w[i + 1..];
      w[k] in rest && Ahead(rest, w[k].leaseId) == Ahead(w, w[k].leaseId) == w[..k]
  {
    var rest := w[..i] + w[i + 1..];
    RestIsDistinct(w, i);
    assert rest[k] == w[k];
    AheadAt(w, k);
    AheadAt(rest, k);
    assert rest[..k] == w[..k];
  }

  lemma CutAhead(w: seq<Record>, i: nat, k: nat)
    requires i < k < |w|
    ensures var rest := w[..i] + w[i + 1..];
      |rest| == |w| - 1 && rest[k - 1] == w[k] && rest[..k - 1] == w[..i] + w[i + 1..k]
  {
    var tail := w[i + 1..];
    assert tail[..k - 1 - i] == w[i + 1..k];
    assert (w[..i] + tail)[..k - 1] == w[..i] + tail[..k - 1 - i];
  }

  lemma RemovedAhead(w: seq<Record>, i: nat, k: nat)
    requires DistinctIds(w) && i < k < |w|
    ensures var rest := w[..i] + w[i + 1..];
      Ahead(w, w[k].leaseId) == w[..k] && Ahead(rest, w[k].leaseId) == w[..i] + w[i + 1..k]
  {
    hide DistinctIds, Ahead;
    RestIsDistinct(w, i);
    CutAhead(w, i, k);
    AheadAt(w, k);
    AheadAt(w[..i] + w[i + 1..], k - 1);
  }

  lemma CountWithoutOne(a: seq<Record>, r: Record, b: seq<Record>, nodes: Nodes)
    ensures OverlapCount(a + [r] + b, nodes)
         == OverlapCount(a + b, nodes) + (if Overlaps(r.nodes, nodes) then 1 else 0)
  {
    OverlapCountSplits(a, b, nodes);
    OverlapCountSplits(a + [r], b, nodes);
    OverlapCountSplits(a, [r], nodes);
    assert [r][1..] == [];
  }

  lemma CountAheadOfRemoved(w: seq<Record>, i: nat, k: nat)
    requires DistinctIds(w) && i < |w| && k < |w| && i != k
    ensures OverlapCount(Ahead(w[..i] + w[i + 1..], w[k].leaseId), w[k].nodes)
         + (if i < k && Overlaps(w[i].nodes, w[k].nodes) then 1 else 0)
         == OverlapCount(w[..k], w[k].nodes)
  {
    hide Overlaps, OverlapCount;
    if k < i {
      RemovedBehind(w, i, k);
    } else {
      RemovedAhead(w, i, k);
      CountWithoutOne(w[..i], w[i], w[i + 1..k], w[k].nodes);
      assert w[..k] == w[..i] + [w[i]] + w[i + 1..k];
    }
  }

  lemma AheadOfRemoved(s: State, waiter: Record, r: Record)
    requires Ordered(s) && waiter in s.waiting && r in s.waiting && waiter != r
    ensures OverlapCount(Ahead(Without(s.waiting, waiter), r.leaseId), r.nodes)
         + (if waiter in Ahead(s.waiting, r.leaseId) && Overlaps(waiter.nodes, r.nodes) then 1 else 0)
         == OverlapCount(Ahead(s.waiting, r.leaseId), r.nodes)
  {
    hide Overlaps, OverlapCount;
    var w := s.waiting;
    var i := WithoutAt(w, waiter);
    var k :| 0 <= k < |w| && w[k] == r;
    CountAheadOfRemoved(w, i, k);
    AheadAt(w, k);
    assert i < k ==> w[..k][i] == waiter;
  }

  lemma LeaseAdded(active: map<LeaseId, Record>, r: Record, nodes: Nodes)
    requires r.leaseId !in active
    ensures |BlockingLeases(active[r.leaseId := r], nodes)|
         == |BlockingLeases(active, nodes)| + (if Overlaps(r.nodes, nodes) then 1 else 0)
  {
    hide Overlaps;
    var was := BlockingLeases(active, nodes);
    var now := BlockingLeases(active[r.leaseId := r], nodes);
    if Overlaps(r.nodes, nodes) {
      assert now == was + {r.leaseId};
    } else {
      assert now == was;
    }
  }

  lemma LeaseRemoved(active: map<LeaseId, Record>, id: LeaseId, nodes: Nodes)
    ensures |BlockingLeases(active - {id}, nodes)| + (if id in BlockingLeases(active, nodes) then 1 else 0)
         == |BlockingLeases(active, nodes)|
  {
    hide Overlaps;
    assert BlockingLeases(active - {id}, nodes) == BlockingLeases(active, nodes) - {id};
  }

  lemma GrantOnArrivalConservesBlockers(s: State, arrived: Record, r: Record)
    requires r in s.waiting && arrived.leaseId !in s.active && CanGrant(s, arrived)
    requires forall w | w in s.waiting :: w.leaseId != arrived.leaseId
    ensures Blockers(Granted(s, arrived), r) == Blockers(s, r)
  {
    AheadOfStranger(s.waiting, arrived.leaseId);
    OverlapsIsSymmetric(arrived.nodes, r.nodes);
    LeaseAdded(s.active, arrived, r.nodes);
  }

  lemma JoiningConservesBlockers(s: State, arrived: Record, r: Record)
    requires DistinctIds(s.waiting) && r in s.waiting
    requires forall w | w in s.waiting :: w.leaseId != arrived.leaseId
    ensures Blockers(s.(waiting := s.waiting + [arrived]), r) == Blockers(s, r)
  {
    hide Overlaps, OverlapCount;
    var k :| 0 <= k < |s.waiting| && s.waiting[k] == r;
    AheadAt(s.waiting, k);
    AheadAt(s.waiting + [arrived], k);
    assert (s.waiting + [arrived])[..k] == s.waiting[..k];
  }

  lemma WakeConservesBlockers(y: System, step: Step, r: Record)
    requires step.Wake? && step.waiter != r
    requires Safe(y.s) && Enabled(y, step) && r in y.s.waiting
    ensures Blockers(Next(y, step).s, r) + Unblocks(y, step, r) == Blockers(y.s, r)
  {
    hide Overlaps, OverlapCount, CanGrant, BlockingLeases;
    var waiter, next := step.waiter, Next(y, step).s;
    var gone := y.s.(waiting := Without(y.s.waiting, waiter));
    assert next == y.s || next == gone || next == Granted(gone, waiter);
    RemovalKeepsOrder(y.s, waiter);
    AheadOfRemoved(y.s, waiter, r);
    assert waiter !in gone.waiting && waiter.leaseId !in y.s.active;
    LeaseAdded(y.s.active, waiter, r.nodes);
    if waiter !in Ahead(y.s.waiting, r.leaseId) && next == Granted(gone, waiter) {
      GrantedBehindIsDisjoint(y.s, waiter, r);
    }
  }

  /** A waiter granted from behind `r` does not overlap it. */
  lemma GrantedBehindIsDisjoint(s: State, waiter: Record, r: Record)
    requires DistinctIds(s.waiting) && waiter in s.waiting && r in s.waiting && waiter != r
    requires waiter !in Ahead(s.waiting, r.leaseId) && CanGrant(s, waiter)
    ensures !Overlaps(waiter.nodes, r.nodes)
  {
    var i :| 0 <= i < |s.waiting| && s.waiting[i] == waiter;
    var k :| 0 <= k < |s.waiting| && s.waiting[k] == r;
    AheadAt(s.waiting, i);
    AheadAt(s.waiting, k);
    if k < i {
      assert s.waiting[..i][k] == r;
    }
  }

  lemma ArrivalConservesBlockers(y: System, id: LeaseId, instance: string, nodes: Nodes, r: Record)
    requires Safe(y.s) && Enabled(y, Arrive(id, instance, nodes)) && r in y.s.waiting
    ensures Blockers(Next(y, Arrive(id, instance, nodes)).s, r) == Blockers(y.s, r)
  {
    hide CanGrant, Blockers, Safe, DistinctIds;
    var s := y.s.(sequence := y.s.sequence + 1);
    IdsDiffer(y.s);
    SameBlockers(y.s, s, r);
    var arrived := Record(id, instance, nodes, s.sequence);
    JoiningConservesBlockers(s, arrived, r);
    if CanGrant(s, arrived) {
      GrantOnArrivalConservesBlockers(s, arrived, r);
    }
  }

  lemma IdsDiffer(s: State)
    requires Safe(s)
    ensures DistinctIds(s.waiting)
  {
  }

  lemma SameBlockers(x: State, y: State, r: Record)
    requires x.waiting == y.waiting && x.active == y.active
    ensures Blockers(x, r) == Blockers(y, r)
  {
  }

  /**
    A waiter's blockers only ever fall, by exactly the steps that free it: later
    arrivals, grants to others and lifecycle changes leave the count alone.
   */
  lemma StepConservesBlockers(y: System, step: Step, r: Record)
    requires Safe(y.s) && Enabled(y, step)
    requires r in y.s.waiting && r in Next(y, step).s.waiting
    ensures Blockers(Next(y, step).s, r) + Unblocks(y, step, r) == Blockers(y.s, r)
  {
    hide Overlaps, OverlapCount, CanGrant;
    match step
    case Arrive(id, instance, nodes) => ArrivalConservesBlockers(y, id, instance, nodes, r);
    case Wake(waiter, _, _) =>
      if waiter == r {
        RemovalKeepsOrder(y.s, r);
        assert r !in Without(y.s.waiting, r);
      } else {
        WakeConservesBlockers(y, step, r);
      }
    case Release(lease) => LeaseRemoved(y.s.active, lease, r.nodes);
    case _ =>
  }

  function TotalUnblocks(y: System, steps: seq<Step>, r: Record): nat
    decreases |steps|
  {
    if steps == [] then 0
    else Unblocks(y, steps[0], r) + TotalUnblocks(Next(y, steps[0]), steps[1..], r)
  }

  predicate WaitsThroughout(y: System, steps: seq<Step>, r: Record)
    decreases |steps|
  {
    r in y.s.waiting && (steps == [] || WaitsThroughout(Next(y, steps[0]), steps[1..], r))
  }

  /**
    Over any run a waiter sees at most as many freeing steps as it has blockers,
    and it can be granted exactly when all of them have happened.
   */
  lemma {:induction false} WaiterIsFreedInFiniteTime(y: System, steps: seq<Step>, r: Record)
    requires Safe(y.s) && Legal(y, steps) && WaitsThroughout(y, steps, r)
    ensures Blockers(Run(y, steps).s, r) + TotalUnblocks(y, steps, r) == Blockers(y.s, r)
    ensures CanGrant(Run(y, steps).s, r) <==> TotalUnblocks(y, steps, r) == Blockers(y.s, r)
    decreases |steps|
  {
    if steps == [] {
      GrantableIffUnblocked(y.s, r);
    } else {
      StepKeepsSafe(y, steps[0]);
      assert r in Next(y, steps[0]).s.waiting;
      StepConservesBlockers(y, steps[0], r);
      WaiterIsFreedInFiniteTime(Next(y, steps[0]), steps[1..], r);
    }
  }
}
