/**
  What every run of the resource ledger keeps, and why a port block chosen from a
  snapshot can be reserved.
 */
module LedgerRuns {
  import opened Options
  import opened Ledger

  /**
    A ledger with what happened to it: the smallest headroom any admission used,
    when each port was last let go, and the latest clock reading.
   */
  datatype History = History(s: State, smallest: real, freed: map<Port, real>, clock: real)

  ghost predicate Starting(h: History) {
    && h.s.reservations == map[] && h.s.ports == map[] && h.s.quarantined == map[]
    && h.s.reuseDelay >= 0.0 && h.smallest == 1.0 && h.freed == map[]
  }

  ghost function Next(h: History, r: Request, now: real): History {
    var (s, error) := Applied(h.s, r, now);
    History(
      s,
      if error.None? && (r.Reserve? || r.Resize?) && EffectiveRatio(h.s, r.headroom) < h.smallest
      then EffectiveRatio(h.s, r.headroom) else h.smallest,
      if r.Release? then h.freed + map p | p in PortsOf(h.s, r.id) :: now else h.freed,
      now)
  }

  /** Memory stays within the tightest headroom admitted with; ports never rest and serve at once. */
  ghost predicate Sound(h: History) {
    && h.s.reuseDelay >= 0.0 && h.smallest <= 1.0
    && Sum(h.s.reservations) <= Usable(h.s.total, h.smallest)
    && h.s.ports.Keys !! h.s.quarantined.Keys
    && (forall p | p in h.freed ::
          || (p in h.s.quarantined && h.s.quarantined[p] == h.freed[p] + h.s.reuseDelay)
          || h.freed[p] + h.s.reuseDelay <= h.clock)
  }

  lemma UsableIsMonotone(total: nat, a: real, b: real)
    requires a <= b
    ensures Usable(total, b) <= Usable(total, a)
  {
    var t := total as real;
    assert t * (1.0 - b) <= t * (1.0 - a);
  }

  lemma StartsSound(h: History)
    requires Starting(h)
    ensures Sound(h)
  {
    assert Usable(h.s.total, 1.0) == 0;
  }

  /** A refused request leaves every reservation and every port as it was. */
  lemma RefusalChangesNothing(s: State, r: Request, now: real)
    requires Applied(s, r, now).1.Some?
    ensures Applied(s, r, now).0.reservations == s.reservations
    ensures Applied(s, r, now).0.ports == s.ports
  {
  }

  /** A port that nobody else owns and that does not rest any more. */
  predicate IsFreeFor(s: State, port: Port, id: string, now: real) {
    && (port in s.ports ==> s.ports[port] == id)
    && (port in s.quarantined ==> s.quarantined[port] <= now)
  }

  function Current(s: State, id: string): nat {
    if id in s.reservations then s.reservations[id] else 0
  }

  /**
    A reservation is admitted exactly when its arguments are sound, it does not grow or
    the total with it stays usable and its growth available, and its ports are free.
   */
  lemma ReserveSucceedsIff(s: State, r: Request, now: real)
    requires r.Reserve?
    ensures Applied(s, r, now).1.None? <==>
      var current, ratio := Current(s, r.id), EffectiveRatio(s, r.headroom);
      && r.memory >= 0 && (r.system.Some? ==> r.system.value >= 0) && ValidRatio(ratio)
      && (r.memory <= current
          || (&& Sum(s.reservations) - current + r.memory <= Usable(s.total, ratio)
              && (r.system.Some? ==> r.memory - current <= r.system.value)))
      && forall port | port in r.wanted :: IsFreeFor(s, port, r.id, now)
  {
    var p := s.(quarantined := Pruned(s.quarantined, now));
    forall port
      ensures Conflicts(p, port, r.id) <==> !IsFreeFor(s, port, r.id, now)
    {
    }
  }

  /** An admitted reservation changes its own entry and the owner of its ports, and nothing else. */
  lemma ReserveTakesExactly(s: State, r: Request, now: real)
    requires r.Reserve? && Applied(s, r, now).1.None?
    ensures var next := Applied(s, r, now).0;
      && Sum(next.reservations) == Sum(s.reservations) - Current(s, r.id) + r.memory
      && (forall id :: Current(next, id) == if id == r.id then r.memory else Current(s, id))
      && (forall port | port in r.wanted :: port in next.ports && next.ports[port] == r.id)
      && (forall port | port !in r.wanted :: (port in next.ports <==> port in s.ports)
           && (port in s.ports ==> next.ports[port] == s.ports[port]))
  {
    SumUpdated(s.reservations, r.id, r.memory);
  }

  /** A release takes its own entry and its own ports, which rest until the delay is over. */
  lemma ReleaseGivesUpExactly(s: State, id: string, now: real)
    ensures var next := Freed(s, id, now);
      && Sum(next.reservations) == Sum(s.reservations) - Current(s, id)
      && (forall other :: Current(next, other) == if other == id then 0 else Current(s, other))
      && (forall port :: port in next.ports <==> port in s.ports && s.ports[port] != id)
      && (forall port | port in next.ports :: next.ports[port] == s.ports[port])
      && (s.reuseDelay > 0.0 ==> forall port | port in s.ports && s.ports[port] == id ::
           port in next.quarantined && next.quarantined[port] == now + s.reuseDelay)
  {
    if id in s.reservations {
      SumWithout(s.reservations, id);
    } else {
      assert s.reservations - {id} == s.reservations;
    }
  }

  /** Releasing undoes the reservation of a newcomer: all entries and owners are as before. */
  lemma ReleaseUndoesReserve(s: State, r: Request, now: real, later: real)
    requires r.Reserve? && Applied(s, r, now).1.None?
    requires r.id !in s.reservations && PortsOf(s, r.id) == {}
    ensures var next := Freed(Applied(s, r, now).0, r.id, later);
      next.reservations == s.reservations && next.ports == s.ports
  {
    var mid := Applied(s, r, now).0;
    assert forall port | port in s.ports :: port !in PortsOf(s, r.id);
    forall port | port in r.wanted
      ensures port !in s.ports
    {
      ReserveSucceedsIff(s, r, now);
      assert IsFreeFor(s, port, r.id, now);
    }
    assert mid.reservations - {r.id} == s.reservations;
    assert mid.ports - PortsOf(mid, r.id) == s.ports;
  }

  lemma MemoryStaysWithinHeadroom(h: History, r: Request, now: real)
    requires Sound(h)
    ensures var next := Next(h, r, now); Sum(next.s.reservations) <= Usable(next.s.total, next.smallest)
  {
    var next := Next(h, r, now);
    match r
    case Release(id) =>
      if id in h.s.reservations {
        SumWithout(h.s.reservations, id);
      } else {
        assert h.s.reservations - {id} == h.s.reservations;
      }
    case Snapshot =>
    case _ =>
      if Applied(h.s, r, now).1.None? {
        var ratio := EffectiveRatio(h.s, r.headroom);
        SumUpdated(h.s.reservations, r.id, r.memory);
        UsableIsMonotone(h.s.total, next.smallest, ratio);
        UsableIsMonotone(h.s.total, next.smallest, h.smallest);
      }
  }

  lemma PortsStaySound(h: History, r: Request, now: real)
    requires Sound(h) && h.clock <= now
    ensures Sound(Next(h, r, now).(smallest := h.smallest, s := Next(h, r, now).s.(reservations := h.s.reservations)))
  {
  }

  /** With a clock that never runs backwards, every request keeps the ledger sound. */
  lemma StepKeepsSound(h: History, r: Request, now: real)
    requires Sound(h) && h.clock <= now
    ensures Sound(Next(h, r, now))
  {
    MemoryStaysWithinHeadroom(h, r, now);
    PortsStaySound(h, r, now);
  }

  ghost function Run(h: History, requests: seq<(Request, real)>): History
    decreases |requests|
  {
    if requests == [] then h else Run(Next(h, requests[0].0, requests[0].1), requests[1..])
  }

  ghost predicate Monotone(clock: real, requests: seq<(Request, real)>)
    decreases |requests|
  {
    requests == [] || (clock <= requests[0].1 && Monotone(requests[0].1, requests[1..]))
  }

  /** Over every run: admitted memory, and ports that are owned or resting but never both. */
  lemma {:induction false} SoundAlways(h: History, requests: seq<(Request, real)>)
    requires Sound(h) && Monotone(h.clock, requests)
    ensures Sound(Run(h, requests))
    decreases |requests|
  {
    if requests != [] {
      StepKeepsSound(h, requests[0].0, requests[0].1);
      SoundAlways(Next(h, requests[0].0, requests[0].1), requests[1..]);
    }
  }

  /** A port somebody let go changes hands again only after the reuse delay. */
  lemma ReuseIsDelayed(h: History, r: Request, now: real, p: Port)
    requires Sound(h) && h.clock <= now
    requires r.Reserve? && Applied(h.s, r, now).1.None?
    requires p in r.wanted && p in h.freed
    ensures now >= h.freed[p] + h.s.reuseDelay
  {
    assert !Conflicts(h.s.(quarantined := Pruned(h.s.quarantined, now)), p, r.id);
  }

  // ----- choosing ports

  const PORT_LIMIT := 65536

  /** The ports a snapshot calls taken. */
  function Taken(s: State, now: real): set<Port> {
    s.ports.Keys + Pruned(s.quarantined, now).Keys
  }

  /** Nothing in the block is taken, and the probe finds each of its ports free. */
  predicate BlockIsFree(start: Port, width: nat, taken: set<Port>, probe: Port -> bool) {
    forall p: Port | start <= p < start + width :: p !in taken && probe(p)
  }

  /** The lowest free block at or a little above the preferred port. */
  method AllocateCollectivePort(preferred: Port, worldSize: int, taken: set<Port>, excluded: set<Port>, probe: Port -> bool)
    returns (start: Option<Port>)
    ensures var width := if worldSize > 1 then worldSize else 1;
      && (start.Some? ==>
            && preferred <= start.value <= preferred + 255 && start.value + width <= PORT_LIMIT
            && BlockIsFree(start.value, width, taken + excluded, probe)
            && forall q: Port | preferred <= q < start.value :: !BlockIsFree(q, width, taken + excluded, probe))
      && (start.None? ==>
            forall q: Port | preferred <= q <= preferred + 255 && q + width <= PORT_LIMIT ::
              !BlockIsFree(q, width, taken + excluded, probe))
  {
    var reserved := taken + excluded;
    var width := if worldSize > 1 then worldSize else 1;
    var last := Min(PORT_LIMIT - width, preferred + 255);
    var p := preferred;
    while p <= last
      invariant p >= preferred
      invariant forall q: Port | preferred <= q < p :: !BlockIsFree(q, width, reserved, probe)
    {
      if BlockIsFree(p, width, reserved, probe) {
        return Some(p);
      }
      p := p + 1;
    }
    return None;
  }

  /** A block chosen from a snapshot never conflicts in a later reserve on the same ledger. */
  lemma ChosenBlockDoesNotConflict(s: State, sampled: real, r: Request, now: real, start: Port, width: nat, probe: Port -> bool)
    requires sampled <= now
    requires BlockIsFree(start, width, Taken(s, sampled), probe)
    requires r.Reserve? && forall p: Port | p in r.wanted :: start <= p < start + width
    ensures Applied(s, r, now).1 != Some(PortConflict)
  {
    forall p: Port | p in r.wanted
      ensures !Conflicts(s.(quarantined := Pruned(s.quarantined, now)), p, r.id)
    {
      assert p !in Taken(s, sampled);
    }
  }
}
