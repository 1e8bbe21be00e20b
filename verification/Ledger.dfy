/**
  Admission of memory and ports on one node: reservations against a headroom, and
  ports that rest in quarantine for a while after their owner lets go.
 */
module Ledger {
  import opened Options

  type Port = nat

  datatype Error = NegativeMemory | NegativeSystemMemory | BadHeadroom | Unknown | NotAdmissible | PortConflict

  datatype State = State(
    total: nat,
    minimumHeadroom: real,
    reuseDelay: real,
    reservations: map<string, nat>,
    ports: map<Port, string>,
    quarantined: map<Port, real>)

  /** A port is set free at its deadline, not after it. */
  function Pruned(quarantined: map<Port, real>, now: real): map<Port, real> {
    map p | p in quarantined && quarantined[p] > now :: quarantined[p]
  }

  ghost function Sum(m: map<string, nat>): nat {
    if m == map[] then 0 else var k :| k in m; m[k] + Sum(m - {k})
  }

  function Usable(total: nat, ratio: real): int {
    ((total as real) * (1.0 - ratio)).Floor
  }

  predicate ValidRatio(ratio: real) {
    0.0 <= ratio <= 0.9
  }

  function EffectiveRatio(s: State, headroom: Option<real>): real {
    if headroom.Some? then headroom.value else s.minimumHeadroom
  }

  function Max(a: int, b: int): int { if a >= b then a else b }
  function Min(a: int, b: int): int { if a <= b then a else b }

  /** Memory a new reservation may take, by the ledger and by what the system reports. */
  function Available(total: nat, reserved: nat, system: Option<nat>, ratio: real): nat {
    var ledger := Max(0, Usable(total, ratio) - reserved);
    if system.Some? then Min(ledger, system.value) else ledger
  }

  predicate Conflicts(s: State, port: Port, id: string) {
    port in s.quarantined || (port in s.ports && s.ports[port] != id)
  }

  function Owned(ports: map<Port, string>, added: seq<Port>, id: string): map<Port, string> {
    map p | p in ports.Keys + (set q | q in added) :: if p in added then id else ports[p]
  }

  datatype Request =
    | Reserve(id: string, memory: int, wanted: seq<Port>, system: Option<int>, headroom: Option<real>)
    | Resize(id: string, memory: int, system: Option<int>, headroom: Option<real>)
    | Release(id: string)
    | Snapshot

  function BadArguments(memory: int, system: Option<int>): Option<Error> {
    if memory < 0 then Some(NegativeMemory)
    else if system.Some? && system.value < 0 then Some(NegativeSystemMemory)
    else None
  }

  ghost function Reserved(s: State, r: Request, now: real): (State, Option<Error>)
    requires r.Reserve?
  {
    var bad := BadArguments(r.memory, r.system);
    if bad.Some? then (s, bad)
    else
      var p := s.(quarantined := Pruned(s.quarantined, now));
      var current := if r.id in s.reservations then s.reservations[r.id] else 0;
      var ratio := EffectiveRatio(s, r.headroom);
      if !ValidRatio(ratio) then (p, Some(BadHeadroom))
      else if Max(0, r.memory - current) > Available(s.total, Sum(s.reservations), r.system, ratio)
      then (p, Some(NotAdmissible))
      else if exists port :: port in r.wanted && Conflicts(p, port, r.id) then (p, Some(PortConflict))
      else
        (p.(reservations := s.reservations[r.id := r.memory], ports := Owned(s.ports, r.wanted, r.id)), None)
  }

  ghost function Resized(s: State, r: Request): (State, Option<Error>)
    requires r.Resize?
  {
    var bad := BadArguments(r.memory, r.system);
    if bad.Some? then (s, bad)
    else if r.id !in s.reservations then (s, Some(Unknown))
    else
      var ratio := EffectiveRatio(s, r.headroom);
      if !ValidRatio(ratio) then (s, Some(BadHeadroom))
      else if r.memory > s.reservations[r.id] + Available(s.total, Sum(s.reservations), r.system, ratio)
      then (s, Some(NotAdmissible))
      else (s.(reservations := s.reservations[r.id := r.memory]), None)
  }

  function PortsOf(s: State, id: string): set<Port> {
    set p | p in s.ports && s.ports[p] == id
  }

  ghost function Freed(s: State, id: string, now: real): State {
    s.(reservations := s.reservations - {id},
       ports := s.ports - PortsOf(s, id),
       quarantined :=
         if s.reuseDelay > 0.0
         then s.quarantined + map p | p in PortsOf(s, id) :: now + s.reuseDelay
         else s.quarantined)
  }

  /** The ledger after a request at clock reading `now`. */
  ghost function Applied(s: State, r: Request, now: real): (State, Option<Error>) {
    match r
    case Reserve(_, _, _, _, _) => Reserved(s, r, now)
    case Resize(_, _, _, _) => Resized(s, r)
    case Release(id) => (Freed(s, id, now), None)
    case Snapshot => (s.(quarantined := Pruned(s.quarantined, now)), None)
  }

  // ----- sums over maps

  lemma {:induction false} SumWithout(m: map<string, nat>, k: string)
    requires k in m
    ensures Sum(m) == m[k] + Sum(m - {k})
    decreases |m|
  {
    var first :| first in m && Sum(m) == m[first] + Sum(m - {first});
    if first != k {
      SumWithout(m - {first}, k);
      SumWithout(m - {k}, first);
      assert m - {first} - {k} == m - {k} - {first};
    }
  }

  lemma SumUpdated(m: map<string, nat>, k: string, v: nat)
    ensures Sum(m[k := v]) == Sum(m) - (if k in m then m[k] else 0) + v
  {
    SumWithout(m[k := v], k);
    assert m[k := v] - {k} == m - {k};
    if k in m {
      SumWithout(m, k);
    } else {
      assert m - {k} == m;
    }
  }

  // ----- the ledger object

  class ResourceLedger {
    const total: nat
    const minimumHeadroom: real
    const reuseDelay: real
    var reservations: map<string, nat>
    var ports: map<Port, string>
    var quarantined: map<Port, real>

    constructor (total: nat, minimumHeadroom: real, reuseDelay: real)
      requires reuseDelay >= 0.0
      ensures Now() == State(total, Clamped(minimumHeadroom), reuseDelay, map[], map[], map[])
    {
      this.total := total;
      this.minimumHeadroom := Clamped(minimumHeadroom);
      this.reuseDelay := reuseDelay;
      reservations, ports, quarantined := map[], map[], map[];
    }

    ghost function Now(): State
      reads this
    {
      State(total, minimumHeadroom, reuseDelay, reservations, ports, quarantined)
    }

    method Prune(now: real)
      modifies `quarantined
      ensures quarantined == Pruned(old(quarantined), now)
    {
      var todo := quarantined.Keys;
      while todo != {}
        invariant todo <= old(quarantined).Keys
        invariant quarantined ==
          map p | p in old(quarantined) && (p in todo || old(quarantined)[p] > now) :: old(quarantined)[p]
        decreases todo
      {
        var p :| p in todo;
        if quarantined[p] <= now {
          quarantined := quarantined - {p};
        }
        todo := todo - {p};
      }
    }

    method ReservedMemory() returns (sum: nat)
      ensures sum == Sum(reservations)
    {
      sum := 0;
      var todo := reservations;
      while todo != map[]
        invariant sum + Sum(todo) == Sum(reservations)
        decreases |todo|
      {
        var k :| k in todo;
        SumWithout(todo, k);
        sum := sum + todo[k];
        todo := todo - {k};
      }
    }

    method Reserve(id: string, memory: int, wanted: seq<Port>, system: Option<int>, headroom: Option<real>, now: real)
      returns (error: Option<Error>)
      modifies this
      ensures (Now(), error) == Reserved(old(Now()), Request.Reserve(id, memory, wanted, system, headroom), now)
    {
      if memory < 0 {
        return Some(NegativeMemory);
      }
      if system.Some? && system.value < 0 {
        return Some(NegativeSystemMemory);
      }
      Prune(now);
      var current := if id in reservations then reservations[id] else 0;
      var additional := Max(0, memory - current);
      var ratio := if headroom.Some? then headroom.value else minimumHeadroom;
      if !ValidRatio(ratio) {
        return Some(BadHeadroom);
      }
      var reserved := ReservedMemory();
      if additional > Available(total, reserved, system, ratio) {
        return Some(NotAdmissible);
      }
      var free := NoConflict(id, wanted);
      if !free {
        return Some(PortConflict);
      }
      reservations := reservations[id := memory];
      Claim(id, wanted);
      return None;
    }

    method NoConflict(id: string, wanted: seq<Port>) returns (ok: bool)
      ensures ok <==> !exists port :: port in wanted && Conflicts(Now(), port, id)
    {
      for i := 0 to |wanted|
        invariant forall j | 0 <= j < i :: !Conflicts(Now(), wanted[j], id)
      {
        if wanted[i] in quarantined || (wanted[i] in ports && ports[wanted[i]] != id) {
          assert wanted[i] in wanted && Conflicts(Now(), wanted[i], id);
          return false;
        }
      }
      return true;
    }

    method Claim(id: string, wanted: seq<Port>)
      modifies `ports
      ensures ports == Owned(old(ports), wanted, id)
    {
      for i := 0 to |wanted|
        invariant ports == Owned(old(ports), wanted[..i], id)
      {
        OwnedByOneMore(old(ports), wanted, i, id);
        ports := ports[wanted[i] := id];
      }
      assert wanted[..|wanted|] == wanted;
    }

    method Resize(id: string, memory: int, system: Option<int>, headroom: Option<real>)
      returns (error: Option<Error>)
      modifies `reservations
      ensures (Now(), error) == Resized(old(Now()), Request.Resize(id, memory, system, headroom))
    {
      if memory < 0 {
        return Some(NegativeMemory);
      }
      if system.Some? && system.value < 0 {
        return Some(NegativeSystemMemory);
      }
      if id !in reservations {
        return Some(Unknown);
      }
      var ratio := if headroom.Some? then headroom.value else minimumHeadroom;
      if !ValidRatio(ratio) {
        return Some(BadHeadroom);
      }
      var reserved := ReservedMemory();
      if memory > reservations[id] + Available(total, reserved, system, ratio) {
        return Some(NotAdmissible);
      }
      reservations := reservations[id := memory];
      return None;
    }

    method Release(id: string, now: real)
      modifies this
      ensures Now() == Freed(old(Now()), id, now)
    {
      reservations := reservations - {id};
      FreePorts(id, now);
    }

    method FreePorts(id: string, now: real)
      modifies `ports, `quarantined
      ensures ports == old(ports) - PortsOf(old(Now()), id)
      ensures quarantined == Rested(old(quarantined), PortsOf(old(Now()), id), now + reuseDelay)
    {
      hide Rested;
      RestsNothing(quarantined, now + reuseDelay);
      ghost var mine := PortsOf(Now(), id);
      var todo := ports.Keys;
      ghost var done := {};
      while todo != {}
        invariant todo <= old(ports).Keys && mine - todo == done && done !! todo
        invariant ports == old(ports) - done
        invariant quarantined == Rested(old(quarantined), done, now + reuseDelay)
        decreases todo
      {
        var p :| p in todo;
        todo := todo - {p};
        if ports[p] == id {
          RestsToo(old(quarantined), done, p, now + reuseDelay);
          assert old(ports) - done - {p} == old(ports) - (done + {p});
          ports := ports - {p};
          if reuseDelay > 0.0 {
            quarantined := quarantined[p := now + reuseDelay];
          }
          done := done + {p};
        }
      }
      assert done == mine;
    }

    lemma RestsNothing(was: map<Port, real>, deadline: real)
      ensures Rested(was, {}, deadline) == was
    {
    }

    lemma RestsToo(was: map<Port, real>, freed: set<Port>, p: Port, deadline: real)
      ensures Rested(was, freed + {p}, deadline)
           == if reuseDelay > 0.0 then Rested(was, freed, deadline)[p := deadline] else Rested(was, freed, deadline)
    {
    }

    /** The quarantine with `freed` added, if this ledger delays reuse at all. */
    ghost function Rested(was: map<Port, real>, freed: set<Port>, deadline: real): map<Port, real> {
      if reuseDelay > 0.0 then was + map p | p in freed :: deadline else was
    }
  }

  lemma OwnedByOneMore(ports: map<Port, string>, wanted: seq<Port>, i: nat, id: string)
    requires i < |wanted|
    ensures Owned(ports, wanted[..i + 1], id) == Owned(ports, wanted[..i], id)[wanted[i] := id]
  {
    assert wanted[..i + 1] == wanted[..i] + [wanted[i]];
  }

  function Clamped(ratio: real): real {
    if ratio < 0.0 then 0.0 else if ratio > 0.9 then 0.9 else ratio
  }
}
