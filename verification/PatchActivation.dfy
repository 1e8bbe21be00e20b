/**
  All-or-none activation of the native MTP monkey-patches across ranks.

  Every attribute a transaction sets is logged with what was there before, so
  undoing the log backwards restores the namespaces exactly. Ranks agree on their
  fingerprints by summing one-hot tables, and on success by summing flags.
 */
module PatchActivation {
  import opened Options

  // ----- attribute writes and their undo log

  type Owner = int
  type Name = string
  type Value = int
  type Attribute = (Owner, Name)
  type Attributes = map<Attribute, Value>

  /** One logged write: what the owner's own namespace held before it. */
  datatype Change = Change(attribute: Attribute, previous: Option<Value>)

  function Undone(attrs: Attributes, c: Change): Attributes {
    match c.previous
    case Some(v) => attrs[c.attribute := v]
    case None => attrs - {c.attribute}
  }

  /** The log undone from its end. */
  function RolledBack(attrs: Attributes, changes: seq<Change>): Attributes
    decreases |changes|
  {
    if changes == [] then attrs
    else RolledBack(Undone(attrs, changes[|changes| - 1]), changes[..|changes| - 1])
  }

  /** The namespaces of the foreign classes and modules of one process. */
  class World {
    var attrs: Attributes

    constructor (attrs: Attributes)
      ensures this.attrs == attrs
    {
      this.attrs := attrs;
    }
  }

  /** The reverse loop shared by `PatchTransaction.rollback` and `InstalledPatch.rollback`. */
  method UndoAll(world: World, changes: seq<Change>)
    modifies world
    ensures world.attrs == RolledBack(old(world.attrs), changes)
  {
    assert changes[..|changes|] == changes;
    for i := |changes| downto 0
      invariant RolledBack(world.attrs, changes[..i]) == RolledBack(old(world.attrs), changes)
    {
      assert changes[..i + 1][..i] == changes[..i];
      ghost var undone := Undone(world.attrs, changes[i]);
      var c := changes[i];
      if c.previous.Some? {
        world.attrs := world.attrs[c.attribute := c.previous.value];
      } else if c.attribute in world.attrs {
        world.attrs := world.attrs - {c.attribute};
      }
      assert world.attrs == undone;
    }
  }

  class PatchTransaction {
    const world: World
    var changes: seq<Change>
    var closed: bool
    /** The namespaces when the transaction began. */
    ghost const before: Attributes

    /** As long as nobody else writes, undoing the log gives back the start. */
    ghost predicate Valid()
      reads this, world
    {
      !closed ==> RolledBack(world.attrs, changes) == before
    }

    constructor (world: World)
      ensures Valid() && !closed && this.world == world && before == world.attrs && changes == []
    {
      this.world := world;
      this.changes := [];
      this.closed := false;
      this.before := world.attrs;
    }

    /** False stands for the error of writing through a closed transaction. */
    method Set(attribute: Attribute, value: Value) returns (ok: bool)
      requires Valid()
      modifies this, world
      ensures Valid() && ok == !old(closed) && closed == old(closed)
      ensures world.attrs == if ok then old(world.attrs)[attribute := value] else old(world.attrs)
    {
      if closed {
        return false;
      }
      var previous := if attribute in world.attrs then Some(world.attrs[attribute]) else None;
      changes := changes + [Change(attribute, previous)];
      world.attrs := world.attrs[attribute := value];
      assert changes[..|changes| - 1] == old(changes);
      assert Undone(world.attrs, Change(attribute, previous)) == old(world.attrs);
      return true;
    }

    method Rollback()
      requires Valid()
      modifies this, world
      ensures closed
      ensures world.attrs == if old(closed) then old(world.attrs) else before
    {
      if closed {
        return;
      }
      UndoAll(world, changes);
      closed := true;
    }

    method Commit() returns (installed: Option<InstalledPatch>)
      requires Valid()
      modifies this
      ensures closed && world.attrs == old(world.attrs)
      ensures installed.Some? == !old(closed)
      ensures installed.Some? ==>
        && fresh(installed.value)
        && installed.value.world == world && !installed.value.rolledBack
        && RolledBack(world.attrs, installed.value.changes) == before
    {
      if closed {
        return None;
      }
      closed := true;
      var patch := new InstalledPatch(world, changes);
      return Some(patch);
    }
  }

  class InstalledPatch {
    const world: World
    const changes: seq<Change>
    var rolledBack: bool

    constructor (world: World, changes: seq<Change>)
      ensures this.world == world && this.changes == changes && !rolledBack
    {
      this.world := world;
      this.changes := changes;
      this.rolledBack := false;
    }

    method Rollback()
      modifies this, world
      ensures rolledBack
      ensures world.attrs == if old(rolledBack) then old(world.attrs) else RolledBack(old(world.attrs), changes)
    {
      if rolledBack {
        return;
      }
      UndoAll(world, changes);
      rolledBack := true;
    }
  }

  // ----- agreement by summed tables

  type Byte = b: int | 0 <= b < 256

  /** A rank's digest bytes; all ranks hash with the same function, to `length` bytes. */
  type Digest = seq<Byte>

  type Table = seq<seq<int>>

  /** One row of 256 per digest byte, with a single one at the byte's value. */
  method OneHot(raw: Digest) returns (table: Table)
    ensures table == OneHotTable(raw)
  {
    table := seq(|raw|, _ => seq(256, _ => 0));
    for index := 0 to |raw|
      invariant |table| == |raw|
      invariant forall i | 0 <= i < |raw| ::
        table[i] == if i < index then OneHotTable(raw)[i] else seq(256, _ => 0)
    {
      table := table[index := table[index][raw[index] := 1]];
    }
  }

  function OneHotTable(raw: Digest): (t: Table)
    ensures |t| == |raw|
  {
    seq(|raw|, i requires 0 <= i < |raw| => seq(256, v => if v == raw[i] then 1 else 0))
  }

  /** One entry of the sum over the ranks: how many digests have `value` at `index`. */
  function Count(digests: seq<Digest>, index: nat, value: Byte): (n: nat)
    requires forall d | d in digests :: index < |d|
    ensures n <= |digests|
  {
    if digests == [] then 0
    else OneHotTable(digests[0])[index][value] + Count(digests[1..], index, value)
  }

  /** `all_sum` of every rank's one-hot table. */
  function SummedTable(digests: seq<Digest>, length: nat): Table
    requires forall d | d in digests :: |d| == length
  {
    seq(length, i requires 0 <= i < length => seq(256, v requires 0 <= v < 256 => Count(digests, i, v)))
  }

  function Sum(row: seq<int>): int {
    if row == [] then 0 else row[0] + Sum(row[1..])
  }

  function Largest(row: seq<int>): (m: int)
    requires row != []
    ensures exists i :: 0 <= i < |row| && row[i] == m
    ensures forall i | 0 <= i < |row| :: row[i] <= m
  {
    if |row| == 1 then row[0]
    else
      var m := Largest(row[1..]);
      assert forall i | 1 <= i < |row| :: row[i] == row[1..][i - 1];
      if row[0] >= m then row[0] else m
  }

  /** The test every rank applies to the summed table. */
  predicate TableAgrees(world: nat, summed: Table) {
    forall row | row in summed :: row != [] && Sum(row) == world && Largest(row) == world
  }

  /** `_rank_fingerprints_match` after the collective, which a single rank skips. */
  method FingerprintsMatch(world: nat, summed: Table) returns (ok: bool)
    requires forall row | row in summed :: row != []
    ensures ok == (world <= 1 || TableAgrees(world, summed))
  {
    if world <= 1 {
      return true;
    }
    for i := 0 to |summed|
      invariant forall j | 0 <= j < i :: Sum(summed[j]) == world && Largest(summed[j]) == world
    {
      if !(Sum(summed[i]) == world && Largest(summed[i]) == world) {
        return false;
      }
    }
    return true;
  }

  ghost predicate AllEqual(digests: seq<Digest>) {
    forall i, j | 0 <= i < |digests| && 0 <= j < |digests| :: digests[i] == digests[j]
  }

  lemma {:induction false} FullCount(digests: seq<Digest>, index: nat, value: Byte)
    requires forall d | d in digests :: index < |d|
    ensures Count(digests, index, value) == |digests| <==> forall d | d in digests :: d[index] == value
  {
    if digests != [] {
      FullCount(digests[1..], index, value);
      assert digests == [digests[0]] + digests[1..];
    }
  }

  lemma {:induction false} NoCount(digests: seq<Digest>, index: nat, value: Byte)
    requires forall d | d in digests :: index < |d| && d[index] != value
    ensures Count(digests, index, value) == 0
  {
    if digests != [] {
      assert digests[0] in digests;
      NoCount(digests[1..], index, value);
    }
  }

  lemma {:induction false} SumOfOne(row: seq<int>, at: nat, k: int)
    requires at < |row| && row[at] == k
    requires forall i | 0 <= i < |row| && i != at :: row[i] == 0
    ensures Sum(row) == k
  {
    if at == 0 {
      SumOfZeros(row[1..]);
    } else {
      SumOfOne(row[1..], at - 1, k);
    }
  }

  lemma {:induction false} SumOfZeros(row: seq<int>)
    requires forall i | 0 <= i < |row| :: row[i] == 0
    ensures Sum(row) == 0
  {
    if row != [] {
      SumOfZeros(row[1..]);
    }
  }

  /** The summed table passes on every rank exactly when all digests are equal. */
  lemma MatchIffAllEqual(digests: seq<Digest>, length: nat)
    requires digests != [] && forall d | d in digests :: |d| == length
    ensures TableAgrees(|digests|, SummedTable(digests, length)) <==> AllEqual(digests)
  {
    var summed := SummedTable(digests, length);
    if TableAgrees(|digests|, summed) {
      forall i, j | 0 <= i < |digests| && 0 <= j < |digests|
        ensures digests[i] == digests[j]
      {
        forall k | 0 <= k < length
          ensures digests[i][k] == digests[j][k]
        {
          assert summed[k] in summed;
          var v :| 0 <= v < 256 && summed[k][v] == |digests|;
          FullCount(digests, k, v);
          assert digests[i] in digests && digests[j] in digests;
        }
      }
    }
    if AllEqual(digests) {
      forall row | row in summed
        ensures row != [] && Sum(row) == |digests| && Largest(row) == |digests|
      {
        var k :| 0 <= k < length && row == summed[k];
        RowOfEqualDigests(digests, length, k);
      }
    }
  }

  lemma RowOfEqualDigests(digests: seq<Digest>, length: nat, k: nat)
    requires digests != [] && (forall d | d in digests :: |d| == length) && k < length
    requires AllEqual(digests)
    ensures var row := SummedTable(digests, length)[k];
      Sum(row) == |digests| && Largest(row) == |digests|
  {
    var row := SummedTable(digests, length)[k];
    var v := digests[0][k];
    FullCount(digests, k, v);
    forall w | 0 <= w < 256 && w != v
      ensures row[w] == 0
    {
      NoCount(digests, k, w);
    }
    assert row[v] == |digests|;
    SumOfOne(row, v, |digests|);
    assert Largest(row) >= row[v];
  }

  // ----- preparing one rank

  datatype Reason = RankMismatch | Disabled | DecodeConcurrency | Topology | Runtime | InstallFailed

  datatype Outcome = Committed | Fallback(reason: Reason) | Raised(reason: Reason)

  /** What one rank knows locally; `writes` are those its install makes before it ends or fails. */
  datatype Local = Local(
    digest: Digest,
    enabled: bool,
    required: bool,
    concurrency: int,
    pipelineParallel: bool,
    runtimeSupported: bool,
    writes: seq<(Attribute, Value)>,
    installFails: bool)

  /** What the three collectives return; a rank looks only at those it reaches. */
  datatype Collected = Collected(world: nat, first: Table, second: Table, successes: nat)

  predicate Agrees(c: Collected, table: Table) {
    c.world <= 1 || TableAgrees(c.world, table)
  }

  function FallbackOrRaise(l: Local, reason: Reason): Outcome {
    if l.required then Raised(reason) else Fallback(reason)
  }

  /** The local checks between the first and the second collective. */
  predicate PassesLocalChecks(l: Local) {
    l.concurrency == 1 && !l.pipelineParallel && l.runtimeSupported
  }

  function Prepared(l: Local, c: Collected): Outcome {
    if !Agrees(c, c.first) then FallbackOrRaise(l, RankMismatch)
    else if !l.enabled then FallbackOrRaise(l, Disabled)
    else if l.concurrency != 1 then FallbackOrRaise(l, DecodeConcurrency)
    else if l.pipelineParallel then FallbackOrRaise(l, Topology)
    else if !l.runtimeSupported then FallbackOrRaise(l, Runtime)
    else if !Agrees(c, c.second) then FallbackOrRaise(l, RankMismatch)
    else if l.installFails || (c.world > 1 && c.successes != c.world) then Raised(InstallFailed)
    else Committed
  }

  /** How many collectives a rank of a larger world takes part in. */
  function Rounds(l: Local, c: Collected): nat {
    if !Agrees(c, c.first) || !l.enabled || !PassesLocalChecks(l) then 1
    else if !Agrees(c, c.second) then 2
    else 3
  }

  function Written(attrs: Attributes, writes: seq<(Attribute, Value)>): Attributes
    decreases |writes|
  {
    if writes == [] then attrs
    else
      var last := writes[|writes| - 1];
      Written(attrs, writes[..|writes| - 1])[last.0 := last.1]
  }

  /** The namespaces of a rank after its activation: every write of the install, or none. */
  function AttributesAfter(l: Local, c: Collected, attrs: Attributes): Attributes {
    if Prepared(l, c).Committed? then Written(attrs, l.writes) else attrs
  }

  class Controller {
    const local: Local
    const world: World
    var enabled: bool
    var installed: InstalledPatch?

    constructor (local: Local, world: World)
      ensures this.local == local && this.world == world && enabled == local.enabled && installed == null
    {
      this.local, this.world := local, world;
      this.enabled := local.enabled;
      this.installed := null;
    }

    method FallbackTo(reason: Reason) returns (o: Outcome)
      modifies `enabled
      ensures o == FallbackOrRaise(local, reason) && !enabled
    {
      enabled := false;
      o := if local.required then Raised(reason) else Fallback(reason);
    }

    /**
      Checks, agreement, then patching. The namespaces end up with every write
      of the install or with none.
     */
    method Prepare(c: Collected) returns (o: Outcome)
      requires enabled == local.enabled && installed == null
      requires c.world > 1 ==> forall row | row in c.first + c.second :: row != []
      modifies this, world
      ensures o == Prepared(local, c)
      ensures world.attrs == AttributesAfter(local, c, old(world.attrs))
      ensures o.Committed? <==> installed != null
      ensures o.Committed? ==>
        && enabled && fresh(installed) && installed.world == world && !installed.rolledBack
        && RolledBack(world.attrs, installed.changes) == old(world.attrs)
    {
      if !Agrees(c, c.first) {
        o := FallbackTo(RankMismatch);
        return;
      }
      if !enabled {
        return if local.required then Raised(Disabled) else Fallback(Disabled);
      }
      if local.concurrency != 1 {
        o := FallbackTo(DecodeConcurrency);
        return;
      }
      if local.pipelineParallel {
        o := FallbackTo(Topology);
        return;
      }
      if !local.runtimeSupported {
        o := FallbackTo(Runtime);
        return;
      }
      if !Agrees(c, c.second) {
        o := FallbackTo(RankMismatch);
        return;
      }
      var transaction := new PatchTransaction(world);
      for i := 0 to |local.writes|
        invariant fresh(transaction) && transaction.world == world && enabled && installed == null
        invariant transaction.Valid() && !transaction.closed && transaction.before == old(world.attrs)
        invariant world.attrs == Written(old(world.attrs), local.writes[..i])
      {
        assert local.writes[..i + 1][..i] == local.writes[..i];
        var ok := transaction.Set(local.writes[i].0, local.writes[i].1);
      }
      assert local.writes[..|local.writes|] == local.writes;
      if local.installFails || (c.world > 1 && c.successes != c.world) {
        transaction.Rollback();
        return Raised(InstallFailed);
      }
      var patch := transaction.Commit();
      installed := patch.value;
      return Committed;
    }
  }

  // ----- all ranks together

  function Digests(ranks: seq<Local>): (d: seq<Digest>)
    ensures |d| == |ranks|
  {
    seq(|ranks|, i requires 0 <= i < |ranks| => ranks[i].digest)
  }

  /** The digests of the second collective, each a hash of the first one. */
  function FinalDigests(ranks: seq<Local>, hash: Digest -> Digest): (d: seq<Digest>)
    ensures |d| == |ranks|
  {
    seq(|ranks|, i requires 0 <= i < |ranks| => hash(ranks[i].digest))
  }

  function Successes(ranks: seq<Local>): (n: nat)
    ensures n <= |ranks|
  {
    if ranks == [] then 0 else (if ranks[0].installFails then 0 else 1) + Successes(ranks[1..])
  }

  lemma {:induction false} AllSucceeded(ranks: seq<Local>)
    ensures Successes(ranks) == |ranks| <==> forall l | l in ranks :: !l.installFails
  {
    if ranks != [] {
      AllSucceeded(ranks[1..]);
      assert ranks == [ranks[0]] + ranks[1..];
    }
  }

  /** Digests of one length, and a digest that fixes whether its rank is enabled. */
  ghost predicate Hashed(ranks: seq<Local>, hash: Digest -> Digest, length: nat) {
    && ranks != []
    && (forall l | l in ranks :: |l.digest| == length && |hash(l.digest)| == length)
    && (forall a, b | a in ranks && b in ranks && a.digest == b.digest :: a.enabled == b.enabled)
  }

  ghost function Collectives(ranks: seq<Local>, hash: Digest -> Digest, length: nat): Collected
    requires Hashed(ranks, hash, length)
  {
    Collected(|ranks|, SummedTable(Digests(ranks), length), SummedTable(FinalDigests(ranks, hash), length),
              Successes(ranks))
  }

  lemma WorldAgrees(ranks: seq<Local>, digests: seq<Digest>, c: Collected, length: nat)
    requires c.world == |ranks| == |digests| && ranks != [] && forall d | d in digests :: |d| == length
    ensures Agrees(c, SummedTable(digests, length)) <==> AllEqual(digests)
  {
    MatchIffAllEqual(digests, length);
  }

  /** Ranks that agree in the first collective agree in the second: it tells nothing new. */
  lemma SecondCollectiveNeverRefuses(ranks: seq<Local>, hash: Digest -> Digest, length: nat)
    requires Hashed(ranks, hash, length)
    ensures var c := Collectives(ranks, hash, length);
      && (Agrees(c, c.first) <==> AllEqual(Digests(ranks)))
      && (Agrees(c, c.first) ==> Agrees(c, c.second))
  {
    var c := Collectives(ranks, hash, length);
    WorldAgrees(ranks, Digests(ranks), c, length);
    WorldAgrees(ranks, FinalDigests(ranks, hash), c, length);
    if AllEqual(Digests(ranks)) {
      forall i, j | 0 <= i < |ranks| && 0 <= j < |ranks|
        ensures FinalDigests(ranks, hash)[i] == FinalDigests(ranks, hash)[j]
      {
        assert Digests(ranks)[i] == Digests(ranks)[j];
      }
    }
  }

  ghost predicate AgreeOnLocalChecks(ranks: seq<Local>) {
    forall a, b | a in ranks && b in ranks :: PassesLocalChecks(a) == PassesLocalChecks(b)
  }

  /**
    The ranks take part in the same collectives exactly when the fingerprints
    already settle the matter or the ranks agree on their local checks: a rank
    that fails those alone returns early and leaves the others waiting.
   */
  lemma CollectivesLineUp(ranks: seq<Local>, hash: Digest -> Digest, length: nat)
    requires Hashed(ranks, hash, length)
    ensures var c := Collectives(ranks, hash, length);
      (forall a, b | a in ranks && b in ranks :: Rounds(a, c) == Rounds(b, c))
      <==> (!AllEqual(Digests(ranks)) || !ranks[0].enabled || AgreeOnLocalChecks(ranks))
  {
    var c := Collectives(ranks, hash, length);
    SecondCollectiveNeverRefuses(ranks, hash, length);
    if AllEqual(Digests(ranks)) {
      EnabledTogether(ranks, hash, length);
      if ranks[0].enabled && !AgreeOnLocalChecks(ranks) {
        var a, b :| a in ranks && b in ranks && PassesLocalChecks(a) != PassesLocalChecks(b);
        assert Rounds(a, c) != Rounds(b, c);
      }
    }
  }

  /** A rank that wants to activate and, but for `concurrency`, can. */
  function Willing(concurrency: int): Local {
    Local([], true, false, concurrency, false, true, [], false)
  }

  /** It happens: with equal fingerprints one rank decodes several requests at once, returns early, and the other waits. */
  lemma OneRankLeavesEarly()
    ensures var ranks, hash := [Willing(1), Willing(2)], (d: Digest) => d;
      && Hashed(ranks, hash, 0) && AllEqual(Digests(ranks)) && !AgreeOnLocalChecks(ranks)
      && var c := Collectives(ranks, hash, 0);
      Rounds(ranks[0], c) == 3 && Rounds(ranks[1], c) == 1
  {
    var ranks, hash := [Willing(1), Willing(2)], (d: Digest) => d;
    assert Digests(ranks) == [[], []];
    SecondCollectiveNeverRefuses(ranks, hash, 0);
    assert ranks[0] in ranks && ranks[1] in ranks;
  }

  lemma EnabledTogether(ranks: seq<Local>, hash: Digest -> Digest, length: nat)
    requires Hashed(ranks, hash, length) && AllEqual(Digests(ranks))
    ensures forall l | l in ranks :: l.enabled == ranks[0].enabled
  {
    forall l | l in ranks
      ensures l.enabled == ranks[0].enabled
    {
      var i :| 0 <= i < |ranks| && ranks[i] == l;
      assert Digests(ranks)[i] == Digests(ranks)[0];
    }
  }

  /** When all fingerprints are equal, the mode is on, the checks pass and no install fails. */
  ghost predicate Activates(ranks: seq<Local>) {
    && ranks != []
    && AllEqual(Digests(ranks)) && ranks[0].enabled && PassesLocalChecks(ranks[0])
    && forall l | l in ranks :: !l.installFails
  }

  /** Given agreement on the local checks, every rank commits or none does, and exactly when `Activates` says so. */
  lemma AllOrNone(ranks: seq<Local>, hash: Digest -> Digest, length: nat)
    requires Hashed(ranks, hash, length) && AgreeOnLocalChecks(ranks)
    ensures var c := Collectives(ranks, hash, length);
      forall l | l in ranks :: Prepared(l, c).Committed? <==> Activates(ranks)
  {
    var c := Collectives(ranks, hash, length);
    SecondCollectiveNeverRefuses(ranks, hash, length);
    AllSucceeded(ranks);
    if AllEqual(Digests(ranks)) {
      EnabledTogether(ranks, hash, length);
    }
    forall l | l in ranks
      ensures Prepared(l, c).Committed? <==> Activates(ranks)
    {
      assert ranks[0] in ranks;
      if |ranks| == 1 {
        assert forall other | other in ranks :: other == ranks[0];
      }
    }
  }

  /**
    So on every rank the attributes are those the install wrote, whatever the others
    held, or on every rank they are what they were before.
   */
  lemma AttributesAllOrNone(ranks: seq<Local>, namespaces: seq<Attributes>, hash: Digest -> Digest, length: nat)
    requires Hashed(ranks, hash, length) && AgreeOnLocalChecks(ranks) && |namespaces| == |ranks|
    ensures var c := Collectives(ranks, hash, length);
      if Activates(ranks)
      then forall i | 0 <= i < |ranks| :: AttributesAfter(ranks[i], c, namespaces[i]) == Written(namespaces[i], ranks[i].writes)
      else forall i | 0 <= i < |ranks| :: AttributesAfter(ranks[i], c, namespaces[i]) == namespaces[i]
  {
    hide Prepared, Written, Activates;
    AllOrNone(ranks, hash, length);
    assert forall i | 0 <= i < |ranks| :: ranks[i] in ranks;
  }
}
