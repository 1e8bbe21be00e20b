/**
  Choosing a ready instance of a model (instances.py): an exact id wins, otherwise
  the least loaded instances take turns.
 */
module InstanceRouting {
  import opened Instances
  import opened Names
  import opened Options

  /** What the registry lists of an instance. */
  datatype Listed = Listed(id: string, modelId: string, revision: Option<string>, state: Lifecycle,
                           healthReady: Option<bool>, active: nat, queued: nat)

  datatype Query = Query(key: string, revision: Option<string>, excluded: set<string>)

  datatype Resolution = NoName | NoMatch | Found(instance: Listed)

  predicate Routable(i: Listed, q: Query) {
    && i.id !in q.excluded && (i.state == Ready || i.state == Busy) && i.healthReady != Some(false)
    && (q.revision.None? || q.revision.value == if Given(i.revision) then i.revision.value else "unversioned")
  }

  /** A routable instance of the model asked for. */
  predicate Matches(i: Listed, q: Query) {
    Routable(i, q) && i.modelId == q.key
  }

  /** Fewer requests, then fewer queued ones, then fewer active ones. */
  predicate LessLoaded(x: Listed, y: Listed) {
    x.active + x.queued < y.active + y.queued
    || (x.active + x.queued == y.active + y.queued && (x.queued < y.queued || (x.queued == y.queued && x.active < y.active)))
  }

  predicate SameLoad(x: Listed, y: Listed) {
    !LessLoaded(x, y) && !LessLoaded(y, x)
  }

  /** The registry lists every instance once. */
  ghost predicate DistinctIds(listed: seq<Listed>) {
    forall i, j | 0 <= i < j < |listed| :: listed[i].id != listed[j].id
  }

  /** A match that no other match is less loaded than. */
  predicate Preferred(i: Listed, all: seq<Listed>, q: Query) {
    Matches(i, q) && forall other | other in all && Matches(other, q) :: !LessLoaded(other, i)
  }

  /** The first routable instance with exactly this id. */
  function WithId(listed: seq<Listed>, q: Query): (r: Option<Listed>)
    ensures r.Some? ==> r.value in listed && r.value.id == q.key && Routable(r.value, q)
    ensures r.None? ==> forall i | i in listed && i.id == q.key :: !Routable(i, q)
  {
    if listed == [] then None
    else if Routable(listed[0], q) && listed[0].id == q.key then Some(listed[0])
    else WithId(listed[1..], q)
  }

  function AllMatching(listed: seq<Listed>, q: Query): (r: seq<Listed>)
    ensures forall i :: i in r <==> i in listed && Matches(i, q)
  {
    if listed == [] then []
    else (if Matches(listed[0], q) then [listed[0]] else []) + AllMatching(listed[1..], q)
  }

  /** The candidates that none of all is less loaded than, in order. */
  function Lightest(candidates: seq<Listed>, all: seq<Listed>): seq<Listed> {
    if candidates == [] then []
    else (if IsLight(candidates[0], all) then [candidates[0]] else []) + Lightest(candidates[1..], all)
  }

  predicate IsLight(i: Listed, all: seq<Listed>) {
    forall other | other in all :: !LessLoaded(other, i)
  }

  // ----- the rota

  function InsertById(i: Listed, sorted: seq<Listed>): seq<Listed> {
    if sorted == [] || !Less(sorted[0].id, i.id) then [i] + sorted
    else [sorted[0]] + InsertById(i, sorted[1..])
  }

  function SortById(listed: seq<Listed>): seq<Listed> {
    if listed == [] then [] else InsertById(listed[0], SortById(listed[1..]))
  }

  /** The instances that take turns for a query: the least loaded matching ones, sorted by id. */
  function Rota(listed: seq<Listed>, q: Query): seq<Listed> {
    SortById(Lightest(AllMatching(listed, q), AllMatching(listed, q)))
  }

  ghost predicate Ascending(listed: seq<Listed>) {
    forall i, j | 0 <= i < j < |listed| :: Less(listed[i].id, listed[j].id)
  }

  lemma {:induction false} InsertByIdKeeps(i: Listed, sorted: seq<Listed>)
    ensures |InsertById(i, sorted)| == |sorted| + 1
    ensures forall x :: x in InsertById(i, sorted) <==> x == i || x in sorted
  {
    if sorted != [] && Less(sorted[0].id, i.id) {
      InsertByIdKeeps(i, sorted[1..]);
      assert sorted == [sorted[0]] + sorted[1..];
    }
  }

  lemma {:induction false} InsertByIdAscends(i: Listed, sorted: seq<Listed>)
    requires Ascending(sorted) && forall x | x in sorted :: x.id != i.id
    ensures Ascending(InsertById(i, sorted))
  {
    var r := InsertById(i, sorted);
    if sorted != [] {
      var first, rest := sorted[0], sorted[1..];
      assert sorted == [first] + rest;
      LessIsTotal(first.id, i.id);
      if Less(first.id, i.id) {
        InsertByIdAscends(i, rest);
        InsertByIdKeeps(i, rest);
        assert forall x | x in InsertById(i, rest) :: Less(first.id, x.id);
      } else {
        forall j | 1 <= j < |r|
          ensures Less(i.id, r[j].id)
        {
          if j > 1 {
            LessIsTransitive(i.id, first.id, r[j].id);
          }
        }
      }
    }
  }

  lemma {:induction false} SortByIdAscends(listed: seq<Listed>)
    ensures |SortById(listed)| == |listed| && forall x :: x in SortById(listed) <==> x in listed
    ensures DistinctIds(listed) ==> Ascending(SortById(listed))
  {
    if listed != [] {
      var first, rest := listed[0], listed[1..];
      assert listed == [first] + rest;
      SortByIdAscends(rest);
      InsertByIdKeeps(first, SortById(rest));
      if DistinctIds(listed) {
        forall x | x in SortById(rest)
          ensures x.id != first.id
        {
          var j :| 0 <= j < |rest| && rest[j] == x;
          assert listed[j + 1] == x;
        }
        InsertByIdAscends(first, SortById(rest));
      }
    }
  }

  lemma {:induction false} LightestAre(candidates: seq<Listed>, all: seq<Listed>)
    ensures forall i :: i in Lightest(candidates, all) <==> i in candidates && IsLight(i, all)
    ensures DistinctIds(candidates) ==> DistinctIds(Lightest(candidates, all))
  {
    hide IsLight;
    if candidates != [] {
      assert candidates == [candidates[0]] + candidates[1..];
      LightestAre(candidates[1..], all);
      if DistinctIds(candidates) {
        DistinctTail(candidates, Lightest(candidates[1..], all));
      }
    }
  }

  lemma DistinctTail(listed: seq<Listed>, kept: seq<Listed>)
    requires listed != [] && DistinctIds(listed) && DistinctIds(kept) && forall i | i in kept :: i in listed[1..]
    ensures DistinctIds([listed[0]] + kept)
  {
    forall i | i in kept
      ensures i.id != listed[0].id
    {
      var j :| 0 <= j < |listed[1..]| && listed[1..][j] == i;
      assert listed[j + 1] == i;
    }
  }

  lemma {:induction false} MatchingAreDistinct(listed: seq<Listed>, q: Query)
    requires DistinctIds(listed)
    ensures DistinctIds(AllMatching(listed, q))
  {
    hide Matches;
    if listed != [] {
      assert DistinctIds(listed[1..]);
      MatchingAreDistinct(listed[1..], q);
      DistinctTail(listed, AllMatching(listed[1..], q));
    }
  }

  /** If there are candidates, some are lightest. */
  lemma {:induction false} SomeIsLight(candidates: seq<Listed>) returns (i: Listed)
    requires candidates != []
    ensures i in candidates && IsLight(i, candidates)
  {
    var last, rest := candidates[|candidates| - 1], candidates[..|candidates| - 1];
    assert candidates == rest + [last];
    i := last;
    if rest != [] {
      var best := SomeIsLight(rest);
      if !LessLoaded(last, best) {
        i := best;
      }
    }
  }

  /**
    The rota holds exactly the preferred instances, each once, in ascending order of
    their ids; it is empty exactly when no routable instance of the model is listed.
   */
  lemma RotaIs(listed: seq<Listed>, q: Query)
    ensures forall i :: i in Rota(listed, q) <==> i in listed && Preferred(i, listed, q)
    ensures Rota(listed, q) == [] <==> forall i | i in listed :: !Matches(i, q)
    ensures DistinctIds(listed) ==> Ascending(Rota(listed, q))
  {
    hide Matches, LessLoaded, Ascending, DistinctIds, SortById;
    var all := AllMatching(listed, q);
    LightestAre(all, all);
    SortByIdAscends(Lightest(all, all));
    if DistinctIds(listed) {
      MatchingAreDistinct(listed, q);
    }
    if all != [] {
      assert all[0] in all;
      var light := SomeIsLight(all);
      assert light in Rota(listed, q);
    }
    LightMatchesArePreferred(listed, q);
  }

  lemma LightMatchesArePreferred(listed: seq<Listed>, q: Query)
    ensures var all := AllMatching(listed, q);
      forall i :: i in all && IsLight(i, all) <==> i in listed && Preferred(i, listed, q)
  {
    hide Matches, LessLoaded;
    var all := AllMatching(listed, q);
    forall i | i in all && IsLight(i, all)
      ensures Preferred(i, listed, q)
    {
      forall other | other in listed && Matches(other, q)
        ensures !LessLoaded(other, i)
      {
        assert other in all;
      }
    }
  }

  // ----- resolutions on values

  type Cursors = map<(string, Option<string>), nat>

  function CursorOf(cursor: Cursors, q: Query): nat {
    if (q.key, q.revision) in cursor then cursor[(q.key, q.revision)] else 0
  }

  /** One resolution: what is returned, and the cursors afterwards. */
  function Resolved(cursor: Cursors, listed: seq<Listed>, q: Query): (Resolution, Cursors) {
    var exact, rota := WithId(listed, q), Rota(listed, q);
    if q.key == "" then (NoName, cursor)
    else if exact.Some? then (Found(exact.value), cursor)
    else if rota == [] then (NoMatch, cursor)
    else
      var turn := CursorOf(cursor, q) % |rota|;
      (Found(rota[turn]), cursor[(q.key, q.revision) := (turn + 1) % |rota|])
  }

  /** So many resolutions of the same list in a row. */
  function Resolutions(cursor: Cursors, listed: seq<Listed>, q: Query, n: nat): (rs: seq<Resolution>)
    ensures |rs| == n
    decreases n
  {
    if n == 0 then []
    else
      var (r, next) := Resolved(cursor, listed, q);
      [r] + Resolutions(next, listed, q, n - 1)
  }

  /** Whose turn it is after `k` resolutions among `n` instances. */
  function TurnAfter(start: nat, n: nat, k: nat): (t: nat)
    requires n > 0
    ensures t < n
  {
    if k == 0 then start % n else (TurnAfter(start, n, k - 1) + 1) % n
  }

  lemma FirstTurns(start: nat, n: nat)
    requires n > 0
    ensures TurnAfter(start, n, 0) == start % n && TurnAfter(start, n, 1) == (start % n + 1) % n
  {
  }

  lemma NextTurn(t: nat, n: nat)
    requires t < n
    ensures (t + 1) % n == if t + 1 < n then t + 1 else 0
  {
  }

  lemma {:induction false} TurnsGoRound(start: nat, n: nat, k: nat)
    requires 0 < n && k <= n
    ensures var first := TurnAfter(start, n, 0); TurnAfter(start, n, k) == if first + k < n then first + k else first + k - n
  {
    if k > 0 {
      TurnsGoRound(start, n, k - 1);
      NextTurn(TurnAfter(start, n, k - 1), n);
    }
  }

  /** Counting on from the next turn is counting one turn more. */
  lemma {:induction false} NextCallGoesOn(start: nat, n: nat, k: nat)
    requires n > 0
    ensures TurnAfter(TurnAfter(start, n, 1), n, k) == TurnAfter(start, n, k + 1)
  {
    if k == 0 {
      AlreadyReduced(TurnAfter(start, n, 1), n);
    } else {
      NextCallGoesOn(start, n, k - 1);
    }
  }

  lemma AlreadyReduced(t: nat, n: nat)
    requires t < n
    ensures t % n == t
  {
  }

  /** Every turn comes within `n` resolutions. */
  lemma TurnComes(start: nat, n: nat, j: nat) returns (k: nat)
    requires j < n
    ensures k < n && TurnAfter(start, n, k) == j
  {
    var first := TurnAfter(start, n, 0);
    k := if j >= first then j - first else j + n - first;
    TurnsGoRound(start, n, k);
  }

  lemma TurnsDiffer(start: nat, n: nat, j: nat, k: nat)
    requires j < k < n
    ensures TurnAfter(start, n, j) != TurnAfter(start, n, k)
  {
    TurnsGoRound(start, n, j);
    TurnsGoRound(start, n, k);
  }

  /** The `k`th resolution in a row returns the instance `k` turns on. */
  lemma {:induction false} ResolutionsGoRound(cursor: Cursors, listed: seq<Listed>, q: Query, n: nat, k: nat)
    requires q.key != "" && WithId(listed, q).None? && Rota(listed, q) != [] && k < n
    ensures Resolutions(cursor, listed, q, n)[k]
         == Found(Rota(listed, q)[TurnAfter(CursorOf(cursor, q), |Rota(listed, q)|, k)])
    decreases n
  {
    hide WithId, Rota;
    var size, start := |Rota(listed, q)|, CursorOf(cursor, q);
    FirstTurns(start, size);
    if k > 0 {
      var next := Resolved(cursor, listed, q).1;
      ResolutionsGoRound(next, listed, q, n - 1, k - 1);
      assert CursorOf(next, q) == TurnAfter(start, size, 1);
      NextCallGoesOn(start, size, k - 1);
    }
  }

  /**
    Fairness: as many resolutions in a row as there are preferred instances return
    preferred instances only, every one of them, and none twice, wherever the cursor was.
   */
  lemma EveryoneInTurn(cursor: Cursors, listed: seq<Listed>, q: Query)
    requires DistinctIds(listed)
    requires q.key != "" && WithId(listed, q).None? && exists i :: i in listed && Matches(i, q)
    ensures var rs := Resolutions(cursor, listed, q, |Rota(listed, q)|);
      && (forall r | r in rs :: r.Found? && r.instance in listed && Preferred(r.instance, listed, q))
      && (forall i | i in listed && Preferred(i, listed, q) :: Found(i) in rs)
      && (forall j, k | 0 <= j < k < |rs| :: rs[j] != rs[k])
  {
    hide WithId, Rota, Matches, Preferred, TurnAfter, Resolutions;
    RotaIs(listed, q);
    var rota, start := Rota(listed, q), CursorOf(cursor, q);
    var n := |rota|;
    var rs := Resolutions(cursor, listed, q, n);
    forall k | 0 <= k < n
      ensures rs[k] == Found(rota[TurnAfter(start, n, k)])
    {
      ResolutionsGoRound(cursor, listed, q, n, k);
    }
    forall i | i in listed && Preferred(i, listed, q)
      ensures Found(i) in rs
    {
      var j :| 0 <= j < n && rota[j] == i;
      var k := TurnComes(start, n, j);
      assert rs[k] == Found(i);
    }
    forall j, k | 0 <= j < k < n
      ensures rs[j] != rs[k]
    {
      TurnsDiffer(start, n, j, k);
      NoRepeats(rota, TurnAfter(start, n, j), TurnAfter(start, n, k));
    }
  }

  lemma NoRepeats(rota: seq<Listed>, i: nat, j: nat)
    requires Ascending(rota) && i < |rota| && j < |rota| && i != j
    ensures rota[i] != rota[j]
  {
    LessIsTotal(rota[i].id, rota[j].id);
  }

  /** Resolving one name leaves the turns of every other name alone. */
  lemma OtherNamesKeepTheirTurn(cursor: Cursors, listed: seq<Listed>, q: Query, other: Query)
    requires (other.key, other.revision) != (q.key, q.revision)
    ensures CursorOf(Resolved(cursor, listed, q).1, other) == CursorOf(cursor, other)
  {
  }

  // ----- the router

  lemma OneListedMore(listed: seq<Listed>, n: nat, q: Query)
    requires n < |listed|
    ensures WithId(listed[n..], q)
         == if Routable(listed[n], q) && listed[n].id == q.key then Some(listed[n]) else WithId(listed[n + 1..], q)
    ensures AllMatching(listed[n..], q)
         == (if Matches(listed[n], q) then [listed[n]] else []) + AllMatching(listed[n + 1..], q)
  {
    assert listed[n..][1..] == listed[n + 1..];
  }

  /** Go through the list until the exact id is met, collecting the matching instances. */
  method Collect(listed: seq<Listed>, q: Query) returns (exact: Option<Listed>, candidates: seq<Listed>)
    ensures exact == WithId(listed, q)
    ensures exact.None? ==> candidates == AllMatching(listed, q)
  {
    hide Routable, WithId, AllMatching;
    candidates := [];
    assert listed[0..] == listed;
    for n := 0 to |listed|
      invariant WithId(listed, q) == WithId(listed[n..], q)
      invariant AllMatching(listed, q) == candidates + AllMatching(listed[n..], q)
    {
      var i := listed[n];
      OneListedMore(listed, n, q);
      if Routable(i, q) && i.id == q.key {
        return Some(i), candidates;
      }
      var added := if Matches(i, q) then [i] else [];
      assert candidates + (added + AllMatching(listed[n + 1..], q)) == candidates + added + AllMatching(listed[n + 1..], q);
      candidates := candidates + added;
    }
    NothingListed(q);
    assert listed[|listed|..] == [];
    exact := None;
  }

  lemma NothingListed(q: Query)
    ensures WithId([], q) == None && AllMatching([], q) == []
  {
  }

  lemma {:induction false} OneLightMore(candidates: seq<Listed>, i: Listed, all: seq<Listed>)
    ensures Lightest(candidates + [i], all) == Lightest(candidates, all) + if IsLight(i, all) then [i] else []
  {
    hide IsLight;
    if candidates == [] {
      assert [] + [i] == [i] && [i][1..] == [];
    } else {
      OneLightMore(candidates[1..], i, all);
      assert (candidates + [i])[1..] == candidates[1..] + [i];
    }
  }

  /** Of the candidates those that none is less loaded than, in order. */
  method KeepLeastLoaded(candidates: seq<Listed>) returns (least: seq<Listed>)
    requires candidates != []
    ensures least == Lightest(candidates, candidates)
  {
    hide LessLoaded;
    var best := candidates[0];
    LoadsCompare(best, best, candidates);
    for n := 1 to |candidates|
      invariant best in candidates && forall j | 0 <= j < n :: !LessLoaded(candidates[j], best)
    {
      LoadsCompare(candidates[n], best, candidates[..n]);
      if LessLoaded(candidates[n], best) {
        best := candidates[n];
      }
    }
    least := [];
    for n := 0 to |candidates|
      invariant least == Lightest(candidates[..n], candidates)
    {
      assert candidates[..n + 1] == candidates[..n] + [candidates[n]];
      OneLightMore(candidates[..n], candidates[n], candidates);
      LoadsCompare(candidates[n], best, candidates);
      assert SameLoad(best, candidates[n]) <==> IsLight(candidates[n], candidates);
      if SameLoad(best, candidates[n]) {
        least := least + [candidates[n]];
      }
    }
    assert candidates[..|candidates|] == candidates;
  }

  /** Loads are compared like numbers. */
  lemma LoadsCompare(i: Listed, best: Listed, others: seq<Listed>)
    ensures !LessLoaded(i, i) && !(LessLoaded(i, best) && LessLoaded(best, i))
    ensures forall other | other in others && !LessLoaded(other, best) && !LessLoaded(best, i) ::
      LessLoaded(i, best) || !LessLoaded(other, i)
    ensures LessLoaded(i, best) ==> forall other | other in others && !LessLoaded(other, best) :: !LessLoaded(other, i)
  {
  }

  class InstanceRouter {
    var cursor: Cursors

    constructor ()
      ensures cursor == map[]
    {
      cursor := map[];
    }

    /** An exact id wins; otherwise the preferred instances take turns in the order of their ids. */
    method Resolve(listed: seq<Listed>, name: string, revision: Option<string>, excluded: set<string>) returns (r: Resolution)
      modifies this
      ensures (r, cursor) == Resolved(old(cursor), listed, Query(Strip(name), revision, excluded))
    {
      hide Routable, LessLoaded, WithId, AllMatching, Matches, Strip;
      var q := Query(Strip(name), revision, excluded);
      if q.key == "" {
        return NoName;
      }
      var exact, candidates := Collect(listed, q);
      if exact.Some? {
        return Found(exact.value);
      }
      RotaSize(candidates);
      if candidates == [] {
        return NoMatch;
      }
      var least := KeepLeastLoaded(candidates);
      var sorted := SortById(least);
      var index := CursorOf(cursor, q) % |sorted|;
      cursor := cursor[(q.key, q.revision) := (index + 1) % |sorted|];
      r := Found(sorted[index]);
    }
  }

  lemma RotaSize(candidates: seq<Listed>)
    ensures SortById(Lightest(candidates, candidates)) == [] <==> candidates == []
  {
    LightestAre(candidates, candidates);
    SortByIdAscends(Lightest(candidates, candidates));
    if candidates != [] {
      var i := SomeIsLight(candidates);
      assert i in Lightest(candidates, candidates);
    }
  }
}
