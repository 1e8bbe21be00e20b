/**
  One-update undo for the layer caches of a hybrid model.

  A verify pass feeds two tokens, the confirmed one and a draft. Linear layers
  snapshot their two state slots between the two; rotating attention layers keep
  an undo record of the whole update; plain attention layers can always be
  trimmed. Restoring after a rejection must leave each layer as if the confirmed
  token had been fed alone.
 */
module CacheRollback {
  import opened Options

  /** Opaque handles for the arrays a layer holds and for one token's keys and values. */
  type Content = int
  type Entry = int

  /** The foreign cache class of a layer, each operation an arbitrary function. */
  datatype Library = Library(
    update: (Content, seq<Entry>) -> Content,
    trimmable: Content -> bool,
    trim: (Content, nat) -> (Content, nat))

  datatype Kind = Linear | Plain | Rotating

  datatype LayerSpec = LayerSpec(kind: Kind, library: Library)

  /** Fields and update arguments saved before an armed two-token update. */
  datatype Undo = Undo(snapshot: Content, first: Entry, second: Entry)

  datatype LayerState = LayerState(content: Content, rollback: Option<Content>, undo: Option<Undo>)

  function Clean(content: Content): LayerState {
    LayerState(content, None, None)
  }

  // ----- what each operation does to one layer, on values

  /** One forward pass: `confirmed` tokens are final, and `armed` asks for an undo record. */
  function Fed(spec: LayerSpec, l: LayerState, entries: seq<Entry>, confirmed: nat, armed: bool): LayerState {
    if spec.kind.Linear? then
      if 0 < confirmed < |entries| then
        var middle := spec.library.update(l.content, entries[..confirmed]);
        l.(content := spec.library.update(middle, entries[confirmed..]), rollback := Some(middle))
      else
        l.(content := spec.library.update(l.content, entries))
    else
      l.(content := spec.library.update(l.content, entries),
         undo := if spec.kind.Rotating? && |entries| == 2 && armed
                 then Some(Undo(l.content, entries[0], entries[1])) else None)
  }

  predicate Trimmable(spec: LayerSpec, l: LayerState) {
    match spec.kind
    case Linear => false
    case Plain => spec.library.trimmable(l.content)
    case Rotating => spec.library.trimmable(l.content) || l.undo.Some?
  }

  function Trimmed(spec: LayerSpec, l: LayerState, count: nat): (LayerState, nat) {
    if spec.library.trimmable(l.content) || spec.kind.Plain? then
      var (content, n) := spec.library.trim(l.content, count);
      (l.(content := content, undo := if spec.kind.Rotating? then None else l.undo), n)
    else if l.undo.None? || count != 1 then
      (l.(undo := None), 0)
    else
      (l.(content := spec.library.update(l.undo.value.snapshot, [l.undo.value.first]), undo := None), 1)
  }

  predicate Restorable(spec: LayerSpec, l: LayerState) {
    l.rollback.Some? || Trimmable(spec, l)
  }

  /** The layer after its turn in the second pass, and whether that turn succeeded. */
  function Restored(spec: LayerSpec, l: LayerState): (LayerState, bool) {
    if l.rollback.Some? then
      (l.(content := l.rollback.value, rollback := None), true)
    else
      var (restored, n) := Trimmed(spec, l, 1);
      (restored, n == 1)
  }

  // ----- the layer objects

  class LayerCache {
    const spec: LayerSpec
    var content: Content
    var rollback: Option<Content>
    var undo: Option<Undo>

    constructor (spec: LayerSpec, content: Content)
      ensures this.spec == spec && State() == Clean(content)
    {
      this.spec := spec;
      this.content := content;
      rollback, undo := None, None;
    }

    ghost function State(): LayerState
      reads this
    {
      LayerState(content, rollback, undo)
    }

    /** The patched `update_and_fetch` of attention layers and the patched linear-attention call. */
    method Feed(entries: seq<Entry>, confirmed: nat, armed: bool)
      modifies this
      ensures State() == Fed(spec, old(State()), entries, confirmed, armed)
    {
      if spec.kind.Linear? {
        if 0 < confirmed < |entries| {
          content := spec.library.update(content, entries[..confirmed]);
          rollback := Some(content);
          content := spec.library.update(content, entries[confirmed..]);
        } else {
          content := spec.library.update(content, entries);
        }
      } else {
        if spec.kind.Rotating? && |entries| == 2 && armed {
          undo := Some(Undo(content, entries[0], entries[1]));
        } else {
          undo := None;
        }
        content := spec.library.update(content, entries);
      }
    }

    method IsTrimmable() returns (b: bool)
      ensures b == Trimmable(spec, State())
    {
      b := !spec.kind.Linear? && (spec.library.trimmable(content) || (spec.kind.Rotating? && undo.Some?));
    }

    method Trim(count: nat) returns (n: nat)
      modifies this
      ensures (State(), n) == Trimmed(spec, old(State()), count)
    {
      if spec.library.trimmable(content) || spec.kind.Plain? {
        if spec.kind.Rotating? {
          undo := None;
        }
        var trimmed := spec.library.trim(content, count);
        content := trimmed.0;
        return trimmed.1;
      }
      var record := undo;
      undo := None;
      if record.None? || count != 1 {
        return 0;
      }
      content := spec.library.update(record.value.snapshot, [record.value.first]);
      return 1;
    }
  }

  ghost predicate Distinct(caches: seq<LayerCache>) {
    forall i, j | 0 <= i < j < |caches| :: caches[i] != caches[j]
  }

  ghost function States(caches: seq<LayerCache>): (s: seq<LayerState>)
    reads caches
    ensures |s| == |caches|
  {
    seq(|caches|, i requires 0 <= i < |caches| reads caches => caches[i].State())
  }

  function Specs(caches: seq<LayerCache>): (s: seq<LayerSpec>)
    ensures |s| == |caches|
  {
    seq(|caches|, i requires 0 <= i < |caches| => caches[i].spec)
  }

  ghost predicate AllRestorable(specs: seq<LayerSpec>, ls: seq<LayerState>)
    requires |specs| == |ls|
  {
    forall i | 0 <= i < |ls| :: Restorable(specs[i], ls[i])
  }

  /** How many layers, from the front, complete their second-pass turn. */
  ghost function Completed(specs: seq<LayerSpec>, ls: seq<LayerState>): (n: nat)
    requires |specs| == |ls|
    ensures n <= |ls|
    ensures forall i | 0 <= i < n :: Restored(specs[i], ls[i]).1
    ensures n < |ls| ==> !Restored(specs[n], ls[n]).1
  {
    if ls == [] || !Restored(specs[0], ls[0]).1 then 0
    else 1 + Completed(specs[1..], ls[1..])
  }

  lemma CompletedAt(specs: seq<LayerSpec>, ls: seq<LayerState>, n: nat)
    requires |specs| == |ls| && n <= |ls|
    requires forall i | 0 <= i < n :: Restored(specs[i], ls[i]).1
    requires n < |ls| ==> !Restored(specs[n], ls[n]).1
    ensures Completed(specs, ls) == n
  {
  }

  /**
    Check every layer first, then restore each. A layer that cannot be restored
    stops the call before anything changed. A trim that does not remove its one
    token stops it in the middle: the earlier layers are restored, the later ones
    untouched.
   */
  method RestoreAfterRejection(caches: seq<LayerCache>) returns (ok: bool)
    requires Distinct(caches)
    modifies caches
    ensures !AllRestorable(Specs(caches), old(States(caches))) ==> !ok && States(caches) == old(States(caches))
    ensures AllRestorable(Specs(caches), old(States(caches))) ==>
      && var n := Completed(Specs(caches), old(States(caches)));
      && (ok <==> n == |caches|)
      && (forall i | 0 <= i <= n && i < |caches| ::
            caches[i].State() == Restored(caches[i].spec, old(caches[i].State())).0)
      && (forall i | n < i < |caches| :: caches[i].State() == old(caches[i].State()))
  {
    var checked := CheckEveryLayer(caches);
    if !checked {
      return false;
    }
    ghost var was := States(caches);
    for i := 0 to |caches|
      invariant forall j | 0 <= j < i ::
        caches[j].State() == Restored(caches[j].spec, was[j]).0 && Restored(caches[j].spec, was[j]).1
      invariant forall j | i <= j < |caches| :: caches[j].State() == was[j]
    {
      if caches[i].rollback.Some? {
        caches[i].content := caches[i].rollback.value;
        caches[i].rollback := None;
      } else {
        var n := caches[i].Trim(1);
        if n != 1 {
          CompletedAt(Specs(caches), was, i);
          return false;
        }
      }
    }
    CompletedAt(Specs(caches), was, |caches|);
    return true;
  }

  /** The first pass. */
  method CheckEveryLayer(caches: seq<LayerCache>) returns (ok: bool)
    ensures ok <==> AllRestorable(Specs(caches), States(caches))
  {
    for i := 0 to |caches|
      invariant forall j | 0 <= j < i :: Restorable(Specs(caches)[j], States(caches)[j])
    {
      if caches[i].rollback.None? {
        var trimmable := caches[i].IsTrimmable();
        if !trimmable {
          assert !Restorable(Specs(caches)[i], States(caches)[i]);
          return false;
        }
      }
    }
    return true;
  }

  /** The layers inside layers that are lists of caches themselves. */
  ghost function Nested(children: seq<seq<LayerCache>>): set<LayerCache> {
    set i, j | 0 <= i < |children| && 0 <= j < |children[i]| :: children[i][j]
  }

  /** Nothing but ways back is lost on the way. */
  twostate predicate OnlyCleared(c: LayerCache)
    reads c
  {
    c.content == old(c.content) && (c.undo == old(c.undo) || c.undo.None?)
  }

  /** No layer keeps a way back, and no child of a nested layer its undo record. */
  method ClearRollback(caches: seq<LayerCache>, children: seq<seq<LayerCache>>)
    requires |children| == |caches|
    modifies caches, Nested(children)
    ensures forall c | c in caches :: c.State() == Clean(old(c.content))
    ensures forall c | c in Nested(children) && c !in caches :: c.State() == old(c.State()).(undo := None)
  {
    for i := 0 to |caches|
      invariant forall c | c in caches || c in Nested(children) :: OnlyCleared(c)
      invariant forall c | c in Nested(children) && c !in caches :: c.rollback == old(c.rollback)
      invariant forall k | 0 <= k < i :: caches[k].rollback.None? && caches[k].undo.None?
      invariant forall k, j | 0 <= k < i && 0 <= j < |children[k]| :: children[k][j].undo.None?
    {
      caches[i].rollback := None;
      caches[i].undo := None;
      for m := 0 to |children[i]|
        invariant forall c | c in caches || c in Nested(children) :: OnlyCleared(c)
        invariant forall c | c in Nested(children) && c !in caches :: c.rollback == old(c.rollback)
        invariant forall k | 0 <= k <= i :: caches[k].rollback.None? && caches[k].undo.None?
        invariant forall k, j | 0 <= k < i && 0 <= j < |children[k]| :: children[k][j].undo.None?
        invariant forall j | 0 <= j < m :: children[i][j].undo.None?
      {
        children[i][m].undo := None;
      }
    }
  }

  // ----- exactness

  /** What the rollback needs of the foreign classes: a trim of one undoes the second token. */
  ghost predicate TrimLaw(spec: LayerSpec) {
    && (spec.kind.Plain? ==> forall c :: spec.library.trimmable(c))
    && (!spec.kind.Linear? ==>
          forall c, a, b | spec.library.trimmable(spec.library.update(c, [a, b])) ::
            spec.library.trim(spec.library.update(c, [a, b]), 1) == (spec.library.update(c, [a]), 1))
  }

  /**
    After an armed two-token pass, every layer is restorable, and restoring it
    succeeds and gives exactly the layer that feeding the confirmed token alone
    would have given.
   */
  lemma RollbackIsExact(spec: LayerSpec, content: Content, confirmed: Entry, draft: Entry)
    requires TrimLaw(spec)
    ensures var verified := Fed(spec, Clean(content), [confirmed, draft], 1, true);
      && Restorable(spec, verified)
      && Restored(spec, verified) == (Fed(spec, Clean(content), [confirmed], 0, false), true)
      && Restored(spec, verified).0 == Clean(spec.library.update(content, [confirmed]))
  {
    assert [confirmed, draft][..1] == [confirmed];
    assert [confirmed, draft][1..] == [draft];
  }
}
