/**
  Cutting the list of model parameters into chunks that are materialized one after
  another (distributed_openai.py): first come, first packed, and yet no cut of the
  list that keeps to the limits has fewer chunks.
 */
module LoadChunks {
  import opened Options

  datatype Parameter = Parameter(name: string, nbytes: Option<nat>)

  datatype Policy = Policy(maxLeaves: nat, targetBytes: Option<nat>)

  function BytesOf(p: Parameter): nat {
    if p.nbytes.Some? then p.nbytes.value else 0
  }

  function Bytes(chunk: seq<Parameter>): nat {
    if chunk == [] then 0 else BytesOf(chunk[0]) + Bytes(chunk[1..])
  }

  function Flatten(chunks: seq<seq<Parameter>>): seq<Parameter> {
    if chunks == [] then [] else chunks[0] + Flatten(chunks[1..])
  }

  /** Not empty, not too many leaves, and not too many bytes unless it is a single leaf. */
  predicate Fits(policy: Policy, chunk: seq<Parameter>) {
    && chunk != [] && |chunk| <= policy.maxLeaves
    && (policy.targetBytes.None? || |chunk| == 1 || Bytes(chunk) <= policy.targetBytes.value)
  }

  ghost predicate AllFit(policy: Policy, chunks: seq<seq<Parameter>>) {
    forall i | 0 <= i < |chunks| :: Fits(policy, chunks[i])
  }

  /** The chunk could not have taken the first leaf of the next one as well. */
  ghost predicate Full(policy: Policy, chunk: seq<Parameter>, next: seq<Parameter>) {
    next != [] && !Fits(policy, chunk + [next[0]])
  }

  ghost predicate Packed(policy: Policy, chunks: seq<seq<Parameter>>) {
    forall i | 0 < i < |chunks| :: Full(policy, chunks[i - 1], chunks[i])
  }

  lemma {:induction false} BytesConcat(x: seq<Parameter>, y: seq<Parameter>)
    ensures Bytes(x + y) == Bytes(x) + Bytes(y)
  {
    if x == [] {
      assert x + y == y;
    } else {
      assert (x + y)[1..] == x[1..] + y;
      BytesConcat(x[1..], y);
    }
  }

  lemma {:induction false} FlattenConcat(x: seq<seq<Parameter>>, y: seq<seq<Parameter>>)
    ensures Flatten(x + y) == Flatten(x) + Flatten(y)
  {
    if x == [] {
      assert x + y == y;
    } else {
      assert (x + y)[1..] == x[1..] + y;
      FlattenConcat(x[1..], y);
    }
  }

  /** A part of a chunk that fits, fits. */
  lemma PartFits(policy: Policy, chunk: seq<Parameter>, from: nat, to: nat)
    requires Fits(policy, chunk) && from < to <= |chunk|
    ensures Fits(policy, chunk[from..to])
  {
    assert chunk == chunk[..from] + chunk[from..to] + chunk[to..];
    BytesConcat(chunk[..from] + chunk[from..to], chunk[to..]);
    BytesConcat(chunk[..from], chunk[from..to]);
  }

  lemma PartOfPart(s: seq<Parameter>, b: nat, n: nat, from: nat, to: nat)
    requires from <= to <= n && b + n <= |s|
    ensures s[b..b + n][from..to] == s[b + from..b + to]
  {
    var part, whole := s[b..b + n][from..to], s[b + from..b + to];
    assert forall i | 0 <= i < to - from :: part[i] == s[b + from + i] == whole[i];
  }

  /** A packed chunk that starts no earlier than another one that fits ends no earlier either. */
  lemma FirstStaysAhead(policy: Policy, s: seq<Parameter>, a: nat, b: nat,
                        packed: seq<seq<Parameter>>, other: seq<seq<Parameter>>)
    requires b <= a <= |s| && packed != [] && other != []
    requires Flatten(packed) == s[a..] && Flatten(other) == s[b..]
    requires AllFit(policy, packed) && AllFit(policy, other) && Packed(policy, packed)
    ensures b + |other[0]| <= a + |packed[0]| <= |s|
  {
    assert s[a..][..|packed[0]|] == packed[0] && s[b..][..|other[0]|] == other[0];
    var end := a + |packed[0]|;
    if end < b + |other[0]| {
      assert |packed| > 1;
      assert Full(policy, packed[0], packed[1]);
      assert s[a..][|packed[0]|] == packed[1][0];
      assert s[a..end + 1] == packed[0] + [packed[1][0]];
      assert other[0] == s[b..b + |other[0]|];
      PartOfPart(s, b, |other[0]|, a - b, end + 1 - b);
      PartFits(policy, other[0], a - b, end + 1 - b);
      assert false;
    }
  }

  /** Packed chunks stay ahead of any others that fit, hence there are no more of them. */
  lemma {:induction false} PackedIsFewest(policy: Policy, s: seq<Parameter>, a: nat, b: nat,
                                          packed: seq<seq<Parameter>>, other: seq<seq<Parameter>>)
    requires b <= a <= |s|
    requires Flatten(packed) == s[a..] && Flatten(other) == s[b..]
    requires AllFit(policy, packed) && AllFit(policy, other) && Packed(policy, packed)
    ensures |packed| <= |other|
    decreases |packed|
  {
    if packed != [] {
      assert packed[0] != [] && other != [];
      FirstStaysAhead(policy, s, a, b, packed, other);
      var a', b' := a + |packed[0]|, b + |other[0]|;
      assert Flatten(packed[1..]) == s[a..][|packed[0]|..] == s[a'..];
      assert Flatten(other[1..]) == s[b..][|other[0]|..] == s[b'..];
      PackedIsFewest(policy, s, a', b', packed[1..], other[1..]);
    }
  }

  /** The chunks closed so far and the one being filled. */
  ghost function Together(chunks: seq<seq<Parameter>>, chunk: seq<Parameter>): seq<seq<Parameter>> {
    chunks + if chunk == [] then [] else [chunk]
  }

  lemma FlattenLast(chunks: seq<seq<Parameter>>, chunk: seq<Parameter>)
    ensures Flatten(Together(chunks, chunk)) == Flatten(chunks) + chunk
  {
    if chunk == [] {
      assert chunks + [] == chunks;
    } else {
      FlattenConcat(chunks, [chunk]);
      assert Flatten([chunk]) == chunk + [] == chunk;
    }
  }

  lemma Extended(policy: Policy, chunks: seq<seq<Parameter>>, chunk: seq<Parameter>, p: Parameter)
    requires AllFit(policy, Together(chunks, chunk)) && Packed(policy, Together(chunks, chunk))
    requires Fits(policy, chunk + [p]) && (chunk == [] ==> chunks == [])
    ensures var next := Together(chunks, chunk + [p]);
      AllFit(policy, next) && Packed(policy, next) && Flatten(next) == Flatten(Together(chunks, chunk)) + [p]
  {
    hide Flatten, Fits;
    var was, next := Together(chunks, chunk), Together(chunks, chunk + [p]);
    FlattenLast(chunks, chunk + [p]);
    FlattenLast(chunks, chunk);
    assert Flatten(chunks) + chunk + [p] == Flatten(chunks) + (chunk + [p]);
    forall i | 0 <= i < |next|
      ensures Fits(policy, next[i]) && (i > 0 ==> Full(policy, next[i - 1], next[i]))
    {
      if chunk != [] {
        assert i < |was| && Fits(policy, was[i]) && (i > 0 ==> Full(policy, was[i - 1], was[i]));
        assert i < |chunks| ==> next[i] == was[i];
      }
    }
  }

  lemma Closed(policy: Policy, chunks: seq<seq<Parameter>>, chunk: seq<Parameter>, p: Parameter)
    requires AllFit(policy, Together(chunks, chunk)) && Packed(policy, Together(chunks, chunk))
    requires chunk != [] && Fits(policy, [p]) && !Fits(policy, chunk + [p])
    ensures var next := Together(chunks + [chunk], [p]);
      AllFit(policy, next) && Packed(policy, next) && Flatten(next) == Flatten(Together(chunks, chunk)) + [p]
  {
    hide Flatten, Fits;
    var was, next := Together(chunks, chunk), Together(chunks + [chunk], [p]);
    FlattenLast(was, [p]);
    forall i | 0 < i < |next|
      ensures Full(policy, next[i - 1], next[i])
    {
      if i < |was| {
        assert Full(policy, was[i - 1], was[i]);
      }
    }
  }

  /**
    The chunks concatenate to the list in order, every one fits, and no cut of the
    list into chunks that fit has fewer.
   */
  method ParameterEvalChunks(parameters: seq<Parameter>, policy: Policy) returns (chunks: seq<seq<Parameter>>)
    requires policy.maxLeaves >= 1
    ensures Flatten(chunks) == parameters && AllFit(policy, chunks)
    ensures forall other | Flatten(other) == parameters && AllFit(policy, other) :: |chunks| <= |other|
  {
    chunks := [];
    var chunk: seq<Parameter> := [];
    assert Together(chunks, chunk) == [];
    var chunkBytes: nat := 0;
    for i := 0 to |parameters|
      invariant chunkBytes == Bytes(chunk)
      invariant chunk == [] <==> i == 0
      invariant chunk == [] ==> chunks == []
      invariant Flatten(Together(chunks, chunk)) == parameters[..i]
      invariant AllFit(policy, Together(chunks, chunk)) && Packed(policy, Together(chunks, chunk))
    {
      hide Packed, AllFit, Flatten, Together;
      var p := parameters[i];
      var parameterBytes := BytesOf(p);
      assert parameters[..i + 1] == parameters[..i] + [p];
      assert Bytes([p]) == parameterBytes;
      BytesConcat(chunk, [p]);
      var exceedsLeafLimit := |chunk| >= policy.maxLeaves;
      var exceedsByteLimit := policy.targetBytes.Some? && chunk != [] && chunkBytes + parameterBytes > policy.targetBytes.value;
      if exceedsLeafLimit || exceedsByteLimit {
        Closed(policy, chunks, chunk, p);
        chunks := chunks + [chunk];
        chunk := [];
        chunkBytes := 0;
      } else {
        Extended(policy, chunks, chunk, p);
      }
      assert chunk == [] ==> chunk + [p] == [p];
      chunk := chunk + [p];
      chunkBytes := chunkBytes + parameterBytes;
    }
    assert parameters[..|parameters|] == parameters;
    if chunk != [] {
      chunks := chunks + [chunk];
    }
    forall other | Flatten(other) == parameters && AllFit(policy, other)
      ensures |chunks| <= |other|
    {
      assert parameters[0..] == parameters;
      PackedIsFewest(policy, parameters, 0, 0, chunks, other);
    }
  }
}
