/**
  What a whole sampled request emits, in probability: the tokens of plain decoding, the
  two tokens known when drafting begins, and the verify cycles after them.
 */
module RequestDistribution {
  import opened Options
  import opened SpeculativeSampling
  import opened MtpGeneration
  import opened CycleDistribution

  /** Draws from the target, and then the cycles of a session. */
  datatype Request =
    | Plain(scores: Scores, branches: seq<Request>)
    | Drafting(session: Session, cycles: Tree)

  /** The text of one outcome, with the draws of the stream from the `n`th on. */
  function TextPlayed(net: Net, t: Request, n: nat): seq<Token> {
    match t
    case Plain(scores, branches) =>
      var i := net.sample(scores, n);
      if i < |branches| then TextPlayed(net, branches[i], n + 1) else []
    case Drafting(session, cycles) => Text(session, Play(net, cycles, n).0)
  }

  /** How likely the text begins with the goal, when every draw follows its weights. */
  function TextChance(net: Net, t: Request, goal: seq<Token>): real {
    match t
    case Plain(scores, branches) =>
      Dot(net.filtered(scores), seq(|branches|, i requires 0 <= i < |branches| => TextChance(net, branches[i], goal)))
    case Drafting(session, cycles) => Chance(net, cycles, StartsWith(session, goal))
  }

  /** The session that begins after `text`: the head has seen the last token and the row of the one before it. */
  function SessionAfter(net: Net, text: seq<Token>): Session {
    var n := |text|;
    Session(net, text, if n < 2 then [] else [HeadCall(RowOf(net, text[..n - 2], [text[n - 2]], 0), text[n - 1])])
  }

  /** The random draws after `text`: `m` tokens from the target, then `k` cycles. */
  ghost function RequestTree(net: Net, text: seq<Token>, m: nat, k: nat): Request
    requires Lawful(net) && (m > 0 || text != [])
    decreases m
  {
    if m == 0 then Drafting(SessionAfter(net, text), Cycles(SessionAfter(net, text), Start, k))
    else
      Plain(TargetScores(net, text),
            seq(net.vocabulary, y requires 0 <= y < net.vocabulary => RequestTree(net, text + [y], m - 1, k)))
  }

  /** How likely plain decoding goes on after `text` with `ys`, one token at a time. */
  function PlainChance(net: Net, text: seq<Token>, ys: seq<Token>): real
    decreases |ys|
  {
    if ys == [] then 1.0
    else
      var w := net.filtered(TargetScores(net, text));
      (if ys[0] < |w| then w[ys[0]] else 0.0) * PlainChance(net, text + [ys[0]], ys[1..])
  }

  lemma {:induction false} PlainChanceOfRounds(s: Session, text: seq<Token>, ys: seq<Token>)
    requires s.Valid()
    ensures PlainChance(s.net, text, ys) == PlainProbability(RoundOf(s), text, ys)
    decreases |ys|
  {
    hide Lawful, Distribution, RoundOf, TargetScores;
    if ys != [] {
      PlainChanceOfRounds(s, text + [ys[0]], ys[1..]);
      RoundParts(s, Start, text, 0, ys[0]);
      FilteredFits(s.net, TargetScores(s.net, text));
      var w := s.net.filtered(TargetScores(s.net, text));
      assert RoundOf(s).target(text, ys[0]) == if ys[0] < |w| then w[ys[0]] else 0.0;
    }
  }

  // ----- the distribution

  lemma PlainDraw(net: Net, t: Request, x: seq<real>, goal: seq<Token>)
    requires t.Plain? && |x| == |t.branches| && forall i | 0 <= i < |x| :: x[i] == TextChance(net, t.branches[i], goal)
    ensures TextChance(net, t, goal) == Dot(net.filtered(t.scores), x)
  {
    hide Dot;
    assert seq(|t.branches|, i requires 0 <= i < |t.branches| => TextChance(net, t.branches[i], goal)) == x;
  }

  /** The chances of the goal for each first token. */
  ghost function FirstChances(net: Net, text: seq<Token>, m: nat, k: nat, goal: seq<Token>): (x: seq<real>)
    requires Lawful(net) && m > 0
    ensures |x| == net.vocabulary
  {
    seq(net.vocabulary, y requires 0 <= y < net.vocabulary => TextChance(net, RequestTree(net, text + [y], m - 1, k), goal))
  }

  lemma RequestSplits(net: Net, text: seq<Token>, m: nat, k: nat, goal: seq<Token>)
    requires Lawful(net) && m > 0
    ensures TextChance(net, RequestTree(net, text, m, k), goal)
         == Dot(net.filtered(TargetScores(net, text)), FirstChances(net, text, m, k, goal))
  {
    hide Lawful, Distribution, Dot, TextChance;
    PlainDraw(net, RequestTree(net, text, m, k), FirstChances(net, text, m, k, goal), goal);
  }

  lemma LeafOfRequest(net: Net, text: seq<Token>, k: nat, goal: seq<Token>)
    requires Lawful(net) && text != []
    ensures var s := SessionAfter(net, text);
      && s.Valid() && Text(s, Start) == text
      && TextChance(net, RequestTree(net, text, 0, k), goal) == Chance(net, Cycles(s, Start, k), StartsWith(s, goal))
  {
    hide Lawful, Distribution, Chance, Cycles;
  }

  lemma {:induction false} RequestSettled(net: Net, text: seq<Token>, m: nat, k: nat, goal: seq<Token>)
    requires Lawful(net) && (m > 0 || text != []) && (goal <= text || !(text <= goal))
    ensures TextChance(net, RequestTree(net, text, m, k), goal) == if goal <= text then 1.0 else 0.0
    decreases m
  {
    hide Lawful, Distribution, Dot, Chance, Cycles, TextChance, RequestTree, SessionAfter, TargetScores;
    if m == 0 {
      LeafOfRequest(net, text, k, goal);
      SessionKeepsNet(net, text);
      Settled(SessionAfter(net, text), Start, k, goal);
    } else {
      var x, v := FirstChances(net, text, m, k, goal), if goal <= text then 1.0 else 0.0;
      forall y | 0 <= y < net.vocabulary
        ensures x[y] == v
      {
        RequestSettled(net, text + [y], m - 1, k, goal);
      }
      RequestSplits(net, text, m, k, goal);
      FilteredFits(net, TargetScores(net, text));
      EvenDraw(net.filtered(TargetScores(net, text)), x, v);
    }
  }

  /**
    A whole request gives every text the probability plain decoding gives it, however many
    tokens it emits before it drafts and however many cycles it goes through.
   */
  lemma {:induction false} RequestIsPlain(net: Net, text: seq<Token>, m: nat, k: nat, ys: seq<Token>)
    requires Lawful(net) && (m > 0 || text != []) && |ys| <= m + k
    ensures TextChance(net, RequestTree(net, text, m, k), text + ys) == PlainChance(net, text, ys)
    decreases m
  {
    hide Lawful, Distribution, Dot, Chance, Cycles, TextChance, RequestTree, SessionAfter, TargetScores;
    if m == 0 {
      var s := SessionAfter(net, text);
      LeafOfRequest(net, text, k, text + ys);
      SampledTextIsPlainText(s, Start, k, ys);
      SessionKeepsNet(net, text);
      PlainChanceOfRounds(s, text, ys);
    } else if ys == [] {
      assert text + ys == text;
      RequestSettled(net, text, m, k, text);
    } else {
      var x, rest := FirstChances(net, text, m, k, text + ys), PlainChance(net, text + [ys[0]], ys[1..]);
      forall y | 0 <= y < net.vocabulary
        ensures x[y] == if y == ys[0] then rest else 0.0
      {
        Extended(text, ys, y, []);
        if y == ys[0] {
          RequestIsPlain(net, text + [y], m - 1, k, ys[1..]);
        } else {
          assert text + [y] + [] == text + [y];
          RequestSettled(net, text + [y], m - 1, k, text + ys);
        }
      }
      RequestSplits(net, text, m, k, text + ys);
      FilteredFits(net, TargetScores(net, text));
      PointDraw(net.filtered(TargetScores(net, text)), x, ys[0], rest);
    }
  }

  lemma SessionKeepsNet(net: Net, text: seq<Token>)
    ensures SessionAfter(net, text).net == net && SessionAfter(net, text).text == text
  {
  }

  // ----- a batch emits one outcome

  /** The text after `m` tokens drawn from the target with the draws from the `n`th on. */
  function Drawn(net: Net, text: seq<Token>, n: nat, m: nat): (t: seq<Token>)
    ensures |t| == |text| + m && text <= t
    decreases m
  {
    if m == 0 then text else Drawn(net, text + [net.sample(TargetScores(net, text), n)], n + 1, m - 1)
  }

  lemma {:induction false} DrawnOneMore(net: Net, text: seq<Token>, n: nat, m: nat)
    ensures var t := Drawn(net, text, n, m);
      Drawn(net, text, n, m + 1) == t + [net.sample(TargetScores(net, t), n + m)]
    decreases m
  {
    hide TargetScores;
    if m > 0 {
      DrawnOneMore(net, text + [net.sample(TargetScores(net, text), n)], n + 1, m - 1);
    }
  }

  lemma {:induction false} RequestPlayed(net: Net, text: seq<Token>, n: nat, m: nat, k: nat)
    requires Lawful(net) && (m > 0 || text != [])
    ensures var s := SessionAfter(net, Drawn(net, text, n, m));
      s.Valid() && TextPlayed(net, RequestTree(net, text, m, k), n) == Text(s, Play(net, Cycles(s, Start, k), n + m).0)
    decreases m
  {
    hide Lawful, Play, Cycles, TargetScores, Text;
    if m > 0 {
      var y := net.sample(TargetScores(net, text), n);
      SampleFits(net, TargetScores(net, text), n);
      RequestPlayed(net, text + [y], n + 1, m - 1, k);
    }
  }

  /** More cycles only add to the text. */
  lemma {:induction false} CyclesExtend(s: Session, n: nat, k: nat, c: nat)
    requires s.Valid() && k <= c
    ensures Text(s, Decoded(s, Start, n, k).0) <= Text(s, Decoded(s, Start, n, c).0)
    decreases c
  {
    hide Lawful, Decoded, CycleAt;
    if k < c {
      CyclesExtend(s, n, k, c - 1);
      DecodedOneMore(s, Start, n, c - 1);
    }
  }

  /** An outcome of `k` cycles or more begins with what `k` cycles decode. */
  lemma OutcomeBegins(net: Net, text: seq<Token>, n: nat, m: nat, k: nat, emitted: seq<Token>)
    requires Lawful(net) && (m > 0 || text != []) && !net.greedy && DrawsAreInRange(net)
    requires var s := SessionAfter(net, Drawn(net, text, n, m));
      s.Valid() && emitted <= Text(s, Decoded(s, Start, n + m, k).0)
    ensures forall c: nat | c >= k :: emitted <= TextPlayed(net, RequestTree(net, text, m, c), n)
  {
    hide Lawful, Play, Cycles, TargetScores, Text, Decoded, DrawsAreInRange, RequestTree, TextPlayed, Drawn;
    var s := SessionAfter(net, Drawn(net, text, n, m));
    forall c: nat | c >= k
      ensures emitted <= TextPlayed(net, RequestTree(net, text, m, c), n)
    {
      RequestPlayed(net, text, n, m, c);
      CyclesArePlayed(s, Start, n + m, c);
      CyclesExtend(s, n + m, k, c);
    }
  }

  /** Plain so far: everything drawn is emitted but the pending token. */
  ghost predicate Pending(batch: GenerationBatch, text: seq<Token>, n: nat, m: nat)
    reads batch, batch.cache, batch.mtp
  {
    && batch.mtp == null && batch.Valid() && m > 0 && batch.draws == n + m
    && batch.tokens + [batch.nextToken.value] == Drawn(batch.net, text, n, m)
  }

  /** Just entered: everything drawn from the target is emitted or queued. */
  ghost predicate Entered(batch: GenerationBatch, text: seq<Token>, n: nat, m: nat)
    reads batch, batch.cache, batch.mtp
  {
    && batch.mtp != null && batch.Valid() && m > 0 && batch.draws == n + m + 1
    && batch.tokens + Tokens(batch.mtp.queue) == Drawn(batch.net, text, n, m)
    && batch.mtp.headCalls == SessionAfter(batch.net, Drawn(batch.net, text, n, m)).calls
  }

  lemma QueuedIsNext(batch: GenerationBatch)
    requires batch.Valid() && batch.mtp != null && |batch.mtp.queue| == 1
    ensures batch.mtp.headCalls != [] && batch.mtp.queue[0].token == batch.mtp.headCalls[|batch.mtp.headCalls| - 1].next
  {
    hide Lawful, LayersHold, Distribution;
  }

  lemma PendingToken(batch: GenerationBatch)
    requires batch.Valid() && batch.mtp == null
    ensures batch.nextToken.Some? && batch.draws > 0 && Lawful(batch.net)
    ensures batch.nextToken.value == batch.net.sample(TargetScores(batch.net, batch.tokens), batch.draws - 1)
  {
    hide Lawful, LayersHold, Distribution;
  }

  /** One token of a request that does not draft yet. */
  method EmitPlain(batch: GenerationBatch, safe: bool, ghost text: seq<Token>, ghost n: nat, ghost m: nat) returns (r: Response)
    requires Pending(batch, text, n, m) && batch.Balanced()
    modifies batch, batch.cache, batch.telemetry
    ensures batch.Balanced() && batch.tokens == Drawn(batch.net, text, n, m)
    ensures batch.produced == old(batch.produced) + 1 && (batch.produced >= batch.limit ==> r.finish.Some?)
    ensures batch.mtp == null || fresh(batch.mtp)
    ensures r.finish.None? ==> if batch.mtp == null then Pending(batch, text, n, m + 1) else Entered(batch, text, n, m + 1)
  {
    hide GenerationBatch.Valid, GenerationBatch.Balanced, Lawful, TargetScores, HeadScores, PlainToken, Reported, Appended,
      CleanStates, RowOf;
    ghost var d := batch.View();
    PendingToken(batch);
    AppendedIs(batch.net, batch.limit, d, batch.nextToken.value);
    DrawnOneMore(batch.net, text, n, m);
    r := batch.Next(safe, true);
    if r.finish.None? {
      if batch.mtp == null {
        PendingToken(batch);
      } else {
        QueuedIsNext(batch);
        var drawn := Drawn(batch.net, text, n, m + 1);
        assert drawn[..|drawn| - 2] == d.tokens;
      }
    }
  }

  /** A request until it begins to draft, or to its end if it does not get there. */
  method EmitOpening(batch: GenerationBatch, safe: nat -> bool) returns (ghost m: nat, done: bool)
    requires batch.Valid() && batch.mtp == null && batch.Balanced()
    modifies batch, batch.cache, batch.telemetry
    ensures m > 0 && batch.Balanced() && old(batch.draws) > 0 && Lawful(batch.net)
    ensures batch.mtp == null || fresh(batch.mtp)
    ensures done ==> old(batch.tokens) < batch.tokens && batch.tokens == Drawn(batch.net, old(batch.tokens), old(batch.draws) - 1, m)
    ensures !done ==> batch.mtp != null && Entered(batch, old(batch.tokens), old(batch.draws) - 1, m)
  {
    hide GenerationBatch.Valid, GenerationBatch.Balanced, Lawful, TargetScores, Drawn, SessionAfter;
    PendingToken(batch);
    ghost var text, n := batch.tokens, batch.draws - 1;
    FirstDrawn(batch.net, text, n);
    m, done := 1, false;
    while !done && batch.mtp == null
      invariant m > 0 && batch.Balanced() && (batch.mtp == null || fresh(batch.mtp))
      invariant !done ==> if batch.mtp == null then Pending(batch, text, n, m) else Entered(batch, text, n, m)
      invariant done ==> batch.tokens == Drawn(batch.net, text, n, m)
      decreases !done, batch.limit - batch.produced
    {
      var r := EmitPlain(batch, safe(batch.produced), text, n, m);
      done := r.finish.Some?;
      if !done {
        m := m + 1;
      }
    }
  }

  /** The cycles of a request that drafts, to its end. */
  method EmitCycles(batch: GenerationBatch, ghost text: seq<Token>, ghost n: nat, ghost m: nat) returns (ghost k: nat)
    requires batch.mtp != null && Entered(batch, text, n, m) && batch.Balanced()
    modifies batch, batch.cache, batch.telemetry, batch.mtp
    ensures var s := SessionAfter(batch.net, Drawn(batch.net, text, n, m));
      s.Valid() && old(batch.tokens) < batch.tokens <= Text(s, Decoded(s, Start, n + m, k).0)
  {
    hide GenerationBatch.Valid, GenerationBatch.Balanced, Lawful, TargetScores, Drawn, Decoded, Play, Cycles, DrawsAreInRange,
      Text;
    ghost var s;
    s, k := EmitAll(batch);
    SessionKeepsNet(batch.net, Drawn(batch.net, text, n, m));
  }

  /**
    A request driven to its end, drafting from where `safe` first says so, emits a beginning
    of one outcome of the tree of its draws: `m` from the target and then the cycles.
   */
  method EmitRequest(batch: GenerationBatch, safe: nat -> bool) returns (ghost m: nat, ghost k: nat)
    requires batch.Valid() && batch.mtp == null && batch.Balanced()
    modifies batch, batch.cache, batch.telemetry
    ensures m > 0 && Lawful(batch.net) && old(batch.draws) > 0
    ensures !batch.net.greedy && DrawsAreInRange(batch.net) ==>
      forall c: nat | c >= k ::
        batch.tokens <= TextPlayed(batch.net, RequestTree(batch.net, old(batch.tokens), m, c), old(batch.draws) - 1)
  {
    hide GenerationBatch.Valid, GenerationBatch.Balanced, Lawful, TargetScores, Drawn, RequestTree, TextPlayed, Decoded,
      DrawsAreInRange, Text, Entered, SessionAfter;
    ghost var text, n := batch.tokens, batch.draws - 1;
    var done;
    m, done := EmitOpening(batch, safe);
    k := 0;
    if done {
      SessionKeepsNet(batch.net, batch.tokens);
      SessionStarts(SessionAfter(batch.net, batch.tokens), n + m);
    } else {
      k := EmitCycles(batch, text, n, m);
    }
    if !batch.net.greedy && DrawsAreInRange(batch.net) {
      OutcomeBegins(batch.net, text, n, m, k, batch.tokens);
    }
  }

  lemma FirstDrawn(net: Net, text: seq<Token>, n: nat)
    ensures Drawn(net, text, n, 1) == text + [net.sample(TargetScores(net, text), n)]
  {
  }

  lemma SessionStarts(s: Session, n: nat)
    requires Lawful(s.net) && s.text != []
    ensures s.Valid() && Text(s, Decoded(s, Start, n, 0).0) == s.text
  {
    hide Lawful;
  }
}
