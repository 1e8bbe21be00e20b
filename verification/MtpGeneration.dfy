/**
  Depth-one native MTP decoding of a singleton generation batch.

  The language model and its draft head are arbitrary oracles of the tokens in
  context. A verify cycle feeds the confirmed token and the draft in one pass, so
  the layer caches run ahead of the emitted text and are rolled back when the
  draft is refused. What a caller sees must be plain decoding all the same.
 */
module MtpGeneration {
  import opened Options
  import opened CacheRollback
  import opened SpeculativeSampling

  /** Opaque handles: a row of scores, a stop-matcher state. */
  type Scores = int
  type Matcher = int

  type Hidden = int

  /** One call of the draft head: the hidden row and the next token it saw. */
  datatype HeadCall = HeadCall(hidden: Hidden, next: Token)

  datatype MatchResult = MatchResult(next: Matcher, matched: bool, stateGone: bool)

  /**
    Everything foreign: the model as a function of what its layer caches hold,
    the draft head as a function of all its calls so far, the sampler (whose n-th
    draw may differ from its first), the logits processors and the stop matcher.
    `scores` and `entry` are the model as a function of the tokens in context.
   */
  datatype Net = Net(
    layers: seq<LayerSpec>,
    empty: nat -> Content,
    rows: (seq<Content>, seq<Token>) -> seq<Scores>,
    hidden: (seq<Content>, seq<Token>) -> seq<Hidden>,
    entries: (nat, seq<Content>, seq<Token>) -> seq<Entry>,
    scores: seq<Token> -> Scores,
    entry: (nat, seq<Token>) -> Entry,
    processors: Option<(seq<Token>, Scores) -> Scores>,
    head: seq<HeadCall> -> Scores,
    greedy: bool,
    argmax: Scores -> Token,
    sample: (Scores, nat) -> Token,
    filtered: Scores -> Weights,
    uniform: nat -> real,
    categorical: (Weights, nat) -> Token,
    matchToken: (Matcher, Token) -> MatchResult,
    vocabulary: nat)

  function Processed(net: Net, previous: seq<Token>, scores: Scores): Scores {
    if net.processors.Some? then net.processors.value(previous, scores) else scores
  }

  /** The scores plain decoding uses to choose the token after `context`. */
  function TargetScores(net: Net, context: seq<Token>): Scores {
    Processed(net, context, net.scores(context))
  }

  /** The plain greedy continuation by one token. */
  function PlainToken(net: Net, context: seq<Token>): Token {
    net.argmax(TargetScores(net, context))
  }

  /** What layer `i` holds after `context` was fed one token at a time. */
  function Canonical(net: Net, i: nat, context: seq<Token>): Content
    requires i < |net.layers|
  {
    if context == [] then net.empty(i)
    else net.layers[i].library.update(Canonical(net, i, context[..|context| - 1]), [net.entry(i, context)])
  }

  function Contents(net: Net, context: seq<Token>): (c: seq<Content>)
    ensures |c| == |net.layers|
  {
    seq(|net.layers|, i requires 0 <= i < |net.layers| => Canonical(net, i, context))
  }

  /** Every layer at rest after `context`. */
  function CleanStates(net: Net, context: seq<Token>): (s: seq<LayerState>)
    ensures |s| == |net.layers|
  {
    seq(|net.layers|, i requires 0 <= i < |net.layers| => Clean(Canonical(net, i, context)))
  }

  /** Caches that hold `fed` make the model the causal function of the tokens in context. */
  ghost predicate CausalLaw(net: Net) {
    && (forall fed, inputs :: |net.rows(Contents(net, fed), inputs)| == |inputs|)
    && (forall fed, inputs :: |net.hidden(Contents(net, fed), inputs)| == |inputs|)
    && (forall fed, inputs, k | 0 <= k < |inputs| && |net.rows(Contents(net, fed), inputs)| == |inputs| ::
          net.rows(Contents(net, fed), inputs)[k] == net.scores(fed + inputs[..k + 1]))
    && (forall i, fed, inputs | 0 <= i < |net.layers| ::
          net.entries(i, Contents(net, fed), inputs) == Entries(net, i, fed, inputs))
  }

  function Entries(net: Net, i: nat, fed: seq<Token>, inputs: seq<Token>): (e: seq<Entry>)
    ensures |e| == |inputs|
  {
    seq(|inputs|, k requires 0 <= k < |inputs| => net.entry(i, fed + inputs[..k + 1]))
  }

  /** A two-token update leaves what two one-token updates leave. */
  ghost predicate BatchLaw(spec: LayerSpec) {
    forall c, a, b ::
      spec.library.update(c, [a, b]) == spec.library.update(spec.library.update(c, [a]), [b])
  }

  ghost predicate Lawful(net: Net) {
    && (forall i | 0 <= i < |net.layers| :: TrimLaw(net.layers[i]) && BatchLaw(net.layers[i]))
    && CausalLaw(net)
    && (net.greedy ==> forall s, n: nat :: net.sample(s, n) == net.argmax(s))
    && (forall s, n: nat :: net.sample(s, n) < net.vocabulary)
    && (forall s :: |net.filtered(s)| == net.vocabulary && Distribution(net.filtered(s)))
  }

  /**
    A model that only counts: its linear layer, its attention layer and its rotating
    layer, which can never be trimmed, hold the number of tokens fed, and its scores
    are that number.
   */
  function CountingNet(greedy: bool := true): Net {
    var count := (c: Content, es: seq<Entry>) => c + |es|;
    var trim := (c: Content, n: nat) => (c - n, n);
    Net([LayerSpec(Linear, Library(count, _ => false, trim)), LayerSpec(Plain, Library(count, _ => true, trim)),
         LayerSpec(Rotating, Library(count, _ => false, trim))], _ => 0,
        (cs: seq<Content>, ts: seq<Token>) => seq(|ts|, k => (if |cs| == 3 then cs[0] else 0) + k + 1),
        (cs: seq<Content>, ts: seq<Token>) => seq(|ts|, _ => 0),
        (i: nat, cs: seq<Content>, ts: seq<Token>) => seq(|ts|, _ => 0),
        (context: seq<Token>) => |context|, (i: nat, context: seq<Token>) => 0, None, (calls: seq<HeadCall>) => 0,
        greedy, (s: Scores) => 0, (s: Scores, n: nat) => 0, (s: Scores) => [1.0], (n: nat) => 0.0,
        (w: Weights, n: nat) => 0, (m: Matcher, t: Token) => MatchResult(m, false, false), 1)
  }

  lemma CountingLayer(greedy: bool, i: nat, c: Content, es: seq<Entry>)
    requires i < 3
    ensures var net := CountingNet(greedy);
      |net.layers| == 3 && net.empty(i) == 0 && net.layers[i].library.update(c, es) == c + |es|
  {
  }

  lemma {:induction false} CountingContent(greedy: bool, i: nat, context: seq<Token>)
    requires i < 3
    ensures |CountingNet(greedy).layers| == 3 && Canonical(CountingNet(greedy), i, context) == |context|
  {
    hide CountingNet;
    CountingLayer(greedy, i, |context| - 1, [CountingNet(greedy).entry(i, context)]);
    if context != [] {
      CountingContent(greedy, i, context[..|context| - 1]);
    }
  }

  lemma CountingRows(greedy: bool, fed: seq<Token>, inputs: seq<Token>)
    ensures var net := CountingNet(greedy);
      && |net.rows(Contents(net, fed), inputs)| == |net.hidden(Contents(net, fed), inputs)| == |inputs|
      && forall k | 0 <= k < |inputs| :: net.rows(Contents(net, fed), inputs)[k] == net.scores(fed + inputs[..k + 1])
  {
    CountingContent(greedy, 0, fed);
    assert |Contents(CountingNet(greedy), fed)| == 3 && Contents(CountingNet(greedy), fed)[0] == |fed|;
  }

  lemma CountingEntries(greedy: bool, i: nat, fed: seq<Token>, inputs: seq<Token>)
    ensures CountingNet(greedy).entries(i, Contents(CountingNet(greedy), fed), inputs) == Entries(CountingNet(greedy), i, fed, inputs)
  {
  }

  lemma CountingIsCausal(greedy: bool)
    ensures CausalLaw(CountingNet(greedy))
  {
    hide CountingNet, Contents, Entries;
    forall fed, inputs
      ensures var net := CountingNet(greedy);
        && |net.rows(Contents(net, fed), inputs)| == |net.hidden(Contents(net, fed), inputs)| == |inputs|
        && forall k | 0 <= k < |inputs| :: net.rows(Contents(net, fed), inputs)[k] == net.scores(fed + inputs[..k + 1])
    {
      CountingRows(greedy, fed, inputs);
    }
    forall i, fed, inputs | 0 <= i < |CountingNet(greedy).layers|
      ensures CountingNet(greedy).entries(i, Contents(CountingNet(greedy), fed), inputs) == Entries(CountingNet(greedy), i, fed, inputs)
    {
      CountingEntries(greedy, i, fed, inputs);
    }
  }

  lemma CountingTrims(greedy: bool, i: nat)
    requires i < 3
    ensures |CountingNet(greedy).layers| == 3 && TrimLaw(CountingNet(greedy).layers[i]) && BatchLaw(CountingNet(greedy).layers[i])
  {
  }

  /** The laws asked of a model can be met by a hybrid one, greedy or sampling. */
  lemma LawsCanBeMet(greedy: bool := true)
    ensures Lawful(CountingNet(greedy))
  {
    hide CausalLaw, TrimLaw, BatchLaw;
    CountingIsCausal(greedy);
    CountingTrims(greedy, 0);
    CountingTrims(greedy, 1);
    CountingTrims(greedy, 2);
    assert Distribution([1.0]);
  }

  // ----- one pass over one coherent layer

  lemma FeedOne(net: Net, i: nat, fed: seq<Token>, t: Token)
    requires Lawful(net) && i < |net.layers|
    ensures Fed(net.layers[i], Clean(Canonical(net, i, fed)), net.entries(i, Contents(net, fed), [t]), 0, false)
         == Clean(Canonical(net, i, fed + [t]))
  {
    assert [t][..1] == [t];
    assert net.entries(i, Contents(net, fed), [t]) == [net.entry(i, fed + [t])];
    assert (fed + [t])[..|fed|] == fed;
  }

  lemma FeedTwo(net: Net, i: nat, fed: seq<Token>, a: Token, b: Token)
    requires Lawful(net) && i < |net.layers|
    ensures var verified := Fed(net.layers[i], Clean(Canonical(net, i, fed)),
                                net.entries(i, Contents(net, fed), [a, b]), 1, true);
      && verified.content == Canonical(net, i, fed + [a] + [b])
      && Restorable(net.layers[i], verified)
      && Restored(net.layers[i], verified) == (Clean(Canonical(net, i, fed + [a])), true)
  {
    var first, second := net.entry(i, fed + [a]), net.entry(i, fed + [a] + [b]);
    assert [a, b][..1] == [a] && [a, b][..2] == [a, b] && fed + [a] + [b] == fed + [a, b];
    assert net.entries(i, Contents(net, fed), [a, b]) == [first, second];
    assert (fed + [a])[..|fed|] == fed;
    assert (fed + [a] + [b])[..|fed| + 1] == fed + [a];
    assert [first, second][..1] == [first] && [first, second][1..] == [second];
    RollbackIsExact(net.layers[i], Canonical(net, i, fed), first, second);
  }

  // ----- plain decoding, the reference

  datatype Finish = Length | Stop

  datatype Decoding = Decoding(tokens: seq<Token>, produced: nat, matcher: Matcher)

  /** Append one token and decide whether the request ends with it. */
  function Appended(net: Net, limit: int, d: Decoding, token: Token): (Decoding, Option<Finish>) {
    var m := net.matchToken(d.matcher, token);
    (Decoding(d.tokens + [token], d.produced + 1, m.next),
     if m.matched && m.stateGone then Some(Stop)
     else if d.produced + 1 >= limit then Some(Length)
     else None)
  }

  lemma AppendedIs(net: Net, limit: int, d: Decoding, token: Token)
    ensures var (next, finish) := Appended(net, limit, d, token);
      && next.tokens == d.tokens + [token] && next.produced == d.produced + 1
      && (finish.None? ==> next.produced < limit)
  {
  }

  function PlainStep(net: Net, limit: int, d: Decoding): (Decoding, Option<Finish>) {
    Appended(net, limit, d, PlainToken(net, d.tokens))
  }

  /** Greedy decoding one token at a time until the request finishes. */
  function PlainRun(net: Net, limit: int, d: Decoding): (Decoding, Finish)
    decreases limit - d.produced
  {
    var (next, finish) := PlainStep(net, limit, d);
    if finish.Some? then (next, finish.value) else PlainRun(net, limit, next)
  }

  /**
    The reference means what it should: the run extends the text by at least one
    token, each the plain token after everything before it, stays within the limit
    (one token at least), and ends with a stop or at the limit.
   */
  lemma {:induction false} PlainRunIsGreedy(net: Net, limit: int, d: Decoding)
    ensures var (end, finish) := PlainRun(net, limit, d);
      var n, m := |d.tokens|, |end.tokens|;
      && n < m && end.tokens[..n] == d.tokens && end.produced - d.produced == m - n
      && (forall k | n <= k < m :: end.tokens[k] == PlainToken(net, end.tokens[..k]))
      && (end.produced <= limit || m == n + 1)
      && (finish == Length ==> end.produced >= limit)
    decreases limit - d.produced
  {
    hide PlainToken;
    var (next, finish) := PlainStep(net, limit, d);
    assert next.tokens[..|d.tokens|] == d.tokens;
    if finish.None? {
      PlainRunIsGreedy(net, limit, next);
      var end := PlainRun(net, limit, next).0;
      assert end.tokens[..|d.tokens|] == end.tokens[..|next.tokens|][..|d.tokens|];
      assert end.tokens[|d.tokens|] == end.tokens[..|next.tokens|][|d.tokens|];
    }
  }

  // ----- one verify cycle on values

  datatype Source = Init | Draft | Bonus | Verify

  datatype Queued = Queued(token: Token, logprobs: Scores, source: Source, cached: bool)

  /** Whether a draft drawn from `q` is accepted, and how many random draws that took. */
  function Verdict(net: Net, scores: Scores, q: Weights, draft: Token, draws: nat): (bool, nat)
    requires draft < net.vocabulary == |q| == |net.filtered(scores)|
  {
    if net.greedy then (net.argmax(scores) == draft, 0)
    else
      var probability := AcceptanceProbability(net.filtered(scores), q, draft);
      if probability >= 1.0 then (true, 0) else (net.uniform(draws) < probability, 1)
  }

  /** The token that replaces a refused draft, and how many random draws it took. */
  function ReplacementFor(net: Net, scores: Scores, q: Weights, draws: nat): (Token, nat)
    requires |q| == |net.filtered(scores)| && Distribution(net.filtered(scores))
  {
    if net.greedy then (net.argmax(scores), 0)
    else (net.categorical(ResidualProbabilities(net.filtered(scores), q), draws), 1)
  }

  /** What a cycle queues, the head call it ends with, and the random draws used up to that call. */
  datatype Cycle = Cycle(accepted: bool, queue: seq<Queued>, call: HeadCall, draws: nat)

  function CycleOf(net: Net, fed: seq<Token>, main: Token, draft: Token, draftLogprobs: Scores, q: Weights, draws: nat)
    : (c: Cycle)
    requires draft < net.vocabulary == |q|
    requires forall s :: |net.filtered(s)| == net.vocabulary && Distribution(net.filtered(s))
    requires |net.hidden(Contents(net, fed), [main, draft])| == 2
    ensures |c.queue| == (if c.accepted then 2 else 1) && (c.queue[0].source.Draft? <==> c.accepted)
    ensures c.queue[0].logprobs == TargetScores(net, fed + [main])
      <==> !c.accepted || draftLogprobs == TargetScores(net, fed + [main])
  {
    var verify, after := TargetScores(net, fed + [main]), TargetScores(net, fed + [main] + [draft]);
    var hidden := net.hidden(Contents(net, fed), [main, draft]);
    var bonus := net.sample(after, draws);
    var (accepted, used) := Verdict(net, verify, q, draft, draws + 1);
    if accepted then
      Cycle(true, [Queued(draft, draftLogprobs, Draft, true), Queued(bonus, after, Bonus, false)],
            HeadCall(hidden[1], bonus), draws + 1 + used)
    else
      var (token, more) := ReplacementFor(net, verify, q, draws + 1 + used);
      Cycle(false, [Queued(token, verify, Verify, false)], HeadCall(hidden[0], token), draws + 1 + used + more)
  }

  /** The scores the draft head gives the token after `context`. */
  function HeadScores(net: Net, context: seq<Token>, calls: seq<HeadCall>): Scores {
    Processed(net, context, net.head(calls))
  }

  /** What the model hands on for the `k`th of some tokens fed after `fed`. */
  function RowOf(net: Net, fed: seq<Token>, inputs: seq<Token>, k: nat): Hidden {
    var rows := net.hidden(Contents(net, fed), inputs);
    if k < |rows| then rows[k] else 0
  }

  /** The cycle after `context` and some head calls, its draft made with the `n`th draw. */
  ghost function NextCycle(net: Net, context: seq<Token>, calls: seq<HeadCall>, n: nat): (c: Cycle)
    requires Lawful(net) && context != []
    ensures c.queue != []
  {
    var scores, last := HeadScores(net, context, calls), |context| - 1;
    CycleOf(net, context[..last], context[last], net.sample(scores, n), scores, net.filtered(scores), n + 1)
  }

  /** The head calls made so far, and the random draws used. */
  type Progress = (seq<HeadCall>, nat)

  /**
    The head calls and draws after a response: entering drafting draws the next token and
    the first draft, an accepted draft or a replacement comes with a cycle, and what was
    queued by then comes for free.
   */
  ghost function Progressed(net: Net, context: seq<Token>, p: Progress, token: Token, source: Option<Source>): Progress
    requires Lawful(net)
  {
    match source
    case None => (p.0, p.1 + 1)
    case Some(Init) =>
      if p.0 != [] then p
      else ([HeadCall(RowOf(net, context, [token], 0), net.sample(TargetScores(net, context + [token]), p.1))], p.1 + 2)
    case Some(Bonus) => p
    case Some(_) =>
      if context == [] || p.1 == 0 then p
      else var c := NextCycle(net, context, p.0, p.1 - 1); (p.0 + [c.call], c.draws + 1)
  }

  /**
    A reported draft need not carry the target's scores: whatever was said before, this
    model's draft head scores every token 0, its target scores the next token by its
    place, and the draft is accepted and queued with the 0.
   */
  lemma AcceptedDraftCarriesTheHeadsScores(fed: seq<Token>, calls: seq<HeadCall>, draws: nat)
    ensures Lawful(CountingNet())
    ensures var net, context := CountingNet(), fed + [0];
      var cycle := CycleOf(net, fed, 0, 0, HeadScores(net, context, calls), [1.0], draws);
      && cycle.accepted && cycle.queue[0].source.Draft?
      && cycle.queue[0].logprobs == HeadScores(net, context, calls) != TargetScores(net, context)
  {
    LawsCanBeMet();
    hide CausalLaw, Canonical;
  }

  lemma PendingScores(net: Net, fed: seq<Token>, main: Token, draft: Token, draftLogprobs: Scores, q: Weights, draws: nat)
    requires draft < net.vocabulary == |q| && Lawful(net)
    ensures var c := CycleOf(net, fed, main, draft, draftLogprobs, q, draws);
      c.queue[0].logprobs == if c.accepted then draftLogprobs else TargetScores(net, fed + [main])
  {
  }

  lemma PendingSource(net: Net, fed: seq<Token>, main: Token, draft: Token, draftLogprobs: Scores, q: Weights, draws: nat)
    requires draft < net.vocabulary == |q| && Lawful(net)
    ensures var source := CycleOf(net, fed, main, draft, draftLogprobs, q, draws).queue[0].source;
      source == Draft || source == Verify
  {
  }

  lemma FilteredFits(net: Net, scores: Scores)
    requires Lawful(net)
    ensures |net.filtered(scores)| == net.vocabulary && Distribution(net.filtered(scores))
  {
  }

  lemma GreedyAcceptanceIsPlain(net: Net, context: seq<Token>, q: Weights, draft: Token, draws: nat)
    requires Lawful(net) && draft < net.vocabulary == |q|
    ensures |net.filtered(TargetScores(net, context))| == net.vocabulary
    ensures net.greedy && Verdict(net, TargetScores(net, context), q, draft, draws).0 ==> draft == PlainToken(net, context)
  {
  }

  /**
    Accepting without a draw when the probability reaches one is only a shortcut: a
    sampled draft is accepted exactly when a uniform draw falls below the probability.
   */
  lemma AcceptedBelowTheProbability(net: Net, scores: Scores, q: Weights, draft: Token, draws: nat)
    requires draft < net.vocabulary == |q| == |net.filtered(scores)|
    requires !net.greedy && 0.0 <= net.uniform(draws) < 1.0
    ensures Verdict(net, scores, q, draft, draws).0
      <==> net.uniform(draws) < AcceptanceProbability(net.filtered(scores), q, draft)
  {
  }

  lemma GreedyReplacement(net: Net, scores: Scores, q: Weights, draws: nat)
    requires |q| == |net.filtered(scores)| && Distribution(net.filtered(scores))
    ensures net.greedy ==> ReplacementFor(net, scores, q, draws).0 == net.argmax(scores)
  {
  }

  // ----- the mutable state

  datatype Response = Response(
    token: Token,
    logprobs: Scores,
    source: Option<Source>,
    finish: Option<Finish>,
    promptCache: seq<LayerState>,
    allTokens: seq<Token>)

  class Telemetry {
    var proposed: nat
    var accepted: nat
    var cycles: nat
    var emitted: nat
    /** Tokens of verify cycles that a finished request left in its queue. */
    ghost var dropped: nat

    constructor ()
      ensures proposed == accepted == cycles == emitted == dropped == 0
    {
      proposed, accepted, cycles, emitted, dropped := 0, 0, 0, 0, 0;
    }

    method RecordProposal(wasAccepted: bool)
      modifies this
      ensures proposed == old(proposed) + 1 && cycles == old(cycles) + 1
      ensures accepted == old(accepted) + (if wasAccepted then 1 else 0)
      ensures emitted == old(emitted) && dropped == old(dropped)
    {
      proposed := proposed + 1;
      accepted := accepted + if wasAccepted then 1 else 0;
      cycles := cycles + 1;
    }
  }

  class MtpState {
    var queue: seq<Queued>
    var headCalls: seq<HeadCall>
    var nextMain: Token
    var draftId: Token
    var draftLogprobs: Scores
    var draftAccept: Weights
    var lastUncached: Option<Token>

    constructor (nextMain: Token, headCalls: seq<HeadCall>, draftId: Token, draftLogprobs: Scores, draftAccept: Weights)
      ensures queue == [] && lastUncached == None
      ensures this.nextMain == nextMain && this.headCalls == headCalls
      ensures this.draftId == draftId && this.draftLogprobs == draftLogprobs && this.draftAccept == draftAccept
    {
      this.queue := [];
      this.nextMain := nextMain;
      this.headCalls := headCalls;
      this.draftId := draftId;
      this.draftLogprobs := draftLogprobs;
      this.draftAccept := draftAccept;
      this.lastUncached := None;
    }
  }

  /** How many of at most two queued tokens came out of a verify cycle. */
  function FromCycles(queue: seq<Queued>): nat {
    (if |queue| > 0 && !queue[0].source.Init? then 1 else 0)
    + (if |queue| > 1 && !queue[1].source.Init? then 1 else 0)
  }

  /** Queued after `tokens`, `q` is the plain continuation. */
  ghost predicate IsPlain(net: Net, tokens: seq<Token>, q: Queued) {
    q.token == PlainToken(net, tokens)
  }

  /** Every queued token but an accepted draft carries the target's own scores. */
  ghost predicate IsScored(net: Net, tokens: seq<Token>, q: Queued) {
    !q.source.Draft? ==> q.logprobs == TargetScores(net, tokens)
  }

  /** A token queued behind another one, which costs no further draw or head call. */
  predicate Free(source: Source) {
    source.Init? || source.Bonus?
  }

  /**
    A queue of at most two, after `tokens`, when the caches hold `fed` and
    `nextMain` is the next token to feed.
   */
  ghost predicate QueueFits(net: Net, fed: seq<Token>, nextMain: Token, tokens: seq<Token>, queue: seq<Queued>) {
    match |queue|
    case 0 => fed + [nextMain] == tokens
    case 1 =>
      && fed == tokens && queue[0].token == nextMain && !queue[0].cached && !queue[0].source.Draft?
      && IsScored(net, tokens, queue[0])
      && (net.greedy ==> IsPlain(net, tokens, queue[0]))
    case 2 =>
      && fed == tokens + [queue[0].token] && queue[0].cached
      && queue[1].token == nextMain && !queue[1].cached && Free(queue[1].source)
      && IsScored(net, tokens, queue[0]) && IsScored(net, fed, queue[1])
      && (net.greedy ==> IsPlain(net, tokens, queue[0]) && IsPlain(net, fed, queue[1]))
    case _ => false
  }

  /** Popping the head of a queue that fits leaves one that fits after the popped token. */
  lemma PoppedFits(net: Net, fed: seq<Token>, nextMain: Token, tokens: seq<Token>, queue: seq<Queued>)
    requires QueueFits(net, fed, nextMain, tokens, queue) && queue != []
    ensures IsScored(net, tokens, queue[0]) && (net.greedy ==> IsPlain(net, tokens, queue[0]))
    ensures QueueFits(net, fed, nextMain, tokens + [queue[0].token], queue[1..]) && |queue[1..]| <= 1
    ensures queue[0].cached <==> queue[1..] != []
    ensures queue[1..] != [] ==> Free(queue[1..][0].source)
    ensures fed == if queue[0].cached then tokens + [queue[0].token] else tokens
  {
    hide IsScored, IsPlain;
  }

  /** Every layer is in the state that feeding exactly `fed` gives. */
  ghost predicate LayersHold(net: Net, cache: seq<LayerCache>, fed: seq<Token>)
    requires |cache| == |net.layers|
    reads cache
  {
    forall i | 0 <= i < |cache| :: cache[i].State() == Clean(Canonical(net, i, fed))
  }

  /** Every layer has just taken the armed two-token pass over caches that held `fed`. */
  ghost predicate LayersVerified(net: Net, cache: seq<LayerCache>, fed: seq<Token>, main: Token, draft: Token)
    requires |cache| == |net.layers|
    reads cache
  {
    forall i | 0 <= i < |cache| ::
      cache[i].State() == Fed(net.layers[i], Clean(Canonical(net, i, fed)),
                              net.entries(i, Contents(net, fed), [main, draft]), 1, true)
  }

  lemma HeldStates(net: Net, cache: seq<LayerCache>, fed: seq<Token>)
    requires |cache| == |net.layers| && LayersHold(net, cache, fed)
    ensures States(cache) == CleanStates(net, fed)
  {
  }

  /** A draft is reported with the head's scores, drawn after a call that saw the last token; the rest with the target's. */
  ghost predicate Reported(net: Net, context: seq<Token>, calls: seq<HeadCall>, fromDraft: bool, logprobs: Scores) {
    if fromDraft then
      && logprobs == HeadScores(net, context, calls)
      && calls != [] && context != [] && calls[|calls| - 1].next == context[|context| - 1]
    else logprobs == TargetScores(net, context)
  }

  /** The target's scores are reported exactly when the token is no draft or the head happens to agree with the target. */
  lemma TargetScoresReportedIff(net: Net, context: seq<Token>, calls: seq<HeadCall>, fromDraft: bool, logprobs: Scores)
    requires Reported(net, context, calls, fromDraft, logprobs)
    ensures logprobs == TargetScores(net, context)
      <==> !fromDraft || HeadScores(net, context, calls) == TargetScores(net, context)
  {
  }

  function TokensOf(responses: seq<Response>): (t: seq<Token>)
    ensures |t| == |responses|
  {
    seq(|responses|, i requires 0 <= i < |responses| => responses[i].token)
  }

  /** The head calls and draws after a run of responses that starts after `start` with those of `p`. */
  ghost function RunProgress(net: Net, start: seq<Token>, p: Progress, responses: seq<Response>): Progress
    requires Lawful(net)
    decreases |responses|
  {
    if responses == [] then p
    else
      var before, last := responses[..|responses| - 1], responses[|responses| - 1];
      Progressed(net, start + TokensOf(before), RunProgress(net, start, p, before), last.token, last.source)
  }

  /** The `k`th response of a run, with the head calls that the responses before it made. */
  ghost predicate ReportedAt(net: Net, start: seq<Token>, p: Progress, responses: seq<Response>, k: nat)
    requires Lawful(net) && k < |responses|
  {
    Reported(net, start + TokensOf(responses[..k]), RunProgress(net, start, p, responses[..k]).0,
             responses[k].source == Some(Draft), responses[k].logprobs)
  }

  class GenerationBatch {
    const net: Net
    const limit: int
    const cache: seq<LayerCache>
    const telemetry: Telemetry
    var live: bool
    var tokens: seq<Token>
    var produced: nat
    var matcher: Matcher
    /** The token buffer the logits processors look at. */
    var context: seq<Token>
    var nextToken: Option<Token>
    var nextLogprobs: Scores
    /** How many draws of the sampler's random stream have been used. */
    var draws: nat
    var mtp: MtpState?

    ghost function View(): Decoding
      reads this
    {
      Decoding(tokens, produced, matcher)
    }

    ghost predicate WellFormed() {
      && Lawful(net) && Distinct(cache) && |cache| == |net.layers|
      && (forall i | 0 <= i < |cache| :: cache[i].spec == net.layers[i])
    }

    /** The caches hold exactly `fed`, and so does the token buffer. */
    ghost predicate Coherent(fed: seq<Token>)
      requires WellFormed()
      reads this, cache
    {
      LayersHold(net, cache, fed) && (net.processors.Some? ==> context == fed)
    }

    /** The bookkeeping of an active MTP request whose caches hold `fed`. */
    ghost predicate Active(fed: seq<Token>)
      requires WellFormed()
      requires mtp != null
      reads this, cache, mtp
    {
      && Coherent(fed)
      && QueueFits(net, fed, mtp.nextMain, tokens, mtp.queue)
      && mtp.draftId < net.vocabulary
      && |mtp.draftAccept| == net.vocabulary && Distribution(mtp.draftAccept)
      && mtp.draftAccept == net.filtered(mtp.draftLogprobs)
      && mtp.draftLogprobs == HeadScores(net, fed + [mtp.nextMain], mtp.headCalls)
      && mtp.headCalls != [] && mtp.headCalls[|mtp.headCalls| - 1].next == mtp.nextMain
      && draws > 0 && mtp.draftId == net.sample(mtp.draftLogprobs, draws - 1)
    }

    /** A boundary of plain decoding: everything emitted is cached and the next token is chosen. */
    ghost predicate Ready()
      reads this, cache
    {
      && WellFormed() && live
      && Coherent(tokens)
      && nextToken.Some?
      && nextLogprobs == TargetScores(net, tokens)
      && draws > 0 && nextToken.value == net.sample(nextLogprobs, draws - 1)
      && (net.greedy ==> nextToken.value == PlainToken(net, tokens))
    }

    /** Between calls at most the last emitted token is missing from the caches. */
    ghost predicate Valid()
      reads this, cache, mtp
    {
      && WellFormed()
      && live
      && (mtp == null ==> Ready())
      && (mtp != null ==>
            && tokens != []
            && |mtp.queue| <= 1
            && (mtp.queue == [] ==>
                  && Active(tokens[..|tokens| - 1])
                  && mtp.lastUncached == Some(tokens[|tokens| - 1]))
            && (mtp.queue != [] ==> Active(tokens) && mtp.lastUncached == None && Free(mtp.queue[0].source)))
    }

    /** No token of a verify cycle is lost or counted twice. */
    ghost predicate Balanced()
      reads this, telemetry, mtp
    {
      telemetry.emitted + telemetry.dropped + (if mtp == null then 0 else FromCycles(mtp.queue))
      == telemetry.cycles + telemetry.accepted
    }

    /** A queue that is about to be popped. */
    ghost predicate Filled(fed: seq<Token>)
      reads this, cache, mtp
    {
      WellFormed() && live && mtp != null && mtp.queue != [] && Active(fed)
    }

    /** A batch right after prefill: the prompt is cached and a first token was sampled. */
    constructor (net: Net, limit: int, cache: seq<LayerCache>, telemetry: Telemetry,
                 prompt: seq<Token>, matcher: Matcher, first: Token, draws: nat)
      requires Lawful(net) && Distinct(cache) && |cache| == |net.layers|
      requires forall i | 0 <= i < |cache| ::
        cache[i].spec == net.layers[i] && cache[i].State() == Clean(Canonical(net, i, prompt))
      requires draws > 0 && first == net.sample(TargetScores(net, prompt), draws - 1)
      ensures Valid() && mtp == null
      ensures this.net == net && this.limit == limit && this.cache == cache && this.telemetry == telemetry
      ensures View() == Decoding(prompt, 0, matcher) && nextToken == Some(first) && this.draws == draws
    {
      this.net, this.limit, this.cache, this.telemetry := net, limit, cache, telemetry;
      this.live := true;
      this.tokens, this.produced, this.matcher := prompt, 0, matcher;
      this.context := prompt;
      this.nextToken := Some(first);
      this.nextLogprobs := TargetScores(net, prompt);
      this.draws := draws;
      this.mtp := null;
    }

    method Sample(scores: Scores) returns (t: Token)
      requires WellFormed()
      modifies `draws
      ensures t == net.sample(scores, old(draws)) && draws == old(draws) + 1
      ensures t < net.vocabulary
      ensures net.greedy ==> t == net.argmax(scores)
    {
      t := net.sample(scores, draws);
      draws := draws + 1;
    }

    /** One call of the model: every layer is updated, one row of scores per input. */
    method Forward(inputs: seq<Token>, confirmed: nat, armed: bool, ghost fed: seq<Token>)
      returns (rows: seq<Scores>, hidden: seq<Hidden>)
      requires WellFormed() && LayersHold(net, cache, fed)
      modifies cache
      ensures |rows| == |hidden| == |inputs|
      ensures hidden == net.hidden(Contents(net, fed), inputs)
      ensures forall k | 0 <= k < |inputs| :: rows[k] == net.scores(fed + inputs[..k + 1])
      ensures forall i | 0 <= i < |cache| ::
        cache[i].State() == Fed(net.layers[i], Clean(Canonical(net, i, fed)),
                                net.entries(i, Contents(net, fed), inputs), confirmed, armed)
    {
      var contents := seq(|cache|, i requires 0 <= i < |cache| reads cache => cache[i].content);
      assert contents == Contents(net, fed);
      rows := net.rows(contents, inputs);
      hidden := net.hidden(contents, inputs);
      for i := 0 to |cache|
        invariant forall j | 0 <= j < i ::
          cache[j].State() == Fed(net.layers[j], Clean(Canonical(net, j, fed)),
                                  net.entries(j, contents, inputs), confirmed, armed)
        invariant forall j | i <= j < |cache| :: cache[j].State() == Clean(Canonical(net, j, fed))
      {
        cache[i].Feed(net.entries(i, contents, inputs), confirmed, armed);
      }
    }

    /** Feed one token for good. */
    method Append(t: Token, ghost fed: seq<Token>) returns (row: Scores, hidden: Hidden)
      requires WellFormed() && LayersHold(net, cache, fed)
      modifies cache
      ensures row == net.scores(fed + [t]) && LayersHold(net, cache, fed + [t])
      ensures net.hidden(Contents(net, fed), [t]) == [hidden]
    {
      var rows, hiddens := Forward([t], 0, false, fed);
      assert [t][..1] == [t];
      forall i | 0 <= i < |cache|
        ensures cache[i].State() == Clean(Canonical(net, i, fed + [t]))
      {
        FeedOne(net, i, fed, t);
      }
      return rows[0], hiddens[0];
    }

    /** One call of the draft head and one draw from its scores. */
    method StepHead(calls: seq<HeadCall>, hidden: Hidden, next: Token, previous: seq<Token>)
      returns (newCalls: seq<HeadCall>, token: Token, logprobs: Scores, accept: Weights)
      requires WellFormed()
      modifies `draws
      ensures newCalls == calls + [HeadCall(hidden, next)]
      ensures logprobs == Processed(net, previous + [next], net.head(newCalls))
      ensures token == net.sample(logprobs, old(draws)) && draws == old(draws) + 1
      ensures token < net.vocabulary
      ensures accept == net.filtered(logprobs)
      ensures |accept| == net.vocabulary && Distribution(accept)
    {
      newCalls := calls + [HeadCall(hidden, next)];
      logprobs := Processed(net, previous + [next], net.head(newCalls));
      token := Sample(logprobs);
      accept := net.filtered(logprobs);
    }

    /** Note the token for the processors, feed it for good, and score its successor. */
    method FeedConfirmed(t: Token, ghost fed: seq<Token>)
      returns (scores: Scores, hidden: Hidden, previous: seq<Token>)
      requires WellFormed() && Coherent(fed)
      modifies `context, cache
      ensures Coherent(fed + [t])
      ensures scores == TargetScores(net, fed + [t])
      ensures net.processors.Some? ==> previous == fed + [t]
      ensures net.hidden(Contents(net, fed), [t]) == [hidden]
    {
      hide LayersHold, Canonical, Lawful;
      previous := [];
      if net.processors.Some? {
        context := context + [t];
        previous := context;
      }
      var row;
      row, hidden := Append(t, fed);
      scores := Processed(net, previous, row);
    }

    /** The pending draft is the head's, drawn after everything cached and the next token to feed. */
    ghost predicate Drafted(fed: seq<Token>, draw: nat)
      requires mtp != null
      reads this, mtp
    {
      && mtp.draftLogprobs == HeadScores(net, fed + [mtp.nextMain], mtp.headCalls)
      && mtp.draftId == net.sample(mtp.draftLogprobs, draw) && mtp.draftAccept == net.filtered(mtp.draftLogprobs)
    }

    /** `_post_init`: the pending token is fed and emitted first, its successor second. */
    method PostInit()
      requires Valid() && mtp == null
      modifies `context, `draws, `mtp, cache
      ensures mtp != null && fresh(mtp) && FromCycles(mtp.queue) == 0
      ensures Filled(tokens + [nextToken.value])
      ensures var scores := TargetScores(net, tokens + [nextToken.value]);
        mtp.queue == [Queued(nextToken.value, nextLogprobs, Init, true),
                      Queued(net.sample(scores, old(draws)), scores, Init, false)]
      ensures mtp.headCalls == [HeadCall(RowOf(net, tokens, [nextToken.value], 0), mtp.queue[1].token)]
      ensures draws == old(draws) + 2 && Drafted(tokens + [nextToken.value], old(draws) + 1)
    {
      hide Lawful, Distribution, Canonical, TargetScores, LayersHold, Processed, HeadScores;
      var main := nextToken.value;
      var nextScores, hidden, previous := FeedConfirmed(main, tokens);
      var nextMain := Sample(nextScores);
      InitialState(main, nextMain, nextScores, hidden, previous);
    }

    /** Draft after the next token, and queue the two tokens known by now. */
    method InitialState(main: Token, nextMain: Token, nextScores: Scores, hidden: Hidden, previous: seq<Token>)
      requires WellFormed() && live && Coherent(tokens + [main])
      requires nextLogprobs == TargetScores(net, tokens) && nextScores == TargetScores(net, tokens + [main])
      requires net.processors.Some? ==> previous == tokens + [main]
      requires net.greedy ==> main == PlainToken(net, tokens) && nextMain == net.argmax(nextScores)
      modifies `draws, `mtp
      ensures mtp != null && fresh(mtp) && Filled(tokens + [main])
      ensures mtp.queue == [Queued(main, nextLogprobs, Init, true), Queued(nextMain, nextScores, Init, false)]
      ensures mtp.headCalls == [HeadCall(hidden, nextMain)]
      ensures draws == old(draws) + 1 && Drafted(tokens + [main], old(draws))
    {
      hide Lawful, Distribution, Canonical, TargetScores, LayersHold;
      var calls, draft, draftLogprobs, draftAccept := StepHead([], hidden, nextMain, previous);
      assert calls == [HeadCall(hidden, nextMain)];
      mtp := new MtpState(nextMain, calls, draft, draftLogprobs, draftAccept);
      mtp.queue := [Queued(main, nextLogprobs, Init, true), Queued(nextMain, nextScores, Init, false)];
    }

    ghost predicate Verified(fed: seq<Token>, main: Token, draft: Token)
      requires WellFormed()
      reads this, cache
    {
      LayersVerified(net, cache, fed, main, draft) && (net.processors.Some? ==> context == fed + [main] + [draft])
    }

    method VerifyPass(main: Token, draft: Token, ghost fed: seq<Token>)
      returns (verify: Scores, bonus: Scores, hidden: seq<Hidden>, previousMain: seq<Token>, previousDraft: seq<Token>)
      requires WellFormed() && Coherent(fed)
      modifies `context, cache
      ensures Verified(fed, main, draft) && |hidden| == 2 && hidden == net.hidden(Contents(net, fed), [main, draft])
      ensures net.processors.Some? ==> previousMain == fed + [main] && previousDraft == fed + [main] + [draft]
      ensures verify == TargetScores(net, fed + [main])
      ensures bonus == TargetScores(net, fed + [main] + [draft])
    {
      previousMain, previousDraft := [], [];
      if net.processors.Some? {
        context := context + [main];
        previousMain := context;
        context := context + [draft];
        previousDraft := context;
      }
      var rows;
      rows, hidden := Forward([main, draft], 1, true, fed);
      assert [main, draft][..1] == [main] && [main, draft][..2] == [main, draft];
      assert fed + [main, draft] == fed + [main] + [draft];
      verify := Processed(net, previousMain, rows[0]);
      bonus := Processed(net, previousDraft, rows[1]);
    }

    /** The draft was accepted: its cache rows stay. */
    method KeepDraft(ghost fed: seq<Token>, ghost main: Token, ghost draft: Token)
      requires WellFormed() && Verified(fed, main, draft)
      modifies cache
      ensures Coherent(fed + [main] + [draft])
    {
      forall i | 0 <= i < |cache|
        ensures cache[i].content == Canonical(net, i, fed + [main] + [draft])
      {
        FeedTwo(net, i, fed, main, draft);
      }
      ClearRollback(cache, seq(|cache|, _ => []));
    }

    /** The draft was refused: its cache rows and its place in the token buffer go. */
    method DropDraft(ghost fed: seq<Token>, ghost main: Token, ghost draft: Token) returns (restored: bool)
      requires WellFormed() && Verified(fed, main, draft)
      modifies `context, cache
      ensures restored
      ensures Coherent(fed + [main])
    {
      ghost var was := States(cache);
      forall i | 0 <= i < |cache|
        ensures Restorable(net.layers[i], was[i])
        ensures Restored(net.layers[i], was[i]) == (Clean(Canonical(net, i, fed + [main])), true)
      {
        FeedTwo(net, i, fed, main, draft);
      }
      assert AllRestorable(Specs(cache), was);
      CompletedAt(Specs(cache), was, |cache|);
      restored := RestoreAfterRejection(cache);
      if net.processors.Some? {
        assert context[..|context| - 1] == fed + [main];
        context := context[..|context| - 1];
      }
    }

    /** The greedy or the p/q test of the pending draft. */
    method Judge(verify: Scores) returns (accepted: bool)
      requires WellFormed() && mtp != null && mtp.draftId < net.vocabulary == |mtp.draftAccept|
      modifies `draws
      ensures (accepted, draws - old(draws)) == Verdict(net, verify, mtp.draftAccept, mtp.draftId, old(draws))
    {
      if net.greedy {
        accepted := net.argmax(verify) == mtp.draftId;
      } else {
        var probability := AcceptanceProbability(net.filtered(verify), mtp.draftAccept, mtp.draftId);
        if probability >= 1.0 {
          accepted := true;
        } else {
          accepted := net.uniform(draws) < probability;
          draws := draws + 1;
        }
      }
    }

    /** The token that replaces a refused draft. */
    method Replacement(verify: Scores) returns (t: Token)
      requires WellFormed() && mtp != null && |mtp.draftAccept| == net.vocabulary
      modifies `draws
      ensures (t, draws - old(draws)) == ReplacementFor(net, verify, mtp.draftAccept, old(draws))
    {
      if net.greedy {
        t := net.argmax(verify);
      } else {
        t := net.categorical(ResidualProbabilities(net.filtered(verify), mtp.draftAccept), draws);
        draws := draws + 1;
      }
    }

    /** Queue the accepted draft and the bonus token, and draft again after them. */
    method QueueDraftAndBonus(bonus: Token, bonusScores: Scores, hidden: Hidden, previous: seq<Token>)
      requires WellFormed() && live && mtp != null
      requires mtp.draftId < net.vocabulary && Coherent(tokens + [mtp.draftId])
      requires bonusScores == TargetScores(net, tokens + [mtp.draftId])
      requires net.processors.Some? ==> previous == tokens + [mtp.draftId]
      requires net.greedy ==> mtp.draftId == PlainToken(net, tokens) && bonus == net.argmax(bonusScores)
      modifies `draws, mtp
      ensures mtp == old(mtp) && Filled(tokens + [old(mtp.draftId)])
      ensures mtp.queue == [Queued(old(mtp.draftId), old(mtp.draftLogprobs), Draft, true),
                            Queued(bonus, bonusScores, Bonus, false)]
      ensures mtp.headCalls == old(mtp.headCalls) + [HeadCall(hidden, bonus)] && draws == old(draws) + 1
      ensures Drafted(tokens + [old(mtp.draftId)], old(draws))
    {
      hide Lawful, Distribution, Canonical, TargetScores;
      var draft, draftLogprobs := mtp.draftId, mtp.draftLogprobs;
      var calls, next, logprobs, accept := StepHead(mtp.headCalls, hidden, bonus, previous);
      mtp.queue := [Queued(draft, draftLogprobs, Source.Draft, true), Queued(bonus, bonusScores, Bonus, false)];
      mtp.nextMain, mtp.headCalls := bonus, calls;
      mtp.draftId, mtp.draftLogprobs, mtp.draftAccept := next, logprobs, accept;
    }

    /** Queue the replacement of a refused draft, and draft again after it. */
    method QueueReplacement(emitted: Token, scores: Scores, hidden: Hidden, previous: seq<Token>)
      requires WellFormed() && live && mtp != null
      requires Coherent(tokens)
      requires scores == TargetScores(net, tokens)
      requires net.processors.Some? ==> previous == tokens
      requires net.greedy ==> emitted == net.argmax(scores)
      modifies `draws, mtp
      ensures mtp == old(mtp) && Filled(tokens)
      ensures mtp.queue == [Queued(emitted, scores, Verify, false)]
      ensures mtp.headCalls == old(mtp.headCalls) + [HeadCall(hidden, emitted)] && draws == old(draws) + 1
      ensures Drafted(tokens, old(draws))
    {
      hide Lawful, Distribution, Canonical, TargetScores;
      var calls, next, logprobs, accept := StepHead(mtp.headCalls, hidden, emitted, previous);
      mtp.queue := [Queued(emitted, scores, Verify, false)];
      mtp.nextMain, mtp.headCalls := emitted, calls;
      mtp.draftId, mtp.draftLogprobs, mtp.draftAccept := next, logprobs, accept;
    }

    /** The cycle's last part when the draft was accepted. */
    method AcceptDraft(bonus: Token, bonusScores: Scores, hidden: Hidden, previous: seq<Token>, ghost before: seq<Token>)
      requires WellFormed() && live && mtp != null && tokens != [] && before == tokens[..|tokens| - 1]
      requires mtp.draftId < net.vocabulary && Verified(before, tokens[|tokens| - 1], mtp.draftId)
      requires bonusScores == TargetScores(net, tokens + [mtp.draftId])
      requires net.processors.Some? ==> previous == tokens + [mtp.draftId]
      requires net.greedy ==> mtp.draftId == PlainToken(net, tokens) && bonus == net.argmax(bonusScores)
      modifies `draws, cache, mtp
      ensures mtp == old(mtp) && Filled(tokens + [old(mtp.draftId)])
      ensures mtp.queue == [Queued(old(mtp.draftId), old(mtp.draftLogprobs), Draft, true),
                            Queued(bonus, bonusScores, Bonus, false)]
      ensures mtp.headCalls == old(mtp.headCalls) + [HeadCall(hidden, bonus)] && draws == old(draws) + 1
      ensures Drafted(tokens + [old(mtp.draftId)], old(draws))
    {
      hide Lawful, Distribution, Canonical, TargetScores, LayersHold, LayersVerified, PlainToken, IsPlain, IsScored;
      KeepDraft(before, tokens[|tokens| - 1], mtp.draftId);
      assert before + [tokens[|tokens| - 1]] == tokens;
      QueueDraftAndBonus(bonus, bonusScores, hidden, previous);
    }

    /** The cycle's last part when the draft was refused. */
    method RefuseDraft(verify: Scores, hidden: Hidden, previous: seq<Token>, ghost before: seq<Token>)
      requires WellFormed() && live && mtp != null && tokens != [] && before == tokens[..|tokens| - 1]
      requires |mtp.draftAccept| == net.vocabulary && Verified(before, tokens[|tokens| - 1], mtp.draftId)
      requires verify == TargetScores(net, tokens)
      requires net.processors.Some? ==> previous == tokens
      modifies `context, `draws, cache, mtp
      ensures mtp == old(mtp) && Filled(tokens)
      ensures var (token, used) := ReplacementFor(net, verify, old(mtp.draftAccept), old(draws));
        && mtp.queue == [Queued(token, verify, Verify, false)]
        && mtp.headCalls == old(mtp.headCalls) + [HeadCall(hidden, token)] && draws == old(draws) + used + 1
        && Drafted(tokens, old(draws) + used)
    {
      hide Lawful, Distribution, Canonical, TargetScores, LayersHold, LayersVerified, ReplacementFor;
      var restored := DropDraft(before, tokens[|tokens| - 1], mtp.draftId);
      assert restored;
      assert before + [tokens[|tokens| - 1]] == tokens;
      FilteredFits(net, verify);
      GreedyReplacement(net, verify, mtp.draftAccept, draws);
      var emitted := Replacement(verify);
      QueueReplacement(emitted, verify, hidden, previous);
    }

    /** What the pending state makes a verify cycle do. */
    ghost function Pending(): (c: Cycle)
      requires Valid() && mtp != null && mtp.queue == []
      reads this, cache, mtp
      ensures c.queue != []
    {
      CycleOf(net, tokens[..|tokens| - 1], mtp.nextMain, mtp.draftId, mtp.draftLogprobs, mtp.draftAccept, draws)
    }

    /** The tokens about to be emitted. */
    ghost function Due(): (q: seq<Queued>)
      requires Valid() && mtp != null
      reads this, cache, mtp
      ensures q != []
    {
      if mtp.queue == [] then Pending().queue else mtp.queue
    }

    /** The head calls and the draws used once the tokens due are queued. */
    ghost function CallsAndDraws(): (seq<HeadCall>, nat)
      requires Valid() && mtp != null
      reads this, cache, mtp
    {
      if mtp.queue == [] then (mtp.headCalls + [Pending().call], Pending().draws + 1) else (mtp.headCalls, draws)
    }

    /** The head calls made so far. */
    ghost function Calls(): seq<HeadCall>
      reads this, mtp
    {
      if mtp == null then [] else mtp.headCalls
    }

    lemma DueIsReported()
      requires Valid() && mtp != null
      ensures Reported(net, tokens, mtp.headCalls, Due()[0].source.Draft?, Due()[0].logprobs)
    {
      hide Lawful, Distribution, Canonical, TargetScores, Processed, Verdict, ReplacementFor;
      if mtp.queue == [] {
        assert tokens[..|tokens| - 1] + [mtp.nextMain] == tokens;
        PendingScores(net, tokens[..|tokens| - 1], mtp.nextMain, mtp.draftId, mtp.draftLogprobs, mtp.draftAccept, draws);
      }
    }

    lemma PendingIsNext()
      requires Valid() && mtp != null && mtp.queue == []
      ensures draws > 0 && Pending() == NextCycle(net, tokens, mtp.headCalls, draws - 1)
    {
      hide Lawful, Distribution, Canonical, TargetScores, Processed, CycleOf;
      assert tokens[..|tokens| - 1] + [mtp.nextMain] == tokens;
      assert tokens[|tokens| - 1] == (tokens[..|tokens| - 1] + [mtp.nextMain])[|tokens| - 1];
    }

    /** The next response makes the progress its source calls for. */
    lemma DueMakesProgress()
      requires Valid() && mtp != null
      ensures CallsAndDraws() == Progressed(net, tokens, (mtp.headCalls, draws), Due()[0].token, Some(Due()[0].source))
    {
      hide Lawful, Distribution, Canonical, TargetScores, Processed, CycleOf, NextCycle;
      if mtp.queue == [] {
        PendingIsNext();
        PendingSource(net, tokens[..|tokens| - 1], mtp.nextMain, mtp.draftId, mtp.draftLogprobs, mtp.draftAccept, draws);
      }
    }

    /** The cycle's first part: feed the confirmed token and the draft, and judge the draft. */
    method VerifyDraft(ghost before: seq<Token>)
      returns (verify: Scores, bonusScores: Scores, bonus: Token, accepted: bool,
               hidden: seq<Hidden>, previousMain: seq<Token>, previousDraft: seq<Token>)
      requires Valid() && mtp != null && mtp.queue == [] && before == tokens[..|tokens| - 1]
      modifies `context, `draws, cache, telemetry, mtp`lastUncached
      ensures Verified(before, tokens[|tokens| - 1], mtp.draftId)
      ensures |hidden| == 2 && hidden == net.hidden(Contents(net, before), [mtp.nextMain, mtp.draftId])
      ensures net.processors.Some? ==> previousMain == tokens && previousDraft == tokens + [mtp.draftId]
      ensures verify == TargetScores(net, tokens) && bonusScores == TargetScores(net, tokens + [mtp.draftId])
      ensures bonus == net.sample(bonusScores, old(draws)) && (net.greedy ==> bonus == net.argmax(bonusScores))
      ensures (accepted, draws - (old(draws) + 1)) == Verdict(net, verify, mtp.draftAccept, mtp.draftId, old(draws) + 1)
      ensures net.greedy && accepted ==> mtp.draftId == PlainToken(net, tokens)
      ensures telemetry.cycles == old(telemetry.cycles) + 1 && telemetry.proposed == old(telemetry.proposed) + 1
      ensures telemetry.emitted == old(telemetry.emitted) && telemetry.dropped == old(telemetry.dropped)
      ensures telemetry.accepted == old(telemetry.accepted) + if accepted then 1 else 0
    {
      hide Lawful, Distribution, Canonical, TargetScores, Verdict, LayersHold, LayersVerified, PlainToken, IsPlain, IsScored;
      var main, draft := mtp.nextMain, mtp.draftId;
      GreedyAcceptanceIsPlain(net, tokens, mtp.draftAccept, draft, draws + 1);
      assert before + [main] == tokens && main == tokens[|tokens| - 1];
      mtp.lastUncached := None;
      verify, bonusScores, hidden, previousMain, previousDraft := VerifyPass(main, draft, before);
      bonus := Sample(bonusScores);
      accepted := Judge(verify);
      telemetry.RecordProposal(accepted);
    }

    /**
      `_verify_cycle`: one two-token pass, then either the draft and a bonus token
      or the replacement of the draft is queued, and the next draft is made.
     */
    method VerifyCycle() returns (ghost fed: seq<Token>)
      requires Valid() && mtp != null && mtp.queue == []
      modifies `context, `draws, cache, telemetry, mtp
      ensures mtp == old(mtp) && Filled(fed)
      ensures mtp.queue == old(Pending().queue) && mtp.headCalls == old(mtp.headCalls) + [old(Pending().call)]
      ensures draws == old(Pending().draws) + 1 && Drafted(fed, old(Pending().draws))
      ensures fed == if old(Pending().accepted) then tokens + [old(mtp.draftId)] else tokens
      ensures telemetry.cycles == old(telemetry.cycles) + 1 && telemetry.proposed == old(telemetry.proposed) + 1
      ensures telemetry.emitted == old(telemetry.emitted) && telemetry.dropped == old(telemetry.dropped)
      ensures telemetry.accepted == old(telemetry.accepted) + if old(Pending().accepted) then 1 else 0
    {
      hide GenerationBatch.Filled, GenerationBatch.Drafted, GenerationBatch.Verified, Lawful, Distribution, Canonical,
        TargetScores, Verdict, ReplacementFor, PlainToken, LayersHold, LayersVerified;
      var draft := mtp.draftId;
      ghost var before := tokens[..|tokens| - 1];
      assert before + [mtp.nextMain] == tokens && before + [mtp.nextMain] + [draft] == tokens + [draft];
      var verify, bonusScores, bonus, accepted, hidden, previousMain, previousDraft := VerifyDraft(before);
      if accepted {
        AcceptDraft(bonus, bonusScores, hidden[1], previousDraft, before);
        fed := tokens + [draft];
      } else {
        RefuseDraft(verify, hidden[0], previousMain, before);
        fed := tokens;
      }
    }

    /** `_commit_last_uncached`: feed the last emitted token if the caches lack it. */
    method CommitLastUncached(ghost fed: seq<Token>)
      requires WellFormed() && mtp != null && States(cache) == CleanStates(net, fed)
      modifies cache, mtp`lastUncached
      ensures States(cache) == CleanStates(net, match old(mtp.lastUncached) case Some(t) => fed + [t] case None => fed)
    {
      if mtp.lastUncached.None? || cache == [] {
        return;
      }
      forall i | 0 <= i < |cache|
        ensures cache[i].State() == Clean(Canonical(net, i, fed))
      {
        assert States(cache)[i] == CleanStates(net, fed)[i];
      }
      var row, hidden := Append(mtp.lastUncached.value, fed);
      mtp.lastUncached := None;
    }

    /** What every response promises, whichever path produced it. */
    twostate predicate Emitted(r: Response)
      reads this, cache, mtp
    {
      && (View(), r.finish) == Appended(net, limit, old(View()), r.token)
      && (net.greedy ==> r.token == PlainToken(net, old(tokens)))
      && (r.source != Some(Source.Draft) ==> r.logprobs == TargetScores(net, old(tokens)))
      && (r.finish.None? ==> Valid())
      && (r.finish.Some? ==>
            && !live && mtp == null
            && r.allTokens == tokens
            && r.promptCache == CleanStates(net, tokens))
    }

    /** The first half of `_emit`: append the token, count it, advance the matcher. */
    method AppendToken(token: Token) returns (finish: Option<Finish>)
      modifies `tokens, `produced, `matcher
      ensures (View(), finish) == Appended(net, limit, old(View()), token)
    {
      tokens := tokens + [token];
      produced := produced + 1;
      finish := if produced >= limit then Some(Length) else None;
      var m := net.matchToken(matcher, token);
      matcher := m.next;
      if m.matched && m.stateGone {
        finish := Some(Stop);
      }
    }

    /** The caches as handed out with the last response of a request. */
    method ExtractCache() returns (s: seq<LayerState>)
      ensures s == States(cache)
    {
      s := seq(|cache|, i requires 0 <= i < |cache| reads cache =>
             LayerState(cache[i].content, cache[i].rollback, cache[i].undo));
    }

    /** `_mtp_next` once its queue is filled: pop a token and account for it. */
    method Pop(ghost fed: seq<Token>) returns (item: Queued)
      requires Filled(fed) && Balanced()
      modifies telemetry, mtp
      ensures mtp == old(mtp) && Balanced()
      ensures item == old(mtp.queue[0]) && mtp.queue == old(mtp.queue[1..])
      ensures mtp.nextMain == old(mtp.nextMain) && mtp.headCalls == old(mtp.headCalls) && mtp.draftId == old(mtp.draftId)
      ensures mtp.draftLogprobs == old(mtp.draftLogprobs) && mtp.draftAccept == old(mtp.draftAccept)
      ensures mtp.lastUncached == if item.cached then None else Some(item.token)
    {
      hide Lawful, Coherent, Distribution;
      item := mtp.queue[0];
      mtp.queue := mtp.queue[1..];
      if !item.source.Init? {
        telemetry.emitted := telemetry.emitted + 1;
      }
      mtp.lastUncached := if item.cached then None else Some(item.token);
    }

    /** The last half of `_emit` for a request that ends: complete the caches and hand them out. */
    method CloseRequest(item: Queued, ghost fed: seq<Token>) returns (promptCache: seq<LayerState>)
      requires WellFormed() && mtp != null && States(cache) == CleanStates(net, fed) && Balanced()
      requires mtp.lastUncached == if item.cached then None else Some(item.token)
      modifies `mtp, `live, cache, telemetry, mtp
      ensures !live && mtp == null && Balanced()
      ensures promptCache == CleanStates(net, if item.cached then fed else fed + [item.token])
    {
      if !item.cached {
        CommitLastUncached(fed);
      }
      promptCache := ExtractCache();
      telemetry.dropped := telemetry.dropped + FromCycles(mtp.queue);
      mtp := null;
      live := false;
    }

    /** `_mtp_next` once its queue is filled, with `_emit`. */
    method PopAndEmit(ghost fed: seq<Token>) returns (r: Response)
      requires Filled(fed) && Balanced()
      modifies this, cache, telemetry, mtp
      ensures Emitted(r) && Balanced()
      ensures r.token == old(mtp.queue[0].token) && r.logprobs == old(mtp.queue[0].logprobs)
      ensures r.source == Some(old(mtp.queue[0].source))
      ensures r.finish.None? ==> mtp == old(mtp) && mtp.queue == old(mtp.queue[1..]) && mtp.headCalls == old(mtp.headCalls)
      ensures draws == old(draws)
    {
      hide Lawful, Distribution, Canonical, TargetScores, LayersHold, QueueFits, HeadScores, PlainToken, FromCycles, Appended,
        Contents, CleanStates;
      PoppedFits(net, fed, mtp.nextMain, tokens, mtp.queue);
      ghost var was := tokens;
      AppendedIs(net, limit, View(), mtp.queue[0].token);
      var item := Pop(fed);
      var finish := AppendToken(item.token);
      r := Response(item.token, item.logprobs, Some(item.source), finish, [], []);
      if finish.Some? {
        HeldStates(net, cache, fed);
        var promptCache := CloseRequest(item, fed);
        r := r.(promptCache := promptCache, allTokens := tokens);
      } else {
        assert item.cached || tokens[..|tokens| - 1] == was;
      }
    }

    /** `_mtp_next`: run a verify cycle when the queue is empty, then emit one token. */
    method MtpNext() returns (r: Response)
      requires Valid() && mtp != null && Balanced()
      modifies this, cache, telemetry, mtp
      ensures Emitted(r) && Balanced()
      ensures r.finish.None? ==> mtp == old(mtp)
      ensures var next := old(Due()[0]); r.token == next.token && r.logprobs == next.logprobs && r.source == Some(next.source)
      ensures r.finish.None? ==> mtp.queue == old(Due()[1..])
      ensures r.finish.None? ==> (mtp.headCalls, draws) == old(CallsAndDraws())
      ensures r.finish.None? ==>
        (mtp.headCalls, draws) == Progressed(net, old(tokens), old((mtp.headCalls, draws)), r.token, r.source)
      ensures r.logprobs == TargetScores(net, old(tokens)) <==>
        r.source != Some(Draft) || HeadScores(net, old(tokens), old(mtp.headCalls)) == TargetScores(net, old(tokens))
      ensures Reported(net, old(tokens), old(Calls()), r.source == Some(Draft), r.logprobs)
    {
      hide Lawful, Distribution, Canonical, TargetScores, LayersHold, QueueFits, Verdict, ReplacementFor, Processed;
      DueIsReported();
      DueMakesProgress();
      ghost var due := Due()[0];
      TargetScoresReportedIff(net, tokens, mtp.headCalls, due.source.Draft?, due.logprobs);
      ghost var fed := tokens;
      if mtp.queue == [] {
        fed := VerifyCycle();
      }
      r := PopAndEmit(fed);
    }

    /** Plain decoding by one token: emit the pending one, feed it, sample the next. */
    method OriginalNext() returns (r: Response)
      requires Valid() && mtp == null && Balanced()
      modifies this, cache
      ensures Emitted(r) && Balanced() && mtp == null
      ensures r.token == old(nextToken.value) && r.source == None
      ensures nextToken == Some(net.sample(nextLogprobs, old(draws))) && draws == old(draws) + 1
      ensures nextLogprobs == TargetScores(net, tokens)
    {
      hide Lawful, Distribution, Canonical, TargetScores, LayersHold, Appended, CleanStates, Contents;
      AppendedIs(net, limit, View(), nextToken.value);
      var token, logprobs := nextToken.value, nextLogprobs;
      var scores, hidden, previous := FeedConfirmed(token, tokens);
      var next := Sample(scores);
      nextToken, nextLogprobs := Some(next), scores;
      var finish := AppendToken(token);
      r := Response(token, logprobs, None, finish, [], []);
      if finish.Some? {
        HeldStates(net, cache, tokens);
        var promptCache := ExtractCache();
        r := r.(promptCache := promptCache, allTokens := tokens);
        live := false;
      }
    }

    /** A decoding state left behind by another request is dropped with its queue. */
    method DropStaleState()
      requires mtp != null && Balanced()
      modifies `mtp, telemetry
      ensures mtp == null && Balanced()
    {
      telemetry.dropped := telemetry.dropped + FromCycles(mtp.queue);
      mtp := null;
    }

    /**
      The patched `next`: a state of another request is dropped; MTP is entered at any
      token boundary where it is safe, and then kept.
     */
    method Next(activationIsSafe: bool, sameRequest: bool) returns (r: Response)
      requires if mtp == null || sameRequest then Valid() else Ready()
      requires Balanced()
      modifies this, cache, telemetry, mtp
      ensures Emitted(r) && Balanced()
      ensures mtp == null || mtp == old(mtp) || fresh(mtp)
      ensures r.finish.None? && (old(mtp) == null || !sameRequest) ==> (mtp != null <==> activationIsSafe)
      ensures old(mtp) == null ==> r.token == old(nextToken.value) && r.source == if activationIsSafe then Some(Init) else None
      ensures r.finish.None? && old(mtp) == null && mtp != null ==> |mtp.queue| == 1
      ensures r.finish.None? && (old(mtp) == null || sameRequest) ==>
        (Calls(), draws) == Progressed(net, old(tokens), old((Calls(), draws)), r.token, r.source)
      ensures Reported(net, old(tokens), old(Calls()), r.source == Some(Draft), r.logprobs)
    {
      hide Lawful, Distribution, Canonical, TargetScores, LayersHold, QueueFits, Verdict, ReplacementFor, Processed;
      if mtp != null && !sameRequest {
        DropStaleState();
      }
      if mtp != null {
        r := MtpNext();
      } else if activationIsSafe {
        PostInit();
        r := PopAndEmit(tokens + [nextToken.value]);
      } else {
        r := OriginalNext();
      }
    }

    /** The patched `filter` removing the request: the caches end up holding all it emitted. */
    method Remove()
      requires Valid() && Balanced()
      modifies this, cache, telemetry, mtp
      ensures !live && mtp == null && Balanced() && tokens == old(tokens)
      ensures States(cache) == CleanStates(net, tokens)
    {
      hide Lawful, Distribution, Canonical, TargetScores;
      if mtp != null {
        ghost var fed := if mtp.queue == [] then tokens[..|tokens| - 1] else tokens;
        assert States(cache) == CleanStates(net, fed);
        telemetry.dropped := telemetry.dropped + FromCycles(mtp.queue);
        CommitLastUncached(fed);
        mtp := null;
      }
      live := false;
    }

    lemma IsLawful()
      requires Valid()
      ensures Lawful(net)
    {
      hide Lawful;
    }

    /** One more response of a run. */
    method DecodeOne(activationIsSafe: bool, ghost start: seq<Token>, ghost p: Progress, ghost before: seq<Response>)
      returns (r: Response)
      requires Valid() && Balanced() && tokens == start + TokensOf(before)
      requires Lawful(net) && (Calls(), draws) == RunProgress(net, start, p, before)
      requires forall k | 0 <= k < |before| :: ReportedAt(net, start, p, before, k)
      modifies this, cache, telemetry, mtp
      ensures Balanced() && tokens == start + TokensOf(before + [r])
      ensures forall k | 0 <= k <= |before| :: ReportedAt(net, start, p, before + [r], k)
      ensures net.greedy ==>
        PlainRun(net, limit, old(View())) == if r.finish.Some? then (View(), r.finish.value) else PlainRun(net, limit, View())
      ensures r.finish.None? ==>
        && Valid() && (Calls(), draws) == RunProgress(net, start, p, before + [r])
        && old(produced) < produced < limit
      ensures r.finish.Some? ==> r.allTokens == tokens && r.promptCache == CleanStates(net, tokens)
      ensures mtp == null || mtp == old(mtp) || fresh(mtp)
    {
      hide Lawful, Valid, Balanced, Calls, ReportedAt, Reported, Progressed, RunProgress, PlainRun, PlainToken, Appended;
      ghost var d := View();
      r := Next(activationIsSafe, true);
      OneMoreReported(net, start, p, before, r);
      StepOfPlainRun(net, limit, d, r.token, View(), r.finish);
      assert TokensOf(before + [r]) == TokensOf(before) + [r.token];
    }

    /**
      Drive a request to its end, with MTP allowed from whichever token boundaries
      `safe` says. Every response is one token further, a draft with the head's scores
      and every other one with the target's; the caches handed out hold the whole text;
      and a greedy request has the text, the finish reason and the last token of plain
      decoding.
     */
    method Decode(safe: nat -> bool) returns (responses: seq<Response>)
      requires Valid() && Balanced()
      modifies this, cache, telemetry, mtp
      ensures responses != [] && tokens == old(tokens) + TokensOf(responses)
      ensures forall k | 0 <= k < |responses| :: ReportedAt(net, old(tokens), old((Calls(), draws)), responses, k)
      ensures forall k | 0 <= k < |responses| :: responses[k].finish.Some? <==> k == |responses| - 1
      ensures var last := responses[|responses| - 1];
        && last.allTokens == tokens && last.promptCache == CleanStates(net, tokens)
        && (net.greedy ==> (View(), last.finish.value) == PlainRun(net, limit, old(View())))
      ensures Balanced()
    {
      hide Lawful, Valid, Balanced, Calls, ReportedAt, RunProgress, PlainRun;
      ghost var start, p := tokens, (Calls(), draws);
      IsLawful();
      NoProgress(net, start, p);
      var r := DecodeOne(safe(produced), start, p, []);
      responses := [r];
      assert [] + [r] == [r];
      while r.finish.None?
        invariant responses != [] && r == responses[|responses| - 1]
        invariant tokens == start + TokensOf(responses)
        invariant forall k | 0 <= k < |responses| :: ReportedAt(net, start, p, responses, k)
        invariant forall k | 0 <= k < |responses| - 1 :: responses[k].finish.None?
        invariant r.finish.None? ==>
          && Valid() && (net.greedy ==> PlainRun(net, limit, View()) == PlainRun(net, limit, old(View())))
          && (Calls(), draws) == RunProgress(net, start, p, responses)
        invariant r.finish.Some? ==>
          && (net.greedy ==> (View(), r.finish.value) == PlainRun(net, limit, old(View())))
          && r.allTokens == tokens && r.promptCache == CleanStates(net, tokens)
        invariant Balanced()
        invariant mtp == null || mtp == old(mtp) || fresh(mtp)
        decreases r.finish.None?, limit - produced
      {
        r := DecodeOne(safe(produced), start, p, responses);
        responses := responses + [r];
      }
    }
  }

  lemma StepOfPlainRun(net: Net, limit: int, d: Decoding, token: Token, next: Decoding, finish: Option<Finish>)
    requires (next, finish) == Appended(net, limit, d, token)
    ensures next.tokens == d.tokens + [token] && next.produced == d.produced + 1
    ensures finish.None? ==> next.produced < limit
    ensures token == PlainToken(net, d.tokens) ==>
      PlainRun(net, limit, d) == if finish.Some? then (next, finish.value) else PlainRun(net, limit, next)
  {
    hide PlainToken;
  }

  lemma NoProgress(net: Net, start: seq<Token>, p: Progress)
    requires Lawful(net)
    ensures RunProgress(net, start, p, []) == p && start + TokensOf([]) == start
  {
  }

  lemma OneMoreReported(net: Net, start: seq<Token>, p: Progress, responses: seq<Response>, r: Response)
    requires Lawful(net) && forall k | 0 <= k < |responses| :: ReportedAt(net, start, p, responses, k)
    requires Reported(net, start + TokensOf(responses), RunProgress(net, start, p, responses).0, r.source == Some(Draft), r.logprobs)
    ensures forall k | 0 <= k <= |responses| :: ReportedAt(net, start, p, responses + [r], k)
    ensures RunProgress(net, start, p, responses + [r])
         == Progressed(net, start + TokensOf(responses), RunProgress(net, start, p, responses), r.token, r.source)
  {
    hide Lawful, Reported, Progressed;
    assert (responses + [r])[..|responses|] == responses;
    forall k | 0 <= k <= |responses|
      ensures ReportedAt(net, start, p, responses + [r], k)
    {
      assert (responses + [r])[..k] == responses[..k];
      if k < |responses| {
        assert ReportedAt(net, start, p, responses, k);
      } else {
        assert responses[..k] == responses;
      }
    }
  }

  /**
    Over a whole run a response carries the target's scores exactly when it is no draft or
    the head, after the calls the run made so far, agrees with the target there; so all of
    them do exactly when the head agrees with the target on every draft that was accepted.
   */
  lemma RunCarriesTargetScoresIff(net: Net, start: seq<Token>, p: Progress, responses: seq<Response>)
    requires Lawful(net) && forall k | 0 <= k < |responses| :: ReportedAt(net, start, p, responses, k)
    ensures (forall k | 0 <= k < |responses| :: responses[k].logprobs == TargetScores(net, start + TokensOf(responses[..k])))
      <==> forall k | 0 <= k < |responses| && responses[k].source == Some(Draft) ::
             var context := start + TokensOf(responses[..k]);
             HeadScores(net, context, RunProgress(net, start, p, responses[..k]).0) == TargetScores(net, context)
  {
    hide Lawful, Reported, TargetScores, HeadScores, RunProgress;
    forall k | 0 <= k < |responses|
      ensures var context := start + TokensOf(responses[..k]);
        responses[k].logprobs == TargetScores(net, context) <==>
          || responses[k].source != Some(Draft)
          || HeadScores(net, context, RunProgress(net, start, p, responses[..k]).0) == TargetScores(net, context)
    {
      assert ReportedAt(net, start, p, responses, k);
      TargetScoresReportedIff(net, start + TokensOf(responses[..k]), RunProgress(net, start, p, responses[..k]).0,
                              responses[k].source == Some(Draft), responses[k].logprobs);
    }
  }

  lemma CountingFacts(tokens: seq<Token>, calls: seq<HeadCall>, m: Matcher, t: Token)
    ensures var net := CountingNet();
      && net.vocabulary == 1 && |net.layers| == 3 && !net.matchToken(m, t).matched
      && TargetScores(net, tokens) == |tokens| && HeadScores(net, tokens, calls) == 0
      && PlainToken(net, tokens) == 0 && net.sample(TargetScores(net, tokens), 0) == 0
  {
  }

  lemma CountingCycle(fed: seq<Token>, main: Token, draft: Token, draftLogprobs: Scores, q: Weights, draws: nat)
    requires Lawful(CountingNet()) && draft < CountingNet().vocabulary == |q|
    ensures var c := CycleOf(CountingNet(), fed, main, draft, draftLogprobs, q, draws);
      c.queue[0].source.Draft? && c.queue[0].logprobs == draftLogprobs
  {
    hide CausalLaw, Canonical;
  }

  /** The counting model's request after `n` of its ten tokens. */
  ghost predicate Counted(batch: GenerationBatch, n: nat)
    reads batch, batch.cache, batch.mtp, batch.telemetry
  {
    && batch.net == CountingNet() && batch.limit == 10 && n < 10
    && |batch.tokens| == batch.produced == n && batch.Valid() && batch.Balanced()
  }

  method CountAToken(batch: GenerationBatch)
    requires Counted(batch, 0) && batch.mtp == null
    modifies batch, batch.cache, batch.telemetry
    ensures Counted(batch, 1) && batch.mtp != null && fresh(batch.mtp) && |batch.mtp.queue| == 1
  {
    hide GenerationBatch.CallsAndDraws, CausalLaw, Canonical, CountingNet, Lawful, TargetScores, HeadScores, LayersHold, Distribution, Processed,
      PlainToken, QueueFits;
    CountingFacts([], [], batch.matcher, batch.nextToken.value);
    var r := batch.Next(true, true);
  }

  method CountAnother(batch: GenerationBatch)
    requires Counted(batch, 1) && batch.mtp != null && |batch.mtp.queue| == 1
    modifies batch, batch.cache, batch.telemetry, batch.mtp
    ensures Counted(batch, 2) && batch.mtp != null && batch.mtp == old(batch.mtp) && batch.mtp.queue == []
  {
    hide GenerationBatch.CallsAndDraws, CausalLaw, Canonical, CountingNet, Lawful, TargetScores, HeadScores, LayersHold, Distribution, Processed,
      PlainToken, QueueFits;
    CountingFacts([], [], batch.matcher, batch.mtp.queue[0].token);
    var r := batch.MtpNext();
  }

  lemma ADraftIsDue(batch: GenerationBatch)
    requires Counted(batch, 2) && batch.mtp != null && batch.mtp.queue == []
    ensures batch.Due()[0].source.Draft?
  {
    hide CausalLaw, Canonical, CountingNet, Lawful, TargetScores, HeadScores, LayersHold, Distribution, Processed, PlainToken;
    LawsCanBeMet();
    CountingFacts([], [], 0, 0);
    CountingCycle(batch.tokens[..1], batch.mtp.nextMain, batch.mtp.draftId, batch.mtp.draftLogprobs, batch.mtp.draftAccept,
                  batch.draws);
  }

  method CountADraft(batch: GenerationBatch) returns (r: Response)
    requires Counted(batch, 2) && batch.mtp != null && batch.mtp.queue == []
    modifies batch, batch.cache, batch.telemetry, batch.mtp
    ensures r.source == Some(Draft) && |batch.tokens| == 3 && batch.tokens[..2] == old(batch.tokens)
    ensures r.logprobs != TargetScores(batch.net, batch.tokens[..2])
  {
    hide GenerationBatch.CallsAndDraws, GenerationBatch.Pending, GenerationBatch.Due, CausalLaw, Canonical, CountingNet,
      Lawful, TargetScores, HeadScores, LayersHold, Distribution, Processed, PlainToken, QueueFits;
    ghost var before := batch.tokens;
    CountingFacts(before, batch.mtp.headCalls, 0, 0);
    ADraftIsDue(batch);
    r := batch.MtpNext();
    assert batch.tokens[..2] == before;
  }

  method StartCounting(cache: seq<LayerCache>) returns (batch: GenerationBatch)
    requires Distinct(cache) && |cache| == |CountingNet().layers|
    requires forall i | 0 <= i < |cache| ::
      cache[i].spec == CountingNet().layers[i] && cache[i].State() == Clean(Canonical(CountingNet(), i, []))
    ensures fresh(batch) && fresh(batch.telemetry) && batch.cache == cache && batch.mtp == null && Counted(batch, 0)
  {
    hide CausalLaw, Canonical, CountingNet, Lawful, TargetScores, HeadScores, LayersHold, Distribution, Processed;
    LawsCanBeMet();
    CountingFacts([], [], 0, 0);
    var telemetry := new Telemetry();
    batch := new GenerationBatch(CountingNet(), 10, cache, telemetry, [], 0, 0, 1);
  }

  /**
    A run that reports a draft with scores that are not the target's: after the counting
    model's first two tokens, the third is an accepted draft.
   */
  method ReportWrongScores(cache: seq<LayerCache>) returns (r: Response, batch: GenerationBatch)
    requires Distinct(cache) && |cache| == |CountingNet().layers|
    requires forall i | 0 <= i < |cache| ::
      cache[i].spec == CountingNet().layers[i] && cache[i].State() == Clean(Canonical(CountingNet(), i, []))
    modifies cache
    ensures batch.net == CountingNet() && |batch.tokens| == 3
    ensures r.source == Some(Draft) && r.logprobs != TargetScores(batch.net, batch.tokens[..2])
  {
    hide GenerationBatch.Valid, GenerationBatch.Balanced, CausalLaw, Canonical, CountingNet, Lawful, TargetScores, Distinct;
    batch := StartCounting(cache);
    CountAToken(batch);
    CountAnother(batch);
    r := CountADraft(batch);
  }
}
