/**
  What sampled decoding with drafts emits, in probability. The verify cycles of one
  request are unfolded into the tree of their random draws: the draft, the bonus token,
  the coin of the acceptance test, the replacement. Played with the draws of the random
  stream the tree does what the cycles do, and weighted with the chances of those draws
  it is the round whose losslessness `SpeculativeSampling` proves.
 */
module CycleDistribution {
  import opened Options
  import opened SpeculativeSampling
  import opened MtpGeneration

  /**
    A random experiment: a draw of the sampler from a row of scores, a draw from given
    weights, a coin, and at the leaves how the cycles went.
   */
  datatype Tree =
    | Done(head: Head)
    | Sampled(scores: Scores, branches: seq<Tree>)
    | Weighted(weights: Weights, branches: seq<Tree>)
    | Coin(chance: real, yes: Tree, no: Tree)

  /** One outcome, with the draws of the stream from the `n`th on. A draw names one of the branches. */
  function Play(net: Net, t: Tree, n: nat): (Head, nat) {
    match t
    case Done(head) => (head, n)
    case Sampled(scores, branches) =>
      var i := net.sample(scores, n);
      if i < |branches| then Play(net, branches[i], n + 1) else (Start, n)
    case Weighted(weights, branches) =>
      var i := net.categorical(weights, n);
      if i < |branches| then Play(net, branches[i], n + 1) else (Start, n)
    case Coin(chance, yes, no) =>
      if net.uniform(n) < chance then Play(net, yes, n + 1) else Play(net, no, n + 1)
  }

  function Dot(w: Weights, x: seq<real>): real {
    if w == [] || x == [] then 0.0 else w[0] * x[0] + Dot(w[1..], x[1..])
  }

  function Weighed(a: real, x: real, y: real): real {
    a * x + (1.0 - a) * y
  }

  /** How likely the experiment ends in the event, when every draw follows its weights. */
  function Chance(net: Net, t: Tree, event: Head -> bool): real {
    match t
    case Done(head) => if event(head) then 1.0 else 0.0
    case Sampled(scores, branches) =>
      Dot(net.filtered(scores), seq(|branches|, i requires 0 <= i < |branches| => Chance(net, branches[i], event)))
    case Weighted(weights, branches) =>
      Dot(weights, seq(|branches|, i requires 0 <= i < |branches| => Chance(net, branches[i], event)))
    case Coin(chance, yes, no) => Weighed(chance, Chance(net, yes, event), Chance(net, no, event))
  }

  // ----- a request from the first empty queue on

  /** A request: the text and the head calls when its first cycle begins. */
  datatype Session = Session(net: Net, text: seq<Token>, calls: seq<HeadCall>)
  {
    ghost predicate Valid() {
      Lawful(net) && text != []
    }
  }

  /** The text after the cycles of `head`. */
  function Text(s: Session, head: Head): (t: seq<Token>)
    ensures |t| >= |s.text| && t[..|s.text|] == s.text
  {
    match head
    case Start => s.text
    case Accepted(before, drafted, bonus) => Text(s, before) + [drafted] + [bonus]
    case Rejected(before, drafted, emitted) => Text(s, before) + [emitted]
  }

  /** What the model hands the draft head for the `k`th token of the pass over the last token and a draft. */
  function Row(net: Net, text: seq<Token>, draft: Token, k: nat): Hidden
    requires text != []
  {
    RowOf(net, text[..|text| - 1], [text[|text| - 1], draft], k)
  }

  function Calls(s: Session, head: Head): seq<HeadCall>
    requires s.text != []
  {
    match head
    case Start => s.calls
    case Accepted(before, drafted, bonus) => Calls(s, before) + [HeadCall(Row(s.net, Text(s, before), drafted, 1), bonus)]
    case Rejected(before, drafted, emitted) => Calls(s, before) + [HeadCall(Row(s.net, Text(s, before), drafted, 0), emitted)]
  }

  function DraftScores(s: Session, head: Head): Scores
    requires s.text != []
  {
    HeadScores(s.net, Text(s, head), Calls(s, head))
  }

  /** The weights plain sampling draws the token after `context` from. */
  ghost function Target(s: Session, context: seq<Token>): (w: Weights)
    requires s.Valid()
    ensures |w| == s.net.vocabulary && Distribution(w)
  {
    s.net.filtered(TargetScores(s.net, context))
  }

  ghost function Drafts(s: Session, head: Head): (w: Weights)
    requires s.Valid()
    ensures |w| == s.net.vocabulary && Distribution(w)
  {
    s.net.filtered(DraftScores(s, head))
  }

  ghost function Residual(s: Session, head: Head): (w: Weights)
    requires s.Valid()
    ensures |w| == s.net.vocabulary && Distribution(w)
  {
    ResidualProbabilities(Target(s, Text(s, head)), Drafts(s, head))
  }

  ghost function Acceptance(s: Session, head: Head, draft: Token): real
    requires s.Valid() && draft < s.net.vocabulary
  {
    AcceptanceProbability(Target(s, Text(s, head)), Drafts(s, head), draft)
  }

  /** The request as a target model and a draft head. */
  ghost function LanguageOf(s: Session): (l: Language)
    requires s.Valid()
    ensures WellFormed(l)
  {
    SpeculativeSampling.Language(s.net.vocabulary, (context: seq<Token>) => Target(s, context), (head: Head) => Drafts(s, head))
  }

  /** The random draws of `k` cycles after those of `head`. */
  ghost function Cycles(s: Session, head: Head, k: nat): Tree
    requires s.Valid()
    decreases k, 3
  {
    if k == 0 then Done(head)
    else Sampled(DraftScores(s, head),
                 seq(s.net.vocabulary, d requires 0 <= d < s.net.vocabulary => AfterDraft(s, head, d, k)))
  }

  /** The bonus token is drawn before the draft is judged. */
  ghost function AfterDraft(s: Session, head: Head, draft: Token, k: nat): Tree
    requires s.Valid() && draft < s.net.vocabulary && k > 0
    decreases k, 2
  {
    Sampled(TargetScores(s.net, Text(s, head) + [draft]),
            seq(s.net.vocabulary, b requires 0 <= b < s.net.vocabulary => AfterBonus(s, head, draft, b, k)))
  }

  ghost function AfterBonus(s: Session, head: Head, draft: Token, bonus: Token, k: nat): Tree
    requires s.Valid() && draft < s.net.vocabulary && k > 0
    decreases k, 1
  {
    var kept := Cycles(s, Accepted(head, draft, bonus), k - 1);
    if Acceptance(s, head, draft) >= 1.0 then kept
    else Coin(Acceptance(s, head, draft), kept, AfterRefusal(s, head, draft, k))
  }

  ghost function AfterRefusal(s: Session, head: Head, draft: Token, k: nat): Tree
    requires s.Valid() && k > 0
    decreases k, 0
  {
    Weighted(Residual(s, head),
             seq(s.net.vocabulary, y requires 0 <= y < s.net.vocabulary => Cycles(s, Rejected(head, draft, y), k - 1)))
  }

  /** The cycle after those of `head`, its draft made with the `n`th draw. */
  ghost function CycleAt(s: Session, head: Head, n: nat): (c: Cycle)
    requires s.Valid()
    ensures c.queue != []
  {
    NextCycle(s.net, Text(s, head), Calls(s, head), n)
  }

  ghost function After(s: Session, head: Head, n: nat): Head
    requires s.Valid()
  {
    var drafted, c := s.net.sample(DraftScores(s, head), n), CycleAt(s, head, n);
    if c.accepted then Accepted(head, drafted, c.queue[1].token) else Rejected(head, drafted, c.queue[0].token)
  }

  /** How `k` cycles go, and the number of draws used when the last of them makes its next draft. */
  ghost function Decoded(s: Session, head: Head, n: nat, k: nat): (Head, nat)
    requires s.Valid()
    decreases k
  {
    if k == 0 then (head, n) else Decoded(s, After(s, head, n), CycleAt(s, head, n).draws, k - 1)
  }

  /** A random draw from weights names one of them. */
  ghost predicate DrawsAreInRange(net: Net) {
    forall w: Weights, n: nat | w != [] :: net.categorical(w, n) < |w|
  }

  /** The laws asked of a sampling model can be met. */
  lemma SamplingLawsCanBeMet()
    ensures var net := CountingNet(false); Lawful(net) && DrawsAreInRange(net) && !net.greedy
  {
    hide CausalLaw;
    LawsCanBeMet(false);
  }

  /** What a cycle queues and the call it ends with are what `Head` keeps of it. */
  lemma HeadKeepsTheCycle(s: Session, head: Head, n: nat)
    requires s.Valid()
    ensures var c, after := CycleAt(s, head, n), After(s, head, n);
      && Text(s, after) == Text(s, head) + (if c.accepted then [c.queue[0].token, c.queue[1].token] else [c.queue[0].token])
      && Calls(s, after) == Calls(s, head) + [c.call]
  {
    hide Distribution, Contents, TargetScores, HeadScores, Verdict;
    var c := CycleAt(s, head, n);
    if c.accepted {
      assert Text(s, head) + [c.queue[0].token] + [c.queue[1].token] == Text(s, head) + [c.queue[0].token, c.queue[1].token];
    }
  }

  // ----- played with the random stream, the tree does what the cycles do

  lemma DraftPlayed(s: Session, head: Head, n: nat, k: nat)
    requires s.Valid() && k > 0
    ensures var draft := s.net.sample(DraftScores(s, head), n);
      && draft < s.net.vocabulary
      && Play(s.net, Cycles(s, head, k), n) == Play(s.net, AfterDraft(s, head, draft, k), n + 1)
  {
    hide Lawful, Distribution, TargetScores, HeadScores, Text, Drafts, Target, AfterDraft;
    SampleFits(s.net, DraftScores(s, head), n);
  }

  lemma BonusPlayed(s: Session, head: Head, draft: Token, n: nat, k: nat)
    requires s.Valid() && draft < s.net.vocabulary && k > 0
    ensures var bonus := s.net.sample(TargetScores(s.net, Text(s, head) + [draft]), n);
      && bonus < s.net.vocabulary
      && Play(s.net, AfterDraft(s, head, draft, k), n) == Play(s.net, AfterBonus(s, head, draft, bonus, k), n + 1)
  {
    hide Lawful, Distribution, TargetScores, HeadScores, Text, Drafts, Target, AfterBonus;
    SampleFits(s.net, TargetScores(s.net, Text(s, head) + [draft]), n);
  }

  lemma RefusalPlayed(s: Session, head: Head, draft: Token, n: nat, k: nat)
    requires s.Valid() && DrawsAreInRange(s.net) && k > 0 && s.net.vocabulary > 0
    ensures var emitted := s.net.categorical(Residual(s, head), n);
      && emitted < s.net.vocabulary
      && Play(s.net, AfterRefusal(s, head, draft, k), n) == Play(s.net, Cycles(s, Rejected(head, draft, emitted), k - 1), n + 1)
  {
    hide Lawful, Distribution, TargetScores, HeadScores, Text, Drafts, Target, ResidualProbabilities, Cycles;
  }

  lemma JudgementPlayed(s: Session, head: Head, draft: Token, bonus: Token, n: nat, k: nat)
    requires s.Valid() && !s.net.greedy && draft < s.net.vocabulary && k > 0
    ensures var (accepted, used) := Verdict(s.net, TargetScores(s.net, Text(s, head)), Drafts(s, head), draft, n);
      Play(s.net, AfterBonus(s, head, draft, bonus, k), n) ==
        if accepted then Play(s.net, Cycles(s, Accepted(head, draft, bonus), k - 1), n + used)
        else Play(s.net, AfterRefusal(s, head, draft, k), n + used)
  {
    hide Lawful, Distribution, TargetScores, HeadScores, Text, Drafts, AcceptanceProbability, Cycles, AfterRefusal;
    var d := Drafts(s, head);
  }

  /** One cycle draws what the first level of the tree draws. */
  lemma OneCyclePlayed(s: Session, head: Head, n: nat, k: nat)
    requires s.Valid() && DrawsAreInRange(s.net) && !s.net.greedy && k > 0
    ensures Play(s.net, Cycles(s, head, k), n) == Play(s.net, Cycles(s, After(s, head, n), k - 1), CycleAt(s, head, n).draws)
  {
    hide Distribution, Lawful, CycleOf, Play, DraftScores, Target, Drafts, Residual, Text, Cycles, AfterDraft, AfterBonus,
      AfterRefusal, CycleAt, After, Verdict;
    var draft := s.net.sample(DraftScores(s, head), n);
    DraftPlayed(s, head, n, k);
    BonusPlayed(s, head, draft, n + 1, k);
    var bonus := s.net.sample(TargetScores(s.net, Text(s, head) + [draft]), n + 1);
    JudgementPlayed(s, head, draft, bonus, n + 2, k);
    CycleInParts(s, head, n);
    FilteredFits(s.net, TargetScores(s.net, Text(s, head)));
    var (accepted, used) := Verdict(s.net, TargetScores(s.net, Text(s, head)), Drafts(s, head), draft, n + 2);
    if !accepted {
      RefusalPlayed(s, head, draft, n + 2 + used, k);
    }
  }

  lemma SampleFits(net: Net, scores: Scores, n: nat)
    requires Lawful(net)
    ensures net.sample(scores, n) < net.vocabulary
  {
    hide CausalLaw, Distribution;
  }

  lemma CycleInParts(s: Session, head: Head, n: nat)
    requires s.Valid() && !s.net.greedy
    ensures var draft := s.net.sample(DraftScores(s, head), n);
      var bonus := s.net.sample(TargetScores(s.net, Text(s, head) + [draft]), n + 1);
      && draft < s.net.vocabulary
      && var (accepted, used) := Verdict(s.net, TargetScores(s.net, Text(s, head)), Drafts(s, head), draft, n + 2);
      if accepted then After(s, head, n) == Accepted(head, draft, bonus) && CycleAt(s, head, n).draws == n + 2 + used
      else After(s, head, n) == Rejected(head, draft, s.net.categorical(Residual(s, head), n + 2 + used))
           && CycleAt(s, head, n).draws == n + 3 + used
  {
    hide Lawful, Distribution, TargetScores, HeadScores, Verdict, Contents, AcceptanceProbability, ResidualProbabilities,
      Calls, Text;
    var text := Text(s, head);
    assert text[..|text| - 1] + [text[|text| - 1]] == text;
    SampleFits(s.net, DraftScores(s, head), n);
    FilteredFits(s.net, TargetScores(s.net, text));
    FilteredFits(s.net, DraftScores(s, head));
  }

  /** Played with the random stream, the tree of `k` cycles ends where the cycles end. */
  lemma {:induction false} CyclesArePlayed(s: Session, head: Head, n: nat, k: nat)
    requires s.Valid() && DrawsAreInRange(s.net) && !s.net.greedy
    ensures Play(s.net, Cycles(s, head, k), n) == Decoded(s, head, n, k)
    decreases k
  {
    hide Lawful, DrawsAreInRange, Play, CycleOf, Distribution, TargetScores, HeadScores, Contents,
      AcceptanceProbability, ResidualProbabilities;
    if k == 0 {
      NothingPlayed(s, head, n);
    } else {
      OneCyclePlayed(s, head, n, k);
      CyclesArePlayed(s, After(s, head, n), CycleAt(s, head, n).draws, k - 1);
    }
  }

  lemma NothingPlayed(s: Session, head: Head, n: nat)
    requires s.Valid()
    ensures Play(s.net, Cycles(s, head, 0), n) == (head, n)
  {
  }

  // ----- a batch that is drafting goes through these cycles

  lemma {:induction false} DecodedOneMore(s: Session, head: Head, n: nat, k: nat)
    requires s.Valid()
    ensures var (mid, m) := Decoded(s, head, n, k);
      Decoded(s, head, n, k + 1) == (After(s, mid, m), CycleAt(s, mid, m).draws)
    decreases k
  {
    hide Lawful, After, CycleAt;
    if k > 0 {
      DecodedOneMore(s, After(s, head, n), CycleAt(s, head, n).draws, k - 1);
    }
  }

  function Tokens(queue: seq<Queued>): (t: seq<Token>)
    ensures |t| == |queue|
  {
    seq(|queue|, i requires 0 <= i < |queue| => queue[i].token)
  }

  /** What the batch emitted and queued is the text of `head`, its head calls are those of `head`. */
  ghost predicate Follows(s: Session, head: Head, batch: GenerationBatch)
    reads batch, batch.cache, batch.mtp
  {
    && s.Valid() && batch.net == s.net && batch.mtp != null && batch.Valid()
    && batch.tokens + Tokens(batch.mtp.queue) == Text(s, head)
    && batch.mtp.headCalls == Calls(s, head)
  }

  lemma PendingCycle(s: Session, head: Head, batch: GenerationBatch)
    requires Follows(s, head, batch) && batch.mtp.queue == []
    ensures batch.draws > 0 && batch.Pending() == CycleAt(s, head, batch.draws - 1)
  {
    hide Lawful, Distribution, LayersHold, CycleOf, TargetScores, NextCycle;
    assert batch.tokens + Tokens([]) == batch.tokens;
    batch.PendingIsNext();
  }

  lemma DraftWasDrawn(batch: GenerationBatch)
    requires batch.Valid() && batch.mtp != null
    ensures batch.draws > 0
  {
    hide Lawful, LayersHold, Distribution;
  }

  /** One token of a batch that drafts: with an empty queue the next cycle runs first. */
  method EmitOne(ghost s: Session, ghost head: Head, batch: GenerationBatch) returns (r: Response, ghost after: Head)
    requires Follows(s, head, batch) && batch.Balanced()
    modifies batch, batch.cache, batch.telemetry, batch.mtp
    ensures batch.Balanced() && (batch.mtp == null || batch.mtp == old(batch.mtp))
    ensures batch.tokens == old(batch.tokens) + [r.token] && batch.tokens <= Text(s, after)
    ensures batch.produced == old(batch.produced) + 1 && (batch.produced >= batch.limit ==> r.finish.Some?)
    ensures old(batch.draws) > 0 && after == if old(batch.mtp.queue == []) then After(s, head, old(batch.draws) - 1) else head
    ensures r.finish.None? ==>
      batch.draws == 1 + if old(batch.mtp.queue == []) then CycleAt(s, head, old(batch.draws) - 1).draws else old(batch.draws) - 1
    ensures r.finish.None? ==> Follows(s, after, batch)
  {
    hide GenerationBatch.Valid, GenerationBatch.Balanced, Lawful, TargetScores, HeadScores, PlainToken, Reported, Progressed,
      NextCycle, Appended, CleanStates, CycleAt, Text, Calls, After;
    DraftWasDrawn(batch);
    after := head;
    ghost var due := batch.Due();
    if batch.mtp.queue == [] {
      PendingCycle(s, head, batch);
      HeadKeepsTheCycle(s, head, batch.draws - 1);
      after := After(s, head, batch.draws - 1);
    }
    assert batch.tokens + Tokens(due) == Text(s, after);
    AppendedIs(batch.net, batch.limit, batch.View(), due[0].token);
    r := batch.MtpNext();
    assert Tokens(due) == [due[0].token] + Tokens(due[1..]);
  }

  /**
    A drafting batch driven to its end emits a beginning of what its cycles decode: of one
    outcome of the tree, if it samples.
   */
  method EmitAll(batch: GenerationBatch) returns (ghost s: Session, ghost k: nat)
    requires batch.Valid() && batch.mtp != null && batch.Balanced()
    modifies batch, batch.cache, batch.telemetry, batch.mtp
    ensures s == Session(batch.net, old(batch.tokens + Tokens(batch.mtp.queue)), old(batch.mtp.headCalls)) && s.Valid()
    ensures old(batch.draws) > 0 && old(batch.tokens) < batch.tokens <= Text(s, Decoded(s, Start, old(batch.draws) - 1, k).0)
    ensures !batch.net.greedy && DrawsAreInRange(batch.net) ==>
      batch.tokens <= Text(s, Play(batch.net, Cycles(s, Start, k), old(batch.draws) - 1).0)
  {
    hide Lawful, Distribution, LayersHold, TargetScores, HeadScores, QueueFits, CycleAt, Text, Calls, After, Play, Cycles, Decoded;
    s := Session(batch.net, batch.tokens + Tokens(batch.mtp.queue), batch.mtp.headCalls);
    k := 0;
    ghost var head, from := Start, batch.draws - 1;
    ghost var n := from;
    StartFollows(s, batch);
    var done := false;
    while !done
      invariant batch.mtp == null || batch.mtp == old(batch.mtp)
      invariant (head, n) == Decoded(s, Start, from, k)
      invariant batch.Balanced() && old(batch.tokens) <= batch.tokens && s.Valid()
      invariant !done ==> Follows(s, head, batch) && batch.draws == n + 1
      invariant done ==> old(batch.tokens) < batch.tokens <= Text(s, head)
      decreases !done, batch.limit - batch.produced
    {
      ghost var cycle := batch.mtp.queue == [];
      var r;
      ghost var after;
      r, after := EmitOne(s, head, batch);
      if cycle {
        DecodedOneMore(s, Start, from, k);
        n, k := CycleAt(s, head, n).draws, k + 1;
      }
      head := after;
      done := r.finish.Some?;
    }
    if !batch.net.greedy && DrawsAreInRange(batch.net) {
      CyclesArePlayed(s, Start, from, k);
    }
  }

  lemma StartFollows(s: Session, batch: GenerationBatch)
    requires batch.Valid() && batch.mtp != null
    requires s == Session(batch.net, batch.tokens + Tokens(batch.mtp.queue), batch.mtp.headCalls)
    ensures Follows(s, Start, batch) && batch.draws > 0
    ensures forall n: nat :: Decoded(s, Start, n, 0) == (Start, n)
  {
    hide Lawful, Distribution, LayersHold, TargetScores, HeadScores;
  }

  // ----- sums of products

  lemma {:induction false} DotPoint(w: Weights, x: seq<real>, at: nat)
    requires at < |w| == |x| && forall i | 0 <= i < |x| && i != at :: x[i] == 0.0
    ensures Dot(w, x) == w[at] * x[at]
  {
    if at == 0 {
      DotConstant(w[1..], x[1..], 0.0);
    } else {
      DotPoint(w[1..], x[1..], at - 1);
    }
  }

  lemma {:induction false} DotConstant(w: Weights, x: seq<real>, v: real)
    requires |w| == |x| && forall i | 0 <= i < |x| :: x[i] == v
    ensures Dot(w, x) == Sum(w) * v
  {
    if w != [] {
      DotConstant(w[1..], x[1..], v);
      Distribute(w[0], Sum(w[1..]), v);
    }
  }

  function Mixture(x: seq<real>, a: real, y: real): (m: seq<real>)
    ensures |m| == |x|
  {
    seq(|x|, i requires 0 <= i < |x| => Weighed(a, x[i], y))
  }

  lemma {:induction false} DotMixed(w: Weights, x: seq<real>, m: seq<real>, a: real, c: real)
    requires |w| == |x| == |m| && forall i | 0 <= i < |x| :: m[i] == a * x[i] + c
    ensures Dot(w, m) == a * Dot(w, x) + Sum(w) * c
  {
    if w != [] {
      DotMixed(w[1..], x[1..], m[1..], a, c);
      assert m[0] == a * x[0] + c;
      Mixed(w[0], x[0], a, c, Dot(w[1..], x[1..]), Sum(w[1..]));
    }
  }

  lemma Mixed(w: real, x: real, a: real, c: real, rest: real, sum: real)
    ensures w * (a * x + c) + (a * rest + sum * c) == a * (w * x + rest) + (w + sum) * c
  {
  }

  lemma DotOfMixture(w: Weights, x: seq<real>, a: real, y: real)
    requires |w| == |x| && Distribution(w)
    ensures Dot(w, Mixture(x, a, y)) == Weighed(a, Dot(w, x), y)
  {
    DotMixed(w, x, Mixture(x, a, y), a, (1.0 - a) * y);
  }

  lemma Certain(a: real, x: real, y: real)
    requires a == 1.0
    ensures Weighed(a, x, y) == x
  {
  }

  lemma EitherWay(a: real, x: real)
    ensures Weighed(a, x, x) == x
  {
  }

  // ----- one cycle, whatever follows

  /** Chances of the branches of a draw over the vocabulary. */
  ghost function KeptChances(s: Session, head: Head, draft: Token, k: nat, event: Head -> bool): (x: seq<real>)
    requires s.Valid() && draft < s.net.vocabulary && k > 0
    ensures |x| == s.net.vocabulary
  {
    seq(s.net.vocabulary, b requires 0 <= b < s.net.vocabulary =>
      Chance(s.net, Cycles(s, Accepted(head, draft, b), k - 1), event))
  }

  ghost function ReplacedChances(s: Session, head: Head, draft: Token, k: nat, event: Head -> bool): (x: seq<real>)
    requires s.Valid() && k > 0
    ensures |x| == s.net.vocabulary
  {
    seq(s.net.vocabulary, y requires 0 <= y < s.net.vocabulary =>
      Chance(s.net, Cycles(s, Rejected(head, draft, y), k - 1), event))
  }

  /** The chance of the event once `draft` was drawn: accepted and followed by a bonus token, or refused and replaced. */
  ghost function DraftChance(s: Session, head: Head, draft: Token, k: nat, event: Head -> bool): real
    requires s.Valid() && draft < s.net.vocabulary && k > 0
  {
    Weighed(Acceptance(s, head, draft), Dot(Target(s, Text(s, head) + [draft]), KeptChances(s, head, draft, k, event)),
            Dot(Residual(s, head), ReplacedChances(s, head, draft, k, event)))
  }

  ghost function DraftChances(s: Session, head: Head, k: nat, event: Head -> bool): (x: seq<real>)
    requires s.Valid() && k > 0
    ensures |x| == s.net.vocabulary
  {
    seq(s.net.vocabulary, d requires 0 <= d < s.net.vocabulary => DraftChance(s, head, d, k, event))
  }

  lemma DrawChance(net: Net, t: Tree, w: Weights, x: seq<real>, event: Head -> bool)
    requires (t.Sampled? && w == net.filtered(t.scores)) || (t.Weighted? && w == t.weights)
    requires |x| == |t.branches| && forall i | 0 <= i < |x| :: x[i] == Chance(net, t.branches[i], event)
    ensures Chance(net, t, event) == Dot(w, x)
  {
    hide Dot;
    assert seq(|t.branches|, i requires 0 <= i < |t.branches| => Chance(net, t.branches[i], event)) == x;
  }

  lemma RefusalSplits(s: Session, head: Head, draft: Token, k: nat, event: Head -> bool)
    requires s.Valid() && draft < s.net.vocabulary && k > 0
    ensures Chance(s.net, AfterRefusal(s, head, draft, k), event)
         == Dot(Residual(s, head), ReplacedChances(s, head, draft, k, event))
  {
    hide Lawful, Distribution, Dot, Chance, Text, Target, Drafts, Residual, Cycles;
    DrawChance(s.net, AfterRefusal(s, head, draft, k), Residual(s, head), ReplacedChances(s, head, draft, k, event), event);
  }

  lemma AcceptanceIsCapped(s: Session, head: Head, draft: Token)
    requires s.Valid() && draft < s.net.vocabulary
    ensures Acceptance(s, head, draft) <= 1.0
  {
    hide Lawful;
  }

  lemma BonusSplits(s: Session, head: Head, draft: Token, bonus: Token, k: nat, event: Head -> bool)
    requires s.Valid() && draft < s.net.vocabulary && bonus < s.net.vocabulary && k > 0
    ensures Chance(s.net, AfterBonus(s, head, draft, bonus, k), event)
         == Weighed(Acceptance(s, head, draft), KeptChances(s, head, draft, k, event)[bonus],
                    Dot(Residual(s, head), ReplacedChances(s, head, draft, k, event)))
  {
    hide Lawful, Distribution, Dot, Acceptance, Residual, Text, Target, Cycles, AfterRefusal, ReplacedChances, Weighed;
    RefusalSplits(s, head, draft, k, event);
    AcceptanceIsCapped(s, head, draft);
    if Acceptance(s, head, draft) >= 1.0 {
      Certain(Acceptance(s, head, draft), KeptChances(s, head, draft, k, event)[bonus],
              Dot(Residual(s, head), ReplacedChances(s, head, draft, k, event)));
    }
  }

  /** The bonus token is drawn whatever the verdict, and does not change the chance of a refusal. */
  lemma DraftSplits(s: Session, head: Head, draft: Token, k: nat, event: Head -> bool)
    requires s.Valid() && draft < s.net.vocabulary && k > 0
    ensures Chance(s.net, AfterDraft(s, head, draft, k), event) == DraftChance(s, head, draft, k, event)
  {
    hide Lawful, Distribution, Dot, Chance, Acceptance, Residual, Text, AfterBonus, KeptChances, ReplacedChances, Weighed;
    var w, kept := Target(s, Text(s, head) + [draft]), KeptChances(s, head, draft, k, event);
    var a, replaced := Acceptance(s, head, draft), Dot(Residual(s, head), ReplacedChances(s, head, draft, k, event));
    forall b | 0 <= b < s.net.vocabulary
      ensures Mixture(kept, a, replaced)[b] == Chance(s.net, AfterBonus(s, head, draft, b, k), event)
    {
      BonusSplits(s, head, draft, b, k, event);
    }
    DrawChance(s.net, AfterDraft(s, head, draft, k), w, Mixture(kept, a, replaced), event);
    DotOfMixture(w, kept, a, replaced);
  }

  /** The drafts are drawn from the head's weights. */
  lemma CycleSplits(s: Session, head: Head, k: nat, event: Head -> bool)
    requires s.Valid() && k > 0
    ensures Chance(s.net, Cycles(s, head, k), event)
         == Dot(Drafts(s, head), DraftChances(s, head, k, event))
  {
    hide Lawful, Distribution, Dot, Chance, AfterDraft, DraftChance, Text, DraftScores;
    var chances := DraftChances(s, head, k, event);
    forall d | 0 <= d < s.net.vocabulary
      ensures chances[d] == Chance(s.net, AfterDraft(s, head, d, k), event)
    {
      DraftSplits(s, head, d, k, event);
    }
    DrawChance(s.net, Cycles(s, head, k), Drafts(s, head), chances, event);
  }

  // ----- the cycles are the rounds of speculative decoding

  /** The round with the filtered scores of the target and of the draft head as its distributions. */
  ghost function RoundOf(s: Session): (r: Round)
    requires s.Valid()
    ensures r.vocabulary == s.net.vocabulary
  {
    VerifyRound(LanguageOf(s))
  }

  lemma RoundParts(s: Session, head: Head, context: seq<Token>, drafted: Token, emitted: Token)
    requires s.Valid()
    ensures var r, n := RoundOf(s), s.net.vocabulary;
      && r.target(context, emitted) == (if emitted < n then Target(s, context)[emitted] else 0.0)
      && r.accepted(head, Text(s, head), drafted) ==
           (if drafted < n then Drafts(s, head)[drafted] * Acceptance(s, head, drafted) else 0.0)
      && r.replaced(head, Text(s, head), drafted, emitted) ==
           (if drafted < n && emitted < n
            then Drafts(s, head)[drafted] * ((1.0 - Acceptance(s, head, drafted)) * Residual(s, head)[emitted]) else 0.0)
  {
    hide Lawful, Distribution, AcceptanceProbability, ResidualProbabilities, RejectedMass, Target, Drafts, Text;
    if drafted < s.net.vocabulary && emitted < s.net.vocabulary {
      RefusedMass(s, head, drafted);
      Regroup(Drafts(s, head)[drafted], 1.0 - Acceptance(s, head, drafted), Residual(s, head)[emitted]);
    }
  }

  lemma RefusedMass(s: Session, head: Head, drafted: Token)
    requires s.Valid() && drafted < s.net.vocabulary
    ensures RejectedMass(Target(s, Text(s, head)), Drafts(s, head))[drafted]
         == Drafts(s, head)[drafted] * (1.0 - Acceptance(s, head, drafted))
  {
    hide Lawful, Distribution, AcceptanceProbability, Target, Drafts, Text;
  }

  /** A draw that hits one value with some chance, and nothing otherwise. */
  lemma PointDraw(w: Weights, x: seq<real>, at: nat, v: real)
    requires |w| == |x| && Distribution(w)
    requires forall i | 0 <= i < |x| :: x[i] == if i == at then v else 0.0
    ensures Dot(w, x) == if at < |w| then w[at] * v else 0.0
  {
    if at < |w| {
      DotPoint(w, x, at);
    } else {
      DotConstant(w, x, 0.0);
    }
  }

  lemma EvenDraw(w: Weights, x: seq<real>, v: real)
    requires |w| == |x| && Distribution(w) && forall i | 0 <= i < |x| :: x[i] == v
    ensures Dot(w, x) == v
  {
    DotConstant(w, x, v);
  }

  /** The event of ending with exactly these cycles. */
  function Is(o: Head): Head -> bool {
    head => head == o
  }

  lemma LeafChance(s: Session, head: Head, event: Head -> bool)
    requires s.Valid()
    ensures Chance(s.net, Cycles(s, head, 0), event) == if event(head) then 1.0 else 0.0
  {
  }

  /** An event only one draft can lead to. */
  lemma OnlyFrom(s: Session, head: Head, k: nat, event: Head -> bool, drafted: Token, hit: real)
    requires s.Valid() && k > 0
    requires forall d | 0 <= d < s.net.vocabulary :: DraftChances(s, head, k, event)[d] == if d == drafted then hit else 0.0
    ensures Chance(s.net, Cycles(s, head, k), event) == if drafted < s.net.vocabulary then Drafts(s, head)[drafted] * hit else 0.0
  {
    hide Lawful, Distribution, Dot, Chance, DraftChances, Drafts, Cycles;
    CycleSplits(s, head, k, event);
    PointDraw(Drafts(s, head), DraftChances(s, head, k, event), drafted, hit);
  }

  lemma Regroup(x: real, y: real, z: real)
    ensures x * (y * z) == x * y * z
  {
  }

  /** One cycle accepts a draft and adds a bonus token exactly as often as the round does. */
  lemma AcceptedAsOften(s: Session, head: Head, drafted: Token, bonus: Token)
    requires s.Valid()
    ensures Chance(s.net, Cycles(s, head, 1), Is(Accepted(head, drafted, bonus)))
         == RoundOf(s).accepted(head, Text(s, head), drafted) * RoundOf(s).target(Text(s, head) + [drafted], bonus)
  {
    hide Lawful, Distribution, Dot, Chance, Acceptance, Residual, Target, Drafts, Text, RoundOf,
      DraftChances, Is, Cycles;
    var event, n := Is(Accepted(head, drafted, bonus)), s.net.vocabulary;
    var target := Target(s, Text(s, head) + [drafted]);
    var hit := if drafted < n && bonus < n then Acceptance(s, head, drafted) * target[bonus] else 0.0;
    forall d | 0 <= d < n
      ensures DraftChances(s, head, 1, event)[d] == if d == drafted then hit else 0.0
    {
      AcceptedAfterDraft(s, head, d, drafted, bonus);
    }
    OnlyFrom(s, head, 1, event, drafted, hit);
    RoundParts(s, head, Text(s, head) + [drafted], drafted, bonus);
    if drafted < n && bonus < n {
      Regroup(Drafts(s, head)[drafted], Acceptance(s, head, drafted), target[bonus]);
    }
  }

  lemma LeavesAfterDraft(s: Session, head: Head, d: Token, o: Head)
    requires s.Valid() && d < s.net.vocabulary
    ensures var kept, replaced := KeptChances(s, head, d, 1, Is(o)), ReplacedChances(s, head, d, 1, Is(o));
      forall i | 0 <= i < s.net.vocabulary ::
        && kept[i] == (if Accepted(head, d, i) == o then 1.0 else 0.0)
        && replaced[i] == (if Rejected(head, d, i) == o then 1.0 else 0.0)
  {
    hide Lawful, Distribution, Chance;
    forall i | 0 <= i < s.net.vocabulary
      ensures Chance(s.net, Cycles(s, Accepted(head, d, i), 0), Is(o)) == if Accepted(head, d, i) == o then 1.0 else 0.0
      ensures Chance(s.net, Cycles(s, Rejected(head, d, i), 0), Is(o)) == if Rejected(head, d, i) == o then 1.0 else 0.0
    {
      LeafChance(s, Accepted(head, d, i), Is(o));
      LeafChance(s, Rejected(head, d, i), Is(o));
    }
  }

  lemma AcceptedAfterDraft(s: Session, head: Head, d: Token, drafted: Token, bonus: Token)
    requires s.Valid() && d < s.net.vocabulary
    ensures DraftChances(s, head, 1, Is(Accepted(head, drafted, bonus)))[d]
         == if d == drafted && bonus < s.net.vocabulary then Acceptance(s, head, d) * Target(s, Text(s, head) + [d])[bonus] else 0.0
  {
    hide Lawful, Distribution, Dot, Chance, Acceptance, Residual, Target, Drafts, Text, Is,
      KeptChances, ReplacedChances, Cycles;
    var event, n := Is(Accepted(head, drafted, bonus)), s.net.vocabulary;
    var target := Target(s, Text(s, head) + [d]);
    var kept, replaced := KeptChances(s, head, d, 1, event), ReplacedChances(s, head, d, 1, event);
    LeavesAfterDraft(s, head, d, Accepted(head, drafted, bonus));
    EvenDraw(Residual(s, head), replaced, 0.0);
    if d == drafted {
      PointDraw(target, kept, bonus, 1.0);
    } else {
      EvenDraw(target, kept, 0.0);
    }
  }

  /** One cycle replaces a draft by a token exactly as often as the round does. */
  lemma ReplacedAsOften(s: Session, head: Head, drafted: Token, emitted: Token)
    requires s.Valid()
    ensures Chance(s.net, Cycles(s, head, 1), Is(Rejected(head, drafted, emitted)))
         == RoundOf(s).replaced(head, Text(s, head), drafted, emitted)
  {
    hide Lawful, Distribution, Dot, Chance, Acceptance, Residual, Target, Drafts, Text, RoundOf,
      DraftChances, Is, Cycles;
    var event, n := Is(Rejected(head, drafted, emitted)), s.net.vocabulary;
    var hit := if drafted < n && emitted < n then (1.0 - Acceptance(s, head, drafted)) * Residual(s, head)[emitted] else 0.0;
    forall d | 0 <= d < n
      ensures DraftChances(s, head, 1, event)[d] == if d == drafted then hit else 0.0
    {
      ReplacedAfterDraft(s, head, d, drafted, emitted);
    }
    OnlyFrom(s, head, 1, event, drafted, hit);
    RoundParts(s, head, Text(s, head), drafted, emitted);
  }

  lemma ReplacedAfterDraft(s: Session, head: Head, d: Token, drafted: Token, emitted: Token)
    requires s.Valid() && d < s.net.vocabulary
    ensures DraftChances(s, head, 1, Is(Rejected(head, drafted, emitted)))[d]
         == if d == drafted && emitted < s.net.vocabulary then (1.0 - Acceptance(s, head, d)) * Residual(s, head)[emitted] else 0.0
  {
    hide Lawful, Distribution, Dot, Chance, Acceptance, Residual, Target, Drafts, Text, Is,
      KeptChances, ReplacedChances, Cycles;
    var event, n := Is(Rejected(head, drafted, emitted)), s.net.vocabulary;
    var kept, replaced := KeptChances(s, head, d, 1, event), ReplacedChances(s, head, d, 1, event);
    LeavesAfterDraft(s, head, d, Rejected(head, drafted, emitted));
    EvenDraw(Target(s, Text(s, head) + [d]), kept, 0.0);
    if d == drafted {
      PointDraw(Residual(s, head), replaced, emitted, 1.0);
    } else {
      EvenDraw(Residual(s, head), replaced, 0.0);
    }
  }

  // ----- whole texts

  /** Whatever becomes of the draft. */
  lemma SameEitherWay(s: Session, head: Head, draft: Token, k: nat, event: Head -> bool, v: real)
    requires s.Valid() && draft < s.net.vocabulary && k > 0
    requires forall i | 0 <= i < s.net.vocabulary ::
      KeptChances(s, head, draft, k, event)[i] == v && ReplacedChances(s, head, draft, k, event)[i] == v
    ensures DraftChances(s, head, k, event)[draft] == v
  {
    hide Lawful, Distribution, Dot, Chance, Acceptance, Residual, Target, Text, KeptChances, ReplacedChances, Weighed;
    EvenDraw(Target(s, Text(s, head) + [draft]), KeptChances(s, head, draft, k, event), v);
    EvenDraw(Residual(s, head), ReplacedChances(s, head, draft, k, event), v);
    EitherWay(Acceptance(s, head, draft), v);
  }

  function StartsWith(s: Session, goal: seq<Token>): Head -> bool {
    head => goal <= Text(s, head)
  }

  /** Once the text has all of the goal, or a token that is not the goal's, the rest does not matter. */
  lemma {:induction false} Settled(s: Session, head: Head, k: nat, goal: seq<Token>)
    requires s.Valid() && (goal <= Text(s, head) || !(Text(s, head) <= goal))
    ensures Chance(s.net, Cycles(s, head, k), StartsWith(s, goal)) == if goal <= Text(s, head) then 1.0 else 0.0
    decreases k
  {
    hide Lawful, Distribution, Dot, Chance, Acceptance, Residual, Target, Drafts, DraftChances, Cycles;
    var event, n, v := StartsWith(s, goal), s.net.vocabulary, if goal <= Text(s, head) then 1.0 else 0.0;
    if k == 0 {
      LeafChance(s, head, event);
    } else {
      forall d | 0 <= d < n
        ensures DraftChances(s, head, k, event)[d] == v
      {
        forall i | 0 <= i < n
          ensures KeptChances(s, head, d, k, event)[i] == v && ReplacedChances(s, head, d, k, event)[i] == v
        {
          Settled(s, Accepted(head, d, i), k - 1, goal);
          Settled(s, Rejected(head, d, i), k - 1, goal);
        }
        SameEitherWay(s, head, d, k, event, v);
      }
      CycleSplits(s, head, k, event);
      EvenDraw(Drafts(s, head), DraftChances(s, head, k, event), v);
    }
  }

  lemma Extended(h: seq<Token>, ys: seq<Token>, t: Token, more: seq<Token>)
    requires ys != []
    ensures ys[0] == t ==> h + ys == h + [t] + ys[1..]
    ensures ys[0] != t ==> !(h + [t] + more <= h + ys) && !(h + ys <= h + [t] + more)
  {
    assert (h + ys)[|h|] == ys[0] && (h + [t] + more)[|h|] == t;
  }

  /** After an accepted draft that fits the goal only the bonus token and further cycles are left. */
  lemma {:induction false} KeptFits(s: Session, head: Head, draft: Token, bonus: Token, k: nat, ys: seq<Token>)
    requires s.Valid() && 0 < |ys| <= k
    ensures var r, h := RoundOf(s), Text(s, head);
      Chance(s.net, Cycles(s, Accepted(head, draft, bonus), k - 1), StartsWith(s, h + ys)) ==
        if draft != ys[0] then 0.0
        else if |ys| == 1 then 1.0
        else if bonus != ys[1] then 0.0
        else SpeculativeProbability(r, Accepted(head, ys[0], ys[1]), h + [ys[0]] + [ys[1]], ys[2..])
    decreases k, 0
  {
    hide Lawful, Distribution, Chance, Cycles, RoundOf, StartsWith, SpeculativeProbability, Target, Drafts;
    var h, o := Text(s, head), Accepted(head, draft, bonus);
    Extended(h, ys, draft, [bonus]);
    if draft != ys[0] || |ys| == 1 {
      assert Text(s, o) == h + [draft] + [bonus];
      Settled(s, o, k - 1, h + ys);
    } else {
      Extended(h + [draft], ys[1..], bonus, []);
      if bonus != ys[1] {
        assert h + [draft] + [bonus] + [] == Text(s, o);
        Settled(s, o, k - 1, h + ys);
      } else {
        assert ys[1..][1..] == ys[2..];
        CyclesAreRounds(s, o, k - 1, ys[2..]);
      }
    }
  }

  lemma {:induction false} ReplacedFits(s: Session, head: Head, draft: Token, emitted: Token, k: nat, ys: seq<Token>)
    requires s.Valid() && 0 < |ys| <= k
    ensures var r, h := RoundOf(s), Text(s, head);
      Chance(s.net, Cycles(s, Rejected(head, draft, emitted), k - 1), StartsWith(s, h + ys)) ==
        if emitted != ys[0] then 0.0 else SpeculativeProbability(r, Rejected(head, draft, ys[0]), h + [ys[0]], ys[1..])
    decreases k, 0
  {
    hide Lawful, Distribution, Chance, Cycles, RoundOf, StartsWith, SpeculativeProbability, Target, Drafts;
    var h, o := Text(s, head), Rejected(head, draft, emitted);
    Extended(h, ys, emitted, []);
    if emitted != ys[0] {
      assert h + [emitted] + [] == Text(s, o);
      Settled(s, o, k - 1, h + ys);
    } else {
      CyclesAreRounds(s, o, k - 1, ys[1..]);
    }
  }

  lemma {:induction false} BonusFits(s: Session, head: Head, draft: Token, k: nat, ys: seq<Token>)
    requires s.Valid() && 0 < |ys| <= k && draft < s.net.vocabulary
    ensures var h := Text(s, head);
      Dot(Target(s, h + [draft]), KeptChances(s, head, draft, k, StartsWith(s, h + ys)))
      == if draft == ys[0] then BonusProbability(RoundOf(s), head, h, ys) else 0.0
    decreases k, 1
  {
    hide Lawful, Distribution, Dot, Chance, Cycles, RoundOf, StartsWith, Target, SpeculativeProbability;
    var h := Text(s, head);
    var target, kept := Target(s, h + [draft]), KeptChances(s, head, draft, k, StartsWith(s, h + ys));
    forall b | 0 <= b < s.net.vocabulary
      ensures kept[b] == if draft != ys[0] then 0.0 else if |ys| == 1 then 1.0 else if b != ys[1] then 0.0
        else SpeculativeProbability(RoundOf(s), Accepted(head, ys[0], ys[1]), h + [ys[0]] + [ys[1]], ys[2..])
    {
      KeptFits(s, head, draft, b, k, ys);
    }
    if draft != ys[0] {
      EvenDraw(target, kept, 0.0);
    } else if |ys| == 1 {
      EvenDraw(target, kept, 1.0);
    } else {
      var r := RoundOf(s);
      var rest := SpeculativeProbability(r, Accepted(head, ys[0], ys[1]), h + [ys[0]] + [ys[1]], ys[2..]);
      PointDraw(target, kept, ys[1], rest);
      RoundParts(s, head, h + [draft], draft, ys[1]);
      assert BonusProbability(r, head, h, ys) == r.target(h + [draft], ys[1]) * rest;
    }
  }

  lemma {:induction false} ReplacementFits(s: Session, head: Head, draft: Token, k: nat, ys: seq<Token>)
    requires s.Valid() && 0 < |ys| <= k && draft < s.net.vocabulary
    ensures var h := Text(s, head);
      Dot(Residual(s, head), ReplacedChances(s, head, draft, k, StartsWith(s, h + ys)))
      == if ys[0] < s.net.vocabulary
         then Residual(s, head)[ys[0]] * SpeculativeProbability(RoundOf(s), Rejected(head, draft, ys[0]), h + [ys[0]], ys[1..])
         else 0.0
    decreases k, 1
  {
    hide Lawful, Distribution, Dot, Chance, Cycles, RoundOf, StartsWith, Residual, SpeculativeProbability;
    var h := Text(s, head);
    var replaced := ReplacedChances(s, head, draft, k, StartsWith(s, h + ys));
    var rest := SpeculativeProbability(RoundOf(s), Rejected(head, draft, ys[0]), h + [ys[0]], ys[1..]);
    forall y | 0 <= y < s.net.vocabulary
      ensures replaced[y] == if y == ys[0] then rest else 0.0
    {
      ReplacedFits(s, head, draft, y, k, ys);
    }
    PointDraw(Residual(s, head), replaced, ys[0], rest);
  }

  lemma Shares(q: real, a: real, b: real, t: real, rest: real)
    ensures q * (a * b + (1.0 - a) * (t * rest)) == q * a * b + q * ((1.0 - a) * t) * rest
  {
  }

  /** One draft's share of the round: accepted, or replaced. */
  ghost function Share(s: Session, head: Head, draft: Token, ys: seq<Token>): real
    requires s.Valid() && ys != []
  {
    var r, h := RoundOf(s), Text(s, head);
    (if draft == ys[0] then r.accepted(head, h, draft) * BonusProbability(r, head, h, ys) else 0.0)
    + r.replaced(head, h, draft, ys[0]) * SpeculativeProbability(r, Rejected(head, draft, ys[0]), h + [ys[0]], ys[1..])
  }

  lemma {:induction false} DraftHasItsShare(s: Session, head: Head, draft: Token, k: nat, ys: seq<Token>)
    requires s.Valid() && 0 < |ys| <= k && draft < s.net.vocabulary
    ensures Drafts(s, head)[draft] * DraftChances(s, head, k, StartsWith(s, Text(s, head) + ys))[draft]
         == Share(s, head, draft, ys)
    decreases k, 2
  {
    hide Lawful, Distribution, Dot, Chance, Cycles, RoundOf, StartsWith, Residual, Acceptance, Drafts, Target,
      KeptChances, ReplacedChances, SpeculativeProbability, BonusProbability;
    var r, h := RoundOf(s), Text(s, head);
    BonusFits(s, head, draft, k, ys);
    ReplacementFits(s, head, draft, k, ys);
    RoundParts(s, head, h, draft, ys[0]);
    var bonus := if draft == ys[0] then BonusProbability(r, head, h, ys) else 0.0;
    var t := if ys[0] < s.net.vocabulary then Residual(s, head)[ys[0]] else 0.0;
    var rest := SpeculativeProbability(r, Rejected(head, draft, ys[0]), h + [ys[0]], ys[1..]);
    Shares(Drafts(s, head)[draft], Acceptance(s, head, draft), bonus, t, rest);
  }

  lemma {:induction false} SharesAddUp(s: Session, head: Head, x: seq<real>, ys: seq<Token>, from: nat)
    requires s.Valid() && ys != [] && from <= |x| == s.net.vocabulary
    requires forall d | 0 <= d < |x| :: Drafts(s, head)[d] * x[d] == Share(s, head, d, ys)
    ensures var r, h := RoundOf(s), Text(s, head);
      Dot(Drafts(s, head)[from..], x[from..])
      == (if from <= ys[0] < |x| then r.accepted(head, h, ys[0]) * BonusProbability(r, head, h, ys) else 0.0)
         + ReplacedProbability(r, head, h, ys, from)
    decreases |x| - from
  {
    hide Lawful, Distribution, RoundOf, Drafts, SpeculativeProbability, BonusProbability;
    if from < |x| {
      assert Drafts(s, head)[from..][1..] == Drafts(s, head)[from + 1..] && x[from..][1..] == x[from + 1..];
      SharesAddUp(s, head, x, ys, from + 1);
    }
  }

  /** Over any number of cycles the chance of a text is that of the rounds. */
  lemma {:induction false} CyclesAreRounds(s: Session, head: Head, k: nat, ys: seq<Token>)
    requires s.Valid() && |ys| <= k
    ensures Chance(s.net, Cycles(s, head, k), StartsWith(s, Text(s, head) + ys))
         == SpeculativeProbability(RoundOf(s), head, Text(s, head), ys)
    decreases k, 3
  {
    hide Lawful, Distribution, Dot, Chance, Cycles, RoundOf, StartsWith, Drafts, DraftChances, Share, Text, BonusProbability,
      ReplacedProbability;
    if ys == [] {
      assert Text(s, head) + ys == Text(s, head);
      Settled(s, head, k, Text(s, head));
    } else {
      var event := StartsWith(s, Text(s, head) + ys);
      forall d | 0 <= d < s.net.vocabulary
        ensures Drafts(s, head)[d] * DraftChances(s, head, k, event)[d] == Share(s, head, d, ys)
      {
        DraftHasItsShare(s, head, d, k, ys);
      }
      CycleSplits(s, head, k, event);
      SharesAddUp(s, head, DraftChances(s, head, k, event), ys, 0);
      assert Drafts(s, head)[0..] == Drafts(s, head) && DraftChances(s, head, k, event)[0..] == DraftChances(s, head, k, event);
      RoundParts(s, head, Text(s, head), ys[0], ys[0]);
    }
  }

  /**
    What a sampled request emits: the cycles' draws, each following its weights, give every
    text the probability plain one-token sampling of the target gives it, whatever the draft
    head does.
   */
  lemma SampledTextIsPlainText(s: Session, head: Head, k: nat, ys: seq<Token>)
    requires s.Valid() && |ys| <= k
    ensures Chance(s.net, Cycles(s, head, k), StartsWith(s, Text(s, head) + ys))
         == PlainProbability(RoundOf(s), Text(s, head), ys)
  {
    CyclesAreRounds(s, head, k, ys);
    SpeculativeDecodingIsLossless(LanguageOf(s), head, Text(s, head), ys);
  }
}
