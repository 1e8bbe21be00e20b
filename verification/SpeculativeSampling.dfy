/**
  The accept/reject rule of depth-one speculative sampling and the residual
  distribution it falls back to, over exact real probabilities.

  The main result says that drafting from any distribution at all leaves the
  distribution of the emitted text exactly that of the target model, for every
  length of text and whatever the draft head remembers of earlier rounds.
 */
module SpeculativeSampling {

  type Token = nat

  /** One real weight per token of a finite vocabulary. */
  type Weights = seq<real>

  function Sum(w: Weights): real {
    if w == [] then 0.0 else w[0] + Sum(w[1..])
  }

  ghost predicate Distribution(w: Weights) {
    Sum(w) == 1.0 && forall i | 0 <= i < |w| :: w[i] >= 0.0
  }

  function Min(a: real, b: real): real { if a <= b then a else b }
  function Max(a: real, b: real): real { if a >= b then a else b }

  /**
    min(1, p/q). A token of draft weight zero has an infinite (or undefined)
    log ratio, and both are capped to one.
   */
  function AcceptanceProbability(target: Weights, draft: Weights, token: Token): real
    requires token < |target| == |draft|
  {
    if draft[token] <= 0.0 then 1.0 else Min(1.0, target[token] / draft[token])
  }

  function Excess(target: Weights, draft: Weights): Weights
    requires |target| == |draft|
  {
    seq(|target|, i requires 0 <= i < |target| => Max(target[i] - draft[i], 0.0))
  }

  function Scale(w: Weights, k: real): Weights {
    seq(|w|, i requires 0 <= i < |w| => w[i] * k)
  }

  /** Normalized max(p - q, 0), or p itself when that has no mass. */
  function ResidualProbabilities(target: Weights, draft: Weights): (r: Weights)
    requires |target| == |draft| && Distribution(target)
    ensures |r| == |target|
    ensures Distribution(r)
  {
    var residual := Excess(target, draft);
    SumNonNegative(residual);
    var distribution := if Sum(residual) > 0.0 then residual else target;
    SumScale(distribution, 1.0 / Sum(distribution));
    Scale(distribution, 1.0 / Sum(distribution))
  }

  /** Probability that a drafted token is turned down. */
  function RejectionProbability(target: Weights, draft: Weights): real
    requires |target| == |draft|
  {
    Sum(RejectedMass(target, draft))
  }

  function RejectedMass(target: Weights, draft: Weights): (r: Weights)
    requires |target| == |draft|
    ensures |r| == |target|
  {
    seq(|target|, i requires 0 <= i < |target| =>
      draft[i] * (1.0 - AcceptanceProbability(target, draft, i)))
  }

  /** Probability that one verify round puts `token` in the confirmed position. */
  function OutputProbability(target: Weights, draft: Weights, token: Token): real
    requires token < |target| == |draft| && Distribution(target)
  {
    draft[token] * AcceptanceProbability(target, draft, token)
    + RejectionProbability(target, draft) * ResidualProbabilities(target, draft)[token]
  }

  // ----- sums

  lemma SumNonNegative(w: Weights)
    requires forall i | 0 <= i < |w| :: w[i] >= 0.0
    ensures Sum(w) >= 0.0
    ensures Sum(w) == 0.0 ==> forall i | 0 <= i < |w| :: w[i] == 0.0
  {
    if w != [] {
      SumNonNegative(w[1..]);
      assert forall i | 1 <= i < |w| :: w[i] == w[1..][i - 1];
    }
  }

  lemma Distribute(a: real, b: real, t: real)
    ensures a * t + b * t == (a + b) * t
  {
  }

  lemma SumScale(w: Weights, k: real)
    ensures Sum(Scale(w, k)) == Sum(w) * k
  {
    if w != [] {
      SumScale(w[1..], k);
      forall i | 0 <= i < |w| - 1
        ensures Scale(w, k)[1..][i] == Scale(w[1..], k)[i]
      {
        assert w[1..][i] == w[i + 1];
      }
      assert Scale(w, k)[1..] == Scale(w[1..], k);
      Distribute(w[0], Sum(w[1..]), k);
    }
  }

  lemma SumPlus(a: Weights, b: Weights, c: Weights)
    requires |a| == |b| == |c|
    requires forall i | 0 <= i < |a| :: a[i] + b[i] == c[i]
    ensures Sum(a) + Sum(b) == Sum(c)
  {
    if a != [] {
      SumPlus(a[1..], b[1..], c[1..]);
    }
  }

  // ----- one round

  lemma RejectedMassIsDeficit(target: Weights, draft: Weights, i: nat)
    requires i < |target| == |draft|
    requires target[i] >= 0.0 && draft[i] >= 0.0
    ensures RejectedMass(target, draft)[i] == Max(draft[i] - target[i], 0.0)
    ensures draft[i] * AcceptanceProbability(target, draft, i) == Min(target[i], draft[i])
  {
    var p, q := target[i], draft[i];
    if q > 0.0 {
      assert q * (p / q) == p;
      if p <= q {
        assert p / q <= 1.0;
      } else {
        assert p / q > 1.0;
      }
    }
  }

  /** What rejection takes away is exactly what the residual adds back. */
  lemma RejectionIsExcessMass(target: Weights, draft: Weights)
    requires |target| == |draft| && Distribution(target) && Distribution(draft)
    ensures RejectionProbability(target, draft) == Sum(Excess(target, draft))
  {
    var larger := seq(|target|, i requires 0 <= i < |target| => Max(target[i], draft[i]));
    forall i | 0 <= i < |target|
      ensures RejectedMass(target, draft)[i] + target[i] == larger[i]
    {
      RejectedMassIsDeficit(target, draft, i);
    }
    SumPlus(RejectedMass(target, draft), target, larger);
    SumPlus(Excess(target, draft), draft, larger);
  }

  /** The zero-mass fallback is reached exactly when no draft can be rejected. */
  lemma FallbackOnlyWhenNeverRejected(target: Weights, draft: Weights)
    requires |target| == |draft| && Distribution(target) && Distribution(draft)
    ensures !(Sum(Excess(target, draft)) > 0.0) <==> RejectionProbability(target, draft) == 0.0
    ensures RejectionProbability(target, draft) == 0.0 <==> target == draft
  {
    RejectionIsExcessMass(target, draft);
    SumNonNegative(Excess(target, draft));
    if RejectionProbability(target, draft) == 0.0 {
      forall i | 0 <= i < |target|
        ensures RejectedMass(target, draft)[i] >= 0.0
      {
        RejectedMassIsDeficit(target, draft, i);
      }
      SumNonNegative(RejectedMass(target, draft));
      forall i | 0 <= i < |target|
        ensures target[i] == draft[i]
      {
        assert Excess(target, draft)[i] == 0.0;
        assert RejectedMass(target, draft)[i] == 0.0;
        RejectedMassIsDeficit(target, draft, i);
      }
    }
    if target == draft {
      forall i | 0 <= i < |target|
        ensures Excess(target, draft)[i] == 0.0
      {
      }
      SumScale(Excess(target, draft), 0.0);
      assert Scale(Excess(target, draft), 0.0) == Excess(target, draft);
    }
  }

  lemma ResidualShare(target: Weights, draft: Weights, token: Token)
    requires token < |target| == |draft| && Distribution(target)
    requires Sum(Excess(target, draft)) > 0.0
    ensures Sum(Excess(target, draft)) * ResidualProbabilities(target, draft)[token]
         == Max(target[token] - draft[token], 0.0)
  {
    hide ResidualProbabilities, Sum, Distribution;
    ResidualAt(target, draft, token);
    Cancel(Sum(Excess(target, draft)), Excess(target, draft)[token]);
  }

  lemma ResidualAt(target: Weights, draft: Weights, token: Token)
    requires token < |target| == |draft| && Distribution(target)
    requires Sum(Excess(target, draft)) > 0.0
    ensures ResidualProbabilities(target, draft)[token] == Excess(target, draft)[token] * (1.0 / Sum(Excess(target, draft)))
  {
    hide Sum, Distribution, Excess;
  }

  lemma Cancel(a: real, b: real)
    requires a > 0.0
    ensures a * (b * (1.0 / a)) == b
  {
  }

  /** One round of draft, accept or resample draws exactly from the target. */
  lemma Lossless(target: Weights, draft: Weights, token: Token)
    requires token < |target| == |draft| && Distribution(target) && Distribution(draft)
    ensures OutputProbability(target, draft, token) == target[token]
  {
    hide AcceptanceProbability, ResidualProbabilities, RejectionProbability;
    RejectionIsExcessMass(target, draft);
    FallbackOnlyWhenNeverRejected(target, draft);
    RejectedMassIsDeficit(target, draft, token);
    if Sum(Excess(target, draft)) > 0.0 {
      ResidualShare(target, draft, token);
    }
  }

  // ----- whole texts

  /** All a draft head can have seen: how each earlier round ended. */
  datatype Head =
    | Start
    | Accepted(before: Head, drafted: Token, bonus: Token)
    | Rejected(before: Head, drafted: Token, emitted: Token)

  /** A target model and a draft head, each an arbitrary oracle. */
  datatype Language = Language(vocabulary: nat, target: seq<Token> -> Weights, draft: Head -> Weights)

  ghost predicate WellFormed(l: Language) {
    && (forall h :: |l.target(h)| == l.vocabulary && Distribution(l.target(h)))
    && (forall d :: |l.draft(d)| == l.vocabulary && Distribution(l.draft(d)))
  }

  /**
    The outcomes of a verify round after text `h`: the chance of `token` being
    drafted and accepted, and of `drafted` being rejected in favour of `emitted`.
   */
  datatype Round = Round(
    vocabulary: nat,
    target: (seq<Token>, Token) -> real,
    accepted: (Head, seq<Token>, Token) -> real,
    replaced: (Head, seq<Token>, Token, Token) -> real)

  ghost function VerifyRound(l: Language): Round
    requires WellFormed(l)
  {
    Round(
      l.vocabulary,
      (h: seq<Token>, token: Token) => if token < l.vocabulary then l.target(h)[token] else 0.0,
      (head: Head, h: seq<Token>, token: Token) =>
        if token < l.vocabulary
        then l.draft(head)[token] * AcceptanceProbability(l.target(h), l.draft(head), token)
        else 0.0,
      (head: Head, h: seq<Token>, drafted: Token, emitted: Token) =>
        if drafted < l.vocabulary && emitted < l.vocabulary
        then RejectedMass(l.target(h), l.draft(head))[drafted]
             * ResidualProbabilities(l.target(h), l.draft(head))[emitted]
        else 0.0)
  }

  /** The chance that one of the drafts `from`, `from + 1`, ... is replaced by `emitted`. */
  ghost function ReplacedFrom(r: Round, head: Head, h: seq<Token>, emitted: Token, from: nat): real
    requires from <= r.vocabulary
    decreases r.vocabulary - from
  {
    if from == r.vocabulary then 0.0
    else r.replaced(head, h, from, emitted) + ReplacedFrom(r, head, h, emitted, from + 1)
  }

  ghost predicate LosslessRound(r: Round) {
    forall head, h, token: Token ::
      r.accepted(head, h, token) + ReplacedFrom(r, head, h, token, 0) == r.target(h, token)
  }

  /** Probability that plain one-token-at-a-time sampling after `h` starts with `ys`. */
  ghost function PlainProbability(r: Round, h: seq<Token>, ys: seq<Token>): real
    decreases |ys|
  {
    if ys == [] then 1.0
    else r.target(h, ys[0]) * PlainProbability(r, h + [ys[0]], ys[1..])
  }

  /**
    Probability that verify rounds starting after `h` emit a text starting with
    `ys`. An accepted round emits the draft and then a bonus token of the target;
    a rejected round emits one residual sample. The head of the next round may
    depend on everything that happened, including the rejected draft.
   */
  ghost function SpeculativeProbability(r: Round, head: Head, h: seq<Token>, ys: seq<Token>): real
    decreases |ys|, r.vocabulary + 1
  {
    if ys == [] then 1.0
    else
      r.accepted(head, h, ys[0]) * BonusProbability(r, head, h, ys)
      + ReplacedProbability(r, head, h, ys, 0)
  }

  /** The rest of `ys` after its first token was accepted: a bonus token, then new rounds. */
  ghost function BonusProbability(r: Round, head: Head, h: seq<Token>, ys: seq<Token>): real
    requires ys != []
    decreases |ys|, r.vocabulary + 1, 0
  {
    if |ys| == 1 then 1.0
    else r.target(h + [ys[0]], ys[1])
         * SpeculativeProbability(r, Accepted(head, ys[0], ys[1]), h + [ys[0]] + [ys[1]], ys[2..])
  }

  ghost function ReplacedProbability(r: Round, head: Head, h: seq<Token>, ys: seq<Token>, from: nat): real
    requires ys != [] && from <= r.vocabulary
    decreases |ys|, r.vocabulary - from
  {
    if from == r.vocabulary then 0.0
    else
      r.replaced(head, h, from, ys[0])
      * SpeculativeProbability(r, Rejected(head, from, ys[0]), h + [ys[0]], ys[1..])
      + ReplacedProbability(r, head, h, ys, from + 1)
  }

  lemma {:induction false} ReplacedTextIsPlainText(r: Round, head: Head, h: seq<Token>, ys: seq<Token>, from: nat)
    requires LosslessRound(r) && ys != [] && from <= r.vocabulary
    ensures ReplacedProbability(r, head, h, ys, from)
         == ReplacedFrom(r, head, h, ys[0], from) * PlainProbability(r, h + [ys[0]], ys[1..])
    decreases |ys|, r.vocabulary - from
  {
    if from < r.vocabulary {
      SpeculativeTextIsPlainText(r, Rejected(head, from, ys[0]), h + [ys[0]], ys[1..]);
      ReplacedTextIsPlainText(r, head, h, ys, from + 1);
      Distribute(r.replaced(head, h, from, ys[0]), ReplacedFrom(r, head, h, ys[0], from + 1),
                 PlainProbability(r, h + [ys[0]], ys[1..]));
    }
  }

  /** Rounds that are lossless one by one are lossless over texts of every length. */
  lemma {:induction false} SpeculativeTextIsPlainText(r: Round, head: Head, h: seq<Token>, ys: seq<Token>)
    requires LosslessRound(r)
    ensures SpeculativeProbability(r, head, h, ys) == PlainProbability(r, h, ys)
    decreases |ys|, r.vocabulary + 1
  {
    if ys != [] {
      if |ys| > 1 {
        SpeculativeTextIsPlainText(r, Accepted(head, ys[0], ys[1]), h + [ys[0]] + [ys[1]], ys[2..]);
        assert ys[1..][1..] == ys[2..];
      }
      var rest := PlainProbability(r, h + [ys[0]], ys[1..]);
      assert BonusProbability(r, head, h, ys) == rest;
      ReplacedTextIsPlainText(r, head, h, ys, 0);
      Distribute(r.accepted(head, h, ys[0]), ReplacedFrom(r, head, h, ys[0], 0), rest);
    }
  }

  lemma {:induction false} ReplacedFromIsSum(r: Round, head: Head, h: seq<Token>, emitted: Token, w: Weights, from: nat)
    requires |w| == r.vocabulary && from <= r.vocabulary
    requires forall i | 0 <= i < |w| :: r.replaced(head, h, i, emitted) == w[i]
    ensures ReplacedFrom(r, head, h, emitted, from) == Sum(w[from..])
    decreases r.vocabulary - from
  {
    if from < r.vocabulary {
      ReplacedFromIsSum(r, head, h, emitted, w, from + 1);
      assert w[from..][1..] == w[from + 1..];
    }
  }

  lemma ReplacedTotal(l: Language, head: Head, h: seq<Token>, emitted: Token)
    requires WellFormed(l) && emitted < l.vocabulary
    ensures ReplacedFrom(VerifyRound(l), head, h, emitted, 0)
         == RejectionProbability(l.target(h), l.draft(head))
            * ResidualProbabilities(l.target(h), l.draft(head))[emitted]
  {
    hide AcceptanceProbability, ResidualProbabilities, RejectedMass;
    var lost := RejectedMass(l.target(h), l.draft(head));
    var k := ResidualProbabilities(l.target(h), l.draft(head))[emitted];
    var w := Scale(lost, k);
    assert w[0..] == w;
    ReplacedFromIsSum(VerifyRound(l), head, h, emitted, w, 0);
    SumScale(lost, k);
  }

  lemma {:induction false} ReplacedOutsideVocabulary(l: Language, head: Head, h: seq<Token>, emitted: Token, from: nat)
    requires WellFormed(l) && emitted >= l.vocabulary && from <= l.vocabulary
    ensures ReplacedFrom(VerifyRound(l), head, h, emitted, from) == 0.0
    decreases l.vocabulary - from
  {
    if from < l.vocabulary {
      ReplacedOutsideVocabulary(l, head, h, emitted, from + 1);
    }
  }

  /** Accepting a draft or replacing one: together exactly the target's own chance. */
  lemma AcceptedOrReplaced(l: Language, head: Head, h: seq<Token>, token: Token)
    requires WellFormed(l)
    ensures VerifyRound(l).accepted(head, h, token) + ReplacedFrom(VerifyRound(l), head, h, token, 0)
         == VerifyRound(l).target(h, token)
  {
    hide Distribution, AcceptanceProbability, ResidualProbabilities, RejectionProbability, ReplacedFrom;
    if token < l.vocabulary {
      ReplacedTotal(l, head, h, token);
      Lossless(l.target(h), l.draft(head), token);
    } else {
      ReplacedOutsideVocabulary(l, head, h, token, 0);
    }
  }

  /**
    Speculative decoding and plain sampling from the target give every text the
    same probability, for every target, draft head and starting point.
   */
  lemma SpeculativeDecodingIsLossless(l: Language, head: Head, h: seq<Token>, ys: seq<Token>)
    requires WellFormed(l)
    ensures SpeculativeProbability(VerifyRound(l), head, h, ys) == PlainProbability(VerifyRound(l), h, ys)
  {
    forall head', h', token: Token
      ensures VerifyRound(l).accepted(head', h', token) + ReplacedFrom(VerifyRound(l), head', h', token, 0)
           == VerifyRound(l).target(h', token)
    {
      AcceptedOrReplaced(l, head', h', token);
    }
    SpeculativeTextIsPlainText(VerifyRound(l), head, h, ys);
  }
}
