/**
  The router's decision as a function of the eligible models, the loop that takes it,
  and what it promises: the order in which distinct models are listed, and models that
  are out, never matter.
 */
module RouteChoice {
  import opened Names
  import opened Options
  import opened Routing

  // ----- the decision

  /** The best ranked entry of a model. */
  function FirstOf(ranked: seq<Entry>, modelId: string): (r: Option<Entry>)
    ensures r.Some? ==> r.value in ranked && r.value.profile.modelId == modelId
    ensures r.None? ==> forall e | e in ranked :: e.profile.modelId != modelId
  {
    if ranked == [] then None
    else if ranked[0].profile.modelId == modelId then Some(ranked[0])
    else FirstOf(ranked[1..], modelId)
  }

  /** The entry under a key; of several the last one listed. */
  function WithKey(entries: seq<Entry>, key: Key): (r: Option<Entry>)
    ensures r.Some? ==> r.value in entries && KeyOf(r.value.profile) == key
    ensures r.None? ==> forall e | e in entries :: KeyOf(e.profile) != key
  {
    if entries == [] then None
    else
      var last := |entries| - 1;
      if KeyOf(entries[last].profile) == key then Some(entries[last]) else WithKey(entries[..last], key)
  }

  /** A named model: the given revision of it, or else its best ranked one. */
  function Named(entries: seq<Entry>, model: Option<string>, revision: Option<string>): (r: Option<Entry>) {
    if !Given(model) then None
    else if Given(revision) then WithKey(entries, (model.value, revision.value))
    else FirstOf(Sort(entries), model.value)
  }

  datatype Choice = Choice(selected: Option<Entry>, reason: RouteReason, confidence: real)

  function Margin(ranked: seq<Entry>): real
    requires ranked != []
  {
    if |ranked| > 1 then ranked[0].score - ranked[1].score else 1.0
  }

  function Clamp(x: real): (y: real)
    ensures 0.0 <= y <= 1.0
  {
    if x < 0.0 then 0.0 else if x > 1.0 then 1.0 else x
  }

  function ByScore(ranked: seq<Entry>, fallback: Option<Entry>, c: Context, policy: Policy): Choice
    requires ranked != []
  {
    if |ranked| > 1 && Margin(ranked) < policy.lowConfidenceMargin && fallback.Some? then
      Choice(fallback, DefaultLowConfidence, 0.5)
    else
      Choice(Some(ranked[0]), if InferCategory(c) != General then DeterministicRule else ScoredBest,
             Clamp(0.5 + Margin(ranked)))
  }

  function Choose(entries: seq<Entry>, c: Context, policy: Policy): Choice {
    SortKeepsElements(entries);
    if entries == [] then Choice(None, NoEligibleModel, 0.0)
    else
      var explicit := Named(entries, c.explicitModel, c.explicitRevision);
      var sticky := if c.topicChanged then None else Named(entries, c.stickyModel, c.stickyRevision);
      if explicit.Some? then Choice(explicit, ExplicitModel, 1.0)
      else if sticky.Some? then Choice(sticky, SessionSticky, 0.98)
      else ByScore(Sort(entries), Named(entries, c.defaultModel, None), c, policy)
  }

  lemma {:induction false} SortKeepsElements(entries: seq<Entry>)
    ensures |Sort(entries)| == |entries| && forall e :: e in Sort(entries) <==> e in entries
  {
    if entries != [] {
      SortKeepsElements(entries[1..]);
      InsertKeepsElements(entries[0], Sort(entries[1..]));
      assert entries == [entries[0]] + entries[1..];
    }
  }

  // ----- the entries that are ranked

  ghost predicate IsEligible(p: Profile, runtimes: Runtimes, c: Context) {
    Eligible(p, RuntimeOf(runtimes, p), c)
  }

  function EntryOf(p: Profile, runtimes: Runtimes, c: Context, policy: Policy): Entry {
    Entry(p, Score(p, RuntimeOf(runtimes, p), c, policy))
  }

  ghost function EligibleEntries(profiles: seq<Profile>, runtimes: Runtimes, c: Context, policy: Policy): seq<Entry> {
    if profiles == [] then []
    else
      (if IsEligible(profiles[0], runtimes, c) then [EntryOf(profiles[0], runtimes, c, policy)] else [])
      + EligibleEntries(profiles[1..], runtimes, c, policy)
  }

  /** The decision for a list of models. */
  ghost function Route(profiles: seq<Profile>, runtimes: Runtimes, c: Context, policy: Policy): Choice {
    Choose(EligibleEntries(profiles, runtimes, c, policy), c, policy)
  }

  ghost predicate Distinct(profiles: seq<Profile>) {
    forall i, j | 0 <= i < j < |profiles| :: KeyOf(profiles[i]) != KeyOf(profiles[j])
  }

  lemma {:induction false} EntriesAre(profiles: seq<Profile>, runtimes: Runtimes, c: Context, policy: Policy)
    ensures forall e :: e in EligibleEntries(profiles, runtimes, c, policy) <==>
      e.profile in profiles && IsEligible(e.profile, runtimes, c) && e == EntryOf(e.profile, runtimes, c, policy)
  {
    hide IsEligible, EntryOf, Score;
    if profiles != [] {
      EntriesAre(profiles[1..], runtimes, c, policy);
      assert profiles == [profiles[0]] + profiles[1..];
      EntryHasProfile(profiles[0], runtimes, c, policy);
    }
  }

  lemma EntryHasProfile(p: Profile, runtimes: Runtimes, c: Context, policy: Policy)
    ensures EntryOf(p, runtimes, c, policy).profile == p
  {
  }

  lemma {:induction false} EntriesAreDistinct(profiles: seq<Profile>, runtimes: Runtimes, c: Context, policy: Policy)
    requires Distinct(profiles)
    ensures DistinctKeys(EligibleEntries(profiles, runtimes, c, policy))
  {
    hide IsEligible, EntryOf, Score;
    if profiles != [] {
      var first, rest := profiles[0], profiles[1..];
      EntriesAreDistinct(rest, runtimes, c, policy);
      EntriesAre(rest, runtimes, c, policy);
      EntryHasProfile(first, runtimes, c, policy);
      var entries, later := EligibleEntries(profiles, runtimes, c, policy), EligibleEntries(rest, runtimes, c, policy);
      forall i, j | 0 <= i < j < |entries|
        ensures KeyOf(entries[i].profile) != KeyOf(entries[j].profile)
      {
        if IsEligible(first, runtimes, c) {
          assert entries[j] == later[j - 1] && entries[j] in later;
          var k :| 0 <= k < |rest| && rest[k] == entries[j].profile;
          assert profiles[k + 1] == rest[k];
          if i > 0 {
            assert entries[i] == later[i - 1];
          }
        } else {
          assert entries == later;
        }
      }
    }
  }

  // ----- what the decision promises

  /**
    Lists of distinct models with the same eligible ones lead to the same decision:
    neither their order nor models that are out matter.
   */
  lemma OrderNeverMatters(x: seq<Profile>, y: seq<Profile>, runtimes: Runtimes, c: Context, policy: Policy)
    requires Distinct(x) && Distinct(y)
    requires forall p | IsEligible(p, runtimes, c) :: p in x <==> p in y
    ensures Route(x, runtimes, c, policy) == Route(y, runtimes, c, policy)
  {
    hide IsEligible, EntryOf, Named, Sort, Ranked, DistinctKeys, Choose;
    var ex, ey := EligibleEntries(x, runtimes, c, policy), EligibleEntries(y, runtimes, c, policy);
    EntriesAre(x, runtimes, c, policy);
    EntriesAre(y, runtimes, c, policy);
    EntriesAreDistinct(x, runtimes, c, policy);
    EntriesAreDistinct(y, runtimes, c, policy);
    SortRanks(ex);
    SortRanks(ey);
    assert forall e :: e in Sort(ex) <==> e in Sort(ey);
    RankingIsUnique(Sort(ex), Sort(ey));
    SameNamed(ex, ey, c.explicitModel, c.explicitRevision);
    SameNamed(ex, ey, c.stickyModel, c.stickyRevision);
    SameNamed(ex, ey, c.defaultModel, None);
    SameChoice(ex, ey, c, policy);
  }

  lemma SameChoice(x: seq<Entry>, y: seq<Entry>, c: Context, policy: Policy)
    requires Sort(x) == Sort(y) && Named(x, c.defaultModel, None) == Named(y, c.defaultModel, None)
    requires Named(x, c.explicitModel, c.explicitRevision) == Named(y, c.explicitModel, c.explicitRevision)
    requires Named(x, c.stickyModel, c.stickyRevision) == Named(y, c.stickyModel, c.stickyRevision)
    ensures Choose(x, c, policy) == Choose(y, c, policy)
  {
    hide Named, Sort, InferCategory;
    SortKeepsElements(x);
    SortKeepsElements(y);
  }

  lemma SameNamed(x: seq<Entry>, y: seq<Entry>, model: Option<string>, revision: Option<string>)
    requires Sort(x) == Sort(y) && DistinctKeys(x) && forall e :: e in x <==> e in y
    ensures Named(x, model, revision) == Named(y, model, revision)
  {
    hide Sort, WithKey, FirstOf, DistinctKeys;
    if Given(model) && Given(revision) {
      SameUnderKey(x, y, (model.value, revision.value));
    }
  }

  lemma SameUnderKey(x: seq<Entry>, y: seq<Entry>, key: Key)
    requires DistinctKeys(x) && forall e :: e in x <==> e in y
    ensures WithKey(x, key) == WithKey(y, key)
  {
    hide WithKey, DistinctKeys;
    if WithKey(x, key).Some? && WithKey(y, key).Some? {
      OneEntryPerKey(x, WithKey(x, key).value, WithKey(y, key).value);
    }
  }

  /** A model is chosen exactly when one is eligible, and the choice is a listed model that meets every constraint. */
  lemma ChoiceIsSound(profiles: seq<Profile>, runtimes: Runtimes, c: Context, policy: Policy)
    requires Distinct(profiles)
    ensures var choice := Route(profiles, runtimes, c, policy);
      && (choice.selected.Some? <==> exists p :: p in profiles && IsEligible(p, runtimes, c))
      && (choice.selected.Some? ==>
           choice.selected.value.profile in profiles && IsEligible(choice.selected.value.profile, runtimes, c))
      && (choice.selected.None? <==> choice.reason == NoEligibleModel)
      && 0.0 <= choice.confidence <= 1.0
  {
    hide IsEligible, EntryOf, Sort, Ranked, DistinctKeys, EligibleEntries;
    var entries := EligibleEntries(profiles, runtimes, c, policy);
    EntriesAre(profiles, runtimes, c, policy);
    EntriesAreDistinct(profiles, runtimes, c, policy);
    SortRanks(entries);
    ChoiceIsListed(entries, c, policy);
    if p :| p in profiles && IsEligible(p, runtimes, c) {
      EntryHasProfile(p, runtimes, c, policy);
      assert EntryOf(p, runtimes, c, policy) in entries;
    }
  }

  lemma ChoiceIsListed(entries: seq<Entry>, c: Context, policy: Policy)
    ensures var choice := Choose(entries, c, policy);
      && (choice.selected.Some? <==> entries != [])
      && (choice.selected.Some? ==> choice.selected.value in entries)
      && (choice.selected.None? <==> choice.reason == NoEligibleModel)
      && 0.0 <= choice.confidence <= 1.0
  {
    hide Given, InferCategory;
    SortKeepsElements(entries);
  }

  /** The first entry of a model in a ranking is ahead of every other one of it. */
  lemma {:induction false} FirstOfIsBest(ranked: seq<Entry>, modelId: string)
    requires Ranked(ranked)
    ensures var best := FirstOf(ranked, modelId);
      best.Some? ==> forall e | e in ranked && e.profile.modelId == modelId :: e == best.value || Ahead(best.value, e)
  {
    hide Ahead;
    if ranked != [] {
      assert ranked == [ranked[0]] + ranked[1..];
      FirstOfIsBest(ranked[1..], modelId);
      forall e | e in ranked[1..]
        ensures Ahead(ranked[0], e)
      {
        var j :| 0 <= j < |ranked[1..]| && ranked[1..][j] == e;
        assert ranked[j + 1] == e;
      }
    }
  }

  /** What the ranking of a list of distinct models holds. */
  lemma RankingOf(profiles: seq<Profile>, runtimes: Runtimes, c: Context, policy: Policy)
    requires Distinct(profiles)
    ensures var ranked := Sort(EligibleEntries(profiles, runtimes, c, policy));
      && Ranked(ranked) && DistinctKeys(EligibleEntries(profiles, runtimes, c, policy))
      && (forall e :: e in ranked <==>
            e.profile in profiles && IsEligible(e.profile, runtimes, c) && e == EntryOf(e.profile, runtimes, c, policy))
      && (forall p | p in profiles && IsEligible(p, runtimes, c) :: EntryOf(p, runtimes, c, policy) in ranked)
  {
    hide IsEligible, EntryOf, Ranked, DistinctKeys, Sort;
    EntriesAre(profiles, runtimes, c, policy);
    EntriesAreDistinct(profiles, runtimes, c, policy);
    SortRanks(EligibleEntries(profiles, runtimes, c, policy));
    forall p | p in profiles && IsEligible(p, runtimes, c)
      ensures EntryOf(p, runtimes, c, policy) in Sort(EligibleEntries(profiles, runtimes, c, policy))
    {
      EntryHasProfile(p, runtimes, c, policy);
    }
  }

  /** A choice by score is ahead of every other eligible model: higher score, then smaller id, then smaller revision. */
  lemma ScoredChoiceIsBest(profiles: seq<Profile>, runtimes: Runtimes, c: Context, policy: Policy, p: Profile)
    requires Distinct(profiles) && p in profiles && IsEligible(p, runtimes, c)
    requires Route(profiles, runtimes, c, policy).reason in {ScoredBest, DeterministicRule}
    ensures var best := Route(profiles, runtimes, c, policy).selected;
      best.Some? && (best.value.profile == p || Ahead(best.value, EntryOf(p, runtimes, c, policy)))
  {
    hide IsEligible, EntryOf, Sort, EligibleEntries, Ahead, Given;
    RankingOf(profiles, runtimes, c, policy);
    EntryHasProfile(p, runtimes, c, policy);
    var ranked := Sort(EligibleEntries(profiles, runtimes, c, policy));
    var k :| 0 <= k < |ranked| && ranked[k] == EntryOf(p, runtimes, c, policy);
    assert k > 0 ==> Ahead(ranked[0], ranked[k]);
  }

  /** The built-in policies never pick by score a model that another eligible one beats without a drawback. */
  lemma BeatenIsNeverPicked(profiles: seq<Profile>, runtimes: Runtimes, c: Context, policy: Policy,
                            p: Profile, best: Profile)
    requires policy in {FAST, BALANCED, QUALITY}
    requires Distinct(profiles) && p in profiles && IsEligible(p, runtimes, c)
    requires Route(profiles, runtimes, c, policy).reason in {ScoredBest, DeterministicRule}
    requires NoWorse(p, RuntimeOf(runtimes, p), best, RuntimeOf(runtimes, best), c)
    requires BetterSomewhere(p, RuntimeOf(runtimes, p), best, RuntimeOf(runtimes, best), c)
    ensures Route(profiles, runtimes, c, policy).selected.Some?
    ensures Route(profiles, runtimes, c, policy).selected.value.profile != best
  {
    hide IsEligible, Route, NoWorse, BetterSomewhere, Score;
    NoWorseScoresNoLess(p, RuntimeOf(runtimes, p), best, RuntimeOf(runtimes, best), c, policy);
    ScoredChoiceIsBest(profiles, runtimes, c, policy, p);
    ChosenIsAnEntry(profiles, runtimes, c, policy);
  }

  lemma ChosenIsAnEntry(profiles: seq<Profile>, runtimes: Runtimes, c: Context, policy: Policy)
    requires Distinct(profiles)
    ensures var selected := Route(profiles, runtimes, c, policy).selected;
      selected.Some? ==> selected.value == EntryOf(selected.value.profile, runtimes, c, policy)
  {
    hide IsEligible, EntryOf, Sort, EligibleEntries, Choose;
    EntriesAre(profiles, runtimes, c, policy);
    ChoiceIsListed(EligibleEntries(profiles, runtimes, c, policy), c, policy);
  }

  predicate Matches(p: Profile, model: Option<string>, revision: Option<string>) {
    Given(model) && p.modelId == model.value && (Given(revision) ==> p.revision == revision.value)
  }

  lemma NamedMatches(entries: seq<Entry>, model: Option<string>, revision: Option<string>)
    ensures var named := Named(entries, model, revision);
      && (named.Some? <==> exists e :: e in entries && Matches(e.profile, model, revision))
      && (named.Some? ==> named.value in entries && Matches(named.value.profile, model, revision))
  {
    SortKeepsElements(entries);
  }

  /** A matching eligible model is listed. */
  ghost predicate Available(profiles: seq<Profile>, runtimes: Runtimes, c: Context, model: Option<string>, revision: Option<string>) {
    exists p :: p in profiles && IsEligible(p, runtimes, c) && Matches(p, model, revision)
  }

  lemma NamedIffAvailable(profiles: seq<Profile>, runtimes: Runtimes, c: Context, policy: Policy,
                          model: Option<string>, revision: Option<string>)
    ensures var named := Named(EligibleEntries(profiles, runtimes, c, policy), model, revision);
      && (named.Some? <==> Available(profiles, runtimes, c, model, revision))
      && (named.Some? ==> Matches(named.value.profile, model, revision))
      && (named.Some? ==> EligibleEntries(profiles, runtimes, c, policy) != [])
  {
    hide IsEligible, EntryOf, EligibleEntries, Named, Matches;
    var entries := EligibleEntries(profiles, runtimes, c, policy);
    EntriesAre(profiles, runtimes, c, policy);
    NamedMatches(entries, model, revision);
    if p :| p in profiles && IsEligible(p, runtimes, c) && Matches(p, model, revision) {
      EntryHasProfile(p, runtimes, c, policy);
      assert EntryOf(p, runtimes, c, policy) in entries;
    }
  }

  /** The explicit model is honoured exactly when a matching eligible model is listed. */
  lemma ExplicitHonouredIff(profiles: seq<Profile>, runtimes: Runtimes, c: Context, policy: Policy)
    ensures var choice := Route(profiles, runtimes, c, policy);
      && (choice.reason == ExplicitModel <==> Available(profiles, runtimes, c, c.explicitModel, c.explicitRevision))
      && (choice.reason == ExplicitModel ==>
           choice.selected.Some? && Matches(choice.selected.value.profile, c.explicitModel, c.explicitRevision))
  {
    hide Available, Sort, EligibleEntries, Named, Matches, InferCategory;
    NamedIffAvailable(profiles, runtimes, c, policy, c.explicitModel, c.explicitRevision);
  }

  /** The session's model is kept exactly when the topic did not change, it is eligible, and no explicit one is. */
  lemma StickyKeptIff(profiles: seq<Profile>, runtimes: Runtimes, c: Context, policy: Policy)
    ensures var choice := Route(profiles, runtimes, c, policy);
      && (choice.reason == SessionSticky <==>
           && !c.topicChanged && Available(profiles, runtimes, c, c.stickyModel, c.stickyRevision)
           && !Available(profiles, runtimes, c, c.explicitModel, c.explicitRevision))
      && (choice.reason == SessionSticky ==>
           choice.selected.Some? && Matches(choice.selected.value.profile, c.stickyModel, c.stickyRevision))
  {
    hide Available, Sort, EligibleEntries, Named, Matches, InferCategory;
    NamedIffAvailable(profiles, runtimes, c, policy, c.explicitModel, c.explicitRevision);
    NamedIffAvailable(profiles, runtimes, c, policy, c.stickyModel, c.stickyRevision);
  }

  function ScoreOf(p: Profile, runtimes: Runtimes, c: Context, policy: Policy): real {
    Score(p, RuntimeOf(runtimes, p), c, policy)
  }

  /** Another eligible model comes within the margin of a best one. */
  ghost predicate TooClose(profiles: seq<Profile>, runtimes: Runtimes, c: Context, policy: Policy) {
    exists p, q ::
      && p in profiles && q in profiles && p != q && IsEligible(p, runtimes, c) && IsEligible(q, runtimes, c)
      && (forall r | r in profiles && IsEligible(r, runtimes, c) ::
            ScoreOf(r, runtimes, c, policy) <= ScoreOf(p, runtimes, c, policy))
      && ScoreOf(p, runtimes, c, policy) - ScoreOf(q, runtimes, c, policy) < policy.lowConfidenceMargin
  }

  /**
    The default model is taken exactly when it is eligible, the best score is too close to
    call, and neither an explicit nor a session's model applies.
   */
  lemma DefaultTakenIff(profiles: seq<Profile>, runtimes: Runtimes, c: Context, policy: Policy)
    requires Distinct(profiles)
    ensures var choice := Route(profiles, runtimes, c, policy);
      && (choice.reason == DefaultLowConfidence <==>
           && Available(profiles, runtimes, c, c.defaultModel, None) && TooClose(profiles, runtimes, c, policy)
           && !Available(profiles, runtimes, c, c.explicitModel, c.explicitRevision)
           && (c.topicChanged || !Available(profiles, runtimes, c, c.stickyModel, c.stickyRevision)))
      && (choice.reason == DefaultLowConfidence ==>
           choice.selected.Some? && Matches(choice.selected.value.profile, c.defaultModel, None))
  {
    hide Available, Sort, EligibleEntries, Named, Matches, InferCategory, TooClose;
    NamedIffAvailable(profiles, runtimes, c, policy, c.explicitModel, c.explicitRevision);
    NamedIffAvailable(profiles, runtimes, c, policy, c.stickyModel, c.stickyRevision);
    NamedIffAvailable(profiles, runtimes, c, policy, c.defaultModel, None);
    SortKeepsElements(EligibleEntries(profiles, runtimes, c, policy));
    TooCloseIff(profiles, runtimes, c, policy);
  }

  lemma TooCloseIff(profiles: seq<Profile>, runtimes: Runtimes, c: Context, policy: Policy)
    requires Distinct(profiles)
    ensures var ranked := Sort(EligibleEntries(profiles, runtimes, c, policy));
      TooClose(profiles, runtimes, c, policy) <==> |ranked| > 1 && Margin(ranked) < policy.lowConfidenceMargin
  {
    hide IsEligible, Sort, EligibleEntries, Ranked, DistinctKeys, EntryOf, ScoreOf, Score, Margin, Distinct, TooClose;
    RankingOf(profiles, runtimes, c, policy);
    var ranked := Sort(EligibleEntries(profiles, runtimes, c, policy));
    if TooClose(profiles, runtimes, c, policy) {
      FirstTwoAreNoFarther(profiles, runtimes, c, policy, ranked);
    }
    if |ranked| > 1 && Margin(ranked) < policy.lowConfidenceMargin {
      FirstTwoAreTooClose(profiles, runtimes, c, policy, ranked);
    }
  }

  lemma FirstTwoAreNoFarther(profiles: seq<Profile>, runtimes: Runtimes, c: Context, policy: Policy, ranked: seq<Entry>)
    requires Ranked(ranked) && TooClose(profiles, runtimes, c, policy)
    requires forall e | e in ranked ::
      e.profile in profiles && IsEligible(e.profile, runtimes, c) && e == EntryOf(e.profile, runtimes, c, policy)
    requires forall p | p in profiles && IsEligible(p, runtimes, c) :: EntryOf(p, runtimes, c, policy) in ranked
    ensures |ranked| > 1 && Margin(ranked) < policy.lowConfidenceMargin
  {
    hide IsEligible, Ranked, EntryOf, ScoreOf, Score, Margin;
    var p, q :| && p in profiles && q in profiles && p != q && IsEligible(p, runtimes, c) && IsEligible(q, runtimes, c)
                && (forall r | r in profiles && IsEligible(r, runtimes, c) ::
                      ScoreOf(r, runtimes, c, policy) <= ScoreOf(p, runtimes, c, policy))
                && ScoreOf(p, runtimes, c, policy) - ScoreOf(q, runtimes, c, policy) < policy.lowConfidenceMargin;
    EntryHasScore(p, runtimes, c, policy);
    EntryHasScore(q, runtimes, c, policy);
    forall e | e in ranked
      ensures e.score <= ScoreOf(p, runtimes, c, policy)
    {
      EntryHasScore(e.profile, runtimes, c, policy);
    }
    NoCloserThanTheFirstTwo(ranked, EntryOf(p, runtimes, c, policy), EntryOf(q, runtimes, c, policy));
  }

  lemma FirstTwoAreTooClose(profiles: seq<Profile>, runtimes: Runtimes, c: Context, policy: Policy, ranked: seq<Entry>)
    requires Ranked(ranked) && |ranked| > 1 && Margin(ranked) < policy.lowConfidenceMargin
    requires forall e | e in ranked ::
      e.profile in profiles && IsEligible(e.profile, runtimes, c) && e == EntryOf(e.profile, runtimes, c, policy)
    requires forall p | p in profiles && IsEligible(p, runtimes, c) :: EntryOf(p, runtimes, c, policy) in ranked
    ensures TooClose(profiles, runtimes, c, policy)
  {
    hide IsEligible, Ranked, EntryOf, ScoreOf, Score, Margin;
    var p, q := ranked[0].profile, ranked[1].profile;
    assert ranked[0] in ranked && ranked[1] in ranked;
    FirstTwo(ranked);
    EntryHasScore(p, runtimes, c, policy);
    EntryHasScore(q, runtimes, c, policy);
    forall r | r in profiles && IsEligible(r, runtimes, c)
      ensures ScoreOf(r, runtimes, c, policy) <= ScoreOf(p, runtimes, c, policy)
    {
      EntryHasScore(r, runtimes, c, policy);
      FirstScoresBest(ranked, EntryOf(r, runtimes, c, policy));
    }
  }

  lemma EntryHasScore(p: Profile, runtimes: Runtimes, c: Context, policy: Policy)
    ensures EntryOf(p, runtimes, c, policy) == Entry(p, ScoreOf(p, runtimes, c, policy))
  {
  }

  lemma FirstScoresBest(ranked: seq<Entry>, e: Entry)
    requires Ranked(ranked) && e in ranked
    ensures ranked[0].score >= e.score
    ensures e != ranked[0] ==> ranked[1].score >= e.score
  {
    var i :| 0 <= i < |ranked| && ranked[i] == e;
    assert i > 0 ==> Ahead(ranked[0], ranked[i]);
    assert i > 1 ==> Ahead(ranked[1], ranked[i]);
  }

  lemma FirstTwo(ranked: seq<Entry>)
    requires Ranked(ranked) && |ranked| > 1
    ensures ranked[0] != ranked[1] && Margin(ranked) == ranked[0].score - ranked[1].score
  {
    hide Ahead;
    AheadIsTotal(ranked[0], ranked[1]);
  }

  lemma NoCloserThanTheFirstTwo(ranked: seq<Entry>, x: Entry, y: Entry)
    requires Ranked(ranked) && x in ranked && y in ranked && x != y && forall e | e in ranked :: e.score <= x.score
    ensures |ranked| > 1 && Margin(ranked) <= x.score - y.score
  {
    hide Ranked;
    FirstScoresBest(ranked, x);
    FirstScoresBest(ranked, y);
  }

  // ----- what naming a model does beyond being honoured

  function WithoutExplicit(c: Context): Context {
    c.(explicitModel := None, explicitRevision := None)
  }

  /** Naming a model admits its revisions that are otherwise only for explicit requests. */
  lemma AdmittedByNaming(p: Profile, runtimes: Runtimes, c: Context)
    ensures IsEligible(p, runtimes, WithoutExplicit(c)) <==> IsEligible(p, runtimes, c) && p.allowAuto
  {
    hide Violates;
    var r := RuntimeOf(runtimes, p);
    NamingOnlyUnlocks(p, r, c, AutoDisabled);
    forall v
      ensures Violates(p, r, c, v) ==> Violates(p, r, WithoutExplicit(c), v)
      ensures Violates(p, r, WithoutExplicit(c), v) ==> Violates(p, r, c, v) || v == AutoDisabled
    {
      NamingOnlyUnlocks(p, r, c, v);
    }
  }

  lemma NamingOnlyUnlocks(p: Profile, r: Option<Runtime>, c: Context, v: Violation)
    ensures v != AutoDisabled ==> (Violates(p, r, WithoutExplicit(c), v) <==> Violates(p, r, c, v))
    ensures Violates(p, r, WithoutExplicit(c), AutoDisabled) <==> !p.allowAuto
    ensures Violates(p, r, c, AutoDisabled) ==> !p.allowAuto
  {
    hide Routable;
  }

  /** Nothing is admitted by naming alone. */
  ghost predicate NoneAdmitted(profiles: seq<Profile>, runtimes: Runtimes, c: Context) {
    forall p | p in profiles && IsEligible(p, runtimes, c) :: p.allowAuto
  }

  lemma SameScore(p: Profile, runtimes: Runtimes, c: Context, policy: Policy)
    ensures EntryOf(p, runtimes, WithoutExplicit(c), policy) == EntryOf(p, runtimes, c, policy)
  {
    assert InferCategory(WithoutExplicit(c)) == InferCategory(c);
  }

  /** The same models compete with and without the name exactly when naming admits none. */
  lemma {:induction false} SameEntriesIff(profiles: seq<Profile>, runtimes: Runtimes, c: Context, policy: Policy)
    ensures EligibleEntries(profiles, runtimes, WithoutExplicit(c), policy) == EligibleEntries(profiles, runtimes, c, policy)
      <==> NoneAdmitted(profiles, runtimes, c)
    ensures |EligibleEntries(profiles, runtimes, WithoutExplicit(c), policy)| <= |EligibleEntries(profiles, runtimes, c, policy)|
  {
    hide IsEligible, EntryOf;
    if profiles != [] {
      var first, rest := profiles[0], profiles[1..];
      SameEntriesIff(rest, runtimes, c, policy);
      AdmittedByNaming(first, runtimes, c);
      SameScore(first, runtimes, c, policy);
      OneMoreAdmitted(first, rest, runtimes, c);
      assert profiles == [first] + rest;
      var entry := EntryOf(first, runtimes, c, policy);
      var entries, without := EligibleEntries(rest, runtimes, c, policy), EligibleEntries(rest, runtimes, WithoutExplicit(c), policy);
      assert ([entry] + entries)[1..] == entries && ([entry] + without)[1..] == without;
      assert [] + entries == entries && [] + without == without;
      if IsEligible(first, runtimes, c) && !first.allowAuto {
        assert |without| < |[entry] + entries|;
      }
    }
  }

  lemma OneMoreAdmitted(first: Profile, rest: seq<Profile>, runtimes: Runtimes, c: Context)
    ensures NoneAdmitted([first] + rest, runtimes, c)
      <==> (IsEligible(first, runtimes, c) ==> first.allowAuto) && NoneAdmitted(rest, runtimes, c)
  {
    hide IsEligible;
    assert first in [first] + rest && forall p | p in rest :: p in [first] + rest;
  }

  /**
    A named model that is not honoured leaves the request routed as if none had been
    named, provided that naming it admitted no other revision of it.
   */
  lemma UnavailableNameIsIgnored(profiles: seq<Profile>, runtimes: Runtimes, c: Context, policy: Policy)
    requires !Available(profiles, runtimes, c, c.explicitModel, c.explicitRevision) && NoneAdmitted(profiles, runtimes, c)
    ensures Route(profiles, runtimes, c, policy) == Route(profiles, runtimes, WithoutExplicit(c), policy)
  {
    hide Available, NoneAdmitted, Sort, EligibleEntries, WithKey, FirstOf;
    SameEntriesIff(profiles, runtimes, c, policy);
    NamedIffAvailable(profiles, runtimes, c, policy, c.explicitModel, c.explicitRevision);
    assert InferCategory(WithoutExplicit(c)) == InferCategory(c);
  }

  /**
    The other case: a model for explicit requests only that is chosen without the explicit
    reason has the name that was given and another revision than the one given.
   */
  lemma AdmittedUnderAnotherRevision(profiles: seq<Profile>, runtimes: Runtimes, c: Context, policy: Policy)
    requires Route(profiles, runtimes, c, policy).selected.Some?
    requires Route(profiles, runtimes, c, policy).reason != ExplicitModel
    ensures var p := Route(profiles, runtimes, c, policy).selected.value.profile;
      !p.allowAuto ==>
        && c.explicitModel == Some(p.modelId)
        && (Given(c.explicitModel) ==> Given(c.explicitRevision) && c.explicitRevision.value != p.revision)
  {
    hide Available, Sort, EligibleEntries, Choose;
    var entries := EligibleEntries(profiles, runtimes, c, policy);
    ExplicitHonouredIff(profiles, runtimes, c, policy);
    ChoiceIsListed(entries, c, policy);
    EntriesAre(profiles, runtimes, c, policy);
    var p := Choose(entries, c, policy).selected.value.profile;
    assert IsEligible(p, runtimes, c);
    if Matches(p, c.explicitModel, c.explicitRevision) {
      MatchIsAvailable(profiles, runtimes, c, p);
    }
    assert !Violates(p, RuntimeOf(runtimes, p), c, AutoDisabled);
  }

  lemma MatchIsAvailable(profiles: seq<Profile>, runtimes: Runtimes, c: Context, p: Profile)
    requires p in profiles && IsEligible(p, runtimes, c) && Matches(p, c.explicitModel, c.explicitRevision)
    ensures Available(profiles, runtimes, c, c.explicitModel, c.explicitRevision)
  {
    hide IsEligible, Matches;
  }

  /** Revision "b" of "m", for explicit requests only. */
  const LOCKED := Profile("m", "b", 10, 10, {}, {}, map[], map[], false, false, false, {"text"}, false,
                          0.0, 0, None, {}, {}, None, None, 0.0)

  const IDLE_RUNTIME := Runtime(true, true, true, 0, 0, 0.0, 0.0, 0.0)

  const ASKS_FOR_A := Context(None, 1, 1, None, false, false, false, "text", {}, 0, {}, {}, None, None, Some("m"), Some("a"),
                              None, false, false, false, false, false, false, false, false)

  /**
    It happens: asking for revision "a" of "m", which is not there, has "b" chosen by score,
    and asking for nothing finds no model.
   */
  lemma NamingAdmitsAnotherRevision()
    ensures var runtimes := map[KeyOf(LOCKED) := IDLE_RUNTIME];
      && Route([LOCKED], runtimes, ASKS_FOR_A, BALANCED).reason == ScoredBest
      && Route([LOCKED], runtimes, ASKS_FOR_A, BALANCED).selected == Some(EntryOf(LOCKED, runtimes, ASKS_FOR_A, BALANCED))
      && Route([LOCKED], runtimes, WithoutExplicit(ASKS_FOR_A), BALANCED).reason == NoEligibleModel
  {
    hide Score, Violates;
    var runtimes := map[KeyOf(LOCKED) := IDLE_RUNTIME];
    forall v
      ensures !Violates(LOCKED, Some(IDLE_RUNTIME), ASKS_FOR_A, v)
    {
      NothingViolated(v);
    }
    AdmittedByNaming(LOCKED, runtimes, ASKS_FOR_A);
    OneEntry(LOCKED, runtimes, ASKS_FOR_A, BALANCED);
    OneEntry(LOCKED, runtimes, WithoutExplicit(ASKS_FOR_A), BALANCED);
  }

  lemma NothingViolated(v: Violation)
    ensures !Violates(LOCKED, Some(IDLE_RUNTIME), ASKS_FOR_A, v)
  {
  }

  lemma OneEntry(p: Profile, runtimes: Runtimes, c: Context, policy: Policy)
    ensures var e := EntryOf(p, runtimes, c, policy);
      && EligibleEntries([p], runtimes, c, policy) == (if IsEligible(p, runtimes, c) then [e] else [])
      && Sort([e]) == [e]
  {
    hide IsEligible, EntryOf;
  }

  // ----- the router

  datatype Candidate = Candidate(key: Key, eligible: bool, score: Option<real>, quality: real, predictedTtft: real,
                                 queuePenalty: real, failureRisk: real, reasons: seq<Violation>)

  datatype RouteDecision = RouteDecision(model: Option<Key>, category: Category, reason: RouteReason, confidence: real,
                                         latency: real, candidates: seq<Candidate>, satisfied: bool)

  /** What a listed model is reported as. */
  ghost predicate Reports(candidate: Candidate, p: Profile, runtimes: Runtimes, c: Context, policy: Policy) {
    var r := RuntimeOf(runtimes, p);
    && candidate.key == KeyOf(p)
    && (candidate.eligible <==> IsEligible(p, runtimes, c))
    && (forall v :: v in candidate.reasons <==> Violates(p, r, c, v))
    && candidate.score == (if candidate.eligible then Some(Score(p, r, c, policy)) else None)
    && candidate.quality == QualityFor(p, InferCategory(c)) && candidate.predictedTtft == PredictedTtft(p)
    && candidate.queuePenalty == QueuePenalty(r) && candidate.failureRisk == FailureRisk(p, r)
  }

  ghost predicate AllReported(candidates: seq<Candidate>, profiles: seq<Profile>, runtimes: Runtimes, c: Context, policy: Policy) {
    |candidates| == |profiles| &&
    forall i | 0 <= i < |profiles| :: Reports(candidates[i], profiles[i], runtimes, c, policy)
  }

  lemma {:induction false} OneMoreEntry(profiles: seq<Profile>, i: nat, runtimes: Runtimes, c: Context, policy: Policy)
    requires i < |profiles|
    ensures EligibleEntries(profiles[..i + 1], runtimes, c, policy)
         == EligibleEntries(profiles[..i], runtimes, c, policy)
            + if IsEligible(profiles[i], runtimes, c) then [EntryOf(profiles[i], runtimes, c, policy)] else []
  {
    hide IsEligible, EntryOf;
    if i == 0 {
      assert profiles[..1][1..] == [] && profiles[..0] == [];
    } else {
      assert profiles[..i + 1][1..] == profiles[1..][..i] && profiles[..i][1..] == profiles[1..][..i - 1];
      OneMoreEntry(profiles[1..], i - 1, runtimes, c, policy);
    }
  }

  /** Score every listed model, keeping those that are out for the report only. */
  method Candidates(profiles: seq<Profile>, runtimes: Runtimes, c: Context, policy: Policy)
    returns (scored: seq<Candidate>, eligible: seq<Entry>)
    ensures AllReported(scored, profiles, runtimes, c, policy)
    ensures eligible == EligibleEntries(profiles, runtimes, c, policy)
  {
    hide Score, QualityFor, PredictedTtft, QueuePenalty, FailureRisk, Violates, InferCategory, Eligible, EligibleEntries;
    scored, eligible := [], [];
    NoEntries(runtimes, c, policy);
    assert profiles[..0] == [];
    for i := 0 to |profiles|
      invariant AllReported(scored, profiles[..i], runtimes, c, policy)
      invariant eligible == EligibleEntries(profiles[..i], runtimes, c, policy)
    {
      var p := profiles[i];
      var r := RuntimeOf(runtimes, p);
      OneMoreEntry(profiles, i, runtimes, c, policy);
      var reasons := HardConstraintReasons(p, r, c);
      var candidate := Candidate(KeyOf(p), false, None, QualityFor(p, InferCategory(c)), PredictedTtft(p),
                                 QueuePenalty(r), FailureRisk(p, r), reasons);
      if reasons == [] {
        var score := Score(p, r, c, policy);
        eligible := eligible + [Entry(p, score)];
        candidate := candidate.(eligible := true, score := Some(score));
      }
      assert Reports(candidate, p, runtimes, c, policy);
      scored := scored + [candidate];
    }
    assert profiles[..|profiles|] == profiles;
  }

  lemma NoEntries(runtimes: Runtimes, c: Context, policy: Policy)
    ensures EligibleEntries([], runtimes, c, policy) == []
  {
  }

  lemma OneEntryPerKey(entries: seq<Entry>, x: Entry, y: Entry)
    requires DistinctKeys(entries) && x in entries && y in entries && KeyOf(x.profile) == KeyOf(y.profile)
    ensures x == y
  {
    var i :| 0 <= i < |entries| && entries[i] == x;
    var j :| 0 <= j < |entries| && entries[j] == y;
  }

  // ----- the best revision, in listing order

  lemma NotAheadIsTransitive(x: Entry, y: Entry, z: Entry)
    requires !Ahead(x, y) && !Ahead(y, z)
    ensures !Ahead(x, z)
  {
    AheadIsTotal(x, y);
    AheadIsTotal(y, z);
    if Ahead(y, x) && Ahead(x, z) {
      AheadIsTransitive(y, x, z);
    }
  }

  /** In order, models of equal rank in any. */
  ghost predicate WeaklyRanked(entries: seq<Entry>) {
    forall i, j | 0 <= i < j < |entries| :: !Ahead(entries[j], entries[i])
  }

  lemma {:induction false} InsertKeepsWeakRank(e: Entry, sorted: seq<Entry>)
    requires WeaklyRanked(sorted)
    ensures WeaklyRanked(Insert(e, sorted))
  {
    hide Ahead;
    var r := Insert(e, sorted);
    if sorted != [] {
      AheadIsTotal(sorted[0], e);
      if Ahead(sorted[0], e) {
        InsertKeepsWeakRank(e, sorted[1..]);
        InsertKeepsElements(e, sorted[1..]);
        forall j | 1 <= j < |r|
          ensures !Ahead(r[j], r[0])
        {
          assert r[j] in Insert(e, sorted[1..]);
        }
      } else {
        forall j | 1 <= j < |r|
          ensures !Ahead(r[j], e)
        {
          if j > 1 {
            NotAheadIsTransitive(r[j], sorted[0], e);
          }
        }
      }
    }
  }

  lemma {:induction false} SortRanksWeakly(entries: seq<Entry>)
    ensures WeaklyRanked(Sort(entries))
  {
    hide WeaklyRanked;
    if entries == [] {
      NothingIsRanked();
    } else {
      SortRanksWeakly(entries[1..]);
      InsertKeepsWeakRank(entries[0], Sort(entries[1..]));
    }
  }

  lemma NothingIsRanked()
    ensures WeaklyRanked([])
  {
  }

  /** The better of `e` and the best of those listed after it. */
  function Earlier(e: Entry, best: Option<Entry>, modelId: string): Option<Entry> {
    if e.profile.modelId == modelId && (best.None? || !Ahead(best.value, e)) then Some(e) else best
  }

  /** The better of `e` and the best of those listed before it. */
  function Later(best: Option<Entry>, e: Entry, modelId: string): Option<Entry> {
    if e.profile.modelId == modelId && (best.None? || Ahead(e, best.value)) then Some(e) else best
  }

  lemma {:induction false} FirstAfterInsert(e: Entry, sorted: seq<Entry>, modelId: string)
    requires WeaklyRanked(sorted)
    ensures FirstOf(Insert(e, sorted), modelId) == Earlier(e, FirstOf(sorted, modelId), modelId)
  {
    hide Ahead;
    if sorted != [] {
      if Ahead(sorted[0], e) {
        FirstAfterInsert(e, sorted[1..], modelId);
      } else {
        var best := FirstOf(sorted, modelId);
        if best.Some? {
          var k :| 0 <= k < |sorted| && sorted[k] == best.value;
          if k > 0 {
            NotAheadIsTransitive(sorted[k], sorted[0], e);
          }
        }
      }
    }
  }

  lemma EitherOrder(x: Entry, best: Option<Entry>, e: Entry, modelId: string)
    ensures Earlier(x, Later(best, e, modelId), modelId) == Later(Earlier(x, best, modelId), e, modelId)
  {
    hide Ahead;
    if best.Some? {
      AheadIsTotal(best.value, e);
      AheadIsTotal(best.value, x);
      if Ahead(best.value, x) && Ahead(e, best.value) {
        AheadIsTransitive(e, best.value, x);
      }
      if !Ahead(best.value, x) && !Ahead(e, best.value) {
        NotAheadIsTransitive(e, best.value, x);
      }
    }
  }

  /** Listing one more entry: it is the best of its model exactly when it is ahead of the best so far. */
  lemma {:induction false} BestOneMore(entries: seq<Entry>, e: Entry, modelId: string)
    ensures FirstOf(Sort(entries + [e]), modelId) == Later(FirstOf(Sort(entries), modelId), e, modelId)
  {
    hide Ahead, Insert, WeaklyRanked, FirstOf;
    if entries == [] {
      BestOfOne(e, modelId);
      assert entries + [e] == [e];
    } else {
      var first, rest := entries[0], entries[1..];
      assert (entries + [e])[1..] == rest + [e];
      BestOneMore(rest, e, modelId);
      SortRanksWeakly(rest);
      SortRanksWeakly(rest + [e]);
      FirstAfterInsert(first, Sort(rest), modelId);
      FirstAfterInsert(first, Sort(rest + [e]), modelId);
      EitherOrder(first, FirstOf(Sort(rest), modelId), e, modelId);
    }
  }

  lemma BestOfOne(e: Entry, modelId: string)
    ensures FirstOf(Sort([e]), modelId) == Later(None, e, modelId) && FirstOf(Sort([]), modelId) == None
  {
  }

  /** Among the revisions of one model: the higher score, then the smaller revision, then the first listed. */
  method BestForModel(eligible: seq<Entry>, model: Option<string>) returns (best: Option<Entry>)
    ensures best == Named(eligible, model, None)
  {
    hide Ahead, Sort, FirstOf;
    best := None;
    if !Given(model) {
      return;
    }
    BestOfNone(model.value);
    for i := 0 to |eligible|
      invariant best == FirstOf(Sort(eligible[..i]), model.value)
    {
      var e := eligible[i];
      assert eligible[..i + 1] == eligible[..i] + [e];
      BestOneMore(eligible[..i], e, model.value);
      if e.profile.modelId == model.value {
        if best.Some? {
          SameModelAhead(e, best.value);
        }
        if best.None? || e.score > best.value.score
           || (e.score == best.value.score && Less(e.profile.revision, best.value.profile.revision)) {
          best := Some(e);
        }
      }
    }
    assert eligible[..|eligible|] == eligible;
  }

  lemma BestOfNone(modelId: string)
    ensures FirstOf(Sort([]), modelId) == None
  {
  }

  lemma SameModelAhead(x: Entry, y: Entry)
    requires x.profile.modelId == y.profile.modelId
    ensures Ahead(x, y) <==>
      x.score > y.score || (x.score == y.score && Less(x.profile.revision, y.profile.revision))
  {
    LessIsTotal(x.profile.modelId, y.profile.modelId);
  }

  /** A named model, looked up by key when the revision is given, and otherwise its best revision. */
  method Lookup(eligible: seq<Entry>, model: Option<string>, revision: Option<string>) returns (found: Option<Entry>)
    ensures found == Named(eligible, model, revision)
  {
    if !Given(model) || !Given(revision) {
      found := BestForModel(eligible, model);
      return;
    }
    var byKey: map<Key, Entry> := map[];
    for i := 0 to |eligible|
      invariant forall key :: WithKey(eligible[..i], key) == if key in byKey then Some(byKey[key]) else None
    {
      assert eligible[..i + 1][..i] == eligible[..i];
      byKey := byKey[KeyOf(eligible[i].profile) := eligible[i]];
    }
    assert eligible[..|eligible|] == eligible;
    var key := (model.value, revision.value);
    found := if key in byKey then Some(byKey[key]) else None;
  }

  class RouterMetrics {
    var decisions: nat
    var failures: nat
    var stickyHits: nat
    var totalLatency: real
    var maxLatency: real

    constructor ()
      ensures decisions == failures == stickyHits == 0 && totalLatency == maxLatency == 0.0
    {
      decisions, failures, stickyHits, totalLatency, maxLatency := 0, 0, 0, 0.0, 0.0;
    }

    method Record(decision: RouteDecision)
      modifies this
      ensures decisions == old(decisions) + 1
      ensures failures == old(failures) + if decision.model.None? then 1 else 0
      ensures stickyHits == old(stickyHits) + if decision.reason == SessionSticky then 1 else 0
      ensures totalLatency == old(totalLatency) + decision.latency && maxLatency == Max(old(maxLatency), decision.latency)
    {
      decisions := decisions + 1;
      totalLatency := totalLatency + decision.latency;
      maxLatency := Max(maxLatency, decision.latency);
      if decision.model.None? {
        failures := failures + 1;
      }
      if decision.reason == SessionSticky {
        stickyHits := stickyHits + 1;
      }
    }
  }

  class AutoRouter {
    const metrics: RouterMetrics

    constructor (metrics: RouterMetrics)
      ensures this.metrics == metrics
    {
      this.metrics := metrics;
    }

    /** Every listed model is reported, and the decision is that of the eligible ones. */
    method Decide(profiles: seq<Profile>, runtimes: Runtimes, c: Context, policy: Policy, latency: real)
      returns (decision: RouteDecision)
      modifies metrics
      ensures AllReported(decision.candidates, profiles, runtimes, c, policy)
      ensures decision.category == InferCategory(c) && decision.latency == latency
      ensures decision.satisfied <==> decision.model.Some?
      ensures var choice := Route(profiles, runtimes, c, policy);
        && decision.model == (if choice.selected.Some? then Some(KeyOf(choice.selected.value.profile)) else None)
        && decision.reason == choice.reason && decision.confidence == choice.confidence
      ensures metrics.decisions == old(metrics.decisions) + 1
      ensures metrics.failures == old(metrics.failures) + if decision.model.None? then 1 else 0
      ensures metrics.stickyHits == old(metrics.stickyHits) + if decision.reason == SessionSticky then 1 else 0
    {
      hide AllReported, EligibleEntries, Sort, Named, InferCategory, Given;
      var category := InferCategory(c);
      var scored, eligible := Candidates(profiles, runtimes, c, policy);
      SortKeepsElements(eligible);
      if eligible == [] {
        decision := RouteDecision(None, category, NoEligibleModel, 0.0, latency, scored, false);
        metrics.Record(decision);
        return;
      }
      var selected := Lookup(eligible, c.explicitModel, c.explicitRevision);
      if selected.Some? {
        decision := RouteDecision(Some(KeyOf(selected.value.profile)), category, ExplicitModel, 1.0, latency, scored, true);
        metrics.Record(decision);
        return;
      }
      if !c.topicChanged {
        selected := Lookup(eligible, c.stickyModel, c.stickyRevision);
      }
      if selected.Some? {
        decision := RouteDecision(Some(KeyOf(selected.value.profile)), category, SessionSticky, 0.98, latency, scored, true);
        metrics.Record(decision);
        return;
      }
      var fallback := BestForModel(eligible, c.defaultModel);
      eligible := Sort(eligible);
      var chosen := eligible[0];
      var margin := if |eligible| > 1 then eligible[0].score - eligible[1].score else 1.0;
      var confidence := Clamp(0.5 + margin);
      var reason := if category != General then DeterministicRule else ScoredBest;
      if |eligible| > 1 && margin < policy.lowConfidenceMargin && fallback.Some? {
        chosen, reason, confidence := fallback.value, DefaultLowConfidence, 0.5;
      }
      decision := RouteDecision(Some(KeyOf(chosen.profile)), category, reason, confidence, latency, scored, true);
      metrics.Record(decision);
    }
  }
}
