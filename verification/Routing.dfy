/**
  Choosing a model for a request (routing.py): hard constraints, then an explicit
  model, the session's model, or the best score with a fallback when it is too close.
 */
module Routing {
  import opened Names
  import opened Options

  datatype Category = FastChat | General | Coding | Reasoning | LongContext | ToolUse

  datatype RouteReason = ExplicitModel | SessionSticky | DeterministicRule | ScoredBest
                       | DefaultLowConfidence | NoEligibleModel

  datatype Policy = Policy(qualityWeight: real, latencyWeight: real, queueWeight: real, failureWeight: real,
                           affinityWeight: real, priorityWeight: real, lowConfidenceMargin: real)

  datatype Profile = Profile(
    modelId: string, revision: string, contextLength: int, maxOutputLength: int, languages: set<string>,
    taskTags: set<Category>, taskQuality: map<Category, real>, qualityScores: map<Category, real>,
    supportsTools: bool, supportsJson: bool, supportsThinking: bool, modalities: set<string>, allowAuto: bool,
    userPriority: real, privacyTier: int, runtimeParameters: Option<set<string>>, templateParameters: set<string>,
    templateDefaults: set<string>, warmP50: Option<real>, warmP95: Option<real>, failureRate: real)

  datatype Runtime = Runtime(ready: bool, quorumReady: bool, servingState: bool, queueDepth: int, activeRequests: int,
                             heartbeatAge: real, recentFailureRate: real, predictedQueueWait: real)

  datatype Context = Context(
    category: Option<Category>, inputTokens: nat, outputTokens: nat, language: Option<string>,
    requiresTools: bool, requiresJson: bool, requiresThinking: bool, modality: string, allowedModels: set<string>,
    minimumPrivacyTier: int, runtimeParameters: set<string>, templateParameters: set<string>,
    stickyModel: Option<string>, stickyRevision: Option<string>, explicitModel: Option<string>,
    explicitRevision: Option<string>, defaultModel: Option<string>, topicChanged: bool, containsCode: bool,
    hasCompilerError: bool, hasFileDiff: bool, multiStepReasoning: bool, longDocument: bool,
    isTranslation: bool, isRewrite: bool)

  type Key = (string, string)
  type Runtimes = map<Key, Runtime>

  function KeyOf(p: Profile): Key {
    (p.modelId, p.revision)
  }

  function RuntimeOf(runtimes: Runtimes, p: Profile): Option<Runtime> {
    if KeyOf(p) in runtimes then Some(runtimes[KeyOf(p)]) else None
  }

  function InferCategory(c: Context): Category {
    if c.category.Some? then c.category.value
    else if c.requiresTools then ToolUse
    else if c.longDocument then LongContext
    else if c.containsCode || c.hasCompilerError || c.hasFileDiff then Coding
    else if c.multiStepReasoning then Reasoning
    else if c.isTranslation || c.isRewrite then FastChat
    else General
  }

  function QualityFor(p: Profile, category: Category): real {
    if category in p.qualityScores then p.qualityScores[category]
    else if category in p.taskQuality then p.taskQuality[category]
    else if category in p.taskTags then 0.82
    else if General in p.taskTags then 0.68
    else 0.5
  }

  function Max(x: real, y: real): real {
    if x >= y then x else y
  }

  function AtLeastZero(n: int): real {
    if n > 0 then n as real else 0.0
  }

  function PredictedTtft(p: Profile): real {
    if p.warmP95.Some? then Max(0.0, p.warmP95.value)
    else if p.warmP50.Some? then Max(0.0, p.warmP50.value * 1.5)
    else 750.0
  }

  predicate Routable(r: Runtime) {
    r.ready && r.quorumReady && r.servingState && r.heartbeatAge <= 15.0
  }

  function QueuePenalty(r: Option<Runtime>): real {
    if r.None? then 0.0
    else
      AtLeastZero(r.value.queueDepth) * 0.75 + AtLeastZero(r.value.activeRequests) * 0.35
      + Max(0.0, r.value.predictedQueueWait) / 1000.0
  }

  function FailureRisk(p: Profile, r: Option<Runtime>): real {
    if r.None? then p.failureRate else Max(p.failureRate, r.value.recentFailureRate)
  }

  function Times(weight: real, value: real): real {
    weight * value
  }

  function Score(p: Profile, r: Option<Runtime>, c: Context, policy: Policy): real {
    Times(policy.qualityWeight, QualityFor(p, InferCategory(c)))
    - Times(policy.latencyWeight, PredictedTtft(p))
    - Times(policy.queueWeight, QueuePenalty(r))
    - Times(policy.failureWeight, FailureRisk(p, r))
    + Times(policy.priorityWeight, p.userPriority)
    + (if c.stickyModel == Some(p.modelId) then policy.affinityWeight else 0.0)
  }

  // ----- what the score rewards

  const FAST := Policy(1.0, 0.0015, 0.22, 1.5, 0.15, 0.04, 0.04)
  const BALANCED := Policy(1.5, 0.0010, 0.16, 2.0, 0.22, 0.06, 0.04)
  const QUALITY := Policy(3.0, 0.00015, 0.06, 2.5, 0.25, 0.08, 0.04)

  /** Quality, priority and affinity count for a model; latency, queue and failures against it. */
  ghost predicate Sensible(policy: Policy) {
    && policy.qualityWeight > 0.0 && policy.latencyWeight > 0.0 && policy.queueWeight > 0.0
    && policy.failureWeight > 0.0 && policy.affinityWeight > 0.0 && policy.priorityWeight > 0.0
  }

  /** At least as good in every respect the score looks at. */
  ghost predicate NoWorse(x: Profile, rx: Option<Runtime>, y: Profile, ry: Option<Runtime>, c: Context) {
    && QualityFor(x, InferCategory(c)) >= QualityFor(y, InferCategory(c))
    && PredictedTtft(x) <= PredictedTtft(y)
    && QueuePenalty(rx) <= QueuePenalty(ry)
    && FailureRisk(x, rx) <= FailureRisk(y, ry)
    && x.userPriority >= y.userPriority
    && (c.stickyModel == Some(y.modelId) ==> c.stickyModel == Some(x.modelId))
  }

  lemma Weigh(weight: real, small: real, large: real)
    requires weight > 0.0 && small <= large
    ensures Times(weight, small) <= Times(weight, large)
    ensures small < large ==> Times(weight, small) < Times(weight, large)
  {
  }

  /** Strictly better in one of the measured respects. */
  ghost predicate BetterSomewhere(x: Profile, rx: Option<Runtime>, y: Profile, ry: Option<Runtime>, c: Context) {
    || QualityFor(x, InferCategory(c)) > QualityFor(y, InferCategory(c))
    || PredictedTtft(x) < PredictedTtft(y)
    || QueuePenalty(rx) < QueuePenalty(ry)
    || FailureRisk(x, rx) < FailureRisk(y, ry)
    || x.userPriority > y.userPriority
  }

  /**
    A model no worse in any respect scores no less, and more if it is better in quality,
    latency, queue, failures or priority.
   */
  lemma NoWorseScoresNoLess(x: Profile, rx: Option<Runtime>, y: Profile, ry: Option<Runtime>, c: Context, policy: Policy)
    requires Sensible(policy) && NoWorse(x, rx, y, ry, c)
    ensures Score(x, rx, c, policy) >= Score(y, ry, c, policy)
    ensures BetterSomewhere(x, rx, y, ry, c) ==> Score(x, rx, c, policy) > Score(y, ry, c, policy)
  {
    hide QualityFor, PredictedTtft, QueuePenalty, FailureRisk, InferCategory, Times;
    Weigh(policy.qualityWeight, QualityFor(y, InferCategory(c)), QualityFor(x, InferCategory(c)));
    Weigh(policy.latencyWeight, PredictedTtft(x), PredictedTtft(y));
    Weigh(policy.queueWeight, QueuePenalty(rx), QueuePenalty(ry));
    Weigh(policy.failureWeight, FailureRisk(x, rx), FailureRisk(y, ry));
    Weigh(policy.priorityWeight, y.userPriority, x.userPriority);
  }

  // ----- hard constraints

  datatype Violation = AutoDisabled | RuntimeNotReady | NotInAllowedModels | ContextCapacity | OutputCapacity
                     | ToolsUnsupported | JsonUnsupported | ThinkingUnsupported | ModalityUnsupported
                     | LanguageUnsupported | PrivacyPolicy
                     | RuntimeParameterUnsupported(parameter: string) | TemplateParameterUnsupported(parameter: string)

  /** An empty set of names restricts nothing. */
  predicate NonEmpty(names: set<string>) {
    names != {}
  }

  /** Runtime parameters the request uses and the model does not know; a model that does not say knows all. */
  function UnsupportedRuntime(p: Profile, c: Context): set<string> {
    if p.runtimeParameters.Some? then c.runtimeParameters - p.runtimeParameters.value else {}
  }

  function UnsupportedTemplate(p: Profile, c: Context): set<string> {
    c.templateParameters - (p.templateParameters + p.templateDefaults)
  }

  /** What it means for a model to fail each constraint. */
  predicate Violates(p: Profile, r: Option<Runtime>, c: Context, v: Violation) {
    match v
    case AutoDisabled => !p.allowAuto && Some(p.modelId) != c.explicitModel
    case RuntimeNotReady => r.None? || !Routable(r.value)
    case NotInAllowedModels => NonEmpty(c.allowedModels) && p.modelId !in c.allowedModels
    case ContextCapacity => c.inputTokens + c.outputTokens > p.contextLength
    case OutputCapacity => c.outputTokens > p.maxOutputLength
    case ToolsUnsupported => c.requiresTools && !p.supportsTools
    case JsonUnsupported => c.requiresJson && !p.supportsJson
    case ThinkingUnsupported => c.requiresThinking && !p.supportsThinking
    case ModalityUnsupported => c.modality !in p.modalities
    case LanguageUnsupported => Given(c.language) && NonEmpty(p.languages) && c.language.value !in p.languages
    case PrivacyPolicy => p.privacyTier < c.minimumPrivacyTier
    case RuntimeParameterUnsupported(name) => name in UnsupportedRuntime(p, c)
    case TemplateParameterUnsupported(name) => name in UnsupportedTemplate(p, c)
  }

  ghost predicate Eligible(p: Profile, r: Option<Runtime>, c: Context) {
    forall v :: !Violates(p, r, c, v)
  }

  /** The position at which a constraint is checked. */
  function Turn(v: Violation): (n: nat)
    ensures n < 13
  {
    match v
    case AutoDisabled => 0 case RuntimeNotReady => 1 case NotInAllowedModels => 2 case ContextCapacity => 3
    case OutputCapacity => 4 case ToolsUnsupported => 5 case JsonUnsupported => 6 case ThinkingUnsupported => 7
    case ModalityUnsupported => 8 case LanguageUnsupported => 9 case PrivacyPolicy => 10
    case RuntimeParameterUnsupported(_) => 11 case TemplateParameterUnsupported(_) => 12
  }

  /** Reasons come in the order of the checks, parameters in the order of their names. */
  predicate Before(x: Violation, y: Violation) {
    || Turn(x) < Turn(y)
    || (x.RuntimeParameterUnsupported? && y.RuntimeParameterUnsupported? && Less(x.parameter, y.parameter))
    || (x.TemplateParameterUnsupported? && y.TemplateParameterUnsupported? && Less(x.parameter, y.parameter))
  }

  ghost predicate InOrder(reasons: seq<Violation>) {
    forall i, j | 0 <= i < j < |reasons| :: Before(reasons[i], reasons[j])
  }

  /** The reasons found after the first `n` checks. */
  ghost predicate FoundSoFar(p: Profile, r: Option<Runtime>, c: Context, reasons: seq<Violation>, n: nat) {
    InOrder(reasons) && forall v :: v in reasons <==> Turn(v) < n && Violates(p, r, c, v)
  }

  function Noted(p: Profile, r: Option<Runtime>, c: Context, reasons: seq<Violation>, wrong: bool, v: Violation)
    : (found: seq<Violation>)
    requires Turn(v) < 11 && wrong == Violates(p, r, c, v) && FoundSoFar(p, r, c, reasons, Turn(v))
    ensures FoundSoFar(p, r, c, found, Turn(v) + 1)
  {
    if wrong then reasons + [v] else reasons
  }

  function RuntimeReasons(names: seq<string>): seq<Violation> {
    seq(|names|, i requires 0 <= i < |names| => RuntimeParameterUnsupported(names[i]))
  }

  function TemplateReasons(names: seq<string>): seq<Violation> {
    seq(|names|, i requires 0 <= i < |names| => TemplateParameterUnsupported(names[i]))
  }

  /** Appending reasons of one turn, in order. */
  lemma Extended(p: Profile, r: Option<Runtime>, c: Context, before: seq<Violation>, more: seq<Violation>, n: nat)
    requires FoundSoFar(p, r, c, before, n) && InOrder(more)
    requires forall v :: v in more <==> Turn(v) == n && Violates(p, r, c, v)
    ensures FoundSoFar(p, r, c, before + more, n + 1)
  {
    hide Violates;
    var all := before + more;
    forall i, j | 0 <= i < j < |all|
      ensures Before(all[i], all[j])
    {
      assert i < |before| ==> all[i] in before;
      assert j >= |before| ==> all[j] in more;
      assert i >= |before| ==> Before(more[i - |before|], more[j - |before|]);
    }
  }

  lemma NothingFoundYet(p: Profile, r: Option<Runtime>, c: Context)
    ensures FoundSoFar(p, r, c, [], 0)
  {
  }

  lemma EverythingFound(p: Profile, r: Option<Runtime>, c: Context, reasons: seq<Violation>)
    requires FoundSoFar(p, r, c, reasons, 13)
    ensures InOrder(reasons) && forall v :: v in reasons <==> Violates(p, r, c, v)
    ensures reasons == [] <==> Eligible(p, r, c)
  {
    hide Violates;
    if reasons != [] {
      assert reasons[0] in reasons;
    }
  }

  /** The checks on the model's availability and size. */
  method AvailabilityReasons(p: Profile, r: Option<Runtime>, c: Context) returns (reasons: seq<Violation>)
    ensures FoundSoFar(p, r, c, reasons, 5)
  {
    hide Routable, FoundSoFar, Noted, NonEmpty;
    reasons := [];
    NothingFoundYet(p, r, c);
    reasons := Noted(p, r, c, reasons, !p.allowAuto && Some(p.modelId) != c.explicitModel, AutoDisabled);
    reasons := Noted(p, r, c, reasons, r.None? || !Routable(r.value), RuntimeNotReady);
    reasons := Noted(p, r, c, reasons, NonEmpty(c.allowedModels) && p.modelId !in c.allowedModels, NotInAllowedModels);
    reasons := Noted(p, r, c, reasons, c.inputTokens + c.outputTokens > p.contextLength, ContextCapacity);
    reasons := Noted(p, r, c, reasons, c.outputTokens > p.maxOutputLength, OutputCapacity);
  }

  /** The checks on what the model can do. */
  method AbilityReasons(p: Profile, r: Option<Runtime>, c: Context, before: seq<Violation>) returns (reasons: seq<Violation>)
    requires FoundSoFar(p, r, c, before, 5)
    ensures FoundSoFar(p, r, c, reasons, 10)
  {
    hide Routable, FoundSoFar, Noted, NonEmpty;
    reasons := Noted(p, r, c, before, c.requiresTools && !p.supportsTools, ToolsUnsupported);
    reasons := Noted(p, r, c, reasons, c.requiresJson && !p.supportsJson, JsonUnsupported);
    reasons := Noted(p, r, c, reasons, c.requiresThinking && !p.supportsThinking, ThinkingUnsupported);
    reasons := Noted(p, r, c, reasons, c.modality !in p.modalities, ModalityUnsupported);
    var foreign := Given(c.language) && NonEmpty(p.languages) && c.language.value !in p.languages;
    reasons := Noted(p, r, c, reasons, foreign, LanguageUnsupported);
  }

  /** The reasons a model is out: none exactly when it meets every constraint. */
  method HardConstraintReasons(p: Profile, r: Option<Runtime>, c: Context) returns (reasons: seq<Violation>)
    ensures InOrder(reasons) && forall v :: v in reasons <==> Violates(p, r, c, v)
    ensures reasons == [] <==> Eligible(p, r, c)
  {
    hide Routable, FoundSoFar, Noted, NonEmpty, UnsupportedRuntime, UnsupportedTemplate, InOrder, Ascending;
    reasons := AvailabilityReasons(p, r, c);
    reasons := AbilityReasons(p, r, c, reasons);
    reasons := Noted(p, r, c, reasons, p.privacyTier < c.minimumPrivacyTier, PrivacyPolicy);
    reasons := ParameterReasons(p, r, c, reasons);
    EverythingFound(p, r, c, reasons);
  }

  /** One reason for each parameter the model does not support. */
  method ParameterReasons(p: Profile, r: Option<Runtime>, c: Context, before: seq<Violation>) returns (reasons: seq<Violation>)
    requires FoundSoFar(p, r, c, before, 11)
    ensures FoundSoFar(p, r, c, reasons, 13)
  {
    hide FoundSoFar;
    reasons := before;
    var runtime := [];
    if p.runtimeParameters.Some? {
      runtime := Sorted(c.runtimeParameters - p.runtimeParameters.value);
    }
    RuntimeReasonsFit(p, r, c, runtime);
    Extended(p, r, c, reasons, RuntimeReasons(runtime), 11);
    reasons := reasons + RuntimeReasons(runtime);
    var template := Sorted(c.templateParameters - (p.templateParameters + p.templateDefaults));
    TemplateReasonsFit(p, r, c, template);
    Extended(p, r, c, reasons, TemplateReasons(template), 12);
    reasons := reasons + TemplateReasons(template);
  }

  lemma RuntimeReasonsFit(p: Profile, r: Option<Runtime>, c: Context, names: seq<string>)
    requires Ascending(names) && forall x :: x in names <==> x in UnsupportedRuntime(p, c)
    ensures InOrder(RuntimeReasons(names))
    ensures forall v :: v in RuntimeReasons(names) <==> Turn(v) == 11 && Violates(p, r, c, v)
  {
    forall v
      ensures v in RuntimeReasons(names) <==> Turn(v) == 11 && Violates(p, r, c, v)
    {
      if v.RuntimeParameterUnsupported? && v.parameter in names {
        var i :| 0 <= i < |names| && names[i] == v.parameter;
        assert RuntimeReasons(names)[i] == v;
      }
    }
  }

  lemma TemplateReasonsFit(p: Profile, r: Option<Runtime>, c: Context, names: seq<string>)
    requires Ascending(names) && forall x :: x in names <==> x in UnsupportedTemplate(p, c)
    ensures InOrder(TemplateReasons(names))
    ensures forall v :: v in TemplateReasons(names) <==> Turn(v) == 12 && Violates(p, r, c, v)
  {
    forall v
      ensures v in TemplateReasons(names) <==> Turn(v) == 12 && Violates(p, r, c, v)
    {
      if v.TemplateParameterUnsupported? && v.parameter in names {
        var i :| 0 <= i < |names| && names[i] == v.parameter;
        assert TemplateReasons(names)[i] == v;
      }
    }
  }

  // ----- the order of preference

  datatype Entry = Entry(profile: Profile, score: real)

  /** Higher score first, then the smaller model id, then the smaller revision. */
  predicate Ahead(x: Entry, y: Entry) {
    x.score > y.score ||
    (x.score == y.score &&
      (Less(x.profile.modelId, y.profile.modelId)
       || (x.profile.modelId == y.profile.modelId && Less(x.profile.revision, y.profile.revision))))
  }

  lemma AheadIsTotal(x: Entry, y: Entry)
    ensures (KeyOf(x.profile) == KeyOf(y.profile) && x.score == y.score) || Ahead(x, y) || Ahead(y, x)
    ensures !(Ahead(x, y) && Ahead(y, x)) && !Ahead(x, x)
  {
    LessIsTotal(x.profile.modelId, y.profile.modelId);
    LessIsTotal(x.profile.revision, y.profile.revision);
  }

  lemma AheadIsTransitive(x: Entry, y: Entry, z: Entry)
    requires Ahead(x, y) && Ahead(y, z)
    ensures Ahead(x, z)
  {
    var a, b, c := x.profile, y.profile, z.profile;
    if Less(a.modelId, b.modelId) && Less(b.modelId, c.modelId) {
      LessIsTransitive(a.modelId, b.modelId, c.modelId);
    }
    if Less(a.revision, b.revision) && Less(b.revision, c.revision) {
      LessIsTransitive(a.revision, b.revision, c.revision);
    }
  }

  /** Put an entry in front of the first one it is not behind. */
  function Insert(e: Entry, sorted: seq<Entry>): seq<Entry> {
    if sorted == [] || !Ahead(sorted[0], e) then [e] + sorted else [sorted[0]] + Insert(e, sorted[1..])
  }

  function Sort(entries: seq<Entry>): seq<Entry> {
    if entries == [] then [] else Insert(entries[0], Sort(entries[1..]))
  }

  ghost predicate Ranked(entries: seq<Entry>) {
    forall i, j | 0 <= i < j < |entries| :: Ahead(entries[i], entries[j])
  }

  ghost predicate DistinctKeys(entries: seq<Entry>) {
    forall i, j | 0 <= i < j < |entries| :: KeyOf(entries[i].profile) != KeyOf(entries[j].profile)
  }

  lemma {:induction false} InsertKeepsElements(e: Entry, sorted: seq<Entry>)
    ensures |Insert(e, sorted)| == |sorted| + 1
    ensures forall x :: x in Insert(e, sorted) <==> x == e || x in sorted
  {
    if sorted != [] && Ahead(sorted[0], e) {
      InsertKeepsElements(e, sorted[1..]);
      assert sorted == [sorted[0]] + sorted[1..];
    }
  }

  lemma {:induction false} InsertKeepsRank(e: Entry, sorted: seq<Entry>)
    requires Ranked(sorted)
    requires forall x | x in sorted :: KeyOf(x.profile) != KeyOf(e.profile)
    ensures Ranked(Insert(e, sorted))
  {
    var r := Insert(e, sorted);
    if sorted != [] {
      var first, rest := sorted[0], sorted[1..];
      assert sorted == [first] + rest;
      AheadIsTotal(first, e);
      if Ahead(first, e) {
        InsertKeepsRank(e, rest);
        InsertKeepsElements(e, rest);
        assert forall x | x in Insert(e, rest) :: Ahead(first, x);
      } else {
        forall j | 1 <= j < |r|
          ensures Ahead(e, r[j])
        {
          if j > 1 {
            AheadIsTransitive(e, first, r[j]);
          }
        }
      }
    }
  }

  lemma {:induction false} SortRanks(entries: seq<Entry>)
    requires DistinctKeys(entries)
    ensures Ranked(Sort(entries)) && |Sort(entries)| == |entries|
    ensures forall x :: x in Sort(entries) <==> x in entries
  {
    if entries != [] {
      var first, rest := entries[0], entries[1..];
      assert entries == [first] + rest;
      SortRanks(rest);
      InsertKeepsElements(first, Sort(rest));
      forall x | x in Sort(rest)
        ensures KeyOf(x.profile) != KeyOf(first.profile)
      {
        var j :| 0 <= j < |rest| && rest[j] == x;
        assert entries[j + 1] == x;
      }
      InsertKeepsRank(first, Sort(rest));
    }
  }

  /** Two rankings of the same entries are the same. */
  lemma {:induction false} RankingIsUnique(x: seq<Entry>, y: seq<Entry>)
    requires Ranked(x) && Ranked(y) && forall e :: e in x <==> e in y
    ensures x == y
  {
    assert x != [] ==> x[0] in x;
    assert y != [] ==> y[0] in y;
    if x != [] && y != [] {
      SameFirst(x, y);
      SameRest(x, y);
      SameRest(y, x);
      RankingIsUnique(x[1..], y[1..]);
      assert x == [x[0]] + x[1..] && y == [y[0]] + y[1..];
    }
  }

  lemma SameFirst(x: seq<Entry>, y: seq<Entry>)
    requires Ranked(x) && Ranked(y) && (forall e :: e in x <==> e in y) && x != [] && y != []
    ensures x[0] == y[0]
  {
    assert x[0] in y && y[0] in x;
    if x[0] != y[0] {
      AheadIsTotal(x[0], y[0]);
    }
  }

  lemma SameRest(x: seq<Entry>, y: seq<Entry>)
    requires Ranked(x) && Ranked(y) && (forall e :: e in x <==> e in y) && x != [] && y != [] && x[0] == y[0]
    ensures forall e :: e in x[1..] ==> e in y[1..]
  {
    forall e | e in x[1..]
      ensures e in y[1..]
    {
      var i :| 0 <= i < |x[1..]| && x[1..][i] == e;
      assert Ahead(x[0], x[i + 1]);
      AheadIsTotal(x[0], e);
      assert e in x && e in y && y == [y[0]] + y[1..];
    }
  }
}
