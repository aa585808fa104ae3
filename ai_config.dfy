/**
 * The cost policy for AI analysis: the per-tier limits, the configuration a tier
 * sees, the estimated cost of one analysis in cents, and the short-circuit decision
 * whether a given text, tier and day's usage warrant a call to the AI service.
 */
module AiConfig {
  import opened Wrappers
  import opened Text

  datatype Tier = Free | Premium | Pro

  /** The numeric settings of the base configuration that the decision reads. */
  datatype BaseConfig = BaseConfig(
    minWordsForAnalysis: nat,
    minWordsForAi: nat,
    significantChangeThreshold: nat,
    maxDailyRequestsPerUser: nat,
    localConfidenceThreshold: nat,    // hundredths
    maxLocalSuggestions: nat,
    preferLocalWhenManyIssues: nat)

  const Base := BaseConfig(30, 100, 20, 50, 60, 10, 5)

  /** One entry of the tier table; `localOnly` and `advancedFeatures` are present on some tiers only. */
  datatype TierLimit = TierLimit(
    dailyRequests: nat,
    useAI: bool,
    localOnly: Option<bool>,
    advancedFeatures: Option<bool>)

  /** The tier table. */
  function TierLimits(tier: Tier): (l: TierLimit)
    ensures l.useAI <==> tier != Free
    ensures l.localOnly.Some? <==> tier == Free
    ensures l.advancedFeatures == (if tier == Free then None else Some(tier == Pro))
    ensures tier == Free ==> l.dailyRequests == 5 && l.localOnly == Some(true)
    ensures tier == Premium ==> l.dailyRequests == 50
    ensures tier == Pro ==> l.dailyRequests == 200
  {
    match tier
    case Free => TierLimit(5, false, Some(true), None)
    case Premium => TierLimit(50, true, None, Some(false))
    case Pro => TierLimit(200, true, None, Some(true))
  }

  /** The base configuration with the tier's entry spread over it. */
  datatype Config = Config(base: BaseConfig, dailyRequests: nat, useAI: bool,
                           localOnly: Option<bool>, advancedFeatures: Option<bool>)

  function GetConfigForTier(tier: Tier): (c: Config)
    ensures c.base == Base
    ensures c.dailyRequests == TierLimits(tier).dailyRequests
    ensures c.useAI == TierLimits(tier).useAI
    ensures c.localOnly == TierLimits(tier).localOnly
    ensures c.advancedFeatures == TierLimits(tier).advancedFeatures
  {
    var l := TierLimits(tier);
    Config(Base, l.dailyRequests, l.useAI, l.localOnly, l.advancedFeatures)
  }

  /** Cents for one analysis: 1.3 tokens per word at 0.2 cents per thousand tokens. */
  function EstimateCost(wordCount: int): (cents: real)
    ensures cents == (wordCount as real) * 26.0 / 100000.0
  {
    (wordCount as real * 1.3) / 1000.0 * 0.2
  }

  lemma EstimateCostZero()
    ensures EstimateCost(0) == 0.0
  {
  }

  lemma EstimateCostMonotone(w1: int, w2: int)
    requires w1 <= w2
    ensures EstimateCost(w1) <= EstimateCost(w2)
  {
  }

  /** The cost exceeds one cent exactly when 26 times the word count exceeds 100000. */
  lemma {:induction false} CostAboveOneCent(w: int)
    ensures EstimateCost(w) > 1.0 <==> 26 * w > 100000
  {
    assert EstimateCost(w) == (26 * w) as real / 100000.0;
  }

  /** The decision, in the order of its early returns. */
  function ShouldUseAIAnalysis(text: string, tier: Tier, dailyUsage: int): (use: bool)
    ensures use ==> tier != Free
    ensures use ==> dailyUsage < GetConfigForTier(tier).dailyRequests
    ensures use ==> WordCount(text) >= Base.minWordsForAi
  {
    var config := GetConfigForTier(tier);
    if !config.useAI then false
    else if dailyUsage >= config.dailyRequests then false
    else
      var wordCount := WordCount(text);
      if wordCount < Base.minWordsForAi then false
      else
        var estimatedCost := EstimateCost(wordCount);
        if estimatedCost > 1.0 && tier != Pro then false
        else true
  }

  // ---------------------------------------------------------------------------

  /** The decision holds exactly when every condition holds, with words counted as the
      maximal runs of non-whitespace. */
  lemma ShouldUseAIAnalysisIff(text: string, tier: Tier, dailyUsage: int)
    ensures ShouldUseAIAnalysis(text, tier, dailyUsage) <==>
              tier != Free
              && dailyUsage < TierLimits(tier).dailyRequests
              && |Words(text)| >= 100
              && (26 * |Words(text)| <= 100000 || tier == Pro)
  {
    TokensAreWords(text);
    CostAboveOneCent(|Words(text)|);
  }

  /** The free tier never uses AI. */
  lemma FreeNeverUsesAI(text: string, dailyUsage: int)
    ensures !ShouldUseAIAnalysis(text, Free, dailyUsage)
  {
  }

  /** Usage at or past the tier's daily limit refuses. */
  lemma LimitReachedRefuses(text: string, tier: Tier, dailyUsage: int)
    requires dailyUsage >= TierLimits(tier).dailyRequests
    ensures !ShouldUseAIAnalysis(text, tier, dailyUsage)
  {
  }

  /** Less usage never turns a yes into a no. */
  lemma UsageMonotone(text: string, tier: Tier, u1: int, u2: int)
    requires u1 <= u2
    requires ShouldUseAIAnalysis(text, tier, u2)
    ensures ShouldUseAIAnalysis(text, tier, u1)
  {
  }

  /** Fewer than 100 words refuses. */
  lemma ShortTextRefuses(text: string, tier: Tier, dailyUsage: int)
    requires |Words(text)| < 100
    ensures !ShouldUseAIAnalysis(text, tier, dailyUsage)
  {
    TokensAreWords(text);
  }

  /** Premium refuses exactly the texts whose cost exceeds one cent, other conditions holding. */
  lemma PremiumCostCutoff(text: string, dailyUsage: int)
    requires dailyUsage < 50 && |Words(text)| >= 100
    ensures ShouldUseAIAnalysis(text, Premium, dailyUsage) <==> 26 * |Words(text)| <= 100000
  {
    ShouldUseAIAnalysisIff(text, Premium, dailyUsage);
  }

  /** Pro ignores the cost: long enough text under the limit always qualifies. */
  lemma ProIgnoresCost(text: string, dailyUsage: int)
    requires dailyUsage < 200 && |Words(text)| >= 100
    ensures ShouldUseAIAnalysis(text, Pro, dailyUsage)
  {
    ShouldUseAIAnalysisIff(text, Pro, dailyUsage);
  }
}
