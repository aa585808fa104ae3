/**
 * Entitlement to the AI features: the ordered access checks on a user's subscription
 * columns, the message for each refusal, and the per-tier display names and features.
 */
module Subscription {
  import opened Wrappers
  import AiConfig

  /** The subscription columns of a user row; times are milliseconds since the epoch. */
  datatype SubscriptionFields = SubscriptionFields(
    subscriptionTier: string,
    subscriptionStatus: string,
    aiAccessEnabled: bool,
    subscriptionExpiresAt: Option<int>)

  datatype Reason = NoApiKey | FreeTier | SubscriptionExpired | AccessDisabled

  datatype AccessInfo = AccessInfo(hasAccess: bool, reason: Option<Reason>, tier: string)

  /** The checks in the order they are made, each with the reason it gives when it fails. */
  function Checks(user: SubscriptionFields, apiKeyConfigured: bool, now: int): seq<(bool, Reason)> {
    [ (apiKeyConfigured, NoApiKey),
      (user.aiAccessEnabled, AccessDisabled),
      (user.subscriptionTier != "free", FreeTier),
      (user.subscriptionStatus == "active", SubscriptionExpired),
      (user.subscriptionExpiresAt.None? || now <= user.subscriptionExpiresAt.value, SubscriptionExpired) ]
  }

  /** The reason of the first failing check, if any. */
  function FirstFailure(checks: seq<(bool, Reason)>): (r: Option<Reason>)
    ensures r.None? <==> forall k :: 0 <= k < |checks| ==> checks[k].0
  {
    if checks == [] then None
    else if !checks[0].0 then Some(checks[0].1)
    else FirstFailure(checks[1..])
  }

  /** `checkAiAccess(user)` with the presence of the API key and the current time as inputs. */
  function CheckAiAccess(user: SubscriptionFields, apiKeyConfigured: bool, now: int): (info: AccessInfo)
    ensures info.tier == user.subscriptionTier
    ensures info.hasAccess <==> info.reason.None?
  {
    if !apiKeyConfigured then AccessInfo(false, Some(NoApiKey), user.subscriptionTier)
    else if !user.aiAccessEnabled then AccessInfo(false, Some(AccessDisabled), user.subscriptionTier)
    else if user.subscriptionTier == "free" then AccessInfo(false, Some(FreeTier), user.subscriptionTier)
    else if user.subscriptionStatus != "active" then AccessInfo(false, Some(SubscriptionExpired), user.subscriptionTier)
    else if user.subscriptionExpiresAt.Some? && now > user.subscriptionExpiresAt.value then
      AccessInfo(false, Some(SubscriptionExpired), user.subscriptionTier)
    else AccessInfo(true, None, user.subscriptionTier)
  }

  /** The refusal reason is the reason of the first failing check, in the order listed. */
  lemma CheckAiAccessFirstFailure(user: SubscriptionFields, apiKeyConfigured: bool, now: int)
    ensures CheckAiAccess(user, apiKeyConfigured, now).reason == FirstFailure(Checks(user, apiKeyConfigured, now))
  {
    var c := Checks(user, apiKeyConfigured, now);
    assert c[4..][1..] == [];
    assert FirstFailure(c[4..]) == if c[4].0 then None else Some(c[4].1);
    assert c[3..][1..] == c[4..];
    assert FirstFailure(c[3..]) == if c[3].0 then FirstFailure(c[4..]) else Some(c[3].1);
    assert c[2..][1..] == c[3..];
    assert FirstFailure(c[2..]) == if c[2].0 then FirstFailure(c[3..]) else Some(c[2].1);
    assert c[1..][1..] == c[2..];
    assert FirstFailure(c[1..]) == if c[1].0 then FirstFailure(c[2..]) else Some(c[1].1);
  }

  /** Access is granted exactly when every check passes. */
  lemma CheckAiAccessAllPass(user: SubscriptionFields, apiKeyConfigured: bool, now: int)
    ensures CheckAiAccess(user, apiKeyConfigured, now).hasAccess <==>
              && apiKeyConfigured && user.aiAccessEnabled
              && user.subscriptionTier != "free"
              && user.subscriptionStatus == "active"
              && (user.subscriptionExpiresAt.None? || now <= user.subscriptionExpiresAt.value)
  {
  }

  /** The free tier never has access, whatever the other columns say. */
  lemma FreeTierNeverHasAccess(user: SubscriptionFields, apiKeyConfigured: bool, now: int)
    requires user.subscriptionTier == "free"
    ensures !CheckAiAccess(user, apiKeyConfigured, now).hasAccess
  {
  }

  /** Past the expiry, or with an inactive status, the refusal (if the earlier checks pass) is
      `subscription_expired`; a missing expiry never expires. */
  lemma ExpiredReason(user: SubscriptionFields, now: int)
    requires user.aiAccessEnabled && user.subscriptionTier != "free"
    requires user.subscriptionStatus != "active"
             || (user.subscriptionExpiresAt.Some? && now > user.subscriptionExpiresAt.value)
    ensures CheckAiAccess(user, true, now).reason == Some(SubscriptionExpired)
  {
  }

  /** Access does not depend on the time once there is no expiry. */
  lemma NoExpiryIsTimeless(user: SubscriptionFields, apiKeyConfigured: bool, t1: int, t2: int)
    requires user.subscriptionExpiresAt.None?
    ensures CheckAiAccess(user, apiKeyConfigured, t1) == CheckAiAccess(user, apiKeyConfigured, t2)
  {
  }

  function GetAccessDeniedMessage(info: AccessInfo): (message: string)
    ensures info.reason.None? ==> message == "AI features are currently unavailable."
  {
    if info.reason.None? then "AI features are currently unavailable."
    else ReasonMessage(info.reason.value)
  }

  function ReasonMessage(reason: Reason): string {
    match reason
    case NoApiKey => "AI features are currently unavailable. Please contact support."
    case FreeTier =>
      "AI writing assistance is available with Premium and Pro plans. Upgrade your account to access these features."
    case SubscriptionExpired => "Your subscription has expired. Please renew to continue using AI features."
    case AccessDisabled =>
      "AI features have been disabled for your account. Contact support if you believe this is an error."
  }

  /** Different reasons, and the missing reason, give different messages. */
  lemma AccessDeniedMessagesDistinct(a: AccessInfo, b: AccessInfo)
    requires a.reason != b.reason
    ensures GetAccessDeniedMessage(a) != GetAccessDeniedMessage(b)
  {
    MessageLengthOf(a);
    MessageLengthOf(b);
    MessageLengthInjective(a.reason, b.reason);
  }

  lemma MessageLengthInjective(r1: Option<Reason>, r2: Option<Reason>)
    requires r1 != r2
    ensures MessageLength(r1) != MessageLength(r2)
  {
  }

  lemma MessageLengthOf(info: AccessInfo)
    ensures |GetAccessDeniedMessage(info)| == MessageLength(info.reason)
  {
    if info.reason.Some? {
      match info.reason.value
      case NoApiKey => NoApiKeyLength();
      case FreeTier => FreeTierLength();
      case SubscriptionExpired => ExpiredLength();
      case AccessDisabled => DisabledLength();
    }
  }

  lemma NoApiKeyLength() ensures |ReasonMessage(NoApiKey)| == 62 {}
  lemma FreeTierLength() ensures |ReasonMessage(FreeTier)| == 109 {}
  lemma ExpiredLength() ensures |ReasonMessage(SubscriptionExpired)| == 74 {}
  lemma DisabledLength() ensures |ReasonMessage(AccessDisabled)| == 97 {}

  function MessageLength(reason: Option<Reason>): nat {
    if reason.None? then 38
    else match reason.value
      case NoApiKey => 62
      case FreeTier => 109
      case SubscriptionExpired => 74
      case AccessDisabled => 97
  }

  function GetTierDisplayName(tier: string): (name: string)
    ensures name == "Unknown" <==> tier !in ["free", "premium", "pro"]
  {
    match tier
    case "free" => "Free"
    case "premium" => "Premium"
    case "pro" => "Pro"
    case _ => "Unknown"
  }

  datatype TierFeatures = TierFeatures(
    aiAccess: bool,
    maxProjects: int,          // -1 for unlimited
    maxDocuments: int,         // -1 for unlimited
    storageLimit: string,
    features: seq<string>)

  function GetTierFeatures(tier: string): (f: TierFeatures)
    ensures f.aiAccess <==> tier == "premium" || tier == "pro"
    ensures tier == "pro" <==> f.maxProjects == -1
    ensures tier == "pro" <==> f.maxDocuments == -1
    ensures tier !in ["free", "premium", "pro"] ==>
              f.maxProjects == 0 && f.maxDocuments == 0 && f.features == [] && !f.aiAccess
    ensures f.features == [] <==> tier !in ["free", "premium", "pro"]
  {
    match tier
    case "free" =>
      TierFeatures(false, 3, 10, "50MB", ["Basic writing tools", "Document organization", "Word count tracking"])
    case "premium" =>
      TierFeatures(true, 10, 100, "500MB",
                   ["AI writing assistance", "Grammar suggestions", "Style improvements", "Advanced analytics"])
    case "pro" =>
      TierFeatures(true, -1, -1, "5GB",
                   ["All Premium features", "Unlimited projects", "Priority support", "Advanced AI models"])
    case _ => TierFeatures(false, 0, 0, "0MB", [])
  }

  /** The limits of the finite tiers grow with the tier. */
  lemma TierLimitsGrow()
    ensures GetTierFeatures("free").maxProjects < GetTierFeatures("premium").maxProjects
    ensures GetTierFeatures("free").maxDocuments < GetTierFeatures("premium").maxDocuments
  {
  }

  function TierName(tier: AiConfig.Tier): string {
    match tier
    case Free => "free"
    case Premium => "premium"
    case Pro => "pro"
  }

  /** The feature table and the cost policy agree on which tiers may use AI, and the tier
      check of `checkAiAccess` refuses exactly the tier without it. */
  lemma TierTablesAgree(tier: AiConfig.Tier)
    ensures GetTierFeatures(TierName(tier)).aiAccess == AiConfig.TierLimits(tier).useAI
    ensures GetTierDisplayName(TierName(tier)) != "Unknown"
    ensures (TierName(tier) != "free") == AiConfig.TierLimits(tier).useAI
  {
  }
}
