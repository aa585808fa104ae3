/**
 * The subscription endpoint: a signed-in user picks a tier, the endpoint validates it,
 * derives the new subscription columns and writes them to the user's row.
 */
module SubscriptionApi {
  import opened Wrappers
  import opened Subscription

  /** Thirty days in milliseconds. */
  const ThirtyDays: int := 30 * 24 * 60 * 60 * 1000

  predicate ValidTier(tier: Option<string>) {
    tier.Some? && tier.value in ["free", "premium", "pro"]
  }

  /** The columns written for a valid tier at time `now` (milliseconds). */
  function DeriveUpdate(tier: string, now: int): (u: SubscriptionFields)
    ensures u.subscriptionTier == tier && u.subscriptionStatus == "active"
    ensures u.aiAccessEnabled <==> tier != "free"
    ensures u.subscriptionExpiresAt.None? <==> tier == "free"
    ensures u.subscriptionExpiresAt.Some? ==> u.subscriptionExpiresAt.value == now + ThirtyDays
  {
    SubscriptionFields(tier, "active", tier != "free",
                       if tier != "free" then Some(now + ThirtyDays) else None)
  }

  /** A paid tier chosen at `now` passes every check of `checkAiAccess` on the user's columns
      for the next thirty days, and fails only on expiry after that. */
  lemma DerivedPaidHasAccess(tier: string, now: int, t: int)
    requires tier in ["premium", "pro"]
    ensures t <= now + ThirtyDays ==> CheckAiAccess(DeriveUpdate(tier, now), true, t).hasAccess
    ensures t > now + ThirtyDays ==> CheckAiAccess(DeriveUpdate(tier, now), true, t).reason == Some(SubscriptionExpired)
  {
  }

  /** Choosing the free tier always refuses AI access; since the derived columns also switch
      AI access off, the reason reported is the disabled access, which is checked first. */
  lemma DerivedFreeRefused(now: int, t: int)
    ensures CheckAiAccess(DeriveUpdate("free", now), true, t).reason == Some(AccessDisabled)
  {
  }

  /** The request body: unreadable JSON, or an object whose `subscriptionTier` is present
      as a string or not. */
  datatype Body = Unparsable | Json(subscriptionTier: Option<string>)

  /** A user row as far as this endpoint is concerned. */
  datatype Account = Account(subscription: SubscriptionFields, updatedAt: int)

  /** The user table, keyed by user id. */
  class UserTable {
    var rows: map<string, Account>

    constructor(rows0: map<string, Account>)
      ensures rows == rows0
    {
      rows := rows0;
    }

    /** The PATCH handler. `storeFails` says whether the database update throws. */
    method Patch(sessionUser: Option<string>, body: Body, now: int, storeFails: bool)
      returns (status: int, reported: Option<SubscriptionFields>)
      modifies this
      ensures sessionUser.None? ==> status == 401
      ensures status == 400 <==>
                sessionUser.Some? && body.Json? && !ValidTier(body.subscriptionTier)
      ensures status == 500 <==>
                sessionUser.Some? && (body.Unparsable? || (ValidTier(body.subscriptionTier) && storeFails))
      ensures status == 404 <==>
                sessionUser.Some? && body.Json? && ValidTier(body.subscriptionTier) && !storeFails
                && sessionUser.value !in old(rows)
      ensures status == 200 <==>
                sessionUser.Some? && body.Json? && ValidTier(body.subscriptionTier) && !storeFails
                && sessionUser.value in old(rows)
      ensures status == 200 ==>
                var u := DeriveUpdate(body.subscriptionTier.value, now);
                rows == old(rows)[sessionUser.value := Account(u, now)] && reported == Some(u)
      ensures status != 200 ==> rows == old(rows) && reported.None?
    {
      if sessionUser.None? {
        return 401, None;
      }
      if body.Unparsable? {
        return 500, None;
      }
      var tier := body.subscriptionTier;
      if !ValidTier(tier) {
        return 400, None;
      }
      if storeFails {
        return 500, None;
      }
      var id := sessionUser.value;
      if id !in rows {
        return 404, None;
      }
      var u := DeriveUpdate(tier.value, now);
      rows := rows[id := Account(u, now)];
      return 200, Some(u);
    }
  }
}
