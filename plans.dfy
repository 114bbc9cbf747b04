/** The plan table of `src/lib/plans.ts`: three tiers, each with its limits
    and prices. */
module Plans {
  import opened JsValue

  datatype PlanType = Free | Pro | Business

  datatype PlanLimits = PlanLimits(emailsPerDomain: nat, usersPerDomain: nat, maxTotalUsersForDomain: nat,
                                   priceMonthly: nat, priceYearly: Option<nat>)

  /** `PLAN_LIMITS[plan]`. */
  function Limits(plan: PlanType): PlanLimits {
    match plan
    case Free => PlanLimits(1, 3, 3, 0, None)
    case Pro => PlanLimits(3, 8, 1000, 300, Some(3000))
    case Business => PlanLimits(1000000, 1000000, 1000000, 600, None)
  }

  /** The string of each `PlanType`. */
  function Name(plan: PlanType): string {
    match plan
    case Free => "free"
    case Pro => "pro"
    case Business => "business"
  }

  /** Reading a plan name back; any other string is no plan. */
  function Parse(s: string): Option<PlanType> {
    if s == "free" then Some(Free)
    else if s == "pro" then Some(Pro)
    else if s == "business" then Some(Business)
    else None
  }

  /** Each tier has exactly one name and each name one tier. */
  lemma NameRoundTrip(plan: PlanType, s: string)
    ensures Parse(Name(plan)) == Some(plan)
    ensures Parse(s).Some? ==> Name(Parse(s).value) == s
  {
  }

  /** The tiers in order, free first. */
  function Rank(plan: PlanType): (r: nat)
    ensures r < 3
  {
    match plan
    case Free => 0
    case Pro => 1
    case Business => 2
  }

  /** Every limit and the monthly price grow, or stay, from a tier to a
      higher one. */
  lemma LimitsMonotone(p: PlanType, q: PlanType)
    requires Rank(p) <= Rank(q)
    ensures Limits(p).emailsPerDomain <= Limits(q).emailsPerDomain
    ensures Limits(p).usersPerDomain <= Limits(q).usersPerDomain
    ensures Limits(p).maxTotalUsersForDomain <= Limits(q).maxTotalUsersForDomain
    ensures Limits(p).priceMonthly <= Limits(q).priceMonthly
  {
  }

  /** Only the pro tier has a yearly price, and it is below twelve monthly
      payments. */
  lemma YearlyIsDiscount(plan: PlanType)
    ensures Limits(plan).priceYearly.Some? <==> plan == Pro
    ensures Limits(plan).priceYearly.Some? ==> Limits(plan).priceYearly.value < 12 * Limits(plan).priceMonthly
  {
  }

  /** The free tier sends one email per domain for three users, at no cost;
      the free tier's limit of three users on a domain is its tightest. */
  lemma FreeTier()
    ensures Limits(Free) == PlanLimits(1, 3, 3, 0, None)
    ensures forall p :: Limits(p).maxTotalUsersForDomain >= Limits(Free).maxTotalUsersForDomain
  {
  }
}
