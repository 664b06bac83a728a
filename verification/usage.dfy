/**
 * The usage ledger: per-shop subscription info, lazily created per-period
 * usage counters, and the checks of those counters against plan limits.
 * Each operation takes the store and the current date and returns the store
 * afterwards together with what the call returned or threw.
 */
module Usage {
  import opened Wrappers
  import opened Calendar
  import opened BillingPeriod
  import opened Plans
  import opened Db

  /** The billing subscription a request reports for a shop. */
  datatype Subscription = Subscription(id: string, name: string, createdAt: Option<Date>)

  /** The error thrown when usage is asked for a shop without subscription info. */
  datatype LedgerError = SubscriptionInfoNotFound

  /** The store after a call, and the call's return value or the error it threw. */
  datatype Step<T> = Step(store: Store, result: Result<T, LedgerError>)

  datatype BillingUsage = BillingUsage(usage: UsageRecord, billingPeriod: string, nextResetDate: Date)

  datatype LimitKind = Price | CompareAt

  /** The verdict of a limit check; a rejection says which limit and by how much. */
  datatype LimitCheck =
    | Allowed
    | Rejected(kind: LimitKind, limit: int, current: int, attempted: int)

  datatype UsageStats = UsageStats(
    priceUpdates: int,
    compareAtUpdates: int,
    limits: PlanLimits,
    nextResetDate: Date,
    priceRemaining: Option<int>,
    compareAtRemaining: Option<int>)

  /** The date a newly seen shop's billing starts from: the subscription's creation date, else today. */
  function StartDate(subscription: Option<Subscription>, now: Date): Date {
    if subscription.Some? && subscription.value.createdAt.Some? then subscription.value.createdAt.value else now
  }

  /** The key of the shop's usage row for the period `now` lies in. */
  function CurrentKey(st: Store, shop: string, now: Date): UsageKey
    requires shop in st.subscriptionInfo
  {
    (shop, PeriodKey(st.subscriptionInfo[shop].billingCycleDay, now))
  }

  /** Price and compare-at updates recorded for the current period; none recorded counts as zero. */
  function UsedSoFar(st: Store, shop: string, now: Date): (int, int)
    requires shop in st.subscriptionInfo
  {
    var key := CurrentKey(st, shop, now);
    if key in st.usageTracking
    then (st.usageTracking[key].priceUpdates, st.usageTracking[key].compareAtUpdates)
    else (0, 0)
  }

  /**
   * `getOrCreateSubscriptionInfo`: creates the shop's record on first sight,
   * takes over a new subscription's id and name when the id changed, and
   * otherwise returns the stored record untouched.
   */
  function GetOrCreateSubscriptionInfo(st: Store, shop: string, subscription: Option<Subscription>, now: Date)
    : (r: (Store, SubscriptionInfo))
    ensures shop in r.0.subscriptionInfo && r.0.subscriptionInfo[shop] == r.1
    ensures r.0.subscriptionInfo.Keys == st.subscriptionInfo.Keys + {shop}
    ensures forall s :: s in st.subscriptionInfo && s != shop ==> r.0.subscriptionInfo[s] == st.subscriptionInfo[s]
    ensures r.0.sessions == st.sessions && r.0.usageTracking == st.usageTracking
    ensures shop !in st.subscriptionInfo ==>
      && r.1.shop == shop
      && r.1.billingCycleDay == StartDate(subscription, now).day
      && r.1.startedAt == StartDate(subscription, now)
      && r.1.subscriptionId == (if subscription.Some? then Some(subscription.value.id) else None)
      && r.1.planName == (if subscription.Some? && subscription.value.name != "" then subscription.value.name else "Free")
    ensures shop in st.subscriptionInfo ==>
      && r.1.shop == st.subscriptionInfo[shop].shop
      && r.1.billingCycleDay == st.subscriptionInfo[shop].billingCycleDay
      && r.1.startedAt == st.subscriptionInfo[shop].startedAt
    ensures shop in st.subscriptionInfo && (subscription.None? || st.subscriptionInfo[shop].subscriptionId == Some(subscription.value.id))
      ==> r.0 == st && r.1 == st.subscriptionInfo[shop]
    ensures shop in st.subscriptionInfo && subscription.Some? && st.subscriptionInfo[shop].subscriptionId != Some(subscription.value.id)
      ==> r.1.subscriptionId == Some(subscription.value.id) && r.1.planName == subscription.value.name
    ensures WellFormed(st) && Valid(StartDate(subscription, now)) ==> WellFormed(r.0)
    ensures NoOrphanUsage(st) ==> NoOrphanUsage(r.0)
  {
    if shop !in st.subscriptionInfo then
      var start := StartDate(subscription, now);
      var info := SubscriptionInfo(
        shop,
        if subscription.Some? then Some(subscription.value.id) else None,
        if subscription.Some? && subscription.value.name != "" then subscription.value.name else "Free",
        start.day,
        start);
      (st.(subscriptionInfo := st.subscriptionInfo[shop := info]), info)
    else
      var info := st.subscriptionInfo[shop];
      if subscription.Some? && info.subscriptionId != Some(subscription.value.id) then
        var info' := info.(subscriptionId := Some(subscription.value.id), planName := subscription.value.name);
        (st.(subscriptionInfo := st.subscriptionInfo[shop := info']), info')
      else
        (st, info)
  }

  /**
   * `getCurrentBillingUsage`: the shop's counters for the current period,
   * creating a zeroed row when the period has none yet. Throws when the shop
   * has no subscription info.
   */
  function GetCurrentBillingUsage(st: Store, shop: string, now: Date): (r: Step<BillingUsage>)
    ensures r.result.Failure? <==> shop !in st.subscriptionInfo
    ensures r.result.Failure? ==> r.store == st
    ensures r.result.Success? ==>
      var key := CurrentKey(st, shop, now);
      var anchor := st.subscriptionInfo[shop].billingCycleDay;
      && r.store.sessions == st.sessions
      && r.store.subscriptionInfo == st.subscriptionInfo
      && r.store.usageTracking.Keys == st.usageTracking.Keys + {key}
      && (forall k :: k in st.usageTracking ==> r.store.usageTracking[k] == st.usageTracking[k])
      && r.result.value.usage == r.store.usageTracking[key]
      && (r.result.value.usage.priceUpdates, r.result.value.usage.compareAtUpdates) == UsedSoFar(st, shop, now)
      && r.result.value.billingPeriod == PeriodKey(anchor, now)
      && r.result.value.nextResetDate == NextResetDate(anchor, now)
    ensures WellFormed(st) ==> WellFormed(r.store)
    ensures NoOrphanUsage(st) ==> NoOrphanUsage(r.store)
  {
    if shop !in st.subscriptionInfo then
      Step(st, Failure(SubscriptionInfoNotFound))
    else
      var anchor := st.subscriptionInfo[shop].billingCycleDay;
      var billingPeriod := PeriodKey(anchor, now);
      var key := (shop, billingPeriod);
      var st' :=
        if key in st.usageTracking then st
        else st.(usageTracking := st.usageTracking[key := UsageRecord(shop, billingPeriod, 0, 0)]);
      Step(st', Success(BillingUsage(st'.usageTracking[key], billingPeriod, NextResetDate(anchor, now))))
  }

  /**
   * `incrementUsage`: adds the deltas to the current period's counters,
   * starting from zero when the period has no row yet. Throws when the shop
   * has no subscription info.
   */
  function IncrementUsage(st: Store, shop: string, priceCount: int, compareAtCount: int, now: Date)
    : (r: Step<UsageRecord>)
    ensures r.result.Failure? <==> shop !in st.subscriptionInfo
    ensures r.result.Failure? ==> r.store == st
    ensures r.result.Success? ==>
      var key := CurrentKey(st, shop, now);
      var (p, c) := UsedSoFar(st, shop, now);
      && r.store.sessions == st.sessions
      && r.store.subscriptionInfo == st.subscriptionInfo
      && r.store.usageTracking.Keys == st.usageTracking.Keys + {key}
      && (forall k :: k in st.usageTracking && k != key ==> r.store.usageTracking[k] == st.usageTracking[k])
      && r.result.value == r.store.usageTracking[key]
      && r.result.value.priceUpdates == p + priceCount
      && r.result.value.compareAtUpdates == c + compareAtCount
    ensures WellFormed(st) ==> WellFormed(r.store)
    ensures NoOrphanUsage(st) ==> NoOrphanUsage(r.store)
  {
    if shop !in st.subscriptionInfo then
      Step(st, Failure(SubscriptionInfoNotFound))
    else
      var billingPeriod := PeriodKey(st.subscriptionInfo[shop].billingCycleDay, now);
      var key := (shop, billingPeriod);
      var row :=
        if key in st.usageTracking then
          var existing := st.usageTracking[key];
          existing.(priceUpdates := existing.priceUpdates + priceCount,
                   compareAtUpdates := existing.compareAtUpdates + compareAtCount)
        else
          UsageRecord(shop, billingPeriod, priceCount, compareAtCount);
      Step(st.(usageTracking := st.usageTracking[key := row]), Success(row))
  }

  /**
   * The ordered threshold test of `checkUsageLimit`: unlimited plans pass,
   * then the price counter is tested, then the compare-at counter. JavaScript
   * compares a number with `null` as with 0; the classifier never pairs a
   * price limit with an unlimited compare-at limit, so that case is unused.
   */
  function LimitVerdict(limits: PlanLimits, usedPrice: int, usedCompareAt: int, newPriceCount: int, newCompareAtCount: int)
    : (r: LimitCheck)
    ensures r.Allowed? <==>
      limits.price.None?
      || (usedPrice + newPriceCount <= limits.price.value && usedCompareAt + newCompareAtCount <= limits.compareAt.GetOr(0))
    ensures r.Rejected? && r.kind == Price <==> limits.price.Some? && usedPrice + newPriceCount > limits.price.value
    ensures r.Rejected? && r.kind == Price ==> r == Rejected(Price, limits.price.value, usedPrice, newPriceCount)
    ensures r.Rejected? && r.kind == CompareAt ==> r == Rejected(CompareAt, limits.compareAt.GetOr(0), usedCompareAt, newCompareAtCount)
  {
    if limits.price.None? then Allowed
    else if usedPrice + newPriceCount > limits.price.value then
      Rejected(Price, limits.price.value, usedPrice, newPriceCount)
    else if usedCompareAt + newCompareAtCount > limits.compareAt.GetOr(0) then
      Rejected(CompareAt, limits.compareAt.GetOr(0), usedCompareAt, newCompareAtCount)
    else Allowed
  }

  /**
   * `checkUsageLimit`: whether adding the requested counts to this period's
   * usage stays within the plan's limits. Landing exactly on a limit is
   * allowed. Throws when the shop has no subscription info, even for an
   * unlimited plan.
   */
  function CheckUsageLimit(st: Store, shop: string, subscriptionName: Option<string>, newPriceCount: int, newCompareAtCount: int, now: Date)
    : (r: Step<LimitCheck>)
    ensures r.store == GetCurrentBillingUsage(st, shop, now).store
    ensures r.result.Failure? <==> shop !in st.subscriptionInfo
    ensures r.result.Success? ==>
      var limits := GetVariantLimitForPlan(subscriptionName);
      var (p, c) := UsedSoFar(st, shop, now);
      && (r.result.value.Allowed? <==>
            limits.price.None?
            || (p + newPriceCount <= limits.price.value && c + newCompareAtCount <= limits.compareAt.value))
      && (r.result.value.Rejected? && r.result.value.kind == Price <==>
            limits.price.Some? && p + newPriceCount > limits.price.value)
      && (r.result.value.Rejected? && r.result.value.kind == Price ==>
            r.result.value == Rejected(Price, limits.price.value, p, newPriceCount))
      && (r.result.value.Rejected? && r.result.value.kind == CompareAt ==>
            r.result.value == Rejected(CompareAt, limits.compareAt.value, c, newCompareAtCount))
  {
    var limits := GetVariantLimitForPlan(subscriptionName);
    var current := GetCurrentBillingUsage(st, shop, now);
    if current.result.Failure? then
      Step(current.store, Failure(current.result.error))
    else
      var usage := current.result.value.usage;
      Step(current.store, Success(LimitVerdict(limits, usage.priceUpdates, usage.compareAtUpdates, newPriceCount, newCompareAtCount)))
  }

  /** What is left of a limit; JavaScript's truthiness test makes a limit of 0 read as unlimited. */
  function Remaining(limit: Option<nat>, used: int): (r: Option<int>)
    ensures r.None? <==> limit.None? || limit.value == 0
    ensures r.Some? ==> r.value + used == limit.value
  {
    if limit.Some? && limit.value != 0 then Some(limit.value - used) else None
  }

  /**
   * `getUsageStats`: this period's counters, the plan's limits, what is left
   * of each (not clamped at zero) and the reset date.
   */
  function GetUsageStats(st: Store, shop: string, subscriptionName: Option<string>, now: Date): (r: Step<UsageStats>)
    ensures r.store == GetCurrentBillingUsage(st, shop, now).store
    ensures r.result.Failure? <==> shop !in st.subscriptionInfo
    ensures r.result.Success? ==>
      var limits := GetVariantLimitForPlan(subscriptionName);
      var (p, c) := UsedSoFar(st, shop, now);
      var s := r.result.value;
      && s.priceUpdates == p && s.compareAtUpdates == c
      && s.limits == limits
      && s.nextResetDate == NextResetDate(st.subscriptionInfo[shop].billingCycleDay, now)
      && (s.priceRemaining.None? <==> limits.price.None?)
      && (s.priceRemaining.Some? ==> s.priceRemaining.value + p == limits.price.value)
      && (s.compareAtRemaining.None? <==> limits.compareAt.None?)
      && (s.compareAtRemaining.Some? ==> s.compareAtRemaining.value + c == limits.compareAt.value)
  {
    var limits := GetVariantLimitForPlan(subscriptionName);
    var current := GetCurrentBillingUsage(st, shop, now);
    if current.result.Failure? then
      Step(current.store, Failure(current.result.error))
    else
      var usage := current.result.value.usage;
      Step(current.store, Success(UsageStats(
        usage.priceUpdates,
        usage.compareAtUpdates,
        limits,
        current.result.value.nextResetDate,
        Remaining(limits.price, usage.priceUpdates),
        Remaining(limits.compareAt, usage.compareAtUpdates))))
  }
}
