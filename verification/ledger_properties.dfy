/**
 * Properties relating several ledger calls: idempotence of the lookups,
 * accumulation of increments, isolation of earlier periods, and how a shop
 * redaction interacts with the ledger.
 */
module LedgerProperties {
  import opened Wrappers
  import opened Calendar
  import opened BillingPeriod
  import opened Plans
  import opened Db
  import opened Usage
  import opened Privacy

  /** A second `getOrCreateSubscriptionInfo` with the same subscription changes nothing, whatever the date. */
  lemma GetOrCreateIdempotent(st: Store, shop: string, subscription: Option<Subscription>, now: Date, later: Date)
    ensures var (st1, info1) := GetOrCreateSubscriptionInfo(st, shop, subscription, now);
      GetOrCreateSubscriptionInfo(st1, shop, subscription, later) == (st1, info1)
  {
    var (st1, info1) := GetOrCreateSubscriptionInfo(st, shop, subscription, now);
    assert shop in st1.subscriptionInfo;
    assert subscription.Some? ==> info1.subscriptionId == Some(subscription.value.id);
  }

  /** `now` and `later` fall in the same billing period of `shop` (vacuous for an unknown shop). */
  predicate SamePeriod(st: Store, shop: string, now: Date, later: Date) {
    shop in st.subscriptionInfo ==>
      var anchor := st.subscriptionInfo[shop].billingCycleDay;
      PeriodStart(anchor, now) == PeriodStart(anchor, later)
  }

  /**
   * Within one period, a second `getCurrentBillingUsage` changes nothing and
   * reads the same row under the same key; at the same instant it answers
   * exactly the same.
   */
  lemma CurrentUsageIdempotent(st: Store, shop: string, now: Date, later: Date)
    requires SamePeriod(st, shop, now, later)
    ensures var first := GetCurrentBillingUsage(st, shop, now);
      var second := GetCurrentBillingUsage(first.store, shop, later);
      && second.store == first.store
      && (second.result.Failure? <==> first.result.Failure?)
      && (first.result.Success? ==>
            && second.result.value.usage == first.result.value.usage
            && second.result.value.billingPeriod == first.result.value.billingPeriod)
      && (now == later ==> second == first)
  {
    if shop in st.subscriptionInfo {
      assert CurrentKey(st, shop, now) == CurrentKey(st, shop, later);
    }
  }

  /** Reading the current usage creates at most a zeroed row: the counters it reports stay what they were. */
  lemma ReadKeepsCounters(st: Store, shop: string, now: Date)
    requires shop in st.subscriptionInfo
    ensures var st' := GetCurrentBillingUsage(st, shop, now).store;
      && st'.subscriptionInfo == st.subscriptionInfo
      && UsedSoFar(st', shop, now) == UsedSoFar(st, shop, now)
  {
  }

  /** After an increment, reading the period's usage shows the previous counters plus the deltas. */
  lemma IncrementThenRead(st: Store, shop: string, priceCount: int, compareAtCount: int, now: Date)
    requires shop in st.subscriptionInfo
    ensures var st' := IncrementUsage(st, shop, priceCount, compareAtCount, now).store;
      && shop in st'.subscriptionInfo
      && UsedSoFar(st', shop, now).0 == UsedSoFar(st, shop, now).0 + priceCount
      && UsedSoFar(st', shop, now).1 == UsedSoFar(st, shop, now).1 + compareAtCount
      && GetCurrentBillingUsage(st', shop, now).store == st'
  {
  }

  /** Repeated increments in one period accumulate, whenever in the period they happen; none overwrites another. */
  lemma IncrementsAccumulate(st: Store, shop: string, p1: int, c1: int, p2: int, c2: int, now: Date, later: Date)
    requires shop in st.subscriptionInfo
    requires SamePeriod(st, shop, now, later)
    ensures var st1 := IncrementUsage(st, shop, p1, c1, now).store;
      var st2 := IncrementUsage(st1, shop, p2, c2, later).store;
      && shop in st2.subscriptionInfo
      && UsedSoFar(st2, shop, later).0 == UsedSoFar(st, shop, now).0 + p1 + p2
      && UsedSoFar(st2, shop, later).1 == UsedSoFar(st, shop, now).1 + c1 + c2
  {
    IncrementThenRead(st, shop, p1, c1, now);
    var st1 := IncrementUsage(st, shop, p1, c1, now).store;
    assert CurrentKey(st1, shop, later) == CurrentKey(st, shop, now);
    IncrementThenRead(st1, shop, p2, c2, later);
  }

  /** Creating or updating a shop's subscription info leaves the usage table alone. */
  lemma RegisterKeepsNonNegativeCounters(st: Store, shop: string, subscription: Option<Subscription>, now: Date)
    requires NonNegativeCounters(st)
    ensures NonNegativeCounters(GetOrCreateSubscriptionInfo(st, shop, subscription, now).0)
  {
  }

  /** Reading the current period's usage creates a zero row at most. */
  lemma ReadKeepsNonNegativeCounters(st: Store, shop: string, now: Date)
    requires NonNegativeCounters(st)
    ensures NonNegativeCounters(GetCurrentBillingUsage(st, shop, now).store)
  {
  }

  /** An increment by non-negative deltas keeps every counter non-negative. */
  lemma IncrementKeepsNonNegativeCounters(st: Store, shop: string, p: nat, c: nat, now: Date)
    requires NonNegativeCounters(st)
    ensures NonNegativeCounters(IncrementUsage(st, shop, p, c, now).store)
  {
  }

  /**
   * Counters stay non-negative as long as every increment is: the ledger
   * only ever creates zero rows and adds the deltas it is given.
   */
  lemma LedgerKeepsNonNegativeCounters(st: Store, shop: string, subscription: Option<Subscription>, p: nat, c: nat,
                                       planName: Option<string>, newPriceCount: int, newCompareAtCount: int, now: Date)
    requires NonNegativeCounters(st)
    ensures NonNegativeCounters(GetOrCreateSubscriptionInfo(st, shop, subscription, now).0)
    ensures NonNegativeCounters(GetCurrentBillingUsage(st, shop, now).store)
    ensures NonNegativeCounters(IncrementUsage(st, shop, p, c, now).store)
    ensures NonNegativeCounters(CheckUsageLimit(st, shop, planName, newPriceCount, newCompareAtCount, now).store)
    ensures NonNegativeCounters(GetUsageStats(st, shop, planName, now).store)
  {
    RegisterKeepsNonNegativeCounters(st, shop, subscription, now);
    ReadKeepsNonNegativeCounters(st, shop, now);
    IncrementKeepsNonNegativeCounters(st, shop, p, c, now);
  }

  /** A privacy webhook only removes rows, so it keeps the counters non-negative. */
  lemma RedactKeepsNonNegativeCounters(st: Store, topic: string, shop: string, fault: RedactFault)
    requires NonNegativeCounters(st)
    ensures NonNegativeCounters(Action(st, topic, shop, fault).0)
  {
  }

  /**
   * In a store whose counters are non-negative (which the ledger keeps, see
   * `LedgerKeepsNonNegativeCounters`), an increment by non-negative deltas
   * leaves the current counters at least as large as those deltas.
   */
  lemma IncrementMonotone(st: Store, shop: string, priceCount: nat, compareAtCount: nat, now: Date)
    requires NonNegativeCounters(st) && shop in st.subscriptionInfo
    ensures var r := GetCurrentBillingUsage(IncrementUsage(st, shop, priceCount, compareAtCount, now).store, shop, now);
      && r.result.Success?
      && r.result.value.usage.priceUpdates >= priceCount
      && r.result.value.usage.compareAtUpdates >= compareAtCount
  {
  }

  /**
   * Once the period has rolled over, the earlier period's row is neither
   * read nor changed: it keeps its counters through reads and increments,
   * and the new period's counters start from its own row, or zero.
   */
  lemma RolloverLeavesEarlierPeriod(st: Store, shop: string, priceCount: int, compareAtCount: int, earlier: Date, now: Date)
    requires shop in st.subscriptionInfo
    requires PeriodStart(st.subscriptionInfo[shop].billingCycleDay, earlier) != PeriodStart(st.subscriptionInfo[shop].billingCycleDay, now)
    ensures var oldKey := CurrentKey(st, shop, earlier);
      var read := GetCurrentBillingUsage(st, shop, now).store;
      var inc := IncrementUsage(st, shop, priceCount, compareAtCount, now).store;
      && (oldKey in read.usageTracking <==> oldKey in st.usageTracking)
      && (oldKey in inc.usageTracking <==> oldKey in st.usageTracking)
      && (oldKey in st.usageTracking ==>
            read.usageTracking[oldKey] == st.usageTracking[oldKey] && inc.usageTracking[oldKey] == st.usageTracking[oldKey])
  {
    SameKeySamePeriod(st.subscriptionInfo[shop].billingCycleDay, earlier, now);
  }

  /** A shop on an unlimited plan is always allowed, whatever its usage and request. */
  lemma UnlimitedAlwaysAllowed(st: Store, shop: string, name: string, newPriceCount: int, newCompareAtCount: int, now: Date)
    requires shop in st.subscriptionInfo
    requires exists i :: OccursAt(ToLower(name), "growth", i)
    requires !exists i :: OccursAt(ToLower(name), "starter", i)
    ensures CheckUsageLimit(st, shop, Some(name), newPriceCount, newCompareAtCount, now).result == Success(Allowed)
  {
    GrowthNames(name);
  }

  /** A request that lands exactly on both limits is allowed; the limit is exceeded only strictly. */
  lemma LandingOnLimitAllowed(st: Store, shop: string, planName: Option<string>, newPriceCount: int, newCompareAtCount: int, now: Date)
    requires shop in st.subscriptionInfo
    requires GetVariantLimitForPlan(planName).price.Some?
    requires UsedSoFar(st, shop, now).0 + newPriceCount == GetVariantLimitForPlan(planName).price.value
    requires UsedSoFar(st, shop, now).1 + newCompareAtCount == GetVariantLimitForPlan(planName).compareAt.value
    ensures CheckUsageLimit(st, shop, planName, newPriceCount, newCompareAtCount, now).result == Success(Allowed)
  {
  }

  /** The remaining allowance is not clamped: usage past the limit shows as a negative remainder. */
  lemma RemainingCanBeNegative(st: Store, shop: string, planName: Option<string>, now: Date)
    requires shop in st.subscriptionInfo
    requires GetVariantLimitForPlan(planName).price.Some?
    requires UsedSoFar(st, shop, now).0 > GetVariantLimitForPlan(planName).price.value
    ensures var s := GetUsageStats(st, shop, planName, now).result.value;
      s.priceRemaining.Some? && s.priceRemaining.value < 0
  {
  }

  /** After a shop redaction whose info deletion went through, every usage call for the shop throws. */
  lemma RedactedShopHasNoUsage(st: Store, shop: string, fault: RedactFault, now: Date, planName: Option<string>, p: int, c: int)
    requires WellFormed(st)
    requires fault == NoFault || fault == UsageDeleteFails
    ensures var st' := Action(st, "SHOP_REDACT", shop, fault).0;
      && GetCurrentBillingUsage(st', shop, now) == Step(st', Failure(SubscriptionInfoNotFound))
      && IncrementUsage(st', shop, p, c, now) == Step(st', Failure(SubscriptionInfoNotFound))
      && CheckUsageLimit(st', shop, planName, p, c, now) == Step(st', Failure(SubscriptionInfoNotFound))
      && GetUsageStats(st', shop, planName, now) == Step(st', Failure(SubscriptionInfoNotFound))
  {
    var st' := Action(st, "SHOP_REDACT", shop, fault).0;
    assert shop !in st'.subscriptionInfo;
  }

  /**
   * Only `getOrCreateSubscriptionInfo` brings a redacted shop back: the other
   * ledger calls never add subscription info, so they keep failing; after
   * re-registration a fully redacted shop starts from zero usage.
   */
  lemma ReRegisterAfterRedact(st: Store, shop: string, subscription: Option<Subscription>, now: Date)
    requires WellFormed(st)
    ensures var st' := Action(st, "SHOP_REDACT", shop, NoFault).0;
      var st'' := GetOrCreateSubscriptionInfo(st', shop, subscription, now).0;
      var r := GetCurrentBillingUsage(st'', shop, now);
      && r.result.Success?
      && r.result.value.usage.priceUpdates == 0 && r.result.value.usage.compareAtUpdates == 0
  {
    var st' := Action(st, "SHOP_REDACT", shop, NoFault).0;
    var st'' := GetOrCreateSubscriptionInfo(st', shop, subscription, now).0;
    var key := CurrentKey(st'', shop, now);
    assert key !in st'.usageTracking;
  }

  /** Ledger calls keep every usage row attached to a shop with subscription info. */
  lemma LedgerKeepsNoOrphans(st: Store, shop: string, subscription: Option<Subscription>, p: int, c: int, planName: Option<string>, now: Date)
    requires NoOrphanUsage(st)
    ensures NoOrphanUsage(GetOrCreateSubscriptionInfo(st, shop, subscription, now).0)
    ensures NoOrphanUsage(GetCurrentBillingUsage(st, shop, now).store)
    ensures NoOrphanUsage(IncrementUsage(st, shop, p, c, now).store)
    ensures NoOrphanUsage(CheckUsageLimit(st, shop, planName, p, c, now).store)
    ensures NoOrphanUsage(GetUsageStats(st, shop, planName, now).store)
  {
  }

  /** A redaction whose usage deletion does not fail leaves no orphaned usage row behind. */
  lemma RedactKeepsNoOrphans(st: Store, topic: string, shop: string, fault: RedactFault)
    requires WellFormed(st) && NoOrphanUsage(st)
    requires fault != UsageDeleteFails
    ensures NoOrphanUsage(Action(st, topic, shop, fault).0)
  {
    var st' := Action(st, topic, shop, fault).0;
    if topic == "SHOP_REDACT" && fault == NoFault {
      forall k | k in st'.usageTracking
        ensures k.0 in st'.subscriptionInfo
      {
        assert st.usageTracking[k].shop == k.0;
        assert st.subscriptionInfo[k.0].shop == k.0;
      }
    }
  }

  /** A failed usage deletion strands the shop's usage rows without subscription info. */
  lemma FailedUsageDeletionOrphansRows()
    ensures var st := Store({}, map["s1" := SubscriptionInfo("s1", None, "Free", 1, Date(2026, 1, 1))],
                                map[("s1", "2026-01-01") := UsageRecord("s1", "2026-01-01", 3, 4)]);
      NoOrphanUsage(st) && !NoOrphanUsage(Action(st, "SHOP_REDACT", "s1", UsageDeleteFails).0)
  {
    var st := Store({}, map["s1" := SubscriptionInfo("s1", None, "Free", 1, Date(2026, 1, 1))],
                        map[("s1", "2026-01-01") := UsageRecord("s1", "2026-01-01", 3, 4)]);
    var st' := Action(st, "SHOP_REDACT", "s1", UsageDeleteFails).0;
    assert ("s1", "2026-01-01") in st'.usageTracking;
    assert "s1" !in st'.subscriptionInfo;
  }
}
