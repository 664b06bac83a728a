/**
 * Worked sequences of ledger calls: the usage walk-through of test-usage.js
 * and worked examples of the limit, tier and roll-over behaviour.
 */
module Scenarios {
  import opened Wrappers
  import opened Calendar
  import opened IsoDate
  import opened BillingPeriod
  import opened Plans
  import opened Db
  import opened Usage
  import opened LedgerProperties

  /** A shop seen for the first time is registered with nothing used in its current period. */
  lemma NewShopStartsAtZero(st: Store, shop: string, subscription: Option<Subscription>, now: Date)
    requires shop !in st.subscriptionInfo && NoOrphanUsage(st)
    ensures var st' := GetOrCreateSubscriptionInfo(st, shop, subscription, now).0;
      && shop in st'.subscriptionInfo
      && st'.subscriptionInfo[shop].billingCycleDay == StartDate(subscription, now).day
      && UsedSoFar(st', shop, now) == (0, 0)
  {
    var st' := GetOrCreateSubscriptionInfo(st, shop, subscription, now).0;
    assert CurrentKey(st', shop, now) !in st.usageTracking;
  }

  /**
   * On the Free plan with nothing used: the statistics show 0/0 with 30/30
   * remaining, and a request of 10/10 is allowed; neither call records usage.
   */
  lemma FreePlanFirstCheck(st: Store, shop: string, now: Date)
    requires shop in st.subscriptionInfo && UsedSoFar(st, shop, now) == (0, 0)
    ensures var anchor := st.subscriptionInfo[shop].billingCycleDay;
      var stats := GetUsageStats(st, shop, Some("Free"), now);
      var check := CheckUsageLimit(stats.store, shop, Some("Free"), 10, 10, now);
      && stats.result == Success(UsageStats(0, 0, PlanLimits(Some(30), Some(30)), NextResetDate(anchor, now), Some(30), Some(30)))
      && check.result == Success(Allowed)
      && check.store.subscriptionInfo == st.subscriptionInfo
      && UsedSoFar(check.store, shop, now) == (0, 0)
  {
    FreeName();
    ReadKeepsCounters(st, shop, now);
  }

  /**
   * On the Free plan with nothing used, recording 10/10 leaves 20/20, and a
   * further 25 price updates are rejected on the price limit.
   */
  lemma FreePlanAfterIncrement(st: Store, shop: string, now: Date)
    requires shop in st.subscriptionInfo && UsedSoFar(st, shop, now) == (0, 0)
    ensures var anchor := st.subscriptionInfo[shop].billingCycleDay;
      var st' := IncrementUsage(st, shop, 10, 10, now).store;
      var stats := GetUsageStats(st', shop, Some("Free"), now);
      var check := CheckUsageLimit(stats.store, shop, Some("Free"), 25, 0, now);
      && stats.result == Success(UsageStats(10, 10, PlanLimits(Some(30), Some(30)), NextResetDate(anchor, now), Some(20), Some(20)))
      && check.result == Success(Rejected(Price, 30, 10, 25))
  {
    FreeName();
    IncrementThenRead(st, shop, 10, 10, now);
    var st' := IncrementUsage(st, shop, 10, 10, now).store;
    ReadKeepsCounters(st', shop, now);
  }

  /**
   * The walk-through of test-usage.js: a new Free shop, a 10/10 request
   * allowed and recorded, then a request of 25 price updates rejected with
   * limit 30, current 10, attempted 25.
   */
  lemma FreePlanWalkThrough(now: Date)
    ensures
      var shop := "test-shop.myshopify.com";
      var st1 := GetOrCreateSubscriptionInfo(EmptyStore, shop, Some(Subscription("test-sub-1", "Free", Some(now))), now).0;
      var stats0 := GetUsageStats(st1, shop, Some("Free"), now);
      var check1 := CheckUsageLimit(stats0.store, shop, Some("Free"), 10, 10, now);
      var st3 := IncrementUsage(check1.store, shop, 10, 10, now).store;
      var stats1 := GetUsageStats(st3, shop, Some("Free"), now);
      var check2 := CheckUsageLimit(stats1.store, shop, Some("Free"), 25, 0, now);
      check1.result == Success(Allowed) && check2.result == Success(Rejected(Price, 30, 10, 25))
  {
    var shop := "test-shop.myshopify.com";
    NewShopStartsAtZero(EmptyStore, shop, Some(Subscription("test-sub-1", "Free", Some(now))), now);
    var st1 := GetOrCreateSubscriptionInfo(EmptyStore, shop, Some(Subscription("test-sub-1", "Free", Some(now))), now).0;
    FreePlanFirstCheck(st1, shop, now);
    var stats0 := GetUsageStats(st1, shop, Some("Free"), now);
    var check1 := CheckUsageLimit(stats0.store, shop, Some("Free"), 10, 10, now);
    FreePlanAfterIncrement(check1.store, shop, now);
  }

  /**
   * A Starter shop at 0/0: 250/250 is allowed; once recorded, a further 60
   * price updates would reach 310 and are rejected against the 300 limit.
   */
  lemma StarterPlanLimit(st: Store, now: Date)
    requires "s1" in st.subscriptionInfo
    requires UsedSoFar(st, "s1", now) == (0, 0)
    ensures
      var check1 := CheckUsageLimit(st, "s1", Some("Starter"), 250, 250, now);
      var st2 := IncrementUsage(check1.store, "s1", 250, 250, now).store;
      var check2 := CheckUsageLimit(st2, "s1", Some("Starter"), 60, 0, now);
      && check1.result == Success(Allowed)
      && check2.result == Success(Rejected(Price, 300, 250, 60))
  {
    StarterName();
    var check1 := CheckUsageLimit(st, "s1", Some("Starter"), 250, 250, now);
    ReadKeepsCounters(st, "s1", now);
    IncrementThenRead(check1.store, "s1", 250, 250, now);
  }

  /** On a fresh Free period, 30 price updates are allowed and 31 are rejected. */
  lemma FreeTierBoundary(st: Store, now: Date)
    requires "s1" in st.subscriptionInfo
    requires UsedSoFar(st, "s1", now) == (0, 0)
    ensures CheckUsageLimit(st, "s1", Some("Free"), 30, 0, now).result == Success(Allowed)
    ensures CheckUsageLimit(st, "s1", Some("Free"), 31, 0, now).result == Success(Rejected(Price, 30, 0, 31))
  {
    FreeName();
  }

  /** "Growth Plan" is unlimited: any request passes, whatever has been used. */
  lemma GrowthPlanUnlimited(st: Store, p: int, c: int, now: Date)
    requires "s1" in st.subscriptionInfo
    ensures CheckUsageLimit(st, "s1", Some("Growth Plan"), p, c, now).result == Success(Allowed)
  {
    GrowthPlanName();
  }

  /** Anchored on the 15th, the period of 16 February 2026 runs from 15 February to 15 March. */
  lemma MidFebruary2026Bounds()
    ensures PeriodStart(15, Date(2026, 2, 16)) == Date(2026, 2, 15)
    ensures NextResetDate(15, Date(2026, 2, 16)) == Date(2026, 3, 15)
  {
    PeriodBounds(15, Date(2026, 2, 16));
  }

  /** The key of 15 February 2026 is "2026-02-15". */
  lemma MidFebruary2026Key()
    ensures DateKey(Date(2026, 2, 15)) == "2026-02-15"
  {
    KeyLayout(Date(2026, 2, 15));
    FourDigits(2026);
  }

  /** Anchored on the 15th, 16 February 2026 lies in period 2026-02-15, which resets on 15 March. */
  lemma MidFebruary2026()
    ensures PeriodKey(15, Date(2026, 2, 16)) == "2026-02-15"
    ensures NextResetDate(15, Date(2026, 2, 16)) == Date(2026, 3, 15)
  {
    MidFebruary2026Bounds();
    MidFebruary2026Key();
  }

  /**
   * A shop anchored on the 15th with usage in period 2026-01-15: on
   * 16 February 2026 the ledger reads a fresh zeroed row for period
   * 2026-02-15 and leaves the January row as it was.
   */
  lemma MonthlyRollover(january: UsageRecord)
    requires january.shop == "s1" && january.billingPeriod == "2026-01-15"
    ensures
      var st := Store({}, map["s1" := SubscriptionInfo("s1", Some("sub"), "Starter", 15, Date(2025, 12, 15))],
                          map[("s1", "2026-01-15") := january]);
      var r := GetCurrentBillingUsage(st, "s1", Date(2026, 2, 16));
      && r.result == Success(BillingUsage(UsageRecord("s1", "2026-02-15", 0, 0), "2026-02-15", Date(2026, 3, 15)))
      && r.store.usageTracking[("s1", "2026-01-15")] == january
  {
    MidFebruary2026();
  }
}
