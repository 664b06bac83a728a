/**
 * The state of the two tables the ledger owns, as maps from each table's
 * unique key to its row, plus the sessions table the privacy webhook clears,
 * as a set of (id, shop) rows.
 * Every database call of the ledger is one atomic step on this state.
 */
module Db {
  import opened Wrappers
  import opened Calendar

  /** A stored admin session; only the shop it belongs to matters here. */
  datatype Session = Session(id: string, shop: string)

  /** A shop's plan and billing anchor, keyed by `shop`. */
  datatype SubscriptionInfo = SubscriptionInfo(
    shop: string,
    subscriptionId: Option<string>,
    planName: string,
    billingCycleDay: int,
    startedAt: Date)

  /** A shop's counters for one billing period, keyed by `(shop, billingPeriod)`. */
  datatype UsageRecord = UsageRecord(
    shop: string,
    billingPeriod: string,
    priceUpdates: int,
    compareAtUpdates: int)

  type UsageKey = (string, string)

  datatype Store = Store(
    sessions: set<Session>,
    subscriptionInfo: map<string, SubscriptionInfo>,
    usageTracking: map<UsageKey, UsageRecord>)

  const EmptyStore := Store({}, map[], map[])

  /**
   * Every row sits under the key its own fields make up, and every anchor is
   * a day of the month (it is read off a date with `getDate`).
   */
  predicate WellFormed(st: Store) {
    && (forall shop :: shop in st.subscriptionInfo ==>
          st.subscriptionInfo[shop].shop == shop && 1 <= st.subscriptionInfo[shop].billingCycleDay <= 31)
    && (forall k :: k in st.usageTracking ==>
          st.usageTracking[k].shop == k.0 && st.usageTracking[k].billingPeriod == k.1)
  }

  /** Every usage counter is non-negative. */
  predicate NonNegativeCounters(st: Store) {
    forall k :: k in st.usageTracking ==>
      st.usageTracking[k].priceUpdates >= 0 && st.usageTracking[k].compareAtUpdates >= 0
  }

  /** Every usage row belongs to a shop that has subscription info. */
  predicate NoOrphanUsage(st: Store) {
    forall k :: k in st.usageTracking ==> k.0 in st.subscriptionInfo
  }
}
