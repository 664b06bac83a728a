/**
 * The mandatory privacy webhook: customer data requests and customer
 * redactions are acknowledged without any change (no customer data is kept),
 * and a shop redaction deletes the shop's sessions, subscription info and
 * usage rows, in that order. Whatever happens, the webhook answers 200 "OK".
 */
module Privacy {
  import opened Db

  /**
   * Which of the three deletions of a shop redaction fails, if any. A failed
   * deletion throws, so the deletions after it do not run, while the ones
   * before it have already taken effect.
   */
  datatype RedactFault = NoFault | SessionDeleteFails | SubscriptionInfoDeleteFails | UsageDeleteFails

  datatype Response = Response(status: int, body: string)

  /** `after`'s sessions are `before`'s minus exactly those of `shop`. */
  ghost predicate SessionsCleared(before: Store, after: Store, shop: string) {
    forall s :: s in after.sessions <==> s in before.sessions && s.shop != shop
  }

  /** `after`'s subscription info rows are `before`'s minus exactly those of `shop`. */
  ghost predicate SubscriptionInfoCleared(before: Store, after: Store, shop: string) {
    && (forall k :: k in after.subscriptionInfo <==> k in before.subscriptionInfo && before.subscriptionInfo[k].shop != shop)
    && (forall k :: k in after.subscriptionInfo ==> after.subscriptionInfo[k] == before.subscriptionInfo[k])
  }

  /** `after`'s usage rows are `before`'s minus exactly those of `shop`. */
  ghost predicate UsageCleared(before: Store, after: Store, shop: string) {
    && (forall k :: k in after.usageTracking <==> k in before.usageTracking && before.usageTracking[k].shop != shop)
    && (forall k :: k in after.usageTracking ==> after.usageTracking[k] == before.usageTracking[k])
  }

  /** `db.session.deleteMany({ where: { shop } })`. */
  function DeleteSessions(st: Store, shop: string): (r: Store)
    ensures SessionsCleared(st, r, shop)
    ensures r.subscriptionInfo == st.subscriptionInfo && r.usageTracking == st.usageTracking
  {
    st.(sessions := set s | s in st.sessions && s.shop != shop)
  }

  /** `db.subscriptionInfo.deleteMany({ where: { shop } })`. */
  function DeleteSubscriptionInfo(st: Store, shop: string): (r: Store)
    ensures SubscriptionInfoCleared(st, r, shop)
    ensures r.sessions == st.sessions && r.usageTracking == st.usageTracking
  {
    st.(subscriptionInfo := map k | k in st.subscriptionInfo && st.subscriptionInfo[k].shop != shop :: st.subscriptionInfo[k])
  }

  /** `db.usageTracking.deleteMany({ where: { shop } })`. */
  function DeleteUsage(st: Store, shop: string): (r: Store)
    ensures UsageCleared(st, r, shop)
    ensures r.sessions == st.sessions && r.subscriptionInfo == st.subscriptionInfo
  {
    st.(usageTracking := map k | k in st.usageTracking && st.usageTracking[k].shop != shop :: st.usageTracking[k])
  }

  /** The three deletions in order, stopping at the one that fails. */
  function RedactShop(st: Store, shop: string, fault: RedactFault): (r: Store)
    ensures fault == NoFault ==>
      SessionsCleared(st, r, shop) && SubscriptionInfoCleared(st, r, shop) && UsageCleared(st, r, shop)
    ensures fault == SessionDeleteFails ==> r == st
    ensures fault == SubscriptionInfoDeleteFails ==>
      SessionsCleared(st, r, shop) && r.subscriptionInfo == st.subscriptionInfo && r.usageTracking == st.usageTracking
    ensures fault == UsageDeleteFails ==>
      SessionsCleared(st, r, shop) && SubscriptionInfoCleared(st, r, shop) && r.usageTracking == st.usageTracking
  {
    if fault == SessionDeleteFails then st
    else
      var s1 := DeleteSessions(st, shop);
      if fault == SubscriptionInfoDeleteFails then s1
      else
        var s2 := DeleteSubscriptionInfo(s1, shop);
        if fault == UsageDeleteFails then s2
        else DeleteUsage(s2, shop)
  }

  /** The webhook `action`: dispatch on the topic, then always answer 200 "OK". */
  function Action(st: Store, topic: string, shop: string, fault: RedactFault): (r: (Store, Response))
    ensures r.1 == Response(200, "OK")
    ensures topic != "SHOP_REDACT" ==> r.0 == st
    ensures topic == "SHOP_REDACT" && fault == NoFault ==>
      SessionsCleared(st, r.0, shop) && SubscriptionInfoCleared(st, r.0, shop) && UsageCleared(st, r.0, shop)
    ensures topic == "SHOP_REDACT" && fault == SessionDeleteFails ==> r.0 == st
    ensures topic == "SHOP_REDACT" && fault == SubscriptionInfoDeleteFails ==>
      SessionsCleared(st, r.0, shop) && r.0.subscriptionInfo == st.subscriptionInfo && r.0.usageTracking == st.usageTracking
    ensures topic == "SHOP_REDACT" && fault == UsageDeleteFails ==>
      SessionsCleared(st, r.0, shop) && SubscriptionInfoCleared(st, r.0, shop) && r.0.usageTracking == st.usageTracking
    ensures WellFormed(st) ==> WellFormed(r.0)
  {
    var st' :=
      match topic
      case "CUSTOMERS_DATA_REQUEST" => st
      case "CUSTOMERS_REDACT" => st
      case "SHOP_REDACT" => RedactShop(st, shop, fault)
      case _ => st;
    (st', Response(200, "OK"))
  }
}
