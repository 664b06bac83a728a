/**
 * Plan limits: how many variant price and compare-at price updates a plan
 * allows per billing period, derived from the plan's name alone.
 */
module Plans {
  import opened Wrappers

  /** Per-period ceilings; `None` means unlimited (JavaScript's `null`). */
  datatype PlanLimits = PlanLimits(price: Option<nat>, compareAt: Option<nat>)

  /** An entry of the advertised tier table. */
  datatype Tier = Tier(key: string, name: string, priceLimit: Option<nat>, compareAtLimit: Option<nat>, description: string)

  function LowerChar(c: char): char {
    if 'A' <= c <= 'Z' then (c as int + 32) as char else c
  }

  /** `String.prototype.toLowerCase`, restricted to ASCII letters. */
  function ToLower(s: string): (r: string)
    ensures |r| == |s|
    ensures forall i :: 0 <= i < |s| ==> r[i] == LowerChar(s[i])
  {
    seq(|s|, i requires 0 <= i < |s| => LowerChar(s[i]))
  }

  /** `part` occurs in `s` starting at index `i`. */
  predicate OccursAt(s: string, part: string, i: int) {
    0 <= i <= |s| - |part| && s[i..i + |part|] == part
  }

  lemma OccursInTail(s: string, part: string)
    requires |s| > 0
    ensures (exists j :: OccursAt(s[1..], part, j)) <==> (exists i :: 1 <= i && OccursAt(s, part, i))
  {
    if exists j :: OccursAt(s[1..], part, j) {
      var j :| OccursAt(s[1..], part, j);
      assert s[j + 1..j + 1 + |part|] == s[1..][j..j + |part|];
      assert OccursAt(s, part, j + 1);
    }
    if exists i :: 1 <= i && OccursAt(s, part, i) {
      var i :| 1 <= i && OccursAt(s, part, i);
      assert s[1..][i - 1..i - 1 + |part|] == s[i..i + |part|];
      assert OccursAt(s[1..], part, i - 1);
    }
  }

  /** `String.prototype.includes`: whether `part` occurs anywhere in `s`. */
  function Includes(s: string, part: string): (b: bool)
    ensures b <==> exists i :: OccursAt(s, part, i)
    decreases |s|
  {
    if |part| > |s| then false
    else if s[..|part|] == part then assert OccursAt(s, part, 0); true
    else
      assert !OccursAt(s, part, 0);
      OccursInTail(s, part);
      Includes(s[1..], part)
  }

  /** A string none of whose possible starting positions holds `part`'s first character does not include `part`. */
  lemma FirstCharAbsent(s: string, part: string)
    requires |part| > 0
    requires forall i :: 0 <= i <= |s| - |part| ==> s[i] != part[0]
    ensures !Includes(s, part)
  {
    forall i | 0 <= i <= |s| - |part|
      ensures !OccursAt(s, part, i)
    {
      assert s[i..i + |part|][0] == s[i];
    }
  }

  const FreeLimits := PlanLimits(Some(30), Some(30))
  const StarterLimits := PlanLimits(Some(300), Some(300))
  const GrowthLimits := PlanLimits(None, None)

  /**
   * `getVariantLimitForPlan`: a missing or empty name is the free tier; else
   * the lower-cased name is searched for "starter" first, then "growth";
   * anything else is the free tier.
   */
  function GetVariantLimitForPlan(planName: Option<string>): (r: PlanLimits)
    ensures r.price.None? <==> r.compareAt.None?
    ensures r.price.Some? ==> r.price == r.compareAt && r.price.value > 0
  {
    if planName.None? || planName.value == "" then FreeLimits
    else
      var lowerPlan := ToLower(planName.value);
      if Includes(lowerPlan, "starter") then StarterLimits
      else if Includes(lowerPlan, "growth") then GrowthLimits
      else FreeLimits
  }

  /** `SUBSCRIPTION_TIERS`. */
  const SubscriptionTiers: seq<Tier> := [
    Tier("FREE", "Free", Some(30), Some(30), "30 variant price updates & 30 compare-at price updates"),
    Tier("STARTER", "Starter", Some(300), Some(300), "300 variant price updates & 300 compare-at price updates"),
    Tier("GROWTH", "Growth", None, None, "Unlimited price updates")
  ]

  /** The plan name's case plays no part in its limits. */
  lemma CaseInsensitive(name: string)
    ensures GetVariantLimitForPlan(Some(name)) == GetVariantLimitForPlan(Some(ToLower(name)))
  {
    var l := ToLower(name);
    assert ToLower(l) == l;
  }

  /** A missing or empty plan name gets the free tier's 30/30. */
  lemma MissingNameIsFree(planName: Option<string>)
    requires planName.None? || planName == Some("")
    ensures GetVariantLimitForPlan(planName) == PlanLimits(Some(30), Some(30))
  {
  }

  /** Every name whose lower-case form contains "starter" gets 300/300, even if it also contains "growth". */
  lemma StarterNames(name: string)
    requires exists i :: OccursAt(ToLower(name), "starter", i)
    ensures GetVariantLimitForPlan(Some(name)) == PlanLimits(Some(300), Some(300))
  {
  }

  /** A name containing "growth" but not "starter" is unlimited on both counters. */
  lemma GrowthNames(name: string)
    requires exists i :: OccursAt(ToLower(name), "growth", i)
    requires !exists i :: OccursAt(ToLower(name), "starter", i)
    ensures GetVariantLimitForPlan(Some(name)) == PlanLimits(None, None)
  {
    assert name != "";
  }

  /** Every other name falls back to the free tier. */
  lemma OtherNamesAreFree(name: string)
    requires !exists i :: OccursAt(ToLower(name), "growth", i)
    requires !exists i :: OccursAt(ToLower(name), "starter", i)
    ensures GetVariantLimitForPlan(Some(name)) == PlanLimits(Some(30), Some(30))
  {
  }

  /** "Growth Starter Bundle" contains both words and is classified as Starter. */
  lemma StarterWinsOverGrowth()
    ensures GetVariantLimitForPlan(Some("Growth Starter Bundle")) == PlanLimits(Some(300), Some(300))
  {
    var l := ToLower("Growth Starter Bundle");
    assert l[7..14] == "starter";
    assert OccursAt(l, "starter", 7);
  }

  /** The tier name "Free" gets the free tier's 30/30. */
  lemma FreeName()
    ensures GetVariantLimitForPlan(Some("Free")) == PlanLimits(Some(30), Some(30))
  {
    assert ToLower("Free") == "free";
    assert !Includes("free", "starter");
    assert !Includes("free", "growth");
  }

  /** The tier name "Starter" gets 300/300. */
  lemma StarterName()
    ensures GetVariantLimitForPlan(Some("Starter")) == PlanLimits(Some(300), Some(300))
  {
    assert ToLower("Starter") == "starter";
    assert OccursAt("starter", "starter", 0);
  }

  /** The tier name "Growth" is unlimited. */
  lemma GrowthName()
    ensures GetVariantLimitForPlan(Some("Growth")) == PlanLimits(None, None)
  {
    assert ToLower("Growth") == "growth";
    assert OccursAt("growth", "growth", 0);
    assert !Includes("growth", "starter");
  }

  /** "Growth Plan", the name the app reports for the Growth subscription, is unlimited. */
  lemma GrowthPlanName()
    ensures GetVariantLimitForPlan(Some("Growth Plan")) == PlanLimits(None, None)
  {
    var l := ToLower("Growth Plan");
    assert l == "growth plan";
    assert OccursAt(l, "growth", 0);
    FirstCharAbsent(l, "starter");
  }

  /** Classifying each advertised tier's name gives back that tier's limits. */
  lemma TiersAgreeWithClassifier()
    ensures forall t :: t in SubscriptionTiers ==>
      GetVariantLimitForPlan(Some(t.name)) == PlanLimits(t.priceLimit, t.compareAtLimit)
  {
    FreeName();
    StarterName();
    GrowthName();
  }
}
