# Usage ledger of the price-updater app, in Dafny

This project models the usage ledger of a Shopify admin app for bulk-editing variant prices.
Each shop has a subscription plan (Free, Starter or Growth) and a billing anchor day. The ledger
counts price and compare-at price updates per billing period and checks them against the plan's
limits. The app's privacy webhook can redact a shop, which deletes the shop's rows.

The model is functional. The database is a `Store` value with three tables:

- sessions, a set of (id, shop) rows;
- subscription info, a map from the shop to its row;
- usage, a map from (shop, billing period) to its row.

Every ledger call is a function from the store before to the store after, together with what the
call returned or the error it threw (`Step`). "Now" is passed in as a parameter instead of being
read from a clock.

Modules, following the program's structure:

- `Calendar`: the part of JavaScript's `Date` that the resolver relies on.
  - `MakeDate` is `new Date(year, monthIndex, day)` for years outside 0..99, following
    ECMAScript's MakeDay. The month index is 0-based and wraps into the year. A day outside the
    month rolls into the next or previous months, using Gregorian leap years.
  - Dates are compared by their day number since 1 January 1970, which is how JavaScript
    compares `Date` values.
- `IsoDate`: the `YYYY-MM-DD` text that `toISOString().split('T')[0]` produces, used as the
  period key. Years outside 0..9999 use the expanded signed form. `ParseKey` is the inverse
  used to prove that the key is injective.
- `BillingPeriod`: `getCurrentBillingPeriod` and `getNextResetDate`.
- `Plans`: `getVariantLimitForPlan` (ASCII lower-casing plus `includes`) and `SUBSCRIPTION_TIERS`.
- `Db`: the rows, the store, and the invariants the ledger keeps.
- `Usage`: `getOrCreateSubscriptionInfo`, `getCurrentBillingUsage`, `incrementUsage`,
  `checkUsageLimit` and `getUsageStats`.
- `Privacy`: the privacy webhook `action`. A deletion failure during shop redaction is a
  parameter naming which of the three deletions throws.
- `LedgerProperties` and `Scenarios`: properties that relate several calls, and worked examples.

## Behaviour worth knowing

- Shop redaction also deletes the shop's sessions.
- `checkUsageLimit` and `getUsageStats` are not read-only. They create the zeroed row of the
  current period when it is missing.
- In the update branch, `planName` is taken from the subscription without the "Free" fallback,
  so an empty name is stored as empty.
- `getUsageStats` tests a limit with JavaScript truthiness. A limit of 0 would read as
  unlimited, but the classifier never produces 0.
- An anchor of 29–31 follows JavaScript's roll-over into the next month.
  `AnchorThirtyOneOnFirstOfMarch` pins this down: on 1 March with anchor 31, the period
  "starts" on 3 March (2 March in a leap year), after today.

## Model

| member | source | states |
|---|---|---|
| Calendar.MakeDate | app/utils/usage.server.js:18-21 | `new Date(y, m, d)` (for years outside 0..99) yields a valid calendar date for every `m` and `d`, however far out of range |
| Calendar.MakeDateDayNumber | app/utils/usage.server.js:18-21 | for years outside 0..99, `new Date(y, m, d)` lies `d - 1` days after the first of month index `m` (wrapped into the year), so out-of-range days roll over |
| Calendar.Roll | app/utils/usage.server.js:18-21 | day `d` of a month, rolled into neighbouring months when outside it, is a valid date |
| Calendar.RollDayNumber | app/utils/usage.server.js:18-21 | rolling over keeps the day number: the result lies `d - 1` days after the month's first day |
| Calendar.MonthStartStep | app/utils/usage.server.js:38 | a month ends exactly where the next starts, including December into January of the next year |
| Calendar.FirstOfMonthStep | app/utils/usage.server.js:38-41 | month index `m + 1` starts one month length after month index `m`, across year boundaries |
| Calendar.MakeDateOfValid | app/utils/usage.server.js:10-12 | for years outside 0..99, rebuilding a date from its `getFullYear`/`getMonth`/`getDate` gives the same date |
| Calendar.MakeDateInRange | app/utils/usage.server.js:18 | a day that exists in the target month is kept without roll-over |
| Calendar.MakeDateOverflow | app/utils/usage.server.js:21 | a day past the month's end rolls into the first days of the next month |
| IsoDate.ValueOfDigits | app/utils/usage.server.js:24 | reading back the zero-padded decimal digits gives the number written |
| IsoDate.DigitsWidth | app/utils/usage.server.js:24 | a number below 10^w is written with exactly w digits (two-digit month and day) |
| IsoDate.ShortYearRoundTrip | app/utils/usage.server.js:24 | a year 0–9999, written with four digits, parses back to the year |
| IsoDate.ExpandedYearRoundTrip | app/utils/usage.server.js:24 | a year outside 0–9999, written with a sign and six or more digits, parses back to the year |
| IsoDate.YearRoundTrip | app/utils/usage.server.js:24 | the year text, four-digit or signed expanded, parses back to the year |
| IsoDate.DateKey | app/utils/usage.server.js:24 | the key is at least ten characters and ends in a dash, two digits, a dash and two digits |
| IsoDate.AssembledSlices | app/utils/usage.server.js:24 | the year text, month digits and day digits sit at fixed offsets from the key's end |
| IsoDate.ParseAssembled | app/utils/usage.server.js:24 | any year text followed by `-MM-DD` parses back into its year, month and day |
| IsoDate.KeyRoundTrip | app/utils/usage.server.js:24 | parsing a period key `YYYY-MM-DD` gives back the date it was formatted from |
| IsoDate.KeyInjective | app/utils/usage.server.js:24 | two valid dates have the same key if and only if they are the same date |
| IsoDate.KeyLayout | app/utils/usage.server.js:24 | for years 0–9999 the key is ten characters: four year digits, a dash, two month digits, a dash, two day digits |
| BillingPeriod.PeriodStart | app/utils/usage.server.js:8-22 | the period start is a valid calendar date for every anchor and date, roll-over included |
| BillingPeriod.PeriodKeyParses | app/utils/usage.server.js:8-24 | the period key (`toISOString` of the start, date part) reads back as exactly the start date |
| BillingPeriod.NextResetDate | app/utils/usage.server.js:29-43 | the reset date is a valid calendar date for every anchor and date, roll-over included |
| BillingPeriod.StartBeforeReset | app/utils/usage.server.js:16-22 | for every anchor and date, the reset is strictly after the period start, by the start month's length of 28–31 days |
| BillingPeriod.PeriodBounds | app/utils/usage.server.js:16-22 | for anchors 1–28: on or after the anchor day the period runs from this month's anchor day to next month's; before it, from last month's to this month's |
| BillingPeriod.JanuaryFallsBackToDecember | app/utils/usage.server.js:20-21 | in January before the anchor day, the period started on the anchor day of December of the previous year and resets on the anchor day of this January |
| BillingPeriod.PeriodContainsNowIff | app/utils/usage.server.js:16-22 | today lies in [start, reset) if and only if today has reached the anchor, or the anchor is at most the previous month's length ahead of today |
| BillingPeriod.PeriodContainsNow | app/utils/usage.server.js:16-22 | for anchors 1–28, today always lies in [start, reset) |
| BillingPeriod.AnchorThirtyOneOnFirstOfMarch | app/utils/usage.server.js:20-21 | anchor 31 on 1 March of any year: the start rolls to 3 March (2 March in a leap year), which is after today |
| BillingPeriod.AnchorThirtyOneOnFirstOfMarch2026 | app/utils/usage.server.js:20-24 | anchor 31 on 2026-03-01 files usage under the key "2026-03-03" |
| BillingPeriod.ThirdOfMarch2026Key | app/utils/usage.server.js:24 | the date 2026-03-03 is written as the key "2026-03-03" |
| BillingPeriod.AnchorDateIsPeriodStart | app/utils/usage.server.js:16-21 | for anchors 1–31, a date built from the anchor day, rolled over or not, is the start of its own period |
| BillingPeriod.ResetStartsNextPeriod | app/utils/usage.server.js:36-42 | for anchors 1–31, on the reset date a new period begins that starts on that date |
| BillingPeriod.PeriodStartIdempotent | app/utils/usage.server.js:16-24 | resolving the period of a period's start date gives the same start and the same key |
| BillingPeriod.SameKeySamePeriod | app/utils/usage.server.js:24 | two instants share a period key if and only if they resolve to the same start date |
| Plans.ToLower | app/utils/subscription.js:4 | lower-casing keeps the length and maps each ASCII capital to its lower-case letter |
| Plans.Includes | app/utils/subscription.js:6-7 | `includes` is true if and only if the part occurs at some index of the string |
| Plans.GetVariantLimitForPlan | app/utils/subscription.js:1-10 | the limits are either both unlimited or both the same positive number |
| Plans.CaseInsensitive | app/utils/subscription.js:4 | a name and its lower-case form get the same limits |
| Plans.MissingNameIsFree | app/utils/subscription.js:2 | a missing or empty name gets 30/30 |
| Plans.StarterNames | app/utils/subscription.js:6 | any name whose lower-case form contains "starter" gets 300/300 |
| Plans.GrowthNames | app/utils/subscription.js:7 | a name containing "growth" but not "starter" is unlimited on both counters |
| Plans.OtherNamesAreFree | app/utils/subscription.js:9 | a name containing neither word gets 30/30 |
| Plans.StarterWinsOverGrowth | app/utils/subscription.js:6-7 | the name "Growth Starter Bundle", which contains both words, is classified as Starter (`StarterNames` covers every such name) |
| Plans.FreeName | app/utils/subscription.js:4-9 | the name "Free" gets 30/30 |
| Plans.StarterName | app/utils/subscription.js:4-6 | the name "Starter" gets 300/300 |
| Plans.GrowthName | app/utils/subscription.js:4-7 | the name "Growth" is unlimited |
| Plans.GrowthPlanName | app/utils/subscription.js:4-7 | the name "Growth Plan" is unlimited |
| Plans.TiersAgreeWithClassifier | app/utils/subscription.js:12-31 | classifying each tier's `name` in `SUBSCRIPTION_TIERS` returns that tier's price and compare-at limits |
| Plans.FirstCharAbsent | app/utils/subscription.js:6-7 | a string with no occurrence of the part's first character at any starting position does not include the part |
| Usage.GetOrCreateSubscriptionInfo | app/utils/usage.server.js:48-81 | a new shop gets exactly one record: anchor and start date from `createdAt` or today, name or "Free", and the subscription id. An existing record keeps its anchor and start date; it takes the new id and name only when the id differs, and is otherwise returned with the store unchanged. Other shops and all usage rows are untouched |
| Usage.GetCurrentBillingUsage | app/utils/usage.server.js:86-122 | throws, leaving the store unchanged, if and only if the shop has no subscription info. Otherwise it returns the current period's counters (zero if no row), the period key and the reset date; the only change is adding the missing row |
| Usage.IncrementUsage | app/utils/usage.server.js:127-156 | throws if and only if the shop has no subscription info. Otherwise the current period's counters become previous plus deltas (exactly the deltas if no row existed); every other row and the subscription info are unchanged |
| Usage.LimitVerdict | app/utils/usage.server.js:165-192 | allowed if and only if unlimited or both counts stay within their limits (an unlimited compare-at limit read as 0); a price rejection exactly when the price count overshoots, carrying the limit, the used count and the requested count |
| Usage.CheckUsageLimit | app/utils/usage.server.js:161-193 | throws if and only if the shop has no subscription info, even for an unlimited plan. Allowed if and only if the plan is unlimited or used + requested stays within both limits. The price limit is checked first; a rejection carries the limit, the current count and the requested count. The store changes only as `getCurrentBillingUsage` changes it |
| Usage.Remaining | app/utils/usage.server.js:207-208 | no remainder exactly when the limit is unlimited or 0 (JavaScript truthiness); otherwise remainder plus used equals the limit |
| Usage.GetUsageStats | app/utils/usage.server.js:198-210 | reports this period's counters, the plan's limits and the reset date; remaining is `limit − used` (not clamped), or none exactly when the limit is unlimited |
| Privacy.DeleteSessions | app/routes/webhooks.privacy.jsx:21 | exactly the sessions of the shop are removed; other tables are untouched |
| Privacy.DeleteSubscriptionInfo | app/routes/webhooks.privacy.jsx:22 | exactly the subscription info rows whose shop is the shop are removed; the rest keep their values |
| Privacy.DeleteUsage | app/routes/webhooks.privacy.jsx:23 | exactly the usage rows whose shop is the shop are removed; the rest keep their values |
| Privacy.RedactShop | app/routes/webhooks.privacy.jsx:20-27 | sessions, then subscription info, then usage rows of the shop are removed; a failing deletion keeps the earlier ones and skips the rest |
| Privacy.Action | app/routes/webhooks.privacy.jsx:4-35 | always answers 200 "OK"; every topic except SHOP_REDACT leaves the store unchanged. SHOP_REDACT deletes sessions, then subscription info, then usage of that shop only; a failing deletion keeps the earlier deletions and skips the later ones |
| LedgerProperties.GetOrCreateIdempotent | app/utils/usage.server.js:69-80 | a second call with the same subscription, on any date, changes nothing and returns the same record |
| LedgerProperties.CurrentUsageIdempotent | app/utils/usage.server.js:95-121 | a second `getCurrentBillingUsage` at any date in the same period changes nothing and returns the same row and key; at the same date it returns the same answer |
| LedgerProperties.ReadKeepsCounters | app/utils/usage.server.js:97-121 | reading the current usage keeps the subscription info and the counters it reports |
| LedgerProperties.IncrementThenRead | app/utils/usage.server.js:136-155 | after an increment, the period's counters read as previous plus deltas, and reading adds nothing |
| LedgerProperties.IncrementsAccumulate | app/utils/usage.server.js:127-156 | two increments at any two dates of one period add up; neither overwrites the other |
| LedgerProperties.IncrementMonotone | app/utils/usage.server.js:145-153 | in a store whose counters are non-negative, an increment by non-negative deltas leaves the current counters at least as large as those deltas |
| LedgerProperties.RegisterKeepsNonNegativeCounters | app/utils/usage.server.js:48-81 | creating or updating a shop's subscription info keeps every usage counter non-negative |
| LedgerProperties.ReadKeepsNonNegativeCounters | app/utils/usage.server.js:86-122 | reading the current period's usage keeps every usage counter non-negative |
| LedgerProperties.IncrementKeepsNonNegativeCounters | app/utils/usage.server.js:127-156 | an increment by non-negative deltas keeps every usage counter non-negative |
| LedgerProperties.LedgerKeepsNonNegativeCounters | app/utils/usage.server.js:48-210 | every ledger call, with non-negative increments, keeps every usage counter non-negative |
| LedgerProperties.RedactKeepsNonNegativeCounters | app/routes/webhooks.privacy.jsx:18-28 | a privacy webhook, whatever fails, keeps every usage counter non-negative |
| LedgerProperties.RolloverLeavesEarlierPeriod | app/utils/usage.server.js:95-115 | once the period start has moved on, reads and increments neither add nor change the earlier period's row |
| LedgerProperties.UnlimitedAlwaysAllowed | app/utils/usage.server.js:166-168 | a registered shop on a "growth" plan (without "starter") is always allowed |
| LedgerProperties.LandingOnLimitAllowed | app/utils/usage.server.js:171-182 | used + requested exactly equal to both limits is allowed: the comparison is strict |
| LedgerProperties.RemainingCanBeNegative | app/utils/usage.server.js:207 | when usage already exceeds the price limit, the remaining price updates are negative |
| LedgerProperties.RedactedShopHasNoUsage | app/routes/webhooks.privacy.jsx:22 | after a shop redaction that deleted its subscription info, all four usage calls for the shop throw without changing the store |
| LedgerProperties.ReRegisterAfterRedact | app/utils/usage.server.js:53-68 | after a full redaction, `getOrCreateSubscriptionInfo` brings the shop back, and its usage starts at 0/0 |
| LedgerProperties.LedgerKeepsNoOrphans | app/utils/usage.server.js:86-156 | no ledger call creates a usage row for a shop without subscription info |
| LedgerProperties.RedactKeepsNoOrphans | app/routes/webhooks.privacy.jsx:20-27 | unless the usage deletion fails, a redaction leaves no usage row without subscription info |
| LedgerProperties.FailedUsageDeletionOrphansRows | app/routes/webhooks.privacy.jsx:22-27 | if only the usage deletion fails, the shop's usage rows outlive its subscription info |
| Scenarios.NewShopStartsAtZero | app/utils/usage.server.js:53-68 | a shop seen for the first time (in any store without orphaned usage rows) is registered with its anchor from the start date and nothing used |
| Scenarios.FreePlanFirstCheck | test-usage.js:11-17 | Free plan with nothing used: stats show 0/0 with 30/30 remaining, and 10/10 is allowed |
| Scenarios.FreePlanAfterIncrement | test-usage.js:19-26 | after recording 10/10 on Free: 20/20 remaining, and 25 price updates are rejected with (price, 30, 10, 25) |
| Scenarios.FreePlanWalkThrough | test-usage.js:3-33 | the whole walk-through: 10/10 allowed, then 25 price updates rejected with (price, 30, 10, 25) |
| Scenarios.StarterPlanLimit | app/utils/usage.server.js:171-179 | Starter at 0/0: 250/250 is allowed; after recording it, 60 more price updates are rejected with (price, 300, 250, 60) |
| Scenarios.FreeTierBoundary | app/utils/usage.server.js:171 | Free at 0/0: 30 price updates are allowed and 31 are rejected with (price, 30, 0, 31) |
| Scenarios.GrowthPlanUnlimited | app/utils/subscription.js:7 | "Growth Plan" is allowed whatever is requested or used |
| Scenarios.MidFebruary2026Bounds | app/utils/usage.server.js:16-22 | anchored on the 15th, the period of 2026-02-16 starts on 2026-02-15 and resets on 2026-03-15 |
| Scenarios.MidFebruary2026Key | app/utils/usage.server.js:24 | the date 2026-02-15 is written as the key "2026-02-15" |
| Scenarios.MidFebruary2026 | app/utils/usage.server.js:16-24 | anchored on the 15th, 2026-02-16 lies in period "2026-02-15", which resets on 2026-03-15 |
| Scenarios.MonthlyRollover | app/utils/usage.server.js:95-121 | anchor 15 with a January row: on 2026-02-16 the ledger reads a fresh 0/0 row for "2026-02-15", resetting on 2026-03-15, and the January row is unchanged |

## Left out

- The database client: Prisma is replaced by the `Store` value. Each awaited call is one atomic
  step. Connection or constraint errors of the ledger's own calls are not modelled. The only
  store failures modelled are the redaction's deletions.
- Concurrency: the model is sequential. The race between `checkUsageLimit` and a later
  `incrementUsage` is not modelled. Neither is the storage-level atomicity of the upsert.
- Time of day and time zones: dates are calendar days in UTC. `toISOString` on a local-time
  date can shift the key by a day; that shift is not modelled.
- Calendar.MakeDate: ECMAScript's `Date` constructor reads a year argument of 0..99 as 1900 + year;
  the model keeps the year as given. Only a clock reading a year 0..99 reaches this.
- MakeDateDayNumber: states the day number of the year as given, so for years 0..99 it is not
  what JavaScript computes, for the reason above.
- MakeDateOfValid: for years 0..99 JavaScript rebuilds the date in 1900 + year; the model does
  not, for the reason above.
- GetCurrentBillingUsage: the source reads the clock twice, once for the period key (line 9) and
  once for the reset date (line 31, after the awaited database calls). The model uses one `now`
  for both, so a call straddling an anchor-day midnight, which can pair the old key with the new
  reset date, is not modelled.
- GetUsageStats: the same single `now`, for the same reason.
- Date parsing: `subscription.createdAt` is taken as an already decoded date, not as the
  string `new Date(...)` parses.
- Dates outside JavaScript's range (about ±275,000 years), where `Date` becomes invalid and
  `toISOString` throws: the model keeps computing. Years beyond six digits get longer keys.
- Case folding: `toLowerCase` is modelled for ASCII letters only.
- Counter width: counters are unbounded integers. The database's 32-bit integer overflow on
  increment is not modelled.
- Subscription objects without an `id` or `name`: the model's `Subscription` always has both,
  as the platform's subscription objects do. Prisma's "undefined leaves the field unchanged"
  behaviour on update is therefore not modelled.
- Error messages: the two "Subscription info not found" messages are one error value.
- Host framework calls: `authenticate.webhook` (signature check, topic and shop extraction) and
  `authenticate.admin` are left out. The webhook's topic and shop are parameters, and its
  payload is unused. `console` logging is left out.
- app/routes/app._index.jsx: a UI page and authentication loader with no ledger logic.
- test-usage.js: an executable driver for a live database. It is used only as the source of
  the `Scenarios` walk-through.
