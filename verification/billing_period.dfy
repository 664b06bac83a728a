/**
 * The billing-period resolver: from a shop's anchor day of the month and the
 * current date, the date its current billing period started (and the key
 * naming that period) and the date its usage next resets.
 */
module BillingPeriod {
  import opened Wrappers
  import opened Calendar
  import opened IsoDate

  /**
   * Start of the current billing period: the anchor day of this month once
   * today has reached it, of the previous month before that. Both are built
   * with `new Date(year, monthIndex, anchor)`, so a month index of -1 falls
   * back to December of the previous year and an anchor past the end of a
   * short month rolls into the following month.
   */
  function PeriodStart(anchor: int, now: Date): (r: Date)
    ensures Valid(r)
  {
    if now.day >= anchor then MakeDate(now.year, now.month - 1, anchor)
    else MakeDate(now.year, now.month - 2, anchor)
  }

  /** The key usage records of the current period are filed under. */
  function PeriodKey(anchor: int, now: Date): string {
    DateKey(PeriodStart(anchor, now))
  }

  /** The period key is the text of the period's start date, and it reads back as that date. */
  lemma PeriodKeyParses(anchor: int, now: Date)
    ensures ParseKey(PeriodKey(anchor, now)) == Some(PeriodStart(anchor, now))
  {
    KeyRoundTrip(PeriodStart(anchor, now));
  }

  /** The date the current period's usage resets: one month after `PeriodStart`'s month. */
  function NextResetDate(anchor: int, now: Date): (r: Date)
    ensures Valid(r)
  {
    if now.day >= anchor then MakeDate(now.year, now.month, anchor)
    else MakeDate(now.year, now.month - 1, anchor)
  }

  /** 0-based month index (relative to `now.year`) whose anchor day starts the current period. */
  function StartMonthIndex(anchor: int, now: Date): int {
    if now.day >= anchor then now.month - 1 else now.month - 2
  }

  /**
   * The period ends exactly one (unnormalised) month after it starts: the
   * reset is strictly later than the start, by 28 to 31 days.
   */
  lemma StartBeforeReset(anchor: int, now: Date)
    ensures DayNumber(NextResetDate(anchor, now)) - DayNumber(PeriodStart(anchor, now))
         == LengthOfMonth(now.year, StartMonthIndex(anchor, now))
    ensures Before(PeriodStart(anchor, now), NextResetDate(anchor, now))
  {
    var i := StartMonthIndex(anchor, now);
    var first := FirstOfMonth(now.year, i);
    assert PeriodStart(anchor, now) == MakeDate(now.year, i, anchor);
    assert NextResetDate(anchor, now) == MakeDate(now.year, i + 1, anchor);
    assert DayNumber(MakeDate(now.year, i, anchor)) == first + anchor - 1 by {
      MakeDateDayNumber(now.year, i, anchor);
    }
    assert DayNumber(MakeDate(now.year, i + 1, anchor)) == first + LengthOfMonth(now.year, i) + anchor - 1 by {
      MakeDateDayNumber(now.year, i + 1, anchor);
      FirstOfMonthStep(now.year, i);
    }
  }

  /** For anchors every month has, the period runs from this month's or last month's anchor day. */
  lemma PeriodBounds(anchor: int, now: Date)
    requires Valid(now) && 1 <= anchor <= 28
    ensures now.day >= anchor ==>
      && PeriodStart(anchor, now) == Date(now.year, now.month, anchor)
      && NextResetDate(anchor, now) == Date(NextMonth(now.year, now.month).0, NextMonth(now.year, now.month).1, anchor)
    ensures now.day < anchor ==>
      && PeriodStart(anchor, now) == Date(PrevMonth(now.year, now.month).0, PrevMonth(now.year, now.month).1, anchor)
      && NextResetDate(anchor, now) == Date(now.year, now.month, anchor)
  {
    var y, m := now.year, now.month;
    MakeDateInRange(y, m - 1, anchor);
    MakeDateInRange(y, m, anchor);
    MakeDateInRange(y, m - 2, anchor);
    assert NormalYear(y, m - 1) == y && NormalMonth(m - 1) == m;
    if m == 12 {
      assert NormalYear(y, m) == y + 1 && NormalMonth(m) == 1;
    } else {
      assert NormalYear(y, m) == y && NormalMonth(m) == m + 1;
    }
    if m == 1 {
      assert NormalYear(y, m - 2) == y - 1 && NormalMonth(m - 2) == 12;
    } else {
      assert NormalYear(y, m - 2) == y && NormalMonth(m - 2) == m - 1;
    }
  }

  /**
   * In January before the anchor day the period started in December of the
   * previous year and resets on the anchor day of this January; both months
   * have 31 days, so no anchor day rolls over there.
   */
  lemma JanuaryFallsBackToDecember(anchor: int, now: Date)
    requires Valid(now) && now.month == 1 && now.day < anchor <= 31
    ensures PeriodStart(anchor, now) == Date(now.year - 1, 12, anchor)
    ensures NextResetDate(anchor, now) == Date(now.year, 1, anchor)
  {
    assert NormalYear(now.year, -1) == now.year - 1 && NormalMonth(-1) == 12;
    MakeDateInRange(now.year, -1, anchor);
    assert NormalYear(now.year, 0) == now.year && NormalMonth(0) == 1;
    MakeDateInRange(now.year, 0, anchor);
  }

  /**
   * Today lies inside the period the resolver picks exactly when today has
   * reached the anchor day, or the anchor day is at most one month length
   * (of the previous month) ahead of today.
   */
  lemma PeriodContainsNowIff(anchor: int, now: Date)
    requires Valid(now) && anchor >= 1
    ensures var (py, pm) := PrevMonth(now.year, now.month);
      (DayNumber(PeriodStart(anchor, now)) <= DayNumber(now) < DayNumber(NextResetDate(anchor, now)))
      <==> (now.day >= anchor || anchor - now.day <= DaysInMonth(py, pm))
  {
    var y, m := now.year, now.month;
    var (py, pm) := PrevMonth(y, m);
    var start, dn, de := DayNumber(PeriodStart(anchor, now)), DayNumber(now), DayNumber(NextResetDate(anchor, now));
    var first := MonthStart(y, m);
    assert dn == first + now.day - 1;
    if now.day >= anchor {
      assert start == first + anchor - 1 by {
        MakeDateDayNumber(y, m - 1, anchor);
        assert NormalYear(y, m - 1) == y && NormalMonth(m - 1) == m;
      }
      assert de == first + DaysInMonth(y, m) + anchor - 1 by {
        MakeDateDayNumber(y, m, anchor);
        FirstOfMonthStep(y, m - 1);
        assert NormalYear(y, m - 1) == y && NormalMonth(m - 1) == m;
      }
    } else {
      assert start == first - DaysInMonth(py, pm) + anchor - 1 by {
        MakeDateDayNumber(y, m - 2, anchor);
        FirstOfMonthStep(y, m - 2);
        assert NormalYear(y, m - 1) == y && NormalMonth(m - 1) == m;
        if m == 1 {
          assert NormalYear(y, m - 2) == y - 1 && NormalMonth(m - 2) == 12;
        } else {
          assert NormalYear(y, m - 2) == y && NormalMonth(m - 2) == m - 1;
        }
      }
      assert de == first + anchor - 1 by {
        MakeDateDayNumber(y, m - 1, anchor);
        assert NormalYear(y, m - 1) == y && NormalMonth(m - 1) == m;
      }
    }
  }

  /** For anchor days 1 to 28, which every month has, today always lies in its period. */
  lemma PeriodContainsNow(anchor: int, now: Date)
    requires Valid(now) && 1 <= anchor <= 28
    ensures DayNumber(PeriodStart(anchor, now)) <= DayNumber(now) < DayNumber(NextResetDate(anchor, now))
  {
    PeriodContainsNowIff(anchor, now);
  }

  /**
   * Anchor 31 on 1 March: the 31st of February does not exist and rolls over
   * to 3 March (2 March in a leap year), so the period "starts" after today.
   */
  lemma AnchorThirtyOneOnFirstOfMarch(y: int)
    ensures PeriodStart(31, Date(y, 3, 1)) == Date(y, 3, if IsLeapYear(y) then 2 else 3)
    ensures Before(Date(y, 3, 1), PeriodStart(31, Date(y, 3, 1)))
  {
    assert PeriodStart(31, Date(y, 3, 1)) == Date(y, 3, if IsLeapYear(y) then 2 else 3) by {
      MakeDateOverflow(y, 1, 31);
      assert NormalYear(y, 2) == y && NormalMonth(2) == 3;
    }
  }

  /** The same roll-over on 1 March 2026 files usage under the key "2026-03-03". */
  lemma AnchorThirtyOneOnFirstOfMarch2026()
    ensures PeriodKey(31, Date(2026, 3, 1)) == "2026-03-03"
  {
    AnchorThirtyOneOnFirstOfMarch(2026);
    ThirdOfMarch2026Key();
  }

  /** The key of 3 March 2026 is "2026-03-03". */
  lemma ThirdOfMarch2026Key()
    ensures DateKey(Date(2026, 3, 3)) == "2026-03-03"
  {
    KeyLayout(Date(2026, 3, 3));
    FourDigits(2026);
  }

  /**
   * For anchors 1 to 31, a date made from an anchor day starts its own
   * period, whether or not the anchor rolled over into the next month.
   */
  lemma AnchorDateIsPeriodStart(year: int, monthIndex: int, anchor: int)
    requires 1 <= anchor <= 31
    ensures PeriodStart(anchor, MakeDate(year, monthIndex, anchor)) == MakeDate(year, monthIndex, anchor)
  {
    var r := MakeDate(year, monthIndex, anchor);
    if anchor <= LengthOfMonth(year, monthIndex) {
      MakeDateInRange(year, monthIndex, anchor);
      MakeDateOfValid(r);
    } else {
      // December has 31 days, so only a month index other than December rolls over.
      MakeDateOverflow(year, monthIndex, anchor);
      assert NormalYear(r.year, r.month - 2) == NormalYear(year, monthIndex);
      assert NormalMonth(r.month - 2) == NormalMonth(monthIndex);
    }
  }

  /** On its reset date a new period begins, and it begins on that very date. */
  lemma ResetStartsNextPeriod(anchor: int, now: Date)
    requires 1 <= anchor <= 31
    ensures PeriodStart(anchor, NextResetDate(anchor, now)) == NextResetDate(anchor, now)
  {
    if now.day >= anchor {
      AnchorDateIsPeriodStart(now.year, now.month, anchor);
    } else {
      AnchorDateIsPeriodStart(now.year, now.month - 1, anchor);
    }
  }

  /** Resolving the period of a period's own start date gives that same period. */
  lemma PeriodStartIdempotent(anchor: int, now: Date)
    requires 1 <= anchor <= 31
    ensures PeriodStart(anchor, PeriodStart(anchor, now)) == PeriodStart(anchor, now)
    ensures PeriodKey(anchor, PeriodStart(anchor, now)) == PeriodKey(anchor, now)
  {
    AnchorDateIsPeriodStart(now.year, StartMonthIndex(anchor, now), anchor);
  }

  /** Two instants share a period key exactly when the resolver gives them the same start date. */
  lemma SameKeySamePeriod(anchor: int, now1: Date, now2: Date)
    ensures PeriodKey(anchor, now1) == PeriodKey(anchor, now2) <==> PeriodStart(anchor, now1) == PeriodStart(anchor, now2)
  {
    KeyInjective(PeriodStart(anchor, now1), PeriodStart(anchor, now2));
  }
}
