/** The spending limits, over every window a customer might look at. */
module BankLimits {
  import opened AccountOrder
  import opened Options
  import opened Bank
  import opened BankSums
  import opened BankInvariants
  import Fx

  /** The clock readings a handler may take while it holds the lock of its
      account: every row of that account is older than each of them, and the
      row is stamped last. */
  ghost predicate ClockOk(db: Db, req: Request, when: When) {
    && when.hour <= when.stamp && when.day <= when.stamp
    && forall i, m :: 0 <= i < |db.rows| && !req.PosReturn? && OnMeter(db.rows[i], m, req.account) ==>
         db.rows[i].at <= when.hour && db.rows[i].at <= when.day
  }

  function DailyLimitOf(m: Meter): int {
    match m
    case AtmOut => ATM_DAILY_WITHDRAWAL_LIMIT
    case AtmIn => ATM_DAILY_DEPOSIT_LIMIT
    case MobileOut => MOB_DAILY_LIMIT
  }

  /** The transfers of `a` in the hour that starts at `t`. */
  function SpentInHour(rows: seq<Row>, a: Account, t: int): int {
    Spent(rows, MobileOut, a, t, Some(t + HOUR))
  }

  /** On no day does an account withdraw more than 5,000.00, pay in more than
      10,000.00 or send more than 10,000.00, and in no hour, wherever it starts,
      does it send more than 2,000.00. */
  ghost predicate WithinLimits(rows: seq<Row>) {
    && (forall a, day :: WithdrawnOnDay(rows, a, day) <= 500_000)
    && (forall a, day :: PaidInOnDay(rows, a, day) <= 1_000_000)
    && (forall a, day :: SentOnDay(rows, a, day) <= 1_000_000)
    && (forall a, from :: SentInHour(rows, a, from) <= 200_000)
  }

  /** The same as the handlers read it. */
  ghost predicate MetersHold(rows: seq<Row>) {
    && (forall m, a, t :: SpentOnDay(rows, m, a, t) <= DailyLimitOf(m))
    && (forall a, t :: SpentInHour(rows, a, t) <= MOB_HOURLY_LIMIT)
  }

  lemma LimitsAreMeters(rows: seq<Row>)
    ensures WithinLimits(rows) <==> MetersHold(rows)
  {
    if WithinLimits(rows) {
      forall m, a, t ensures SpentOnDay(rows, m, a, t) <= DailyLimitOf(m) {
        DaysAddUp(rows, a, t);
      }
      forall a, t ensures SpentInHour(rows, a, t) <= MOB_HOURLY_LIMIT {
        MetersAddUp(rows, a, t, t + HOUR);
        assert SentInHour(rows, a, t) <= 200_000;
      }
    }
    if MetersHold(rows) {
      forall a, day
        ensures WithdrawnOnDay(rows, a, day) <= 500_000 && PaidInOnDay(rows, a, day) <= 1_000_000
          && SentOnDay(rows, a, day) <= 1_000_000
      {
        DaysAddUp(rows, a, 86_400 * day);
        assert SpentOnDay(rows, AtmOut, a, 86_400 * day) <= DailyLimitOf(AtmOut);
        assert SpentOnDay(rows, AtmIn, a, 86_400 * day) <= DailyLimitOf(AtmIn);
        assert SpentOnDay(rows, MobileOut, a, 86_400 * day) <= DailyLimitOf(MobileOut);
      }
      forall a, from ensures SentInHour(rows, a, from) <= 200_000 {
        MetersAddUp(rows, a, from, from + HOUR);
        assert SpentInHour(rows, a, from) <= MOB_HOURLY_LIMIT;
      }
    }
  }

  lemma MetersNaturalKept(db: Db, req: Request, when: When)
    requires MetersNatural(db.rows) && WellSigned(req)
    ensures MetersNatural(Execute(db, req, when).rows)
  {
    hide Total, Fx.Convert, PostedTo, SpentOnDay, Find, Less, QrRefunded;
    var v := VerdictOn(db, req, when);
    if v.Approve? {
      assert Metered(v.row) >= 0;
      var rows' := Execute(db, req, when).rows;
      forall i | 0 <= i < |rows'| ensures Metered(rows'[i]) >= 0 {
        if i < |db.rows| { assert Metered(rows'[i]) == Metered(db.rows[i]); }
      }
    }
  }

  /** A row that passed the daily check at `checked` keeps the day it is
      stamped on within the limit, be it the same day or a later one. */
  lemma DayHolds(rows: seq<Row>, m: Meter, a: Account, checked: int, stamp: int, amount: int)
    requires MetersNatural(rows) && checked <= stamp
    requires forall i :: 0 <= i < |rows| && OnMeter(rows[i], m, a) ==> rows[i].at <= checked
    requires SpentOnDay(rows, m, a, checked) + amount <= DailyLimitOf(m)
    ensures SpentOnDay(rows, m, a, stamp) + amount <= DailyLimitOf(m)
  {
    if DayStart(checked) != DayStart(stamp) {
      LaterWindow(rows, m, a, DayStart(stamp), Some(DayStart(stamp) + DAY - 1));
      WiderWindow(rows, m, a, DayStart(checked), Some(DayStart(checked) + DAY - 1),
                  DayStart(checked), Some(DayStart(checked) + DAY - 1));
    }
  }

  /** A row that passed the hourly check keeps every hour it falls into within
      the limit. */
  lemma HourHolds(rows: seq<Row>, a: Account, checked: int, stamp: int, amount: int, t: int)
    requires MetersNatural(rows) && checked <= stamp && t <= stamp <= t + HOUR
    requires Spent(rows, MobileOut, a, checked - HOUR, None) + amount <= MOB_HOURLY_LIMIT
    ensures SpentInHour(rows, a, t) + amount <= MOB_HOURLY_LIMIT
  {
    WiderWindow(rows, MobileOut, a, t, Some(t + HOUR), checked - HOUR, None);
  }

  lemma DaysOfDifferentStamps(t: int, at: int)
    ensures DayStart(t) <= at <= DayStart(t) + DAY - 1 <==> DayStart(t) == DayStart(at)
  {}

  /** The check each metered handler makes before it commits. */
  lemma DailyCheckPassed(db: Db, req: Request, when: When, m: Meter)
    requires VerdictOn(db, req, when).Approve?
    ensures var row := VerdictOn(db, req, when).row;
      OnMeter(row, m, row.account) ==>
        && !req.PosReturn? && row.account == req.account && row.at == when.stamp
        && SpentOnDay(db.rows, m, req.account, when.day) + Metered(row) <= DailyLimitOf(m)
        && (m.MobileOut? ==> Spent(db.rows, m, req.account, when.hour - HOUR, None) + Metered(row) <= MOB_HOURLY_LIMIT)
  {
    hide Total, Fx.Convert, PostedTo, SpentOnDay, Find, Less, QrRefunded, Spent;
  }

  lemma WithinLimitsKept(db: Db, req: Request, when: When)
    requires WithinLimits(db.rows) && MetersNatural(db.rows) && ClockOk(db, req, when)
    ensures WithinLimits(Execute(db, req, when).rows)
  {
    LimitsAreMeters(db.rows);
    LimitsAreMeters(Execute(db, req, when).rows);
    MetersKept(db, req, when);
    hide WithinLimits, MetersHold, Execute, MetersNatural, ClockOk;
  }

  lemma MetersKept(db: Db, req: Request, when: When)
    requires MetersHold(db.rows) && MetersNatural(db.rows) && ClockOk(db, req, when)
    ensures MetersHold(Execute(db, req, when).rows)
  {
    var v := VerdictOn(db, req, when);
    if v.Approve? {
      var rows' := Execute(db, req, when).rows;
      forall m, a, t ensures SpentOnDay(rows', m, a, t) <= DailyLimitOf(m) {
        DayKept(db, req, when, m, a, t);
      }
      forall a, t ensures SpentInHour(rows', a, t) <= MOB_HOURLY_LIMIT {
        HourKept(db, req, when, a, t);
      }
    }
  }

  lemma DayKept(db: Db, req: Request, when: When, m: Meter, a: Account, t: int)
    requires MetersHold(db.rows) && MetersNatural(db.rows) && ClockOk(db, req, when)
    requires VerdictOn(db, req, when).Approve?
    ensures SpentOnDay(Execute(db, req, when).rows, m, a, t) <= DailyLimitOf(m)
  {
    var v := VerdictOn(db, req, when);
    TotalCommitted(db, v, Window(m, a, DayStart(t), Some(DayStart(t) + DAY - 1)));
    hide Total, Decide, Observe, Apply, DayStart;
    assert SpentOnDay(db.rows, m, a, t) <= DailyLimitOf(m);
    if OnMeter(v.row, m, a) {
      DailyCheckPassed(db, req, when, m);
      DaysOfDifferentStamps(t, v.row.at);
      DayHolds(db.rows, m, a, when.day, when.stamp, Metered(v.row));
    }
  }

  lemma HourKept(db: Db, req: Request, when: When, a: Account, t: int)
    requires MetersHold(db.rows) && MetersNatural(db.rows) && ClockOk(db, req, when)
    requires VerdictOn(db, req, when).Approve?
    ensures SpentInHour(Execute(db, req, when).rows, a, t) <= MOB_HOURLY_LIMIT
  {
    var v := VerdictOn(db, req, when);
    TotalCommitted(db, v, Window(MobileOut, a, t, Some(t + HOUR)));
    hide Total, Decide, Observe, Apply, DayStart;
    assert SpentInHour(db.rows, a, t) <= MOB_HOURLY_LIMIT;
    if OnMeter(v.row, MobileOut, a) && t <= v.row.at <= t + HOUR {
      DailyCheckPassed(db, req, when, MobileOut);
      HourHolds(db.rows, a, when.hour, when.stamp, Metered(v.row), t);
    }
  }
}
