/** How the sums over the rows move when a handler commits. */
module BankSums {
  import opened AccountOrder
  import opened Options
  import opened Bank

  lemma TotalAppend(rows: seq<Row>, row: Row, g: Gauge)
    ensures Total(rows + [row], g) == Total(rows, g) + Weigh(g, rows, row)
  {
    assert (rows + [row])[..|rows|] == rows;
  }

  /** Marking a purchase as refunded changes no sum. */
  lemma {:induction false} TotalMarked(rows: seq<Row>, mark: Option<Mark>, g: Gauge)
    ensures Total(Marked(rows, mark), g) == Total(rows, g)
    decreases |rows|
  {
    if rows != [] && mark.Some? && mark.value.id < |rows| {
      var n := |rows| - 1;
      var marked := Marked(rows, mark);
      TotalMarked(rows[..n], mark, g);
      assert marked[..n] == Marked(rows[..n], mark);
      WeighMarked(g, rows[..n], mark, rows[n]);
      WeighMarked(g, rows[..n], mark, marked[n]);
    }
  }

  lemma WeighMarked(g: Gauge, before: seq<Row>, mark: Option<Mark>, row: Row)
    ensures Weigh(g, Marked(before, mark), row) == Weigh(g, before, row)
    ensures mark.Some? ==>
      Weigh(g, before, Remarked(row, mark.value.refunded, mark.value.flag)) == Weigh(g, before, row)
  {}

  /** After a commit every sum has moved by the new row. */
  lemma TotalCommitted(db: Db, v: Verdict, g: Gauge)
    requires v.Approve?
    ensures Total(Apply(db, v).rows, g) == Total(db.rows, g) + Weigh(g, db.rows, v.row)
  {
    TotalMarked(db.rows, v.mark, g);
    TotalAppend(Marked(db.rows, v.mark), v.row, g);
    WeighMarked(g, db.rows, v.mark, v.row);
  }

  // ---- What the sums of the queries add up ----

  /** The amounts and fees that `a` withdrew from `lo` to `hi`. */
  function Withdrawn(rows: seq<Row>, a: Account, lo: int, hi: int): int {
    if rows == [] then 0
    else
      var last := rows[|rows| - 1];
      Withdrawn(rows[..|rows| - 1], a, lo, hi)
      + if last.AtmWithdrawal? && last.account == a && lo <= last.at <= hi then last.amount + last.fee else 0
  }

  /** The amounts that were paid in to `a` from `lo` to `hi`. */
  function PaidIn(rows: seq<Row>, a: Account, lo: int, hi: int): int {
    if rows == [] then 0
    else
      var last := rows[|rows| - 1];
      PaidIn(rows[..|rows| - 1], a, lo, hi)
      + if last.AtmDeposit? && last.account == a && lo <= last.at <= hi then last.amount else 0
  }

  /** The amounts that `a` sent from `lo` to `hi`. */
  function Sent(rows: seq<Row>, a: Account, lo: int, hi: int): int {
    if rows == [] then 0
    else
      var last := rows[|rows| - 1];
      Sent(rows[..|rows| - 1], a, lo, hi)
      + if last.MobileTransfer? && last.account == a && lo <= last.at <= hi then last.amount else 0
  }

  /** The amounts that `a` has sent since `lo`. */
  function SentSince(rows: seq<Row>, a: Account, lo: int): int {
    if rows == [] then 0
    else
      var last := rows[|rows| - 1];
      SentSince(rows[..|rows| - 1], a, lo)
      + if last.MobileTransfer? && last.account == a && lo <= last.at then last.amount else 0
  }

  /** The sums on the meters are those. */
  lemma {:induction false} MetersAddUp(rows: seq<Row>, a: Account, lo: int, hi: int)
    ensures Spent(rows, AtmOut, a, lo, Some(hi)) == Withdrawn(rows, a, lo, hi)
    ensures Spent(rows, AtmIn, a, lo, Some(hi)) == PaidIn(rows, a, lo, hi)
    ensures Spent(rows, MobileOut, a, lo, Some(hi)) == Sent(rows, a, lo, hi)
    ensures Spent(rows, MobileOut, a, lo, None) == SentSince(rows, a, lo)
    decreases |rows|
  {
    if rows != [] { MetersAddUp(rows[..|rows| - 1], a, lo, hi); }
  }

  function WithdrawnOnDay(rows: seq<Row>, a: Account, day: int): int {
    Withdrawn(rows, a, 86_400 * day, 86_400 * day + 86_399)
  }

  function PaidInOnDay(rows: seq<Row>, a: Account, day: int): int {
    PaidIn(rows, a, 86_400 * day, 86_400 * day + 86_399)
  }

  function SentOnDay(rows: seq<Row>, a: Account, day: int): int {
    Sent(rows, a, 86_400 * day, 86_400 * day + 86_399)
  }

  function SentInHour(rows: seq<Row>, a: Account, from: int): int {
    Sent(rows, a, from, from + 3_600)
  }

  lemma DaysAddUp(rows: seq<Row>, a: Account, t: int)
    ensures SpentOnDay(rows, AtmOut, a, t) == WithdrawnOnDay(rows, a, t / 86_400)
    ensures SpentOnDay(rows, AtmIn, a, t) == PaidInOnDay(rows, a, t / 86_400)
    ensures SpentOnDay(rows, MobileOut, a, t) == SentOnDay(rows, a, t / 86_400)
  {
    MetersAddUp(rows, a, DayStart(t), DayStart(t) + DAY - 1);
    hide Total, Withdrawn, PaidIn, Sent;
  }

  // ---- Windows ----

  /** No row counts negatively on a meter. */
  ghost predicate MetersNatural(rows: seq<Row>) {
    forall i :: 0 <= i < |rows| ==> Metered(rows[i]) >= 0
  }

  /** A wider window holds no less. */
  lemma {:induction false} WiderWindow(rows: seq<Row>, m: Meter, a: Account, lo: int, hi: Option<int>,
                                       lo': int, hi': Option<int>)
    requires MetersNatural(rows) && lo' <= lo
    requires hi'.Some? ==> hi.Some? && hi.value <= hi'.value
    ensures 0 <= Spent(rows, m, a, lo, hi) <= Spent(rows, m, a, lo', hi')
    decreases |rows|
  {
    if rows != [] {
      WiderWindow(rows[..|rows| - 1], m, a, lo, hi, lo', hi');
      assert Metered(rows[|rows| - 1]) >= 0;
    }
  }

  /** A window that starts after the last row of an account is empty. */
  lemma {:induction false} LaterWindow(rows: seq<Row>, m: Meter, a: Account, lo: int, hi: Option<int>)
    requires forall i :: 0 <= i < |rows| && OnMeter(rows[i], m, a) ==> rows[i].at < lo
    ensures Spent(rows, m, a, lo, hi) == 0
    decreases |rows|
  {
    if rows != [] {
      var last := rows[|rows| - 1];
      LaterWindow(rows[..|rows| - 1], m, a, lo, hi);
      assert OnMeter(last, m, a) ==> last.at < lo;
    }
  }

  // ---- Lookups ----

  /** Appending a row does not change what was found. */
  lemma FindAppend(rows: seq<Row>, row: Row, lookup: Lookup)
    ensures Find(rows + [row], lookup) ==
      if Find(rows, lookup).Some? then Find(rows, lookup)
      else if Hits(row, lookup) then Some(|rows|)
      else None
  {
    assert (rows + [row])[..|rows|] == rows;
  }

  lemma FindMarked(rows: seq<Row>, mark: Option<Mark>, lookup: Lookup)
    ensures Find(Marked(rows, mark), lookup) == Find(rows, lookup)
  {
    var marked := Marked(rows, mark);
    forall i | 0 <= i < |rows| ensures Hits(marked[i], lookup) <==> Hits(rows[i], lookup) {}
    FindSame(rows, marked, lookup);
  }

  lemma FindSame(rows: seq<Row>, rows': seq<Row>, lookup: Lookup)
    requires |rows| == |rows'| && forall i :: 0 <= i < |rows| ==> (Hits(rows[i], lookup) <==> Hits(rows'[i], lookup))
    ensures Find(rows, lookup) == Find(rows', lookup)
  {
    var id, id' := Find(rows, lookup), Find(rows', lookup);
    if id.Some? { assert Hits(rows'[id.value], lookup); }
    if id'.Some? { assert Hits(rows[id'.value], lookup); }
  }

  lemma FindCommitted(db: Db, v: Verdict, lookup: Lookup)
    requires v.Approve?
    ensures Find(Apply(db, v).rows, lookup) ==
      if Find(db.rows, lookup).Some? then Find(db.rows, lookup)
      else if Hits(v.row, lookup) then Some(|db.rows|)
      else None
  {
    hide Find, Hits, Marked, PostedTo;
    FindMarked(db.rows, v.mark, lookup);
    FindAppend(Marked(db.rows, v.mark), v.row, lookup);
    MarkedSize(db.rows, v.mark);
  }

  lemma MarkedSize(rows: seq<Row>, mark: Option<Mark>)
    ensures |Marked(rows, mark)| == |rows|
  {}

  /** No refund row names a purchase iff its count is zero. */
  lemma {:induction false} CountIsZero(rows: seq<Row>, purchase: nat)
    ensures Total(rows, QrRefunds(purchase)) >= 0
    ensures Total(rows, QrRefunds(purchase)) == 0 <==> !QrRefunded(rows, purchase)
    ensures Total(rows, QrRefunds(purchase)) == 0 ==> Total(rows, QrRefundedSum(purchase)) == 0
    decreases |rows|
  {
    if rows != [] {
      var n := |rows| - 1;
      CountIsZero(rows[..n], purchase);
      if QrRefunded(rows, purchase) {
        var i :| 0 <= i < |rows| && rows[i].QrRefund? && rows[i].purchase == purchase;
        assert i < n ==> rows[..n][i] == rows[i];
      }
      if QrRefunded(rows[..n], purchase) {
        var i :| 0 <= i < n && rows[..n][i].QrRefund? && rows[..n][i].purchase == purchase;
        assert rows[i] == rows[..n][i];
      }
    }
  }
}
