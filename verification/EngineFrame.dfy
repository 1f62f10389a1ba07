/** What one handler has read stays true while another commits: the locked
    accounts and the row locks see to that. */
module EngineFrame {
  import opened AccountOrder
  import opened Options
  import opened Bank
  import opened BankSums
  import opened BankInvariants
  import opened Engine

  /** The accounts that the locks of a request cover. */
  predicate Covers(req: Request, home: Option<Account>, a: Account) {
    home == Some(a) || (req.Transfer? && a == req.credit)
  }

  // ---- What a commit can change ----

  ghost predicate WritesWithin(v: Verdict, req: Request, home: Option<Account>) {
    v.Approve? ==> forall a :: a in v.writes ==> Covers(req, home, a)
  }

  ghost predicate MetersWithin(v: Verdict, req: Request, home: Option<Account>) {
    v.Approve? ==> forall m, a :: OnMeter(v.row, m, a) ==> Covers(req, home, a)
  }

  /** Only a POS or ECOM refund marks a row, and only the one it found. */
  ghost predicate MarksWithin(db: Db, v: Verdict, req: Request) {
    v.Approve? && v.mark.Some? ==>
      && (req.PosReturn? || req.EcomReturn?)
      && SeePurchase(db, req).Some? && SeePurchase(db, req).value.id == v.mark.value.id
      && (db.rows[v.mark.value.id].PosPurchase? || db.rows[v.mark.value.id].EcomPurchase?)
  }

  ghost predicate RefundsWithin(db: Db, v: Verdict, req: Request, home: Option<Account>) {
    v.Approve? && v.row.QrRefund? ==>
      && v.row.purchase < |db.rows| && db.rows[v.row.purchase].QrPurchase?
      && Covers(req, home, db.rows[v.row.purchase].account)
  }

  ghost predicate Confined(db: Db, v: Verdict, req: Request, home: Option<Account>) {
    && WritesWithin(v, req, home) && MetersWithin(v, req, home)
    && MarksWithin(db, v, req) && RefundsWithin(db, v, req, home)
    && (v.Approve? ==> v.writes.Keys <= db.balances.Keys)
    && (v.Approve? && req.PosReturn? ==> v.row.PosRefund?)
  }

  lemma VerdictConfined(db: Db, req: Request, when: When)
    ensures Confined(db, VerdictOn(db, req, when), req, MainAccount(req, SeePurchase(db, req)))
    ensures MarksWithin(db, VerdictOn(db, req, when), req)
  {
    hide Total, Fx.Convert, QrRefunded, Less, SpentOnDay;
  }

  // ---- What a handler has read ----

  /** No row of `a` on a meter is younger than `t`. */
  ghost predicate Older(db: Db, a: Account, t: int) {
    forall i, m :: 0 <= i < |db.rows| && OnMeter(db.rows[i], m, a) ==> db.rows[i].at <= t
  }

  /** A POS refund that has a lock has the lock of its purchase's account. */
  ghost predicate HomeOk(db: Db, j: Job) {
    if j.req.PosReturn? then
      j.home.Some? ==> SeePurchase(db, j.req).Some? && SeePurchase(db, j.req).value.row.account == j.home.value
    else j.home == Some(j.req.account)
  }

  ghost predicate BalancesOk(db: Db, j: Job) {
    && j.view.main == (if MainBalance in j.done then SeeMain(db, j.req, j.view.found) else None)
    && j.view.other == if OtherBalance in j.done then SeeOther(db, j.req) else None
  }

  ghost predicate SumsOk(db: Db, j: Job, clock: int) {
    && (if HourSum in j.done
        then j.view.hour == SeeHour(db, j.req, j.when.hour) && j.when.hour <= clock
             && (!j.req.PosReturn? ==> Older(db, j.req.account, j.when.hour))
        else j.view.hour == 0)
    && (if DaySum in j.done
        then j.view.day == SeeDay(db, j.req, j.when.day) && j.when.day <= clock
             && (!j.req.PosReturn? ==> Older(db, j.req.account, j.when.day))
        else j.view.day == 0)
  }

  /** The one place where a check is allowed to be out of date: the refund of a
      QR purchase of another account, which is refused whatever it says. */
  predicate Checks(j: Job) {
    && RefundCheck in j.done && j.req.QrReturn?
    && j.view.found.Some? && j.view.found.value.row.account == j.req.account
  }

  ghost predicate PurchaseOk(db: Db, j: Job) {
    && (j.view.found.Some? ==> PurchaseRow in j.done && SeePurchase(db, j.req) == j.view.found)
    && (j.view.refunded ==> RefundCheck in j.done)
    && (Checks(j) ==> j.view.refunded == SeeRefunded(db, j.view.found))
  }

  /** The transaction is ready to commit what its handler decided. */
  ghost predicate WrittenOk(db: Db, j: Job, clock: int) {
    j.stage.Written? ==>
      && j.done == Needs(j.req)
      && j.stage.verdict.Approve? && j.stage.verdict == Decide(j.req, j.view, j.when.stamp)
      && j.when.hour <= j.when.stamp <= clock && j.when.day <= j.when.stamp
      && (!j.req.PosReturn? ==> Older(db, j.req.account, j.when.hour) && Older(db, j.req.account, j.when.day))
  }

  ghost predicate InOrder(j: Job) {
    && j.done <= Needs(j.req)
    && (MainBalance in j.done && PurchaseRow in Needs(j.req) ==> PurchaseRow in j.done)
    && (RefundCheck in j.done ==> PurchaseRow in j.done)
  }

  ghost predicate ReadsHold(db: Db, j: Job, clock: int) {
    && InOrder(j)
    && BalancesOk(db, j) && SumsOk(db, j, clock) && PurchaseOk(db, j) && WrittenOk(db, j, clock)
  }

  // ---- When they stay true ----

  /** No balance that `j` has read is written, and no account appears. */
  ghost predicate BalancesClear(db: Db, v: Verdict, j: Job) {
    v.Approve? ==> v.writes.Keys <= db.balances.Keys && forall a :: HoldsBalance(j, a) ==> a !in v.writes
  }

  ghost predicate MetersClear(v: Verdict, j: Job) {
    v.Approve? && !j.req.PosReturn? ==> forall m :: !OnMeter(v.row, m, j.req.account)
  }

  ghost predicate RowClear(v: Verdict, j: Job) {
    v.Approve? && v.mark.Some? && j.view.found.Some? ==> v.mark.value.id != j.view.found.value.id
  }

  ghost predicate RefundClear(v: Verdict, j: Job) {
    v.Approve? && v.row.QrRefund? && Checks(j) ==> v.row.purchase != j.view.found.value.id
  }

  ghost predicate Clear(db: Db, v: Verdict, j: Job) {
    BalancesClear(db, v, j) && MetersClear(v, j) && RowClear(v, j) && RefundClear(v, j)
  }

  lemma BalanceKept(db: Db, v: Verdict, a: Account)
    requires v.Approve? ==> v.writes.Keys <= db.balances.Keys && (a in db.balances ==> a !in v.writes)
    ensures BalanceAt(Apply(db, v), a) == BalanceAt(db, a)
  {}

  lemma BalancesKept(db: Db, v: Verdict, j: Job)
    requires BalancesClear(db, v, j) && BalancesOk(db, j) && !j.stage.Over?
    ensures BalancesOk(Apply(db, v), j)
  {
    hide Apply, SeePurchase;
    var account := MainAccount(j.req, j.view.found);
    if MainBalance in j.done && account.Some? {
      assert account.value in db.balances ==> HoldsBalance(j, account.value);
      BalanceKept(db, v, account.value);
    }
    if OtherBalance in j.done && j.req.Transfer? {
      assert j.req.credit in db.balances ==> HoldsBalance(j, j.req.credit);
      BalanceKept(db, v, j.req.credit);
    }
  }

  lemma SumKept(db: Db, v: Verdict, m: Meter, a: Account, lo: int, hi: Option<int>)
    requires v.Approve? ==> !OnMeter(v.row, m, a)
    ensures Spent(Apply(db, v).rows, m, a, lo, hi) == Spent(db.rows, m, a, lo, hi)
  {
    if v.Approve? {
      TotalCommitted(db, v, Window(m, a, lo, hi));
    }
  }

  lemma OlderKept(db: Db, v: Verdict, a: Account, t: int)
    requires Older(db, a, t) && (v.Approve? ==> forall m :: !OnMeter(v.row, m, a))
    ensures Older(Apply(db, v), a, t)
  {
    hide PostedTo;
    var db' := Apply(db, v);
    forall i, m | 0 <= i < |db'.rows| && OnMeter(db'.rows[i], m, a) ensures db'.rows[i].at <= t {
      if i < |db.rows| {
        assert db'.rows[i] == db.rows[i];
      }
    }
  }

  lemma SumsKept(db: Db, v: Verdict, j: Job, clock: int)
    requires MetersClear(v, j) && SumsOk(db, j, clock)
    ensures SumsOk(Apply(db, v), j, clock)
  {
    hide PostedTo, Marked, SeePurchase, Total, OnMeter;
    if v.Approve? && !j.req.PosReturn? {
      var a := j.req.account;
      if HourSum in j.done {
        SumKept(db, v, MobileOut, a, j.when.hour - HOUR, None);
        OlderKept(db, v, a, j.when.hour);
      }
      if DaySum in j.done {
        forall m ensures SpentOnDay(Apply(db, v).rows, m, a, j.when.day) == SpentOnDay(db.rows, m, a, j.when.day) {
          SumKept(db, v, m, a, DayStart(j.when.day), Some(DayStart(j.when.day) + DAY - 1));
        }
        OlderKept(db, v, a, j.when.day);
      }
    }
  }

  // ---- Purchase rows ----

  lemma FoundRowStays(db: Db, v: Verdict, j: Job)
    requires SeePurchase(db, j.req).Some?
    ensures var found := SeePurchase(db, j.req).value;
      && SeePurchase(Apply(db, v), j.req).Some?
      && SeePurchase(Apply(db, v), j.req).value.id == found.id
      && (SeePurchase(Apply(db, v), j.req).value.row == found.row ||
          (v.Approve? && v.mark.Some? && v.mark.value.id == found.id))
  {
    var id := SeePurchase(db, j.req).value.id;
    RowAfter(db, v, id);
    if v.Approve? {
      FindCommitted(db, v, LookupOf(j.req).value);
    }
    hide Apply, Hits, Find;
  }

  lemma RowAfter(db: Db, v: Verdict, id: nat)
    requires id < |db.rows|
    ensures id < |Apply(db, v).rows|
    ensures Apply(db, v).rows[id] == db.rows[id] || (v.Approve? && v.mark.Some? && v.mark.value.id == id)
  {
    hide PostedTo, Remarked;
  }

  lemma MarkedRowKeepsAccount(db: Db, v: Verdict, j: Job)
    requires SeePurchase(db, j.req).Some?
    ensures SeePurchase(Apply(db, v), j.req).Some?
    ensures SeePurchase(Apply(db, v), j.req).value.row.account == SeePurchase(db, j.req).value.row.account
  {
    FoundRowStays(db, v, j);
    hide PostedTo, Hits, Find;
  }

  lemma HomeKept(db: Db, v: Verdict, j: Job)
    requires HomeOk(db, j)
    ensures HomeOk(Apply(db, v), j)
  {
    hide Apply, SeePurchase;
    if j.req.PosReturn? && j.home.Some? {
      MarkedRowKeepsAccount(db, v, j);
    }
  }

  lemma RefundCheckKept(db: Db, v: Verdict, j: Job)
    requires RefundClear(v, j) && Checks(j) && SeePurchase(db, j.req) == j.view.found
    ensures SeeRefunded(Apply(db, v), j.view.found) == SeeRefunded(db, j.view.found)
  {
    hide Find, PostedTo;
    var id := j.view.found.value.id;
    if v.Approve? {
      CountIsZero(db.rows, id);
      CountIsZero(Apply(db, v).rows, id);
      TotalCommitted(db, v, QrRefunds(id));
      assert QrRefunded(Apply(db, v).rows, id) <==> QrRefunded(db.rows, id);
    }
  }

  lemma PurchaseKept(db: Db, v: Verdict, j: Job)
    requires RowClear(v, j) && RefundClear(v, j) && PurchaseOk(db, j)
    ensures PurchaseOk(Apply(db, v), j)
  {
    hide RefundClear, Apply, SeePurchase, SeeRefunded;
    if j.view.found.Some? {
      FoundRowStays(db, v, j);
      if Checks(j) {
        RefundCheckKept(db, v, j);
      }
    }
  }

  lemma WrittenKept(db: Db, v: Verdict, j: Job, clock: int)
    requires MetersClear(v, j) && WrittenOk(db, j, clock)
    ensures WrittenOk(Apply(db, v), j, clock)
  {
    hide Apply, Decide, Older;
    if j.stage.Written? && !j.req.PosReturn? {
      OlderKept(db, v, j.req.account, j.when.hour);
      OlderKept(db, v, j.req.account, j.when.day);
    }
  }

  /** A commit leaves the reads of every handler that it is clear of true. */
  lemma ReadsKept(db: Db, v: Verdict, j: Job, clock: int)
    requires Clear(db, v, j) && ReadsHold(db, j, clock) && !j.stage.Over?
    ensures ReadsHold(Apply(db, v), j, clock)
  {
    BalancesKept(db, v, j);
    SumsKept(db, v, j, clock);
    PurchaseKept(db, v, j);
    WrittenKept(db, v, j, clock);
    hide Apply, BalancesOk, SumsOk, PurchaseOk, WrittenOk;
  }

  // ---- Where it is clear ----

  ghost predicate Apart(req: Request, home: Option<Account>, j: Job) {
    forall a :: Covers(req, home, a) ==> !Covers(j.req, j.home, a)
  }

  /** What a locked handler has read for an update is within its locks. */
  lemma HeldIsCovered(db: Db, j: Job, a: Account)
    requires HomeOk(db, j) && PurchaseOk(db, j) && !Unlocked(j) && HoldsBalance(j, a)
    ensures Covers(j.req, j.home, a)
  {
    hide SeePurchase, SeeRefunded;
  }

  /** Two handlers with locks: the accounts keep them apart, and the row lock of
      a purchase. */
  lemma ClearOfLocked(db: Db, v: Verdict, req: Request, home: Option<Account>, j: Job)
    requires Confined(db, v, req, home) && Apart(req, home, j) && RowClear(v, j)
    requires HomeOk(db, j) && PurchaseOk(db, j) && !Unlocked(j)
    ensures Clear(db, v, j)
  {
    hide MarksWithin, SeePurchase, SeeRefunded, PurchaseOk;
    forall a | HoldsBalance(j, a) ensures v.Approve? ==> a !in v.writes { HeldIsCovered(db, j, a); }
    if !j.req.PosReturn? { assert Covers(j.req, j.home, j.req.account); }
    RefundClearOfLocked(db, v, req, home, j);
  }

  lemma RefundClearOfLocked(db: Db, v: Verdict, req: Request, home: Option<Account>, j: Job)
    requires RefundsWithin(db, v, req, home) && Apart(req, home, j) && HomeOk(db, j) && PurchaseOk(db, j)
    ensures RefundClear(v, j)
  {
    hide SeeRefunded, Find;
    if Checks(j) { assert Covers(j.req, j.home, j.req.account); }
  }

  /** A handler without an account lock, on either side: the row locks do it. */
  lemma ClearOfUnlocked(db: Db, v: Verdict, req: Request, home: Option<Account>, j: Job)
    requires Confined(db, v, req, home) && RowClear(v, j) && (req.PosReturn? || j.req.PosReturn?)
    requires v.Approve? ==> forall a :: a in v.writes ==> !HoldsBalance(j, a)
    ensures Clear(db, v, j)
  {
    hide MarksWithin, WritesWithin, MetersWithin, RefundsWithin;
  }
}
