/** Refunds: how much of each purchase has been given back. */
module BankRefunds {
  import opened AccountOrder
  import opened Options
  import opened Bank
  import opened BankSums
  import opened BankInvariants
  import Fx

  /** N, PR and RF as the refunded part says. */
  function FlagFor(refunded: int, amount: int): Flag {
    if refunded == 0 then N else if refunded == amount then RF else PR
  }

  /** The rows that refund this purchase, for a lookup by client id: only the
      earliest purchase with an id is ever found. */
  function EcomGivenBack(rows: seq<Row>, i: nat): int
    requires i < |rows| && rows[i].EcomPurchase?
  {
    if Find(rows, ByEcomClient(rows[i].clientTxnId)) == Some(i)
    then Total(rows, EcomRefunds(rows[i].clientTxnId)) else 0
  }

  ghost predicate EcomPurchaseOk(rows: seq<Row>, i: nat)
    requires i < |rows| && rows[i].EcomPurchase?
  {
    var p := rows[i];
    && p.refunded == EcomGivenBack(rows, i)
    && 0 <= p.refunded <= p.amount
    && p.flag == FlagFor(p.refunded, p.amount)
  }

  ghost predicate EcomSafe(rows: seq<Row>) {
    && (forall i :: 0 <= i < |rows| && rows[i].EcomPurchase? ==> EcomPurchaseOk(rows, i))
    && (forall id :: Find(rows, ByEcomClient(id)).None? ==> Total(rows, EcomRefunds(id)) == 0)
  }

  ghost predicate PosPurchaseOk(rows: seq<Row>, i: nat)
    requires i < |rows| && rows[i].PosPurchase?
  {
    var p := rows[i];
    && Total(rows, PosRefunds(i)) <= 1
    && p.refunded == Total(rows, PosRefunded(i))
    && (Total(rows, PosRefunds(i)) == 0 <==> p.refunded == 0)
    && 0 <= p.refunded <= p.amount
    && p.flag == FlagFor(p.refunded, p.amount)
  }

  ghost predicate PosSafe(rows: seq<Row>) {
    && (forall i :: 0 <= i < |rows| && rows[i].PosPurchase? ==> PosPurchaseOk(rows, i))
    && (forall i: nat :: i >= |rows| ==> Total(rows, PosRefunds(i)) == 0 && Total(rows, PosRefunded(i)) == 0)
  }

  ghost predicate QrPurchaseOk(rows: seq<Row>, i: nat)
    requires i < |rows| && rows[i].QrPurchase?
  {
    && 0 <= Total(rows, QrRefunds(i)) <= 1
    && Total(rows, QrRefundedSum(i)) <= rows[i].amount
  }

  ghost predicate QrSafe(rows: seq<Row>) {
    && (forall i :: 0 <= i < |rows| && rows[i].QrPurchase? ==> QrPurchaseOk(rows, i))
    && (forall i: nat :: i >= |rows| ==> Total(rows, QrRefunds(i)) == 0 && Total(rows, QrRefundedSum(i)) == 0)
  }

  // ---- ECOM ----

  /** Commits that are not about this purchase leave its facts alone. */
  lemma EcomOthers(db: Db, v: Verdict, i: nat)
    requires v.Approve? && i < |db.rows| && db.rows[i].EcomPurchase? && EcomPurchaseOk(db.rows, i)
    requires v.mark.Some? ==> v.mark.value.id != i
    requires v.row.EcomRefund? ==>
      Find(db.rows, ByEcomClient(v.row.reference)).Some? && Find(db.rows, ByEcomClient(v.row.reference)) != Some(i)
    ensures var rows' := Apply(db, v).rows;
      rows'[i] == db.rows[i] && EcomPurchaseOk(rows', i)
  {
    var id := db.rows[i].clientTxnId;
    FindCommitted(db, v, ByEcomClient(id));
    TotalCommitted(db, v, EcomRefunds(id));
    hide Total, PostedTo;
    assert Hits(db.rows[i], ByEcomClient(id));
  }

  lemma EcomReturnSafe(db: Db, req: Request, when: When, i: nat)
    requires req.EcomReturn? && WellSigned(req) && VerdictOn(db, req, when).Approve?
    requires i < |db.rows| && db.rows[i].EcomPurchase? && EcomPurchaseOk(db.rows, i)
    ensures var rows' := Execute(db, req, when).rows; rows'[i].EcomPurchase? && EcomPurchaseOk(rows', i)
  {
    var v := VerdictOn(db, req, when);
    var id := db.rows[i].clientTxnId;
    if v.mark.value.id == i {
      FindCommitted(db, v, ByEcomClient(id));
      TotalCommitted(db, v, EcomRefunds(id));
      hide Total, Fx.Convert, PostedTo;
    } else {
      EcomOthers(db, v, i);
    }
  }

  lemma ChargeIsNatural(amount: int, rate: Fx.Quote)
    requires amount > 0 && (rate.Listed? ==> rate.value > 0)
    ensures Charge(amount, rate).converted >= 0
  {
    if rate.Listed? { Fx.MarkupWithinCharge(amount, rate.value); }
  }

  lemma EcomSafeKept(db: Db, req: Request, when: When)
    requires EcomSafe(db.rows) && WellSigned(req)
    ensures EcomSafe(Execute(db, req, when).rows)
  {
    var v := VerdictOn(db, req, when);
    if v.Approve? {
      var rows' := Execute(db, req, when).rows;
      forall i | 0 <= i < |rows'| && rows'[i].EcomPurchase? ensures EcomPurchaseOk(rows', i) {
        if i == |db.rows| {
          NewEcomPurchase(db, req, when);
        } else {
          OldEcomPurchase(db, req, when, i);
        }
      }
      forall id | Find(rows', ByEcomClient(id)).None? ensures Total(rows', EcomRefunds(id)) == 0 {
        UnknownEcomPurchase(db, req, when, id);
      }
    }
  }

  lemma OldEcomPurchase(db: Db, req: Request, when: When, i: nat)
    requires EcomSafe(db.rows) && WellSigned(req) && VerdictOn(db, req, when).Approve?
    requires i < |db.rows| && Execute(db, req, when).rows[i].EcomPurchase?
    ensures EcomPurchaseOk(Execute(db, req, when).rows, i)
  {
    hide Total, Fx.Convert, PostedTo, SpentOnDay, EcomPurchaseOk;
    if req.EcomReturn? {
      EcomReturnSafe(db, req, when, i);
    } else {
      EcomOthers(db, VerdictOn(db, req, when), i);
    }
  }

  lemma NewEcomPurchase(db: Db, req: Request, when: When)
    requires EcomSafe(db.rows) && WellSigned(req) && VerdictOn(db, req, when).Approve?
    requires VerdictOn(db, req, when).row.EcomPurchase?
    ensures EcomPurchaseOk(Execute(db, req, when).rows, |db.rows|)
  {
    var v := VerdictOn(db, req, when);
    BoughtEcom(db, req, when);
    FindCommitted(db, v, ByEcomClient(v.row.clientTxnId));
    TotalCommitted(db, v, EcomRefunds(v.row.clientTxnId));
    hide Total, PostedTo, Find, Decide, Observe, WellSigned;
  }

  /** What an ECOM purchase inserts, and that it marks no row. */
  lemma BoughtEcom(db: Db, req: Request, when: When)
    requires WellSigned(req) && VerdictOn(db, req, when).Approve? && VerdictOn(db, req, when).row.EcomPurchase?
    ensures var v := VerdictOn(db, req, when);
      v.mark.None? && v.row.refunded == 0 && v.row.flag == N && v.row.amount >= 0
  {
    assert req.EcomBuy?;
    ChargeIsNatural(req.amount, req.rate);
    hide Total, Fx.Convert, SpentOnDay, Find, Less, QrRefunded;
  }

  lemma UnknownEcomPurchase(db: Db, req: Request, when: When, id: string)
    requires EcomSafe(db.rows) && VerdictOn(db, req, when).Approve?
    requires Find(Execute(db, req, when).rows, ByEcomClient(id)).None?
    ensures Total(Execute(db, req, when).rows, EcomRefunds(id)) == 0
  {
    var v := VerdictOn(db, req, when);
    FindCommitted(db, v, ByEcomClient(id));
    TotalCommitted(db, v, EcomRefunds(id));
    hide Total, Fx.Convert, PostedTo, SpentOnDay, EcomPurchaseOk;
    assert v.row.EcomRefund? ==> req.EcomReturn?;
  }

  /** An ECOM purchase that is fully refunded and that a lookup finds. */
  predicate Closed(rows: seq<Row>, i: nat) {
    && i < |rows| && rows[i].EcomPurchase? && rows[i].flag.RF?
    && Find(rows, ByEcomClient(rows[i].clientTxnId)) == Some(i)
  }

  lemma ClosedKept(db: Db, req: Request, when: When, i: nat)
    requires Closed(db.rows, i)
    ensures var rows := Execute(db, req, when).rows; var refunds := EcomRefunds(db.rows[i].clientTxnId);
      Closed(rows, i) && rows[i] == db.rows[i] && Total(rows, refunds) == Total(db.rows, refunds)
  {
    hide Decide, Observe, PostedTo, Total, Find;
    var v := VerdictOn(db, req, when);
    if v.Approve? {
      ClosedIsLeftAlone(db, req, when, i);
      OthersLeaveClosed(db, v, i);
    }
  }

  lemma {:induction false} OthersLeaveClosed(db: Db, v: Verdict, i: nat)
    requires Closed(db.rows, i) && v.Approve?
    requires v.mark.Some? ==> v.mark.value.id != i
    requires v.row.EcomRefund? ==> v.row.reference != db.rows[i].clientTxnId
    ensures var rows := Apply(db, v).rows; var refunds := EcomRefunds(db.rows[i].clientTxnId);
      Closed(rows, i) && rows[i] == db.rows[i] && Total(rows, refunds) == Total(db.rows, refunds)
  {
    NoRefundMore(db, v, db.rows[i].clientTxnId);
    RowStays(db, v, i);
    FindCommitted(db, v, ByEcomClient(db.rows[i].clientTxnId));
    hide Total, Weigh, Apply;
  }

  lemma NoRefundMore(db: Db, v: Verdict, id: string)
    requires v.Approve? && (v.row.EcomRefund? ==> v.row.reference != id)
    ensures Total(Apply(db, v).rows, EcomRefunds(id)) == Total(db.rows, EcomRefunds(id))
  {
    TotalCommitted(db, v, EcomRefunds(id));
    hide Total, Effect, Apply;
  }

  lemma RowStays(db: Db, v: Verdict, i: nat)
    requires v.Approve? && i < |db.rows| && (v.mark.Some? ==> v.mark.value.id != i)
    ensures i < |Apply(db, v).rows| && Apply(db, v).rows[i] == db.rows[i]
  {
    hide PostedTo, Remarked;
  }

  /** Whatever is approved, it neither marks nor refunds such a purchase. */
  lemma ClosedIsLeftAlone(db: Db, req: Request, when: When, i: nat)
    requires Closed(db.rows, i) && VerdictOn(db, req, when).Approve?
    ensures var v := VerdictOn(db, req, when);
      && (v.mark.Some? ==> v.mark.value.id != i)
      && (v.row.EcomRefund? ==> v.row.reference != db.rows[i].clientTxnId)
  {
    hide Total, Fx.Convert, SpentOnDay, Less, QrRefunded;
  }

  // ---- POS ----

  lemma PosOthers(db: Db, v: Verdict, i: nat)
    requires v.Approve? && i < |db.rows| && db.rows[i].PosPurchase? && PosPurchaseOk(db.rows, i)
    requires v.mark.Some? ==> v.mark.value.id != i
    requires v.row.PosRefund? ==> v.row.purchase != i
    ensures var rows' := Apply(db, v).rows;
      rows'[i] == db.rows[i] && PosPurchaseOk(rows', i)
  {
    TotalCommitted(db, v, PosRefunds(i));
    TotalCommitted(db, v, PosRefunded(i));
    hide Total, PostedTo;
  }

  lemma PosReturnSafe(db: Db, req: Request, when: When, i: nat)
    requires req.PosReturn? && VerdictOn(db, req, when).Approve?
    requires i < |db.rows| && db.rows[i].PosPurchase? && PosPurchaseOk(db.rows, i)
    ensures var rows' := Execute(db, req, when).rows; rows'[i].PosPurchase? && PosPurchaseOk(rows', i)
  {
    var v := VerdictOn(db, req, when);
    if v.mark.value.id == i {
      TotalCommitted(db, v, PosRefunds(i));
      TotalCommitted(db, v, PosRefunded(i));
      hide Total, PostedTo, Find;
    } else {
      PosOthers(db, v, i);
    }
  }

  lemma PosSafeKept(db: Db, req: Request, when: When)
    requires PosSafe(db.rows) && WellSigned(req)
    ensures PosSafe(Execute(db, req, when).rows)
  {
    var v := VerdictOn(db, req, when);
    if v.Approve? {
      var rows' := Execute(db, req, when).rows;
      forall i | 0 <= i < |rows'| && rows'[i].PosPurchase? ensures PosPurchaseOk(rows', i) {
        if i == |db.rows| {
          NewPosPurchase(db, req, when);
        } else {
          OldPosPurchase(db, req, when, i);
        }
      }
      forall i: nat | i >= |rows'| ensures Total(rows', PosRefunds(i)) == 0 && Total(rows', PosRefunded(i)) == 0 {
        LaterPosPurchase(db, req, when, i);
      }
    }
  }

  lemma OldPosPurchase(db: Db, req: Request, when: When, i: nat)
    requires PosSafe(db.rows) && VerdictOn(db, req, when).Approve?
    requires i < |db.rows| && Execute(db, req, when).rows[i].PosPurchase?
    ensures PosPurchaseOk(Execute(db, req, when).rows, i)
  {
    hide Total, Fx.Convert, PostedTo, SpentOnDay, PosPurchaseOk;
    if req.PosReturn? {
      PosReturnSafe(db, req, when, i);
    } else {
      PosOthers(db, VerdictOn(db, req, when), i);
    }
  }

  lemma LaterPosPurchase(db: Db, req: Request, when: When, i: nat)
    requires PosSafe(db.rows) && VerdictOn(db, req, when).Approve? && i >= |db.rows|
    ensures var rows' := Execute(db, req, when).rows;
      Total(rows', PosRefunds(i)) == 0 && Total(rows', PosRefunded(i)) == 0
  {
    var v := VerdictOn(db, req, when);
    TotalCommitted(db, v, PosRefunds(i));
    TotalCommitted(db, v, PosRefunded(i));
    hide Total, Fx.Convert, PostedTo, SpentOnDay, PosPurchaseOk;
    assert v.row.PosRefund? ==> req.PosReturn?;
  }

  lemma NewPosPurchase(db: Db, req: Request, when: When)
    requires PosSafe(db.rows) && WellSigned(req) && VerdictOn(db, req, when).Approve?
    requires VerdictOn(db, req, when).row.PosPurchase?
    ensures PosPurchaseOk(Execute(db, req, when).rows, |db.rows|)
  {
    LaterPosPurchase(db, req, when, |db.rows|);
    hide Total, Fx.Convert, PostedTo, SpentOnDay;
    assert req.PosBuy?;
    ChargeIsNatural(req.amount, req.rate);
  }

  /** A POS purchase is refunded at most once, whatever part of it the first
      refund returned. */
  lemma OnePosRefund(db: Db, req: Request, when: When)
    requires PosSafe(db.rows) && req.PosReturn? && Find(db.rows, ByPosTxn(req.orig)).Some?
    requires Total(db.rows, PosRefunds(Find(db.rows, ByPosTxn(req.orig)).value)) > 0
    ensures !VerdictOn(db, req, when).Approve?
  {
    hide Total;
    var id := Find(db.rows, ByPosTxn(req.orig)).value;
    assert db.rows[id].PosPurchase? ==> PosPurchaseOk(db.rows, id);
  }

  // ---- QR ----

  lemma QrSafeKept(db: Db, req: Request, when: When)
    requires QrSafe(db.rows) && WellSigned(req)
    ensures QrSafe(Execute(db, req, when).rows)
  {
    var v := VerdictOn(db, req, when);
    if v.Approve? {
      var rows' := Execute(db, req, when).rows;
      forall i | 0 <= i < |rows'| && rows'[i].QrPurchase? ensures QrPurchaseOk(rows', i) {
        if i == |db.rows| {
          LaterQrPurchase(db, req, when, i);
          NewQrAmount(db, req, when);
        } else {
          OldQrPurchase(db, req, when, i);
        }
      }
      forall i: nat | i >= |rows'| ensures Total(rows', QrRefunds(i)) == 0 && Total(rows', QrRefundedSum(i)) == 0 {
        LaterQrPurchase(db, req, when, i);
      }
    }
  }

  lemma NewQrAmount(db: Db, req: Request, when: When)
    requires VerdictOn(db, req, when).Approve? && VerdictOn(db, req, when).row.QrPurchase?
    ensures VerdictOn(db, req, when).row.amount > 0
  {
    hide Total, Fx.Convert, PostedTo, SpentOnDay, Find, Less;
  }

  lemma QrOthers(db: Db, v: Verdict, i: nat)
    requires v.Approve? && i < |db.rows| && db.rows[i].QrPurchase? && QrPurchaseOk(db.rows, i)
    requires v.row.QrRefund? ==> v.row.purchase != i
    ensures var rows' := Apply(db, v).rows;
      rows'[i] == db.rows[i] && QrPurchaseOk(rows', i)
  {
    TotalCommitted(db, v, QrRefunds(i));
    TotalCommitted(db, v, QrRefundedSum(i));
    hide Total, PostedTo;
  }

  lemma QrReturnSafe(db: Db, req: Request, when: When, i: nat)
    requires req.QrReturn? && WellSigned(req) && VerdictOn(db, req, when).Approve?
    requires i < |db.rows| && db.rows[i].QrPurchase? && QrPurchaseOk(db.rows, i)
    ensures var rows' := Execute(db, req, when).rows; rows'[i].QrPurchase? && QrPurchaseOk(rows', i)
  {
    var v := VerdictOn(db, req, when);
    if v.row.purchase == i {
      CountIsZero(db.rows, i);
      TotalCommitted(db, v, QrRefunds(i));
      TotalCommitted(db, v, QrRefundedSum(i));
      hide Total, PostedTo, QrRefunded;
    } else {
      QrOthers(db, v, i);
    }
  }

  lemma OldQrPurchase(db: Db, req: Request, when: When, i: nat)
    requires QrSafe(db.rows) && WellSigned(req) && VerdictOn(db, req, when).Approve?
    requires i < |db.rows| && Execute(db, req, when).rows[i].QrPurchase?
    ensures QrPurchaseOk(Execute(db, req, when).rows, i)
  {
    hide Total, Fx.Convert, PostedTo, SpentOnDay, QrPurchaseOk, QrRefunded;
    if req.QrReturn? {
      QrReturnSafe(db, req, when, i);
    } else {
      QrOthers(db, VerdictOn(db, req, when), i);
    }
  }

  lemma LaterQrPurchase(db: Db, req: Request, when: When, i: nat)
    requires QrSafe(db.rows) && VerdictOn(db, req, when).Approve? && i >= |db.rows|
    ensures var rows' := Execute(db, req, when).rows;
      Total(rows', QrRefunds(i)) == 0 && Total(rows', QrRefundedSum(i)) == 0
  {
    var v := VerdictOn(db, req, when);
    TotalCommitted(db, v, QrRefunds(i));
    TotalCommitted(db, v, QrRefundedSum(i));
    hide Total, Fx.Convert, PostedTo, SpentOnDay, QrPurchaseOk;
    assert v.row.QrRefund? ==> req.QrReturn?;
  }

  // ---- What the sums say of the rows ----

  predicate PosRefundOf(row: Row, purchase: nat) {
    row.PosRefund? && row.purchase == purchase
  }

  predicate QrRefundOf(row: Row, purchase: nat) {
    row.QrRefund? && row.purchase == purchase
  }

  lemma {:induction false} NoneRefund(rows: seq<Row>, purchase: nat)
    ensures Total(rows, PosRefunds(purchase)) >= 0 && Total(rows, QrRefunds(purchase)) >= 0
    ensures Total(rows, PosRefunds(purchase)) == 0 <==> forall i :: 0 <= i < |rows| ==> !PosRefundOf(rows[i], purchase)
    ensures Total(rows, QrRefunds(purchase)) == 0 <==> forall i :: 0 <= i < |rows| ==> !QrRefundOf(rows[i], purchase)
    ensures Total(rows, PosRefunds(purchase)) == 0 ==> Total(rows, PosRefunded(purchase)) == 0
    ensures Total(rows, QrRefunds(purchase)) == 0 ==> Total(rows, QrRefundedSum(purchase)) == 0
    decreases |rows|
  {
    if rows != [] {
      var n := |rows| - 1;
      NoneRefund(rows[..n], purchase);
      assert forall i :: 0 <= i < n ==> rows[..n][i] == rows[i];
    }
  }

  lemma {:induction false} OneRefunds(rows: seq<Row>, purchase: nat, j: nat, k: nat)
    requires j < |rows| && k < |rows|
    ensures Total(rows, PosRefunds(purchase)) <= 1 && PosRefundOf(rows[j], purchase) && PosRefundOf(rows[k], purchase)
      ==> j == k && Total(rows, PosRefunded(purchase)) == rows[j].amount
    ensures Total(rows, QrRefunds(purchase)) <= 1 && QrRefundOf(rows[j], purchase) && QrRefundOf(rows[k], purchase)
      ==> j == k && Total(rows, QrRefundedSum(purchase)) == rows[j].amount
    decreases |rows|
  {
    var n := |rows| - 1;
    NoneRefund(rows[..n], purchase);
    assert forall i :: 0 <= i < n ==> rows[..n][i] == rows[i];
    if j < n && k < n { OneRefunds(rows[..n], purchase, j, k); }
  }

  /** A POS purchase has at most one refund row; it is for what the purchase is
      marked with, no more than its amount, and without one the purchase is as
      it was made. */
  lemma PosSafeMeans(rows: seq<Row>, i: nat)
    requires PosSafe(rows) && i < |rows| && rows[i].PosPurchase?
    ensures forall j, k ::
      0 <= j < |rows| && 0 <= k < |rows| && PosRefundOf(rows[j], i) && PosRefundOf(rows[k], i) ==> j == k
    ensures forall j :: 0 <= j < |rows| && PosRefundOf(rows[j], i) ==>
      && 0 < rows[j].amount == rows[i].refunded <= rows[i].amount
      && rows[i].flag == if rows[i].refunded == rows[i].amount then RF else PR
    ensures (forall j :: 0 <= j < |rows| ==> !PosRefundOf(rows[j], i)) ==> rows[i].refunded == 0 && rows[i].flag == N
  {
    NoneRefund(rows, i);
    forall j, k | 0 <= j < |rows| && 0 <= k < |rows| && PosRefundOf(rows[j], i) && PosRefundOf(rows[k], i)
      ensures j == k && rows[j].amount == rows[i].refunded
    {
      OneRefunds(rows, i, j, k);
    }
    assert PosPurchaseOk(rows, i);
    hide Total;
  }

  /** A QR purchase has at most one refund row, for no more than its amount. */
  lemma QrSafeMeans(rows: seq<Row>, i: nat)
    requires QrSafe(rows) && i < |rows| && rows[i].QrPurchase?
    ensures forall j, k ::
      0 <= j < |rows| && 0 <= k < |rows| && QrRefundOf(rows[j], i) && QrRefundOf(rows[k], i) ==> j == k
    ensures forall j :: 0 <= j < |rows| && QrRefundOf(rows[j], i) ==> rows[j].amount <= rows[i].amount
  {
    forall j, k | 0 <= j < |rows| && 0 <= k < |rows| && QrRefundOf(rows[j], i) && QrRefundOf(rows[k], i)
      ensures j == k && rows[j].amount <= rows[i].amount
    {
      OneRefunds(rows, i, j, k);
    }
    hide Total;
  }

  /** The amounts that were given back for a client id. */
  function GivenBack(rows: seq<Row>, clientTxnId: string): int {
    if rows == [] then 0
    else
      var last := rows[|rows| - 1];
      GivenBack(rows[..|rows| - 1], clientTxnId)
      + if last.EcomRefund? && last.reference == clientTxnId then last.amount else 0
  }

  lemma {:induction false} RefundsAreGivenBack(rows: seq<Row>, clientTxnId: string)
    ensures Total(rows, EcomRefunds(clientTxnId)) == GivenBack(rows, clientTxnId)
    decreases |rows|
  {
    if rows != [] { RefundsAreGivenBack(rows[..|rows| - 1], clientTxnId); }
  }

  /** The first ECOM purchase of a client id is marked with all that was given
      back for the id, which is no more than its amount. */
  lemma EcomSafeMeans(rows: seq<Row>, i: nat)
    requires EcomSafe(rows) && i < |rows| && rows[i].EcomPurchase?
    requires forall j :: 0 <= j < i ==> !(rows[j].EcomPurchase? && rows[j].clientTxnId == rows[i].clientTxnId)
    ensures var p, back := rows[i], GivenBack(rows, rows[i].clientTxnId);
      && 0 <= back == p.refunded <= p.amount
      && p.flag == if back == 0 then N else if back == p.amount then RF else PR
  {
    RefundsAreGivenBack(rows, rows[i].clientTxnId);
    assert Hits(rows[i], ByEcomClient(rows[i].clientTxnId));
    assert EcomPurchaseOk(rows, i);
    hide Total, GivenBack;
  }
}
