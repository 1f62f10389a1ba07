/** The channel handlers as they run: each reads, branches and writes inside
    one database transaction.  `Contents` of the tables moves exactly as
    `Bank.Execute` says, and the reply is `Bank.Outcome`. */
module Handlers {
  import opened AccountOrder
  import opened Options
  import opened Ledger
  import opened Bank
  import opened BankDecisions
  import Fx

  class BankingDb {
    var balances: map<Account, int>
    var rows: seq<Row>
    const ledger: GeneralLedger

    function Contents(): Db
      reads this, ledger
    {
      Db(balances, rows, ledger.Contents())
    }

    constructor (ledger: GeneralLedger, balances: map<Account, int>)
      ensures Contents() == Db(balances, [], ledger.Contents())
      ensures this.ledger == ledger
    {
      this.ledger := ledger;
      this.balances := balances;
      this.rows := [];
    }

    method GetAccountBalance(account: Account) returns (balance: Option<int>)
      ensures balance == BalanceAt(Contents(), account)
    {
      if account in balances {
        return Some(balances[account]);
      }
      return None;
    }

    method HandleWithdrawal(account: Account, amount: int, fee: int, clock: When) returns (reply: Code)
      modifies this
      ensures Contents() == Execute(old(Contents()), Withdraw(account, amount, fee), clock)
      ensures reply == Outcome(old(Contents()), Withdraw(account, amount, fee), clock)
    {
      var balance := GetAccountBalance(account);
      if balance.None? {
        return AccountNotFound;
      }
      var todayW := SpentOnDay(rows, AtmOut, account, clock.day);
      if todayW + amount + fee > ATM_DAILY_WITHDRAWAL_LIMIT {
        return DailyLimit;
      }
      if balance.value < amount + fee {
        return InsufficientFunds;
      }
      balances := balances[account := balance.value - amount - fee];
      rows := rows + [AtmWithdrawal(account, amount, fee, clock.stamp)];
      return Success;
    }

    method HandleDeposit(account: Account, amount: int, clock: When) returns (reply: Code)
      modifies this
      ensures Contents() == Execute(old(Contents()), Deposit(account, amount), clock)
      ensures reply == Outcome(old(Contents()), Deposit(account, amount), clock)
    {
      var todayD := SpentOnDay(rows, AtmIn, account, clock.day);
      if todayD + amount > ATM_DAILY_DEPOSIT_LIMIT {
        return DailyLimit;
      }
      var balance := GetAccountBalance(account);
      if balance.None? {
        return AccountNotFound;
      }
      balances := balances[account := balance.value + amount];
      rows := rows + [AtmDeposit(account, amount, clock.stamp)];
      return Success;
    }

    /** The two balances, read in account order. */
    method GetTransferBalances(debit: Account, credit: Account)
      returns (missing: Option<Code>, debitBal: int, creditBal: int)
      ensures missing == TransferMissing(debit, credit, BalanceAt(Contents(), debit), BalanceAt(Contents(), credit))
      ensures missing.None? ==> BalanceAt(Contents(), debit) == Some(debitBal)
      ensures missing.None? ==> BalanceAt(Contents(), credit) == Some(creditBal)
    {
      debitBal, creditBal := 0, 0;
      var r1, r2;
      LessIrreflexive(debit);
      LessTotal(debit, credit);
      if Less(debit, credit) {
        OneWay(debit, credit);
        r1 := GetAccountBalance(debit);
        if r1.None? {
          return Some(DebitNotFound), 0, 0;
        }
        debitBal := r1.value;
        r2 := GetAccountBalance(credit);
        if r2.None? {
          return Some(CreditNotFound), 0, 0;
        }
        creditBal := r2.value;
      } else if Less(credit, debit) {
        r2 := GetAccountBalance(credit);
        if r2.None? {
          return Some(CreditNotFound), 0, 0;
        }
        creditBal := r2.value;
        r1 := GetAccountBalance(debit);
        if r1.None? {
          return Some(DebitNotFound), 0, 0;
        }
        debitBal := r1.value;
      } else {
        r1 := GetAccountBalance(debit);
        if r1.None? {
          return Some(DebitNotFound), 0, 0;
        }
        debitBal := r1.value;
        creditBal := debitBal;
      }
      missing := None;
    }

    method ProcessMobileTransfer(debit: Account, credit: Account, amount: int, fee: int, clock: When)
      returns (reply: Code)
      modifies this
      ensures Contents() == Execute(old(Contents()), Transfer(debit, credit, amount, fee), clock)
      ensures reply == Outcome(old(Contents()), Transfer(debit, credit, amount, fee), clock)
    {
      RefusalKeeps(Contents(), Transfer(debit, credit, amount, fee), clock);
      TransferSees(Contents(), Transfer(debit, credit, amount, fee), clock);
      hide Execute, Observe, Spent, SpentOnDay, Less;
      hide DecideWithdraw, DecideDeposit, DecidePosBuy, DecidePosReturn, DecideEcomBuy,
        DecideEcomReturn, DecideQrBuy, DecideQrReturn, DecideReverse;
      if amount > MOB_SINGLE_LIMIT {
        return SingleLimit;
      }
      var missing, debitBal, creditBal := GetTransferBalances(debit, credit);
      if missing.Some? {
        return missing.value;
      }
      var hourlyTotal := Spent(rows, MobileOut, debit, clock.hour - HOUR, None);
      if hourlyTotal + amount > MOB_HOURLY_LIMIT {
        return HourlyLimit;
      }
      var dailyTotal := SpentOnDay(rows, MobileOut, debit, clock.day);
      if dailyTotal + amount > MOB_DAILY_LIMIT {
        return DailyLimit;
      }
      if debitBal < amount + fee {
        return InsufficientFunds;
      }
      TransferLeaves(Contents(), debit, credit, amount, fee, clock);
      hide Outcome;
      balances := balances[debit := debitBal - amount - fee];
      balances := balances[credit := creditBal + amount];
      rows := rows + [MobileTransfer(debit, credit, amount, fee, clock.stamp)];
      return Success;
    }

    method PurchasePos(txnId: string, account: Account, merchant: string, pan: string, requested: int, fee: int,
                       rate: Fx.Quote, clock: When)
      returns (reply: Code)
      modifies this, ledger
      ensures Contents() == Execute(old(Contents()), PosBuy(txnId, account, merchant, pan, requested, fee, rate), clock)
      ensures reply == Outcome(old(Contents()), PosBuy(txnId, account, merchant, pan, requested, fee, rate), clock)
    {
      RefusalKeeps(Contents(), PosBuy(txnId, account, merchant, pan, requested, fee, rate), clock);
      PosPurchaseDecided(Contents(), PosBuy(txnId, account, merchant, pan, requested, fee, rate), clock);
      hide Execute, Outcome, PurchaseBooks, Fx.Convert;
      if requested <= 0 {
        return InvalidAmount;
      }
      if requested > POS_MAX_SINGLE {
        return SingleLimit;
      }
      if rate.Unlisted? {
        return FxRateNotFound;
      }
      var amount, fxMarkup := requested, 0;
      if rate.Listed? {
        var fxRes := Fx.Convert(requested, rate.value);
        amount, fxMarkup := fxRes.converted, fxRes.markup;
      }
      var balance := GetAccountBalance(account);
      if balance.None? {
        return AccountNotFound;
      }
      if balance.value < amount + fee {
        return InsufficientFunds;
      }
      balances := balances[account := balance.value - (amount + fee)];
      rows := rows + [PosPurchase(txnId, account, merchant, pan, amount, fee, 0, N)];
      ledger.ProcessPurchaseLedger(txnId, account, merchant, amount, fee, fxMarkup);
      return Success;
    }

    method RefundPos(txnId: string, orig: string, merchant: string, card: Option<string>, amount: int, clock: When)
      returns (reply: Code)
      modifies this, ledger
      ensures Contents() == Execute(old(Contents()), PosReturn(txnId, orig, merchant, card, amount), clock)
      ensures reply == Outcome(old(Contents()), PosReturn(txnId, orig, merchant, card, amount), clock)
    {
      RefusalKeeps(Contents(), PosReturn(txnId, orig, merchant, card, amount), clock);
      hide MainAccount, SeePurchase, SeeMain, Apply, PostedTo, Marked, Remarked, Charge;
      PosReturnSees(Contents(), PosReturn(txnId, orig, merchant, card, amount), clock);
      hide Execute, Observe, PurchaseBooks, RefundBooks, Fx.Convert, Spent, SpentOnDay;
      hide DecideWithdraw, DecideDeposit, DecideTransfer, DecidePosBuy, DecideEcomBuy,
        DecideEcomReturn, DecideQrBuy, DecideQrReturn, DecideReverse;
      if orig == "" {
        return InvalidOrigTxn;
      }
      if merchant == "" {
        return MissingMerchant;
      }
      var id := Find(rows, ByPosTxn(orig));
      if id.None? {
        return PurchaseNotFound;
      }
      var p := rows[id.value];
      if !p.PosPurchase? {
        return InvalidRefundSource;
      }
      if p.merchant != merchant {
        return MerchantMismatch;
      }
      if card.Some? && card.value != p.pan {
        return CardMismatch;
      }
      if p.flag != N || p.refunded > 0 {
        return AlreadyRefunded;
      }
      if amount <= 0 || amount > p.amount {
        return InvalidRefundAmount;
      }
      var balance := GetAccountBalance(p.account);
      if balance.None? {
        return AccountNotFound;
      }
      if amount <= p.fee {
        return AmountLessThanFee;
      }
      PosRefundLeaves(Contents(), PosReturn(txnId, orig, merchant, card, amount), clock, id.value);
      hide Outcome;
      var netRefund := amount - p.fee;
      balances := balances[p.account := balance.value + netRefund];
      var newFlag := if amount == p.amount then RF else PR;
      rows := rows[id.value := PosPurchase(p.txnId, p.account, p.merchant, p.pan, p.amount, p.fee, amount, newFlag)];
      rows := rows + [PosRefund(txnId, p.account, merchant, p.pan, amount, id.value)];
      ledger.ProcessRefundLedger(txnId, p.account, merchant, netRefund);
      return Success;
    }

    method PurchaseEcom(txnId: string, clientTxnId: string, account: Account, merchant: string, requested: int,
                        fee: int, rate: Fx.Quote, clock: When)
      returns (reply: Code)
      modifies this, ledger
      ensures Contents() ==
        Execute(old(Contents()), EcomBuy(txnId, clientTxnId, account, merchant, requested, fee, rate), clock)
      ensures reply ==
        Outcome(old(Contents()), EcomBuy(txnId, clientTxnId, account, merchant, requested, fee, rate), clock)
    {
      RefusalKeeps(Contents(), EcomBuy(txnId, clientTxnId, account, merchant, requested, fee, rate), clock);
      EcomPurchaseDecided(Contents(), EcomBuy(txnId, clientTxnId, account, merchant, requested, fee, rate), clock);
      hide Execute, Outcome, PurchaseBooks, Fx.Convert;
      if requested <= 0 {
        return InvalidAmount;
      }
      var currentBalance := GetAccountBalance(account);
      if currentBalance.None? {
        return AccountNotFound;
      }
      if rate.Unlisted? {
        return FxRateNotFound;
      }
      var amount, fxMarkup := requested, 0;
      if rate.Listed? {
        var fxRes := Fx.Convert(requested, rate.value);
        amount, fxMarkup := fxRes.converted, fxRes.markup;
      }
      if currentBalance.value < amount + fee {
        return InsufficientFunds;
      }
      balances := balances[account := currentBalance.value - amount - fee];
      rows := rows + [EcomPurchase(clientTxnId, account, merchant, amount, fee, 0, N)];
      ledger.ProcessPurchaseLedger(txnId, account, merchant, amount, fee, fxMarkup);
      return Success;
    }

    method RefundEcom(txnId: string, clientTxnId: string, orig: Option<string>, account: Account, merchant: string,
                      requested: int, rate: Fx.Quote, clock: When)
      returns (reply: Code)
      modifies this, ledger
      ensures Contents() ==
        Execute(old(Contents()), EcomReturn(txnId, clientTxnId, orig, account, merchant, requested, rate), clock)
      ensures reply ==
        Outcome(old(Contents()), EcomReturn(txnId, clientTxnId, orig, account, merchant, requested, rate), clock)
    {
      RefusalKeeps(Contents(), EcomReturn(txnId, clientTxnId, orig, account, merchant, requested, rate), clock);
      hide MainAccount, SeePurchase, SeeMain, Apply, PostedTo, Marked, Remarked;
      EcomReturnSees(Contents(), EcomReturn(txnId, clientTxnId, orig, account, merchant, requested, rate), clock);
      hide Execute, Observe, PurchaseBooks, RefundBooks, Fx.Convert, Spent, SpentOnDay;
      hide DecideWithdraw, DecideDeposit, DecideTransfer, DecidePosBuy, DecidePosReturn,
        DecideEcomBuy, DecideQrBuy, DecideQrReturn, DecideReverse;
      var currentBalance := GetAccountBalance(account);
      if currentBalance.None? {
        return AccountNotFound;
      }
      if rate.Unlisted? {
        return FxRateNotFound;
      }
      var amount := requested;
      if rate.Listed? {
        amount := Fx.Convert(requested, rate.value).converted;
      }
      if orig.None? {
        return MissingOrigRef;
      }
      var id := Find(rows, ByEcomClient(orig.value));
      if id.None? {
        return PurchaseNotFound;
      }
      var p := rows[id.value];
      if p.flag == RF {
        return AlreadyRefunded;
      }
      if amount + p.refunded > p.amount {
        return RefundExceeds;
      }
      EcomRefundLeaves(Contents(), EcomReturn(txnId, clientTxnId, orig, account, merchant, requested, rate), clock,
                       id.value);
      hide Outcome;
      var newFlag := if amount + p.refunded == p.amount then RF else PR;
      balances := balances[account := currentBalance.value + amount];
      rows := rows[id.value :=
        EcomPurchase(p.clientTxnId, p.account, p.merchant, p.amount, p.fee, amount + p.refunded, newFlag)];
      rows := rows + [EcomRefund(clientTxnId, account, amount, orig.value)];
      ledger.ProcessRefundLedger(txnId, account, merchant, amount);
      return Success;
    }

    method PurchaseQr(clientTxnId: string, account: Account, amount: int, fee: int, clock: When)
      returns (reply: Code)
      modifies this
      ensures Contents() == Execute(old(Contents()), QrBuy(clientTxnId, account, amount, fee), clock)
      ensures reply == Outcome(old(Contents()), QrBuy(clientTxnId, account, amount, fee), clock)
    {
      if amount <= 0 {
        return InvalidAmount;
      }
      var currentBal := GetAccountBalance(account);
      if currentBal.None? {
        return AccountNotFound;
      }
      if currentBal.value < amount + fee {
        return InsufficientFunds;
      }
      balances := balances[account := currentBal.value - (amount + fee)];
      rows := rows + [QrPurchase(clientTxnId, account, amount, fee)];
      return Success;
    }

    method RefundQr(clientTxnId: string, orig: string, account: Account, amount: int, clock: When)
      returns (reply: Code)
      modifies this
      ensures Contents() == Execute(old(Contents()), QrReturn(clientTxnId, orig, account, amount), clock)
      ensures reply == Outcome(old(Contents()), QrReturn(clientTxnId, orig, account, amount), clock)
    {
      var currentBal := GetAccountBalance(account);
      if currentBal.None? {
        return AccountNotFound;
      }
      var id := Find(rows, ByQrClient(orig));
      if id.None? {
        return PurchaseNotFound;
      }
      var p := rows[id.value];
      if p.account != account {
        return AccountMismatch;
      }
      if QrRefunded(rows, id.value) {
        return AlreadyRefunded;
      }
      if amount > p.amount {
        return RefundExceeds;
      }
      balances := balances[account := currentBal.value + amount];
      rows := rows + [QrRefund(clientTxnId, account, amount, id.value)];
      return Success;
    }

    method ProcessReversal(origTxn: string, origTable: string, account: Account, amount: int, fee: int,
                           alive: bool, saved: bool, clock: When)
      returns (reply: Code)
      modifies this
      ensures Contents() ==
        Execute(old(Contents()), Reverse(origTxn, origTable, account, amount, fee, alive, saved), clock)
      ensures reply ==
        Outcome(old(Contents()), Reverse(origTxn, origTable, account, amount, fee, alive, saved), clock)
    {
      if origTxn == "" || origTable == "" || account == "" || amount <= 0 {
        return MissingFields;
      }
      if !alive {
        return if saved then Queued else ReversalDbDown;
      }
      var current := GetAccountBalance(account);
      if current.None? {
        return if saved then Queued else ReversalDb;
      }
      balances := balances[account := current.value + amount + fee];
      rows := rows + [Reversal(account, amount, fee)];
      return Success;
    }
  }

  lemma RefusalKeeps(db: Db, req: Request, clock: When)
    ensures !Outcome(db, req, clock).Success? ==> Execute(db, req, clock) == db
  {}

  /** What the handlers with the most guards read. */
  lemma TransferSees(db: Db, req: Request, clock: When)
    requires req.Transfer?
    ensures Observe(db, req, clock) == View(
      BalanceAt(db, req.account), BalanceAt(db, req.credit),
      Spent(db.rows, MobileOut, req.account, clock.hour - HOUR, None),
      SpentOnDay(db.rows, MobileOut, req.account, clock.day), None, false)
  {}

  lemma PosReturnSees(db: Db, req: Request, clock: When)
    requires req.PosReturn?
    ensures var id := Find(db.rows, ByPosTxn(req.orig));
      Observe(db, req, clock) ==
        if id.None? then View(None, None, 0, 0, None, false)
        else View(BalanceAt(db, db.rows[id.value].account), None, 0, 0, Some(Found(id.value, db.rows[id.value])), false)
  {}

  lemma EcomReturnSees(db: Db, req: Request, clock: When)
    requires req.EcomReturn?
    ensures Observe(db, req, clock) == View(BalanceAt(db, req.account), None, 0, 0, SeePurchase(db, req), false)
    ensures req.origClient.Some? ==>
      var id := Find(db.rows, ByEcomClient(req.origClient.value));
      SeePurchase(db, req) == if id.None? then None else Some(Found(id.value, db.rows[id.value]))
  {}

  lemma OneWay(a: Account, b: Account)
    requires Less(a, b)
    ensures !Less(b, a)
  {
    if Less(b, a) {
      LessTransitive(a, b, a);
      LessIrreflexive(a);
    }
  }
}
