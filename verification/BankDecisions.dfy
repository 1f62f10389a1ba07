/** What each handler answers and leaves behind, told by the fields of the rows:
    which row a refund finds, what the limits count, in which order the guards
    speak, and every table after an approval. */
module BankDecisions {
  import opened AccountOrder
  import opened Options
  import opened Ledger
  import opened Bank
  import opened BankSums
  import opened BankInvariants
  import Fx

  // ---- Which purchase a refund finds ----

  /** A row of `transaction_pos`, purchase or refund, with this id. */
  predicate PosRow(row: Row, txnId: string) {
    (row.PosPurchase? || row.PosRefund?) && row.txnId == txnId
  }

  predicate EcomRow(row: Row, clientTxnId: string) {
    row.EcomPurchase? && row.clientTxnId == clientTxnId
  }

  predicate QrRow(row: Row, clientTxnId: string) {
    row.QrPurchase? && row.clientTxnId == clientTxnId
  }

  /** The first row, if there is one, that `here` holds of. */
  predicate Earliest(rows: seq<Row>, here: Row -> bool, id: Option<nat>) {
    match id
    case None => forall i :: 0 <= i < |rows| ==> !here(rows[i])
    case Some(id) => id < |rows| && here(rows[id]) && forall i :: 0 <= i < id ==> !here(rows[i])
  }

  lemma PosLookup(rows: seq<Row>, txnId: string, id: Option<nat>)
    ensures Find(rows, ByPosTxn(txnId)) == id <==> Earliest(rows, row => PosRow(row, txnId), id)
  {
    LookupIs(rows, ByPosTxn(txnId), row => PosRow(row, txnId), id);
  }

  lemma EcomLookup(rows: seq<Row>, clientTxnId: string, id: Option<nat>)
    ensures Find(rows, ByEcomClient(clientTxnId)) == id <==> Earliest(rows, row => EcomRow(row, clientTxnId), id)
  {
    LookupIs(rows, ByEcomClient(clientTxnId), row => EcomRow(row, clientTxnId), id);
  }

  lemma QrLookup(rows: seq<Row>, clientTxnId: string, id: Option<nat>)
    ensures Find(rows, ByQrClient(clientTxnId)) == id <==> Earliest(rows, row => QrRow(row, clientTxnId), id)
  {
    LookupIs(rows, ByQrClient(clientTxnId), row => QrRow(row, clientTxnId), id);
  }

  lemma LookupIs(rows: seq<Row>, lookup: Lookup, here: Row -> bool, id: Option<nat>)
    requires forall row :: Hits(row, lookup) <==> here(row)
    ensures Find(rows, lookup) == id <==> Earliest(rows, here, id)
  {
    hide Hits;
    var found := Find(rows, lookup);
    assert Earliest(rows, here, found);
  }

  /** The row that an approved refund marks or refers to carries the id that the
      request names, and a POS refund goes to the account of that row. */
  lemma RefundIsOfNamedPurchase(db: Db, req: Request, when: When)
    requires VerdictOn(db, req, when).Approve?
    ensures var v := VerdictOn(db, req, when);
      && (req.PosReturn? ==>
            && v.row.PosRefund? && v.row.purchase < |db.rows| && v.mark.Some? && v.mark.value.id == v.row.purchase
            && db.rows[v.row.purchase].PosPurchase? && db.rows[v.row.purchase].txnId == req.orig
            && v.row.account == db.rows[v.row.purchase].account && v.writes.Keys == {v.row.account})
      && (req.EcomReturn? ==>
            && v.row.EcomRefund? && v.mark.Some? && v.mark.value.id < |db.rows| && req.origClient.Some?
            && db.rows[v.mark.value.id].EcomPurchase?
            && db.rows[v.mark.value.id].clientTxnId == req.origClient.value == v.row.reference)
      && (req.QrReturn? ==>
            && v.row.QrRefund? && v.row.purchase < |db.rows| && db.rows[v.row.purchase].QrPurchase?
            && db.rows[v.row.purchase].clientTxnId == req.orig)
  {
    hide Total, Fx.Convert, QrRefunded;
  }

  // ---- ATM ----

  lemma AtmReads(db: Db, req: Request, when: When)
    requires req.Withdraw? || req.Deposit?
    ensures var day := when.day / 86_400;
      Observe(db, req, when) ==
        View(BalanceAt(db, req.account), None, 0,
             if req.Withdraw? then WithdrawnOnDay(db.rows, req.account, day)
             else PaidInOnDay(db.rows, req.account, day), None, false)
  {
    DaysAddUp(db.rows, req.account, when.day);
    hide SpentOnDay, WithdrawnOnDay, PaidInOnDay;
  }

  lemma WithdrawalDecided(db: Db, account: Account, amount: int, fee: int, when: When)
    ensures var out := Outcome(db, Withdraw(account, amount, fee), when);
      var today := WithdrawnOnDay(db.rows, account, when.day / 86_400);
      && (out == AccountNotFound <==> account !in db.balances)
      && (out == DailyLimit <==> account in db.balances && today + amount + fee > 500_000)
      && (out == InsufficientFunds <==>
            account in db.balances && today + amount + fee <= 500_000 && db.balances[account] < amount + fee)
      && (out == Success <==>
            account in db.balances && today + amount + fee <= 500_000 && db.balances[account] >= amount + fee)
      && (out == Success ==>
            Execute(db, Withdraw(account, amount, fee), when) ==
              Db(db.balances[account := db.balances[account] - amount - fee],
                 db.rows + [AtmWithdrawal(account, amount, fee, when.stamp)], db.books))
  {
    AtmReads(db, Withdraw(account, amount, fee), when);
    hide Observe, WithdrawnOnDay, PaidInOnDay;
  }

  lemma DepositDecided(db: Db, account: Account, amount: int, when: When)
    ensures var out := Outcome(db, Deposit(account, amount), when);
      var today := PaidInOnDay(db.rows, account, when.day / 86_400);
      && (out == DailyLimit <==> today + amount > 1_000_000)
      && (out == AccountNotFound <==> today + amount <= 1_000_000 && account !in db.balances)
      && (out == Success <==> today + amount <= 1_000_000 && account in db.balances)
      && (out == Success ==>
            Execute(db, Deposit(account, amount), when) ==
              Db(db.balances[account := db.balances[account] + amount],
                 db.rows + [AtmDeposit(account, amount, when.stamp)], db.books))
  {
    AtmReads(db, Deposit(account, amount), when);
    hide Observe, WithdrawnOnDay, PaidInOnDay;
  }

  // ---- Transfers ----

  lemma TransferReads(db: Db, req: Request, when: When)
    requires req.Transfer?
    ensures Observe(db, req, when) ==
      View(BalanceAt(db, req.account), BalanceAt(db, req.credit), SentSince(db.rows, req.account, when.hour - 3_600),
           SentOnDay(db.rows, req.account, when.day / 86_400), None, false)
  {
    MetersAddUp(db.rows, req.account, when.hour - HOUR, 0);
    DaysAddUp(db.rows, req.account, when.day);
    hide SpentOnDay, SentOnDay, SentSince, Spent;
  }

  /** With both accounts there, the limits speak in turn, then the funds. */
  lemma TransferDecided(db: Db, debit: Account, credit: Account, amount: int, fee: int, when: When)
    ensures var out := Outcome(db, Transfer(debit, credit, amount, fee), when);
      var lately := SentSince(db.rows, debit, when.hour - 3_600);
      var today := SentOnDay(db.rows, debit, when.day / 86_400);
      var known := amount <= 200_000 && debit in db.balances && credit in db.balances;
      && (out == SingleLimit <==> amount > 200_000)
      && (out == HourlyLimit <==> known && lately + amount > 200_000)
      && (out == DailyLimit <==> known && lately + amount <= 200_000 && today + amount > 1_000_000)
      && (out == InsufficientFunds <==>
            known && lately + amount <= 200_000 && today + amount <= 1_000_000 && db.balances[debit] < amount + fee)
      && (out == Success <==>
            known && lately + amount <= 200_000 && today + amount <= 1_000_000 && db.balances[debit] >= amount + fee)
  {
    TransferReads(db, Transfer(debit, credit, amount, fee), when);
    hide Observe, SentOnDay, SentSince, Less;
  }

  lemma TransferLeaves(db: Db, debit: Account, credit: Account, amount: int, fee: int, when: When)
    requires Outcome(db, Transfer(debit, credit, amount, fee), when) == Success
    ensures debit in db.balances && credit in db.balances
    ensures Execute(db, Transfer(debit, credit, amount, fee), when) ==
      Db(db.balances[debit := db.balances[debit] - amount - fee][credit := db.balances[credit] + amount],
         db.rows + [MobileTransfer(debit, credit, amount, fee, when.stamp)], db.books)
  {
    TransferReads(db, Transfer(debit, credit, amount, fee), when);
    hide Observe, SentOnDay, SentSince, Less;
  }

  /** An account that is missing is named, and of two the one that comes first
      in the order of account numbers. */
  lemma MissingAccountIsNamed(db: Db, debit: Account, credit: Account, amount: int, fee: int, when: When)
    requires amount <= 200_000
    ensures var out := Outcome(db, Transfer(debit, credit, amount, fee), when);
      && (out == DebitNotFound <==> debit !in db.balances && (credit in db.balances || !Less(credit, debit)))
      && (out == CreditNotFound <==> credit !in db.balances && (debit in db.balances || Less(credit, debit)))
  {
    hide SpentOnDay, Spent, Less;
  }

  /** 1,500.00 sent at ten, and 1,500.00 again five minutes later: the hour is
      full. */
  lemma SecondTransferRefused()
    ensures var first, again := When(36_000, 36_000, 36_000), When(36_300, 36_300, 36_300);
      var db := Db(map["A" := 1_000_000, "B" := 0], [], Books(map[], []));
      var sent := Execute(db, Transfer("A", "B", 150_000, 0), first);
      && Outcome(db, Transfer("A", "B", 150_000, 0), first) == Success
      && sent.balances == map["A" := 850_000, "B" := 150_000]
      && Outcome(sent, Transfer("A", "B", 150_000, 0), again) == HourlyLimit
  {
    FirstIsSent();
    OneSent("A", "B", 150_000, 36_000, 32_700);
    hide Execute, Outcome, SentSince, SentOnDay;
    TransferDecided(AfterFirst(), "A", "B", 150_000, 0, When(36_300, 36_300, 36_300));
  }

  function AfterFirst(): Db {
    Db(map["A" := 850_000, "B" := 150_000], [MobileTransfer("A", "B", 150_000, 0, 36_000)], Books(map[], []))
  }

  lemma FirstIsSent()
    ensures var db, first := Db(map["A" := 1_000_000, "B" := 0], [], Books(map[], [])), When(36_000, 36_000, 36_000);
      && Outcome(db, Transfer("A", "B", 150_000, 0), first) == Success
      && Execute(db, Transfer("A", "B", 150_000, 0), first) == AfterFirst()
  {
    var db, first := Db(map["A" := 1_000_000, "B" := 0], [], Books(map[], [])), When(36_000, 36_000, 36_000);
    NothingSent();
    hide Execute, Outcome, SentSince, SentOnDay;
    TransferDecided(db, "A", "B", 150_000, 0, first);
    TransferLeaves(db, "A", "B", 150_000, 0, first);
  }

  lemma NothingSent()
    ensures forall a, from :: SentSince([], a, from) == 0
    ensures forall a, day :: SentOnDay([], a, day) == 0
  {}

  lemma OneSent(a: Account, b: Account, amount: int, at: int, from: int)
    requires from <= at
    ensures SentSince([MobileTransfer(a, b, amount, 0, at)], a, from) == amount
  {
    assert [MobileTransfer(a, b, amount, 0, at)][..0] == [];
  }

  // ---- POS ----

  lemma PosPurchaseDecided(db: Db, req: Request, when: When)
    requires req.PosBuy?
    ensures var out := Outcome(db, req, when); var charge := Charge(req.amount, req.rate);
      var sound := 0 < req.amount <= 5_000_000 && !req.rate.Unlisted?;
      && (out == InvalidAmount <==> req.amount <= 0)
      && (out == SingleLimit <==> req.amount > 5_000_000)
      && (out == FxRateNotFound <==> 0 < req.amount <= 5_000_000 && req.rate.Unlisted?)
      && (out == AccountNotFound <==> sound && req.account !in db.balances)
      && (out == InsufficientFunds <==>
            sound && req.account in db.balances && db.balances[req.account] < charge.converted + req.fee)
      && (out == Success <==>
            sound && req.account in db.balances && db.balances[req.account] >= charge.converted + req.fee)
      && (out == Success ==>
            Execute(db, req, when) ==
              Db(db.balances[req.account := db.balances[req.account] - charge.converted - req.fee],
                 db.rows
                   + [PosPurchase(req.txnId, req.account, req.merchant, req.pan, charge.converted, req.fee, 0, N)],
                 PurchaseBooks(db.books, req.txnId, req.account, req.merchant, charge.converted, req.fee,
                               charge.markup)))
  {
    hide Charge, PurchaseBooks;
  }

  /** `id` is the row that the request names. */
  lemma PosRefundDecided(db: Db, req: Request, when: When, id: Option<nat>)
    requires req.PosReturn? && Earliest(db.rows, row => PosRow(row, req.orig), id)
    ensures var out := Outcome(db, req, when);
      && (out == InvalidOrigTxn <==> req.orig == "")
      && (out == MissingMerchant <==> req.orig != "" && req.merchant == "")
      && (out == PurchaseNotFound <==> req.orig != "" && req.merchant != "" && id.None?)
      && (req.orig != "" && req.merchant != "" && id.Some? ==> PosRefundOf(db, req, when, id.value))
  {
    PosLookup(db.rows, req.orig, id);
    if req.orig != "" && req.merchant != "" && id.Some? {
      PosRefundOfFound(db, req, when, id.value);
    }
    hide Find, PosRefundOf, RefundBooks;
  }

  /** What the refund of the purchase in row `id` comes to. */
  ghost predicate PosRefundOf(db: Db, req: Request, when: When, id: nat)
    requires req.PosReturn? && id < |db.rows|
  {
    var out, p := Outcome(db, req, when), db.rows[id];
    && (out == InvalidRefundSource <==> !p.PosPurchase?)
    && (p.PosPurchase? ==>
          var card := req.card.None? || req.card.value == p.pan;
          var unused := p.merchant == req.merchant && card && p.flag == N && p.refunded <= 0;
          var sound := unused && 0 < req.amount <= p.amount;
          && (out == MerchantMismatch <==> p.merchant != req.merchant)
          && (out == CardMismatch <==> p.merchant == req.merchant && !card)
          && (out == AlreadyRefunded <==> p.merchant == req.merchant && card && (p.flag != N || p.refunded > 0))
          && (out == InvalidRefundAmount <==> unused && (req.amount <= 0 || req.amount > p.amount))
          && (out == AccountNotFound <==> sound && p.account !in db.balances)
          && (out == AmountLessThanFee <==> sound && p.account in db.balances && req.amount <= p.fee)
          && (out == Success <==> sound && p.account in db.balances && req.amount > p.fee))
  }

  lemma PosRefundOfFound(db: Db, req: Request, when: When, id: nat)
    requires req.PosReturn? && Find(db.rows, ByPosTxn(req.orig)) == Some(id) && req.orig != "" && req.merchant != ""
    ensures id < |db.rows| && PosRefundOf(db, req, when, id)
  {
    hide RefundBooks, Find, Hits;
  }

  /** The account gets the amount less the fee of the purchase, and the purchase
      is marked with what is given back. */
  lemma PosRefundLeaves(db: Db, req: Request, when: When, id: nat)
    requires req.PosReturn? && Earliest(db.rows, row => PosRow(row, req.orig), Some(id))
    requires Outcome(db, req, when) == Success
    ensures db.rows[id].PosPurchase? && db.rows[id].account in db.balances
    ensures var p := db.rows[id];
      Execute(db, req, when) ==
        Db(db.balances[p.account := db.balances[p.account] + req.amount - p.fee],
           db.rows[id := PosPurchase(p.txnId, p.account, p.merchant, p.pan, p.amount, p.fee, req.amount,
                                     if req.amount == p.amount then RF else PR)]
             + [PosRefund(req.txnId, p.account, p.merchant, p.pan, req.amount, id)],
           RefundBooks(db.books, req.txnId, p.account, req.merchant, req.amount - p.fee))
  {
    PosLookup(db.rows, req.orig, Some(id));
    hide RefundBooks, Find, Hits;
  }

  // ---- ECOM ----

  lemma EcomPurchaseDecided(db: Db, req: Request, when: When)
    requires req.EcomBuy?
    ensures var out := Outcome(db, req, when); var charge := Charge(req.amount, req.rate);
      var sound := 0 < req.amount && req.account in db.balances && !req.rate.Unlisted?;
      && (out == InvalidAmount <==> req.amount <= 0)
      && (out == AccountNotFound <==> 0 < req.amount && req.account !in db.balances)
      && (out == FxRateNotFound <==> 0 < req.amount && req.account in db.balances && req.rate.Unlisted?)
      && (out == InsufficientFunds <==> sound && db.balances[req.account] < charge.converted + req.fee)
      && (out == Success <==> sound && db.balances[req.account] >= charge.converted + req.fee)
      && (out == Success ==>
            Execute(db, req, when) ==
              Db(db.balances[req.account := db.balances[req.account] - charge.converted - req.fee],
                 db.rows + [EcomPurchase(req.clientTxnId, req.account, req.merchant, charge.converted, req.fee, 0, N)],
                 PurchaseBooks(db.books, req.txnId, req.account, req.merchant, charge.converted, req.fee,
                               charge.markup)))
  {
    hide Charge, PurchaseBooks;
  }

  /** `id` is the purchase that the request names, if it names one. */
  lemma EcomRefundDecided(db: Db, req: Request, when: When, id: Option<nat>)
    requires req.EcomReturn?
    requires req.origClient.Some? ==> Earliest(db.rows, row => EcomRow(row, req.origClient.value), id)
    ensures var out := Outcome(db, req, when);
      var ready := req.account in db.balances && !req.rate.Unlisted?;
      && (out == AccountNotFound <==> req.account !in db.balances)
      && (out == FxRateNotFound <==> req.account in db.balances && req.rate.Unlisted?)
      && (out == MissingOrigRef <==> ready && req.origClient.None?)
      && (out == PurchaseNotFound <==> ready && req.origClient.Some? && id.None?)
      && (ready && req.origClient.Some? && id.Some? ==> EcomRefundOf(db, req, when, id.value))
  {
    if req.origClient.Some? {
      EcomLookup(db.rows, req.origClient.value, id);
      if req.account in db.balances && !req.rate.Unlisted? && id.Some? {
        EcomRefundOfFound(db, req, when, id.value);
      }
    }
    hide Find, EcomRefundOf, RefundBooks, Charge;
  }

  ghost predicate EcomRefundOf(db: Db, req: Request, when: When, id: nat)
    requires req.EcomReturn? && req.origClient.Some? && id < |db.rows| && req.account in db.balances
  {
    var out, p, amount := Outcome(db, req, when), db.rows[id], Charge(req.amount, req.rate).converted;
    && p.EcomPurchase?
    && (out == AlreadyRefunded <==> p.flag == RF)
    && (out == RefundExceeds <==> p.flag != RF && p.refunded + amount > p.amount)
    && (out == Success <==> p.flag != RF && p.refunded + amount <= p.amount)
  }

  lemma EcomRefundOfFound(db: Db, req: Request, when: When, id: nat)
    requires req.EcomReturn? && req.origClient.Some? && req.account in db.balances && !req.rate.Unlisted?
    requires Find(db.rows, ByEcomClient(req.origClient.value)) == Some(id)
    ensures id < |db.rows| && EcomRefundOf(db, req, when, id)
  {
    hide RefundBooks, Charge;
  }

  /** The account gets the amount, and the purchase is marked with all that has
      been given back. */
  lemma EcomRefundLeaves(db: Db, req: Request, when: When, id: nat)
    requires req.EcomReturn? && req.origClient.Some? && Outcome(db, req, when) == Success
    requires Earliest(db.rows, row => EcomRow(row, req.origClient.value), Some(id))
    ensures db.rows[id].EcomPurchase? && req.account in db.balances
    ensures var p, amount := db.rows[id], Charge(req.amount, req.rate).converted;
      Execute(db, req, when) ==
        Db(db.balances[req.account := db.balances[req.account] + amount],
           db.rows[id := EcomPurchase(p.clientTxnId, p.account, p.merchant, p.amount, p.fee, p.refunded + amount,
                                      if p.refunded + amount == p.amount then RF else PR)]
             + [EcomRefund(req.clientTxnId, req.account, amount, req.origClient.value)],
           RefundBooks(db.books, req.txnId, req.account, req.merchant, amount))
  {
    EcomLookup(db.rows, req.origClient.value, Some(id));
    hide RefundBooks, Find, Hits, Charge;
  }

  // ---- QR ----

  lemma QrPurchaseDecided(db: Db, client: string, account: Account, amount: int, fee: int, when: When)
    ensures var out := Outcome(db, QrBuy(client, account, amount, fee), when);
      && (out == InvalidAmount <==> amount <= 0)
      && (out == AccountNotFound <==> amount > 0 && account !in db.balances)
      && (out == InsufficientFunds <==> amount > 0 && account in db.balances && db.balances[account] < amount + fee)
      && (out == Success <==> amount > 0 && account in db.balances && db.balances[account] >= amount + fee)
      && (out == Success ==>
            Execute(db, QrBuy(client, account, amount, fee), when) ==
              Db(db.balances[account := db.balances[account] - amount - fee],
                 db.rows + [QrPurchase(client, account, amount, fee)], db.books))
  {}

  /** `id` is the purchase that the request names. */
  lemma QrRefundDecided(db: Db, client: string, orig: string, account: Account, amount: int, when: When,
                        id: Option<nat>)
    requires Earliest(db.rows, row => QrRow(row, orig), id)
    ensures var out := Outcome(db, QrReturn(client, orig, account, amount), when);
      && (out == AccountNotFound <==> account !in db.balances)
      && (out == PurchaseNotFound <==> account in db.balances && id.None?)
      && (account in db.balances && id.Some? ==>
            var p := db.rows[id.value];
            var again := exists i :: 0 <= i < |db.rows| && db.rows[i].QrRefund? && db.rows[i].purchase == id.value;
            && (out == AccountMismatch <==> p.account != account)
            && (out == AlreadyRefunded <==> p.account == account && again)
            && (out == RefundExceeds <==> p.account == account && !again && amount > p.amount)
            && (out == Success <==> p.account == account && !again && amount <= p.amount)
            && (out == Success ==>
                  Execute(db, QrReturn(client, orig, account, amount), when) ==
                    Db(db.balances[account := db.balances[account] + amount],
                       db.rows + [QrRefund(client, account, amount, id.value)], db.books)))
  {
    QrLookup(db.rows, orig, id);
    QrRefundReads(db, QrReturn(client, orig, account, amount), when);
    hide Find, Observe, Earliest, QrRow;
  }

  lemma QrRefundReads(db: Db, req: Request, when: When)
    requires req.QrReturn?
    ensures var id := Find(db.rows, ByQrClient(req.orig));
      Observe(db, req, when) ==
        if id.None? then View(BalanceAt(db, req.account), None, 0, 0, None, false)
        else View(BalanceAt(db, req.account), None, 0, 0, Some(Found(id.value, db.rows[id.value])),
                  QrRefunded(db.rows, id.value))
  {
    hide QrRefunded, Find;
  }

  // ---- Reversals ----

  lemma ReversalDecided(db: Db, req: Request, when: When)
    requires req.Reverse?
    ensures var out := Outcome(db, req, when);
      var complete := req.origTxn != "" && req.origTable != "" && req.account != "" && req.amount > 0;
      var stopped := !req.alive || req.account !in db.balances;
      && (out == MissingFields <==> !complete)
      && (out == Queued <==> complete && stopped && req.saved)
      && (out == ReversalDbDown <==> complete && !req.saved && !req.alive)
      && (out == ReversalDb <==> complete && !req.saved && req.alive && req.account !in db.balances)
      && (out == Success <==> complete && !stopped)
      && (out == Success ==>
            Execute(db, req, when) ==
              Db(db.balances[req.account := db.balances[req.account] + req.amount + req.fee],
                 db.rows + [Reversal(req.account, req.amount, req.fee)], db.books))
  {}
}
