/** The account balances and the double-entry books side by side. */
module BankLedger {
  import opened AccountOrder
  import opened Options
  import opened Ledger
  import opened Bank
  import opened BankSums
  import opened BankInvariants
  import Fx

  /** What a posting leaves on the trial balance. */
  function Residual(p: Posting): int {
    match p
    case NoPosting => 0
    case PurchasePosting(_, _, merchant, total, fee, markup) => PurchaseResidual(merchant, total, fee, markup)
    case RefundPosting(_, _, merchant, amount) => if merchant == "" then amount else 0
  }

  /** What it does to the ledger account `a`. */
  function PostingEffect(p: Posting, a: string): int {
    match p
    case NoPosting => 0
    case PurchasePosting(_, customer, merchant, total, fee, markup) =>
      PurchaseEffect(a, customer, merchant, total, fee, markup)
    case RefundPosting(_, customer, merchant, amount) => RefundEffect(a, customer, merchant, amount)
  }

  lemma PostingMoves(books: Books, p: Posting, a: string)
    ensures Agrees(books) ==> Agrees(PostedTo(books, p))
    ensures TrialBalance(PostedTo(books, p)) == TrialBalance(books) + Residual(p)
    ensures BalanceOf(PostedTo(books, p), a) == BalanceOf(books, a) + PostingEffect(p, a)
  {
    hide PurchaseBooks, RefundBooks, PurchaseResidual, PurchaseEffect, RefundEffect, Agrees, BalanceOf;
    match p
    case NoPosting =>
    case PurchasePosting(txn, customer, merchant, total, fee, markup) =>
      PurchasePosts(books, txn, customer, merchant, total, fee, markup);
    case RefundPosting(txn, customer, merchant, amount) =>
      RefundPosts(books, txn, customer, merchant, amount);
  }

  lemma BooksAfter(db: Db, req: Request, when: When, a: string)
    ensures Agrees(db.books) ==> Agrees(Execute(db, req, when).books)
    ensures VerdictOn(db, req, when).Approve? ==>
      && TrialBalance(Execute(db, req, when).books) ==
           TrialBalance(db.books) + Residual(VerdictOn(db, req, when).posting)
      && BalanceOf(Execute(db, req, when).books, a) ==
           BalanceOf(db.books, a) + PostingEffect(VerdictOn(db, req, when).posting, a)
  {
    hide Decide, Observe, PostedTo, Agrees, BalanceOf, Marked;
    var v := VerdictOn(db, req, when);
    if v.Approve? {
      PostingMoves(db.books, v.posting, a);
    }
  }

  /** Every ledger balance stays what its entries add up to. */
  lemma BooksAgreeKept(db: Db, req: Request, when: When)
    requires Agrees(db.books)
    ensures Agrees(Execute(db, req, when).books)
  {
    BooksAfter(db, req, when, "");
  }

  // ---- The trial balance ----

  /** What a caller can check: there is a merchant to pay or to charge, or
      nothing is left over for one. */
  predicate Balances(req: Request) {
    match req
    case PosBuy(_, _, merchant, _, amount, fee, rate) => MerchantIsPaid(merchant, Charge(amount, rate), fee)
    case EcomBuy(_, _, _, merchant, amount, fee, rate) => MerchantIsPaid(merchant, Charge(amount, rate), fee)
    case EcomReturn(_, _, _, _, merchant, _, _) => merchant != ""
    case _ => true
  }

  predicate MerchantIsPaid(merchant: string, charge: Fx.Conversion, fee: int) {
    var rest := charge.converted - fee - charge.markup;
    rest == 0 || (rest > 0 && merchant != "")
  }

  lemma ResidualIff(db: Db, req: Request, when: When)
    requires VerdictOn(db, req, when).Approve? && WellSigned(req)
    ensures Residual(VerdictOn(db, req, when).posting) == 0 <==> Balances(req)
  {
    var v := VerdictOn(db, req, when);
    if (req.PosBuy? || req.EcomBuy?) {
      ChargeMarkup(req.amount, req.rate);
      hide Fx.Convert, PurchaseResidual, Total, Find;
      var charge := Charge(req.amount, req.rate);
      PurchaseBalancesIff(req.merchant, charge.converted, req.fee, charge.markup);
    } else {
      hide Fx.Convert, Total, Find, Less, QrRefunded;
    }
  }

  lemma ChargeMarkup(amount: int, rate: Fx.Quote)
    requires rate.Listed? ==> rate.value > 0
    ensures amount > 0 ==> 0 <= Charge(amount, rate).markup <= Charge(amount, rate).converted
  {
    if rate.Listed? && amount > 0 { Fx.MarkupWithinCharge(amount, rate.value); }
  }

  /** An approved request leaves the trial balance alone iff it balances. */
  lemma TrialBalanceKeptIff(db: Db, req: Request, when: When)
    requires WellSigned(req) && VerdictOn(db, req, when).Approve?
    ensures TrialBalance(Execute(db, req, when).books) == TrialBalance(db.books) <==> Balances(req)
  {
    hide Decide, Observe, PostedTo, Residual, TrialBalance, WellSigned, Balances;
    BooksAfter(db, req, when, "");
    ResidualIff(db, req, when);
  }

  /** A purchase without a merchant is approved, and the books lose what the
      merchant would have had. */
  lemma PurchaseWithoutMerchant(when: When)
    ensures var db := Db(map["A" := 500], [], Books(map[], []));
      var buy := PosBuy("t", "A", "", "pan", 100, 1, Fx.Home);
      && VerdictOn(db, buy, when).Approve? && WellSigned(buy) && !Balances(buy)
      && TrialBalance(Execute(db, buy, when).books) == TrialBalance(db.books) - 99
  {
    var db, buy := Db(map["A" := 500], [], Books(map[], [])), PosBuy("t", "A", "", "pan", 100, 1, Fx.Home);
    BooksAfter(db, buy, when, "");
    hide PostedTo, TrialBalance;
  }

  /** A merchant who is paid in foreign money gets the converted amount, rounded
      once, less the fee: the markup is the bank's and comes on top. */
  lemma MerchantGetsConversion(db: Db, buy: Request, when: When)
    requires (buy.PosBuy? || buy.EcomBuy?) && WellSigned(buy) && VerdictOn(db, buy, when).Approve? && buy.rate.Listed?
    requires buy.merchant !in ["", buy.account, BANK_FEE_REV, BANK_FX_REV]
    ensures var rounded := Fx.Round(buy.amount * buy.rate.value, Fx.RATE_ONE);
      BalanceOf(Execute(db, buy, when).books, buy.merchant) ==
        BalanceOf(db.books, buy.merchant) + if rounded > buy.fee then rounded - buy.fee else 0
  {
    BooksAfter(db, buy, when, buy.merchant);
    Fx.MarkupIsOnTop(buy.amount, buy.rate.value);
    hide Fx.Convert, Fx.Round, PostedTo, BalanceOf, Agrees, Total, Find;
  }

  // ---- Accounts against ledger accounts ----

  /** `a` is a customer's account number as far as `req` is concerned. */
  predicate Customer(a: Account, req: Request) {
    && a != BANK_FEE_REV && a != BANK_FX_REV
    && (req.PosBuy? || req.PosReturn? || req.EcomBuy? || req.EcomReturn? ==> a != req.merchant)
  }

  /** The ledger follows the account in everything but the purchase fees and
      the channels that do not post. */
  ghost predicate LedgerTracks(opening: map<Account, int>, db: Db, a: Account)
    requires a in opening && a in db.balances
  {
    db.balances[a] - opening[a] ==
      BalanceOf(db.books, a) - Total(db.rows, PurchaseFees(a)) + Total(db.rows, OffLedger(a))
  }

  /** One record: its effect on the account is its effect on the ledger, less
      the purchase fee, or it is off the ledger. */
  lemma RecordAgainstPosting(db: Db, req: Request, when: When, a: Account)
    requires VerdictOn(db, req, when).Approve? && Customer(a, req)
    ensures var v := VerdictOn(db, req, when);
      Effect(db.rows, v.row, a) ==
        PostingEffect(v.posting, a) - Weigh(PurchaseFees(a), db.rows, v.row) + Weigh(OffLedger(a), db.rows, v.row)
  {
    hide Fx.Convert, Total, Less, QrRefunded;
    match req
    case PosReturn(_, _, _, _, _) =>
    case _ => hide Find;
  }

  lemma LedgerTracksKept(opening: map<Account, int>, db: Db, req: Request, when: When, a: Account)
    requires a in opening && a in db.balances && LedgerTracks(opening, db, a) && Customer(a, req)
    ensures a in Execute(db, req, when).balances && LedgerTracks(opening, Execute(db, req, when), a)
  {
    var v := VerdictOn(db, req, when);
    if v.Approve? {
      CommitMovesBalances(db, req, when, a);
      BooksAfter(db, req, when, a);
      TotalCommitted(db, v, PurchaseFees(a));
      TotalCommitted(db, v, OffLedger(a));
      RecordAgainstPosting(db, req, when, a);
      hide Decide, Observe, Effect, PostingEffect, Weigh, Total, Marked, PostedTo, BalanceOf;
    }
  }

  // ---- A purchase and its full refund ----

  /** A POS purchase that is approved and then refunded in full by the same
      merchant: the refund is approved, the account is down by twice the fee,
      the customer's ledger account by the fee once, and the trial balance is
      where it was. */
  lemma FullPosRefund(db: Db, buy: Request, when: When, ret: Request, when': When)
    requires buy.PosBuy? && ret.PosReturn? && WellSigned(buy) && Balances(buy)
    requires VerdictOn(db, buy, when).Approve? && Find(db.rows, ByPosTxn(buy.txnId)).None?
    requires ret.orig == buy.txnId != "" && ret.merchant == buy.merchant != ""
    requires ret.card.Some? ==> ret.card.value == buy.pan
    requires ret.amount == Charge(buy.amount, buy.rate).converted > buy.fee
    requires Customer(buy.account, buy)
    ensures var db1 := Execute(db, buy, when); var db2 := Execute(db1, ret, when');
      && VerdictOn(db1, ret, when').Approve?
      && buy.account in db.balances && buy.account in db2.balances
      && db2.balances[buy.account] == db.balances[buy.account] - 2 * buy.fee
      && BalanceOf(db2.books, buy.account) == BalanceOf(db.books, buy.account) - buy.fee
      && TrialBalance(db2.books) == TrialBalance(db.books)
  {
    hide Execute, VerdictOn, TrialBalance, BalanceOf, Find, Balances, Charge;
    BoughtMoves(db, buy, when);
    BoughtIsFound(db, buy, when);
    RefundOfFound(Execute(db, buy, when), ret, when', |db.rows|);
  }

  lemma BoughtMoves(db: Db, buy: Request, when: When)
    requires buy.PosBuy? && WellSigned(buy) && Balances(buy) && VerdictOn(db, buy, when).Approve?
    requires Customer(buy.account, buy)
    ensures var db1 := Execute(db, buy, when); var total := Charge(buy.amount, buy.rate).converted;
      && buy.account in db.balances && buy.account in db1.balances
      && db1.balances[buy.account] == db.balances[buy.account] - total - buy.fee
      && BalanceOf(db1.books, buy.account) == BalanceOf(db.books, buy.account) - total
      && TrialBalance(db1.books) == TrialBalance(db.books)
  {
    BooksAfter(db, buy, when, buy.account);
    TrialBalanceKeptIff(db, buy, when);
    hide Total, Fx.Convert, PostedTo, Find, Less, QrRefunded, SpentOnDay;
    hide Agrees, BalanceOf, TrialBalance, WellSigned, Balances;
  }

  lemma BoughtIsFound(db: Db, buy: Request, when: When)
    requires buy.PosBuy? && VerdictOn(db, buy, when).Approve? && Find(db.rows, ByPosTxn(buy.txnId)).None?
    ensures var db1 := Execute(db, buy, when);
      && Find(db1.rows, ByPosTxn(buy.txnId)) == Some(|db.rows|)
      && |db1.rows| == |db.rows| + 1
      && db1.rows[|db.rows|] == PosPurchase(buy.txnId, buy.account, buy.merchant, buy.pan,
                                            Charge(buy.amount, buy.rate).converted, buy.fee, 0, N)
  {
    FindCommitted(db, VerdictOn(db, buy, when), ByPosTxn(buy.txnId));
    hide Observe, Fx.Convert, PostedTo, Find;
  }

  lemma RefundOfFound(db: Db, ret: Request, when: When, id: nat)
    requires ret.PosReturn? && ret.orig != "" && ret.merchant != ""
    requires Find(db.rows, ByPosTxn(ret.orig)) == Some(id) && id < |db.rows| && db.rows[id].PosPurchase?
    requires db.rows[id].flag == N && db.rows[id].refunded == 0 && db.rows[id].merchant == ret.merchant
    requires ret.card.Some? ==> ret.card.value == db.rows[id].pan
    requires db.rows[id].fee < ret.amount <= db.rows[id].amount && 0 < ret.amount
    requires db.rows[id].account in db.balances && db.rows[id].account != ret.merchant
    ensures var db' := Execute(db, ret, when); var a, paid := db.rows[id].account, ret.amount - db.rows[id].fee;
      && VerdictOn(db, ret, when).Approve? && a in db'.balances
      && db'.balances[a] == db.balances[a] + paid
      && BalanceOf(db'.books, a) == BalanceOf(db.books, a) + paid
      && TrialBalance(db'.books) == TrialBalance(db.books)
  {
    RefundVerdict(db, ret, when, id);
    BooksAfter(db, ret, when, db.rows[id].account);
    hide VerdictOn, Decide, Observe, PostedTo, Marked, BalanceOf, TrialBalance, Find, Agrees;
  }

  lemma RefundVerdict(db: Db, ret: Request, when: When, id: nat)
    requires ret.PosReturn? && ret.orig != "" && ret.merchant != ""
    requires Find(db.rows, ByPosTxn(ret.orig)) == Some(id) && id < |db.rows| && db.rows[id].PosPurchase?
    requires db.rows[id].flag == N && db.rows[id].refunded == 0 && db.rows[id].merchant == ret.merchant
    requires ret.card.Some? ==> ret.card.value == db.rows[id].pan
    requires db.rows[id].fee < ret.amount <= db.rows[id].amount && 0 < ret.amount
    requires db.rows[id].account in db.balances
    ensures var v := VerdictOn(db, ret, when); var p := db.rows[id];
      && v.Approve? && v.writes == map[p.account := db.balances[p.account] + (ret.amount - p.fee)]
      && v.posting == RefundPosting(ret.txnId, p.account, ret.merchant, ret.amount - p.fee)
  {
    hide Total, QrRefunded;
  }
}
