/** The double-entry books: `ledger_accounts` with running balances and
    `ledger_entries`.  Amounts are cents; `account_number` is a unique key, so
    an account stands for its `ledger_id`. */
module Ledger {
  import opened MapSum

  datatype Side = DEBIT | CREDIT

  datatype Entry = Entry(txn: string, account: string, amount: int, side: Side)

  datatype Books = Books(balances: map<string, int>, entries: seq<Entry>)

  const BANK_FEE_REV := "BANK_FEE_REV"
  const BANK_FX_REV := "BANK_FX_REV"

  /** `getOrCreateLedgerAccount`. */
  function Opened(b: Books, account: string): Books {
    if account in b.balances then b else b.(balances := b.balances[account := 0])
  }

  /** `postLedgerEntry`: the entry, and `delta` on the running balance. */
  function Posted(b: Books, entry: Entry, delta: int): Books {
    Books(
      if entry.account in b.balances then b.balances[entry.account := b.balances[entry.account] + delta]
      else b.balances,
      b.entries + [entry])
  }

  function Debited(b: Books, txn: string, account: string, amount: int): Books {
    Posted(b, Entry(txn, account, amount, DEBIT), -amount)
  }

  function Credited(b: Books, txn: string, account: string, amount: int): Books {
    Posted(b, Entry(txn, account, amount, CREDIT), amount)
  }

  predicate MerchantPaid(merchant: string, total: int, fee: int, markup: int) {
    total - fee - markup > 0 && merchant != ""
  }

  function MerchantLeg(b: Books, txn: string, merchant: string, total: int, fee: int, markup: int): Books {
    if MerchantPaid(merchant, total, fee, markup)
    then Credited(Opened(b, merchant), txn, merchant, total - fee - markup) else b
  }

  function RevenueLeg(b: Books, txn: string, account: string, amount: int): Books {
    if amount > 0 then Credited(b, txn, account, amount) else b
  }

  /** `processPurchaseLedger`. */
  function PurchaseBooks(b: Books, txn: string, customer: string, merchant: string,
                         total: int, fee: int, markup: int): Books {
    var ready := Opened(Opened(Opened(b, customer), BANK_FEE_REV), BANK_FX_REV);
    var paid := MerchantLeg(Debited(ready, txn, customer, total), txn, merchant, total, fee, markup);
    RevenueLeg(RevenueLeg(paid, txn, BANK_FEE_REV, fee), txn, BANK_FX_REV, markup)
  }

  /** `processRefundLedger`. */
  function RefundBooks(b: Books, txn: string, customer: string, merchant: string, amount: int): Books {
    var credited := Credited(Opened(b, customer), txn, customer, amount);
    if merchant != "" then Debited(Opened(credited, merchant), txn, merchant, amount) else credited
  }

  class GeneralLedger {
    var balances: map<string, int>
    var entries: seq<Entry>

    function Contents(): Books
      reads this
    {
      Books(balances, entries)
    }

    constructor ()
      ensures Contents() == Books(map[], [])
    {
      balances, entries := map[], [];
    }

    method GetOrCreateLedgerAccount(account: string)
      modifies this
      ensures Contents() == Opened(old(Contents()), account)
      ensures account in balances
    {
      if account !in balances {
        balances := balances[account := 0];
      }
    }

    method PostLedgerEntry(txn: string, account: string, amount: int, side: Side, delta: int)
      requires account in balances
      modifies this
      ensures Contents() == Posted(old(Contents()), Entry(txn, account, amount, side), delta)
    {
      entries := entries + [Entry(txn, account, amount, side)];
      balances := balances[account := balances[account] + delta];
    }

    method ProcessPurchaseLedger(txn: string, customer: string, merchant: string,
                                 totalAmount: int, bankFee: int, fxMarkup: int)
      modifies this
      ensures Contents() == PurchaseBooks(old(Contents()), txn, customer, merchant, totalAmount, bankFee, fxMarkup)
    {
      GetOrCreateLedgerAccount(customer);
      GetOrCreateLedgerAccount(BANK_FEE_REV);
      GetOrCreateLedgerAccount(BANK_FX_REV);
      PostLedgerEntry(txn, customer, totalAmount, DEBIT, -totalAmount);
      var merchantAmount := totalAmount - bankFee - fxMarkup;
      if merchantAmount > 0 && merchant != "" {
        GetOrCreateLedgerAccount(merchant);
        PostLedgerEntry(txn, merchant, merchantAmount, CREDIT, merchantAmount);
      }
      if bankFee > 0 {
        PostLedgerEntry(txn, BANK_FEE_REV, bankFee, CREDIT, bankFee);
      }
      if fxMarkup > 0 {
        PostLedgerEntry(txn, BANK_FX_REV, fxMarkup, CREDIT, fxMarkup);
      }
    }

    method ProcessRefundLedger(txn: string, customer: string, merchant: string, refundAmount: int)
      modifies this
      ensures Contents() == RefundBooks(old(Contents()), txn, customer, merchant, refundAmount)
    {
      GetOrCreateLedgerAccount(customer);
      PostLedgerEntry(txn, customer, refundAmount, CREDIT, refundAmount);
      if merchant != "" {
        GetOrCreateLedgerAccount(merchant);
        PostLedgerEntry(txn, merchant, refundAmount, DEBIT, -refundAmount);
      }
    }
  }

  // ---- Balances and entries ----

  function Signed(e: Entry): int {
    if e.side.CREDIT? then e.amount else -e.amount
  }

  /** Credits minus debits of one account. */
  function Net(entries: seq<Entry>, account: string): int {
    if entries == [] then 0
    else
      var e := entries[|entries| - 1];
      Net(entries[..|entries| - 1], account) + if e.account == account then Signed(e) else 0
  }

  function BalanceOf(b: Books, account: string): int {
    if account in b.balances then b.balances[account] else 0
  }

  /** Every running balance is what its entries add up to. */
  ghost predicate Agrees(b: Books) {
    forall account :: BalanceOf(b, account) == Net(b.entries, account)
  }

  ghost function TrialBalance(b: Books): int {
    Sum(b.balances)
  }

  /** From `b` to `b'` the books moved by `amount` on `account` and agree with
      their entries if they did before. */
  ghost predicate Moved(b: Books, b': Books, account: string, amount: int) {
    && b.balances.Keys <= b'.balances.Keys
    && (forall a :: BalanceOf(b', a) == BalanceOf(b, a) + if a == account then amount else 0)
    && (Agrees(b) ==> Agrees(b'))
    && TrialBalance(b') == TrialBalance(b) + amount
  }

  lemma OpenedMoves(b: Books, account: string, other: string)
    ensures account in Opened(b, account).balances && Moved(b, Opened(b, account), other, 0)
  {
    SumUpdate(b.balances, account, 0);
  }

  lemma PostedMoves(b: Books, e: Entry)
    requires e.account in b.balances
    ensures Moved(b, Posted(b, e, Signed(e)), e.account, Signed(e))
  {
    var b' := Posted(b, e, Signed(e));
    SumUpdate(b.balances, e.account, b.balances[e.account] + Signed(e));
    forall a ensures Net(b'.entries, a) == Net(b.entries, a) + if a == e.account then Signed(e) else 0 {
      assert b'.entries[..|b'.entries| - 1] == b.entries;
    }
  }

  lemma MovedTwice(b: Books, b1: Books, b2: Books, account: string, x: int, y: int)
    requires Moved(b, b1, account, x) && Moved(b1, b2, account, y)
    ensures Moved(b, b2, account, x + y)
  {}

  // ---- The trial balance ----

  /** What a purchase leaves on the trial balance. */
  function PurchaseResidual(merchant: string, total: int, fee: int, markup: int): int {
    (if MerchantPaid(merchant, total, fee, markup) then 0 else fee + markup - total)
    - (if fee > 0 then 0 else fee) - (if markup > 0 then 0 else markup)
  }

  /** What it does to the ledger account `a`. */
  function PurchaseEffect(a: string, customer: string, merchant: string, total: int, fee: int, markup: int): int {
    (if a == customer then -total else 0)
    + (if a == merchant && MerchantPaid(merchant, total, fee, markup) then total - fee - markup else 0)
    + (if a == BANK_FEE_REV && fee > 0 then fee else 0)
    + (if a == BANK_FX_REV && markup > 0 then markup else 0)
  }

  function RefundEffect(a: string, customer: string, merchant: string, amount: int): int {
    (if a == customer then amount else 0) - (if a == merchant && merchant != "" then amount else 0)
  }

  lemma MerchantLegMoves(b: Books, txn: string, merchant: string, total: int, fee: int, markup: int)
    ensures Moved(b, MerchantLeg(b, txn, merchant, total, fee, markup), merchant,
      if MerchantPaid(merchant, total, fee, markup) then total - fee - markup else 0)
  {
    if MerchantPaid(merchant, total, fee, markup) {
      var ready := Opened(b, merchant);
      var e := Entry(txn, merchant, total - fee - markup, CREDIT);
      OpenedMoves(b, merchant, merchant);
      PostedMoves(ready, e);
      MovedTwice(b, ready, Posted(ready, e, Signed(e)), merchant, 0, total - fee - markup);
    }
  }

  lemma RevenueLegMoves(b: Books, txn: string, account: string, amount: int)
    requires account in b.balances
    ensures Moved(b, RevenueLeg(b, txn, account, amount), account, if amount > 0 then amount else 0)
  {
    if amount > 0 {
      PostedMoves(b, Entry(txn, account, amount, CREDIT));
    }
  }

  lemma AllOpened(b: Books, customer: string)
    ensures var ready := Opened(Opened(Opened(b, customer), BANK_FEE_REV), BANK_FX_REV);
      && Moved(b, ready, customer, 0)
      && customer in ready.balances && BANK_FEE_REV in ready.balances && BANK_FX_REV in ready.balances
  {
    var b1, b2 := Opened(b, customer), Opened(Opened(b, customer), BANK_FEE_REV);
    OpenedMoves(b, customer, customer);
    OpenedMoves(b1, BANK_FEE_REV, customer);
    OpenedMoves(b2, BANK_FX_REV, customer);
    MovedTwice(b, b1, b2, customer, 0, 0);
  }

  /** The books after a purchase, as their balances and entries tell it. */
  ghost predicate PurchaseEffects(b: Books, b': Books, customer: string, merchant: string,
                                  total: int, fee: int, markup: int) {
    && (Agrees(b) ==> Agrees(b'))
    && (forall a :: BalanceOf(b', a) == BalanceOf(b, a) + PurchaseEffect(a, customer, merchant, total, fee, markup))
    && TrialBalance(b') == TrialBalance(b) + PurchaseResidual(merchant, total, fee, markup)
  }

  lemma PurchaseStages(b: Books, txn: string, customer: string, merchant: string, total: int, fee: int, markup: int)
    returns (charged: Books, paid: Books, earned: Books)
    ensures Moved(b, charged, customer, -total)
    ensures Moved(charged, paid, merchant,
                  if MerchantPaid(merchant, total, fee, markup) then total - fee - markup else 0)
    ensures Moved(paid, earned, BANK_FEE_REV, if fee > 0 then fee else 0)
    ensures Moved(earned, PurchaseBooks(b, txn, customer, merchant, total, fee, markup), BANK_FX_REV,
                  if markup > 0 then markup else 0)
  {
    var ready := Opened(Opened(Opened(b, customer), BANK_FEE_REV), BANK_FX_REV);
    AllOpened(b, customer);
    PostedMoves(ready, Entry(txn, customer, total, DEBIT));
    charged := Debited(ready, txn, customer, total);
    MovedTwice(b, ready, charged, customer, 0, -total);
    MerchantLegMoves(charged, txn, merchant, total, fee, markup);
    paid := MerchantLeg(charged, txn, merchant, total, fee, markup);
    RevenueLegMoves(paid, txn, BANK_FEE_REV, fee);
    earned := RevenueLeg(paid, txn, BANK_FEE_REV, fee);
    RevenueLegMoves(earned, txn, BANK_FX_REV, markup);
  }

  lemma LegsAddUp(b: Books, b2: Books, b3: Books, b4: Books, b5: Books,
                  customer: string, merchant: string, feeRev: string, fxRev: string,
                  total: int, toMerchant: int, toFee: int, toFx: int)
    requires Moved(b, b2, customer, total) && Moved(b2, b3, merchant, toMerchant)
    requires Moved(b3, b4, feeRev, toFee) && Moved(b4, b5, fxRev, toFx)
    ensures forall a :: (BalanceOf(b5, a) == BalanceOf(b, a)
      + (if a == customer then total else 0) + (if a == merchant then toMerchant else 0)
      + (if a == feeRev then toFee else 0) + (if a == fxRev then toFx else 0))
    ensures TrialBalance(b5) == TrialBalance(b) + total + toMerchant + toFee + toFx
    ensures Agrees(b) ==> Agrees(b5)
  {}

  /** A purchase moves each account by its legs and the trial balance by the
      stated residual. */
  lemma PurchasePosts(b: Books, txn: string, customer: string, merchant: string, total: int, fee: int, markup: int)
    ensures PurchaseEffects(b, PurchaseBooks(b, txn, customer, merchant, total, fee, markup),
                            customer, merchant, total, fee, markup)
  {
    var charged, paid, earned := PurchaseStages(b, txn, customer, merchant, total, fee, markup);
    LegsAddUp(b, charged, paid, earned, PurchaseBooks(b, txn, customer, merchant, total, fee, markup),
              customer, merchant, BANK_FEE_REV, BANK_FX_REV, -total,
              if MerchantPaid(merchant, total, fee, markup) then total - fee - markup else 0,
              if fee > 0 then fee else 0, if markup > 0 then markup else 0);
  }

  /** What a purchase enters, line by line: the customer is debited, and the
      merchant, the fee account and the markup account are credited where there
      is something for them. */
  lemma PurchaseEntries(b: Books, txn: string, customer: string, merchant: string, total: int, fee: int, markup: int)
    ensures PurchaseBooks(b, txn, customer, merchant, total, fee, markup).entries ==
      b.entries + [Entry(txn, customer, total, DEBIT)]
      + (if total - fee - markup > 0 && merchant != ""
         then [Entry(txn, merchant, total - fee - markup, CREDIT)] else [])
      + (if fee > 0 then [Entry(txn, "BANK_FEE_REV", fee, CREDIT)] else [])
      + (if markup > 0 then [Entry(txn, "BANK_FX_REV", markup, CREDIT)] else [])
  {}

  /** And which accounts it opens. */
  lemma PurchaseOpens(b: Books, txn: string, customer: string, merchant: string, total: int, fee: int, markup: int)
    ensures PurchaseBooks(b, txn, customer, merchant, total, fee, markup).balances.Keys ==
      b.balances.Keys + {customer, "BANK_FEE_REV", "BANK_FX_REV"}
      + (if total - fee - markup > 0 && merchant != "" then {merchant} else {})
  {
    var ready := Opened(Opened(Opened(b, customer), BANK_FEE_REV), BANK_FX_REV);
    OpensThree(b, customer);
    hide Opened;
    var charged := Debited(ready, txn, customer, total);
    MerchantLegOpens(charged, txn, merchant, total, fee, markup);
    hide MerchantLeg;
  }

  lemma OpensThree(b: Books, customer: string)
    ensures Opened(Opened(Opened(b, customer), BANK_FEE_REV), BANK_FX_REV).balances.Keys ==
      b.balances.Keys + {customer, BANK_FEE_REV, BANK_FX_REV}
  {}

  lemma MerchantLegOpens(b: Books, txn: string, merchant: string, total: int, fee: int, markup: int)
    ensures MerchantLeg(b, txn, merchant, total, fee, markup).balances.Keys ==
      b.balances.Keys + if total - fee - markup > 0 && merchant != "" then {merchant} else {}
  {}

  /** A refund credits the customer and debits the merchant, if one is named. */
  lemma RefundEntries(b: Books, txn: string, customer: string, merchant: string, amount: int)
    ensures RefundBooks(b, txn, customer, merchant, amount).entries ==
      b.entries + [Entry(txn, customer, amount, CREDIT)]
      + (if merchant != "" then [Entry(txn, merchant, amount, DEBIT)] else [])
    ensures RefundBooks(b, txn, customer, merchant, amount).balances.Keys ==
      b.balances.Keys + {customer} + (if merchant != "" then {merchant} else {})
  {}

  ghost predicate RefundEffects(b: Books, b': Books, customer: string, merchant: string, amount: int) {
    && (Agrees(b) ==> Agrees(b'))
    && (forall a :: BalanceOf(b', a) == BalanceOf(b, a) + RefundEffect(a, customer, merchant, amount))
    && TrialBalance(b') == TrialBalance(b) + if merchant == "" then amount else 0
  }

  lemma RefundPosts(b: Books, txn: string, customer: string, merchant: string, amount: int)
    ensures RefundEffects(b, RefundBooks(b, txn, customer, merchant, amount), customer, merchant, amount)
  {
    var ready := Opened(b, customer);
    var credited := Credited(ready, txn, customer, amount);
    OpenedMoves(b, customer, customer);
    PostedMoves(ready, Entry(txn, customer, amount, CREDIT));
    MovedTwice(b, ready, credited, customer, 0, amount);
    if merchant != "" {
      ReturnLegMoves(credited, txn, merchant, amount);
    }
  }

  lemma ReturnLegMoves(b: Books, txn: string, merchant: string, amount: int)
    ensures Moved(b, Debited(Opened(b, merchant), txn, merchant, amount), merchant, -amount)
  {
    var ready := Opened(b, merchant);
    OpenedMoves(b, merchant, merchant);
    PostedMoves(ready, Entry(txn, merchant, amount, DEBIT));
    MovedTwice(b, ready, Debited(ready, txn, merchant, amount), merchant, 0, -amount);
  }

  /** A purchase with no negative part balances iff the merchant leg is posted
      or is zero. */
  lemma PurchaseBalancesIff(merchant: string, total: int, fee: int, markup: int)
    requires fee >= 0 && markup >= 0
    ensures PurchaseResidual(merchant, total, fee, markup) == 0 <==>
      (total == fee + markup || (total > fee + markup && merchant != ""))
  {}
}
