/** The tables of the switch and what each money handler does to them.

    Amounts are cents.  The channel tables are one sequence in the order of the
    master table `transactions`, which lists every committed record; a row's
    index is its id, and a query that may match several rows takes the earliest.
    A transfer row also keeps the credited account, which the mobile table does
    not store. */
module Bank {
  import opened AccountOrder
  import opened Options
  import opened Ledger
  import Fx

  // ---- Tables ----

  datatype Flag = N | PR | RF

  datatype Row =
    | AtmWithdrawal(account: Account, amount: int, fee: int, at: int)
    | AtmDeposit(account: Account, amount: int, at: int)
    | MobileTransfer(account: Account, credit: Account, amount: int, fee: int, at: int)
    | PosPurchase(txnId: string, account: Account, merchant: string, pan: string, amount: int, fee: int,
                  refunded: int, flag: Flag)
    | PosRefund(txnId: string, account: Account, merchant: string, pan: string, amount: int, purchase: nat)
    | EcomPurchase(clientTxnId: string, account: Account, merchant: string, amount: int, fee: int,
                   refunded: int, flag: Flag)
    | EcomRefund(clientTxnId: string, account: Account, amount: int, reference: string)
    | QrPurchase(clientTxnId: string, account: Account, amount: int, fee: int)
    | QrRefund(clientTxnId: string, account: Account, amount: int, purchase: nat)
    | Reversal(account: Account, amount: int, fee: int)

  datatype Db = Db(balances: map<Account, int>, rows: seq<Row>, books: Books)

  // ---- Requests ----

  /** `rate` is the quote for the currency of the request.  An ECOM refund may
      come without its reference.  For a reversal, `alive` says whether the
      database answers the ping and `saved` whether a drop file could be
      written. */
  datatype Request =
    | Withdraw(account: Account, amount: int, fee: int)
    | Deposit(account: Account, amount: int)
    | Transfer(account: Account, credit: Account, amount: int, fee: int)
    | PosBuy(txnId: string, account: Account, merchant: string, pan: string, amount: int, fee: int, rate: Fx.Quote)
    | PosReturn(txnId: string, orig: string, merchant: string, card: Option<string>, amount: int)
    | EcomBuy(txnId: string, clientTxnId: string, account: Account, merchant: string, amount: int, fee: int,
              rate: Fx.Quote)
    | EcomReturn(txnId: string, clientTxnId: string, origClient: Option<string>, account: Account, merchant: string,
                 amount: int, rate: Fx.Quote)
    | QrBuy(clientTxnId: string, account: Account, amount: int, fee: int)
    | QrReturn(clientTxnId: string, orig: string, account: Account, amount: int)
    | Reverse(origTxn: string, origTable: string, account: Account, amount: int, fee: int, alive: bool, saved: bool)

  datatype Code =
    | Success
    | AccountNotFound | DebitNotFound | CreditNotFound
    | InvalidAmount | InsufficientFunds | FxRateNotFound
    | SingleLimit | HourlyLimit | DailyLimit
    | InvalidOrigTxn | MissingOrigRef | MissingMerchant | PurchaseNotFound | InvalidRefundSource
    | MerchantMismatch | CardMismatch | AccountMismatch
    | AlreadyRefunded | InvalidRefundAmount | AmountLessThanFee | RefundExceeds
    | MissingFields | Queued | ReversalDbDown | ReversalDb

  const ATM_DAILY_WITHDRAWAL_LIMIT := 500_000
  const ATM_DAILY_DEPOSIT_LIMIT := 1_000_000
  const MOB_SINGLE_LIMIT := 200_000
  const MOB_HOURLY_LIMIT := 200_000
  const MOB_DAILY_LIMIT := 1_000_000
  const POS_MAX_SINGLE := 5_000_000

  // ---- Queries ----

  const HOUR := 3_600
  const DAY := 86_400

  function DayStart(t: int): int {
    t / DAY * DAY
  }

  datatype Meter = AtmOut | AtmIn | MobileOut

  predicate OnMeter(row: Row, meter: Meter, a: Account) {
    match row
    case AtmWithdrawal(account, _, _, _) => meter.AtmOut? && account == a
    case AtmDeposit(account, _, _) => meter.AtmIn? && account == a
    case MobileTransfer(account, _, _, _, _) => meter.MobileOut? && account == a
    case _ => false
  }

  /** What a row on a meter counts for: a withdrawal with its fee, a deposit
      and a transfer without. */
  function Metered(row: Row): int {
    match row
    case AtmWithdrawal(_, amount, fee, _) => amount + fee
    case AtmDeposit(_, amount, _) => amount
    case MobileTransfer(_, _, amount, _, _) => amount
    case _ => 0
  }

  /** The sums that the handlers and the statements about them take over the
      rows. */
  datatype Gauge =
    | Window(meter: Meter, account: Account, lo: int, hi: Option<int>)
    | Flow(account: Account)
    | OffLedger(account: Account)
    | PurchaseFees(account: Account)
    | EcomRefunds(reference: string)
    | PosRefunds(purchase: nat)
    | PosRefunded(purchase: nat)
    | QrRefunds(purchase: nat)
    | QrRefundedSum(purchase: nat)

  /** What a row, committed after `before`, adds to a gauge. */
  function Weigh(g: Gauge, before: seq<Row>, row: Row): int {
    match g
    case Window(meter, account, lo, hi) =>
      if OnMeter(row, meter, account) && lo <= row.at && (hi.Some? ==> row.at <= hi.value) then Metered(row) else 0
    case Flow(account) => Effect(before, row, account)
    case OffLedger(account) => if OnLedger(row) then 0 else Effect(before, row, account)
    case PurchaseFees(account) =>
      if (row.PosPurchase? || row.EcomPurchase?) && row.account == account then row.fee else 0
    case EcomRefunds(reference) => if row.EcomRefund? && row.reference == reference then row.amount else 0
    case PosRefunds(purchase) => if row.PosRefund? && row.purchase == purchase then 1 else 0
    case PosRefunded(purchase) => if row.PosRefund? && row.purchase == purchase then row.amount else 0
    case QrRefunds(purchase) => if row.QrRefund? && row.purchase == purchase then 1 else 0
    case QrRefundedSum(purchase) => if row.QrRefund? && row.purchase == purchase then row.amount else 0
  }

  predicate OnLedger(row: Row) {
    row.PosPurchase? || row.PosRefund? || row.EcomPurchase? || row.EcomRefund?
  }

  /** The signed effect of a committed record on the balance of `a`.  A transfer
      to its own account adds the amount. */
  function Effect(before: seq<Row>, row: Row, a: Account): int {
    match row
    case AtmWithdrawal(account, amount, fee, _) => if a == account then -(amount + fee) else 0
    case AtmDeposit(account, amount, _) => if a == account then amount else 0
    case MobileTransfer(account, credit, amount, fee, _) =>
      if a == credit then amount else if a == account then -(amount + fee) else 0
    case PosPurchase(_, account, _, _, amount, fee, _, _) => if a == account then -(amount + fee) else 0
    case PosRefund(_, account, _, _, amount, purchase) =>
      if a == account then amount - OriginalFee(before, purchase) else 0
    case EcomPurchase(_, account, _, amount, fee, _, _) => if a == account then -(amount + fee) else 0
    case EcomRefund(_, account, amount, _) => if a == account then amount else 0
    case QrPurchase(_, account, amount, fee) => if a == account then -(amount + fee) else 0
    case QrRefund(_, account, amount, _) => if a == account then amount else 0
    case Reversal(account, amount, fee) => if a == account then amount + fee else 0
  }

  function OriginalFee(rows: seq<Row>, purchase: nat): int {
    if purchase < |rows| && rows[purchase].PosPurchase? then rows[purchase].fee else 0
  }

  function Total(rows: seq<Row>, g: Gauge): int {
    if rows == [] then 0
    else Total(rows[..|rows| - 1], g) + Weigh(g, rows[..|rows| - 1], rows[|rows| - 1])
  }

  /** `SUM(...)` over the rows of `a` stamped from `lo`, up to `hi` if given. */
  function Spent(rows: seq<Row>, meter: Meter, a: Account, lo: int, hi: Option<int>): int {
    Total(rows, Window(meter, a, lo, hi))
  }

  function SpentOnDay(rows: seq<Row>, meter: Meter, a: Account, t: int): int {
    Spent(rows, meter, a, DayStart(t), Some(DayStart(t) + DAY - 1))
  }

  /** The kinds of lookup by which a refund finds its purchase. */
  datatype Lookup = ByPosTxn(txnId: string) | ByEcomClient(clientTxnId: string) | ByQrClient(clientTxnId: string)

  predicate Hits(row: Row, lookup: Lookup) {
    match lookup
    case ByPosTxn(txnId) => (row.PosPurchase? || row.PosRefund?) && row.txnId == txnId
    case ByEcomClient(clientTxnId) => row.EcomPurchase? && row.clientTxnId == clientTxnId
    case ByQrClient(clientTxnId) => row.QrPurchase? && row.clientTxnId == clientTxnId
  }

  function Find(rows: seq<Row>, lookup: Lookup): (id: Option<nat>)
    ensures id.Some? ==> id.value < |rows| && Hits(rows[id.value], lookup)
    ensures id.Some? ==> forall i :: 0 <= i < id.value ==> !Hits(rows[i], lookup)
    ensures id.None? ==> forall i :: 0 <= i < |rows| ==> !Hits(rows[i], lookup)
  {
    if rows == [] then None
    else
      var before := Find(rows[..|rows| - 1], lookup);
      if before.Some? then before
      else if Hits(rows[|rows| - 1], lookup) then Some(|rows| - 1)
      else None
  }

  /** `checkQrAlreadyRefunded`. */
  predicate QrRefunded(rows: seq<Row>, purchase: nat) {
    exists i :: 0 <= i < |rows| && rows[i].QrRefund? && rows[i].purchase == purchase
  }

  // ---- What a handler sees ----

  datatype Found = Found(id: nat, row: Row)

  /** Everything a handler reads before it decides. */
  datatype View = View(
    main: Option<int>,
    other: Option<int>,
    hour: int,
    day: int,
    found: Option<Found>,
    refunded: bool)

  /** When the hourly sum was read, when the daily sum was read, and when the
      row was inserted. */
  datatype When = When(hour: int, day: int, stamp: int)

  function LookupOf(req: Request): Option<Lookup> {
    match req
    case PosReturn(_, orig, _, _, _) => Some(ByPosTxn(orig))
    case EcomReturn(_, _, origClient, _, _, _, _) =>
      if origClient.Some? then Some(ByEcomClient(origClient.value)) else None
    case QrReturn(_, orig, _, _) => Some(ByQrClient(orig))
    case _ => None
  }

  function SeePurchase(db: Db, req: Request): Option<Found> {
    if LookupOf(req).None? then None
    else
      var id := Find(db.rows, LookupOf(req).value);
      if id.None? then None else Some(Found(id.value, db.rows[id.value]))
  }

  function SeeRefunded(db: Db, found: Option<Found>): bool {
    found.Some? && found.value.row.QrPurchase? && QrRefunded(db.rows, found.value.id)
  }

  function BalanceAt(db: Db, account: Account): Option<int> {
    if account in db.balances then Some(db.balances[account]) else None
  }

  /** The account a request is about; a POS refund takes it from the purchase. */
  function MainAccount(req: Request, found: Option<Found>): Option<Account> {
    match req
    case PosReturn(_, _, _, _, _) => if found.Some? then Some(found.value.row.account) else None
    case _ => Some(req.account)
  }

  function SeeMain(db: Db, req: Request, found: Option<Found>): Option<int> {
    var account := MainAccount(req, found);
    if account.Some? then BalanceAt(db, account.value) else None
  }

  function SeeOther(db: Db, req: Request): Option<int> {
    if req.Transfer? then BalanceAt(db, req.credit) else None
  }

  function SeeHour(db: Db, req: Request, at: int): int {
    if req.Transfer? then Spent(db.rows, MobileOut, req.account, at - HOUR, None) else 0
  }

  function SeeDay(db: Db, req: Request, at: int): int {
    match req
    case Withdraw(account, _, _) => SpentOnDay(db.rows, AtmOut, account, at)
    case Deposit(account, _) => SpentOnDay(db.rows, AtmIn, account, at)
    case Transfer(account, _, _, _) => SpentOnDay(db.rows, MobileOut, account, at)
    case _ => 0
  }

  function Observe(db: Db, req: Request, when: When): View {
    var found := SeePurchase(db, req);
    View(SeeMain(db, req, found), SeeOther(db, req), SeeHour(db, req, when.hour), SeeDay(db, req, when.day),
         found, SeeRefunded(db, found))
  }

  // ---- What a handler decides ----

  datatype Mark = Mark(id: nat, refunded: int, flag: Flag)

  datatype Posting =
    | NoPosting
    | PurchasePosting(txn: string, customer: Account, merchant: string, total: int, fee: int, markup: int)
    | RefundPosting(txn: string, customer: Account, merchant: string, amount: int)

  datatype Verdict =
    | Refuse(code: Code)
    | Approve(writes: map<Account, int>, row: Row, mark: Option<Mark>, posting: Posting)

  function Charge(amount: int, rate: Fx.Quote): Fx.Conversion {
    if rate.Listed? then Fx.Convert(amount, rate.value) else Fx.Conversion(amount, 0)
  }

  /** A request in another currency is charged what the converter makes of it,
      and has no quote iff the converter fails. */
  lemma ChargeIsConversion(rates: map<string, int>, home: string, currency: string, amount: int)
    requires currency != home
    ensures var quote, answer := Fx.QuoteOf(rates, home, currency), Fx.ConvertToBase(rates, currency, amount);
      && (quote.Unlisted? <==> answer.RateNotFound?)
      && (answer.Converted? ==> Charge(amount, quote) == answer.conversion)
  {}

  function Decide(req: Request, view: View, stamp: int): Verdict {
    match req
    case Withdraw(account, amount, fee) => DecideWithdraw(req, view, stamp)
    case Deposit(account, amount) => DecideDeposit(req, view, stamp)
    case Transfer(account, credit, amount, fee) => DecideTransfer(req, view, stamp)
    case PosBuy(txnId, account, merchant, pan, amount, fee, rate) => DecidePosBuy(req, view)
    case PosReturn(txnId, orig, merchant, card, amount) => DecidePosReturn(req, view)
    case EcomBuy(txnId, clientTxnId, account, merchant, amount, fee, rate) => DecideEcomBuy(req, view)
    case EcomReturn(txnId, clientTxnId, origClient, account, merchant, amount, rate) => DecideEcomReturn(req, view)
    case QrBuy(clientTxnId, account, amount, fee) => DecideQrBuy(req, view)
    case QrReturn(clientTxnId, orig, account, amount) => DecideQrReturn(req, view)
    case Reverse(_, _, _, _, _, _, _) => DecideReverse(req, view)
  }

  function DecideWithdraw(req: Request, view: View, stamp: int): Verdict
    requires req.Withdraw?
  {
    if view.main.None? then Refuse(AccountNotFound)
    else if view.day + req.amount + req.fee > ATM_DAILY_WITHDRAWAL_LIMIT then Refuse(DailyLimit)
    else if view.main.value < req.amount + req.fee then Refuse(InsufficientFunds)
    else
      Approve(map[req.account := view.main.value - req.amount - req.fee],
              AtmWithdrawal(req.account, req.amount, req.fee, stamp), None, NoPosting)
  }

  function DecideDeposit(req: Request, view: View, stamp: int): Verdict
    requires req.Deposit?
  {
    if view.day + req.amount > ATM_DAILY_DEPOSIT_LIMIT then Refuse(DailyLimit)
    else if view.main.None? then Refuse(AccountNotFound)
    else
      Approve(map[req.account := view.main.value + req.amount],
              AtmDeposit(req.account, req.amount, stamp), None, NoPosting)
  }

  /** The accounts are read in account order, and the first missing one is
      reported. */
  function TransferMissing(debit: Account, credit: Account, debitBal: Option<int>, creditBal: Option<int>)
    : Option<Code>
  {
    if Less(credit, debit) then
      if creditBal.None? then Some(CreditNotFound) else if debitBal.None? then Some(DebitNotFound) else None
    else
      if debitBal.None? then Some(DebitNotFound) else if creditBal.None? then Some(CreditNotFound) else None
  }

  /** With one account on both sides, both balances are its balance and the
      second write stands. */
  function DecideTransfer(req: Request, view: View, stamp: int): Verdict
    requires req.Transfer?
  {
    if req.amount > MOB_SINGLE_LIMIT then Refuse(SingleLimit)
    else if TransferMissing(req.account, req.credit, view.main, view.other).Some? then
      Refuse(TransferMissing(req.account, req.credit, view.main, view.other).value)
    else
      var debitBal, creditBal := view.main.value, view.other.value;
      if view.hour + req.amount > MOB_HOURLY_LIMIT then Refuse(HourlyLimit)
      else if view.day + req.amount > MOB_DAILY_LIMIT then Refuse(DailyLimit)
      else if debitBal < req.amount + req.fee then Refuse(InsufficientFunds)
      else
        Approve(map[req.account := debitBal - req.amount - req.fee][req.credit := creditBal + req.amount],
                MobileTransfer(req.account, req.credit, req.amount, req.fee, stamp), None, NoPosting)
  }

  function DecidePosBuy(req: Request, view: View): Verdict
    requires req.PosBuy?
  {
    if req.amount <= 0 then Refuse(InvalidAmount)
    else if req.amount > POS_MAX_SINGLE then Refuse(SingleLimit)
    else if req.rate.Unlisted? then Refuse(FxRateNotFound)
    else
      var charge := Charge(req.amount, req.rate);
      if view.main.None? then Refuse(AccountNotFound)
      else if view.main.value < charge.converted + req.fee then Refuse(InsufficientFunds)
      else
        Approve(map[req.account := view.main.value - (charge.converted + req.fee)],
                PosPurchase(req.txnId, req.account, req.merchant, req.pan, charge.converted, req.fee, 0, N),
                None,
                PurchasePosting(req.txnId, req.account, req.merchant, charge.converted, req.fee, charge.markup))
  }

  function DecidePosReturn(req: Request, view: View): Verdict
    requires req.PosReturn?
  {
    if req.orig == "" then Refuse(InvalidOrigTxn)
    else if req.merchant == "" then Refuse(MissingMerchant)
    else if view.found.None? then Refuse(PurchaseNotFound)
    else
      var id, p := view.found.value.id, view.found.value.row;
      if !p.PosPurchase? then Refuse(InvalidRefundSource)
      else if p.merchant != req.merchant then Refuse(MerchantMismatch)
      else if req.card.Some? && req.card.value != p.pan then Refuse(CardMismatch)
      else if p.flag != N || p.refunded > 0 then Refuse(AlreadyRefunded)
      else if req.amount <= 0 || req.amount > p.amount then Refuse(InvalidRefundAmount)
      else if view.main.None? then Refuse(AccountNotFound)
      else if req.amount <= p.fee then Refuse(AmountLessThanFee)
      else
        var netRefund := req.amount - p.fee;
        Approve(map[p.account := view.main.value + netRefund],
                PosRefund(req.txnId, p.account, req.merchant, p.pan, req.amount, id),
                Some(Mark(id, req.amount, if req.amount == p.amount then RF else PR)),
                RefundPosting(req.txnId, p.account, req.merchant, netRefund))
  }

  function DecideEcomBuy(req: Request, view: View): Verdict
    requires req.EcomBuy?
  {
    if req.amount <= 0 then Refuse(InvalidAmount)
    else if view.main.None? then Refuse(AccountNotFound)
    else if req.rate.Unlisted? then Refuse(FxRateNotFound)
    else
      var charge := Charge(req.amount, req.rate);
      if view.main.value < charge.converted + req.fee then Refuse(InsufficientFunds)
      else
        Approve(map[req.account := view.main.value - charge.converted - req.fee],
                EcomPurchase(req.clientTxnId, req.account, req.merchant, charge.converted, req.fee, 0, N),
                None,
                PurchasePosting(req.txnId, req.account, req.merchant, charge.converted, req.fee, charge.markup))
  }

  function DecideEcomReturn(req: Request, view: View): Verdict
    requires req.EcomReturn?
  {
    if view.main.None? then Refuse(AccountNotFound)
    else if req.rate.Unlisted? then Refuse(FxRateNotFound)
    else if req.origClient.None? then Refuse(MissingOrigRef)
    else
      var amount := Charge(req.amount, req.rate).converted;
      if view.found.None? || !view.found.value.row.EcomPurchase? then Refuse(PurchaseNotFound)
      else
        var id, p := view.found.value.id, view.found.value.row;
        if p.flag == RF then Refuse(AlreadyRefunded)
        else if amount + p.refunded > p.amount then Refuse(RefundExceeds)
        else
          Approve(map[req.account := view.main.value + amount],
                  EcomRefund(req.clientTxnId, req.account, amount, req.origClient.value),
                  Some(Mark(id, amount + p.refunded, if amount + p.refunded == p.amount then RF else PR)),
                  RefundPosting(req.txnId, req.account, req.merchant, amount))
  }

  function DecideQrBuy(req: Request, view: View): Verdict
    requires req.QrBuy?
  {
    if req.amount <= 0 then Refuse(InvalidAmount)
    else if view.main.None? then Refuse(AccountNotFound)
    else if view.main.value < req.amount + req.fee then Refuse(InsufficientFunds)
    else
      Approve(map[req.account := view.main.value - (req.amount + req.fee)],
              QrPurchase(req.clientTxnId, req.account, req.amount, req.fee), None, NoPosting)
  }

  function DecideQrReturn(req: Request, view: View): Verdict
    requires req.QrReturn?
  {
    if view.main.None? then Refuse(AccountNotFound)
    else if view.found.None? || !view.found.value.row.QrPurchase? then Refuse(PurchaseNotFound)
    else
      var id, p := view.found.value.id, view.found.value.row;
      if p.account != req.account then Refuse(AccountMismatch)
      else if view.refunded then Refuse(AlreadyRefunded)
      else if req.amount > p.amount then Refuse(RefundExceeds)
      else
        Approve(map[req.account := view.main.value + req.amount],
                QrRefund(req.clientTxnId, req.account, req.amount, id), None, NoPosting)
  }

  function DecideReverse(req: Request, view: View): Verdict
    requires req.Reverse?
  {
    if req.origTxn == "" || req.origTable == "" || req.account == "" || req.amount <= 0 then Refuse(MissingFields)
    else if !req.alive then Refuse(if req.saved then Queued else ReversalDbDown)
    else if view.main.None? then Refuse(if req.saved then Queued else ReversalDb)
    else
      Approve(map[req.account := view.main.value + req.amount + req.fee],
              Reversal(req.account, req.amount, req.fee), None, NoPosting)
  }

  // ---- What a commit does ----

  /** `UPDATE ... SET refunded_amount = ?, flag = ?` on one purchase row. */
  function Remarked(row: Row, refunded: int, flag: Flag): Row {
    match row
    case PosPurchase(txnId, account, merchant, pan, amount, fee, _, _) =>
      PosPurchase(txnId, account, merchant, pan, amount, fee, refunded, flag)
    case EcomPurchase(clientTxnId, account, merchant, amount, fee, _, _) =>
      EcomPurchase(clientTxnId, account, merchant, amount, fee, refunded, flag)
    case _ => row
  }

  function Marked(rows: seq<Row>, mark: Option<Mark>): seq<Row> {
    if mark.None? || mark.value.id >= |rows| then rows
    else rows[mark.value.id := Remarked(rows[mark.value.id], mark.value.refunded, mark.value.flag)]
  }

  function PostedTo(books: Books, posting: Posting): Books {
    match posting
    case NoPosting => books
    case PurchasePosting(txn, customer, merchant, total, fee, markup) =>
      PurchaseBooks(books, txn, customer, merchant, total, fee, markup)
    case RefundPosting(txn, customer, merchant, amount) => RefundBooks(books, txn, customer, merchant, amount)
  }

  function Apply(db: Db, v: Verdict): Db {
    if v.Refuse? then db
    else Db(db.balances + v.writes, Marked(db.rows, v.mark) + [v.row], PostedTo(db.books, v.posting))
  }

  function CodeOf(v: Verdict): Code {
    if v.Refuse? then v.code else Success
  }

  /** One handler run from start to commit with no other in between. */
  function Execute(db: Db, req: Request, when: When): Db {
    Apply(db, Decide(req, Observe(db, req, when), when.stamp))
  }

  function Outcome(db: Db, req: Request, when: When): Code {
    CodeOf(Decide(req, Observe(db, req, when), when.stamp))
  }
}
