/** Any number of requests one after another, from a bank whose tables hold
    opening balances and nothing else. */
module BankRuns {
  import opened AccountOrder
  import opened Ledger
  import opened Bank
  import opened BankSums
  import opened BankInvariants
  import opened BankRefunds
  import opened BankLimits
  import opened BankLedger

  datatype Call = Call(req: Request, when: When)

  function After(db: Db, calls: seq<Call>): Db {
    if calls == [] then db
    else
      var last := calls[|calls| - 1];
      Execute(After(db, calls[..|calls| - 1]), last.req, last.when)
  }

  /** Clocks as the account lock keeps them. */
  ghost predicate Proper(db: Db, calls: seq<Call>) {
    calls == [] ||
      var before, last := calls[..|calls| - 1], calls[|calls| - 1];
      && Proper(db, before)
      && ClockOk(After(db, before), last.req, last.when)
  }

  /** Signs as a channel must pass them. */
  predicate AllSigned(calls: seq<Call>) {
    forall i :: 0 <= i < |calls| ==> WellSigned(calls[i].req)
  }

  function Opening(balances: map<Account, int>): Db {
    Db(balances, [], Books(map[], []))
  }

  /** What holds of the tables at every moment. */
  ghost predicate Healthy(opening: map<Account, int>, db: Db) {
    && BalancesAddUp(opening, db)
    && NoDebt(db)
    && EcomSafe(db.rows) && PosSafe(db.rows) && QrSafe(db.rows)
    && MetersNatural(db.rows) && WithinLimits(db.rows)
    && Agrees(db.books)
  }

  lemma HealthyOpening(opening: map<Account, int>)
    requires forall a :: a in opening ==> opening[a] >= 0
    ensures Healthy(opening, Opening(opening))
  {}

  lemma HealthyKept(opening: map<Account, int>, db: Db, req: Request, when: When)
    requires Healthy(opening, db) && WellSigned(req) && ClockOk(db, req, when)
    ensures Healthy(opening, Execute(db, req, when))
  {
    BalancesAddUpKept(opening, db, req, when);
    NoDebtKept(db, req, when);
    EcomSafeKept(db, req, when);
    PosSafeKept(db, req, when);
    QrSafeKept(db, req, when);
    MetersNaturalKept(db, req, when);
    WithinLimitsKept(db, req, when);
    BooksAgreeKept(db, req, when);
    hide Execute, BalancesAddUp, NoDebt, EcomSafe, PosSafe, QrSafe, MetersNatural, WithinLimits, Agrees;
  }

  /** After any run every balance is its opening plus its records and not
      negative, no purchase is over-refunded, no limit is passed, and every
      ledger balance is what its entries add up to. */
  lemma {:induction false} HealthyRun(opening: map<Account, int>, calls: seq<Call>)
    requires forall a :: a in opening ==> opening[a] >= 0
    requires AllSigned(calls) && Proper(Opening(opening), calls)
    ensures Healthy(opening, After(Opening(opening), calls))
    decreases |calls|
  {
    hide Execute, Healthy, ClockOk, WellSigned;
    if calls == [] {
      HealthyOpening(opening);
    } else {
      var before, last := calls[..|calls| - 1], calls[|calls| - 1];
      HealthyRun(opening, before);
      HealthyKept(opening, After(Opening(opening), before), last.req, last.when);
    }
  }

  /** Whatever the signs, balances are their opening plus their records, and
      ledger balances their entries. */
  lemma {:induction false} AccountsAddUp(opening: map<Account, int>, calls: seq<Call>)
    ensures BalancesAddUp(opening, After(Opening(opening), calls))
    ensures Agrees(After(Opening(opening), calls).books)
    decreases |calls|
  {
    hide Execute, BalancesAddUp, Agrees;
    if calls == [] {
      OpeningAddsUp(opening);
    } else {
      var before, last := calls[..|calls| - 1], calls[|calls| - 1];
      AccountsAddUp(opening, before);
      BalancesAddUpKept(opening, After(Opening(opening), before), last.req, last.when);
      BooksAgreeKept(After(Opening(opening), before), last.req, last.when);
    }
  }

  lemma OpeningAddsUp(opening: map<Account, int>)
    ensures BalancesAddUp(opening, Opening(opening)) && Agrees(Opening(opening).books)
  {}

  /** An ECOM purchase that is fully refunded stays as it is over every run, and
      is never refunded again. */
  lemma {:induction false} FullyRefundedIsFinal(db: Db, calls: seq<Call>, i: nat)
    requires Closed(db.rows, i)
    ensures var rows := After(db, calls).rows; var refunds := EcomRefunds(db.rows[i].clientTxnId);
      Closed(rows, i) && rows[i] == db.rows[i] && Total(rows, refunds) == Total(db.rows, refunds)
    decreases |calls|
  {
    hide Execute, Total, Closed;
    if calls != [] {
      var before, last := calls[..|calls| - 1], calls[|calls| - 1];
      FullyRefundedIsFinal(db, before, i);
      ClosedKept(After(db, before), last.req, last.when, i);
    }
  }

  /** What the requests of a run leave on the trial balance. */
  ghost function Residuals(db: Db, calls: seq<Call>): int {
    if calls == [] then 0
    else
      var before, last := calls[..|calls| - 1], calls[|calls| - 1];
      Residuals(db, before) + ResidualOf(After(db, before), last.req, last.when)
  }

  ghost function ResidualOf(db: Db, req: Request, when: When): int {
    var v := VerdictOn(db, req, when);
    if v.Approve? then Residual(v.posting) else 0
  }

  lemma {:induction false} TrialBalanceOverRun(db: Db, calls: seq<Call>)
    ensures TrialBalance(After(db, calls).books) == TrialBalance(db.books) + Residuals(db, calls)
    decreases |calls|
  {
    hide Execute, Residual, TrialBalance, VerdictOn;
    if calls != [] {
      var before, last := calls[..|calls| - 1], calls[|calls| - 1];
      TrialBalanceOverRun(db, before);
      OneResidual(After(db, before), last.req, last.when);
    }
  }

  lemma OneResidual(db: Db, req: Request, when: When)
    ensures TrialBalance(Execute(db, req, when).books) == TrialBalance(db.books) + ResidualOf(db, req, when)
  {
    hide Decide, Observe, Residual, TrialBalance, PostedTo, Marked;
    BooksAfter(db, req, when, "");
  }

  /** Where every request balances, the books balance throughout. */
  lemma {:induction false} TrialBalanceStays(db: Db, calls: seq<Call>)
    requires AllSigned(calls) && forall i :: 0 <= i < |calls| ==> Balances(calls[i].req)
    ensures TrialBalance(After(db, calls).books) == TrialBalance(db.books)
    decreases |calls|
  {
    hide Execute, TrialBalance, WellSigned, Balances, Decide, Observe, Residual, VerdictOn;
    if calls != [] {
      var before, last := calls[..|calls| - 1], calls[|calls| - 1];
      TrialBalanceStays(db, before);
      OneResidual(After(db, before), last.req, last.when);
      if VerdictOn(After(db, before), last.req, last.when).Approve? {
        ResidualIff(After(db, before), last.req, last.when);
      }
    }
  }

  /** Over any run, what a customer's account and ledger differ by is the fees
      of the purchases and the channels that do not post. */
  lemma {:induction false} LedgerTracksRun(opening: map<Account, int>, calls: seq<Call>, a: Account)
    requires a in opening && forall i :: 0 <= i < |calls| ==> Customer(a, calls[i].req)
    ensures var db := After(Opening(opening), calls); a in db.balances && LedgerTracks(opening, db, a)
    decreases |calls|
  {
    hide Execute, Customer, LedgerTracks;
    if calls == [] {
      OpeningTracks(opening, a);
    } else {
      var before, last := calls[..|calls| - 1], calls[|calls| - 1];
      LedgerTracksRun(opening, before, a);
      LedgerTracksKept(opening, After(Opening(opening), before), last.req, last.when, a);
    }
  }

  lemma OpeningTracks(opening: map<Account, int>, a: Account)
    requires a in opening
    ensures LedgerTracks(opening, Opening(opening), a)
  {}
}
