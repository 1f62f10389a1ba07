/** What every handler keeps, and so what holds after any number of them. */
module BankInvariants {
  import opened AccountOrder
  import opened Options
  import opened Ledger
  import opened Bank
  import opened BankSums
  import opened MapSum
  import Fx
  import L = LockProtocol

  // ---- The balance of an account is its opening plus its records ----

  ghost predicate MovesByEffect(db: Db, v: Verdict) {
    v.Approve? ==>
      && v.writes.Keys <= db.balances.Keys
      && forall a :: a in v.writes ==> v.writes[a] == db.balances[a] + Effect(db.rows, v.row, a)
  }

  ghost predicate OthersUnmoved(db: Db, v: Verdict) {
    v.Approve? ==> forall a :: a !in v.writes ==> Effect(db.rows, v.row, a) == 0
  }

  ghost function VerdictOn(db: Db, req: Request, when: When): Verdict {
    Decide(req, Observe(db, req, when), when.stamp)
  }

  /** A handler writes what it read plus the effect of the record it inserts,
      and nothing else. */
  lemma WritesMatchRecord(db: Db, req: Request, when: When)
    ensures MovesByEffect(db, VerdictOn(db, req, when))
    ensures OthersUnmoved(db, VerdictOn(db, req, when))
  {
    hide Total, Fx.Convert, QrRefunded, Less, SpentOnDay;
    match req
    case Transfer(_, _, _, _) => TransferWrites(db, req, when);
    case PosReturn(_, _, _, _, _) => PosReturnWrites(db, req, when);
    case _ =>
  }

  lemma TransferWrites(db: Db, req: Request, when: When)
    requires req.Transfer?
    ensures MovesByEffect(db, VerdictOn(db, req, when))
    ensures OthersUnmoved(db, VerdictOn(db, req, when))
  {
    hide Total, SpentOnDay, Find, Less;
  }

  lemma PosReturnWrites(db: Db, req: Request, when: When)
    requires req.PosReturn?
    ensures MovesByEffect(db, VerdictOn(db, req, when))
    ensures OthersUnmoved(db, VerdictOn(db, req, when))
  {
    hide Total, QrRefunded;
  }

  /** A handler reports success iff it commits. */
  lemma SuccessIsApproval(db: Db, req: Request, when: When)
    ensures Outcome(db, req, when).Success? <==> VerdictOn(db, req, when).Approve?
  {
    hide Total, Find, Fx.Convert, QrRefunded, Less, SpentOnDay;
  }

  /** Success leaves a record, and anything else leaves every table as it
      was. */
  lemma ChangesIffSuccess(db: Db, req: Request, when: When)
    ensures Outcome(db, req, when).Success? <==> Execute(db, req, when) != db
    ensures |Execute(db, req, when).rows| == |db.rows| + if Outcome(db, req, when).Success? then 1 else 0
  {
    SuccessIsApproval(db, req, when);
    hide Decide, Observe, PostedTo;
  }

  /** The balance of every account moves by the effect of the new record. */
  lemma CommitMovesBalances(db: Db, req: Request, when: When, a: Account)
    requires VerdictOn(db, req, when).Approve? && a in db.balances
    ensures Execute(db, req, when).balances.Keys == db.balances.Keys
    ensures Execute(db, req, when).balances[a] ==
      db.balances[a] + Effect(db.rows, VerdictOn(db, req, when).row, a)
  {
    WritesMatchRecord(db, req, when);
    var v := VerdictOn(db, req, when);
    hide Decide, Observe, Effect, PostedTo, Marked;
    if a !in v.writes {
      assert Effect(db.rows, v.row, a) == 0;
    }
  }

  ghost predicate BalancesAddUp(opening: map<Account, int>, db: Db) {
    && db.balances.Keys == opening.Keys
    && forall a :: a in opening ==> db.balances[a] == opening[a] + Total(db.rows, Flow(a))
  }

  lemma BalancesAddUpKept(opening: map<Account, int>, db: Db, req: Request, when: When)
    requires BalancesAddUp(opening, db)
    ensures BalancesAddUp(opening, Execute(db, req, when))
  {
    hide Decide, Observe, Effect, Weigh, Total;
    var v := VerdictOn(db, req, when);
    if v.Approve? {
      forall a | a in opening
        ensures Execute(db, req, when).balances[a] == opening[a] + Total(Execute(db, req, when).rows, Flow(a))
      {
        CommitMovesBalances(db, req, when, a);
        TotalCommitted(db, v, Flow(a));
        FlowWeighsEffect(db.rows, v.row, a);
      }
      WritesMatchRecord(db, req, when);
    }
  }

  lemma FlowWeighsEffect(rows: seq<Row>, row: Row, a: Account)
    ensures Weigh(Flow(a), rows, row) == Effect(rows, row, a)
  {}

  // ---- Requests a channel may pass on ----

  /** The signs that no handler checks itself. */
  predicate WellSigned(req: Request) {
    match req
    case Withdraw(_, amount, fee) => amount > 0 && fee >= 0
    case Deposit(_, amount) => amount > 0
    case Transfer(_, _, amount, fee) => amount > 0 && fee >= 0
    case PosBuy(_, _, _, _, _, fee, rate) => fee >= 0 && (rate.Listed? ==> rate.value > 0)
    case PosReturn(_, _, _, _, _) => true
    case EcomBuy(_, _, _, _, _, fee, rate) => fee >= 0 && (rate.Listed? ==> rate.value > 0)
    case EcomReturn(_, _, _, _, _, amount, rate) =>
      Charge(amount, rate).converted > 0
    case QrBuy(_, _, _, fee) => fee >= 0
    case QrReturn(_, _, _, amount) => amount > 0
    case Reverse(_, _, _, _, fee, _, _) => fee >= 0
  }

  ghost predicate NoDebt(db: Db) {
    forall a :: a in db.balances ==> db.balances[a] >= 0
  }

  /** The credit that a request brings is not a debit larger than the balance. */
  predicate Solvent(db: Db, req: Request) {
    match req
    case Deposit(account, amount) => Covered(db, account, amount)
    case Transfer(_, credit, amount, _) => Covered(db, credit, amount)
    case EcomReturn(_, _, _, account, _, amount, rate) => Covered(db, account, Charge(amount, rate).converted)
    case QrReturn(_, _, account, amount) => Covered(db, account, amount)
    case Reverse(_, _, account, amount, fee, _, _) => Covered(db, account, amount + fee)
    case _ => true
  }

  predicate Covered(db: Db, account: Account, change: int) {
    account in db.balances ==> db.balances[account] + change >= 0
  }

  /** Handlers that debit check the funds, handlers that credit check no sign:
      an approved request overdraws an account iff its credit is a debit. */
  lemma NoDebtKeptIff(db: Db, req: Request, when: When)
    requires NoDebt(db) && VerdictOn(db, req, when).Approve?
    ensures NoDebt(Execute(db, req, when)) <==> Solvent(db, req)
  {
    var v := VerdictOn(db, req, when);
    WritesSolvent(db, req, when);
    hide Decide, Observe, Solvent, PostedTo, Marked;
    assert forall a :: a in v.writes ==> Execute(db, req, when).balances[a] == v.writes[a];
  }

  lemma WritesSolvent(db: Db, req: Request, when: When)
    requires NoDebt(db) && VerdictOn(db, req, when).Approve?
    ensures (forall a :: a in VerdictOn(db, req, when).writes ==> VerdictOn(db, req, when).writes[a] >= 0)
      <==> Solvent(db, req)
  {
    var v := VerdictOn(db, req, when);
    hide Total, SpentOnDay, Less, Fx.Convert, PostedTo, Marked, QrRefunded, Effect;
    if req.Transfer? {
      assert req.credit in v.writes;
    } else if !req.PosReturn? {
      assert req.account in v.writes;
    }
  }

  /** So no well-signed request overdraws one. */
  lemma NoDebtKept(db: Db, req: Request, when: When)
    requires NoDebt(db) && WellSigned(req)
    ensures NoDebt(Execute(db, req, when))
  {
    if VerdictOn(db, req, when).Approve? {
      NoDebtKeptIff(db, req, when);
    }
    hide Decide, Observe, Execute, Fx.Convert;
  }

  /** A deposit of -100 is approved and does. */
  lemma NegativeDepositOverdraws(when: When)
    ensures var db := Db(map["A" := 50], [], Books(map[], []));
      && VerdictOn(db, Deposit("A", -100), when).Approve?
      && Execute(db, Deposit("A", -100), when).balances == map["A" := -50]
  {}

  // ---- Transfers ----

  /** The database tells account numbers apart without case and accents, the
      handler and its locks by their characters: `row` is the account that a
      number finds. */
  function Resolved(req: Request, row: string -> Account): Request
    requires req.Transfer?
  {
    req.(account := row(req.account), credit := row(req.credit))
  }

  /** The two writes of a transfer, from balances that were both read before. */
  function Moved(balances: map<Account, int>, req: Request, row: string -> Account): map<Account, int>
    requires req.Transfer? && row(req.account) in balances && row(req.credit) in balances
  {
    balances[row(req.account) := balances[row(req.account)] - req.amount - req.fee]
            [row(req.credit) := balances[row(req.credit)] + req.amount]
  }

  /** What a transfer decides on what its two numbers find does not depend on
      how they are spelled. */
  lemma SpellingDecidesNothing(db: Db, req: Request, row: string -> Account, when: When)
    requires req.Transfer? && Decide(req, Observe(db, Resolved(req, row), when), when.stamp).Approve?
    ensures row(req.account) in db.balances && row(req.credit) in db.balances
    ensures VerdictOn(db, Resolved(req, row), when).Approve?
    ensures Execute(db, Resolved(req, row), when).balances == Moved(db.balances, req, row)
  {
    hide Total, SpentOnDay, Less, Find;
  }

  lemma {:induction false} TwoWrites(balances: map<Account, int>, debit: Account, credit: Account, low: int, high: int)
    requires debit in balances && credit in balances
    ensures Sum(balances[debit := low][credit := high]) ==
      Sum(balances) + high - balances[credit] + if debit == credit then 0 else low - balances[debit]
  {
    hide Sum;
    SumUpdate(balances, debit, low);
    SumUpdate(balances[debit := low], credit, high);
  }

  lemma MovedAddsUp(balances: map<Account, int>, req: Request, row: string -> Account)
    requires req.Transfer? && row(req.account) in balances && row(req.credit) in balances
    ensures Sum(Moved(balances, req, row)) ==
      Sum(balances) + if row(req.account) == row(req.credit) then req.amount else -req.fee
  {
    hide Sum;
    var debit, credit := row(req.account), row(req.credit);
    TwoWrites(balances, debit, credit, balances[debit] - req.amount - req.fee, balances[credit] + req.amount);
  }

  /** A transfer takes its fee out of the bank's accounts and nothing more,
      exactly when its two numbers find different accounts, or it moves nothing.
      Within one account, under one spelling or two, the credit is computed from
      the balance before the debit and overwrites it. */
  lemma TransferConserves(db: Db, req: Request, row: string -> Account, when: When)
    requires req.Transfer? && Decide(req, Observe(db, Resolved(req, row), when), when.stamp).Approve?
    ensures
      var moved := Sum(Execute(db, Resolved(req, row), when).balances) - Sum(db.balances);
      var apart := row(req.account) != row(req.credit);
      && (moved == -req.fee <==> apart || req.amount + req.fee == 0)
      && (!apart ==> moved == req.amount)
  {
    SpellingDecidesNothing(db, req, row, when);
    MovedAddsUp(db.balances, req, row);
    hide Decide, Observe, Execute, Moved, Sum;
  }

  /** Such a transfer is approved: it makes 100 out of nothing. */
  lemma TransferToItselfIsApproved(when: When)
    ensures var db := Db(map["A" := 500], [], Books(map[], []));
      && VerdictOn(db, Transfer("A", "A", 100, 0), when).Approve?
      && Execute(db, Transfer("A", "A", 100, 0), when).balances == map["A" := 600]
  {
    LessIrreflexive("A");
    hide Less;
  }

  /** So is one between two spellings of an account, which takes two locks. */
  lemma TransferBetweenSpellings(when: When)
    ensures var db := Db(map["acc1" := 500], [], Books(map[], []));
      var row := (number: string) => if number == "ACC1" then "acc1" else number;
      var req := Transfer("acc1", "ACC1", 100, 0);
      && |L.TransferPlan(req.account, req.credit)| == 2
      && Decide(req, Observe(db, Resolved(req, row), when), when.stamp).Approve?
      && Execute(db, Resolved(req, row), when).balances == map["acc1" := 600]
  {
    LessTotal("acc1", "ACC1");
    hide Less;
  }

  // ---- Reversals ----

  /** What stops a reversal: a missing field, a database that does not answer,
      or an account that does not exist. */
  predicate ReversalStopped(db: Db, req: Request)
    requires req.Reverse?
  {
    || req.origTxn == "" || req.origTable == "" || req.account == "" || req.amount <= 0
    || !req.alive || req.account !in db.balances
  }

  /** Nobody asks whether a reversal was applied before: repeating one is without
      effect iff it was stopped by one of those guards, and else it credits
      twice. */
  lemma ReversalRepeats(db: Db, req: Request, when: When, when': When)
    requires req.Reverse?
    ensures Execute(Execute(db, req, when), req, when') == Execute(db, req, when) <==> ReversalStopped(db, req)
    ensures !ReversalStopped(db, req) ==>
      && req.account in Execute(Execute(db, req, when), req, when').balances
      && Execute(Execute(db, req, when), req, when').balances[req.account] ==
           db.balances[req.account] + 2 * (req.amount + req.fee)
  {
    hide Total, PostedTo, Find;
    var once := Execute(db, req, when);
    if !ReversalStopped(db, req) {
      assert |Execute(once, req, when').rows| == |once.rows| + 1;
    }
  }

  /** One reversal, sent twice, credits its amount and fee twice. */
  lemma ReversalTwice(when: When)
    ensures var db := Db(map["A" := 0], [], Books(map[], []));
      var req := Reverse("t", "transaction_atm", "A", 100, 1, true, true);
      && Outcome(db, req, when) == Outcome(Execute(db, req, when), req, when) == Success
      && Execute(Execute(db, req, when), req, when).balances == map["A" := 202]
  {
    hide Total, Find;
  }
}
