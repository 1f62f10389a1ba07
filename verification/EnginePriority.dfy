/** Who counts as a debit and who as a credit at an account's lock, by what the
    request does to that account, and that no debit is let in before a credit
    that waits. */
module EnginePriority {
  import opened AccountOrder
  import opened Options
  import opened LockTable
  import opened Bank
  import opened Engine
  import opened EngineFrame
  import opened EngineSafety
  import L = LockProtocol
  import P = LockProgress

  /** A withdrawal, a purchase, or the sending side of a transfer. */
  predicate Debits(req: Request, a: Account) {
    (req.Withdraw? || req.PosBuy? || req.EcomBuy? || req.QrBuy? || req.Transfer?) && req.account == a
  }

  /** A deposit, a refund, a reversal, or the receiving side of a transfer to
      another account.  A POS refund is for the account of its purchase. */
  predicate Credits(db: Db, req: Request, a: Account) {
    match req
    case Deposit(account, _) => account == a
    case Transfer(account, credit, _, _) => credit == a && account != a
    case PosReturn(_, _, _, _, _) => SeePurchase(db, req).Some? && SeePurchase(db, req).value.row.account == a
    case EcomReturn(_, _, _, account, _, _, _) => account == a
    case QrReturn(_, _, account, _) => account == a
    case Reverse(_, _, account, _, _, _, _) => account == a
    case _ => false
  }

  lemma NeverBoth(db: Db, req: Request, a: Account)
    ensures !(Debits(req, a) && Credits(db, req, a))
  {}

  /** A lock that is asked for or owned, and as what. */
  lemma ClaimsFit(db: Db, j: Job, i: nat)
    requires HomeOk(db, j) && i < |PlanOf(j.req, j.home)|
    ensures var claim := PlanOf(j.req, j.home)[i];
      if claim.priority.Debit? then Debits(j.req, claim.account) else Credits(db, j.req, claim.account)
  {
    hide SeePurchase;
    if j.req.Transfer? { LessIrreflexive(j.req.account); }
  }

  /** A POS refund locks the account of the purchase that it finds when it comes,
      and none only if it finds none or one without an account. */
  lemma PosRefundLocksItsPurchase(e: State, t: Thread, req: Request)
    requires req.PosReturn? && Enabled(e, Begin(t, req))
    ensures var found, plan := SeePurchase(e.db, req), Next(e, Begin(t, req)).locks.agents[t].plan;
      && (plan == [] <==> found.None? || found.value.row.account == "")
      && (plan != [] ==> plan == [L.Claim(found.value.row.account, Credit)])
  {
    hide SeePurchase, L.Ordered;
  }

  /** In every reachable state: whoever counts as a debit of an account debits
      it, whoever counts as a credit credits it, and a handler at work counts so
      at each account that it debits or credits, unless it is a POS refund that
      found none to lock. */
  lemma LegsByRequest(opening: map<Account, int>, clock: int, run: seq<Step>, e: State, t: Thread, a: Account)
    requires Reaches(Start(opening, clock), run, e) && t in e.jobs
    ensures t in e.locks.agents
    ensures L.Engaged(e.locks.agents[t], a, Debit) ==> Debits(e.jobs[t].req, a)
    ensures L.Engaged(e.locks.agents[t], a, Credit) ==> Credits(e.db, e.jobs[t].req, a)
    ensures Working(e, t) && Debits(e.jobs[t].req, a) ==> L.Engaged(e.locks.agents[t], a, Debit)
    ensures Working(e, t) && Credits(e.db, e.jobs[t].req, a) && !(e.jobs[t].req.PosReturn? && Unlocked(e.jobs[t])) ==>
      L.Engaged(e.locks.agents[t], a, Credit)
  {
    StartSound(opening, clock);
    RunSound(opening, Start(opening, clock), run, e);
    LegsFit(e, t, a);
    if Working(e, t) { LegsAreHeld(e, t, a); }
    hide L.Inv, JobsOk, Debits, Credits, L.Engaged;
  }

  lemma LegsFit(e: State, t: Thread, a: Account)
    requires L.Inv(e.locks) && JobsOk(e) && t in e.jobs
    ensures t in e.locks.agents
    ensures L.Engaged(e.locks.agents[t], a, Debit) ==> Debits(e.jobs[t].req, a)
    ensures L.Engaged(e.locks.agents[t], a, Credit) ==> Credits(e.db, e.jobs[t].req, a)
  {
    hide L.AccountInv, HomeOk, PlanOf, Debits, Credits, ReadsHold;
    assert JobOk(e, t);
    var j, g := e.jobs[t], e.locks.agents[t];
    forall i | 0 <= i < |g.plan|
      ensures if g.plan[i].priority.Debit? then Debits(j.req, g.plan[i].account)
              else Credits(e.db, j.req, g.plan[i].account)
    {
      ClaimsFit(e.db, j, i);
    }
  }

  lemma LegsAreHeld(e: State, t: Thread, a: Account)
    requires L.Inv(e.locks) && JobsOk(e) && t in e.jobs && Working(e, t)
    ensures Debits(e.jobs[t].req, a) ==> L.Engaged(e.locks.agents[t], a, Debit)
    ensures Credits(e.db, e.jobs[t].req, a) && !(e.jobs[t].req.PosReturn? && Unlocked(e.jobs[t])) ==>
      L.Engaged(e.locks.agents[t], a, Credit)
  {
    hide L.AccountInv, ReadsHold, SeePurchase;
    assert JobOk(e, t);
    var j, g := e.jobs[t], e.locks.agents[t];
    if j.req.Transfer? { LessTotal(j.req.account, j.req.credit); }
    assert |g.plan| > 0 ==> L.Engaged(g, g.plan[0].account, g.plan[0].priority);
    assert |g.plan| > 1 ==> L.Engaged(g, g.plan[1].account, g.plan[1].priority);
  }

  /** Who waits for an account has asked for it in one of the two ways. */
  lemma WaiterIsEngaged(s: L.System, w: Thread, a: Account)
    requires w in s.agents && L.Waits(s.agents[w], a)
    ensures var p := s.agents[w].plan[s.agents[w].held].priority;
      L.Engaged(s.agents[w], a, p) && WaitNode(w, p) in L.Waiters(s.agents, a)
  {
    assert s.agents[w].plan[s.agents[w].held] == L.Claim(a, s.agents[w].plan[s.agents[w].held].priority);
  }

  /** No step gives an account to a withdrawal, a purchase or the sending side of
      a transfer while a deposit, a refund, a reversal or the receiving side of a
      transfer waits for it. */
  lemma CreditsBeforeDebits(opening: map<Account, int>, clock: int, run: seq<Step>, e: State, step: Step, u: Thread,
                            a: Account)
    requires Reaches(Start(opening, clock), run, e) && Enabled(e, step)
    requires u in Next(e, step).jobs && u in Next(e, step).locks.agents && L.Owns(Next(e, step).locks.agents[u], a)
    requires !(u in e.locks.agents && L.Owns(e.locks.agents[u], a))
    requires Debits(Next(e, step).jobs[u].req, a)
    ensures forall w :: w in e.jobs && w in e.locks.agents && L.Waits(e.locks.agents[w], a) ==>
      Debits(e.jobs[w].req, a) && !Credits(e.db, e.jobs[w].req, a)
  {
    StartSound(opening, clock);
    RunSound(opening, Start(opening, clock), run, e);
    StepSound(opening, e, step);
    var e' := Next(e, step);
    OwnerCountsAsDebit(e', u, a);
    LocksMoveByStep(e, step, u, a);
    hide Next, Enabled, RowsApart, BalancesApart, RowsPast, Serial, Debits, Credits;
    forall w | w in e.jobs && w in e.locks.agents && L.Waits(e.locks.agents[w], a)
      ensures Debits(e.jobs[w].req, a) && !Credits(e.db, e.jobs[w].req, a)
    {
      WaiterIsEngaged(e.locks, w, a);
      LegsFit(e, w, a);
      NeverBoth(e.db, e.jobs[w].req, a);
    }
  }

  lemma OwnedIsEngaged(g: L.Agent, a: Account, i: nat)
    requires i < L.Grip(g) && i < |g.plan| && g.plan[i].account == a
    ensures L.Engaged(g, a, g.plan[i].priority)
  {
    assert g.plan[i] == L.Claim(a, g.plan[i].priority);
  }

  lemma OwnerCountsAsDebit(e: State, u: Thread, a: Account)
    requires L.Inv(e.locks) && JobsOk(e) && u in e.jobs && u in e.locks.agents
    requires L.Owns(e.locks.agents[u], a) && Debits(e.jobs[u].req, a)
    ensures L.Engaged(e.locks.agents[u], a, Debit)
  {
    hide L.Inv, JobsOk, Debits, Credits, L.Engaged;
    var g := e.locks.agents[u];
    var i :| 0 <= i < L.Grip(g) && i < |g.plan| && g.plan[i].account == a;
    OwnedIsEngaged(g, a, i);
    LegsFit(e, u, a);
    NeverBoth(e.db, e.jobs[u].req, a);
    assert g.plan[i].priority == Debit || g.plan[i].priority == Credit;
  }

  /** The lock step behind a step that makes `u` the owner. */
  lemma LocksMoveByStep(e: State, step: Step, u: Thread, a: Account)
    requires L.Inv(e.locks) && Enabled(e, step)
    requires u in Next(e, step).locks.agents && L.Owns(Next(e, step).locks.agents[u], a)
    requires !(u in e.locks.agents && L.Owns(e.locks.agents[u], a))
    requires L.Engaged(Next(e, step).locks.agents[u], a, Debit)
    ensures forall w :: w in L.Waiters(e.locks.agents, a) ==> w.priority.Debit?
  {
    hide L.Inv, L.Enabled, L.Next, L.Waiters, L.Engaged, L.Owns, HomeOf, PlanOf;
    match step
    case Begin(t, req) => P.CreditsFirstUnder(e.locks, L.Arrive(t, PlanOf(req, HomeOf(e.db, req))), u, a);
    case LockStep(lockStep) => P.CreditsFirstUnder(e.locks, lockStep, u, a);
    case Conclude(t) => P.CreditsFirstUnder(e.locks, L.Finish(t), u, a);
    case _ =>
  }
}
