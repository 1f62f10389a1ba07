/** The handlers as threads: each takes its account locks by the steps of the
    lock protocol, reads one value after another, computes its writes, and
    commits or rolls back, with any steps of any other thread in between.

    What a handler writes stays in its transaction until the commit.  Of the
    row locks of `SELECT ... FOR UPDATE`, which are kept to the end of the
    transaction, only those are relied on that the account lock does not give:
    those of POS and ECOM purchases, and those of balances against a POS refund
    that found no account to lock. */
module Engine {
  import opened AccountOrder
  import opened Options
  import opened LockTable
  import opened Bank
  import opened BankRuns
  import L = LockProtocol

  /** The reads a handler makes under its lock. */
  datatype Probe = MainBalance | OtherBalance | HourSum | DaySum | PurchaseRow | RefundCheck

  datatype Stage = Reading | Written(verdict: Verdict) | Over

  /** `home` is the account that is locked; a POS refund looks it up before it
      locks, and goes on without an account lock if it finds none. */
  datatype Job = Job(req: Request, home: Option<Account>, view: View, done: set<Probe>, when: When, stage: Stage)

  datatype State = State(locks: L.System, db: Db, jobs: map<Thread, Job>, clock: int, log: seq<Call>)

  datatype Step =
    | Begin(t: Thread, req: Request)
    | LockStep(step: L.Step)
    | Read(t: Thread, probe: Probe)
    | Write(t: Thread)
    | Commit(t: Thread)
    | Rollback(t: Thread)
    | Conclude(t: Thread)
    | Tick

  const Blank := View(None, None, 0, 0, None, false)

  function HomeOf(db: Db, req: Request): Option<Account> {
    var found := SeePurchase(db, req);
    if req.PosReturn? && found.Some? && found.value.row.account == "" then None
    else MainAccount(req, found)
  }

  function PriorityOf(req: Request): TxnPriority {
    if req.Withdraw? || req.PosBuy? || req.EcomBuy? || req.QrBuy? then Debit else Credit
  }

  /** The locks a handler takes, in order. */
  function PlanOf(req: Request, home: Option<Account>): seq<L.Claim> {
    if home.None? then []
    else if req.Transfer? then L.TransferPlan(home.value, req.credit)
    else [L.Claim(home.value, PriorityOf(req))]
  }

  function Needs(req: Request): set<Probe> {
    match req
    case Withdraw(_, _, _) => {MainBalance, DaySum}
    case Deposit(_, _) => {DaySum, MainBalance}
    case Transfer(_, _, _, _) => {MainBalance, OtherBalance, HourSum, DaySum}
    case PosReturn(_, _, _, _, _) => {PurchaseRow, MainBalance}
    case EcomReturn(_, _, _, _, _, _, _) => {PurchaseRow, MainBalance}
    case QrReturn(_, _, _, _) => {PurchaseRow, RefundCheck, MainBalance}
    case _ => {MainBalance}
  }

  /** The thread has all its locks and has not begun to release them. */
  predicate AtWork(g: L.Agent) {
    g.mode.Climbing? && g.held == |g.plan|
  }

  predicate Working(e: State, t: Thread) {
    t in e.jobs && t in e.locks.agents && AtWork(e.locks.agents[t])
  }

  /** A POS refund that found no purchase, or no account, to lock for. */
  predicate Unlocked(j: Job) {
    j.home.None?
  }

  /** The row lock of a purchase that is read for its refund. */
  predicate HoldsRow(j: Job, id: nat) {
    (j.req.PosReturn? || j.req.EcomReturn?) && !j.stage.Over? && j.view.found.Some? && j.view.found.value.id == id
  }

  /** The row lock of a balance that is read for an update. */
  predicate HoldsBalance(j: Job, a: Account) {
    && !j.stage.Over?
    && ((MainBalance in j.done && j.view.main.Some? && MainAccount(j.req, j.view.found) == Some(a))
        || (OtherBalance in j.done && j.view.other.Some? && j.req.Transfer? && j.req.credit == a))
  }

  ghost predicate RowFree(e: State, t: Thread, id: nat) {
    forall u :: u in e.jobs && u != t ==> !HoldsRow(e.jobs[u], id)
  }

  /** Between handlers with account locks nothing is asked of the balance row. */
  ghost predicate BalanceFree(e: State, t: Thread, a: Account)
    requires t in e.jobs
  {
    forall u :: u in e.jobs && u != t && (Unlocked(e.jobs[t]) || Unlocked(e.jobs[u])) ==> !HoldsBalance(e.jobs[u], a)
  }

  /** The reads that depend on an earlier one come after it. */
  predicate InTurn(j: Job, probe: Probe) {
    && probe in Needs(j.req) && probe !in j.done
    && (probe.MainBalance? && PurchaseRow in Needs(j.req) ==> PurchaseRow in j.done)
    && (probe.RefundCheck? ==> PurchaseRow in j.done)
  }

  /** A row that is read for an update waits for its lock. */
  ghost predicate MayRead(e: State, t: Thread, probe: Probe)
    requires t in e.jobs
  {
    var j := e.jobs[t];
    && InTurn(j, probe)
    && match probe
       case PurchaseRow =>
         var found := SeePurchase(e.db, j.req);
         (j.req.PosReturn? || j.req.EcomReturn?) && found.Some? ==> RowFree(e, t, found.value.id)
       case MainBalance =>
         var account := MainAccount(j.req, j.view.found);
         account.Some? && account.value in e.db.balances ==> BalanceFree(e, t, account.value)
       case OtherBalance =>
         j.req.Transfer? && j.req.credit in e.db.balances ==> BalanceFree(e, t, j.req.credit)
       case _ => true
  }

  ghost predicate Enabled(e: State, step: Step) {
    match step
    case Begin(t, req) =>
      t !in e.jobs && L.Enabled(e.locks, L.Arrive(t, PlanOf(req, HomeOf(e.db, req))))
    case LockStep(step) => (step.Request? || step.Wake? || step.Release? || step.Leave?) && L.Enabled(e.locks, step)
    case Read(t, probe) => Working(e, t) && e.jobs[t].stage.Reading? && MayRead(e, t, probe)
    case Write(t) =>
      && Working(e, t) && e.jobs[t].stage.Reading? && e.jobs[t].done == Needs(e.jobs[t].req)
      && Decide(e.jobs[t].req, e.jobs[t].view, e.clock).Approve?
    case Commit(t) => Working(e, t) && e.jobs[t].stage.Written?
    case Rollback(t) => Working(e, t) && !e.jobs[t].stage.Over?
    case Conclude(t) => t in e.jobs && e.jobs[t].stage.Over? && L.Enabled(e.locks, L.Finish(t))
    case Tick => true
  }

  function Readout(db: Db, j: Job, probe: Probe, clock: int): Job {
    match probe
    case MainBalance => j.(view := j.view.(main := SeeMain(db, j.req, j.view.found)), done := j.done + {probe})
    case OtherBalance => j.(view := j.view.(other := SeeOther(db, j.req)), done := j.done + {probe})
    case HourSum =>
      j.(view := j.view.(hour := SeeHour(db, j.req, clock)), when := j.when.(hour := clock), done := j.done + {probe})
    case DaySum =>
      j.(view := j.view.(day := SeeDay(db, j.req, clock)), when := j.when.(day := clock), done := j.done + {probe})
    case PurchaseRow => j.(view := j.view.(found := SeePurchase(db, j.req)), done := j.done + {probe})
    case RefundCheck => j.(view := j.view.(refunded := SeeRefunded(db, j.view.found)), done := j.done + {probe})
  }

  /** The clock reading of a sum that this handler does not take is set to that
      of the insert. */
  function Stamped(j: Job, clock: int): When {
    When(if HourSum in j.done then j.when.hour else clock, if DaySum in j.done then j.when.day else clock, clock)
  }

  ghost function Next(e: State, step: Step): State
    requires Enabled(e, step)
  {
    match step
    case Begin(t, req) =>
      var home := HomeOf(e.db, req);
      e.(locks := L.Next(e.locks, L.Arrive(t, PlanOf(req, home))),
         jobs := e.jobs[t := Job(req, home, Blank, {}, When(0, 0, 0), Reading)])
    case LockStep(step) =>
      e.(locks := L.Next(e.locks, step), jobs := if step.Leave? then e.jobs - {step.t} else e.jobs)
    case Read(t, probe) => e.(jobs := e.jobs[t := Readout(e.db, e.jobs[t], probe, e.clock)])
    case Write(t) =>
      var j := e.jobs[t];
      e.(jobs := e.jobs[t := j.(when := Stamped(j, e.clock), stage := Written(Decide(j.req, j.view, e.clock)))])
    case Commit(t) =>
      var j := e.jobs[t];
      e.(db := Apply(e.db, j.stage.verdict), jobs := e.jobs[t := j.(stage := Over)],
         log := e.log + [Call(j.req, j.when)])
    case Rollback(t) => e.(jobs := e.jobs[t := e.jobs[t].(stage := Over)])
    case Conclude(t) => e.(locks := L.Next(e.locks, L.Finish(t)))
    case Tick => e.(clock := e.clock + 1)
  }

  ghost predicate Reaches(from: State, run: seq<Step>, to: State)
    decreases |run|
  {
    if run == [] then from == to
    else Enabled(from, run[0]) && Reaches(Next(from, run[0]), run[1..], to)
  }

  function Start(opening: map<Account, int>, clock: int): State {
    State(L.Start, Opening(opening), map[], clock, [])
  }
}
