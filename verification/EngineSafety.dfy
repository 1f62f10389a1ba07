/** Every interleaving of the handlers is a serial run of those that committed,
    in the order of their commits: no update is lost. */
module EngineSafety {
  import opened AccountOrder
  import opened Options
  import opened LockTable
  import opened Bank
  import opened BankInvariants
  import opened BankLedger
  import opened BankLimits
  import opened BankRuns
  import opened BankSums
  import opened Ledger
  import opened Engine
  import opened EngineFrame
  import L = LockProtocol

  ghost predicate JobOk(e: State, t: Thread)
    requires t in e.jobs && t in e.locks.agents
  {
    var j, g := e.jobs[t], e.locks.agents[t];
    && g.plan == PlanOf(j.req, j.home) && HomeOk(e.db, j)
    && (!j.stage.Over? ==> ReadsHold(e.db, j, e.clock) && (j.done != {} ==> AtWork(g)))
  }

  ghost predicate JobsOk(e: State) {
    && e.jobs.Keys == e.locks.agents.Keys
    && forall t :: t in e.jobs ==> JobOk(e, t)
  }

  /** A row lock has one holder. */
  ghost predicate RowsApart(e: State) {
    forall t, u, id :: t in e.jobs && u in e.jobs && t != u && HoldsRow(e.jobs[t], id) ==> !HoldsRow(e.jobs[u], id)
  }

  /** A balance that is read for an update with or by a handler without an
      account lock has one holder. */
  ghost predicate BalancesApart(e: State) {
    forall t, u, a ::
      t in e.jobs && u in e.jobs && t != u && (Unlocked(e.jobs[t]) || Unlocked(e.jobs[u])) ==>
        !(HoldsBalance(e.jobs[t], a) && HoldsBalance(e.jobs[u], a))
  }

  ghost predicate RowsPast(db: Db, clock: int) {
    forall a :: Older(db, a, clock)
  }

  ghost predicate AllApproved(db: Db, calls: seq<Call>) {
    calls == [] ||
      var before, last := calls[..|calls| - 1], calls[|calls| - 1];
      AllApproved(db, before) && VerdictOn(After(db, before), last.req, last.when).Approve?
  }

  /** The tables are those of the committed requests run one at a time. */
  ghost predicate Serial(opening: map<Account, int>, e: State) {
    && e.db == After(Opening(opening), e.log)
    && Proper(Opening(opening), e.log)
    && AllApproved(Opening(opening), e.log)
  }

  ghost predicate Sound(opening: map<Account, int>, e: State) {
    && L.Inv(e.locks) && JobsOk(e)
    && RowsApart(e) && BalancesApart(e)
    && RowsPast(e.db, e.clock) && Serial(opening, e)
  }

  // ---- What a transaction commits is what its handler would do alone ----

  lemma WrittenIsVerdict(db: Db, j: Job, clock: int)
    requires HomeOk(db, j) && ReadsHold(db, j, clock) && j.stage.Written?
    ensures j.view.found == SeePurchase(db, j.req)
    ensures j.stage.verdict == VerdictOn(db, j.req, j.when)
    ensures ClockOk(db, j.req, j.when)
  {
    ViewIsWhatIsSeen(db, j, clock);
    hide Decide, Observe, SeePurchase, BalancesOk, SumsOk, PurchaseOk;
  }

  lemma ViewIsWhatIsSeen(db: Db, j: Job, clock: int)
    requires HomeOk(db, j) && ReadsHold(db, j, clock) && j.stage.Written?
    ensures j.view == Observe(db, j.req, j.when)
    ensures j.view.found == SeePurchase(db, j.req)
  {
    FoundIsWhatIsSeen(db, j, clock);
    hide Decide, SeePurchase, QrRefunded, Total, SpentOnDay, Spent, DayStart, WrittenOk;
    assert j.done == Needs(j.req);
  }

  lemma FoundIsWhatIsSeen(db: Db, j: Job, clock: int)
    requires ReadsHold(db, j, clock) && j.stage.Written?
    ensures j.done == Needs(j.req)
    ensures j.view.found == SeePurchase(db, j.req)
    ensures j.req.QrReturn? ==> j.view.found.Some? && j.view.found.value.row.account == j.req.account
    ensures j.view.found.Some? ==> LookupOf(j.req).Some? && Hits(j.view.found.value.row, LookupOf(j.req).value)
  {
    hide QrRefunded, Total, SpentOnDay, Spent, DayStart, SumsOk, Less, Fx.Convert;
  }

  /** It holds the rows of all balances that it writes. */
  lemma WritesAreHeld(db: Db, j: Job, clock: int)
    requires ReadsHold(db, j, clock) && j.stage.Written?
    ensures forall a :: a in j.stage.verdict.writes ==> HoldsBalance(j, a)
  {
    hide QrRefunded, Total, SpentOnDay, Spent, SumsOk, Less, Fx.Convert, SeePurchase, SeeMain, SeeOther, Older;
    assert j.done == Needs(j.req);
  }

  /** The account of a locked handler is the one that it locked. */
  lemma HomeIsMain(db: Db, j: Job)
    requires HomeOk(db, j) && !Unlocked(j)
    ensures j.home == MainAccount(j.req, SeePurchase(db, j.req))
  {
    hide Find;
  }

  // ---- Locks keep handlers apart ----

  lemma PlanNames(req: Request, home: Option<Account>, a: Account)
    requires Covers(req, home, a) && home.Some? && (req.Transfer? ==> home == Some(req.account))
    ensures exists i :: 0 <= i < |PlanOf(req, home)| && PlanOf(req, home)[i].account == a
  {
    var plan := PlanOf(req, home);
    if req.Transfer? {
      LessTotal(req.account, req.credit);
      assert plan[0].account == a || plan[1].account == a;
    } else {
      assert plan[0].account == a;
    }
  }

  lemma PlanIsOrdered(req: Request, home: Option<Account>)
    ensures L.Ordered(PlanOf(req, home))
  {}

  lemma Apartness(e: State, t: Thread, u: Thread)
    requires L.Inv(e.locks) && JobsOk(e) && t in e.jobs && u in e.jobs && t != u
    requires AtWork(e.locks.agents[t]) && AtWork(e.locks.agents[u])
    requires !Unlocked(e.jobs[t]) && !Unlocked(e.jobs[u])
    ensures Apart(e.jobs[t].req, e.jobs[t].home, e.jobs[u])
  {
    assert JobOk(e, t) && JobOk(e, u);
    forall a | Covers(e.jobs[t].req, e.jobs[t].home, a) && Covers(e.jobs[u].req, e.jobs[u].home, a) ensures false {
      PlanNames(e.jobs[t].req, e.jobs[t].home, a);
      PlanNames(e.jobs[u].req, e.jobs[u].home, a);
      OwnersMeet(e.locks, t, u, a);
    }
  }

  lemma OwnersMeet(s: L.System, t: Thread, u: Thread, a: Account)
    requires L.Inv(s) && t in s.agents && u in s.agents
    requires L.Owns(s.agents[t], a) && L.Owns(s.agents[u], a)
    ensures t == u
  {
    assert L.AccountInv(s, a);
    assert t in L.Owners(s.agents, a) && u in L.Owners(s.agents, a);
  }

  /** A lock step of one thread never disturbs a thread that is at work. */
  lemma LockStepKeepsWorkers(s: L.System, step: L.Step, u: Thread)
    requires L.Inv(s) && L.Enabled(s, step) && (step.Request? || step.Wake? || step.Release? || step.Leave?)
    requires u in s.agents && !(step.Leave? && u == step.t)
    ensures u in L.Next(s, step).agents && L.Next(s, step).agents[u].plan == s.agents[u].plan
    ensures AtWork(s.agents[u]) ==> L.Next(s, step).agents[u] == s.agents[u]
  {
    if step.Release? && step.next.Some? {
      var a := s.agents[step.t].plan[s.agents[step.t].held - 1].account;
      assert L.AccountInv(s, a);
      L.WaiterIs(s.agents, a, step.next.value);
    }
  }

  // ---- Every step keeps it ----

  lemma FreshReads(db: Db, j: Job, clock: int)
    requires ReadsHold(db, j, clock) && j.done == {} && !j.stage.Over?
    ensures forall db', clock' :: ReadsHold(db', j, clock')
  {
    assert j.done != Needs(j.req);
  }

  lemma CommitKeepsOther(e: State, t: Thread, u: Thread)
    requires L.Inv(e.locks) && JobsOk(e) && RowsApart(e) && BalancesApart(e)
    requires Enabled(e, Commit(t)) && u in e.jobs && u != t
    ensures HomeOk(Apply(e.db, e.jobs[t].stage.verdict), e.jobs[u])
    ensures !e.jobs[u].stage.Over? ==> ReadsHold(Apply(e.db, e.jobs[t].stage.verdict), e.jobs[u], e.clock)
  {
    hide L.Inv, RowsApart, BalancesApart, ReadsHold, HomeOk, Clear, AtWork;
    var k, v := e.jobs[u], e.jobs[t].stage.verdict;
    assert JobOk(e, t) && JobOk(e, u);
    HomeKept(e.db, v, k);
    if !k.stage.Over? {
      if k.done == {} {
        FreshReads(e.db, k, e.clock);
      } else {
        CommitIsClear(e, t, u);
        ReadsKept(e.db, v, k, e.clock);
      }
    }
  }

  lemma CommitIsClear(e: State, t: Thread, u: Thread)
    requires L.Inv(e.locks) && JobsOk(e) && RowsApart(e) && BalancesApart(e)
    requires Enabled(e, Commit(t)) && u in e.jobs && u != t && !e.jobs[u].stage.Over? && e.jobs[u].done != {}
    ensures Clear(e.db, e.jobs[t].stage.verdict, e.jobs[u])
  {
    hide L.Inv, SeePurchase, Decide, PlanOf, Confined, MarksWithin, BalancesOk, SumsOk, WrittenOk, InOrder;
    var j, k, v := e.jobs[t], e.jobs[u], e.jobs[t].stage.verdict;
    assert JobOk(e, t) && JobOk(e, u);
    WrittenIsVerdict(e.db, j, e.clock);
    VerdictConfined(e.db, j.req, j.when);
    var home := MainAccount(j.req, SeePurchase(e.db, j.req));
    RowIsClear(e, t, u);
    if Unlocked(j) || Unlocked(k) {
      WritesAreHeld(e.db, j, e.clock);
      ClearOfUnlocked(e.db, v, j.req, home, k);
    } else {
      HomeIsMain(e.db, j);
      Apartness(e, t, u);
      ClearOfLocked(e.db, v, j.req, home, k);
    }
  }

  lemma RowIsClear(e: State, t: Thread, u: Thread)
    requires RowsApart(e) && t in e.jobs && u in e.jobs && t != u
    requires e.jobs[t].stage.Written? && !e.jobs[u].stage.Over?
    requires e.jobs[t].view.found == SeePurchase(e.db, e.jobs[t].req)
    requires MarksWithin(e.db, e.jobs[t].stage.verdict, e.jobs[t].req)
    requires PurchaseOk(e.db, e.jobs[u])
    ensures RowClear(e.jobs[t].stage.verdict, e.jobs[u])
  {
    var v, k := e.jobs[t].stage.verdict, e.jobs[u];
    hide SeeRefunded, Find;
    if v.Approve? && v.mark.Some? {
      assert HoldsRow(e.jobs[t], v.mark.value.id);
      assert !HoldsRow(k, v.mark.value.id);
    }
  }

  lemma CommitSound(opening: map<Account, int>, e: State, t: Thread)
    requires Sound(opening, e) && Enabled(e, Commit(t))
    ensures Sound(opening, Next(e, Commit(t)))
  {
    assert JobOk(e, t);
    CommitKeepsJobs(e, t);
    CommitIsSerial(opening, e, t);
    CommitIsPast(e.db, e.jobs[t], e.clock);
    OverFreesRows(e, t);
    hide JobsOk, Serial, RowsApart, BalancesApart, RowsPast, L.Inv, Apply;
  }

  lemma CommitKeepsJobs(e: State, t: Thread)
    requires L.Inv(e.locks) && JobsOk(e) && RowsApart(e) && BalancesApart(e) && Enabled(e, Commit(t))
    ensures JobsOk(Next(e, Commit(t)))
  {
    var e' := Next(e, Commit(t));
    hide L.Inv, RowsApart, BalancesApart, ReadsHold, Apply, HomeOk;
    forall u | u in e'.jobs ensures JobOk(e', u) {
      assert JobOk(e, u);
      if u == t {
        HomeKept(e.db, e.jobs[t].stage.verdict, e.jobs[t]);
        HomeOfOver(e'.db, e.jobs[t]);
      } else {
        CommitKeepsOther(e, t, u);
      }
    }
  }

  lemma HomeOfOver(db: Db, j: Job)
    requires HomeOk(db, j)
    ensures HomeOk(db, j.(stage := Over))
  {}

  lemma CommitIsSerial(opening: map<Account, int>, e: State, t: Thread)
    requires JobsOk(e) && Serial(opening, e) && Enabled(e, Commit(t))
    ensures Serial(opening, Next(e, Commit(t)))
  {
    var e' := Next(e, Commit(t));
    assert JobOk(e, t);
    WrittenIsVerdict(e.db, e.jobs[t], e.clock);
    assert e.jobs[t].stage.verdict.Approve?;
    hide JobOk, ReadsHold, Decide, Observe, ClockOk, Apply;
    assert e'.log[..|e'.log| - 1] == e.log;
  }

  lemma OverFreesRows(e: State, t: Thread)
    requires RowsApart(e) && BalancesApart(e) && t in e.jobs
    ensures forall s: State :: s.jobs == e.jobs[t := e.jobs[t].(stage := Over)] ==> RowsApart(s) && BalancesApart(s)
  {}

  /** The new row is stamped with a time that has been. */
  lemma CommitIsPast(db: Db, j: Job, clock: int)
    requires RowsPast(db, clock) && WrittenOk(db, j, clock) && j.stage.Written?
    ensures RowsPast(Apply(db, j.stage.verdict), clock)
  {
    var v := j.stage.verdict;
    StampedRow(j.req, j.view, j.when.stamp);
    hide Decide, PostedTo;
    var rows' := Apply(db, v).rows;
    forall a, i, m | 0 <= i < |rows'| && OnMeter(rows'[i], m, a) ensures rows'[i].at <= clock {
      if i < |db.rows| {
        assert rows'[i] == db.rows[i];
        assert Older(db, a, clock);
      }
    }
  }

  lemma StampedRow(req: Request, view: View, stamp: int)
    ensures var v := Decide(req, view, stamp);
      v.Approve? ==> forall m, a :: OnMeter(v.row, m, a) ==> v.row.at == stamp
  {
    hide Less, Fx.Convert;
  }

  lemma BeginSound(opening: map<Account, int>, e: State, t: Thread, req: Request)
    requires Sound(opening, e) && Enabled(e, Begin(t, req))
    ensures Sound(opening, Next(e, Begin(t, req)))
  {
    var e' := Next(e, Begin(t, req));
    L.InvStep(e.locks, L.Arrive(t, PlanOf(req, HomeOf(e.db, req))));
    BeginKeepsJobs(e, t, req);
    NewcomerHoldsNothing(e, t, e'.jobs[t]);
    hide L.Inv, JobsOk, RowsApart, BalancesApart, RowsPast, Serial;
  }

  lemma BeginKeepsJobs(e: State, t: Thread, req: Request)
    requires JobsOk(e) && Enabled(e, Begin(t, req))
    ensures JobsOk(Next(e, Begin(t, req)))
  {
    hide L.Ordered;
    var e' := Next(e, Begin(t, req));
    forall u | u in e'.jobs ensures JobOk(e', u) {
      if u != t { assert JobOk(e, u); }
    }
  }

  lemma NewcomerHoldsNothing(e: State, t: Thread, j: Job)
    requires RowsApart(e) && BalancesApart(e) && t !in e.jobs && j.view.found.None? && j.done == {}
    ensures forall s: State :: s.jobs == e.jobs[t := j] ==> RowsApart(s) && BalancesApart(s)
  {}

  lemma LockSound(opening: map<Account, int>, e: State, step: L.Step)
    requires Sound(opening, e) && Enabled(e, LockStep(step))
    ensures Sound(opening, Next(e, LockStep(step)))
  {
    L.InvStep(e.locks, step);
    LockKeepsJobs(e, step);
    LockKeepsRows(e, step);
    hide L.Inv, JobsOk, RowsApart, BalancesApart, RowsPast, Serial;
  }

  lemma LockKeepsRows(e: State, step: L.Step)
    requires RowsApart(e) && BalancesApart(e) && Enabled(e, LockStep(step))
    ensures RowsApart(Next(e, LockStep(step))) && BalancesApart(Next(e, LockStep(step)))
  {
    hide HoldsRow, HoldsBalance, L.Enabled, L.Next;
  }

  lemma LockKeepsJobs(e: State, step: L.Step)
    requires L.Inv(e.locks) && JobsOk(e) && Enabled(e, LockStep(step))
    ensures JobsOk(Next(e, LockStep(step)))
  {
    hide L.Inv, HomeOk, ReadsHold, PlanOf, L.Next, AtWork;
    var e' := Next(e, LockStep(step));
    LockKeepsThreads(e.locks, step);
    forall u | u in e'.jobs ensures JobOk(e', u) {
      assert JobOk(e, u);
      LockStepKeepsWorkers(e.locks, step, u);
    }
  }

  lemma LockKeepsThreads(s: L.System, step: L.Step)
    requires L.Inv(s) && L.Enabled(s, step) && (step.Request? || step.Wake? || step.Release? || step.Leave?)
    ensures L.Next(s, step).agents.Keys == s.agents.Keys - if step.Leave? then {step.t} else {}
  {}

  lemma ReadoutHolds(db: Db, j: Job, probe: Probe, clock: int)
    requires HomeOk(db, j) && ReadsHold(db, j, clock) && RowsPast(db, clock) && j.stage.Reading?
    requires InTurn(j, probe)
    ensures HomeOk(db, Readout(db, j, probe, clock)) && ReadsHold(db, Readout(db, j, probe, clock), clock)
  {
    hide SeePurchase, SeeRefunded, SeeMain, SeeOther, SeeHour, SeeDay, Older;
    if !j.req.PosReturn? { assert Older(db, j.req.account, clock); }
  }

  lemma ReadSound(opening: map<Account, int>, e: State, t: Thread, probe: Probe)
    requires Sound(opening, e) && Enabled(e, Read(t, probe))
    ensures Sound(opening, Next(e, Read(t, probe)))
  {
    hide L.AccountInv, L.WellFormed, Older, After, Proper, AllApproved, Needs, MainAccount;
    var e' := Next(e, Read(t, probe));
    assert JobOk(e, t);
    ReadoutHolds(e.db, e.jobs[t], probe, e.clock);
    forall u | u in e'.jobs ensures JobOk(e', u) { assert JobOk(e, u); }
    ReadKeepsRowsApart(e, t, probe);
    ReadKeepsBalancesApart(e, t, probe);
  }

  lemma ReadKeepsRowsApart(e: State, t: Thread, probe: Probe)
    requires RowsApart(e) && Enabled(e, Read(t, probe))
    ensures RowsApart(Next(e, Read(t, probe)))
  {
    var e' := Next(e, Read(t, probe));
    forall id | HoldsRow(e'.jobs[t], id) ensures forall u :: u in e.jobs && u != t ==> !HoldsRow(e.jobs[u], id) {
      if !HoldsRow(e.jobs[t], id) { assert RowFree(e, t, id); }
    }
    hide Readout, SeePurchase;
  }

  /** A balance that a read adds to those held was free. */
  lemma ReadHoldsMore(e: State, t: Thread, probe: Probe, a: Account)
    requires Enabled(e, Read(t, probe)) && InOrder(e.jobs[t]) && BalancesOk(e.db, e.jobs[t])
    requires HoldsBalance(Next(e, Read(t, probe)).jobs[t], a)
    ensures HoldsBalance(e.jobs[t], a) || BalanceFree(e, t, a)
  {
    hide SeePurchase, SeeRefunded, SeeHour, SeeDay;
  }

  lemma ReadKeepsBalancesApart(e: State, t: Thread, probe: Probe)
    requires BalancesApart(e) && JobsOk(e) && Enabled(e, Read(t, probe))
    ensures BalancesApart(Next(e, Read(t, probe)))
  {
    var e' := Next(e, Read(t, probe));
    assert JobOk(e, t);
    forall a | HoldsBalance(e'.jobs[t], a)
      ensures forall u :: u in e.jobs && u != t && (Unlocked(e.jobs[t]) || Unlocked(e.jobs[u])) ==>
        !HoldsBalance(e.jobs[u], a)
    {
      ReadHoldsMore(e, t, probe, a);
    }
    hide Readout, SeePurchase, HoldsBalance;
  }

  lemma WriteSound(opening: map<Account, int>, e: State, t: Thread)
    requires Sound(opening, e) && Enabled(e, Write(t))
    ensures Sound(opening, Next(e, Write(t)))
  {
    hide L.AccountInv, L.WellFormed, Older, After, Proper, AllApproved, Decide, ReadsHold, PlanOf;
    var e' := Next(e, Write(t));
    assert JobOk(e, t);
    WriteHolds(e.db, e.jobs[t], e.clock);
    forall u | u in e'.jobs ensures JobOk(e', u) { assert JobOk(e, u); }
    assert forall id :: HoldsRow(e'.jobs[t], id) <==> HoldsRow(e.jobs[t], id);
    assert forall a :: HoldsBalance(e'.jobs[t], a) <==> HoldsBalance(e.jobs[t], a);
    hide HoldsBalance, HoldsRow;
  }

  lemma WriteHolds(db: Db, j: Job, clock: int)
    requires HomeOk(db, j) && ReadsHold(db, j, clock) && RowsPast(db, clock) && j.stage.Reading?
    requires j.done == Needs(j.req) && Decide(j.req, j.view, clock).Approve?
    ensures var j' := j.(when := Stamped(j, clock), stage := Written(Decide(j.req, j.view, clock)));
      HomeOk(db, j') && ReadsHold(db, j', clock)
  {
    hide SeePurchase, SeeRefunded, SeeMain, SeeOther, Older, Decide;
    if !j.req.PosReturn? { assert Older(db, j.req.account, clock); }
  }

  lemma RollbackSound(opening: map<Account, int>, e: State, t: Thread)
    requires Sound(opening, e) && Enabled(e, Rollback(t))
    ensures Sound(opening, Next(e, Rollback(t)))
  {
    var e' := Next(e, Rollback(t));
    forall u | u in e'.jobs ensures JobOk(e', u) { assert JobOk(e, u); }
    OverFreesRows(e, t);
  }

  lemma ConcludeSound(opening: map<Account, int>, e: State, t: Thread)
    requires Sound(opening, e) && Enabled(e, Conclude(t))
    ensures Sound(opening, Next(e, Conclude(t)))
  {
    var e' := Next(e, Conclude(t));
    L.InvStep(e.locks, L.Finish(t));
    forall u | u in e'.jobs ensures JobOk(e', u) { assert JobOk(e, u); }
  }

  lemma TickSound(opening: map<Account, int>, e: State)
    requires Sound(opening, e)
    ensures Sound(opening, Next(e, Tick))
  {
    var e' := Next(e, Tick);
    forall u | u in e'.jobs ensures JobOk(e', u) { assert JobOk(e, u); }
    forall a ensures Older(e'.db, a, e'.clock) { assert Older(e.db, a, e.clock); }
  }

  lemma StepSound(opening: map<Account, int>, e: State, step: Step)
    requires Sound(opening, e) && Enabled(e, step)
    ensures Sound(opening, Next(e, step))
  {
    match step
    case Begin(t, req) => BeginSound(opening, e, t, req);
    case LockStep(step) => LockSound(opening, e, step);
    case Read(t, probe) => ReadSound(opening, e, t, probe);
    case Write(t) => WriteSound(opening, e, t);
    case Commit(t) => CommitSound(opening, e, t);
    case Rollback(t) => RollbackSound(opening, e, t);
    case Conclude(t) => ConcludeSound(opening, e, t);
    case Tick => TickSound(opening, e);
  }

  lemma {:induction false} RunSound(opening: map<Account, int>, e: State, run: seq<Step>, e': State)
    requires Sound(opening, e) && Reaches(e, run, e')
    ensures Sound(opening, e')
    decreases |run|
  {
    hide Sound, Enabled, Next;
    if run != [] {
      StepSound(opening, e, run[0]);
      RunSound(opening, Next(e, run[0]), run[1..], e');
    }
  }

  lemma StartSound(opening: map<Account, int>, clock: int)
    ensures Sound(opening, Start(opening, clock))
  {
    L.InvStart();
  }

  // ---- The main results ----

  /** No update is lost: whatever the interleaving, the tables are what the
      committed requests make of them when run one at a time in the order of
      their commits, each of them approved and on a proper clock. */
  lemma EveryRunIsSerial(opening: map<Account, int>, clock: int, run: seq<Step>, e: State)
    requires Reaches(Start(opening, clock), run, e)
    ensures e.db == After(Opening(opening), e.log)
    ensures Proper(Opening(opening), e.log) && AllApproved(Opening(opening), e.log)
  {
    StartSound(opening, clock);
    RunSound(opening, Start(opening, clock), run, e);
  }

  /** So at every moment of every interleaving, whatever the requests, balances
      are opening plus records, and ledger balances their entries. */
  lemma EveryRunAddsUp(opening: map<Account, int>, clock: int, run: seq<Step>, e: State)
    requires Reaches(Start(opening, clock), run, e)
    ensures BalancesAddUp(opening, e.db) && Agrees(e.db.books)
  {
    EveryRunIsSerial(opening, clock, run, e);
    AccountsAddUp(opening, e.log);
  }

  /** And as long as every committed request is signed as it should be, no
      balance is negative, no purchase is over-refunded and no limit is
      passed. */
  lemma EveryRunIsHealthy(opening: map<Account, int>, clock: int, run: seq<Step>, e: State)
    requires forall a :: a in opening ==> opening[a] >= 0
    requires Reaches(Start(opening, clock), run, e) && AllSigned(e.log)
    ensures Healthy(opening, e.db)
    ensures forall a, day :: WithdrawnOnDay(e.db.rows, a, day) <= 500_000
    ensures forall a, day :: PaidInOnDay(e.db.rows, a, day) <= 1_000_000 && SentOnDay(e.db.rows, a, day) <= 1_000_000
    ensures forall a, from :: SentInHour(e.db.rows, a, from) <= 200_000
    ensures forall a :: a in e.db.balances ==> e.db.balances[a] >= 0
  {
    EveryRunIsSerial(opening, clock, run, e);
    HealthyRun(opening, e.log);
  }

  /** And the books stay balanced as long as every committed request leaves
      something for a merchant that is named, or nothing at all. */
  lemma EveryRunBalancesBooks(opening: map<Account, int>, clock: int, run: seq<Step>, e: State)
    requires Reaches(Start(opening, clock), run, e)
    requires AllSigned(e.log) && forall i :: 0 <= i < |e.log| ==> Balances(e.log[i].req)
    ensures TrialBalance(e.db.books) == 0
  {
    EveryRunIsSerial(opening, clock, run, e);
    TrialBalanceStays(Opening(opening), e.log);
  }

  /** The account of a customer whom no committed request takes for a merchant
      is followed by its ledger account, but for purchase fees and the channels
      that do not post. */
  lemma EveryRunTracksLedger(opening: map<Account, int>, clock: int, run: seq<Step>, e: State, a: Account)
    requires Reaches(Start(opening, clock), run, e) && a in opening
    requires forall i :: 0 <= i < |e.log| ==> Customer(a, e.log[i].req)
    ensures a in e.db.balances && LedgerTracks(opening, e.db, a)
  {
    EveryRunIsSerial(opening, clock, run, e);
    LedgerTracksRun(opening, e.log, a);
  }

  /** Every committed request leaves one record. */
  lemma {:induction false} OneRecordEach(db: Db, calls: seq<Call>)
    requires AllApproved(db, calls)
    ensures |After(db, calls).rows| == |db.rows| + |calls|
    decreases |calls|
  {
    hide Decide, Observe, Apply;
    if calls != [] {
      var before, last := calls[..|calls| - 1], calls[|calls| - 1];
      OneRecordEach(db, before);
      OneRecordMore(After(db, before), VerdictOn(After(db, before), last.req, last.when));
    }
  }

  lemma OneRecordMore(db: Db, v: Verdict)
    requires v.Approve?
    ensures |Apply(db, v).rows| == |db.rows| + 1
  {}

  /** A transfer, withdrawal or refund that is rolled back, and every step that
      is not a commit, leaves the tables as they were; a commit adds one
      record. */
  lemma OnlyCommitsWrite(opening: map<Account, int>, e: State, step: Step)
    requires Sound(opening, e) && Enabled(e, step)
    ensures !step.Commit? ==> Next(e, step).db == e.db && Next(e, step).log == e.log
    ensures step.Commit? ==> |Next(e, step).db.rows| == |e.db.rows| + 1
  {
    if step.Commit? {
      assert JobOk(e, step.t);
      OneRecordMore(e.db, e.jobs[step.t].stage.verdict);
    }
    hide L.Inv, RowsApart, BalancesApart, RowsPast, Serial, Apply;
  }
}
