/** The account locks and the row locks together never leave all handlers
    waiting, and once no more requests come every run ends. */
module EngineProgress {
  import opened AccountOrder
  import opened Options
  import opened LockTable
  import opened Bank
  import opened Engine
  import opened EngineFrame
  import opened EngineSafety
  import opened MapSum
  import L = LockProtocol
  import P = LockProgress

  /** A step by which a handler goes on; giving up counts only for a handler
      that has read everything it needs. */
  ghost predicate GoesOn(e: State, step: Step) {
    && Enabled(e, step) && !step.Begin? && !step.Tick?
    && (step.Rollback? ==> e.jobs[step.t].done == Needs(e.jobs[step.t].req))
  }

  predicate Active(e: State, t: Thread) {
    Working(e, t) && !e.jobs[t].stage.Over?
  }

  lemma FinishedGoesOn(e: State, t: Thread) returns (step: Step)
    requires Active(e, t) && e.jobs[t].done == Needs(e.jobs[t].req)
    ensures GoesOn(e, step)
  {
    step := if e.jobs[t].stage.Written? then Commit(t) else Rollback(t);
  }

  /** A POS refund that has a balance row has everything. */
  lemma UnlockedHolderGoesOn(e: State, u: Thread, a: Account) returns (step: Step)
    requires JobsOk(e) && u in e.jobs && Unlocked(e.jobs[u]) && HoldsBalance(e.jobs[u], a)
    ensures GoesOn(e, step)
  {
    hide BalancesOk, SumsOk, PurchaseOk, WrittenOk;
    assert JobOk(e, u);
    assert e.jobs[u].done == Needs(e.jobs[u].req);
    step := FinishedGoesOn(e, u);
  }

  /** Who keeps `t` from reading a balance. */
  lemma BlockedBy(e: State, t: Thread, probe: Probe) returns (u: Thread, a: Account)
    requires t in e.jobs && InTurn(e.jobs[t], probe) && !probe.PurchaseRow? && !MayRead(e, t, probe)
    ensures u in e.jobs && u != t && (Unlocked(e.jobs[t]) || Unlocked(e.jobs[u])) && HoldsBalance(e.jobs[u], a)
  {
    hide HoldsBalance, SeePurchase, Needs;
    a := if probe.MainBalance? then MainAccount(e.jobs[t].req, e.jobs[t].view.found).value else e.jobs[t].req.credit;
    u :| u in e.jobs && u != t && (Unlocked(e.jobs[t]) || Unlocked(e.jobs[u])) && HoldsBalance(e.jobs[u], a);
  }

  predicate RowRead(j: Job) {
    PurchaseRow in Needs(j.req) ==> PurchaseRow in j.done
  }

  lemma ProbeLeft(e: State, t: Thread) returns (probe: Probe)
    requires JobsOk(e) && Active(e, t) && RowRead(e.jobs[t]) && e.jobs[t].done != Needs(e.jobs[t].req)
    ensures InTurn(e.jobs[t], probe) && !probe.PurchaseRow? && e.jobs[t].stage.Reading?
  {
    hide BalancesOk, SumsOk, PurchaseOk;
    assert JobOk(e, t);
    probe :| probe in Needs(e.jobs[t].req) && probe !in e.jobs[t].done;
  }

  lemma LockedGoesOn(e: State, t: Thread) returns (step: Step)
    requires JobsOk(e) && Active(e, t) && RowRead(e.jobs[t]) && !Unlocked(e.jobs[t])
    ensures GoesOn(e, step)
  {
    hide JobOk, MayRead, HoldsBalance;
    if e.jobs[t].done == Needs(e.jobs[t].req) {
      step := FinishedGoesOn(e, t);
    } else {
      var probe := ProbeLeft(e, t);
      if MayRead(e, t, probe) {
        step := Read(t, probe);
      } else {
        var u, a := BlockedBy(e, t, probe);
        step := UnlockedHolderGoesOn(e, u, a);
      }
    }
  }

  lemma HolderIsActive(e: State, u: Thread, a: Account)
    requires JobsOk(e) && u in e.jobs && HoldsBalance(e.jobs[u], a)
    ensures Active(e, u) && RowRead(e.jobs[u])
  {
    hide BalancesOk, SumsOk, PurchaseOk, WrittenOk;
    assert JobOk(e, u);
  }

  /** With its purchase row, if it needs one, a handler goes on or waits for one
      that does. */
  lemma RowReadGoesOn(e: State, t: Thread) returns (step: Step)
    requires JobsOk(e) && Active(e, t) && RowRead(e.jobs[t])
    ensures GoesOn(e, step)
  {
    hide JobOk, MayRead, HoldsBalance;
    if !Unlocked(e.jobs[t]) {
      step := LockedGoesOn(e, t);
    } else if e.jobs[t].done == Needs(e.jobs[t].req) {
      step := FinishedGoesOn(e, t);
    } else {
      var probe := ProbeLeft(e, t);
      if MayRead(e, t, probe) {
        step := Read(t, probe);
      } else {
        var u, a := BlockedBy(e, t, probe);
        HolderIsActive(e, u, a);
        if Unlocked(e.jobs[u]) {
          step := UnlockedHolderGoesOn(e, u, a);
        } else {
          step := LockedGoesOn(e, u);
        }
      }
    }
  }

  lemma RowHolderIsActive(e: State, u: Thread, id: nat)
    requires JobsOk(e) && u in e.jobs && HoldsRow(e.jobs[u], id)
    ensures Active(e, u) && RowRead(e.jobs[u])
  {
    hide BalancesOk, SumsOk, WrittenOk;
    assert JobOk(e, u);
  }

  lemma ActiveGoesOn(e: State, t: Thread) returns (step: Step)
    requires JobsOk(e) && Active(e, t)
    ensures GoesOn(e, step)
  {
    var j := e.jobs[t];
    if RowRead(j) {
      step := RowReadGoesOn(e, t);
    } else {
      RowComesFirst(e, t);
      var found := SeePurchase(e.db, j.req);
      if (j.req.PosReturn? || j.req.EcomReturn?) && found.Some? && !RowFree(e, t, found.value.id) {
        var u :| u in e.jobs && u != t && HoldsRow(e.jobs[u], found.value.id);
        RowHolderIsActive(e, u, found.value.id);
        step := RowReadGoesOn(e, u);
      } else {
        step := Read(t, PurchaseRow);
      }
    }
  }

  lemma RowComesFirst(e: State, t: Thread)
    requires JobsOk(e) && Active(e, t) && !RowRead(e.jobs[t])
    ensures InTurn(e.jobs[t], PurchaseRow) && e.jobs[t].stage.Reading?
  {
    hide BalancesOk, SumsOk, PurchaseOk;
    assert JobOk(e, t);
  }

  /** While a request is in the engine some handler can go on. */
  lemma NeverStuck(opening: map<Account, int>, clock: int, run: seq<Step>, e: State)
    requires Reaches(Start(opening, clock), run, e) && e.jobs != map[]
    ensures exists step :: GoesOn(e, step)
  {
    StartSound(opening, clock);
    RunSound(opening, Start(opening, clock), run, e);
    SomeGoesOn(e);
  }

  lemma SomeGoesOn(e: State)
    requires L.Inv(e.locks) && JobsOk(e) && e.jobs != map[]
    ensures exists step :: GoesOn(e, step)
  {
    hide L.Inv;
    var t :| t in e.jobs;
    assert t in e.locks.agents;
    if e.locks.agents[t].mode.Blocked? {
      BlockedIsMidPlan(e.locks, t);
      var path := P.FollowToOwner(e.locks, t);
      t := path[|path| - 1];
    }
    RunnerGoesOn(e, t);
  }

  lemma BlockedIsMidPlan(s: L.System, t: Thread)
    requires L.Inv(s) && t in s.agents && s.agents[t].mode.Blocked?
    ensures P.IsBlocked(s, t)
  {
    assert L.WellFormed(s.agents[t]);
  }

  lemma RunnerGoesOn(e: State, t: Thread)
    requires L.Inv(e.locks) && JobsOk(e) && t in e.locks.agents && !e.locks.agents[t].mode.Blocked?
    ensures exists step :: GoesOn(e, step)
  {
    hide L.Inv, JobOk;
    if !AtWork(e.locks.agents[t]) {
      var lockStep := P.RunnerHasAStep(e.locks, t);
      assert GoesOn(e, LockStep(lockStep));
    } else if e.jobs[t].stage.Over? {
      assert GoesOn(e, Conclude(t));
    } else {
      var step := ActiveGoesOn(e, t);
    }
  }

  // ---- Every run ends ----

  /** The database steps that a handler may still take. */
  function JobLoad(j: Job): int {
    match j.stage
    case Over => 0
    case Written(_) => 1
    case Reading => |Needs(j.req) - j.done| + 2
  }

  ghost function JobLoads(jobs: map<Thread, Job>): map<Thread, int> {
    map t | t in jobs :: JobLoad(jobs[t])
  }

  ghost function EngineLoad(e: State): int {
    P.Load(e.locks.agents) + Sum(JobLoads(e.jobs))
  }

  lemma LoadOfJobUpdate(jobs: map<Thread, Job>, t: Thread, j: Job)
    requires t in jobs
    ensures Sum(JobLoads(jobs[t := j])) == Sum(JobLoads(jobs)) - JobLoad(jobs[t]) + JobLoad(j)
  {
    SumUpdate(JobLoads(jobs), t, JobLoad(j));
    assert JobLoads(jobs[t := j]) == JobLoads(jobs)[t := JobLoad(j)];
  }

  lemma LoadOfJobGone(jobs: map<Thread, Job>, t: Thread)
    requires t in jobs
    ensures Sum(JobLoads(jobs - {t})) == Sum(JobLoads(jobs)) - JobLoad(jobs[t])
  {
    SumSplit(JobLoads(jobs), t);
    assert JobLoads(jobs - {t}) == JobLoads(jobs) - {t};
  }

  lemma ReadSpends(e: State, t: Thread, probe: Probe)
    requires Enabled(e, Read(t, probe))
    ensures JobLoad(Next(e, Read(t, probe)).jobs[t]) == JobLoad(e.jobs[t]) - 1
  {
    var j := e.jobs[t];
    hide SeePurchase, SeeMain, SeeOther, SeeHour, SeeDay, SeeRefunded, MayRead, Needs;
    assert InTurn(j, probe);
    assert Needs(j.req) - j.done == (Needs(j.req) - (j.done + {probe})) + {probe};
  }

  lemma StepSpends(e: State, step: Step)
    requires L.Inv(e.locks) && JobsOk(e) && Enabled(e, step) && !step.Begin? && !step.Tick?
    ensures EngineLoad(Next(e, step)) < EngineLoad(e)
  {
    hide L.Inv, JobOk, P.Load, Sum, JobLoads, MayRead;
    match step
    case LockStep(lockStep) =>
      P.StepSpendsLoad(e.locks, lockStep);
      if lockStep.Leave? { LoadOfJobGone(e.jobs, lockStep.t); }
    case Read(t, probe) =>
      ReadSpends(e, t, probe);
      LoadOfJobUpdate(e.jobs, t, Next(e, step).jobs[t]);
    case Write(t) => LoadOfJobUpdate(e.jobs, t, Next(e, step).jobs[t]);
    case Commit(t) => LoadOfJobUpdate(e.jobs, t, Next(e, step).jobs[t]);
    case Rollback(t) => LoadOfJobUpdate(e.jobs, t, Next(e, step).jobs[t]);
    case Conclude(t) => P.StepSpendsLoad(e.locks, L.Finish(t));
  }

  lemma LoadIsNatural(e: State)
    requires L.Inv(e.locks)
    ensures EngineLoad(e) >= 0
  {
    P.LoadIsNatural(e.locks.agents);
    SumNatural(JobLoads(e.jobs));
  }

  predicate Closed(run: seq<Step>) {
    forall i :: 0 <= i < |run| ==> !run[i].Begin? && !run[i].Tick?
  }

  lemma {:induction false} RunSpends(opening: map<Account, int>, e: State, run: seq<Step>, e': State)
    requires Sound(opening, e) && Reaches(e, run, e') && Closed(run)
    ensures |run| + EngineLoad(e') <= EngineLoad(e)
    decreases |run|
  {
    hide Enabled, Next, EngineLoad, Serial, RowsApart, BalancesApart, RowsPast, L.Inv, JobsOk;
    if run != [] {
      StepSound(opening, e, run[0]);
      StepSpends(e, run[0]);
      RunSpends(opening, Next(e, run[0]), run[1..], e');
    }
  }

  /** Without new requests every run is bounded, and where it can go no further
      no request is left and no account is locked. */
  lemma EngineDrains(opening: map<Account, int>, clock: int, before: seq<Step>, e: State, run: seq<Step>, e': State)
    requires Reaches(Start(opening, clock), before, e) && Reaches(e, run, e') && Closed(run)
    ensures |run| <= EngineLoad(e)
    ensures (forall step :: Enabled(e', step) ==> step.Begin? || step.Tick?) ==>
      e'.jobs == map[] && e'.locks.table == map[]
  {
    hide Enabled, EngineLoad, Serial, RowsApart, BalancesApart, RowsPast, L.Inv, JobsOk;
    StartSound(opening, clock);
    RunSound(opening, Start(opening, clock), before, e);
    RunSound(opening, e, run, e');
    RunSpends(opening, e, run, e');
    LoadIsNatural(e');
    if e'.jobs != map[] {
      SomeGoesOn(e');
    } else {
      IdleHoldsNothing(e');
    }
  }

  lemma IdleHoldsNothing(e: State)
    requires L.Inv(e.locks) && JobsOk(e) && e.jobs == map[]
    ensures e.locks == L.Start
  {
    forall a ensures a !in e.locks.table {
      assert L.AccountInv(e.locks, a);
      assert L.Owners(e.locks.agents, a) == {};
    }
  }
}
