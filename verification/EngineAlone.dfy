/** A serial run is a run of the engine: each request that would be approved
    comes, takes its locks, reads, commits, gives its locks back and leaves, and
    then the next one comes. */
module EngineAlone {
  import opened AccountOrder
  import opened Options
  import opened LockTable
  import opened Bank
  import opened BankInvariants
  import opened BankRuns
  import opened Engine
  import opened EngineSafety
  import L = LockProtocol

  lemma {:induction false} ReachesOn(e: State, run: seq<Step>, mid: State, more: seq<Step>, e': State)
    requires Reaches(e, run, mid) && Reaches(mid, more, e')
    ensures Reaches(e, run + more, e')
    decreases |run|
  {
    hide Enabled, Next;
    if run == [] {
      assert run + more == more;
    } else {
      ReachesOn(Next(e, run[0]), run[1..], mid, more, e');
      assert (run + more)[1..] == run[1..] + more;
    }
  }

  lemma OneStep(e: State, step: Step)
    requires Enabled(e, step)
    ensures Reaches(e, [step], Next(e, step))
  {
    assert [step][1..] == [];
  }

  // ---- Taking the locks ----

  /** `t` is the only thread and owns the first `i` locks of its plan. */
  ghost predicate Climbs(s: L.System, t: Thread, plan: seq<L.Claim>, i: nat) {
    && s.agents == map[t := L.Agent(plan, i, L.Climbing)] && i <= |plan|
    && forall a :: a in s.table ==> exists k :: 0 <= k < i && plan[k].account == a
  }

  lemma {:induction false} TakesLocks(e: State, t: Thread, plan: seq<L.Claim>, i: nat)
    returns (run: seq<Step>, e': State)
    requires i <= |plan| && Climbs(e.locks, t, plan, i) && L.Ordered(plan) && L.Inv(e.locks)
    ensures Reaches(e, run, e') && e' == e.(locks := e'.locks)
    ensures Climbs(e'.locks, t, plan, |plan|) && L.Inv(e'.locks)
    decreases |plan| - i
  {
    hide L.Inv, Climbs, L.Ordered;
    if i == |plan| {
      run, e' := [], e;
    } else {
      var step := TakesLock(e, t, plan, i);
      var next := Next(e, step);
      var rest;
      rest, e' := TakesLocks(next, t, plan, i + 1);
      OneStep(e, step);
      ReachesOn(e, [step], next, rest, e');
      run := [step] + rest;
    }
  }

  lemma TakesLock(e: State, t: Thread, plan: seq<L.Claim>, i: nat) returns (step: Step)
    requires Climbs(e.locks, t, plan, i) && L.Ordered(plan) && L.Inv(e.locks) && i < |plan|
    ensures Enabled(e, step) && step == LockStep(L.Request(t))
    ensures Climbs(Next(e, step).locks, t, plan, i + 1) && L.Inv(Next(e, step).locks)
  {
    step := LockStep(L.Request(t));
    L.InvStep(e.locks, L.Request(t));
    hide L.Inv;
    L.ClaimedOnce(plan, i);
    assert plan[i].account !in e.locks.table;
    var next := Next(e, step);
    assert forall a :: a in next.locks.table ==> a in e.locks.table || a == plan[i].account;
  }

  // ---- Reading ----

  /** An order in which a handler may read what it needs. */
  function Order(req: Request): seq<Probe> {
    match req
    case Withdraw(_, _, _) => [MainBalance, DaySum]
    case Deposit(_, _) => [DaySum, MainBalance]
    case Transfer(_, _, _, _) => [MainBalance, OtherBalance, HourSum, DaySum]
    case PosReturn(_, _, _, _, _) => [PurchaseRow, MainBalance]
    case EcomReturn(_, _, _, _, _, _, _) => [PurchaseRow, MainBalance]
    case QrReturn(_, _, _, _) => [PurchaseRow, RefundCheck, MainBalance]
    case _ => [MainBalance]
  }

  function ReadAll(db: Db, j: Job, probes: seq<Probe>, clock: int): Job
    decreases |probes|
  {
    if probes == [] then j else ReadAll(db, Readout(db, j, probes[0], clock), probes[1..], clock)
  }

  predicate AllInTurn(db: Db, j: Job, probes: seq<Probe>, clock: int)
    decreases |probes|
  {
    probes == [] || (InTurn(j, probes[0]) && AllInTurn(db, Readout(db, j, probes[0], clock), probes[1..], clock))
  }

  lemma {:induction false} Reads(e: State, t: Thread, probes: seq<Probe>) returns (run: seq<Step>, e': State)
    requires Working(e, t) && e.jobs.Keys == {t} && e.jobs[t].stage.Reading?
    requires AllInTurn(e.db, e.jobs[t], probes, e.clock)
    ensures Reaches(e, run, e') && e' == e.(jobs := e.jobs[t := ReadAll(e.db, e.jobs[t], probes, e.clock)])
    decreases |probes|
  {
    if probes == [] {
      run, e' := [], e;
      assert e.jobs == e.jobs[t := e.jobs[t]];
    } else {
      var step := Read(t, probes[0]);
      var next := Next(e, step);
      hide SeePurchase, SeeMain, SeeOther, SeeHour, SeeDay, SeeRefunded, MainAccount;
      var rest;
      rest, e' := Reads(next, t, probes[1..]);
      OneStep(e, step);
      ReachesOn(e, [step], next, rest, e');
      run := [step] + rest;
    }
  }

  function Fresh(req: Request, home: Option<Account>): Job {
    Job(req, home, Blank, {}, When(0, 0, 0), Reading)
  }

  function AtOnce(clock: int): When {
    When(clock, clock, clock)
  }

  lemma OrderServes(db: Db, req: Request, home: Option<Account>, clock: int)
    ensures Served(db, req, home, clock)
  {
    hide SeePurchase, SeeMain, SeeOther, SeeHour, SeeDay, SeeRefunded, Observe;
    hide AllInTurn, ReadAll, InTurn, Readout, Stamped;
    match |Order(req)|
    case 1 => Serves1(db, req, home, clock);
    case 2 => Serves2(db, req, home, clock);
    case 3 => Serves3(db, req, home, clock);
    case _ => Serves4(db, req, home, clock);
  }

  ghost predicate Served(db: Db, req: Request, home: Option<Account>, clock: int) {
    var j := ReadAll(db, Fresh(req, home), Order(req), clock);
    && AllInTurn(db, Fresh(req, home), Order(req), clock)
    && j.view == Observe(db, req, AtOnce(clock)) && j.done == Needs(req) && Stamped(j, clock) == AtOnce(clock)
    && j.req == req && j.home == home && j.stage == Reading
  }

  lemma Serves1(db: Db, req: Request, home: Option<Account>, clock: int)
    requires |Order(req)| == 1
    ensures Served(db, req, home, clock)
  {
    SeesNothingElse(db, req, clock);
    hide SeePurchase, SeeMain, SeeOther, SeeHour, SeeDay, SeeRefunded;
    var order, j0 := Order(req), Fresh(req, home);
    Unfold(db, j0, order, clock);
    Unfold(db, Readout(db, j0, order[0], clock), order[1..], clock);
  }

  lemma Serves2(db: Db, req: Request, home: Option<Account>, clock: int)
    requires |Order(req)| == 2
    ensures Served(db, req, home, clock)
  {
    SeesNothingElse(db, req, clock);
    hide SeePurchase, SeeMain, SeeOther, SeeHour, SeeDay, SeeRefunded;
    var order, j0 := Order(req), Fresh(req, home);
    var j1 := Readout(db, j0, order[0], clock);
    Unfold(db, j0, order, clock);
    Unfold(db, j1, order[1..], clock);
    Unfold(db, Readout(db, j1, order[1], clock), order[1..][1..], clock);
  }

  lemma Serves3(db: Db, req: Request, home: Option<Account>, clock: int)
    requires |Order(req)| == 3
    ensures Served(db, req, home, clock)
  {
    assert req.QrReturn?;
    SeesNothingElse(db, req, clock);
    hide SeePurchase, SeeMain, SeeOther, SeeHour, SeeDay, SeeRefunded;
    var order, j0 := Order(req), Fresh(req, home);
    var j1 := Readout(db, j0, order[0], clock);
    var j2 := Readout(db, j1, order[1], clock);
    Unfold(db, j0, order, clock);
    Unfold(db, j1, order[1..], clock);
    Unfold(db, j2, order[1..][1..], clock);
    Unfold(db, Readout(db, j2, order[2], clock), order[1..][1..][1..], clock);
  }

  lemma Serves4(db: Db, req: Request, home: Option<Account>, clock: int)
    requires |Order(req)| == 4
    ensures Served(db, req, home, clock)
  {
    assert req.Transfer?;
    SeesNothingElse(db, req, clock);
    hide SeePurchase, SeeMain, SeeOther, SeeHour, SeeDay, SeeRefunded;
    var order, j0 := Order(req), Fresh(req, home);
    var j1 := Readout(db, j0, order[0], clock);
    var j2 := Readout(db, j1, order[1], clock);
    var j3 := Readout(db, j2, order[2], clock);
    Unfold(db, j0, order, clock);
    Unfold(db, j1, order[1..], clock);
    Unfold(db, j2, order[1..][1..], clock);
    Unfold(db, j3, order[1..][1..][1..], clock);
    Unfold(db, Readout(db, j3, order[3], clock), order[1..][1..][1..][1..], clock);
  }

  /** What a handler does not read is blank in any view. */
  lemma SeesNothingElse(db: Db, req: Request, clock: int)
    ensures OtherBalance !in Needs(req) ==> SeeOther(db, req).None?
    ensures HourSum !in Needs(req) ==> SeeHour(db, req, clock) == 0
    ensures DaySum !in Needs(req) ==> SeeDay(db, req, clock) == 0
    ensures PurchaseRow !in Needs(req) ==> SeePurchase(db, req).None?
    ensures RefundCheck !in Needs(req) ==> !SeeRefunded(db, SeePurchase(db, req))
  {}

  lemma Unfold(db: Db, j: Job, probes: seq<Probe>, clock: int)
    ensures probes == [] ==> AllInTurn(db, j, probes, clock) && ReadAll(db, j, probes, clock) == j
    ensures probes != [] ==>
      var next := Readout(db, j, probes[0], clock);
      && AllInTurn(db, j, probes, clock) == (InTurn(j, probes[0]) && AllInTurn(db, next, probes[1..], clock))
      && ReadAll(db, j, probes, clock) == ReadAll(db, next, probes[1..], clock)
  {}

  // ---- Committing ----

  lemma Commits(e: State, t: Thread) returns (run: seq<Step>, e': State)
    requires Working(e, t) && e.jobs[t].stage.Reading? && e.jobs[t].done == Needs(e.jobs[t].req)
    requires e.jobs[t].view == Observe(e.db, e.jobs[t].req, AtOnce(e.clock))
    requires Stamped(e.jobs[t], e.clock) == AtOnce(e.clock)
    requires VerdictOn(e.db, e.jobs[t].req, AtOnce(e.clock)).Approve?
    ensures Reaches(e, run, e')
    ensures e' == e.(db := Execute(e.db, e.jobs[t].req, AtOnce(e.clock)), jobs := e'.jobs,
                     log := e.log + [Call(e.jobs[t].req, AtOnce(e.clock))])
    ensures e'.jobs.Keys == e.jobs.Keys && e'.jobs[t].stage.Over?
  {
    hide Decide, Observe, Apply, Stamped, Needs;
    var mid := Next(e, Write(t));
    e' := Next(mid, Commit(t));
    OneStep(e, Write(t));
    OneStep(mid, Commit(t));
    run := [Write(t)] + [Commit(t)];
    ReachesOn(e, [Write(t)], mid, [Commit(t)], e');
  }

  // ---- Giving the locks back ----

  /** `t` is the only request, it is over, and it holds `i` locks. */
  ghost predicate Unwinds(e: State, t: Thread, i: nat) {
    && L.Inv(e.locks) && e.jobs.Keys == {t} && e.locks.agents.Keys == {t}
    && e.locks.agents[t].mode.Unwinding? && e.locks.agents[t].held == i
  }

  lemma NobodyWaits(s: L.System, t: Thread, a: Account)
    requires L.Inv(s) && s.agents.Keys == {t} && s.agents[t].mode.Unwinding?
    ensures OnTop(s.table, a, None)
  {
    assert L.AccountInv(s, a);
    assert L.Waiters(s.agents, a) == {};
  }

  lemma {:induction false} GivesBack(e: State, t: Thread, i: nat) returns (run: seq<Step>, e': State)
    requires Unwinds(e, t, i)
    ensures Reaches(e, run, e') && e' == e.(locks := L.Start, jobs := map[])
    decreases i
  {
    hide L.Inv;
    var step := UnwindStep(e, t, i);
    var next := Next(e, step);
    OneStep(e, step);
    if i == 0 {
      assert next.jobs == map[] && next.locks.agents == map[];
      EmptyTable(next.locks);
      run, e' := [step], next;
    } else {
      var rest;
      rest, e' := GivesBack(next, t, i - 1);
      ReachesOn(e, [step], next, rest, e');
      run := [step] + rest;
    }
  }

  lemma UnwindStep(e: State, t: Thread, i: nat) returns (step: Step)
    requires Unwinds(e, t, i)
    ensures Enabled(e, step) && step.LockStep?
    ensures L.Inv(Next(e, step).locks)
    ensures i == 0 ==> step.step == L.Leave(t)
    ensures i > 0 ==> step.step == L.Release(t, None) && Unwinds(Next(e, step), t, i - 1)
  {
    var g := e.locks.agents[t];
    if i == 0 {
      step := LockStep(L.Leave(t));
    } else {
      assert L.WellFormed(g);
      NobodyWaits(e.locks, t, g.plan[i - 1].account);
      step := LockStep(L.Release(t, None));
    }
    L.InvStep(e.locks, step.step);
    hide L.Inv, Exit;
  }

  lemma EmptyTable(s: L.System)
    requires L.Inv(s) && s.agents == map[]
    ensures s == L.Start
  {
    forall a ensures a !in s.table {
      assert L.AccountInv(s, a);
      assert L.Owners(s.agents, a) == {};
    }
  }

  // ---- The whole handler ----

  predicate Idle(e: State) {
    e.jobs == map[] && e.locks == L.Start
  }

  /** From an idle engine, a request that would be approved alone has a run that
      commits it, leaves exactly the tables of `Execute`, and leaves the engine
      idle. */
  lemma LoneRequestCommits(e: State, t: Thread, req: Request) returns (run: seq<Step>, e': State)
    requires Idle(e) && VerdictOn(e.db, req, AtOnce(e.clock)).Approve?
    ensures Reaches(e, run, e') && Idle(e') && e'.clock == e.clock
    ensures e'.db == Execute(e.db, req, AtOnce(e.clock))
    ensures e'.log == e.log + [Call(req, AtOnce(e.clock))]
  {
    var run3, e3 := GetsReady(e, t, req);
    var run4, e4 := Commits(e3, t);
    ReachesOn(e, run3, e3, run4, e4);
    var run5, e5 := Goes(e4, t);
    ReachesOn(e, run3 + run4, e4, run5, e5);
    run, e' := run3 + run4 + run5, e5;
  }

  /** It comes, takes its locks and reads. */
  lemma GetsReady(e: State, t: Thread, req: Request) returns (run: seq<Step>, e': State)
    requires Idle(e)
    ensures Reaches(e, run, e') && e' == e.(locks := e'.locks, jobs := e'.jobs) && L.Inv(e'.locks)
    ensures e'.jobs.Keys == {t} && e'.locks.agents.Keys == {t} && Working(e', t)
    ensures var j := e'.jobs[t];
      && j.req == req && j.stage.Reading? && j.done == Needs(req)
      && j.view == Observe(e.db, req, AtOnce(e.clock)) && Stamped(j, e.clock) == AtOnce(e.clock)
  {
    var home := HomeOf(e.db, req);
    var plan := PlanOf(req, home);
    var begin := Begin(t, req);
    Begins(e, t, req);
    PlanIsOrdered(req, home);
    var e1 := Next(e, begin);
    OneStep(e, begin);
    hide HomeOf, PlanOf, Observe, SeePurchase, Enabled, Next, L.Inv;
    var run2, e2 := TakesLocks(e1, t, plan, 0);
    ReachesOn(e, [begin], e1, run2, e2);
    OrderServes(e.db, req, home, e.clock);
    var run3, e3 := Reads(e2, t, Order(req));
    ReachesOn(e, [begin] + run2, e2, run3, e3);
    run, e' := [begin] + run2 + run3, e3;
  }

  lemma Begins(e: State, t: Thread, req: Request)
    requires Idle(e)
    ensures Enabled(e, Begin(t, req))
    ensures var next := Next(e, Begin(t, req)); var home := HomeOf(e.db, req);
      && Climbs(next.locks, t, PlanOf(req, home), 0) && L.Inv(next.locks)
      && next == e.(locks := next.locks, jobs := map[t := Fresh(req, home)])
  {
    hide HomeOf;
    PlanIsOrdered(req, HomeOf(e.db, req));
    L.InvStart();
    L.InvStep(e.locks, L.Arrive(t, PlanOf(req, HomeOf(e.db, req))));
    hide PlanOf, L.Inv;
  }

  lemma Goes(e: State, t: Thread) returns (run: seq<Step>, e': State)
    requires L.Inv(e.locks) && e.jobs.Keys == {t} && e.locks.agents.Keys == {t}
    requires Working(e, t) && e.jobs[t].stage.Over?
    ensures Reaches(e, run, e') && e' == e.(locks := L.Start, jobs := map[])
  {
    var next := Next(e, Conclude(t));
    OneStep(e, Conclude(t));
    L.InvStep(e.locks, L.Finish(t));
    hide L.Inv;
    var rest;
    rest, e' := GivesBack(next, t, next.locks.agents[t].held);
    ReachesOn(e, [Conclude(t)], next, rest, e');
    run := [Conclude(t)] + rest;
  }

  // ---- Serial runs ----

  /** Requests that are approved one after another, each at one moment,
      the first not before `clock`. */
  ghost predicate Orderly(db: Db, clock: int, calls: seq<Call>) {
    calls == [] ||
      var before, last := calls[..|calls| - 1], calls[|calls| - 1];
      && Orderly(db, clock, before)
      && last.when == AtOnce(last.when.stamp)
      && VerdictOn(After(db, before), last.req, last.when).Approve?
      && last.when.stamp >= LastTime(clock, before)
  }

  function LastTime(clock: int, calls: seq<Call>): int {
    if calls == [] then clock else calls[|calls| - 1].when.stamp
  }

  lemma {:induction false} Waits(e: State, until: int) returns (run: seq<Step>)
    requires until >= e.clock
    ensures Reaches(e, run, e.(clock := until))
    decreases until - e.clock
  {
    if until == e.clock {
      run := [];
    } else {
      var rest := Waits(Next(e, Tick), until);
      OneStep(e, Tick);
      ReachesOn(e, [Tick], Next(e, Tick), rest, e.(clock := until));
      run := [Tick] + rest;
    }
  }

  /** Every such serial run is a run of the engine, which ends idle, with these
      requests in its log and their tables. */
  lemma {:induction false} SerialRunIsEngineRun(opening: map<Account, int>, clock: int, calls: seq<Call>)
    returns (run: seq<Step>, e: State)
    requires Orderly(Opening(opening), clock, calls)
    ensures Reaches(Start(opening, clock), run, e) && Idle(e) && e.clock == LastTime(clock, calls)
    ensures e.log == calls && e.db == After(Opening(opening), calls)
    decreases |calls|
  {
    hide Execute, VerdictOn, Enabled, Next;
    if calls == [] {
      run, e := [], Start(opening, clock);
    } else {
      var before, last := calls[..|calls| - 1], calls[|calls| - 1];
      var run0, e0 := SerialRunIsEngineRun(opening, clock, before);
      var run1 := Waits(e0, last.when.stamp);
      var e1 := e0.(clock := last.when.stamp);
      ReachesOn(Start(opening, clock), run0, e0, run1, e1);
      var run2, e2 := LoneRequestCommits(e1, 0, last.req);
      ReachesOn(Start(opening, clock), run0 + run1, e1, run2, e2);
      run, e := run0 + run1 + run2, e2;
      assert before + [last] == calls;
    }
  }
}
