/** What the lock invariant gives: mutual exclusion, credit priority, freedom
    from deadlock, and the draining of every queue once arrivals stop. */
module LockProgress {
  import opened AccountOrder
  import opened LockTable
  import opened Options
  import opened LockProtocol
  import opened MapSum

  ghost predicate Reachable(s: System) {
    exists run :: Reaches(Start, run, s)
  }

  lemma ReachableInv(s: System)
    requires Reachable(s)
    ensures Inv(s)
  {
    var run :| Reaches(Start, run, s);
    InvStart();
    InvRun(Start, run, s);
  }

  /** A lock has at most one owner, a ready waiter counting as one. */
  lemma MutualExclusion(s: System, t: Thread, u: Thread, a: Account)
    requires Reachable(s) && t in s.agents && u in s.agents
    requires Owns(s.agents[t], a) && Owns(s.agents[u], a)
    ensures t == u
  {
    ReachableInv(s);
    assert AccountInv(s, a);
    assert t in Owners(s.agents, a) && u in Owners(s.agents, a);
  }

  /** The table lists an account exactly while someone owns it, it is locked
      then, and nobody waits for an account that nobody owns. */
  lemma EntryMeansOwned(s: System, a: Account)
    requires Reachable(s)
    ensures a in s.table <==> exists t :: t in s.agents && Owns(s.agents[t], a)
    ensures a in s.table <==> StateOf(s.table, a).isLocked
    ensures (exists t :: t in s.agents && Waits(s.agents[t], a)) ==> a in s.table
  {
    ReachableInv(s);
    assert AccountInv(s, a);
    if a in s.table {
      var t :| Owners(s.agents, a) == {t};
      assert t in Owners(s.agents, a);
    } else {
      forall t | t in s.agents ensures !Owns(s.agents[t], a) && !Waits(s.agents[t], a) {
        assert t !in Owners(s.agents, a);
        if Waits(s.agents[t], a) { WaitsInQueue(s.agents, t, a); }
      }
    }
  }

  /** The counters are the owner and the waiters of each kind. */
  lemma CountersCount(s: System, a: Account)
    requires Reachable(s)
    ensures StateOf(s.table, a).activeCredits == |set t | t in s.agents && Engaged(s.agents[t], a, Credit)|
    ensures StateOf(s.table, a).activeDebits == |set t | t in s.agents && Engaged(s.agents[t], a, Debit)|
    ensures forall t, p :: t in s.agents && Engaged(s.agents[t], a, p) ==> Owns(s.agents[t], a) || Waits(s.agents[t], a)
  {
    ReachableInv(s);
    assert AccountInv(s, a);
    assert Parties(s.agents, a, Credit) == set t | t in s.agents && Engaged(s.agents[t], a, Credit);
    assert Parties(s.agents, a, Debit) == set t | t in s.agents && Engaged(s.agents[t], a, Debit);
  }

  /** `acquire` waits iff the account is locked: an active credit always means
      a locked account, so the second half of the guard never decides. */
  lemma GuardIsLock(s: System, a: Account, p: TxnPriority)
    requires Reachable(s)
    ensures StateOf(s.table, a).activeCredits > 0 ==> StateOf(s.table, a).isLocked
    ensures ShouldWait(Counted(StateOf(s.table, a), p, 1), p) <==> StateOf(s.table, a).isLocked
  {
    ReachableInv(s);
    assert AccountInv(s, a);
  }

  /** A step that gives a lock to a debit finds no credit waiting for it. */
  lemma CreditsFirst(s: System, step: Step, u: Thread, a: Account)
    requires Reachable(s) && Enabled(s, step)
    requires u in Next(s, step).agents && Owns(Next(s, step).agents[u], a)
    requires u !in s.agents || !Owns(s.agents[u], a)
    requires Engaged(Next(s, step).agents[u], a, Debit)
    ensures forall w :: w in Waiters(s.agents, a) ==> w.priority.Debit?
  {
    ReachableInv(s);
    CreditsFirstUnder(s, step, u, a);
  }

  lemma CreditsFirstUnder(s: System, step: Step, u: Thread, a: Account)
    requires Inv(s) && Enabled(s, step)
    requires u in Next(s, step).agents && Owns(Next(s, step).agents[u], a)
    requires u !in s.agents || !Owns(s.agents[u], a)
    requires Engaged(Next(s, step).agents[u], a, Debit)
    ensures forall w :: w in Waiters(s.agents, a) ==> w.priority.Debit?
  {
    assert AccountInv(s, a);
    InvStep(s, step);
    var s' := Next(s, step);
    match step
    case Request(t) =>
    case Release(t, next) => ReleaseGrants(s, t, next, u, a);
    case _ =>
  }

  lemma ReleaseGrants(s: System, t: Thread, next: Option<WaitNode>, u: Thread, a: Account)
    requires Inv(s) && Enabled(s, Release(t, next))
    requires u in s.agents && !Owns(s.agents[u], a)
    requires Owns(Next(s, Release(t, next)).agents[u], a) && Engaged(Next(s, Release(t, next)).agents[u], a, Debit)
    ensures forall w :: w in Waiters(s.agents, a) ==> w.priority.Debit?
  {
    var released := s.agents[t].plan[s.agents[t].held - 1].account;
    var g := s.agents[u];
    var h := Next(s, Release(t, next)).agents[u];
    assert AccountInv(s, released);
    assert next.Some? && next.value.thread == u;
    WaiterIs(s.agents, released, next.value);
    MovedElsewhere(g, h, g.held);
    assert a == released;
    WhileHanded(h);
    assert next.value.priority.Debit?;
  }

  // ---- Deadlock ----

  ghost predicate IsBlocked(s: System, t: Thread) {
    t in s.agents && s.agents[t].mode.Blocked? && s.agents[t].held < |s.agents[t].plan|
  }

  /** The account a blocked thread waits for. */
  ghost function Target(s: System, t: Thread): Account
    requires IsBlocked(s, t)
  {
    s.agents[t].plan[s.agents[t].held].account
  }

  /** The wait-for graph: `t` waits for a lock that `u` owns. */
  ghost predicate WaitsFor(s: System, t: Thread, u: Thread) {
    IsBlocked(s, t) && u in s.agents && Owns(s.agents[u], Target(s, t))
  }

  ghost predicate WaitPath(s: System, path: seq<Thread>) {
    forall i :: 0 <= i < |path| - 1 ==> WaitsFor(s, path[i], path[i + 1])
  }

  /** Along an edge between two blocked threads the awaited account grows. */
  lemma TargetGrows(s: System, t: Thread, u: Thread)
    requires Inv(s) && WaitsFor(s, t, u) && IsBlocked(s, u)
    ensures Less(Target(s, t), Target(s, u))
  {
    var g := s.agents[u];
    var i :| 0 <= i < Grip(g) && i < |g.plan| && g.plan[i].account == Target(s, t);
    assert i < g.held;
    var grows := Less(g.plan[i].account, g.plan[g.held].account);
  }

  lemma {:induction false} PathGrows(s: System, path: seq<Thread>)
    requires Inv(s) && |path| >= 2 && WaitPath(s, path)
    requires IsBlocked(s, path[|path| - 1])
    ensures IsBlocked(s, path[0]) && Less(Target(s, path[0]), Target(s, path[|path| - 1]))
    decreases |path|
  {
    assert WaitsFor(s, path[0], path[1]);
    if |path| == 2 {
      TargetGrows(s, path[0], path[1]);
    } else {
      var rest := path[1..];
      forall i | 0 <= i < |rest| - 1 ensures WaitsFor(s, rest[i], rest[i + 1]) {
        assert WaitsFor(s, path[i + 1], path[i + 2]);
      }
      PathGrows(s, rest);
      TargetGrows(s, path[0], path[1]);
      LessTransitive(Target(s, path[0]), Target(s, path[1]), Target(s, path[|path| - 1]));
    }
  }

  /** No thread waits for itself, directly or through others. */
  lemma NoDeadlockCycle(s: System, path: seq<Thread>)
    requires Reachable(s) && |path| >= 2 && WaitPath(s, path)
    ensures path[0] != path[|path| - 1]
  {
    ReachableInv(s);
    assert WaitsFor(s, path[0], path[1]);
    if path[0] == path[|path| - 1] {
      PathGrows(s, path);
      LessIrreflexive(Target(s, path[0]));
    }
  }

  ghost function BlockedBeyond(s: System, a: Account): set<Thread> {
    set t | t in s.agents && IsBlocked(s, t) && Less(a, Target(s, t))
  }

  lemma {:induction false} FollowToOwner(s: System, t: Thread) returns (path: seq<Thread>)
    requires Inv(s) && IsBlocked(s, t)
    ensures PathToRunner(s, t, path)
    decreases |BlockedBeyond(s, Target(s, t))|
  {
    var a := Target(s, t);
    assert AccountInv(s, a);
    WaitsInQueue(s.agents, t, a);
    var u :| Owners(s.agents, a) == {u};
    assert u in Owners(s.agents, a);
    assert WaitsFor(s, t, u);
    if s.agents[u].mode.Blocked? {
      TargetGrows(s, t, u);
      BeyondShrinks(s, a, u);
      var rest := FollowToOwner(s, u);
      path := [t] + rest;
      forall i | 0 <= i < |path| - 1 ensures WaitsFor(s, path[i], path[i + 1]) {
        if i > 0 { assert WaitsFor(s, rest[i - 1], rest[i]); }
      }
    } else {
      path := [t, u];
    }
  }

  lemma BeyondShrinks(s: System, a: Account, u: Thread)
    requires IsBlocked(s, u) && Less(a, Target(s, u))
    ensures |BlockedBeyond(s, Target(s, u))| < |BlockedBeyond(s, a)|
  {
    var b := Target(s, u);
    LessIrreflexive(b);
    forall t | t in BlockedBeyond(s, b) ensures t in BlockedBeyond(s, a) {
      LessTransitive(a, b, Target(s, t));
    }
    assert u in BlockedBeyond(s, a) && u !in BlockedBeyond(s, b);
    ProperSubsetIsSmaller(BlockedBeyond(s, b), BlockedBeyond(s, a));
  }

  lemma ProperSubsetIsSmaller(small: set<Thread>, big: set<Thread>)
    requires small < big
    ensures |small| < |big|
  {
    assert big == small + (big - small);
  }

  ghost predicate PathToRunner(s: System, t: Thread, path: seq<Thread>) {
    && |path| >= 2 && path[0] == t && WaitPath(s, path)
    && path[|path| - 1] in s.agents && !s.agents[path[|path| - 1]].mode.Blocked?
  }

  /** Whoever waits waits, in the end, for an owner that is not waiting. */
  lemma SomeOwnerRuns(s: System, t: Thread)
    requires Reachable(s) && IsBlocked(s, t)
    ensures exists path :: PathToRunner(s, t, path)
  {
    ReachableInv(s);
    var path := FollowToOwner(s, t);
  }

  // ---- Draining ----

  /** A step of a thread that is not blocked. */
  lemma RunnerHasAStep(s: System, t: Thread) returns (step: Step)
    requires Inv(s) && t in s.agents && !s.agents[t].mode.Blocked?
    ensures Enabled(s, step) && !step.Arrive? && step.t == t
  {
    var g := s.agents[t];
    match g.mode
    case Climbing => step := if g.held < |g.plan| then Request(t) else Finish(t);
    case Handed => step := Wake(t);
    case Unwinding =>
      if g.held == 0 {
        step := Leave(t);
      } else {
        var waiters := StateOf(s.table, g.plan[g.held - 1].account).waiters;
        if waiters == {} {
          step := Release(t, None);
        } else {
          var node := BestWaiter(waiters);
          step := Release(t, Some(node));
        }
      }
  }

  lemma BestWaiter(waiters: set<WaitNode>) returns (node: WaitNode)
    requires waiters != {}
    ensures node in waiters && forall w :: w in waiters ==> Rank(node.priority) <= Rank(w.priority)
  {
    if w :| w in waiters && w.priority.Credit? {
      node := w;
    } else {
      node :| node in waiters;
    }
  }

  /** While any thread is left, some thread can move. */
  lemma NeverStuck(s: System)
    requires Reachable(s) && s.agents != map[]
    ensures exists step: Step :: Enabled(s, step) && !step.Arrive?
  {
    ReachableInv(s);
    var t :| t in s.agents;
    if s.agents[t].mode.Blocked? {
      var path := FollowToOwner(s, t);
      t := path[|path| - 1];
    }
    var step := RunnerHasAStep(s, t);
  }

  /** The steps a thread may still take. */
  function Remaining(g: Agent): int {
    var n := |g.plan|;
    match g.mode
    case Climbing => 3 * (n - g.held) + n + 2
    case Blocked => 3 * (n - g.held) + n + 1
    case Handed => 3 * (n - g.held) + n
    case Unwinding => g.held + 1
  }

  ghost function Budget(agents: Agents): map<Thread, int> {
    map t | t in agents :: Remaining(agents[t])
  }

  ghost function Load(agents: Agents): int {
    Sum(Budget(agents))
  }

  lemma LoadOfUpdate(agents: Agents, t: Thread, g: Agent)
    requires t in agents
    ensures Load(agents[t := g]) == Load(agents) - Remaining(agents[t]) + Remaining(g)
  {
    SumUpdate(Budget(agents), t, Remaining(g));
    assert Budget(agents[t := g]) == Budget(agents)[t := Remaining(g)];
  }

  lemma LoadOfLeaver(agents: Agents, t: Thread)
    requires t in agents
    ensures Load(agents - {t}) == Load(agents) - Remaining(agents[t])
  {
    SumSplit(Budget(agents), t);
    assert Budget(agents - {t}) == Budget(agents) - {t};
  }

  lemma LoadIsNatural(agents: Agents)
    requires forall t :: t in agents ==> WellFormed(agents[t])
    ensures Load(agents) >= 0
  {
    forall t | t in agents ensures Remaining(agents[t]) >= 0 {
      assert WellFormed(agents[t]);
    }
    SumNatural(Budget(agents));
  }

  lemma StepSpendsLoad(s: System, step: Step)
    requires Inv(s) && Enabled(s, step) && !step.Arrive?
    ensures Load(Next(s, step).agents) < Load(s.agents)
  {
    match step
    case Request(t) => LoadOfUpdate(s.agents, t, Next(s, step).agents[t]);
    case Wake(t) => LoadOfUpdate(s.agents, t, Next(s, step).agents[t]);
    case Finish(t) => LoadOfUpdate(s.agents, t, Next(s, step).agents[t]);
    case Leave(t) => LoadOfLeaver(s.agents, t);
    case Release(t, next) => ReleaseSpendsLoad(s, t, next);
  }

  lemma ReleaseSpendsLoad(s: System, t: Thread, next: Option<WaitNode>)
    requires Inv(s) && Enabled(s, Release(t, next))
    ensures Load(Next(s, Release(t, next)).agents) < Load(s.agents)
  {
    var g := s.agents[t];
    var a := g.plan[g.held - 1].account;
    var mid := s.agents[t := g.(held := g.held - 1)];
    LoadOfUpdate(s.agents, t, g.(held := g.held - 1));
    if next.Some? {
      assert AccountInv(s, a);
      WaiterIs(s.agents, a, next.value);
      LoadOfUpdate(mid, next.value.thread, mid[next.value.thread].(mode := Handed));
    }
  }

  /** A run without arrivals is no longer than the load it started with. */
  lemma {:induction false} RunsAreBounded(s: System, run: seq<Step>, s': System)
    requires Inv(s) && Reaches(s, run, s')
    requires forall i :: 0 <= i < |run| ==> !run[i].Arrive?
    ensures |run| + Load(s'.agents) <= Load(s.agents)
    decreases |run|
  {
    if run != [] {
      InvStep(s, run[0]);
      StepSpendsLoad(s, run[0]);
      RunsAreBounded(Next(s, run[0]), run[1..], s');
    }
  }

  lemma {:induction false} ReachesOn(s: System, run: seq<Step>, mid: System, more: seq<Step>, s': System)
    requires Reaches(s, run, mid) && Reaches(mid, more, s')
    ensures Reaches(s, run + more, s')
    decreases |run|
  {
    if run == [] {
      assert run + more == more;
    } else {
      ReachesOn(Next(s, run[0]), run[1..], mid, more, s');
      assert (run + more)[1..] == run[1..] + more;
    }
  }

  /** Once arrivals stop, every run ends within a fixed number of steps, and
      where it can go no further no thread waits and no lock is held. */
  lemma Drains(s: System, run: seq<Step>, s': System)
    requires Reachable(s) && Reaches(s, run, s')
    requires forall i :: 0 <= i < |run| ==> !run[i].Arrive?
    ensures |run| <= Load(s.agents)
    ensures (forall step: Step :: Enabled(s', step) ==> step.Arrive?) ==> s'.agents == map[] && s'.table == map[]
  {
    ReachableInv(s);
    RunsAreBounded(s, run, s');
    var before :| Reaches(Start, before, s);
    ReachesOn(Start, before, s, run, s');
    InvRun(s, run, s');
    LoadIsNatural(s'.agents);
    if s'.agents != map[] {
      NeverStuck(s');
    } else {
      forall a ensures a !in s'.table {
        assert AccountInv(s', a);
        assert Owners(s'.agents, a) == {};
      }
    }
  }
}
