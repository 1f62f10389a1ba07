/** Any number of threads that take account locks in account order and give
    them back in reverse: the mobile channel with its two locks, every other
    channel with one.  A thread between two of its steps can be overtaken by
    any step of any other thread. */
module LockProtocol {
  import opened AccountOrder
  import opened LockTable
  import opened Options

  datatype Claim = Claim(account: Account, priority: TxnPriority)

  ghost predicate Ordered(plan: seq<Claim>) {
    forall i, j {:trigger Less(plan[i].account, plan[j].account)} ::
      0 <= i < j < |plan| ==> Less(plan[i].account, plan[j].account)
  }

  /** The locks of a transfer, in the order in which they are taken. */
  function TransferPlan(debit: Account, credit: Account): seq<Claim> {
    if Less(debit, credit) then [Claim(debit, Debit), Claim(credit, Credit)]
    else if Less(credit, debit) then [Claim(credit, Credit), Claim(debit, Debit)]
    else [Claim(debit, Debit)]
  }

  /** Climbing: taking locks or at work.  Blocked: asleep in `acquire`.
      Handed: its node is ready but the thread has not run yet.
      Unwinding: giving locks back. */
  datatype Mode = Climbing | Blocked | Handed | Unwinding

  datatype Agent = Agent(plan: seq<Claim>, held: nat, mode: Mode)

  type Agents = map<Thread, Agent>

  datatype System = System(table: Table, agents: Agents)

  datatype Step =
    | Arrive(t: Thread, plan: seq<Claim>)
    | Request(t: Thread)
    | Wake(t: Thread)
    | Finish(t: Thread)
    | Release(t: Thread, next: Option<WaitNode>)
    | Leave(t: Thread)

  function Hand(agents: Agents, next: Option<WaitNode>): Agents {
    if next.Some? && next.value.thread in agents
    then agents[next.value.thread := agents[next.value.thread].(mode := Handed)]
    else agents
  }

  ghost predicate Enabled(s: System, step: Step) {
    match step
    case Arrive(t, plan) => t !in s.agents && Ordered(plan)
    case Request(t) => t in s.agents && s.agents[t].mode.Climbing? && s.agents[t].held < |s.agents[t].plan|
    case Wake(t) => t in s.agents && s.agents[t].mode.Handed?
    case Finish(t) => t in s.agents && s.agents[t].mode.Climbing? && s.agents[t].held == |s.agents[t].plan|
    case Release(t, next) =>
      && t in s.agents && s.agents[t].mode.Unwinding? && 0 < s.agents[t].held <= |s.agents[t].plan|
      && OnTop(s.table, s.agents[t].plan[s.agents[t].held - 1].account, next)
    case Leave(t) => t in s.agents && s.agents[t].mode.Unwinding? && s.agents[t].held == 0
  }

  ghost function Next(s: System, step: Step): System
    requires Enabled(s, step)
  {
    match step
    case Arrive(t, plan) => s.(agents := s.agents[t := Agent(plan, 0, Climbing)])
    case Request(t) =>
      var g := s.agents[t];
      var claim := g.plan[g.held];
      var (table, granted) := Enter(s.table, claim.account, claim.priority, t);
      System(table, s.agents[t := if granted then g.(held := g.held + 1) else g.(mode := Blocked)])
    case Wake(t) =>
      var g := s.agents[t];
      s.(agents := s.agents[t := g.(held := g.held + 1, mode := Climbing)])
    case Finish(t) => s.(agents := s.agents[t := s.agents[t].(mode := Unwinding)])
    case Release(t, next) =>
      var g := s.agents[t];
      var claim := g.plan[g.held - 1];
      System(Exit(s.table, claim.account, claim.priority, next),
             Hand(s.agents[t := g.(held := g.held - 1)], next))
    case Leave(t) => s.(agents := s.agents - {t})
  }

  /** Reachable from the empty lock table by the steps in `run`. */
  ghost predicate Reaches(from: System, run: seq<Step>, to: System)
    decreases |run|
  {
    if run == [] then from == to
    else Enabled(from, run[0]) && Reaches(Next(from, run[0]), run[1..], to)
  }

  const Start := System(map[], map[])

  // ---- What the table has to do with the threads ----

  /** How many locks of its plan a thread owns: a node that is ready already
      owns its lock. */
  function Grip(g: Agent): nat {
    if g.mode.Handed? then g.held + 1 else g.held
  }

  /** How many locks of its plan a thread has asked for. */
  function Reach(g: Agent): nat {
    if g.mode.Handed? || g.mode.Blocked? then g.held + 1 else g.held
  }

  ghost predicate WellFormed(g: Agent) {
    Ordered(g.plan) && Reach(g) <= |g.plan|
  }

  ghost predicate Owns(g: Agent, a: Account) {
    exists i :: 0 <= i < Grip(g) && i < |g.plan| && g.plan[i].account == a
  }

  ghost predicate Waits(g: Agent, a: Account) {
    g.mode.Blocked? && g.held < |g.plan| && g.plan[g.held].account == a
  }

  ghost predicate Engaged(g: Agent, a: Account, p: TxnPriority) {
    exists i :: 0 <= i < Reach(g) && i < |g.plan| && g.plan[i] == Claim(a, p)
  }

  ghost function Owners(agents: Agents, a: Account): set<Thread> {
    set t | t in agents && Owns(agents[t], a)
  }

  ghost function Waiters(agents: Agents, a: Account): set<WaitNode> {
    set t | t in agents && Waits(agents[t], a) :: WaitNode(t, agents[t].plan[agents[t].held].priority)
  }

  ghost function Parties(agents: Agents, a: Account, p: TxnPriority): set<Thread> {
    set t | t in agents && Engaged(agents[t], a, p)
  }

  /** Everyone an account has to do with. */
  datatype Crowd = Crowd(owners: set<Thread>, waiters: set<WaitNode>, credits: set<Thread>, debits: set<Thread>)

  ghost function CrowdOf(agents: Agents, a: Account): Crowd {
    Crowd(Owners(agents, a), Waiters(agents, a), Parties(agents, a, Credit), Parties(agents, a, Debit))
  }

  /** One account: an entry exists iff someone owns or waits; it is locked and
      has one owner; the counters count owner and waiters of each kind; the
      queue holds exactly the threads that wait. */
  ghost predicate Matches(table: Table, a: Account, crowd: Crowd) {
    var st := StateOf(table, a);
    && st.waiters == crowd.waiters
    && st.activeCredits == |crowd.credits|
    && st.activeDebits == |crowd.debits|
    && if a in table then st.isLocked && exists t :: crowd.owners == {t} else crowd.owners == {}
  }

  ghost predicate AccountInv(s: System, a: Account) {
    Matches(s.table, a, CrowdOf(s.agents, a))
  }

  ghost predicate Inv(s: System) {
    && (forall t :: t in s.agents ==> WellFormed(s.agents[t]))
    && (forall a :: AccountInv(s, a))
  }

  // ---- Every step keeps it ----

  /** Membership in the three sets when thread `t` is set to `g`, by the
      threads other than `t` and by `t` itself. */
  lemma Redrawn(agents: Agents, t: Thread, g: Agent, a: Account)
    ensures Owners(agents[t := g], a) == Owners(agents - {t}, a) + if Owns(g, a) then {t} else {}
    ensures Waiters(agents[t := g], a) == Waiters(agents - {t}, a) + Queued(t, g, a)
    ensures Parties(agents[t := g], a, Credit) ==
            Parties(agents - {t}, a, Credit) + if Engaged(g, a, Credit) then {t} else {}
    ensures Parties(agents[t := g], a, Debit) ==
            Parties(agents - {t}, a, Debit) + if Engaged(g, a, Debit) then {t} else {}
  {
    var all, rest := agents[t := g], agents - {t};
    forall w: WaitNode ensures w in Waiters(all, a) <==> w in Waiters(rest, a) + Queued(t, g, a) {
      if w in Waiters(rest, a) {
        assert w.thread in all && all[w.thread] == rest[w.thread];
      }
      if w in Waiters(all, a) && w.thread != t {
        assert w.thread in rest;
      }
      if w in Queued(t, g, a) {
        assert all[t] == g;
      }
    }
  }

  ghost function Queued(t: Thread, g: Agent, a: Account): set<WaitNode> {
    if Waits(g, a) then {WaitNode(t, g.plan[g.held].priority)} else {}
  }

  /** As `Redrawn`, for a thread as it stands. */
  lemma Drawn(agents: Agents, t: Thread, a: Account)
    requires t in agents
    ensures Owners(agents, a) == Owners(agents - {t}, a) + if Owns(agents[t], a) then {t} else {}
    ensures Waiters(agents, a) == Waiters(agents - {t}, a) + Queued(t, agents[t], a)
    ensures Parties(agents, a, Credit) ==
            Parties(agents - {t}, a, Credit) + if Engaged(agents[t], a, Credit) then {t} else {}
    ensures Parties(agents, a, Debit) ==
            Parties(agents - {t}, a, Debit) + if Engaged(agents[t], a, Debit) then {t} else {}
  {
    assert agents == agents[t := agents[t]];
    Redrawn(agents, t, agents[t], a);
  }

  /** An agent as every account other than its current one sees it. */
  ghost predicate Alike(g: Agent, h: Agent, a: Account) {
    && (Owns(g, a) <==> Owns(h, a))
    && (Waits(g, a) <==> Waits(h, a))
    && (Waits(g, a) ==> g.plan[g.held].priority == h.plan[h.held].priority)
    && (forall p :: Engaged(g, a, p) <==> Engaged(h, a, p))
  }

  lemma AlikeKeepsAccount(s: System, t: Thread, g: Agent, a: Account, s': System)
    requires AccountInv(s, a) && t in s.agents && Alike(s.agents[t], g, a)
    requires s'.agents == s.agents[t := g]
    requires a in s.table <==> a in s'.table
    requires StateOf(s.table, a) == StateOf(s'.table, a)
    ensures AccountInv(s', a)
  {
    Drawn(s.agents, t, a);
    Redrawn(s.agents, t, g, a);
  }

  // ---- One thread's view of an account, before and after a move ----

  ghost predicate AlikeElsewhere(g: Agent, h: Agent, a: Account) {
    forall b :: b != a ==> Alike(g, h, b)
  }

  ghost predicate Absent(g: Agent, a: Account) {
    !Owns(g, a) && !Waits(g, a) && !Engaged(g, a, Credit) && !Engaged(g, a, Debit)
  }

  ghost predicate EngagedAs(g: Agent, claim: Claim) {
    && (Engaged(g, claim.account, Credit) <==> claim.priority.Credit?)
    && (Engaged(g, claim.account, Debit) <==> claim.priority.Debit?)
  }

  ghost predicate OwnerOf(g: Agent, claim: Claim) {
    Owns(g, claim.account) && !Waits(g, claim.account) && EngagedAs(g, claim)
  }

  ghost predicate WaiterOf(g: Agent, claim: Claim) {
    !Owns(g, claim.account) && Waits(g, claim.account) && EngagedAs(g, claim)
  }

  /** A plan names an account once. */
  lemma ClaimedOnce(plan: seq<Claim>, i: nat)
    requires Ordered(plan) && i < |plan|
    ensures forall j :: 0 <= j < |plan| && plan[j].account == plan[i].account ==> j == i
  {
    forall j | 0 <= j < |plan| && plan[j].account == plan[i].account ensures j == i {
      LessIrreflexive(plan[i].account);
      var once := Less(plan[i].account, plan[j].account);
    }
  }

  lemma BeforeAsking(g: Agent)
    requires Ordered(g.plan) && g.held < |g.plan| && Reach(g) == g.held
    ensures Absent(g, g.plan[g.held].account)
  {
    ClaimedOnce(g.plan, g.held);
  }

  lemma AfterGrant(g: Agent)
    requires Ordered(g.plan) && 0 < g.held <= |g.plan| && Reach(g) == g.held
    ensures OwnerOf(g, g.plan[g.held - 1])
  {
    ClaimedOnce(g.plan, g.held - 1);
    assert g.plan[g.held - 1] == Claim(g.plan[g.held - 1].account, g.plan[g.held - 1].priority);
  }

  lemma WhileBlocked(g: Agent)
    requires Ordered(g.plan) && g.held < |g.plan| && g.mode.Blocked?
    ensures WaiterOf(g, g.plan[g.held])
  {
    ClaimedOnce(g.plan, g.held);
    assert g.plan[g.held] == Claim(g.plan[g.held].account, g.plan[g.held].priority);
  }

  lemma WhileHanded(g: Agent)
    requires Ordered(g.plan) && g.held < |g.plan| && g.mode.Handed?
    ensures OwnerOf(g, g.plan[g.held])
  {
    ClaimedOnce(g.plan, g.held);
    assert g.plan[g.held] == Claim(g.plan[g.held].account, g.plan[g.held].priority);
  }

  /** Two stages of one thread that differ by the claim at `i` only. */
  lemma MovedElsewhere(g: Agent, h: Agent, i: nat)
    requires g.plan == h.plan && i < |g.plan|
    requires i <= Grip(g) <= i + 1 && i <= Grip(h) <= i + 1
    requires i <= Reach(g) <= i + 1 && i <= Reach(h) <= i + 1
    requires g.mode.Blocked? ==> g.held == i
    requires h.mode.Blocked? ==> h.held == i
    ensures AlikeElsewhere(g, h, g.plan[i].account)
  {
    forall b | b != g.plan[i].account ensures Alike(g, h, b) {
      forall p ensures Engaged(g, b, p) <==> Engaged(h, b, p) {}
    }
  }

  // ---- Preservation, step by step ----

  lemma InvRequest(s: System, t: Thread)
    requires Inv(s) && Enabled(s, Request(t))
    ensures Inv(Next(s, Request(t)))
  {
    var s' := Next(s, Request(t));
    var g := s.agents[t];
    MovedElsewhere(g, s'.agents[t], g.held);
    assert AccountInv(s, g.plan[g.held].account);
    RequestedHere(s, t);
    forall a ensures AccountInv(s', a) {
      assert AccountInv(s, a);
      if a != g.plan[g.held].account {
        AlikeKeepsAccount(s, t, s'.agents[t], a, s');
      }
    }
  }

  lemma RequestedHere(s: System, t: Thread)
    requires Enabled(s, Request(t)) && WellFormed(s.agents[t])
    requires AccountInv(s, s.agents[t].plan[s.agents[t].held].account)
    ensures AccountInv(Next(s, Request(t)), s.agents[t].plan[s.agents[t].held].account)
  {
    var g := s.agents[t];
    var claim := g.plan[g.held];
    var a := claim.account;
    var s' := Next(s, Request(t));
    if a in s.table {
      SleptCrowd(s.agents, t);
      QueuedEntry(s.table, a, CrowdOf(s.agents, a), CrowdOf(s'.agents, a), t, claim.priority);
    } else {
      GrantedCrowd(s.agents, t);
      GrantedEntry(s.table, a, CrowdOf(s.agents, a),
                   CrowdOf(s.agents[t := g.(held := g.held + 1)], a), t, claim.priority);
    }
  }

  /** `t` on the side of its claim. */
  ghost predicate Joined(crowd: Crowd, crowd': Crowd, t: Thread, p: TxnPriority) {
    && t !in crowd.credits && t !in crowd.debits
    && crowd'.credits == crowd.credits + (if p.Credit? then {t} else {})
    && crowd'.debits == crowd.debits + (if p.Debit? then {t} else {})
  }

  ghost predicate JoinedAsOwner(crowd: Crowd, crowd': Crowd, t: Thread, p: TxnPriority) {
    && Joined(crowd, crowd', t, p)
    && t !in crowd.owners && crowd'.owners == crowd.owners + {t}
    && crowd'.waiters == crowd.waiters
  }

  ghost predicate JoinedAsWaiter(crowd: Crowd, crowd': Crowd, t: Thread, p: TxnPriority) {
    && Joined(crowd, crowd', t, p)
    && crowd'.owners == crowd.owners
    && crowd'.waiters == crowd.waiters + {WaitNode(t, p)}
  }

  ghost predicate Promoted(crowd: Crowd, crowd': Crowd, node: WaitNode) {
    && crowd'.owners == crowd.owners + {node.thread}
    && crowd'.waiters == crowd.waiters - {node}
    && crowd'.credits == crowd.credits && crowd'.debits == crowd.debits
  }

  /** The free lock: the request is granted and an entry is made. */
  lemma GrantedEntry(table: Table, a: Account, crowd: Crowd, crowd': Crowd, t: Thread, p: TxnPriority)
    requires Matches(table, a, crowd) && a !in table && JoinedAsOwner(crowd, crowd', t, p)
    ensures Enter(table, a, p, t).1 && Matches(Enter(table, a, p, t).0, a, crowd')
  {
    assert crowd'.owners == {t};
  }

  /** The taken lock: the request joins the queue. */
  lemma QueuedEntry(table: Table, a: Account, crowd: Crowd, crowd': Crowd, t: Thread, p: TxnPriority)
    requires Matches(table, a, crowd) && a in table && JoinedAsWaiter(crowd, crowd', t, p)
    ensures !Enter(table, a, p, t).1 && Matches(Enter(table, a, p, t).0, a, crowd')
  {}

  /** With no waiter the last party leaves and the entry goes: `release` never
      ends with an entry that is not locked. */
  lemma VacatedEntry(table: Table, a: Account, crowd: Crowd, crowd': Crowd, t: Thread, p: TxnPriority)
    requires Matches(table, a, crowd) && JoinedAsOwner(crowd', crowd, t, p)
    requires crowd'.credits == {} && crowd'.debits == {} && crowd.waiters == {}
    ensures a in table && a !in Exit(table, a, p, None) && Matches(Exit(table, a, p, None), a, crowd')
  {
    assert t in crowd.owners;
    assert crowd'.owners == {};
  }

  /** With a waiter the lock passes to the best one without ever being free. */
  lemma HandedEntry(table: Table, a: Account, crowd: Crowd, mid: Crowd, crowd': Crowd, t: Thread, p: TxnPriority,
                    node: WaitNode)
    requires Matches(table, a, crowd) && JoinedAsOwner(mid, crowd, t, p) && Promoted(mid, crowd', node)
    ensures Matches(Exit(table, a, p, Some(node)), a, crowd')
  {
    assert t in crowd.owners;
    assert crowd'.owners == {node.thread};
  }

  lemma GrantedCrowd(agents: Agents, t: Thread)
    requires t in agents && WellFormed(agents[t])
    requires agents[t].mode.Climbing? && agents[t].held < |agents[t].plan|
    ensures var claim := agents[t].plan[agents[t].held];
      JoinedAsOwner(CrowdOf(agents, claim.account),
                    CrowdOf(agents[t := agents[t].(held := agents[t].held + 1)], claim.account), t, claim.priority)
  {
    var g := agents[t];
    var h := g.(held := g.held + 1);
    BeforeAsking(g);
    AfterGrant(h);
    hide Owns, Waits, Engaged, Ordered;
    Drawn(agents, t, g.plan[g.held].account);
    Redrawn(agents, t, h, g.plan[g.held].account);
  }

  lemma SleptCrowd(agents: Agents, t: Thread)
    requires t in agents && WellFormed(agents[t])
    requires agents[t].mode.Climbing? && agents[t].held < |agents[t].plan|
    ensures var claim := agents[t].plan[agents[t].held];
      JoinedAsWaiter(CrowdOf(agents, claim.account),
                     CrowdOf(agents[t := agents[t].(mode := Blocked)], claim.account), t, claim.priority)
  {
    var g := agents[t];
    var h := g.(mode := Blocked);
    BeforeAsking(g);
    WhileBlocked(h);
    hide Owns, Waits, Engaged, Ordered;
    Drawn(agents, t, g.plan[g.held].account);
    Redrawn(agents, t, h, g.plan[g.held].account);
  }

  lemma InvAtRest(s: System, t: Thread, g: Agent, s': System)
    requires Inv(s) && t in s.agents && WellFormed(g)
    requires forall a :: Alike(s.agents[t], g, a)
    requires s' == s.(agents := s.agents[t := g])
    ensures Inv(s')
  {
    forall a ensures AccountInv(s', a) {
      assert AccountInv(s, a);
      AlikeKeepsAccount(s, t, g, a, s');
    }
  }

  lemma InvWake(s: System, t: Thread)
    requires Inv(s) && Enabled(s, Wake(t))
    ensures Inv(Next(s, Wake(t)))
  {
    var g := s.agents[t];
    var h := g.(held := g.held + 1, mode := Climbing);
    forall a ensures Alike(g, h, a) {
      forall p ensures Engaged(g, a, p) <==> Engaged(h, a, p) {}
    }
    InvAtRest(s, t, h, Next(s, Wake(t)));
  }

  lemma InvFinish(s: System, t: Thread)
    requires Inv(s) && Enabled(s, Finish(t))
    ensures Inv(Next(s, Finish(t)))
  {
    var g := s.agents[t];
    var h := g.(mode := Unwinding);
    forall a ensures Alike(g, h, a) {
      forall p ensures Engaged(g, a, p) <==> Engaged(h, a, p) {}
    }
    InvAtRest(s, t, h, Next(s, Finish(t)));
  }

  lemma InvArrive(s: System, t: Thread, plan: seq<Claim>)
    requires Inv(s) && Enabled(s, Arrive(t, plan))
    ensures Inv(Next(s, Arrive(t, plan)))
  {
    forall a ensures AccountInv(Next(s, Arrive(t, plan)), a) {
      assert AccountInv(s, a);
      NewcomerSets(s.agents, t, plan, a);
    }
  }

  lemma NewcomerSets(agents: Agents, t: Thread, plan: seq<Claim>, a: Account)
    requires t !in agents
    ensures var agents' := agents[t := Agent(plan, 0, Climbing)];
      && Owners(agents', a) == Owners(agents, a)
      && Waiters(agents', a) == Waiters(agents, a)
      && Parties(agents', a, Credit) == Parties(agents, a, Credit)
      && Parties(agents', a, Debit) == Parties(agents, a, Debit)
  {
    Redrawn(agents, t, Agent(plan, 0, Climbing), a);
    assert agents - {t} == agents;
  }

  lemma InvLeave(s: System, t: Thread)
    requires Inv(s) && Enabled(s, Leave(t))
    ensures Inv(Next(s, Leave(t)))
  {
    var s' := Next(s, Leave(t));
    forall a ensures AccountInv(s', a) {
      assert AccountInv(s, a);
      Drawn(s.agents, t, a);
    }
  }

  /** Whoever counts on an account owns it or waits for it. */
  lemma PartiesOwnOrWait(g: Agent, a: Account, p: TxnPriority)
    requires Engaged(g, a, p)
    ensures Owns(g, a) || Waits(g, a)
  {}

  lemma InvRelease(s: System, t: Thread, next: Option<WaitNode>)
    requires Inv(s) && Enabled(s, Release(t, next))
    ensures Inv(Next(s, Release(t, next)))
  {
    var g := s.agents[t];
    var a := g.plan[g.held - 1].account;
    var s' := Next(s, Release(t, next));
    assert AccountInv(s, a);
    if next.Some? {
      WaiterIs(s.agents, a, next.value);
      PassedOn(s.table, s.agents, t, g.plan[g.held - 1], next.value);
    } else {
      GivenUp(s.table, s.agents, t, g.plan[g.held - 1]);
    }
    forall b ensures AccountInv(s', b) {
      if b != a {
        assert AccountInv(s, b);
        ReleasedElsewhere(s, t, next, b);
      }
    }
  }

  lemma ReleasedElsewhere(s: System, t: Thread, next: Option<WaitNode>, b: Account)
    requires Enabled(s, Release(t, next))
    requires WellFormed(s.agents[t]) && b != s.agents[t].plan[s.agents[t].held - 1].account
    requires next.Some? ==>
      && next.value.thread in s.agents && WellFormed(s.agents[next.value.thread])
      && Waits(s.agents[next.value.thread], s.agents[t].plan[s.agents[t].held - 1].account)
    requires AccountInv(s, b)
    ensures AccountInv(Next(s, Release(t, next)), b)
  {
    var g := s.agents[t];
    var h := g.(held := g.held - 1);
    var s' := Next(s, Release(t, next));
    var mid := System(s'.table, s.agents[t := h]);
    MovedElsewhere(g, h, h.held);
    AlikeKeepsAccount(s, t, h, b, mid);
    if next.Some? {
      var u := next.value.thread;
      MovedElsewhere(mid.agents[u], s'.agents[u], mid.agents[u].held);
      AlikeKeepsAccount(mid, u, s'.agents[u], b, s');
    }
  }

  lemma WaiterIs(agents: Agents, a: Account, node: WaitNode)
    requires node in Waiters(agents, a)
    ensures node.thread in agents && Waits(agents[node.thread], a)
    ensures node.priority == agents[node.thread].plan[agents[node.thread].held].priority
  {}

  lemma PassedOn(table: Table, agents: Agents, t: Thread, claim: Claim, node: WaitNode)
    requires t in agents && WellFormed(agents[t]) && agents[t].mode.Unwinding? && agents[t].held > 0
    requires claim == agents[t].plan[agents[t].held - 1]
    requires node.thread in agents && node.thread != t && WellFormed(agents[node.thread])
    requires Matches(table, claim.account, CrowdOf(agents, claim.account))
    requires node in CrowdOf(agents, claim.account).waiters
    ensures Matches(Exit(table, claim.account, claim.priority, Some(node)), claim.account,
      CrowdOf(Hand(agents[t := agents[t].(held := agents[t].held - 1)], Some(node)), claim.account))
  {
    var a := claim.account;
    var mid := agents[t := agents[t].(held := agents[t].held - 1)];
    DroppedCrowd(agents, t);
    HandedCrowd(mid, node, a);
    HandedEntry(table, a, CrowdOf(agents, a), CrowdOf(mid, a), CrowdOf(Hand(mid, Some(node)), a),
                t, claim.priority, node);
  }

  lemma GivenUp(table: Table, agents: Agents, t: Thread, claim: Claim)
    requires t in agents && WellFormed(agents[t]) && agents[t].mode.Unwinding? && agents[t].held > 0
    requires claim == agents[t].plan[agents[t].held - 1]
    requires Matches(table, claim.account, CrowdOf(agents, claim.account))
    requires CrowdOf(agents, claim.account).waiters == {}
    ensures Matches(Exit(table, claim.account, claim.priority, None), claim.account,
      CrowdOf(agents[t := agents[t].(held := agents[t].held - 1)], claim.account))
  {
    var a := claim.account;
    var mid := agents[t := agents[t].(held := agents[t].held - 1)];
    DroppedCrowd(agents, t);
    LastOwner(table, a, CrowdOf(agents, a), CrowdOf(mid, a), t, claim.priority);
    NoParties(mid, a);
    VacatedEntry(table, a, CrowdOf(agents, a), CrowdOf(mid, a), t, claim.priority);
  }

  lemma LastOwner(table: Table, a: Account, crowd: Crowd, crowd': Crowd, t: Thread, p: TxnPriority)
    requires Matches(table, a, crowd) && JoinedAsOwner(crowd', crowd, t, p)
    ensures crowd'.owners == {}
  {
    assert t in crowd.owners;
  }

  lemma DroppedCrowd(agents: Agents, t: Thread)
    requires t in agents && WellFormed(agents[t])
    requires agents[t].mode.Unwinding? && agents[t].held > 0
    ensures var claim := agents[t].plan[agents[t].held - 1];
      JoinedAsOwner(CrowdOf(agents[t := agents[t].(held := agents[t].held - 1)], claim.account),
                    CrowdOf(agents, claim.account), t, claim.priority)
  {
    var g := agents[t];
    var h := g.(held := g.held - 1);
    AfterGrant(g);
    BeforeAsking(h);
    hide Owns, Waits, Engaged, Ordered;
    Drawn(agents, t, g.plan[h.held].account);
    Redrawn(agents, t, h, g.plan[h.held].account);
  }

  lemma NoParties(agents: Agents, a: Account)
    requires CrowdOf(agents, a).owners == {} && CrowdOf(agents, a).waiters == {}
    ensures CrowdOf(agents, a).credits == {} && CrowdOf(agents, a).debits == {}
  {
    forall u | u in agents ensures !Engaged(agents[u], a, Credit) && !Engaged(agents[u], a, Debit) {
      assert u !in Owners(agents, a);
      if Waits(agents[u], a) {
        WaitsInQueue(agents, u, a);
      }
      forall p | Engaged(agents[u], a, p) ensures false {
        PartiesOwnOrWait(agents[u], a, p);
      }
    }
  }

  lemma WaitsInQueue(agents: Agents, u: Thread, a: Account)
    requires u in agents && Waits(agents[u], a)
    ensures Waiters(agents, a) != {}
  {
    assert WaitNode(u, agents[u].plan[agents[u].held].priority) in Waiters(agents, a);
  }

  lemma HandedCrowd(agents: Agents, node: WaitNode, a: Account)
    requires node.thread in agents && WellFormed(agents[node.thread]) && node in Waiters(agents, a)
    ensures Promoted(CrowdOf(agents, a), CrowdOf(Hand(agents, Some(node)), a), node)
  {
    var g := agents[node.thread];
    var h := g.(mode := Handed);
    WaiterIs(agents, a, node);
    WhileBlocked(g);
    WhileHanded(h);
    Drawn(agents, node.thread, a);
    Redrawn(agents, node.thread, h, a);
  }

  lemma InvStep(s: System, step: Step)
    requires Inv(s) && Enabled(s, step)
    ensures Inv(Next(s, step))
  {
    match step
    case Arrive(t, plan) => InvArrive(s, t, plan);
    case Request(t) => InvRequest(s, t);
    case Wake(t) => InvWake(s, t);
    case Finish(t) => InvFinish(s, t);
    case Release(t, next) => InvRelease(s, t, next);
    case Leave(t) => InvLeave(s, t);
  }

  lemma {:induction false} InvRun(s: System, run: seq<Step>, s': System)
    requires Inv(s) && Reaches(s, run, s')
    ensures Inv(s')
    decreases |run|
  {
    if run != [] {
      InvStep(s, run[0]);
      InvRun(Next(s, run[0]), run[1..], s');
    }
  }

  lemma InvStart()
    ensures Inv(Start)
  {
    forall a ensures AccountInv(Start, a) {
      assert Owners(Start.agents, a) == {} && Waiters(Start.agents, a) == {};
      assert Parties(Start.agents, a, Credit) == {} && Parties(Start.agents, a, Debit) == {};
    }
  }
}
