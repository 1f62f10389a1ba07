/** The table behind `AccountLockManager`: one entry for each account that is
    locked or awaited, with its owner flag, its two counters and its waiters.

    A waiter is a node on the stack of the thread that waits, so it is named
    here by that thread.  The priority queue is a set: `top()` returns some
    waiter of the best priority and promises no order among equals. */
module LockTable {
  import opened AccountOrder
  import opened Options

  type Thread = nat

  datatype TxnPriority = Credit | Debit

  datatype WaitNode = WaitNode(thread: Thread, priority: TxnPriority)

  datatype AccountState = AccountState(
    activeCredits: int,
    activeDebits: int,
    isLocked: bool,
    waiters: set<WaitNode>)

  type Table = map<Account, AccountState>

  const Vacant := AccountState(0, 0, false, {})

  function StateOf(table: Table, account: Account): AccountState {
    if account in table then table[account] else Vacant
  }

  function Counted(st: AccountState, prio: TxnPriority, change: int): AccountState {
    if prio.Credit? then st.(activeCredits := st.activeCredits + change)
    else st.(activeDebits := st.activeDebits + change)
  }

  /** The guard of `acquire`, read after the caller has counted itself. */
  predicate ShouldWait(st: AccountState, prio: TxnPriority) {
    st.isLocked || (prio.Debit? && st.activeCredits > 0)
  }

  /** `acquire` up to the point where it returns or blocks. */
  function Enter(table: Table, account: Account, prio: TxnPriority, self: Thread): (Table, bool) {
    var st := Counted(StateOf(table, account), prio, 1);
    if ShouldWait(st, prio) then
      (table[account := st.(waiters := st.waiters + {WaitNode(self, prio)})], false)
    else
      (table[account := st.(isLocked := true)], true)
  }

  function Rank(prio: TxnPriority): int {
    if prio.Credit? then 0 else 1
  }

  /** `next` is a waiter the priority queue of this account may have on top;
      it is absent when the queue is empty. */
  ghost predicate OnTop(table: Table, account: Account, next: Option<WaitNode>) {
    var waiters := StateOf(table, account).waiters;
    match next
    case None => waiters == {}
    case Some(node) => node in waiters && forall w :: w in waiters ==> Rank(node.priority) <= Rank(w.priority)
  }

  /** `release`, where `next` is the waiter that is popped, if any. */
  function Exit(table: Table, account: Account, prio: TxnPriority, next: Option<WaitNode>): Table {
    if account !in table then table
    else
      var st := Counted(table[account], prio, -1);
      match next
      case Some(node) => table[account := st.(waiters := st.waiters - {node})]
      case None =>
        if st.activeCredits == 0 && st.activeDebits == 0 then table - {account}
        else table[account := st.(isLocked := false)]
  }

  class AccountLockManager {
    var states: Table

    constructor ()
      ensures states == map[]
    {
      states := map[];
    }

    method Acquire(account: Account, prio: TxnPriority, self: Thread) returns (granted: bool)
      modifies this
      ensures (states, granted) == Enter(old(states), account, prio, self)
    {
      var state := Vacant;
      if account in states {
        state := states[account];
      }
      if prio.Credit? {
        state := state.(activeCredits := state.activeCredits + 1);
      } else {
        state := state.(activeDebits := state.activeDebits + 1);
      }
      var shouldWait := state.isLocked || (prio.Debit? && state.activeCredits > 0);
      if !shouldWait {
        states := states[account := state.(isLocked := true)];
        return true;
      }
      states := states[account := state.(waiters := state.waiters + {WaitNode(self, prio)})];
      return false;
    }

    method Release(account: Account, prio: TxnPriority) returns (woken: Option<WaitNode>)
      modifies this
      ensures OnTop(old(states), account, woken)
      ensures states == Exit(old(states), account, prio, woken)
    {
      woken := None;
      if account in states {
        var state := states[account];
        if prio.Credit? {
          state := state.(activeCredits := state.activeCredits - 1);
        } else {
          state := state.(activeDebits := state.activeDebits - 1);
        }
        if state.waiters != {} {
          var nextNode := Top(state.waiters);
          state := state.(waiters := state.waiters - {nextNode});
          states := states[account := state];
          woken := Some(nextNode);
        } else {
          state := state.(isLocked := false);
          states := states[account := state];
          if state.activeCredits == 0 && state.activeDebits == 0 {
            states := states - {account};
          }
        }
      }
    }
  }

  /** `waiters.top()`. */
  method Top(waiters: set<WaitNode>) returns (node: WaitNode)
    requires waiters != {}
    ensures node in waiters
    ensures forall w :: w in waiters ==> Rank(node.priority) <= Rank(w.priority)
  {
    node :| node in waiters;
    var rest := waiters - {node};
    while rest != {}
      invariant node in waiters && rest <= waiters
      invariant forall w :: w in waiters - rest ==> Rank(node.priority) <= Rank(w.priority)
      decreases rest
    {
      var other :| other in rest;
      if Rank(other.priority) < Rank(node.priority) {
        node := other;
      }
      rest := rest - {other};
    }
  }
}
