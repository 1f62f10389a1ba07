/** The idempotency table and its gate. */
module Idempotency {
  import opened Options

  type Key = string
  type Body = string

  datatype Status = InProgress | Completed | Failed

  /** `code` is 0 and `body` absent until an answer is stored. */
  datatype Record = Record(status: Status, code: int, body: Option<Body>)

  type Table = map<Key, Record>

  /** What `checkOrRegister` tells its caller.  Raised: an exception other than
      the conflict. */
  datatype Answer = Proceed | Conflict | Replay(code: int, body: Option<Body>) | Raised

  /** Both routes swallow such an exception and go on to the handler. */
  predicate LetsThrough(answer: Answer) {
    answer.Proceed? || answer.Raised?
  }

  /** What may go wrong with the database: no session is free in time, the
      insert fails but not for a duplicate, the lookup fails, the stored body
      does not parse. */
  datatype Fault = NoFault | NoSession | InsertFails | FetchFails | Unreadable

  const Registered := Record(InProgress, 0, None)

  /** The insert of an IN_PROGRESS row; it fails on the primary key when there
      is a row already. */
  function Inserted(table: Table, key: Key): (Table, bool) {
    if key in table then (table, false) else (table[key := Registered], true)
  }

  /** The lookup that follows a duplicate key. */
  function Fetched(table: Table, key: Key): Answer {
    if key !in table then Proceed
    else if table[key].status.InProgress? then Conflict
    else Replay(table[key].code, table[key].body)
  }

  function StatusOf(code: int): Status {
    if 200 <= code < 300 then Completed else Failed
  }

  /** `UPDATE ... WHERE idempotency_key = ?`: no row, no change. */
  function Stored(table: Table, key: Key, code: int, body: Body): Table {
    if key in table then table[key := Record(StatusOf(code), code, Some(body))] else table
  }

  /** `checkOrRegister` with no other request in between. */
  function Gated(table: Table, key: Key, fault: Fault): (Table, Answer) {
    if fault.NoSession? then (table, Raised)
    else if fault.InsertFails? then (table, Proceed)
    else if Inserted(table, key).1 then (Inserted(table, key).0, Proceed)
    else if fault.FetchFails? then (table, Raised)
    else if fault.Unreadable? && Fetched(table, key).Replay? && table[key].body.Some? then (table, Proceed)
    else (table, Fetched(table, key))
  }

  /** The faults on which the gate lets a request through that it does not
      register. */
  predicate OpensOn(table: Table, key: Key, fault: Fault) {
    || fault.NoSession? || fault.InsertFails?
    || (key in table && fault.FetchFails?)
    || (key in table && fault.Unreadable? && !table[key].status.InProgress? && table[key].body.Some?)
  }

  /** With nothing wrong, a new key is registered and goes on, a key in progress
      is a conflict, and any other is answered with what is stored for it. */
  lemma SoundGate(table: Table, key: Key)
    ensures var (after, answer) := Gated(table, key, NoFault);
      && (answer == Proceed <==> key !in table)
      && (answer == Conflict <==> key in table && table[key].status == InProgress)
      && (key in table ==> after == table)
      && (key in table && table[key].status != InProgress ==> answer == Replay(table[key].code, table[key].body))
      && (key !in table ==> after == table[key := Record(InProgress, 0, None)])
  {}

  /** In general, a request goes on iff its key is new or one of those faults
      lets it, and a key is registered iff it is new and none does. */
  lemma GateGoesOnIff(table: Table, key: Key, fault: Fault)
    ensures var (after, answer) := Gated(table, key, fault);
      && (LetsThrough(answer) <==> key !in table || OpensOn(table, key, fault))
      && (after != table <==> key !in table && !fault.NoSession? && !fault.InsertFails?)
      && (answer.Replay? ==> key in table && table[key].status != InProgress
                             && answer == Replay(table[key].code, table[key].body))
  {
    if key !in table { assert key in table[key := Registered]; }
  }

  /** An answer that is stored is the one that later requests get. */
  lemma StoredIsReplayed(table: Table, key: Key, code: int, body: Body)
    requires key in table
    ensures Gated(Stored(table, key, code, body), key, NoFault).1 == Replay(code, Some(body))
    ensures Stored(table, key, code, body)[key].status == Completed <==> 200 <= code <= 299
    ensures Stored(table, key, code, body)[key].status != InProgress
    ensures forall other :: other != key ==>
      (other in Stored(table, key, code, body) <==> other in table)
      && (other in table ==> Stored(table, key, code, body)[other] == table[other])
  {}

  class Gate {
    var records: Table

    constructor ()
      ensures records == map[]
    {
      records := map[];
    }

    method CheckOrRegister(key: Key, fault: Fault) returns (answer: Answer)
      modifies this
      ensures (records, answer) == Gated(old(records), key, fault)
    {
      if fault.NoSession? {
        return Raised;
      }
      if fault.InsertFails? {
        return Proceed;
      }
      if key !in records {
        records := records[key := Registered];
        return Proceed;
      }
      if fault.FetchFails? {
        return Raised;
      }
      var rec := records[key];
      if rec.status.InProgress? {
        return Conflict;
      }
      if rec.body.Some? && fault.Unreadable? {
        return Proceed;
      }
      return Replay(rec.code, rec.body);
    }

    /** A statement that fails is swallowed, a session that is not to be had is
        not. */
    method Update(key: Key, code: int, body: Body, hasSession: bool, works: bool) returns (raised: bool)
      modifies this
      ensures records == if hasSession && works then Stored(old(records), key, code, body) else old(records)
      ensures raised == !hasSession
    {
      if !hasSession {
        return true;
      }
      var status := if code >= 200 && code < 300 then Completed else Failed;
      if works && key in records {
        records := records[key := Record(status, code, Some(body))];
      }
      return false;
    }
  }
}

/** Any number of concurrent requests through the gate, by both routes.  The
    insert, the lookup and the update are separate steps, and each may fail. */
module IdempotencyProtocol {
  import opened Options
  import opened Idempotency

  type Thread = nat

  /** A route made by `registerJsonPost`, or `/transaction/initiate`. */
  datatype Route = JsonPost | Initiate

  /** Arrived: before the gate.  Duplicate: the insert failed, the lookup is
      due.  Admitted: through the gate.  Running: in the handler.  Closing: with
      an answer to store.  Answered: replied. */
  datatype Phase =
    | Arrived
    | Duplicate
    | Admitted
    | Running
    | Closing(code: int, body: Body)
    | Answered(reply: Answer)

  datatype Request = Request(route: Route, key: Key, phase: Phase)

  /** `runs` lists the keys for which a handler was started. */
  datatype State = State(table: Table, requests: map<Thread, Request>, runs: seq<Key>)

  datatype Step =
    | Arrive(t: Thread, route: Route, key: Key)
    | Insert(t: Thread)
    | Fetch(t: Thread)
    | Open(t: Thread)
    | Finish(t: Thread, code: int, body: Body)
    | Run(t: Thread)
    | Return(t: Thread, code: int, body: Body)
    | Throw(t: Thread)
    | Store(t: Thread)
    | StoreFails(t: Thread)

  predicate In(s: State, t: Thread, phase: Phase) {
    t in s.requests && s.requests[t].phase == phase
  }

  predicate InClosing(s: State, t: Thread) {
    t in s.requests && s.requests[t].phase.Closing?
  }

  /** `Open`: a fault lets the request through the gate without registering it.
      `Finish`: `/transaction/initiate` answers without the handler, before the
      gate or after it, or because something threw; it stores that like any
      other answer.  `Throw`: an exception leaves the route with nothing stored,
      on `registerJsonPost` from anywhere after the gate, on
      `/transaction/initiate` only from storing.  `StoreFails`: the update fails
      and the reply goes out. */
  predicate Enabled(s: State, step: Step) {
    match step
    case Arrive(t, _, _) => t !in s.requests
    case Insert(t) => In(s, t, Arrived)
    case Fetch(t) => In(s, t, Duplicate)
    case Open(t) => In(s, t, Arrived) || In(s, t, Duplicate)
    case Finish(t, _, _) => t in s.requests && s.requests[t].route.Initiate?
    case Run(t) => In(s, t, Admitted)
    case Return(t, _, _) => In(s, t, Running)
    case Throw(t) =>
      InClosing(s, t) || ((In(s, t, Admitted) || In(s, t, Running)) && s.requests[t].route.JsonPost?)
    case Store(t) => InClosing(s, t)
    case StoreFails(t) => InClosing(s, t)
  }

  function At(s: State, t: Thread, phase: Phase): State
    requires t in s.requests
  {
    s.(requests := s.requests[t := s.requests[t].(phase := phase)])
  }

  const Thrown := Replay(500, None)

  function Next(s: State, step: Step): State
    requires Enabled(s, step)
  {
    match step
    case Arrive(t, route, key) => s.(requests := s.requests[t := Request(route, key, Arrived)])
    case Insert(t) =>
      var (table, isNew) := Inserted(s.table, s.requests[t].key);
      At(s.(table := table), t, if isNew then Admitted else Duplicate)
    case Fetch(t) =>
      var answer := Fetched(s.table, s.requests[t].key);
      At(s, t, if answer.Proceed? then Admitted else Answered(answer))
    case Open(t) => At(s, t, Admitted)
    case Finish(t, code, body) => At(s, t, Closing(code, body))
    case Run(t) => At(s.(runs := s.runs + [s.requests[t].key]), t, Running)
    case Return(t, code, body) => At(s, t, Closing(code, body))
    case Throw(t) => At(s, t, Answered(Thrown))
    case Store(t) =>
      var phase := s.requests[t].phase;
      At(s.(table := Stored(s.table, s.requests[t].key, phase.code, phase.body)), t,
         Answered(Replay(phase.code, Some(phase.body))))
    case StoreFails(t) =>
      var phase := s.requests[t].phase;
      At(s, t, Answered(Replay(phase.code, Some(phase.body))))
  }

  predicate Reaches(from: State, run: seq<Step>, to: State)
    decreases |run|
  {
    if run == [] then from == to
    else Enabled(from, run[0]) && Reaches(Next(from, run[0]), run[1..], to)
  }

  const Start := State(map[], map[], [])

  lemma {:induction false} Extend(from: State, run: seq<Step>, s: State, step: Step)
    requires Reaches(from, run, s) && Enabled(s, step)
    ensures Reaches(from, run + [step], Next(s, step))
    decreases |run|
  {
    if run == [] {
      assert (run + [step])[1..] == [];
    } else {
      Extend(Next(from, run[0]), run[1..], s, step);
      assert (run + [step])[1..] == run[1..] + [step];
    }
  }

  lemma Then(from: State, run: seq<Step>, s: State, step: Step) returns (run': seq<Step>, s': State)
    requires Reaches(from, run, s) && Enabled(s, step)
    ensures run' == run + [step] && s' == Next(s, step) && Reaches(from, run', s')
  {
    run', s' := run + [step], Next(s, step);
    Extend(from, run, s, step);
  }

  /** The gate of one request, with no other in between, is a run of these
      steps, whatever fails, and it opens on those faults only. */
  lemma GateIsSteps(s: State, t: Thread, fault: Fault) returns (run: seq<Step>)
    requires In(s, t, Arrived)
    ensures (exists i :: 0 <= i < |run| && run[i].Open?) <==> OpensOn(s.table, s.requests[t].key, fault)
    ensures var (table, answer) := Gated(s.table, s.requests[t].key, fault);
      Reaches(s, run, At(s.(table := table), t, if LetsThrough(answer) then Admitted else Answered(answer)))
  {
    var key, s' := s.requests[t].key, s;
    run := [];
    if fault.NoSession? || fault.InsertFails? {
      run, s' := Then(s, run, s', Open(t));
    } else {
      run, s' := Then(s, run, s', Insert(t));
      if key in s.table && LetsThrough(Gated(s.table, key, fault).1) {
        run, s' := Then(s, run, s', Open(t));
      } else if key in s.table {
        run, s' := Then(s, run, s', Fetch(t));
      }
    }
  }

  // ---- How often the handler runs for a key ----

  /** A request with this key passes the gate unregistered. */
  predicate Opens(s: State, step: Step, key: Key) {
    step.Open? && step.t in s.requests && s.requests[step.t].key == key
  }

  function Opened(s: State, run: seq<Step>, key: Key): nat
    decreases |run|
  {
    if run == [] || !Enabled(s, run[0]) then 0
    else (if Opens(s, run[0], key) then 1 else 0) + Opened(Next(s, run[0]), run[1..], key)
  }

  function Runs(runs: seq<Key>, key: Key): nat {
    if runs == [] then 0 else Runs(runs[..|runs| - 1], key) + if runs[|runs| - 1] == key then 1 else 0
  }

  /** `t` may start the handler for `key` now. */
  predicate MayRun(s: State, t: Thread, key: Key) {
    t in s.requests && s.requests[t].key == key && s.requests[t].phase.Admitted?
  }

  function Runners(s: State, key: Key): set<Thread> {
    set t | t in s.requests && MayRun(s, t, key)
  }

  predicate DuplicateIsKnown(s: State) {
    forall t :: t in s.requests && s.requests[t].phase.Duplicate? ==> s.requests[t].key in s.table
  }

  /** What has run and what may run, beyond the one request that registers the
      key. */
  function Excess(s: State, key: Key): int {
    Runs(s.runs, key) + |Runners(s, key)| - if key in s.table then 1 else 0
  }

  lemma SizeWithout(threads: set<Thread>, t: Thread)
    ensures |threads - {t}| == |threads| - if t in threads then 1 else 0
  {
    if t !in threads { assert threads - {t} == threads; }
  }

  lemma OthersRunAsBefore(s: State, step: Step, u: Thread, key: Key)
    requires Enabled(s, step) && u != step.t
    ensures MayRun(Next(s, step), u, key) == MayRun(s, u, key)
  {}

  lemma RunnersStep(s: State, step: Step, key: Key)
    requires Enabled(s, step)
    ensures |Runners(Next(s, step), key)| == |Runners(s, key)|
      - (if MayRun(s, step.t, key) then 1 else 0) + (if MayRun(Next(s, step), step.t, key) then 1 else 0)
  {
    var s' := Next(s, step);
    forall u | u != step.t ensures MayRun(s', u, key) == MayRun(s, u, key) {
      OthersRunAsBefore(s, step, u, key);
    }
    RunnersAreThose(s, key);
    RunnersAreThose(s', key);
    hide Next, Enabled, MayRun, Runners;
    assert Runners(s', key) - {step.t} == Runners(s, key) - {step.t};
    SizeWithout(Runners(s, key), step.t);
    SizeWithout(Runners(s', key), step.t);
  }

  lemma RunnersAreThose(s: State, key: Key)
    ensures forall t :: t in Runners(s, key) <==> MayRun(s, t, key)
  {}

  lemma RunsMore(runs: seq<Key>, added: Key, key: Key)
    ensures Runs(runs + [added], key) == Runs(runs, key) + if added == key then 1 else 0
  {
    assert (runs + [added])[..|runs|] == runs;
  }

  lemma ExcessStep(s: State, step: Step, key: Key)
    requires DuplicateIsKnown(s) && Enabled(s, step)
    ensures DuplicateIsKnown(Next(s, step))
    ensures Excess(Next(s, step), key) <= Excess(s, key) + if Opens(s, step, key) then 1 else 0
  {
    RunnersStep(s, step, key);
    if step.Run? { RunsMore(s.runs, s.requests[step.t].key, key); }
    hide Runners, Runs;
  }

  lemma {:induction false} ExcessRun(s: State, run: seq<Step>, s': State, key: Key)
    requires DuplicateIsKnown(s) && Reaches(s, run, s')
    ensures DuplicateIsKnown(s') && Excess(s', key) <= Excess(s, key) + Opened(s, run, key)
    decreases |run|
  {
    hide Excess, DuplicateIsKnown;
    if run != [] {
      ExcessStep(s, run[0], key);
      ExcessRun(Next(s, run[0]), run[1..], s', key);
    }
  }

  /** However the requests interleave, and by whichever route they come, the
      handler runs at most once for a key, and once more for each request with
      the key that a fault has let through. */
  lemma RunsAreBounded(run: seq<Step>, s: State, key: Key)
    requires Reaches(Start, run, s)
    ensures Runs(s.runs, key) <= 1 + Opened(Start, run, key)
  {
    ExcessRun(Start, run, s, key);
    assert Runners(Start, key) == {};
  }

  /** So at most once where the gate never opens for the key. */
  lemma HandlerRunsOnce(run: seq<Step>, s: State, key: Key)
    requires Reaches(Start, run, s) && Opened(Start, run, key) == 0
    ensures Runs(s.runs, key) <= 1
  {
    RunsAreBounded(run, s, key);
  }

  /** And wherever it may open, the handler may run once more. */
  lemma OpenRunsOnceMore(run: seq<Step>, s: State, t: Thread) returns (run': seq<Step>, s': State)
    requires Reaches(Start, run, s) && (In(s, t, Arrived) || In(s, t, Duplicate))
    ensures run' == run + [Open(t)] + [Run(t)] && Reaches(Start, run', s')
    ensures Runs(s'.runs, s.requests[t].key) == Runs(s.runs, s.requests[t].key) + 1
  {
    run', s' := Then(Start, run, s, Open(t));
    run', s' := Then(Start, run', s', Run(t));
    assert s'.runs[..|s.runs|] == s.runs;
  }

  /** The lookup after a duplicate key always finds the row. */
  lemma RowNeverVanishes(run: seq<Step>, s: State, t: Thread)
    requires Reaches(Start, run, s) && Enabled(s, Fetch(t))
    ensures !Fetched(s.table, s.requests[t].key).Proceed?
  {
    ExcessRun(Start, run, s, s.requests[t].key);
  }

  // ---- Stored answers ----

  /** `t` may still store an answer for `key`. */
  predicate MayStore(s: State, t: Thread, key: Key) {
    && t in s.requests && s.requests[t].key == key
    && (s.requests[t].phase.Admitted? || s.requests[t].phase.Running? || s.requests[t].phase.Closing?)
  }

  /** A request with this key comes to store an answer although it has not been
      registered: a fault lets it through, or `/transaction/initiate` answers it
      before the gate (over the rate limit, with a body that is empty or
      malformed), or something throws after it was answered. */
  predicate Bypasses(s: State, step: Step, key: Key) {
    || Opens(s, step, key)
    || (step.Finish? && step.t in s.requests && s.requests[step.t].key == key && !MayStore(s, step.t, key))
  }

  predicate NoBypass(s: State, run: seq<Step>, key: Key)
    decreases |run|
  {
    run == [] ||
      (Enabled(s, run[0]) && !Bypasses(s, run[0], key) && NoBypass(Next(s, run[0]), run[1..], key))
  }

  predicate HasAnswer(s: State, key: Key) {
    key in s.table && !s.table[key].status.InProgress?
  }

  ghost predicate StoreInv(s: State, key: Key) {
    && (forall t :: MayStore(s, t, key) ==> key in s.table && s.table[key].status.InProgress?)
    && (forall t, u :: MayStore(s, t, key) && MayStore(s, u, key) ==> t == u)
    && (forall t :: t in s.requests && s.requests[t].key == key && s.requests[t].phase.Duplicate? ==> key in s.table)
  }

  lemma StoreStep(s: State, step: Step, key: Key)
    requires StoreInv(s, key) && Enabled(s, step) && !Bypasses(s, step, key)
    ensures StoreInv(Next(s, step), key)
    ensures key in s.table ==> key in Next(s, step).table
    ensures HasAnswer(s, key) ==> Next(s, step).table[key] == s.table[key]
  {
    var s' := Next(s, step);
    if !step.Arrive? && s.requests[step.t].key == key && step.Store? {
      assert MayStore(s, step.t, key);
    }
    forall u | MayStore(s', u, key)
      ensures key in s'.table && s'.table[key].status.InProgress? && forall w :: MayStore(s', w, key) ==> w == u
    {
      assert MayStore(s, u, key) || (step.Insert? && u == step.t && key !in s.table);
      forall w | MayStore(s', w, key) ensures w == u {
        assert MayStore(s, w, key) || (step.Insert? && w == step.t && key !in s.table);
      }
    }
  }

  lemma {:induction false} StoreRun(s: State, run: seq<Step>, s': State, key: Key)
    requires StoreInv(s, key) && Reaches(s, run, s') && NoBypass(s, run, key)
    ensures StoreInv(s', key)
    ensures key in s.table ==> key in s'.table
    ensures HasAnswer(s, key) ==> s'.table[key] == s.table[key]
    decreases |run|
  {
    hide StoreInv, Bypasses;
    if run != [] {
      StoreStep(s, run[0], key);
      StoreRun(Next(s, run[0]), run[1..], s', key);
    }
  }

  /** On both routes: as long as no request with the key bypasses the gate, an
      answer once stored is never changed, and whoever asks again is given
      it. */
  lemma StoredAnswerIsFinal(before: seq<Step>, s: State, after: seq<Step>, s': State, key: Key, t: Thread)
    requires Reaches(Start, before, s) && NoBypass(Start, before, key)
    requires Reaches(s, after, s') && NoBypass(s, after, key) && HasAnswer(s, key)
    ensures HasAnswer(s', key) && s'.table[key] == s.table[key]
    ensures Enabled(s', Fetch(t)) && s'.requests[t].key == key ==>
      Next(s', Fetch(t)).requests[t].phase == Answered(Replay(s.table[key].code, s.table[key].body))
  {
    StoreRun(Start, before, s, key);
    StoreRun(s, after, s', key);
  }

  /** What is stored is what the request that ran the handler replied. */
  lemma StoredIsReplied(run: seq<Step>, s: State, t: Thread)
    requires Reaches(Start, run, s) && Enabled(s, Store(t)) && NoBypass(Start, run, s.requests[t].key)
    ensures var key := s.requests[t].key; var s' := Next(s, Store(t));
      && HasAnswer(s', key)
      && s'.requests[t].phase == Answered(Replay(s'.table[key].code, s'.table[key].body))
  {
    StoreRun(Start, run, s, s.requests[t].key);
    assert MayStore(s, t, s.requests[t].key);
  }

  // ---- Routes of registerJsonPost bypass the gate only when it opens ----

  /** No request with this key comes by `/transaction/initiate`. */
  predicate JsonPostOnly(s: State, key: Key) {
    forall t :: t in s.requests && s.requests[t].key == key ==> s.requests[t].route.JsonPost?
  }

  predicate StepsJsonPostOnly(run: seq<Step>, key: Key) {
    forall i :: 0 <= i < |run| && run[i].Arrive? && run[i].key == key ==> run[i].route.JsonPost?
  }

  lemma {:induction false} JsonPostBypassesByFault(s: State, run: seq<Step>, s': State, key: Key)
    requires JsonPostOnly(s, key) && StepsJsonPostOnly(run, key) && Reaches(s, run, s')
    ensures NoBypass(s, run, key) <==> Opened(s, run, key) == 0
    ensures JsonPostOnly(s', key)
    decreases |run|
  {
    if run != [] {
      JsonPostBypassesByFault(Next(s, run[0]), run[1..], s', key);
    }
  }

  /** So keys that only those routes see keep their answers as long as the gate
      never opens for them. */
  lemma JsonPostAnswerIsFinal(before: seq<Step>, s: State, after: seq<Step>, s': State, key: Key)
    requires Reaches(Start, before, s) && StepsJsonPostOnly(before, key) && Opened(Start, before, key) == 0
    requires Reaches(s, after, s') && StepsJsonPostOnly(after, key) && Opened(s, after, key) == 0
    requires HasAnswer(s, key)
    ensures HasAnswer(s', key) && s'.table[key] == s.table[key]
  {
    JsonPostBypassesByFault(Start, before, s, key);
    JsonPostBypassesByFault(s, after, s', key);
    StoreRun(Start, before, s, key);
    StoreRun(s, after, s', key);
  }

  // ---- What a bypass does ----

  /** In any reachable state with a stored answer, a request that is answered
      outside the gate changes it iff its own answer differs. */
  lemma EarlyExitRewritesIff(run: seq<Step>, s: State, t: Thread, code: int, body: Body)
    returns (run': seq<Step>, s': State)
    requires Reaches(Start, run, s) && t in s.requests && s.requests[t].route.Initiate?
    requires HasAnswer(s, s.requests[t].key) && Bypasses(s, Finish(t, code, body), s.requests[t].key)
    ensures run' == run + [Finish(t, code, body)] + [Store(t)] && Reaches(Start, run', s')
    ensures var key := s.requests[t].key;
      && HasAnswer(s', key) && s'.table[key] == Record(StatusOf(code), code, Some(body))
      && (s'.table[key] == s.table[key] <==> Record(StatusOf(code), code, Some(body)) == s.table[key])
  {
    run', s' := Then(Start, run, s, Finish(t, code, body));
    run', s' := Then(Start, run', s', Store(t));
  }

  /** So does one that a fault lets through, on either route, and it runs the
      handler once more. */
  lemma OpenRewritesIff(run: seq<Step>, s: State, t: Thread, code: int, body: Body)
    returns (run': seq<Step>, s': State)
    requires Reaches(Start, run, s) && (In(s, t, Arrived) || In(s, t, Duplicate)) && HasAnswer(s, s.requests[t].key)
    ensures run' == run + [Open(t)] + [Run(t)] + [Return(t, code, body)] + [Store(t)] && Reaches(Start, run', s')
    ensures s'.runs == s.runs + [s.requests[t].key]
    ensures var key := s.requests[t].key;
      && HasAnswer(s', key) && s'.table[key] == Record(StatusOf(code), code, Some(body))
      && (s'.table[key] == s.table[key] <==> Record(StatusOf(code), code, Some(body)) == s.table[key])
  {
    run', s' := Then(Start, run, s, Open(t));
    run', s' := Then(Start, run', s', Run(t));
    run', s' := Then(Start, run', s', Return(t, code, body));
    run', s' := Then(Start, run', s', Store(t));
  }

  /** A request that is answered and stored. */
  function Payment(route: Route, key: Key): seq<Step> {
    [Arrive(0, route, key)] + [Insert(0)] + [Run(0)] + [Return(0, 200, "paid")] + [Store(0)]
  }

  lemma Returned(route: Route, key: Key) returns (run: seq<Step>, s: State)
    ensures run == [Arrive(0, route, key)] + [Insert(0)] + [Run(0)] + [Return(0, 200, "paid")]
    ensures Reaches(Start, run, s)
    ensures s == State(map[key := Registered], map[0 := Request(route, key, Closing(200, "paid"))], [key])
  {
    run, s := [], Start;
    run, s := Then(Start, run, s, Arrive(0, route, key));
    run, s := Then(Start, run, s, Insert(0));
    run, s := Then(Start, run, s, Run(0));
    run, s := Then(Start, run, s, Return(0, 200, "paid"));
  }

  lemma Paid(route: Route, key: Key) returns (s: State)
    ensures Reaches(Start, Payment(route, key), s) && s.runs == [key] && 1 !in s.requests
    ensures HasAnswer(s, key) && s.table[key] == Record(Completed, 200, Some("paid"))
  {
    var run: seq<Step>;
    run, s := Returned(route, key);
    run, s := Then(Start, run, s, Store(0));
  }

  /** There is such a state: a second request with the key is over the rate
      limit, and the answer to the payment is lost. */
  lemma StoredAnswerIsLost(key: Key) returns (s: State, s': State)
    ensures Reaches(Start, Payment(Initiate, key), s)
    ensures HasAnswer(s, key) && s.table[key] == Record(Completed, 200, Some("paid"))
    ensures
      Reaches(Start, Payment(Initiate, key) + [Arrive(1, Initiate, key)] + [Finish(1, 429, "limit")] + [Store(1)], s')
    ensures HasAnswer(s', key) && s'.table[key] == Record(Failed, 429, Some("limit"))
  {
    s := Paid(Initiate, key);
    hide Payment;
    var run, mid := Then(Start, Payment(Initiate, key), s, Arrive(1, Initiate, key));
    run, s' := EarlyExitRewritesIff(run, mid, 1, 429, "limit");
  }

  /** And one on either route: no session is free when the second request
      comes, its handler runs too, and the first answer is lost. */
  lemma HandlerRunsTwice(route: Route, key: Key) returns (run: seq<Step>, s: State)
    ensures run == Payment(route, key) + [Arrive(1, route, key)] + [Open(1)] + [Run(1)]
      + [Return(1, 200, "paid again")] + [Store(1)]
    ensures Reaches(Start, run, s) && s.runs == [key, key]
    ensures HasAnswer(s, key) && s.table[key] == Record(Completed, 200, Some("paid again"))
  {
    var paid := Paid(route, key);
    hide Payment;
    run, s := Then(Start, Payment(route, key), paid, Arrive(1, route, key));
    run, s := OpenRewritesIff(run, s, 1, 200, "paid again");
  }

  // ---- Answers that are not stored ----

  /** The key is registered, not answered, and nobody is left to answer it. */
  ghost predicate Stuck(s: State, key: Key) {
    && key in s.table && s.table[key].status.InProgress?
    && forall t :: !MayStore(s, t, key)
  }

  /** A request with this key ends with nothing stored: something throws, or the
      update fails. */
  predicate Loses(s: State, step: Step, key: Key) {
    (step.Throw? || step.StoreFails?) && step.t in s.requests && s.requests[step.t].key == key
  }

  predicate EverLoses(s: State, run: seq<Step>, key: Key)
    decreases |run|
  {
    run != [] && Enabled(s, run[0]) && (Loses(s, run[0], key) || EverLoses(Next(s, run[0]), run[1..], key))
  }

  lemma StuckStep(s: State, step: Step, key: Key)
    requires Stuck(s, key) && Enabled(s, step) && !Bypasses(s, step, key)
    ensures Stuck(Next(s, step), key)
  {
    var s' := Next(s, step);
    if step.Store? { assert s.requests[step.t].key == key ==> MayStore(s, step.t, key); }
    forall u ensures !MayStore(s', u, key) {
      assert u != step.t && MayStore(s', u, key) ==> MayStore(s, u, key);
      assert u == step.t && u in s.requests ==> !MayStore(s, u, key);
    }
  }

  /** Whoever asks for a key that is stuck is refused: 409, for good. */
  lemma {:induction false} StuckForGood(s: State, run: seq<Step>, s': State, key: Key, t: Thread)
    requires Stuck(s, key) && Reaches(s, run, s') && NoBypass(s, run, key)
    ensures Stuck(s', key)
    ensures Enabled(s', Fetch(t)) && s'.requests[t].key == key ==>
      Next(s', Fetch(t)).requests[t].phase == Answered(Conflict)
    decreases |run|
  {
    if run != [] {
      StuckStep(s, run[0], key);
      StuckForGood(Next(s, run[0]), run[1..], s', key, t);
    }
  }

  lemma LossLeavesStuck(s: State, step: Step, key: Key)
    requires StoreInv(s, key) && Enabled(s, step) && Loses(s, step, key)
    ensures Stuck(Next(s, step), key)
  {
    assert MayStore(s, step.t, key);
    forall u ensures !MayStore(Next(s, step), u, key) {
      if MayStore(Next(s, step), u, key) { assert MayStore(s, u, key); }
    }
  }

  lemma {:induction false} LostIsStuck(s: State, run: seq<Step>, s': State, key: Key)
    requires StoreInv(s, key) && Reaches(s, run, s') && NoBypass(s, run, key) && EverLoses(s, run, key)
    ensures Stuck(s', key)
    decreases |run|
  {
    hide StoreInv, Stuck, Bypasses;
    if Loses(s, run[0], key) {
      LossLeavesStuck(s, run[0], key);
      StuckForGood(Next(s, run[0]), run[1..], s', key, 0);
    } else {
      StoreStep(s, run[0], key);
      LostIsStuck(Next(s, run[0]), run[1..], s', key);
    }
  }

  /** A key in progress is in somebody's hands. */
  ghost predicate Served(s: State, key: Key) {
    key in s.table && s.table[key].status.InProgress? ==> exists t :: MayStore(s, t, key)
  }

  lemma ServedStep(s: State, step: Step, key: Key)
    requires Served(s, key) && Enabled(s, step) && !Loses(s, step, key)
    ensures Served(Next(s, step), key)
  {
    var s' := Next(s, step);
    if key in s'.table && s'.table[key].status.InProgress? {
      if key in s.table && s.table[key].status.InProgress? {
        var t :| MayStore(s, t, key);
        assert MayStore(s', t, key);
      } else {
        assert MayStore(s', step.t, key);
      }
    }
  }

  lemma {:induction false} ServedRun(s: State, run: seq<Step>, s': State, key: Key)
    requires Served(s, key) && Reaches(s, run, s') && !EverLoses(s, run, key)
    ensures Served(s', key)
    decreases |run|
  {
    hide Served;
    if run != [] {
      ServedStep(s, run[0], key);
      ServedRun(Next(s, run[0]), run[1..], s', key);
    }
  }

  /** Nothing but a request that throws or fails to store leaves a key stuck, on
      either route and with bypasses or without. */
  lemma StuckMeansLost(run: seq<Step>, s: State, key: Key)
    requires Reaches(Start, run, s) && Stuck(s, key)
    ensures EverLoses(Start, run, key)
  {
    if !EverLoses(Start, run, key) {
      ServedRun(Start, run, s, key);
    }
  }

  /** While no bypass stores an answer in its place, a key is stuck iff a
      request for it has thrown or failed to store. */
  lemma StuckIffLost(run: seq<Step>, s: State, key: Key)
    requires Reaches(Start, run, s) && NoBypass(Start, run, key)
    ensures Stuck(s, key) <==> EverLoses(Start, run, key)
  {
    if EverLoses(Start, run, key) {
      LostIsStuck(Start, run, s, key);
    } else if Stuck(s, key) {
      StuckMeansLost(run, s, key);
    }
  }

  /** A handler can throw, on the routes of `registerJsonPost`. */
  lemma ThrowingRun(key: Key) returns (run: seq<Step>, s: State)
    ensures Reaches(Start, run, s) && EverLoses(Start, run, key) && Stuck(s, key)
    ensures run == [Arrive(0, JsonPost, key)] + [Insert(0)] + [Run(0)] + [Throw(0)]
  {
    run, s := [], Start;
    run, s := Then(Start, run, s, Arrive(0, JsonPost, key));
    run, s := Then(Start, run, s, Insert(0));
    run, s := Then(Start, run, s, Run(0));
    run, s := Then(Start, run, s, Throw(0));
    StuckMeansLost(run, s, key);
  }

  /** And an update can fail, on every route: the answer goes out, and the key
      is stuck. */
  lemma FailedStoreRun(route: Route, key: Key) returns (run: seq<Step>, s: State)
    ensures Reaches(Start, run, s) && EverLoses(Start, run, key) && Stuck(s, key)
    ensures run == [Arrive(0, route, key)] + [Insert(0)] + [Run(0)] + [Return(0, 200, "paid")] + [StoreFails(0)]
    ensures In(s, 0, Answered(Replay(200, Some("paid"))))
  {
    run, s := Returned(route, key);
    run, s := Then(Start, run, s, StoreFails(0));
    StuckMeansLost(run, s, key);
  }
}
