/** The pool of database sessions: a queue of free sessions and a vector of
    slots.  A session is named by a number that is never used again. */
module SessionPool {
  import opened Options

  type Session = nat

  /** Replaces the first slot that holds `stale`. */
  function Reslotted(slots: seq<Option<Session>>, stale: Session, healed: Option<Session>): seq<Option<Session>> {
    if slots == [] then []
    else if slots[0] == Some(stale) then [healed] + slots[1..]
    else [slots[0]] + Reslotted(slots[1..], stale, healed)
  }

  lemma SlotOrNext(slots: seq<Option<Session>>, i: nat, stale: Session, healed: Option<Session>)
    requires i < |slots|
    ensures slots[i] == Some(stale) ==>
      slots[..i] + Reslotted(slots[i..], stale, healed) == slots[i := healed]
    ensures slots[i] != Some(stale) ==>
      slots[..i] + Reslotted(slots[i..], stale, healed) == slots[..i + 1] + Reslotted(slots[i + 1..], stale, healed)
  {
    assert slots[i..][1..] == slots[i + 1..];
    if slots[i] == Some(stale) {
      assert slots[i := healed] == slots[..i] + ([healed] + slots[i + 1..]);
    } else {
      assert slots[..i + 1] == slots[..i] + [slots[i]];
    }
  }

  class Database {
    var freeConnections: seq<Session>
    var allConnections: seq<Option<Session>>

    /** `initPool`: `created` are the sessions that could be opened. */
    constructor (created: seq<Session>)
      ensures freeConnections == created
      ensures allConnections == seq(|created|, i requires 0 <= i < |created| => Some(created[i]))
    {
      freeConnections := created;
      allConnections := seq(|created|, i requires 0 <= i < |created| => Some(created[i]));
    }

    /** `acquire` up to the health check, and `tryAcquire` as a whole; nothing
        when the queue is empty, for `acquire` after its timeout. */
    method TryAcquire() returns (s: Option<Session>)
      modifies this`freeConnections
      ensures old(freeConnections) == [] ==> s == None && freeConnections == []
      ensures old(freeConnections) != [] ==>
        s == Some(old(freeConnections)[0]) && freeConnections == old(freeConnections)[1..]
    {
      if freeConnections == [] {
        return None;
      }
      s := Some(freeConnections[0]);
      freeConnections := freeConnections[1..];
    }

    /** The slot of a stale session, after the heal: the new session or null. */
    method Reslot(stale: Session, healed: Option<Session>)
      modifies this`allConnections
      ensures allConnections == Reslotted(old(allConnections), stale, healed)
    {
      var i := 0;
      while i < |allConnections|
        invariant 0 <= i <= |allConnections| && allConnections == old(allConnections)
        invariant Reslotted(allConnections, stale, healed) ==
          allConnections[..i] + Reslotted(allConnections[i..], stale, healed)
      {
        hide Reslotted;
        SlotOrNext(allConnections, i, stale, healed);
        if allConnections[i] == Some(stale) {
          allConnections := allConnections[i := healed];
          return;
        }
        i := i + 1;
      }
      assert allConnections[..i] == allConnections;
    }

    method Release(session: Option<Session>)
      modifies this`freeConnections
      ensures freeConnections == old(freeConnections) + if session.Some? then [session.value] else []
    {
      if session.None? {
        return;
      }
      freeConnections := freeConnections + [session.value];
    }
  }
}

/** Any number of threads that take and give back sessions, some through
    `ScopedConnection`. */
module SessionProtocol {
  import opened Options
  import opened SessionPool

  type Holder = nat

  /** Where a session is.  Checking: popped by `acquire`, not yet handed out.
      Healing: closed and deleted, its slot not yet set.  Loose: with a caller
      that owes one `release`.  Held: in a `ScopedConnection`. */
  datatype Place = Free | Checking | Healing | Loose | Held(holder: Holder)

  datatype Pool = Pool(
    free: seq<Session>,
    slots: seq<Option<Session>>,
    holders: map<Holder, Option<Session>>,
    place: map<Session, Place>,
    next: Session,
    lost: nat)

  datatype Step =
    | Acquire
    | PingOk(s: Session)
    | Stale(s: Session)
    | HealOk(s: Session)
    | HealFail(s: Session)
    | TryAcquire
    | Release(s: Session)
    | Wrap(h: Holder, s: Session)
    | MoveTo(h: Holder, source: Holder)
    | MoveAssign(h: Holder, source: Holder)
    | Destroy(h: Holder)

  predicate Is(p: Pool, s: Session, at: Place) {
    s in p.place && p.place[s] == at
  }

  predicate Enabled(p: Pool, step: Step) {
    match step
    case Acquire => p.free != []
    case PingOk(s) => Is(p, s, Checking)
    case Stale(s) => Is(p, s, Checking)
    case HealOk(s) => Is(p, s, Healing)
    case HealFail(s) => Is(p, s, Healing)
    case TryAcquire => p.free != []
    case Release(s) => Is(p, s, Loose)
    case Wrap(h, s) => Is(p, s, Loose) && h !in p.holders
    case MoveTo(h, source) => h !in p.holders && source in p.holders
    case MoveAssign(h, source) => h in p.holders && source in p.holders
    case Destroy(h) => h in p.holders
  }

  function Popped(p: Pool, at: Place): Pool
    requires p.free != []
  {
    p.(free := p.free[1..], place := p.place[p.free[0] := at])
  }

  function Placed(p: Pool, s: Session, at: Place): Pool {
    p.(place := p.place[s := at])
  }

  /** `release`, which drops a null. */
  function Returned(p: Pool, s: Option<Session>): Pool {
    if s.None? then p else p.(free := p.free + [s.value], place := p.place[s.value := Free])
  }

  /** `session_` goes from `source` to `h`, and `source` is left null. */
  function Moved(p: Pool, h: Holder, source: Holder): Pool
    requires source in p.holders
  {
    var s := p.holders[source];
    p.(holders := p.holders[h := s][source := None],
       place := if s.Some? then p.place[s.value := Held(h)] else p.place)
  }

  function Next(p: Pool, step: Step): Pool
    requires Enabled(p, step)
  {
    match step
    case Acquire => Popped(p, Checking)
    case PingOk(s) => Placed(p, s, Loose)
    case Stale(s) => Placed(p, s, Healing)
    case HealOk(s) =>
      p.(slots := Reslotted(p.slots, s, Some(p.next)), place := (p.place - {s})[p.next := Loose], next := p.next + 1)
    case HealFail(s) => p.(slots := Reslotted(p.slots, s, None), place := p.place - {s}, lost := p.lost + 1)
    case TryAcquire => Popped(p, Loose)
    case Release(s) => Returned(p, Some(s))
    case Wrap(h, s) => Placed(p, s, Held(h)).(holders := p.holders[h := Some(s)])
    case MoveTo(h, source) => Moved(p, h, source)
    case MoveAssign(h, source) => if h == source then p else Moved(Returned(p, p.holders[h]), h, source)
    case Destroy(h) => var q := Returned(p, p.holders[h]); q.(holders := q.holders - {h})
  }

  predicate Reaches(from: Pool, run: seq<Step>, to: Pool)
    decreases |run|
  {
    if run == [] then from == to
    else Enabled(from, run[0]) && Reaches(Next(from, run[0]), run[1..], to)
  }

  function AllFree(n: nat): map<Session, Place> {
    if n == 0 then map[] else AllFree(n - 1)[n - 1 := Free]
  }

  /** The pool as `initPool` leaves it, with `n` sessions. */
  function Start(n: nat): Pool {
    Pool(seq(n, i => i), seq(n, i => Some(i)), map[], AllFree(n), n, 0)
  }

  // ---- Every step keeps it ----

  ghost predicate NoRepeats(free: seq<Session>) {
    forall i, j :: 0 <= i < j < |free| ==> free[i] != free[j]
  }

  ghost predicate Queued(p: Pool) {
    && NoRepeats(p.free)
    && (forall s :: s in p.free ==> s in p.place)
    && (forall s :: s in p.place ==> (p.place[s].Free? <==> s in p.free))
  }

  ghost predicate Holding(p: Pool) {
    && (forall h :: h in p.holders && p.holders[h].Some? ==> Is(p, p.holders[h].value, Held(h)))
    && (forall s :: s in p.place && p.place[s].Held? ==>
          p.place[s].holder in p.holders && p.holders[p.place[s].holder] == Some(s))
  }

  /** The sessions in the slots. */
  ghost function Filled(slots: seq<Option<Session>>): set<Session> {
    if slots == [] then {} else Filled(slots[1..]) + Named(slots[0])
  }

  ghost function Named(slot: Option<Session>): set<Session> {
    if slot.Some? then {slot.value} else {}
  }

  /** No session has two slots. */
  ghost predicate Distinct(slots: seq<Option<Session>>) {
    slots == [] || (Named(slots[0]) !! Filled(slots[1..]) && Distinct(slots[1..]))
  }

  /** Each session has one slot, and a null slot is a lost one. */
  ghost predicate Slotted(p: Pool) {
    SlotsFor(p.slots, p.place.Keys, p.next, p.lost)
  }

  ghost predicate SlotsFor(slots: seq<Option<Session>>, sessions: set<Session>, next: Session, lost: nat) {
    && Distinct(slots) && sessions == Filled(slots)
    && (forall s :: s in sessions ==> s < next)
    && |sessions| + lost == |slots|
  }

  ghost predicate Valid(p: Pool) {
    Queued(p) && Holding(p) && Slotted(p)
  }

  lemma {:induction false} ReslottedOne(slots: seq<Option<Session>>, stale: Session, healed: Option<Session>)
    requires Distinct(slots) && stale in Filled(slots) && Named(healed) !! Filled(slots)
    ensures var slots' := Reslotted(slots, stale, healed);
      |slots'| == |slots| && Distinct(slots') && Filled(slots') == Filled(slots) - {stale} + Named(healed)
    decreases |slots|
  {
    var first, rest := slots[0], slots[1..];
    var slots' := Reslotted(slots, stale, healed);
    if first != Some(stale) {
      ReslottedOne(rest, stale, healed);
      assert slots'[0] == first && slots'[1..] == Reslotted(rest, stale, healed);
    } else {
      assert slots'[0] == healed && slots'[1..] == rest;
    }
  }

  lemma {:induction false} FilledMeans(slots: seq<Option<Session>>, s: Session)
    ensures s in Filled(slots) <==> Some(s) in slots
    decreases |slots|
  {
    if slots != [] {
      assert slots == [slots[0]] + slots[1..];
      FilledMeans(slots[1..], s);
    }
  }

  lemma PoppedValid(p: Pool, at: Place)
    requires Valid(p) && p.free != [] && (at.Checking? || at.Loose?)
    ensures Valid(Popped(p, at))
  {
    hide SlotsFor;
    var q := Popped(p, at);
    assert p.free == [p.free[0]] + q.free;
    assert p.free[0] !in q.free;
    assert Is(p, p.free[0], Free);
    assert q.place.Keys == p.place.Keys;
  }

  lemma PlacedValid(p: Pool, s: Session, at: Place)
    requires Valid(p) && s in p.place && (p.place[s].Checking? || p.place[s].Loose?)
    requires at.Loose? || at.Healing?
    ensures Valid(Placed(p, s, at))
  {
    assert Placed(p, s, at).place.Keys == p.place.Keys;
  }

  /** The stale session leaves, and the healed one, if any, comes in its slot. */
  ghost predicate Replaced(p: Pool, q: Pool, s: Session, healed: Option<Session>) {
    && q.free == p.free && q.holders == p.holders
    && q.slots == Reslotted(p.slots, s, healed)
    && q.place == if healed.Some? then (p.place - {s})[healed.value := Loose] else p.place - {s}
  }

  lemma ReplacedKeepsQueue(p: Pool, q: Pool, s: Session, healed: Option<Session>)
    requires Queued(p) && Holding(p) && Is(p, s, Healing) && Replaced(p, q, s, healed)
    requires healed.Some? ==> healed.value !in p.place
    ensures Queued(q) && Holding(q)
  {
    hide Reslotted;
  }

  lemma SlotLost(slots: seq<Option<Session>>, sessions: set<Session>, next: Session, lost: nat, s: Session)
    requires SlotsFor(slots, sessions, next, lost) && s in sessions
    ensures SlotsFor(Reslotted(slots, s, None), sessions - {s}, next, lost + 1)
    ensures |Reslotted(slots, s, None)| == |slots|
  {
    hide Reslotted, Distinct, Filled;
    ReslottedOne(slots, s, None);
  }

  lemma SlotHealed(slots: seq<Option<Session>>, sessions: set<Session>, next: Session, lost: nat, s: Session)
    requires SlotsFor(slots, sessions, next, lost) && s in sessions
    ensures SlotsFor(Reslotted(slots, s, Some(next)), sessions - {s} + {next}, next + 1, lost)
    ensures |Reslotted(slots, s, Some(next))| == |slots|
  {
    hide Reslotted, Distinct, Filled;
    ReslottedOne(slots, s, Some(next));
  }

  lemma ReturnedQueued(p: Pool, s: Session)
    requires Queued(p) && s in p.place && !p.place[s].Free?
    ensures Queued(Returned(p, Some(s)))
  {
    assert s !in p.free;
  }

  lemma ReturnedSlotted(p: Pool, s: Session)
    requires Slotted(p) && s in p.place
    ensures Slotted(Returned(p, Some(s)))
  {
    assert Returned(p, Some(s)).place.Keys == p.place.Keys;
  }

  lemma ReleaseValid(p: Pool, s: Session)
    requires Valid(p) && Is(p, s, Loose)
    ensures Valid(Returned(p, Some(s)))
  {
    ReturnedQueued(p, s);
    ReturnedSlotted(p, s);
  }

  /** What a holder has goes back, and the holder goes or is made null. */
  lemma EmptiedValid(p: Pool, h: Holder)
    requires Valid(p) && h in p.holders
    ensures Valid(Emptied(p, h)) && Emptied(p, h).holders[h].None?
  {
    if p.holders[h].Some? {
      var s := p.holders[h].value;
      assert Is(p, s, Held(h));
      ReturnedQueued(p, s);
      ReturnedSlotted(p, s);
    }
  }

  function Emptied(p: Pool, h: Holder): Pool
    requires h in p.holders
  {
    Returned(p, p.holders[h]).(holders := p.holders[h := None])
  }

  lemma DestroyValid(p: Pool, h: Holder)
    requires Valid(p) && h in p.holders
    ensures Valid(Next(p, Destroy(h)))
  {
    EmptiedValid(p, h);
    assert Next(p, Destroy(h)) == Emptied(p, h).(holders := p.holders - {h});
  }

  lemma MovedValid(p: Pool, h: Holder, source: Holder)
    requires Valid(p) && source in p.holders && h != source && (h in p.holders ==> p.holders[h].None?)
    ensures Valid(Moved(p, h, source))
  {
    MovedHolds(p, h, source);
    hide Holding, SlotsFor;
    if p.holders[source].Some? {
      SourceHolds(p, source);
      assert Moved(p, h, source).place.Keys == p.place.Keys;
    }
  }

  lemma SourceHolds(p: Pool, source: Holder)
    requires Holding(p) && source in p.holders && p.holders[source].Some?
    ensures Is(p, p.holders[source].value, Held(source))
  {}

  lemma MovedHolds(p: Pool, h: Holder, source: Holder)
    requires Holding(p) && source in p.holders && h != source && (h in p.holders ==> p.holders[h].None?)
    ensures Holding(Moved(p, h, source))
  {
    if p.holders[source].Some? { SourceHolds(p, source); }
  }

  lemma WrapValid(p: Pool, h: Holder, s: Session)
    requires Valid(p) && Enabled(p, Wrap(h, s))
    ensures Valid(Next(p, Wrap(h, s)))
  {
    assert Next(p, Wrap(h, s)).place.Keys == p.place.Keys;
  }

  lemma MoveAssignValid(p: Pool, h: Holder, source: Holder)
    requires Valid(p) && Enabled(p, MoveAssign(h, source))
    ensures Valid(Next(p, MoveAssign(h, source)))
  {
    hide Valid;
    if h != source {
      EmptiedValid(p, h);
      MovedValid(Emptied(p, h), h, source);
      assert Next(p, MoveAssign(h, source)) == Moved(Emptied(p, h), h, source);
    }
  }

  lemma HealedValid(p: Pool, s: Session)
    requires Valid(p) && Is(p, s, Healing)
    ensures Valid(Next(p, HealOk(s))) && |Next(p, HealOk(s)).slots| == |p.slots|
  {
    hide Reslotted, SlotsFor;
    var q := Next(p, HealOk(s));
    NextIsNew(p);
    ReplacedKeepsQueue(p, q, s, Some(p.next));
    SlotHealed(p.slots, p.place.Keys, p.next, p.lost, s);
    assert q.place.Keys == p.place.Keys - {s} + {p.next};
  }

  lemma LostValid(p: Pool, s: Session)
    requires Valid(p) && Is(p, s, Healing)
    ensures Valid(Next(p, HealFail(s))) && |Next(p, HealFail(s)).slots| == |p.slots|
  {
    hide Reslotted, SlotsFor;
    var q := Next(p, HealFail(s));
    ReplacedKeepsQueue(p, q, s, None);
    SlotLost(p.slots, p.place.Keys, p.next, p.lost, s);
    assert q.place.Keys == p.place.Keys - {s};
  }

  lemma NextIsNew(p: Pool)
    requires Slotted(p)
    ensures p.next !in p.place
  {}

  lemma StepValid(p: Pool, step: Step)
    requires Valid(p) && Enabled(p, step)
    ensures Valid(Next(p, step)) && |Next(p, step).slots| == |p.slots|
  {
    hide Valid, Reslotted;
    match step
    case Acquire => PoppedValid(p, Checking);
    case PingOk(s) => PlacedValid(p, s, Loose);
    case Stale(s) => PlacedValid(p, s, Healing);
    case HealOk(s) => HealedValid(p, s);
    case HealFail(s) => LostValid(p, s);
    case TryAcquire => PoppedValid(p, Loose);
    case Release(s) => ReleaseValid(p, s);
    case Wrap(h, s) => WrapValid(p, h, s);
    case MoveTo(h, source) => MovedValid(p, h, source);
    case MoveAssign(h, source) => MoveAssignValid(p, h, source);
    case Destroy(h) => DestroyValid(p, h);
  }

  lemma {:induction false} AllFreeFacts(n: nat)
    ensures |AllFree(n)| == n
    ensures forall s: Session :: s in AllFree(n) <==> s < n
    ensures forall s :: s in AllFree(n) ==> AllFree(n)[s] == Free
  {
    if n > 0 {
      AllFreeFacts(n - 1);
      assert AllFree(n).Keys == AllFree(n - 1).Keys + {n - 1};
    }
  }

  lemma StartValid(n: nat)
    ensures Valid(Start(n)) && |Start(n).slots| == n
  {
    var p := Start(n);
    AllFreeFacts(n);
    forall s | s in p.place ensures s in p.free { assert p.free[s] == s; }
    SlotsAtStart(n, 0);
    assert p.slots[0..] == p.slots;
    assert p.place.Keys == Filled(p.slots);
  }

  lemma {:induction false} SlotsAtStart(n: nat, k: nat)
    requires k <= n
    ensures Distinct(Start(n).slots[k..])
    ensures forall s: Session :: s in Filled(Start(n).slots[k..]) <==> k <= s < n
    decreases n - k
  {
    var rest := Start(n).slots[k..];
    if k < n {
      SlotsAtStart(n, k + 1);
      assert rest[0] == Some(k) && rest[1..] == Start(n).slots[k + 1..];
    }
  }

  lemma {:induction false} RunValid(p: Pool, run: seq<Step>, p': Pool)
    requires Valid(p) && Reaches(p, run, p')
    ensures Valid(p') && |p'.slots| == |p.slots|
    decreases |run|
  {
    hide Valid, Enabled, Next;
    if run != [] {
      StepValid(p, run[0]);
      RunValid(Next(p, run[0]), run[1..], p');
    }
  }

  // ---- The main results ----

  /** The sessions that are neither free nor being replaced. */
  ghost function Out(p: Pool): set<Session> {
    set s | s in p.place && (p.place[s].Checking? || p.place[s].Loose? || p.place[s].Held?)
  }

  ghost function BeingHealed(p: Pool): set<Session> {
    set s | s in p.place && p.place[s].Healing?
  }

  lemma {:induction false} QueueSize(free: seq<Session>, ids: set<Session>)
    requires NoRepeats(free) && forall s :: s in free <==> s in ids
    ensures |free| == |ids|
    decreases |free|
  {
    if free == [] {
      assert ids == {};
    } else {
      assert free == [free[0]] + free[1..];
      assert free[0] !in free[1..];
      QueueSize(free[1..], ids - {free[0]});
    }
  }

  lemma Counted(p: Pool)
    requires Valid(p)
    ensures |p.free| + |Out(p)| + |BeingHealed(p)| == |p.place|
  {
    var free := set s | s in p.place && p.place[s].Free?;
    assert forall s :: s in p.free <==> s in free;
    hide Valid, Queued, Holding, Slotted, NoRepeats;
    assert p.place.Keys == free + Out(p) + BeingHealed(p);
    SizeOfThree(free, Out(p), BeingHealed(p));
    QueueSize(p.free, free);
  }

  lemma SizeOfThree(a: set<Session>, b: set<Session>, c: set<Session>)
    requires a !! b && a !! c && b !! c
    ensures |a + b + c| == |a| + |b| + |c|
  {}

  lemma FreeIsNobodys(p: Pool, s: Session)
    requires Valid(p) && s in p.free
    ensures Some(s) in p.slots && s !in Out(p) && s !in BeingHealed(p)
  {
    FilledMeans(p.slots, s);
  }

  /** After any run from a pool of `n`: the queue repeats nothing, holds only
      sessions that exist and that nobody has, and free, checked out, being
      healed and lost are `n` together. */
  lemma SessionsAreConserved(n: nat, run: seq<Step>, p: Pool)
    requires Reaches(Start(n), run, p)
    ensures NoRepeats(p.free)
    ensures forall s: Session :: s in p.free ==> Some(s) in p.slots && s !in Out(p) && s !in BeingHealed(p)
    ensures |p.free| + |Out(p)| + |BeingHealed(p)| + p.lost == n
  {
    hide Start, Reaches, Out, BeingHealed, Holding;
    StartValid(n);
    RunValid(Start(n), run, p);
    Counted(p);
    forall s: Session | s in p.free ensures Some(s) in p.slots && s !in Out(p) && s !in BeingHealed(p) {
      FreeIsNobodys(p, s);
    }
  }

  /** A session in a `ScopedConnection` is in no other, and not in the queue. */
  lemma OneHolder(n: nat, run: seq<Step>, p: Pool, h: Holder, h': Holder)
    requires Reaches(Start(n), run, p) && h in p.holders && h' in p.holders
    requires p.holders[h].Some? && p.holders[h] == p.holders[h']
    ensures h == h' && p.holders[h].value !in p.free
  {
    StartValid(n);
    RunValid(Start(n), run, p);
    var s := p.holders[h].value;
    assert Is(p, s, Held(h)) && Is(p, s, Held(h'));
    assert s in p.free ==> Is(p, s, Free);
  }
}
