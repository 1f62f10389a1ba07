/** The same-second cache of the fraud engine: a list of nodes in order of use
    and a map from keys to nodes.  A node is named by the identity its iterator
    carries. */
module FalconCache {
  type Key = string
  type NodeId = nat

  datatype CacheNode = CacheNode(cacheKey: Key, timestamp: int)

  datatype Cache = Cache(order: seq<NodeId>, nodes: map<NodeId, CacheNode>, index: map<Key, NodeId>, next: NodeId)

  datatype Policy = LRU_POLICY | FIFO_POLICY

  const MAX_CACHE_SIZE := 10_000
  const NANOS_PER_MILLI := 1_000_000
  const SAME_SECOND_MILLIS := 1_000

  /** `duration_cast` from nanoseconds to milliseconds drops the fraction. */
  function Millis(nanos: int): int {
    if nanos >= 0 then nanos / NANOS_PER_MILLI else -(-nanos / NANOS_PER_MILLI)
  }

  function Without(order: seq<NodeId>, id: NodeId): seq<NodeId> {
    if order == [] then []
    else if order[0] == id then order[1..]
    else [order[0]] + Without(order[1..], id)
  }

  predicate Known(c: Cache, key: Key) {
    key in c.index && c.index[key] in c.nodes
  }

  predicate Recent(c: Cache, key: Key, now: int) {
    Known(c, key) && Millis(now - c.nodes[c.index[key]].timestamp) <= SAME_SECOND_MILLIS
  }

  /** The first locked block of `sameSecond_`: whether it hits, and the cache
      after it.  A stale entry leaves the index and its node stays. */
  function Looked(c: Cache, policy: Policy, key: Key, now: int): (Cache, bool) {
    if !Known(c, key) then (c, false)
    else if Recent(c, key, now) then
      (if policy.LRU_POLICY? then c.(order := [c.index[key]] + Without(c.order, c.index[key])) else c, true)
    else (c.(index := c.index - {key}), false)
  }

  function Evicted(c: Cache): Cache {
    if |c.index| <= MAX_CACHE_SIZE || c.order == [] then c
    else
      var last := c.order[|c.order| - 1];
      if last !in c.nodes then c
      else
        Cache(c.order[..|c.order| - 1], c.nodes - {last}, c.index - {c.nodes[last].cacheKey}, c.next)
  }

  function Pushed(c: Cache, key: Key, now: int): Cache {
    Cache([c.next] + c.order, c.nodes[c.next := CacheNode(key, now)], c.index[key := c.next], c.next + 1)
  }

  /** The second locked block, after the database has found a row. */
  function Remembered(c: Cache, key: Key, now: int): Cache {
    Evicted(Pushed(c, key, now))
  }

  ghost predicate NoRepeats(order: seq<NodeId>) {
    forall i, j :: 0 <= i < j < |order| ==> order[i] != order[j]
  }

  /** The list holds each live node once, and every entry of the index points
      to a live node that carries its key. */
  ghost predicate Valid(c: Cache) {
    && NoRepeats(c.order)
    && (forall id :: id in c.order <==> id in c.nodes)
    && (forall id :: id in c.nodes ==> id < c.next)
    && (forall key :: key in c.index ==> c.index[key] in c.nodes && c.nodes[c.index[key]].cacheKey == key)
  }

  class SameSecondCache {
    var order: seq<NodeId>
    var nodes: map<NodeId, CacheNode>
    var index: map<Key, NodeId>
    var next: NodeId
    const policy: Policy

    function Contents(): Cache
      reads this
    {
      Cache(order, nodes, index, next)
    }

    constructor (policy: Policy)
      ensures Contents() == Empty && this.policy == policy
    {
      order, nodes, index, next := [], map[], map[], 0;
      this.policy := policy;
    }

    method Look(cacheKey: Key, now: int) returns (hit: bool)
      requires Valid(Contents())
      modifies this
      ensures (Contents(), hit) == Looked(old(Contents()), policy, cacheKey, now)
      ensures Valid(Contents())
    {
      LookedValid(Contents(), policy, cacheKey, now);
      if cacheKey in index {
        var it := index[cacheKey];
        var ageMsec := Millis(now - nodes[it].timestamp);
        if ageMsec <= SAME_SECOND_MILLIS {
          if policy.LRU_POLICY? {
            order := [it] + Without(order, it);
          }
          return true;
        }
        index := index - {cacheKey};
      }
      return false;
    }

    method Remember(cacheKey: Key, now: int)
      requires Valid(Contents())
      modifies this
      ensures Contents() == Remembered(old(Contents()), cacheKey, now)
      ensures Valid(Contents())
    {
      hide Valid;
      RememberedValid(Contents(), cacheKey, now);
      order := [next] + order;
      nodes := nodes[next := CacheNode(cacheKey, now)];
      index := index[cacheKey := next];
      next := next + 1;
      if |index| > MAX_CACHE_SIZE {
        var last := order[|order| - 1];
        index := index - {nodes[last].cacheKey};
        order := order[..|order| - 1];
        nodes := nodes - {last};
      }
    }
  }

  const Empty := Cache([], map[], map[], 0)

  // ---- Every operation keeps it ----

  lemma {:induction false} WithoutOne(order: seq<NodeId>, id: NodeId)
    requires NoRepeats(order)
    ensures NoRepeats(Without(order, id))
    ensures forall x :: x in Without(order, id) <==> x in order && x != id
    decreases |order|
  {
    if order != [] {
      var rest := order[1..];
      WithoutOne(rest, id);
      assert order == [order[0]] + rest;
      assert order[0] !in rest;
      if order[0] != id {
        assert order[0] !in Without(rest, id);
      }
    }
  }

  lemma LookedValid(c: Cache, policy: Policy, key: Key, now: int)
    requires Valid(c)
    ensures Valid(Looked(c, policy, key, now).0)
  {
    if Recent(c, key, now) && policy.LRU_POLICY? {
      WithoutOne(c.order, c.index[key]);
      var moved := Looked(c, policy, key, now).0.order;
      assert NoRepeats(moved);
    }
  }

  lemma PushedValid(c: Cache, key: Key, now: int)
    requires Valid(c)
    ensures Valid(Pushed(c, key, now))
  {
    var order' := Pushed(c, key, now).order;
    assert c.next !in c.order;
    forall i, j | 0 <= i < j < |order'| ensures order'[i] != order'[j] {
      if i == 0 { assert order'[j] in c.order; }
    }
  }

  lemma LastLives(c: Cache)
    requires Valid(c) && c.order != []
    ensures c.order[|c.order| - 1] in c.nodes
  {
    assert c.order[|c.order| - 1] in c.order;
  }

  lemma LastIsOnce(order: seq<NodeId>)
    requires NoRepeats(order) && order != []
    ensures NoRepeats(order[..|order| - 1])
    ensures forall id :: id in order[..|order| - 1] <==> id in order && id != order[|order| - 1]
  {
    assert order == order[..|order| - 1] + [order[|order| - 1]];
  }

  /** The entry that goes is the one with the key of the last node, so no entry
      is left that points to it. */
  lemma EvictedValid(c: Cache)
    requires Valid(c)
    ensures Valid(Evicted(c))
  {
    var c' := Evicted(c);
    hide NoRepeats;
    if c' != c {
      var last := c.order[|c.order| - 1];
      LastIsOnce(c.order);
      forall key | key in c'.index ensures c'.index[key] in c'.nodes && c'.nodes[c'.index[key]].cacheKey == key {
        assert c.index[key] in c.nodes && c.nodes[c.index[key]].cacheKey == key;
      }
    }
  }

  lemma RememberedValid(c: Cache, key: Key, now: int)
    requires Valid(c)
    ensures Valid(Remembered(c, key, now))
    ensures var pushed := Pushed(c, key, now); pushed.order[|pushed.order| - 1] in pushed.nodes
  {
    PushedValid(c, key, now);
    EvictedValid(Pushed(c, key, now));
    LastLives(Pushed(c, key, now));
    hide Valid, Pushed, Evicted;
  }

  /** There are never more entries than nodes. */
  lemma IndexWithinList(c: Cache)
    requires Valid(c)
    ensures |c.index| <= |c.order|
  {
    EntriesWithinNodes(c.index.Keys, c);
    NodesAreOrder(c.order, c.nodes.Keys);
  }

  lemma {:induction false} EntriesWithinNodes(keys: set<Key>, c: Cache)
    requires Valid(c) && keys <= c.index.Keys
    ensures |keys| == |set k | k in keys :: c.index[k]|
    ensures |keys| <= |c.nodes.Keys|
    decreases |keys|
  {
    var image := set k | k in keys :: c.index[k];
    if keys != {} {
      var key :| key in keys;
      EntriesWithinNodes(keys - {key}, c);
      var rest := set k | k in keys - {key} :: c.index[k];
      assert c.index[key] !in rest;
      assert image == rest + {c.index[key]};
    }
    assert image <= c.nodes.Keys;
    SubsetSize(image, c.nodes.Keys);
  }

  lemma SubsetSize(a: set<NodeId>, b: set<NodeId>)
    requires a <= b
    ensures |a| <= |b|
  {
    assert b == a + (b - a);
  }

  lemma {:induction false} NodesAreOrder(order: seq<NodeId>, ids: set<NodeId>)
    requires NoRepeats(order) && forall id :: id in order <==> id in ids
    ensures |ids| == |order|
    decreases |order|
  {
    if order == [] {
      assert ids == {};
    } else {
      var rest := order[1..];
      assert order == [order[0]] + rest;
      assert order[0] !in rest;
      NodesAreOrder(rest, ids - {order[0]});
    }
  }

  // ---- Runs ----

  /** Look: a call enters `sameSecond_`.  Confirm: the database has found a row
      for a call that entered at `now`.  Between the two, other calls run. */
  datatype Step = Look(key: Key, now: int) | Confirm(key: Key, now: int)

  function Stepped(c: Cache, policy: Policy, step: Step): Cache {
    if step.Look? then Looked(c, policy, step.key, step.now).0 else Remembered(c, step.key, step.now)
  }

  function After(policy: Policy, run: seq<Step>): Cache {
    if run == [] then Empty else Stepped(After(policy, run[..|run| - 1]), policy, run[|run| - 1])
  }

  /** Some call of the run was confirmed for this key at this time. */
  ghost predicate Confirmed(run: seq<Step>, node: CacheNode) {
    Confirm(node.cacheKey, node.timestamp) in run
  }

  ghost predicate Traced(c: Cache, run: seq<Step>) {
    forall id :: id in c.nodes ==> Confirmed(run, c.nodes[id])
  }

  lemma {:induction false} RunIsValid(policy: Policy, run: seq<Step>)
    ensures Valid(After(policy, run)) && Traced(After(policy, run), run)
    ensures |After(policy, run).index| <= |After(policy, run).order|
    decreases |run|
  {
    hide Valid, Traced, Looked, Remembered;
    if run == [] {
      EmptyIsValid(run);
    } else {
      var before, last := run[..|run| - 1], run[|run| - 1];
      RunIsValid(policy, before);
      var c := After(policy, before);
      if last.Look? {
        LookedValid(c, policy, last.key, last.now);
        LookedTraced(c, policy, run);
      } else {
        RememberedValid(c, last.key, last.now);
        RememberedTraced(c, run);
      }
    }
    IndexWithinList(After(policy, run));
  }

  lemma EmptyIsValid(run: seq<Step>)
    ensures Valid(Empty) && Traced(Empty, run)
  {}

  lemma LookedTraced(c: Cache, policy: Policy, run: seq<Step>)
    requires run != [] && Traced(c, run[..|run| - 1]) && run[|run| - 1].Look?
    ensures Traced(Looked(c, policy, run[|run| - 1].key, run[|run| - 1].now).0, run)
  {
    hide Without, Recent;
    TracedOn(c, Looked(c, policy, run[|run| - 1].key, run[|run| - 1].now).0, run);
  }

  lemma RememberedTraced(c: Cache, run: seq<Step>)
    requires run != [] && Traced(c, run[..|run| - 1]) && run[|run| - 1].Confirm?
    ensures Traced(Remembered(c, run[|run| - 1].key, run[|run| - 1].now), run)
  {
    var pushed := Pushed(c, run[|run| - 1].key, run[|run| - 1].now);
    var kept := Evicted(pushed).nodes;
    assert forall id :: id in kept ==> id in pushed.nodes && kept[id] == pushed.nodes[id];
    hide Evicted;
    TracedOn(c, Remembered(c, run[|run| - 1].key, run[|run| - 1].now), run);
  }

  lemma TracedOn(c: Cache, c': Cache, run: seq<Step>)
    requires run != [] && Traced(c, run[..|run| - 1])
    requires forall id :: id in c'.nodes ==>
      || (id in c.nodes && c'.nodes[id] == c.nodes[id])
      || run[|run| - 1] == Confirm(c'.nodes[id].cacheKey, c'.nodes[id].timestamp)
    ensures Traced(c', run)
  {
    forall id | id in c'.nodes ensures Confirmed(run, c'.nodes[id]) {
      if id in c.nodes && c'.nodes[id] == c.nodes[id] {
        assert Confirmed(run[..|run| - 1], c.nodes[id]);
      }
    }
  }

  /** A hit is the answer of the query: an earlier call for the same key, less
      than a millisecond over a second old, found a row in the database. */
  lemma HitMeansConfirmed(policy: Policy, run: seq<Step>, key: Key, now: int)
    requires Looked(After(policy, run), policy, key, now).1
    ensures exists then' :: Confirm(key, then') in run && now - then' < 1_001_000_000
  {
    var c := After(policy, run);
    RunIsValid(policy, run);
    var node := c.nodes[c.index[key]];
    assert Confirmed(run, node);
  }

  /** And while the entry is in the cache the answer comes without the query:
      a call that follows a confirmed one within the second hits. */
  lemma ConfirmedThenHit(policy: Policy, run: seq<Step>, key: Key, now: int, later: int)
    requires later - now < 1_001_000_000
    requires |Pushed(After(policy, run), key, now).index| <= 10_000
    ensures Looked(After(policy, run + [Confirm(key, now)]), policy, key, later).1
  {
    assert (run + [Confirm(key, now)])[..|run|] == run;
  }

  // ---- Which node is evicted ----

  /** The step, counted from one, that last made this node or, under LRU, hit it;
      0 if there is none. */
  function LastTouch(policy: Policy, run: seq<Step>, id: NodeId): nat {
    if run == [] then 0
    else
      var before, last := run[..|run| - 1], run[|run| - 1];
      var c := After(policy, before);
      if last.Confirm? && id == c.next then |run|
      else if policy.LRU_POLICY? && last.Look? && Recent(c, last.key, last.now) && c.index[last.key] == id then |run|
      else LastTouch(policy, before, id)
  }

  function Touches(policy: Policy, run: seq<Step>): NodeId -> int {
    (id: NodeId) => LastTouch(policy, run, id)
  }

  /** The first is above all others, and so on. */
  ghost predicate Descending(order: seq<NodeId>, rank: NodeId -> int) {
    order == [] || ((forall id :: id in order[1..] ==> rank(order[0]) > rank(id)) && Descending(order[1..], rank))
  }

  lemma {:induction false} DescendingAs(order: seq<NodeId>, rank: NodeId -> int, rank': NodeId -> int)
    requires Descending(order, rank) && forall id :: id in order ==> rank(id) == rank'(id)
    ensures Descending(order, rank')
    decreases |order|
  {
    if order != [] {
      assert order[0] in order && forall id :: id in order[1..] ==> id in order;
      DescendingAs(order[1..], rank, rank');
    }
  }

  lemma {:induction false} DescendingWithout(order: seq<NodeId>, id: NodeId, rank: NodeId -> int)
    requires Descending(order, rank)
    ensures Descending(Without(order, id), rank)
    ensures forall x :: x in Without(order, id) ==> x in order
    decreases |order|
  {
    if order != [] {
      DescendingWithout(order[1..], id, rank);
      assert order == [order[0]] + order[1..];
    }
  }

  lemma {:induction false} DescendingCut(order: seq<NodeId>, rank: NodeId -> int)
    requires Descending(order, rank) && order != []
    ensures Descending(order[..|order| - 1], rank)
    ensures forall id :: id in order ==> rank(order[|order| - 1]) <= rank(id)
    decreases |order|
  {
    var front := order[..|order| - 1];
    if |order| > 1 {
      DescendingCut(order[1..], rank);
      assert front[1..] == order[1..][..|order[1..]| - 1];
      assert order[|order| - 1] in order[1..];
      assert order == [order[0]] + order[1..];
    } else {
      assert order == [order[0]];
    }
  }

  lemma {:induction false} TouchedBefore(policy: Policy, run: seq<Step>, id: NodeId)
    ensures LastTouch(policy, run, id) <= |run|
    decreases |run|
  {
    if run != [] { TouchedBefore(policy, run[..|run| - 1], id); }
  }

  /** After every run the list stands in the order of the last touch, so the
      node that is evicted is the one that was touched longest ago: under LRU
      made or hit, under FIFO made. */
  lemma {:induction false} OldestIsLast(policy: Policy, run: seq<Step>)
    ensures Descending(After(policy, run).order, Touches(policy, run))
    ensures var order := After(policy, run).order;
      forall id :: id in order ==> LastTouch(policy, run, order[|order| - 1]) <= LastTouch(policy, run, id)
    decreases |run|
  {
    hide Valid, Traced;
    if run != [] {
      OldestIsLast(policy, run[..|run| - 1]);
      RunIsValid(policy, run[..|run| - 1]);
      if run[|run| - 1].Look? { LookKeepsOrder(policy, run); } else { ConfirmKeepsOrder(policy, run); }
    }
    var order := After(policy, run).order;
    hide After, LastTouch, Descending;
    if order != [] { DescendingCut(order, Touches(policy, run)); }
  }

  lemma {:induction false} LookKeepsOrder(policy: Policy, run: seq<Step>)
    requires run != [] && run[|run| - 1].Look?
    requires Descending(After(policy, run[..|run| - 1]).order, Touches(policy, run[..|run| - 1]))
    ensures Descending(After(policy, run).order, Touches(policy, run))
  {
    var before, last := run[..|run| - 1], run[|run| - 1];
    var c, was, now := After(policy, before), Touches(policy, before), Touches(policy, run);
    if policy.LRU_POLICY? && Recent(c, last.key, last.now) {
      var id := c.index[last.key];
      RestWithout(policy, before, c.order, id);
      var rest := Without(c.order, id);
      hide Without, Recent, Descending;
      forall x | x in rest ensures was(x) == now(x) && now(id) > now(x) { TouchedBefore(policy, before, x); }
      DescendingAs(rest, was, now);
      DescendingOn(id, rest, now);
    } else {
      hide Without, Recent, Descending;
      DescendingAs(c.order, was, now);
    }
  }

  lemma {:induction false} DescendingOn(id: NodeId, rest: seq<NodeId>, rank: NodeId -> int)
    requires Descending(rest, rank) && forall x :: x in rest ==> rank(id) > rank(x)
    ensures Descending([id] + rest, rank)
  {
    assert ([id] + rest)[1..] == rest;
  }

  lemma {:induction false} RestWithout(policy: Policy, run: seq<Step>, order: seq<NodeId>, id: NodeId)
    requires Descending(order, Touches(policy, run))
    ensures Descending(Without(order, id), Touches(policy, run)) && id !in Without(order, id)
  {
    DescendingWithout(order, id, Touches(policy, run));
    WithoutRanked(order, id, Touches(policy, run));
  }

  lemma {:induction false} WithoutRanked(order: seq<NodeId>, id: NodeId, rank: NodeId -> int)
    requires Descending(order, rank)
    ensures id !in Without(order, id)
    decreases |order|
  {
    if order != [] {
      if order[0] != id { WithoutRanked(order[1..], id, rank); }
    }
  }

  lemma {:induction false} ConfirmTouches(policy: Policy, run: seq<Step>, x: NodeId)
    requires run != [] && run[|run| - 1].Confirm?
    ensures var next := After(policy, run[..|run| - 1]).next;
      && LastTouch(policy, run, next) == |run|
      && (x < next ==> LastTouch(policy, run, x) == LastTouch(policy, run[..|run| - 1], x) < |run|)
  {
    TouchedBefore(policy, run[..|run| - 1], x);
    hide After;
  }

  lemma RememberedOrder(c: Cache, key: Key, now: int)
    ensures var pushed := [c.next] + c.order; var order := Remembered(c, key, now).order;
      order == pushed || order == pushed[..|pushed| - 1]
  {}

  lemma {:induction false} ConfirmKeepsOrder(policy: Policy, run: seq<Step>)
    requires run != [] && run[|run| - 1].Confirm? && Valid(After(policy, run[..|run| - 1]))
    requires Descending(After(policy, run[..|run| - 1]).order, Touches(policy, run[..|run| - 1]))
    ensures Descending(After(policy, run).order, Touches(policy, run))
  {
    var before, last := run[..|run| - 1], run[|run| - 1];
    var c, was, now := After(policy, before), Touches(policy, before), Touches(policy, run);
    assert forall x :: x in c.order ==> x < c.next;
    RememberedOrder(c, last.key, last.now);
    hide Descending, Valid, LastTouch, Remembered;
    ConfirmTouches(policy, run, c.next);
    forall x | x in c.order ensures was(x) == now(x) && now(c.next) > now(x) {
      ConfirmTouches(policy, run, x);
    }
    DescendingAs(c.order, was, now);
    DescendingOn(c.next, c.order, now);
    DescendingCut([c.next] + c.order, now);
  }

  // ---- Stale nodes ----

  /** A call that misses and that the database confirms. */
  function Call(key: Key, now: int): seq<Step> {
    [Look(key, now)] + [Confirm(key, now)]
  }

  /** `n` calls for one key, each long after the last: look, find the entry
      stale, ask the database, remember. */
  function Rounds(key: Key, n: nat): seq<Step> {
    if n == 0 then [] else Rounds(key, n - 1) + Call(key, n * 2_000 * NANOS_PER_MILLI)
  }

  /** A stale node is never taken from the list while the index is small: one
      key makes it as long as you like. */
  lemma {:induction false} StaleNodesPileUp(policy: Policy, key: Key, n: nat)
    ensures var c := After(policy, Rounds(key, n));
      && |c.order| == n && |c.index| == (if n == 0 then 0 else 1)
      && (n > 0 ==> c.index.Keys == {key} && c.index[key] in c.nodes
                    && c.nodes[c.index[key]].timestamp == n * 2_000 * NANOS_PER_MILLI)
    decreases n
  {
    hide Looked, Remembered;
    if n > 0 {
      hide After, LooksFirst;
      StaleNodesPileUp(policy, key, n - 1);
      var before, now := Rounds(key, n - 1), n * 2_000 * NANOS_PER_MILLI;
      AfterOne(policy, before, Look(key, now));
      AfterOne(policy, before + [Look(key, now)], Confirm(key, now));
      assert Rounds(key, n) == before + [Look(key, now)] + [Confirm(key, now)];
      OneRound(After(policy, before), policy, key, now);
    }
  }

  lemma OneRound(c: Cache, policy: Policy, key: Key, now: int)
    requires c.index.Keys <= {key}
    requires key in c.index ==>
      c.index[key] in c.nodes && now - c.nodes[c.index[key]].timestamp == 2_000 * NANOS_PER_MILLI
    ensures var c' := Remembered(Looked(c, policy, key, now).0, key, now);
      && c'.order == [c.next] + c.order && c'.index == map[key := c.next]
      && c'.nodes == c.nodes[c.next := CacheNode(key, now)]
  {
    var looked := Looked(c, policy, key, now).0;
    assert looked.index == map[];
    assert Pushed(looked, key, now).index == map[key := c.next];
  }

  // ---- What bounds the list and the map ----

  /** Every node is the one its key's entry points to. */
  ghost predicate NoOrphans(c: Cache) {
    forall id :: id in c.nodes ==> c.nodes[id].cacheKey in c.index && c.index[c.nodes[id].cacheKey] == id
  }

  /** A step that leaves a node without its entry: a look that finds the entry
      stale, or a second confirmation of a key that has one. */
  predicate Orphaning(c: Cache, step: Step) {
    if step.Look? then Known(c, step.key) && !Recent(c, step.key, step.now) else step.key in c.index
  }

  lemma TidySizes(c: Cache)
    requires Valid(c) && NoOrphans(c)
    ensures |c.order| == |c.index|
  {
    EntriesWithinNodes(c.index.Keys, c);
    NodesAreOrder(c.order, c.nodes.Keys);
    assert (set k | k in c.index.Keys :: c.index[k]) == c.nodes.Keys;
  }

  lemma OrphaningBreaks(c: Cache, policy: Policy, step: Step)
    requires Valid(c) && NoOrphans(c) && |c.index| <= MAX_CACHE_SIZE && Orphaning(c, step)
    ensures !NoOrphans(Stepped(c, policy, step))
  {
    var c' := Stepped(c, policy, step);
    var id := c.index[step.key];
    assert id in c'.nodes && c'.nodes[id].cacheKey == step.key;
  }

  lemma LookStaysTidy(c: Cache, policy: Policy, step: Step)
    requires Valid(c) && NoOrphans(c) && step.Look? && !Orphaning(c, step)
    ensures NoOrphans(Stepped(c, policy, step)) && Stepped(c, policy, step).index == c.index
  {
    hide Without, Recent, NoRepeats;
  }

  lemma ConfirmStaysTidy(c: Cache, key: Key, now: int)
    requires Valid(c) && NoOrphans(c) && key !in c.index && |c.index| <= MAX_CACHE_SIZE
    ensures NoOrphans(Remembered(c, key, now)) && |Remembered(c, key, now).index| <= MAX_CACHE_SIZE
  {
    PushedTidy(c, key, now);
    PushSizes(c, key, now);
    PushedValid(c, key, now);
    hide Valid, NoOrphans;
    if |Pushed(c, key, now).index| > MAX_CACHE_SIZE {
      EvictedTidy(Pushed(c, key, now));
    }
  }

  lemma PushedTidy(c: Cache, key: Key, now: int)
    requires Valid(c) && NoOrphans(c) && key !in c.index
    ensures NoOrphans(Pushed(c, key, now))
  {
    hide NoRepeats;
  }

  lemma EvictedTidy(c: Cache)
    requires Valid(c) && NoOrphans(c) && c.order != [] && |c.index| > MAX_CACHE_SIZE
    ensures NoOrphans(Evicted(c)) && |Evicted(c).index| == |c.index| - 1
  {
    LastLives(c);
    var key := c.nodes[c.order[|c.order| - 1]].cacheKey;
    assert c.index.Keys == (c.index - {key}).Keys + {key};
  }

  /** From a tidy cache within its bound, a step keeps it tidy iff it is not of
      that kind, and then list and map are one to one and within the bound. */
  lemma TidyKeptIff(c: Cache, policy: Policy, step: Step)
    requires Valid(c) && NoOrphans(c) && |c.index| <= MAX_CACHE_SIZE
    ensures NoOrphans(Stepped(c, policy, step)) <==> !Orphaning(c, step)
    ensures var c' := Stepped(c, policy, step);
      !Orphaning(c, step) ==> |c'.order| == |c'.index| <= MAX_CACHE_SIZE
  {
    hide Valid, NoOrphans, Looked, Remembered;
    SteppedValid(c, policy, step);
    if Orphaning(c, step) {
      OrphaningBreaks(c, policy, step);
    } else if step.Look? {
      LookStaysTidy(c, policy, step);
      TidySizes(Stepped(c, policy, step));
    } else {
      ConfirmStaysTidy(c, step.key, step.now);
      TidySizes(Stepped(c, policy, step));
    }
  }

  lemma SteppedValid(c: Cache, policy: Policy, step: Step)
    requires Valid(c)
    ensures Valid(Stepped(c, policy, step))
  {
    hide Valid, Looked, Remembered;
    if step.Look? { LookedValid(c, policy, step.key, step.now); } else { RememberedValid(c, step.key, step.now); }
  }

  /** How many steps of the run orphaned a node. */
  function Orphaned(policy: Policy, run: seq<Step>): nat {
    if run == [] then 0
    else
      var before := run[..|run| - 1];
      Orphaned(policy, before) + if Orphaning(After(policy, before), run[|run| - 1]) then 1 else 0
  }

  /** The cache is tidy at every moment of the run. */
  ghost predicate AlwaysTidy(policy: Policy, run: seq<Step>) {
    NoOrphans(After(policy, run)) && (run == [] || AlwaysTidy(policy, run[..|run| - 1]))
  }

  /** The two containers stay one to one, and so within the bound, iff no step
      of the run orphans a node. */
  lemma {:induction false} TidyIffNothingOrphaned(policy: Policy, run: seq<Step>)
    ensures AlwaysTidy(policy, run) <==> Orphaned(policy, run) == 0
    ensures AlwaysTidy(policy, run) ==>
      |After(policy, run).order| == |After(policy, run).index| <= MAX_CACHE_SIZE
    decreases |run|
  {
    hide NoOrphans, Stepped, Orphaning, Valid, Traced;
    if run == [] {
      EmptyIsTidy();
    } else {
      var before := run[..|run| - 1];
      TidyIffNothingOrphaned(policy, before);
      RunIsValid(policy, before);
      if AlwaysTidy(policy, before) {
        AlwaysTidyIsTidy(policy, before);
        TidyKeptIff(After(policy, before), policy, run[|run| - 1]);
      }
    }
  }

  lemma AlwaysTidyIsTidy(policy: Policy, run: seq<Step>)
    requires AlwaysTidy(policy, run)
    ensures NoOrphans(After(policy, run))
  {}

  lemma EmptyIsTidy()
    ensures NoOrphans(Empty)
  {}

  lemma {:induction false} WithoutSize(order: seq<NodeId>, id: NodeId)
    ensures |Without(order, id)| == |order| - if id in order then 1 else 0
    decreases |order|
  {
    if order != [] && order[0] != id {
      assert order == [order[0]] + order[1..];
      WithoutSize(order[1..], id);
    }
  }

  lemma SizeWithout(index: map<Key, NodeId>, key: Key)
    ensures |index - {key}| == |index| - if key in index then 1 else 0
  {
    if key in index { assert index.Keys == (index - {key}).Keys + {key}; } else { assert index - {key} == index; }
  }

  lemma SizeWith(index: map<Key, NodeId>, key: Key, id: NodeId)
    ensures |index[key := id]| == |index| + if key in index then 0 else 1
  {
    assert index[key := id].Keys == index.Keys + {key};
  }

  lemma LookSizes(c: Cache, policy: Policy, key: Key, now: int)
    requires Valid(c)
    ensures var c' := Looked(c, policy, key, now).0;
      |c'.order| == |c.order| && |c'.index| == |c.index| - if Orphaning(c, Look(key, now)) then 1 else 0
  {
    SizeWithout(c.index, key);
    if key in c.index { WithoutSize(c.order, c.index[key]); }
  }

  lemma PushSizes(c: Cache, key: Key, now: int)
    ensures |Pushed(c, key, now).order| == |c.order| + 1
    ensures |Pushed(c, key, now).index| == |c.index| + if key in c.index then 0 else 1
  {
    SizeWith(c.index, key, c.next);
  }

  lemma EvictSizes(c: Cache)
    requires Valid(c) && c.order != []
    ensures |c.index| <= MAX_CACHE_SIZE ==> Evicted(c) == c
    ensures |c.index| > MAX_CACHE_SIZE ==>
      && |Evicted(c).order| == |c.order| - 1
      && c.order[|c.order| - 1] in c.nodes
      && |Evicted(c).index| == |c.index| - if c.nodes[c.order[|c.order| - 1]].cacheKey in c.index then 1 else 0
  {
    LastLives(c);
    SizeWithout(c.index, c.nodes[c.order[|c.order| - 1]].cacheKey);
  }

  /** Over every run the list is within the bound plus the nodes that were
      orphaned, and so is the map. */
  lemma {:induction false} BoundWithOrphans(policy: Policy, run: seq<Step>)
    ensures var c := After(policy, run);
      |c.index| <= |c.order| <= MAX_CACHE_SIZE + Orphaned(policy, run) && |c.order| - |c.index| <= Orphaned(policy, run)
    decreases |run|
  {
    hide Valid, Traced, Looked, Pushed, Evicted, Orphaning;
    RunIsValid(policy, run);
    if run != [] {
      var before, last := run[..|run| - 1], run[|run| - 1];
      var c := After(policy, before);
      BoundWithOrphans(policy, before);
      RunIsValid(policy, before);
      if last.Look? {
        LookSizes(c, policy, last.key, last.now);
      } else {
        ConfirmIsOrphaning(c, last.key, last.now);
        PushSizes(c, last.key, last.now);
        PushedValid(c, last.key, last.now);
        EvictSizes(Pushed(c, last.key, last.now));
      }
    }
  }

  lemma ConfirmIsOrphaning(c: Cache, key: Key, now: int)
    ensures Orphaning(c, Confirm(key, now)) <==> key in c.index
  {}

  /** The map passes its bound in a step iff the step confirms a new key while
      the map is full and the last node of the list has lost its entry: then
      the eviction finds nothing to erase. */
  lemma BoundPassedIff(c: Cache, key: Key, now: int)
    requires Valid(c) && |c.index| <= MAX_CACHE_SIZE
    ensures |Remembered(c, key, now).index| > MAX_CACHE_SIZE <==>
      && |c.index| == MAX_CACHE_SIZE && key !in c.index && c.order != []
      && var last := c.order[|c.order| - 1];
         last in c.nodes && c.nodes[last].cacheKey !in c.index && c.nodes[last].cacheKey != key
  {
    PushSizes(c, key, now);
    PushedValid(c, key, now);
    EvictSizes(Pushed(c, key, now));
    if c.order == [] {
      IndexWithinList(c);
    } else {
      LastLives(c);
      assert c.order[|c.order| - 1] != c.next;
    }
    hide Valid;
  }

  // ---- A run past the bound ----

  function NthKey(n: nat): Key {
    seq(n, _ => 'k')
  }

  /** `n` calls for different keys at time 0. */
  function Fill(n: nat): seq<Step> {
    if n == 0 then [] else Fill(n - 1) + Call(NthKey(n - 1), 0)
  }

  /** As `sameSecond_` goes: a key is confirmed right after a look that missed
      it. */
  ghost predicate LooksFirst(policy: Policy, run: seq<Step>) {
    run == [] ||
      var before, last := run[..|run| - 1], run[|run| - 1];
      && LooksFirst(policy, before)
      && (last.Confirm? ==>
            && before != [] && before[|before| - 1] == Look(last.key, last.now)
            && !Looked(After(policy, before[..|before| - 1]), policy, last.key, last.now).1)
  }

  lemma AfterOne(policy: Policy, run: seq<Step>, step: Step)
    ensures After(policy, run + [step]) == Stepped(After(policy, run), policy, step)
    ensures LooksFirst(policy, run) && step.Look? ==> LooksFirst(policy, run + [step])
  {
    assert (run + [step])[..|run|] == run;
  }

  /** A call for a new key remembers it. */
  lemma AfterCall(policy: Policy, run: seq<Step>, key: Key, now: int)
    requires LooksFirst(policy, run) && key !in After(policy, run).index
    ensures After(policy, run + Call(key, now)) == Remembered(After(policy, run), key, now)
    ensures LooksFirst(policy, run + Call(key, now))
  {
    var looked := run + [Look(key, now)];
    AfterOne(policy, run, Look(key, now));
    AfterOne(policy, looked, Confirm(key, now));
    assert run + Call(key, now) == looked + [Confirm(key, now)];
    assert (looked + [Confirm(key, now)])[..|looked|] == looked && looked[..|run|] == run;
    hide After, LooksFirst, Remembered;
    assert After(policy, looked) == After(policy, run);
    LooksFirstMore(policy, looked, Confirm(key, now));
  }

  lemma LooksFirstMore(policy: Policy, run: seq<Step>, step: Step)
    requires LooksFirst(policy, run) && step.Confirm? && run != [] && run[|run| - 1] == Look(step.key, step.now)
    requires !Looked(After(policy, run[..|run| - 1]), policy, step.key, step.now).1
    ensures LooksFirst(policy, run + [step])
  {
    assert (run + [step])[..|run|] == run;
  }

  ghost predicate Full(c: Cache, n: nat) {
    && |c.order| == n && c.next == n && |c.index| == n
    && (n > 0 ==> c.order[n - 1] == 0 && 0 in c.nodes && c.nodes[0] == CacheNode(NthKey(0), 0))
    && (n > 0 ==> NthKey(0) in c.index && c.index[NthKey(0)] == 0)
    && (forall key :: key in c.index ==> |key| < n)
  }

  lemma {:induction false} Filled(policy: Policy, n: nat)
    requires n <= MAX_CACHE_SIZE
    ensures Full(After(policy, Fill(n)), n) && LooksFirst(policy, Fill(n))
    decreases n
  {
    if n > 0 {
      Filled(policy, n - 1);
      hide After, LooksFirst, Call, Remembered;
      AfterCall(policy, Fill(n - 1), NthKey(n - 1), 0);
      FilledOne(After(policy, Fill(n - 1)), n);
    }
  }

  lemma FilledOne(c: Cache, n: nat)
    requires 0 < n <= MAX_CACHE_SIZE && Full(c, n - 1)
    ensures Full(Remembered(c, NthKey(n - 1), 0), n)
  {
    assert NthKey(n - 1) !in c.index;
    PushSizes(c, NthKey(n - 1), 0);
  }

  /** The last node of the list is the first one made, and its entry is gone. */
  ghost predicate LastIsOrphan(c: Cache, entries: nat, longest: nat) {
    && |c.order| == entries + 1 && c.order[entries] == 0 && 0 in c.nodes && c.nodes[0].cacheKey == NthKey(0)
    && NthKey(0) !in c.index && |c.index| == entries && forall key :: key in c.index ==> |key| <= longest
  }

  lemma FirstGoesStale(c: Cache, policy: Policy, now: int)
    requires Full(c, MAX_CACHE_SIZE) && now == 2_000 * NANOS_PER_MILLI
    ensures LastIsOrphan(Looked(c, policy, NthKey(0), now).0, MAX_CACHE_SIZE - 1, MAX_CACHE_SIZE)
  {
    SizeWithout(c.index, NthKey(0));
  }

  lemma PushedKeepsOrphan(c: Cache, n: nat, key: Key, now: int)
    requires Valid(c) && |key| > 0 && LastIsOrphan(c, n, |key| - 1)
    ensures LastIsOrphan(Pushed(c, key, now), n + 1, |key|)
  {
    hide NoRepeats;
    assert key !in c.index && key != NthKey(0);
    assert c.next != 0;
    PushSizes(c, key, now);
    var pushed := Pushed(c, key, now);
    assert pushed.order[|pushed.order| - 1] == c.order[|c.order| - 1];
  }

  /** Taking out the last node takes out no entry. */
  lemma EvictsNoEntry(c: Cache, n: nat, longest: nat)
    requires Valid(c) && LastIsOrphan(c, n, longest)
    ensures |Evicted(c).index| == n && (if n <= MAX_CACHE_SIZE then Evicted(c) == c else |Evicted(c).order| == n)
  {
    EvictSizes(c);
    hide Valid;
  }

  lemma OneMoreKey(c: Cache, n: nat, key: Key, now: int)
    requires Valid(c) && n <= MAX_CACHE_SIZE && |key| > 0 && LastIsOrphan(c, n, |key| - 1)
    ensures n < MAX_CACHE_SIZE ==> LastIsOrphan(Remembered(c, key, now), n + 1, |key|)
    ensures |Remembered(c, key, now).index| == n + 1
    ensures n == MAX_CACHE_SIZE ==> |Remembered(c, key, now).order| == n + 1
  {
    hide Valid, LastIsOrphan, Pushed, Evicted;
    PushedKeepsOrphan(c, n, key, now);
    PushedValid(c, key, now);
    EvictsNoEntry(Pushed(c, key, now), n + 1, |key|);
  }

  /** Ten thousand keys, a look that finds the first of them stale, and two new
      keys: the map holds one entry more than its bound, and no node is left
      without an entry. */
  lemma MapPassesBound(policy: Policy) returns (run: seq<Step>)
    ensures LooksFirst(policy, run)
    ensures |After(policy, run).index| == |After(policy, run).order| == 10_001
  {
    hide Fill, After, Call, LooksFirst, Looked, Remembered, Full, Valid, Traced;
    var now, k1, k2 := 2_000 * NANOS_PER_MILLI, NthKey(MAX_CACHE_SIZE + 1), NthKey(MAX_CACHE_SIZE + 2);
    var run0 := Fill(MAX_CACHE_SIZE);
    var run1 := run0 + [Look(NthKey(0), now)];
    var run2 := run1 + Call(k1, now);
    run := run2 + Call(k2, now);
    Filled(policy, MAX_CACHE_SIZE);
    AfterOne(policy, run0, Look(NthKey(0), now));
    FirstGoesStale(After(policy, run0), policy, now);
    RunIsValid(policy, run1);
    AfterCall(policy, run1, k1, now);
    OneMoreKey(After(policy, run1), MAX_CACHE_SIZE - 1, k1, now);
    RunIsValid(policy, run2);
    AfterCall(policy, run2, k2, now);
    OneMoreKey(After(policy, run2), MAX_CACHE_SIZE, k2, now);
  }
}
