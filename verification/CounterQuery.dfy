/**
 * Counter pools are queried one after the other.  The buffers the hardware fills change hands
 * between the free list, the pools that show them and the pools that wait for them.
 */
module CounterQuery {
  import opened Base

  const MAX_PENDING_QUERIES: nat := 4

  /** A pool shows the buffer `raw`; `rawHw` is the one the hardware is filling. */
  datatype Pool = Pool(raw: nat, rawHw: Option<nat>, queryGen: nat)

  /** The two containers of pools, the pools, the free buffers, and where the next query will go. */
  datatype Counters = Counters(
    containers: seq<seq<nat>>,
    pools: map<nat, Pool>,
    free: seq<nat>,
    pending: nat,
    batch: nat,
    poolIndex: nat)

  // ------------------------------------------------------------ ownership

  /** Where a buffer can be. */
  datatype Place = FreeList(index: nat) | Shown(pool: nat) | InFlight(pool: nat)

  predicate IsAt(c: Counters, buffer: nat, place: Place) {
    match place
    case FreeList(i) => i < |c.free| && c.free[i] == buffer
    case Shown(p) => p in c.pools && c.pools[p].raw == buffer
    case InFlight(p) => p in c.pools && c.pools[p].rawHw == Some(buffer)
  }

  /** Every buffer is in exactly one place. */
  ghost predicate Owned(c: Counters, buffers: set<nat>) {
    && (forall b | b in buffers :: exists x :: IsAt(c, b, x))
    && (forall b, x, y | IsAt(c, b, x) && IsAt(c, b, y) :: x == y)
    && (forall b, x | IsAt(c, b, x) :: b in buffers)
  }

  function Waiting(c: Counters): set<nat> { set p | p in c.pools && c.pools[p].rawHw.Some? }

  /** The pools in the order in which they are queried. */
  function Order(c: Counters): seq<nat>
    requires |c.containers| == 2
  {
    c.containers[0] + c.containers[1]
  }

  ghost predicate Inv(c: Counters, buffers: set<nat>) {
    && |c.containers| == 2 && c.batch < 2
    && NoDup(Order(c)) && (forall p :: p in Order(c) <==> p in c.pools)
    && (if c.containers[c.batch] == [] then c.poolIndex == 0 else c.poolIndex < |c.containers[c.batch]|)
    && Owned(c, buffers)
    && c.pending == |Waiting(c)| <= MAX_PENDING_QUERIES
  }

  // ------------------------------------------------------------ operations

  /** The container to look at: the other one when the current one is empty. */
  function Look(c: Counters): Counters
    requires |c.containers| == 2 && c.batch < 2
  {
    if c.containers[c.batch] == [] then c.(batch := 1 - c.batch, poolIndex := 0) else c
  }

  /** A query that the hardware accepted: the first free buffer is its to fill, and it is the next pool's turn. */
  function Queried(c: Counters): Counters
    requires |c.containers| == 2 && c.batch < 2 && c.poolIndex < |c.containers[c.batch]|
    requires c.containers[c.batch][c.poolIndex] in c.pools && c.free != []
  {
    var p := c.containers[c.batch][c.poolIndex];
    var wraps := c.poolIndex + 1 >= |c.containers[c.batch]|;
    c.(pools := c.pools[p := c.pools[p].(rawHw := Some(c.free[0]))],
       free := c.free[1..],
       pending := c.pending + 1,
       batch := if wraps then 1 - c.batch else c.batch,
       poolIndex := if wraps then 0 else c.poolIndex + 1)
  }

  /** The query can be made: not too many pending, the pool's last query answered, a buffer free. */
  predicate CanQuery(c: Counters)
    requires |c.containers| == 2 && c.batch < 2
  {
    var l := Look(c);
    && c.pending < MAX_PENDING_QUERIES && c.free != []
    && l.poolIndex < |l.containers[l.batch]|
    && l.containers[l.batch][l.poolIndex] in c.pools && c.pools[l.containers[l.batch][l.poolIndex]].rawHw.None?
  }

  /** `mlx5_flow_query_alarm`. */
  function Alarm(c: Counters, accepted: bool): Counters
    requires |c.containers| == 2 && c.batch < 2
  {
    if c.pending >= MAX_PENDING_QUERIES then c
    else if CanQuery(c) && accepted then Queried(Look(c))
    else Look(c)
  }

  /** `mlx5_flow_async_pool_query_handle`: the filled buffer replaces the one shown, a failed one goes back. */
  function Answered(c: Counters, p: nat, failed: bool): Counters
    requires p in c.pools && c.pools[p].rawHw.Some? && 0 < c.pending
  {
    var pool := c.pools[p];
    if failed then
      c.(pools := c.pools[p := pool.(rawHw := None)], free := [pool.rawHw.value] + c.free, pending := c.pending - 1)
    else
      c.(pools := c.pools[p := Pool(pool.rawHw.value, None, pool.queryGen + 1)], free := [pool.raw] + c.free,
              pending := c.pending - 1)
  }

  /** Memory for pools to come: spare buffers for the queries, and a pool with a buffer of its own. */
  function WithSpare(c: Counters, spare: seq<nat>): Counters { c.(free := spare + c.free) }

  function WithPool(c: Counters, batch: nat, p: nat, raw: nat): Counters
    requires batch < |c.containers|
  {
    c.(containers := c.containers[batch := c.containers[batch] + [p]], pools := c.pools[p := Pool(raw, None, 2)])
  }

  // -------------------------------------------------------------- ownership is kept

  /** A buffer that changes hands: everything else stays where it was, up to a renaming of places. */
  lemma QueriedOwned(c: Counters, buffers: set<nat>)
    requires Inv(c, buffers) && c.poolIndex < |c.containers[c.batch]| && c.free != []
    requires c.containers[c.batch][c.poolIndex] in c.pools && c.pools[c.containers[c.batch][c.poolIndex]].rawHw.None?
    ensures Owned(Queried(c), buffers)
  {
    var t, p := Queried(c), c.containers[c.batch][c.poolIndex];
    forall b, x | IsAt(t, b, x) ensures IsAt(c, b,
            if x.FreeList? then FreeList(x.index + 1) else if x == InFlight(p) then FreeList(0) else x) {
    }
    forall b | b in buffers ensures exists x :: IsAt(t, b, x) {
      var x :| IsAt(c, b, x);
      assert IsAt(t, b, if x.FreeList? then if x.index == 0 then InFlight(p) else FreeList(x.index - 1) else x);
    }
  }

  lemma AnsweredOwned(c: Counters, p: nat, failed: bool, buffers: set<nat>)
    requires Owned(c, buffers) && p in c.pools && c.pools[p].rawHw.Some? && 0 < c.pending
    ensures Owned(Answered(c, p, failed), buffers)
  {
    var t := Answered(c, p, failed);
    forall b, x | IsAt(t, b, x) ensures IsAt(c, b, Before(p, failed, x)) {
    }
    forall b | b in buffers ensures exists x :: IsAt(t, b, x) {
      var x :| IsAt(c, b, x);
      assert IsAt(t, b, if x.FreeList? then FreeList(x.index + 1)
                        else if x == InFlight(p) then (if failed then FreeList(0) else Shown(p))
                        else if x == Shown(p) && !failed then FreeList(0) else x);
    }
  }

  /** Where the buffer was before an answer. */
  function Before(p: nat, failed: bool, x: Place): Place {
    match x
    case FreeList(i) => if i == 0 then (if failed then InFlight(p) else Shown(p)) else FreeList(i - 1)
    case Shown(q) => if q == p && !failed then InFlight(p) else x
    case InFlight(q) => x
  }

  lemma LookKeepsInv(c: Counters, buffers: set<nat>)
    requires Inv(c, buffers)
    ensures Inv(Look(c), buffers) && (c.pools != map[] ==> Look(c).poolIndex < |Look(c).containers[Look(c).batch]|)
  {
    var l := Look(c);
    assert forall b, x :: IsAt(l, b, x) <==> IsAt(c, b, x);
    assert Waiting(l) == Waiting(c) && Order(l) == Order(c);
    if c.pools != map[] {
      var p :| p in c.pools;
      assert p in Order(c);
    }
  }

  lemma QueriedKeepsInv(c: Counters, buffers: set<nat>)
    requires Inv(c, buffers) && CanQuery(c) && c.poolIndex < |c.containers[c.batch]|
    ensures Inv(Queried(c), buffers)
  {
    QueriedOwned(c, buffers);
    var t, p := Queried(c), c.containers[c.batch][c.poolIndex];
    assert Waiting(t) == Waiting(c) + {p};
    assert Order(t) == Order(c);
  }

  lemma AlarmKeepsInv(c: Counters, accepted: bool, buffers: set<nat>)
    requires Inv(c, buffers)
    ensures Inv(Alarm(c, accepted), buffers)
  {
    LookKeepsInv(c, buffers);
    if CanQuery(c) {
      assert Look(Look(c)) == Look(c);
      QueriedKeepsInv(Look(c), buffers);
    }
  }

  lemma AnsweredKeepsInv(c: Counters, p: nat, failed: bool, buffers: set<nat>)
    requires Inv(c, buffers) && p in c.pools && c.pools[p].rawHw.Some?
    ensures 0 < c.pending && Inv(Answered(c, p, failed), buffers)
  {
    assert p in Waiting(c);
    AnsweredOwned(c, p, failed, buffers);
    var t := Answered(c, p, failed);
    assert Waiting(t) == Waiting(c) - {p};
    assert Order(t) == Order(c);
  }

  /** New buffers are in one place each, the old ones where they were. */
  lemma SpareKeepsInv(c: Counters, spare: seq<nat>, buffers: set<nat>)
    requires Inv(c, buffers) && NoDup(spare) && forall b | b in spare :: b !in buffers
    ensures Inv(WithSpare(c, spare), buffers + set b | b in spare)
  {
    var t := WithSpare(c, spare);
    forall b, x | IsAt(t, b, x)
      ensures if x.FreeList? && x.index < |spare| then b == spare[x.index]
              else IsAt(c, b, if x.FreeList? then FreeList(x.index - |spare|) else x)
    {
    }
    var all := buffers + set b | b in spare;
    forall b | b in all ensures exists x :: IsAt(t, b, x) {
      if b in spare {
        var i :| 0 <= i < |spare| && spare[i] == b;
        assert IsAt(t, b, FreeList(i));
      } else {
        var x :| IsAt(c, b, x);
        assert IsAt(t, b, if x.FreeList? then FreeList(x.index + |spare|) else x);
      }
    }
    assert Waiting(t) == Waiting(c) && Order(t) == Order(c);
  }

  lemma PoolKeepsInv(c: Counters, batch: nat, p: nat, raw: nat, buffers: set<nat>)
    requires Inv(c, buffers) && batch < 2 && p !in c.pools && raw !in buffers
    ensures Inv(WithPool(c, batch, p, raw), buffers + {raw})
  {
    var t := WithPool(c, batch, p, raw);
    forall b, x | IsAt(t, b, x) ensures if x == Shown(p) then b == raw else IsAt(c, b, x) {
    }
    forall b | b in buffers + {raw} ensures exists x :: IsAt(t, b, x) {
      if b == raw {
        assert IsAt(t, b, Shown(p));
      } else {
        var x :| IsAt(c, b, x);
        assert IsAt(t, b, x);
      }
    }
    assert Waiting(t) == Waiting(c);
    PoolOrder(c, batch, p, raw);
  }

  lemma PoolOrder(c: Counters, batch: nat, p: nat, raw: nat)
    requires |c.containers| == 2 && batch < 2 && NoDup(Order(c)) && p !in Order(c)
    ensures var t := WithPool(c, batch, p, raw);
            |t.containers| == 2 && NoDup(Order(t)) && forall q :: q in Order(t) <==> q == p || q in Order(c)
  {
    var t, o := WithPool(c, batch, p, raw), Order(c);
    var at := if batch == 0 then |c.containers[0]| else |o|;
    assert Order(t) == o[..at] + [p] + o[at..];
    assert o == o[..at] + o[at..];
  }

  // ------------------------------------------------------- who is queried when

  /** How many spare buffers an event provides. */
  function Spares(events: seq<Event>): nat {
    if events == [] then 0
    else (if events[0].SpareAdded? then |events[0].spare| else 0) + Spares(events[1..])
  }

  /** In every run free and pending buffers together are the spare buffers there were plus those provided. */
  lemma {:induction false} RunConservesSpares(c: Counters, events: seq<Event>, buffers: set<nat>)
    requires Inv(c, buffers) && Possible(c, events, buffers)
    ensures |After(c, events).free| + After(c, events).pending == |c.free| + c.pending + Spares(events)
    decreases |events|
  {
    if events != [] {
      var e := events[0];
      StepKeepsInv(c, e, buffers);
      StepConservesSpares(c, e, buffers);
      RunConservesSpares(Step(c, e), events[1..], buffers + Buffers(e));
    }
  }

  lemma StepConservesSpares(c: Counters, e: Event, buffers: set<nat>)
    requires Inv(c, buffers) && Enabled(c, e, buffers)
    ensures |Step(c, e).free| + Step(c, e).pending == |c.free| + c.pending + if e.SpareAdded? then |e.spare| else 0
  {
    match e
    case AlarmRings(accepted) =>
    case AnswerComes(p, failed) => AnsweredKeepsInv(c, p, failed, buffers);
    case SpareAdded(spare) =>
    case PoolAdded(batch, p, raw) =>
  }

  /** With as many spare buffers as queries may be pending, a query never fails for want of a buffer. */
  lemma QueryNeedsNoLuck(c: Counters, buffers: set<nat>)
    requires Inv(c, buffers) && c.pools != map[] && MAX_PENDING_QUERIES <= |c.free| + c.pending
    ensures CanQuery(c) <==> c.pending < MAX_PENDING_QUERIES && Order(c) != [] && c.pools[Order(c)[Slot(c)]].rawHw.None?
  {
    LookKeepsInv(c, buffers);
    SlotIsNext(c, buffers);
  }

  /** The place of the next query in the order of all pools. */
  function Slot(c: Counters): (i: nat)
    requires |c.containers| == 2 && c.batch < 2
    requires if c.containers[c.batch] == [] then c.poolIndex == 0 else c.poolIndex < |c.containers[c.batch]|
    ensures Order(c) != [] ==> i < |Order(c)|
  {
    if c.batch == 0 then c.poolIndex else if c.containers[1] == [] then 0 else |c.containers[0]| + c.poolIndex
  }

  lemma SlotIsNext(c: Counters, buffers: set<nat>)
    requires Inv(c, buffers) && c.pools != map[]
    ensures Order(c) != [] && Look(c).poolIndex < |Look(c).containers[Look(c).batch]|
    ensures Order(c)[Slot(c)] in c.pools
    ensures Look(c).containers[Look(c).batch][Look(c).poolIndex] == Order(c)[Slot(c)]
    ensures Slot(Look(c)) == Slot(c)
  {
    LookKeepsInv(c, buffers);
    var p :| p in c.pools;
    assert p in Order(c);
    assert Order(c)[Slot(c)] in Order(c);
  }

  /** An accepted query goes to the pool whose turn it is, with the first free buffer, and passes the turn on. */
  lemma AlarmTakesTurns(c: Counters, buffers: set<nat>)
    requires Inv(c, buffers) && CanQuery(c)
    ensures Order(c) != [] && Order(c)[Slot(c)] in c.pools && Inv(Alarm(c, true), buffers)
    ensures var t, p := Alarm(c, true), Order(c)[Slot(c)];
            && Order(t) == Order(c)
            && t.pools == c.pools[p := c.pools[p].(rawHw := Some(c.free[0]))]
            && Slot(t) == if Slot(c) + 1 == |Order(c)| then 0 else Slot(c) + 1
  {
    assert c.pools != map[];
    AlarmKeepsInv(c, true, buffers);
    SlotIsNext(c, buffers);
    var t := Alarm(c, true);
    assert t == Queried(Look(c)) && Order(t) == Order(c);
  }

  // -------------------------------------------------------------- whole runs

  datatype Event =
    | AlarmRings(accepted: bool)
    | AnswerComes(pool: nat, failed: bool)
    | SpareAdded(spare: seq<nat>)
    | PoolAdded(batch: nat, pool: nat, raw: nat)

  ghost predicate Enabled(c: Counters, e: Event, buffers: set<nat>) {
    match e
    case AlarmRings(_) => true
    case AnswerComes(p, _) => p in c.pools && c.pools[p].rawHw.Some?
    case SpareAdded(spare) => NoDup(spare) && forall b | b in spare :: b !in buffers
    case PoolAdded(batch, p, raw) => batch < 2 && p !in c.pools && raw !in buffers
  }

  function Step(c: Counters, e: Event): (r: Counters)
    requires |c.containers| == 2 && c.batch < 2
    ensures |r.containers| == 2 && r.batch < 2
  {
    match e
    case AlarmRings(accepted) => Alarm(c, accepted)
    case AnswerComes(p, failed) =>
      if p in c.pools && c.pools[p].rawHw.Some? && 0 < c.pending then Answered(c, p, failed) else c
    case SpareAdded(spare) => WithSpare(c, spare)
    case PoolAdded(batch, p, raw) => if batch < 2 then WithPool(c, batch, p, raw) else c
  }

  function Buffers(e: Event): set<nat> {
    match e
    case AlarmRings(_) => {}
    case AnswerComes(_, _) => {}
    case SpareAdded(spare) => set b | b in spare
    case PoolAdded(_, _, raw) => {raw}
  }

  lemma StepKeepsInv(c: Counters, e: Event, buffers: set<nat>)
    requires Inv(c, buffers) && Enabled(c, e, buffers)
    ensures Inv(Step(c, e), buffers + Buffers(e))
  {
    assert buffers + {} == buffers;
    match e
    case AlarmRings(accepted) => AlarmKeepsInv(c, accepted, buffers);
    case AnswerComes(p, failed) => AnsweredKeepsInv(c, p, failed, buffers);
    case SpareAdded(spare) => SpareKeepsInv(c, spare, buffers);
    case PoolAdded(batch, p, raw) => PoolKeepsInv(c, batch, p, raw, buffers);
  }

  /** The events can happen one after the other. */
  ghost predicate Possible(c: Counters, events: seq<Event>, buffers: set<nat>)
    requires |c.containers| == 2 && c.batch < 2
    decreases |events|
  {
    events == [] || (Enabled(c, events[0], buffers) &&
                     Possible(Step(c, events[0]), events[1..], buffers + Buffers(events[0])))
  }

  function After(c: Counters, events: seq<Event>): Counters
    requires |c.containers| == 2 && c.batch < 2
    decreases |events|
  {
    if events == [] then c else After(Step(c, events[0]), events[1..])
  }

  function AllBuffers(events: seq<Event>): set<nat> {
    if events == [] then {} else Buffers(events[0]) + AllBuffers(events[1..])
  }

  /** After any events every buffer is in exactly one place and the pending queries are counted. */
  lemma {:induction false} RunKeepsInv(c: Counters, events: seq<Event>, buffers: set<nat>, all: set<nat>)
    requires Inv(c, buffers) && Possible(c, events, buffers) && all == buffers + AllBuffers(events)
    ensures Inv(After(c, events), all)
    decreases |events|
  {
    if events == [] {
      assert all == buffers;
    } else {
      var e, rest := events[0], events[1..];
      StepKeepsInv(c, e, buffers);
      RunKeepsInv(Step(c, e), rest, buffers + Buffers(e), all);
    }
  }

  // ------------------------------------------------------------ what a pool shows

  /**
   * What an event does to a pool: an accepted query hands it the first free buffer when it is its turn; a
   * successful answer makes it show the buffer that was in flight, with a new generation; a failed one
   * leaves it showing what it showed; nothing else touches it.
   */
  lemma PoolStep(c: Counters, e: Event, buffers: set<nat>, p: nat)
    requires Inv(c, buffers) && Enabled(c, e, buffers) && p in c.pools
    ensures p in Step(c, e).pools && Order(c) != []
    ensures var before, after := c.pools[p], Step(c, e).pools[p];
            if e == AnswerComes(p, false) then after == Pool(before.rawHw.value, None, before.queryGen + 1)
            else if e == AnswerComes(p, true) then after == Pool(before.raw, None, before.queryGen)
            else if e == AlarmRings(true) && CanQuery(c) && Order(c)[Slot(c)] == p
            then before.rawHw.None? && after == Pool(before.raw, Some(c.free[0]), before.queryGen)
            else after == before
  {
    SlotIsNext(c, buffers);
    if e.AnswerComes? {
      AnsweredKeepsInv(c, e.pool, e.failed, buffers);
    } else if e == AlarmRings(true) && CanQuery(c) {
      AlarmTakesTurns(c, buffers);
    }
  }

  /** The successful answers a pool got. */
  function Successes(events: seq<Event>, p: nat): nat {
    if events == [] then 0 else (if events[0] == AnswerComes(p, false) then 1 else 0) + Successes(events[1..], p)
  }

  /** The buffer in flight at the last successful answer, `shown` if there was none. */
  function LastFilled(c: Counters, events: seq<Event>, p: nat, shown: nat): nat
    requires |c.containers| == 2 && c.batch < 2
    decreases |events|
  {
    if events == [] then shown
    else
      LastFilled(Step(c, events[0]), events[1..], p,
                 if events[0] == AnswerComes(p, false) && p in c.pools && c.pools[p].rawHw.Some?
                 then c.pools[p].rawHw.value else shown)
  }

  /** In every run a pool shows the buffer of its last successful answer, and its generation counts them. */
  lemma {:induction false} RunShows(c: Counters, events: seq<Event>, buffers: set<nat>, p: nat)
    requires Inv(c, buffers) && Possible(c, events, buffers) && p in c.pools
    ensures p in After(c, events).pools
    ensures After(c, events).pools[p].queryGen == c.pools[p].queryGen + Successes(events, p)
    ensures After(c, events).pools[p].raw == LastFilled(c, events, p, c.pools[p].raw)
    decreases |events|
  {
    if events != [] {
      var e := events[0];
      PoolStep(c, e, buffers, p);
      StepKeepsInv(c, e, buffers);
      RunShows(Step(c, e), events[1..], buffers + Buffers(e), p);
    }
  }

  /** The pools to which accepted queries go, in order. */
  function Turns(c: Counters, events: seq<Event>): seq<nat>
    requires |c.containers| == 2 && c.batch < 2
    decreases |events|
  {
    if events == [] then []
    else
      var rest := Turns(Step(c, events[0]), events[1..]);
      if events[0] == AlarmRings(true) && CanQuery(c)
      then [Look(c).containers[Look(c).batch][Look(c).poolIndex]] + rest else rest
  }

  predicate NoNewPools(events: seq<Event>) { forall e | e in events :: !e.PoolAdded? }

  /** An event that is no accepted query leaves the turn where it was. */
  lemma OtherEventKeepsTurn(c: Counters, e: Event, buffers: set<nat>)
    requires Inv(c, buffers) && Enabled(c, e, buffers) && !e.PoolAdded? && !(e == AlarmRings(true) && CanQuery(c))
    requires c.pools != map[]
    ensures Inv(Step(c, e), buffers + Buffers(e)) && Order(Step(c, e)) == Order(c) && Slot(Step(c, e)) == Slot(c)
  {
    StepKeepsInv(c, e, buffers);
    SlotIsNext(c, buffers);
  }

  /** The place `k` steps further on a ring of `n`. */
  function Further(i: nat, k: nat, n: nat): (r: nat)
    requires i < n
    ensures r < n
    decreases k
  {
    if k == 0 then i else Further(if i + 1 == n then 0 else i + 1, k - 1, n)
  }

  lemma {:induction false} FurtherTwice(i: nat, k: nat, l: nat, n: nat)
    requires i < n
    ensures Further(i, k + l, n) == Further(Further(i, k, n), l, n)
    decreases k
  {
    if k > 0 { FurtherTwice(if i + 1 == n then 0 else i + 1, k - 1, l, n); }
  }

  lemma {:induction false} FurtherOnce(i: nat, k: nat, n: nat)
    requires i < n && k < n
    ensures Further(i, k, n) == if i + k < n then i + k else i + k - n
    decreases k
  {
    if k > 0 { FurtherOnce(if i + 1 == n then 0 else i + 1, k - 1, n); }
  }

  /** The queries go round: the k-th one from now goes to the pool k places after the next one. */
  lemma {:induction false} TurnsGoRound(c: Counters, events: seq<Event>, buffers: set<nat>, k: nat)
    requires Inv(c, buffers) && Possible(c, events, buffers) && NoNewPools(events) && c.pools != map[]
    requires k < |Turns(c, events)|
    ensures Order(c) != [] && Turns(c, events)[k] == Order(c)[Further(Slot(c), k, |Order(c)|)]
    decreases |events|
  {
    var e, rest, t := events[0], events[1..], Step(c, events[0]);
    SlotIsNext(c, buffers);
    StepKeepsInv(c, e, buffers);
    StepKeepsPools(c, e);
    assert NoNewPools(rest);
    if e == AlarmRings(true) && CanQuery(c) {
      AlarmTakesTurns(c, buffers);
      if 0 < k {
        TurnsGoRound(t, rest, buffers + Buffers(e), k - 1);
      }
    } else {
      OtherEventKeepsTurn(c, e, buffers);
      TurnsGoRound(t, rest, buffers + Buffers(e), k);
    }
  }

  lemma StepKeepsPools(c: Counters, e: Event)
    requires |c.containers| == 2 && c.batch < 2 && c.pools != map[]
    ensures Step(c, e).pools != map[]
  {
    var p :| p in c.pools;
    assert p in Step(c, e).pools;
  }

  /** Queries closer together than there are pools go to different pools. */
  lemma TurnsDiffer(c: Counters, events: seq<Event>, buffers: set<nat>, i: nat, j: nat)
    requires Inv(c, buffers) && Possible(c, events, buffers) && NoNewPools(events) && c.pools != map[]
    requires i < j < |Turns(c, events)| && j < i + |Order(c)|
    ensures Turns(c, events)[i] != Turns(c, events)[j]
  {
    SlotIsNext(c, buffers);
    TurnsGoRound(c, events, buffers, i);
    TurnsGoRound(c, events, buffers, j);
    var n := |Order(c)|;
    FurtherTwice(Slot(c), i, j - i, n);
    FurtherOnce(Further(Slot(c), i, n), j - i, n);
  }

  /** From any turn on, every pool is queried before the turns have gone round once. */
  lemma PoolComesUp(c: Counters, events: seq<Event>, buffers: set<nat>, i: nat, q: nat) returns (k: nat)
    requires Inv(c, buffers) && Possible(c, events, buffers) && NoNewPools(events) && q in c.pools
    requires i + |Order(c)| <= |Turns(c, events)|
    ensures i <= k < i + |Order(c)| && Turns(c, events)[k] == q
  {
    SlotIsNext(c, buffers);
    var n := |Order(c)|;
    var from := Further(Slot(c), i, n);
    assert q in Order(c);
    var x :| 0 <= x < n && Order(c)[x] == q;
    var d := if from <= x then x - from else x + n - from;
    k := i + d;
    FurtherTwice(Slot(c), i, d, n);
    FurtherOnce(from, d, n);
    TurnsGoRound(c, events, buffers, k);
  }

  /** Between two queries of the same pool every other pool gets its turn. */
  lemma EveryPoolGetsItsTurn(c: Counters, events: seq<Event>, buffers: set<nat>, i: nat, j: nat, q: nat)
    returns (k: nat)
    requires Inv(c, buffers) && Possible(c, events, buffers) && NoNewPools(events) && q in c.pools
    requires i < j < |Turns(c, events)| && Turns(c, events)[i] == Turns(c, events)[j]
    ensures i <= k < j && Turns(c, events)[k] == q
  {
    if j < i + |Order(c)| {
      TurnsDiffer(c, events, buffers, i, j);
    }
    k := PoolComesUp(c, events, buffers, i, q);
  }

  // -------------------------------------------------------------- in place

  class CounterManager {
    var containers: seq<seq<nat>>
    var pools: map<nat, Pool>
    var freeStatRaws: seq<nat>
    var pendingQueries: nat
    var batch: nat
    var poolIndex: nat

    ghost function State(): Counters
      reads this
    {
      Counters(containers, pools, freeStatRaws, pendingQueries, batch, poolIndex)
    }

    constructor ()
      ensures State() == Counters([[], []], map[], [], 0, 0, 0) && Inv(State(), {})
    {
      containers, pools, freeStatRaws := [[], []], map[], [];
      pendingQueries, batch, poolIndex := 0, 0, 0;
      new;
      assert Waiting(State()) == {};
    }

    /** The periodic alarm; `accepted` says whether the hardware takes the query. */
    method QueryAlarm(accepted: bool, ghost buffers: set<nat>)
      requires Inv(State(), buffers)
      modifies this
      ensures State() == Alarm(old(State()), accepted)
    {
      LookKeepsInv(State(), buffers);
      if pendingQueries >= MAX_PENDING_QUERIES {
        return;
      }
      if containers[batch] == [] {
        batch, poolIndex := 1 - batch, 0;
        if containers[batch] == [] {
          return;
        }
      }
      assert containers[batch][poolIndex] in Order(State());
      QueryPool(accepted);
    }

    /** Query the pool whose turn it is, unless it waits for an answer or there is no buffer. */
    method QueryPool(accepted: bool)
      requires |containers| == 2 && batch < 2 && poolIndex < |containers[batch]|
      requires containers[batch][poolIndex] in pools
      modifies this
      ensures State() == if accepted && old(freeStatRaws != [] && pools[containers[batch][poolIndex]].rawHw.None?)
                         then Queried(old(State())) else old(State())
    {
      var pool := containers[batch][poolIndex];
      if pools[pool].rawHw.Some? || freeStatRaws == [] {
        return;
      }
      pools := pools[pool := pools[pool].(rawHw := Some(freeStatRaws[0]))];
      if !accepted {
        pools := pools[pool := pools[pool].(rawHw := None)];
        assert pools == old(pools);
        return;
      }
      freeStatRaws := freeStatRaws[1..];
      pendingQueries := pendingQueries + 1;
      poolIndex := poolIndex + 1;
      if poolIndex >= |containers[batch]| {
        batch, poolIndex := 1 - batch, 0;
      }
    }

    /** The hardware answered the query of a pool. */
    method PoolQueryHandle(pool: nat, failed: bool, ghost buffers: set<nat>)
      requires Inv(State(), buffers) && pool in pools && pools[pool].rawHw.Some?
      modifies this
      ensures 0 < old(pendingQueries) && State() == Answered(old(State()), pool, failed)
    {
      AnsweredKeepsInv(State(), pool, failed, buffers);
      var rawToFree;
      if failed {
        rawToFree := pools[pool].rawHw.value;
      } else {
        rawToFree := pools[pool].raw;
        pools := pools[pool := pools[pool].(raw := pools[pool].rawHw.value, queryGen := pools[pool].queryGen + 1)];
      }
      freeStatRaws := [rawToFree] + freeStatRaws;
      pools := pools[pool := pools[pool].(rawHw := None)];
      pendingQueries := pendingQueries - 1;
    }
  }
}
