/**
 * One round of grants: a walk over the scheduled peers that grants the first message of
 * each, while messages that become fully granted leave the schedule and their peers move
 * behind the iterator's back.
 */
module Grants {
  import opened Base
  import opened Protocol
  import opened Ordering
  import opened Scheduler

  /** A message looked at in a round. */
  datatype Visit = Visit(id: MessageId, remaining: int, priority: int)

  /** The first message of the peer at index `pos`. */
  function FrontId(s: Sched, pos: nat): MessageId
    requires pos < |s.peers| && ListOf(s.lists, s.peers[pos]) != []
  {
    ListOf(s.lists, s.peers[pos])[0]
  }

  lemma FrontLinked(s: Sched, pos: nat)
    requires SchedInv(s) && pos < |s.peers|
    ensures ListOf(s.lists, s.peers[pos]) != [] && LinkedTo(s.msgs, FrontId(s, pos), s.peers[pos])
    ensures FrontKey(s.msgs, s.lists, s.peers[pos]) == s.msgs[FrontId(s, pos)].bytesRemaining
  {
    assert s.peers[pos] in s.peers;
    assert ListInv(s.msgs, s.lists, s.peers[pos]);
    assert FrontId(s, pos) in ListOf(s.lists, s.peers[pos]);
  }

  /** Granting changes neither the peer nor the remaining bytes of a message. */
  lemma ChangeKeepsInv(s: Sched, id: MessageId, m: InMessage)
    requires SchedInv(s) && id in s.msgs
    requires m.peer == s.msgs[id].peer && m.bytesRemaining == s.msgs[id].bytesRemaining
    ensures SchedInv(s.(msgs := s.msgs[id := m]))
    ensures forall q :: FrontKey(s.msgs[id := m], s.lists, q) == FrontKey(s.msgs, s.lists, q)
  {
    var msgs := s.msgs[id := m];
    forall q ensures ListInv(msgs, s.lists, q) && FrontKey(msgs, s.lists, q) == FrontKey(s.msgs, s.lists, q) {
      assert ListInv(s.msgs, s.lists, q);
      SortedSame(ListOf(s.lists, q), s.msgs, msgs);
    }
    PeersSame(s, msgs, s.lists);
  }

  /** Grant one message; it is unscheduled when everything is granted. */
  function GrantTo(s: Sched, id: MessageId, policy: Scheduled, priority: int): Sched
    requires SchedInv(s) && id in s.msgs && s.msgs[id].peer.Some?
  {
    var g := Granted(s.msgs[id], policy, priority);
    if g.peer.Some? then s.(msgs := s.msgs[id := g])
    else
      var raised := s.(msgs := s.msgs[id := g.(peer := s.msgs[id].peer)]);
      ChangeKeepsInv(s, id, g.(peer := s.msgs[id].peer));
      UnscheduleKeepsInv(raised, id);
      Unschedule(raised, id)
  }

  lemma GrantToKeepsInv(s: Sched, id: MessageId, policy: Scheduled, priority: int)
    requires SchedInv(s) && id in s.msgs && s.msgs[id].peer.Some?
    ensures SchedInv(GrantTo(s, id, policy, priority))
    ensures GrantTo(s, id, policy, priority).msgs == s.msgs[id := Granted(s.msgs[id], policy, priority)]
  {
    var g := Granted(s.msgs[id], policy, priority);
    if g.peer.Some? {
      ChangeKeepsInv(s, id, g);
    } else {
      var kept := g.(peer := s.msgs[id].peer);
      ChangeKeepsInv(s, id, kept);
      UnscheduleKeepsInv(s.(msgs := s.msgs[id := kept]), id);
      assert s.msgs[id := kept][id := g] == s.msgs[id := g];
    }
  }

  /** What a grant does to the peers: the peer of the message stays, goes, or moves further back. */
  lemma GrantToPeers(s: Sched, pos: nat, policy: Scheduled, priority: int)
    requires SchedInv(s) && pos < |s.peers|
    ensures ListOf(s.lists, s.peers[pos]) != [] && LinkedTo(s.msgs, FrontId(s, pos), s.peers[pos])
    ensures var id := FrontId(s, pos);
            var t := GrantTo(s, id, policy, priority);
            || t.peers == s.peers
            || (t.msgs[id].peer.None? && t.peers == RemoveAt(s.peers, pos))
            || (t.msgs[id].peer.None? && exists j :: pos < j < |s.peers| && t.peers == Move(s.peers, pos, j))
  {
    FrontLinked(s, pos);
    var id := FrontId(s, pos);
    var t := GrantTo(s, id, policy, priority);
    GrantToKeepsInv(s, id, policy, priority);
    var k := IndexIn(s.peers, s.peers[pos]);
    assert k == pos;
    if t.peers != s.peers && |t.peers| == |s.peers| {
      var j := Sink(s.peers, s.peers[pos], pos + 1, ByFront(t.msgs, t.lists)) - 1;
      assert t.peers == Move(s.peers, pos, j);
      if j == pos { MoveNowhere(s.peers, pos); }
    }
  }

  // ------------------------------------------------------------- the walk

  /** The schedule and the index of the peer the iterator points at. */
  datatype Spot = Spot(s: Sched, pos: nat)

  /** The priority a message gets: the earlier its turn, the higher; unused levels are left free at the top. */
  function PriorityAt(policy: Scheduled, slot: int, unused: int): int {
    Max(0, policy.maxScheduledPriority - slot - unused)
  }

  /**
   * One turn: the first message of the peer under the iterator is granted; the iterator
   * was moved to the next peer before, and stays with it.
   */
  ghost predicate Turn(a: Spot, b: Spot, v: Visit, policy: Scheduled, slot: int, unused: int) {
    && SchedInv(a.s) && a.pos < |a.s.peers|
    && ListOf(a.s.lists, a.s.peers[a.pos]) != [] && LinkedTo(a.s.msgs, FrontId(a.s, a.pos), a.s.peers[a.pos])
    && v == Visit(FrontId(a.s, a.pos), a.s.msgs[FrontId(a.s, a.pos)].bytesRemaining, PriorityAt(policy, slot, unused))
    && b.s == GrantTo(a.s, v.id, policy, v.priority)
    && b.pos <= |b.s.peers|
    && (if a.pos + 1 < |a.s.peers| then b.pos < |b.s.peers| && b.s.peers[b.pos] == a.s.peers[a.pos + 1]
        else b.pos == |b.s.peers|)
  }

  /** The peer the iterator points at, none at the end of the list. */
  ghost predicate PointsAt(x: Spot, it: Option<nat>) {
    x.pos <= |x.s.peers| && it == if x.pos < |x.s.peers| then Some(x.s.peers[x.pos]) else None
  }

  /** The peer behind another one. */
  function After(peers: seq<nat>, peer: nat): Option<nat>
    requires peer in peers
  {
    var i := IndexIn(peers, peer);
    if i + 1 < |peers| then Some(peers[i + 1]) else None
  }

  /** An iterator advanced before the grant points at a scheduled peer, or at the end, after it. */
  lemma IteratorSurvives(a: Spot, t: Sched, v: Visit, policy: Scheduled, slot: int, unused: int) returns (b: Spot)
    requires SchedInv(a.s) && a.pos < |a.s.peers| && ListOf(a.s.lists, a.s.peers[a.pos]) != []
    requires LinkedTo(a.s.msgs, FrontId(a.s, a.pos), a.s.peers[a.pos])
    requires v == Visit(FrontId(a.s, a.pos), a.s.msgs[FrontId(a.s, a.pos)].bytesRemaining,
                        PriorityAt(policy, slot, unused))
    requires t == GrantTo(a.s, v.id, policy, v.priority)
    ensures b.s == t && Turn(a, b, v, policy, slot, unused) && SchedInv(t)
    ensures PointsAt(b, After(a.s.peers, a.s.peers[a.pos]))
    ensures t.msgs == a.s.msgs[v.id := Granted(a.s.msgs[v.id], policy, v.priority)]
  {
    GrantToKeepsInv(a.s, v.id, policy, v.priority);
    assert IndexIn(a.s.peers, a.s.peers[a.pos]) == a.pos;
    if a.pos + 1 < |a.s.peers| {
      var next := a.s.peers[a.pos + 1];
      assert next in a.s.peers && ListOf(t.lists, next) == ListOf(a.s.lists, next);
      b := Spot(t, IndexIn(t.peers, next));
    } else {
      b := Spot(t, |t.peers|);
    }
  }

  ghost predicate Walk(spots: seq<Spot>, visits: seq<Visit>, policy: Scheduled, unused: int) {
    && |spots| == |visits| + 1 && spots[0].pos == 0
    && forall k {:trigger visits[k]} | 0 <= k < |visits| :: Turn(spots[k], spots[k + 1], visits[k], policy, k, unused)
  }

  lemma WalkExtends(spots: seq<Spot>, visits: seq<Visit>, policy: Scheduled, unused: int, b: Spot, v: Visit)
    requires Walk(spots, visits, policy, unused) && Turn(spots[|visits|], b, v, policy, |visits|, unused)
    ensures Walk(spots + [b], visits + [v], policy, unused)
  {
    var longer, more := spots + [b], visits + [v];
    forall k | 0 <= k < |more| ensures Turn(longer[k], longer[k + 1], more[k], policy, k, unused) {
      if k < |visits| {
        assert more[k] == visits[k];
      }
    }
  }

  /** The iterator ends up one further, or at the same index when the peer it left went away or moved behind it. */
  lemma TurnMoves(a: Spot, b: Spot, v: Visit, policy: Scheduled, slot: int, unused: int)
    requires Turn(a, b, v, policy, slot, unused)
    ensures SchedInv(b.s) && b.s.msgs == a.s.msgs[v.id := Granted(a.s.msgs[v.id], policy, v.priority)]
    ensures || (b.s.peers == a.s.peers && b.pos == a.pos + 1)
            || (b.s.peers == RemoveAt(a.s.peers, a.pos) && b.pos == a.pos && b.s.msgs[v.id].peer.None?)
            || (b.pos == a.pos && b.s.msgs[v.id].peer.None? &&
                exists j :: a.pos < j < |a.s.peers| && b.s.peers == Move(a.s.peers, a.pos, j))
  {
    var s, t, pos := a.s, b.s, a.pos;
    GrantToKeepsInv(s, v.id, policy, v.priority);
    GrantToPeers(s, pos, policy, v.priority);
    if t.peers != s.peers && t.peers != RemoveAt(s.peers, pos) {
      var j :| pos < j < |s.peers| && t.peers == Move(s.peers, pos, j);
      MoveAt(s.peers, pos, j, pos);
    }
  }

  /** A message the walk may still come to: its peer is at or behind the iterator. */
  ghost predicate Ahead(x: Spot, id: MessageId) {
    exists k :: x.pos <= k < |x.s.peers| && LinkedTo(x.s.msgs, id, x.s.peers[k])
  }

  /** A peer ahead of the iterator after a turn was ahead of it before, the one just left only if its message went. */
  lemma PeerWasAhead(a: Spot, b: Spot, v: Visit, policy: Scheduled, slot: int, unused: int, k: nat) returns (i: nat)
    requires Turn(a, b, v, policy, slot, unused) && b.pos <= k < |b.s.peers|
    ensures a.pos <= i < |a.s.peers| && a.s.peers[i] == b.s.peers[k]
    ensures i == a.pos ==> v.id in b.s.msgs && b.s.msgs[v.id].peer.None?
  {
    TurnMoves(a, b, v, policy, slot, unused);
    if b.s.peers == a.s.peers && b.pos == a.pos + 1 {
      i := k;
    } else if b.s.peers == RemoveAt(a.s.peers, a.pos) {
      i := k + 1;
    } else {
      var j :| a.pos < j < |a.s.peers| && b.s.peers == Move(a.s.peers, a.pos, j);
      MoveAt(a.s.peers, a.pos, j, k);
      i := if k == j then a.pos else if k < j then k + 1 else k;
    }
  }

  /** A turn takes the visited message out of what lies ahead and adds nothing. */
  lemma AheadShrinks(a: Spot, b: Spot, v: Visit, policy: Scheduled, slot: int, unused: int, id: MessageId)
    requires Turn(a, b, v, policy, slot, unused) && Ahead(b, id)
    ensures Ahead(a, id) && id != v.id
  {
    TurnMoves(a, b, v, policy, slot, unused);
    var k :| b.pos <= k < |b.s.peers| && LinkedTo(b.s.msgs, id, b.s.peers[k]);
    var i := PeerWasAhead(a, b, v, policy, slot, unused, k);
    assert LinkedTo(a.s.msgs, id, a.s.peers[i]);
  }

  /** Every peer ahead after a turn has at least as much remaining as the message just visited. */
  lemma KeysAhead(a: Spot, b: Spot, v: Visit, policy: Scheduled, slot: int, unused: int, k: nat)
    requires Turn(a, b, v, policy, slot, unused) && b.pos <= k < |b.s.peers|
    ensures ListOf(b.s.lists, b.s.peers[k]) != [] && FrontId(b.s, k) in b.s.msgs
    ensures v.remaining <= b.s.msgs[FrontId(b.s, k)].bytesRemaining
  {
    TurnMoves(a, b, v, policy, slot, unused);
    FrontLinked(b.s, k);
    var id := FrontId(b.s, k);
    var i := PeerWasAhead(a, b, v, policy, slot, unused, k);
    AheadShrinksAt(a, b, v, policy, slot, unused, k);
    FirstIsLeast(a.s, i, id);
    FrontLinked(a.s, a.pos);
    if a.pos < i {
      assert !ByFront(a.s.msgs, a.s.lists)(a.s.peers[i], a.s.peers[a.pos]);
    }
  }

  lemma AheadShrinksAt(a: Spot, b: Spot, v: Visit, policy: Scheduled, slot: int, unused: int, k: nat)
    requires Turn(a, b, v, policy, slot, unused) && b.pos <= k < |b.s.peers|
    requires ListOf(b.s.lists, b.s.peers[k]) != [] && LinkedTo(b.s.msgs, FrontId(b.s, k), b.s.peers[k])
    ensures FrontId(b.s, k) != v.id && FrontId(b.s, k) in a.s.msgs
    ensures a.s.msgs[FrontId(b.s, k)] == b.s.msgs[FrontId(b.s, k)]
  {
    TurnMoves(a, b, v, policy, slot, unused);
    assert Ahead(b, FrontId(b.s, k));
    AheadShrinks(a, b, v, policy, slot, unused, FrontId(b.s, k));
  }

  /** A peer's key is the least of its messages. */
  lemma FirstIsLeast(s: Sched, i: nat, id: MessageId)
    requires SchedInv(s) && i < |s.peers| && LinkedTo(s.msgs, id, s.peers[i])
    ensures FrontKey(s.msgs, s.lists, s.peers[i]) <= s.msgs[id].bytesRemaining
  {
    var list := ListOf(s.lists, s.peers[i]);
    assert ListInv(s.msgs, s.lists, s.peers[i]) && id in list;
    var k :| 0 <= k < |list| && list[k] == id;
    if 0 < k { assert !ByRemaining(s.msgs)(list[k], list[0]); }
  }

  // ---------------------------------------------------- whole rounds

  lemma {:induction false} AheadEarlier(spots: seq<Spot>, visits: seq<Visit>, policy: Scheduled, unused: int,
                                        i: nat, j: nat, id: MessageId)
    requires Walk(spots, visits, policy, unused) && i <= j <= |visits| && Ahead(spots[j], id)
    ensures Ahead(spots[i], id)
    decreases j - i
  {
    if i < j {
      AheadShrinks(spots[j - 1], spots[j], visits[j - 1], policy, j - 1, unused, id);
      AheadEarlier(spots, visits, policy, unused, i, j - 1, id);
    }
  }

  /** The visits are of different messages. */
  predicate NoDupIds(visits: seq<Visit>) { forall i, j | 0 <= i < j < |visits| :: visits[i].id != visits[j].id }

  /** No message is visited twice in a round. */
  lemma VisitsAreDistinct(spots: seq<Spot>, visits: seq<Visit>, policy: Scheduled, unused: int)
    requires Walk(spots, visits, policy, unused)
    ensures NoDupIds(visits)
  {
    forall i, j | 0 <= i < j < |visits| ensures visits[i].id != visits[j].id {
      var a := spots[j];
      assert Turn(a, spots[j + 1], visits[j], policy, j, unused);
      assert LinkedTo(a.s.msgs, visits[j].id, a.s.peers[a.pos]);
      AheadEarlier(spots, visits, policy, unused, i + 1, j, visits[j].id);
      AheadShrinks(spots[i], spots[i + 1], visits[i], policy, i, unused, visits[j].id);
    }
  }

  /** Messages are visited in the order of their remaining bytes. */
  lemma {:induction false} VisitsAreOrdered(spots: seq<Spot>, visits: seq<Visit>, policy: Scheduled, unused: int,
                                            i: nat, j: nat)
    requires Walk(spots, visits, policy, unused) && i <= j < |visits|
    ensures visits[i].remaining <= visits[j].remaining
    decreases j - i
  {
    if i < j {
      VisitsAreOrdered(spots, visits, policy, unused, i, j - 1);
      assert Turn(spots[j], spots[j + 1], visits[j], policy, j, unused);
      KeysAhead(spots[j - 1], spots[j], visits[j - 1], policy, j - 1, unused, spots[j].pos);
    }
  }

  /** The first message visited has the least remaining of all scheduled messages. */
  lemma FirstVisitIsLeast(spots: seq<Spot>, visits: seq<Visit>, policy: Scheduled, unused: int, id: MessageId)
    requires Walk(spots, visits, policy, unused) && visits != []
    requires id in spots[0].s.msgs && spots[0].s.msgs[id].peer.Some?
    ensures visits[0].remaining <= spots[0].s.msgs[id].bytesRemaining
  {
    var s := spots[0].s;
    assert Turn(spots[0], spots[1], visits[0], policy, 0, unused);
    var peer := s.msgs[id].peer.value;
    assert ListInv(s.msgs, s.lists, peer) && LinkedTo(s.msgs, id, peer);
    var i := IndexIn(s.peers, peer);
    FirstIsLeast(s, i, id);
    FrontLinked(s, 0);
    if 0 < i { assert !ByFront(s.msgs, s.lists)(s.peers[i], s.peers[0]); }
  }

  /** A turn uses up at most one of the peers ahead. */
  lemma {:induction false} PeersAheadRemain(spots: seq<Spot>, visits: seq<Visit>, policy: Scheduled, unused: int,
                                            n: nat)
    requires Walk(spots, visits, policy, unused) && n <= |visits|
    ensures |spots[n].s.peers| - spots[n].pos >= |spots[0].s.peers| - n
  {
    if n > 0 {
      PeersAheadRemain(spots, visits, policy, unused, n - 1);
      TurnMoves(spots[n - 1], spots[n], visits[n - 1], policy, n - 1, unused);
    }
  }

  /**
   * The first visits get different priorities, counting down to 0, from the highest level for scheduled
   * messages or, with fewer peers than levels, from the level that leaves none unused below; later visits get 0.
   */
  lemma VisitPriorities(spots: seq<Spot>, visits: seq<Visit>, policy: Scheduled, n: nat, k: nat)
    requires Walk(spots, visits, policy, Max(0, policy.maxScheduledPriority + 1 - n)) && k < |visits|
    requires 0 <= policy.maxScheduledPriority
    ensures var levels := Min(n, policy.maxScheduledPriority + 1);
            visits[k].priority == if k < levels then levels - 1 - k else 0
  {
    assert Turn(spots[k], spots[k + 1], visits[k], policy, k, Max(0, policy.maxScheduledPriority + 1 - n));
  }

  /** A GRANT as it is sent out. */
  datatype GrantSent = GrantSent(id: MessageId, limit: int, priority: int)

  function GrantFor(m: InMessage, v: Visit, policy: Scheduled): seq<GrantSent> {
    if GrantDue(m, policy) then [GrantSent(v.id, Granted(m, policy, v.priority).bytesGranted, v.priority)] else []
  }

  /** The GRANTs a round sends: one for each message visited with too little outstanding. */
  function GrantsOf(before: Messages, visits: seq<Visit>, policy: Scheduled): seq<GrantSent>
    requires forall v | v in visits :: v.id in before
  {
    if visits == [] then []
    else
      var v := visits[|visits| - 1];
      GrantsOf(before, visits[..|visits| - 1], policy) + GrantFor(before[v.id], v, policy)
  }

  /** A GRANT was sent exactly for the visits that found less than the minimum outstanding. */
  lemma {:induction false} GrantsAre(before: Messages, visits: seq<Visit>, policy: Scheduled, x: GrantSent)
    requires forall v | v in visits :: v.id in before
    ensures x in GrantsOf(before, visits, policy) <==>
            exists v :: v in visits && v.id == x.id && IsGrantFor(before[v.id], v, policy, x)
  {
    if visits != [] {
      var most, last := visits[..|visits| - 1], visits[|visits| - 1];
      GrantsAre(before, most, policy, x);
      assert forall v :: v in visits <==> v in most || v == last;
    }
  }

  /** The GRANT a visit of message `m` sends, if it sends one. */
  predicate IsGrantFor(m: InMessage, v: Visit, policy: Scheduled, x: GrantSent) {
    && m.bytesGranted - m.RecordedBytes() < policy.minScheduledBytes
    && x == GrantSent(v.id, Granted(m, policy, v.priority).bytesGranted, v.priority)
  }

  /** What a round has done to a message after some of its visits: granted once if visited, nothing otherwise. */
  ghost predicate GrantedOnce(before: Messages, after: Messages, visits: seq<Visit>, policy: Scheduled) {
    && before.Keys == after.Keys
    && (forall v | v in visits :: v.id in before && after[v.id] == Granted(before[v.id], policy, v.priority))
    && (forall id | id in before && (forall v | v in visits :: v.id != id) :: after[id] == before[id])
  }

  lemma GrantedOneMore(before: Messages, mid: Messages, after: Messages, visits: seq<Visit>, v: Visit,
                       policy: Scheduled)
    requires GrantedOnce(before, mid, visits, policy) && v.id in mid && forall w | w in visits :: w.id != v.id
    requires after == mid[v.id := Granted(mid[v.id], policy, v.priority)]
    ensures GrantedOnce(before, after, visits + [v], policy)
  {
    assert forall w :: w in visits + [v] <==> w in visits || w == v;
    forall id | id in before && (forall w | w in visits + [v] :: w.id != id) ensures after[id] == before[id] {
      assert v in visits + [v];
    }
  }

  lemma TurnGrantsOnce(before: Messages, a: Spot, b: Spot, earlier: seq<Visit>, v: Visit, policy: Scheduled,
                       slot: int, unused: int)
    requires Turn(a, b, v, policy, slot, unused) && GrantedOnce(before, a.s.msgs, earlier, policy)
    requires forall w | w in earlier :: w.id != v.id
    ensures SchedInv(b.s) && GrantedOnce(before, b.s.msgs, earlier + [v], policy)
  {
    TurnMoves(a, b, v, policy, slot, unused);
    GrantedOneMore(before, a.s.msgs, b.s.msgs, earlier, v, policy);
  }

  /** The visits before one are visits of other messages. */
  lemma EarlierVisits(spots: seq<Spot>, visits: seq<Visit>, policy: Scheduled, unused: int, n: nat)
    requires Walk(spots, visits, policy, unused) && n < |visits|
    ensures Turn(spots[n], spots[n + 1], visits[n], policy, n, unused)
    ensures visits[..n + 1] == visits[..n] + [visits[n]] && forall w | w in visits[..n] :: w.id != visits[n].id
  {
    VisitsAreDistinct(spots, visits, policy, unused);
    forall w | w in visits[..n] ensures w.id != visits[n].id {
      var k :| 0 <= k < n && visits[k] == w;
    }
  }

  /** Each message visited in a round is granted once, from the state it had before; no other message changes. */
  lemma {:induction false} RoundGrantsOnce(spots: seq<Spot>, visits: seq<Visit>, policy: Scheduled, unused: int, n: nat)
    requires Walk(spots, visits, policy, unused) && n <= |visits| && SchedInv(spots[0].s)
    ensures SchedInv(spots[n].s) && GrantedOnce(spots[0].s.msgs, spots[n].s.msgs, visits[..n], policy)
  {
    if n > 0 {
      RoundGrantsOnce(spots, visits, policy, unused, n - 1);
      EarlierVisits(spots, visits, policy, unused, n - 1);
      TurnGrantsOnce(spots[0].s.msgs, spots[n - 1], spots[n], visits[..n - 1], visits[n - 1], policy, n - 1, unused);
    }
  }

  /** A message is visited in the state it had when the round began. */
  lemma VisitedAsItWas(spots: seq<Spot>, visits: seq<Visit>, policy: Scheduled, unused: int)
    requires Walk(spots, visits, policy, unused) && visits != [] && SchedInv(spots[0].s)
    ensures forall v | v in visits :: v.id in spots[0].s.msgs
    ensures var n := |visits| - 1;
            visits[n].id in spots[n].s.msgs && spots[n].s.msgs[visits[n].id] == spots[0].s.msgs[visits[n].id]
  {
    var n := |visits| - 1;
    RoundGrantsOnce(spots, visits, policy, unused, |visits|);
    assert visits[..|visits|] == visits;
    RoundGrantsOnce(spots, visits, policy, unused, n);
    assert Turn(spots[n], spots[n + 1], visits[n], policy, n, unused);
    VisitsAreDistinct(spots, visits, policy, unused);
    forall w | w in visits[..n] ensures w.id != visits[n].id {
      var k :| 0 <= k < n && visits[k] == w;
    }
  }

  /** The GRANTs of a round so far, with the next visit added. */
  lemma GrantsOneMore(spots: seq<Spot>, visits: seq<Visit>, policy: Scheduled, unused: int)
    requires Walk(spots, visits, policy, unused) && visits != [] && SchedInv(spots[0].s)
    ensures forall v | v in visits :: v.id in spots[0].s.msgs
    ensures var n := |visits| - 1;
            var v, before := visits[n], spots[0].s.msgs;
            && v.id in spots[n].s.msgs
            && (forall w | w in visits[..n] :: w.id in before)
            && GrantsOf(before, visits, policy) ==
               GrantsOf(before, visits[..n], policy) + GrantFor(spots[n].s.msgs[v.id],
                    v, policy)
  {
    VisitedAsItWas(spots, visits, policy, unused);
    assert forall w | w in visits[..|visits| - 1] :: w in visits;
  }

  // ------------------------------------------------- peers not visited

  /** A peer behind the one visited stays ahead of the iterator. */
  lemma PeerStaysAhead(a: Spot, b: Spot, v: Visit, policy: Scheduled, slot: int, unused: int, i: nat) returns (k: nat)
    requires Turn(a, b, v, policy, slot, unused) && a.pos < i < |a.s.peers|
    ensures b.pos <= k < |b.s.peers| && b.s.peers[k] == a.s.peers[i]
  {
    TurnMoves(a, b, v, policy, slot, unused);
    if b.s.peers == a.s.peers && b.pos == a.pos + 1 {
      k := i;
    } else if b.s.peers == RemoveAt(a.s.peers, a.pos) {
      k := i - 1;
    } else {
      var j :| a.pos < j < |a.s.peers| && b.s.peers == Move(a.s.peers, a.pos, j);
      k := if i <= j then i - 1 else i;
      MoveAt(a.s.peers, a.pos, j, k);
    }
  }

  /** The peer whose message was visited. */
  function PeerAt(x: Spot): Option<nat> {
    if x.pos < |x.s.peers| then Some(x.s.peers[x.pos]) else None
  }

  /** A peer none of the visits so far went to is still ahead. */
  lemma {:induction false} UnvisitedIsAhead(spots: seq<Spot>, visits: seq<Visit>, policy: Scheduled, unused: int,
                                            n: nat, q: nat)
    returns (i: nat)
    requires Walk(spots, visits, policy, unused) && n <= |visits| && q in spots[0].s.peers
    requires forall k | 0 <= k < n :: PeerAt(spots[k]) != Some(q)
    ensures spots[n].pos <= i < |spots[n].s.peers| && spots[n].s.peers[i] == q
  {
    if n == 0 {
      i := IndexIn(spots[0].s.peers, q);
    } else {
      var j := UnvisitedIsAhead(spots, visits, policy, unused, n - 1, q);
      assert PeerAt(spots[n - 1]) != Some(q);
      i := PeerStaysAhead(spots[n - 1], spots[n], visits[n - 1], policy, n - 1, unused, j);
    }
  }

  lemma WalkPrefix(spots: seq<Spot>, visits: seq<Visit>, policy: Scheduled, unused: int, n: nat)
    requires Walk(spots, visits, policy, unused) && n <= |visits|
    ensures Walk(spots[..n + 1], visits[..n], policy, unused)
  {
    var shorter, fewer := spots[..n + 1], visits[..n];
    forall k | 0 <= k < |fewer| ensures Turn(shorter[k], shorter[k + 1], fewer[k], policy, k, unused) {
      assert fewer[k] == visits[k];
    }
  }

  /** A visit goes to the peer its message was linked to when the round began, and finds it as it was then. */
  lemma VisitPeer(spots: seq<Spot>, visits: seq<Visit>, policy: Scheduled, unused: int, k: nat)
    requires Walk(spots, visits, policy, unused) && k < |visits| && SchedInv(spots[0].s)
    ensures visits[k].id in spots[0].s.msgs && PeerAt(spots[k]) == spots[0].s.msgs[visits[k].id].peer
    ensures visits[k].remaining == spots[0].s.msgs[visits[k].id].bytesRemaining
  {
    assert Turn(spots[k], spots[k + 1], visits[k], policy, k, unused);
    WalkPrefix(spots, visits, policy, unused, k + 1);
    VisitedAsItWas(spots[..k + 2], visits[..k + 1], policy, unused);
    assert visits[..k + 1][k] == visits[k] && visits[k] in visits[..k + 1];
  }

  /** The message is linked to the peer at index `i`, which the iterator has not passed. */
  predicate IsAhead(x: Spot, i: nat, id: MessageId) {
    x.pos <= i < |x.s.peers| && LinkedTo(x.s.msgs, id, x.s.peers[i])
  }

  /** The last visit went to nothing longer than what lies ahead of the iterator. */
  lemma LastVisitIsLeast(a: Spot, b: Spot, v: Visit, policy: Scheduled, slot: int, unused: int, i: nat, id: MessageId)
    requires Turn(a, b, v, policy, slot, unused) && IsAhead(b, i, id)
    ensures v.remaining <= b.s.msgs[id].bytesRemaining
  {
    TurnMoves(a, b, v, policy, slot, unused);
    KeysAhead(a, b, v, policy, slot, unused, i);
    FirstIsLeast(b.s, i, id);
    FrontLinked(b.s, i);
  }

  lemma AheadIsNotLess(spots: seq<Spot>, visits: seq<Visit>, policy: Scheduled, unused: int, i: nat, id: MessageId,
                       j: nat)
    requires Walk(spots, visits, policy, unused) && j < |visits| && IsAhead(spots[|visits|], i, id)
    ensures visits[j].remaining <= spots[|visits|].s.msgs[id].bytesRemaining
  {
    var n := |visits| - 1;
    VisitsAreOrdered(spots, visits, policy, unused, j, n);
    assert Turn(spots[n], spots[n + 1], visits[n], policy, n, unused);
    LastVisitIsLeast(spots[n], spots[n + 1], visits[n], policy, n, unused, i, id);
  }

  /** A scheduled message whose peer the round did not come to. */
  ghost predicate LeftOut(msgs: Messages, visits: seq<Visit>, id: MessageId) {
    && id in msgs && msgs[id].peer.Some?
    && forall w | w in visits :: w.id in msgs && msgs[w.id].peer != msgs[id].peer
  }

  lemma LeftOutUnchanged(spots: seq<Spot>, visits: seq<Visit>, policy: Scheduled, unused: int, id: MessageId)
    requires Walk(spots, visits, policy, unused) && SchedInv(spots[0].s) && LeftOut(spots[0].s.msgs, visits, id)
    ensures id in spots[|visits|].s.msgs && spots[|visits|].s.msgs[id] == spots[0].s.msgs[id]
  {
    RoundGrantsOnce(spots, visits, policy, unused, |visits|);
    assert visits[..|visits|] == visits;
  }

  /** The peer of a message left out is still ahead at the end of the round, with the message unchanged. */
  lemma LeftOutIsAhead(spots: seq<Spot>, visits: seq<Visit>, policy: Scheduled, unused: int, id: MessageId)
    returns (i: nat)
    requires Walk(spots, visits, policy, unused) && SchedInv(spots[0].s) && LeftOut(spots[0].s.msgs, visits, id)
    ensures IsAhead(spots[|visits|], i, id) && spots[|visits|].s.msgs[id] == spots[0].s.msgs[id]
  {
    var s := spots[0].s;
    var q := s.msgs[id].peer.value;
    assert ListInv(s.msgs, s.lists, q) && LinkedTo(s.msgs, id, q);
    assert q in s.peers;
    forall k | 0 <= k < |visits| ensures PeerAt(spots[k]) != Some(q) {
      VisitPeer(spots, visits, policy, unused, k);
      assert visits[k] in visits;
    }
    i := UnvisitedIsAhead(spots, visits, policy, unused, |visits|, q);
    LeftOutUnchanged(spots, visits, policy, unused, id);
  }

  /** No message of a peer the round did not come to has fewer bytes remaining than any message visited. */
  lemma UnvisitedIsNotLess(spots: seq<Spot>, visits: seq<Visit>, policy: Scheduled, unused: int, id: MessageId, j: nat)
    requires Walk(spots, visits, policy, unused) && SchedInv(spots[0].s) && j < |visits|
    requires LeftOut(spots[0].s.msgs, visits, id)
    ensures visits[j].remaining <= spots[0].s.msgs[id].bytesRemaining
  {
    var i := LeftOutIsAhead(spots, visits, policy, unused, id);
    AheadIsNotLess(spots, visits, policy, unused, i, id, j);
  }

  /** A round in progress: what was visited, where the iterator points, what was sent. */
  ghost predicate Rounding(start: Sched, s: Sched, spots: seq<Spot>, visits: seq<Visit>, it: Option<nat>,
                           grants: seq<GrantSent>, policy: Scheduled, unused: int)
  {
    && Walk(spots, visits, policy, unused) && spots[0].s == start
    && spots[|visits|].s == s && SchedInv(s) && PointsAt(spots[|visits|], it)
    && (forall v | v in visits :: v.id in start.msgs)
    && grants == GrantsOf(start.msgs, visits, policy)
  }

  /** The peer pointed at has a first message. */
  lemma RoundingFront(start: Sched, s: Sched, spots: seq<Spot>, visits: seq<Visit>, it: Option<nat>,
                      grants: seq<GrantSent>, policy: Scheduled, unused: int)
    requires Rounding(start, s, spots, visits, it, grants, policy, unused) && it.Some?
    ensures it.value in s.peers && ListOf(s.lists, it.value) != []
    ensures LinkedTo(s.msgs, ListOf(s.lists, it.value)[0], it.value)
  {
    FrontLinked(s, spots[|visits|].pos);
  }

  /** Granting the first message of the peer pointed at carries the round one visit further. */
  lemma RoundingAdvances(start: Sched, s: Sched, spots: seq<Spot>, visits: seq<Visit>, it: Option<nat>,
                         grants: seq<GrantSent>, policy: Scheduled, unused: int, v: Visit) returns (b: Spot)
    requires SchedInv(start) && Rounding(start, s, spots, visits, it, grants, policy, unused) && it.Some?
    requires it.value in s.peers && ListOf(s.lists, it.value) != []
    requires LinkedTo(s.msgs, ListOf(s.lists, it.value)[0], it.value)
    requires v.id == ListOf(s.lists, it.value)[0]
    requires v == Visit(v.id, s.msgs[v.id].bytesRemaining, PriorityAt(policy, |visits|, unused))
    ensures Rounding(start, GrantTo(s, v.id, policy, v.priority), spots + [b], visits + [v], After(s.peers, it.value),
                     grants + GrantFor(s.msgs[v.id], v, policy), policy, unused)
  {
    var a, t := spots[|visits|], GrantTo(s, v.id, policy, v.priority);
    b := IteratorSurvives(a, t, v, policy, |visits|, unused);
    WalkExtends(spots, visits, policy, unused, b, v);
    GrantsOneMore(spots + [b], visits + [v], policy, unused);
    assert (visits + [v])[..|visits|] == visits;
  }
}
