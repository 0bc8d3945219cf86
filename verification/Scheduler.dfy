/**
 * The receiver's schedule: the peers with messages that need grants, and for each peer
 * those messages, both levels ordered by the bytes that remain.
 */
module Scheduler {
  import opened Base
  import opened Protocol
  import opened Ordering

  type Messages = map<MessageId, InMessage>
  type Lists = map<nat, seq<MessageId>>

  /** Messages, the scheduled messages of every known peer, and the scheduled peers. */
  datatype Sched = Sched(msgs: Messages, lists: Lists, peers: seq<nat>)

  function Remaining(msgs: Messages, id: MessageId): int {
    if id in msgs then msgs[id].bytesRemaining else 0
  }

  /** ScheduledMessageInfo::ComparePriority. */
  function ByRemaining(msgs: Messages): (MessageId, MessageId) -> bool {
    (a, b) => Remaining(msgs, a) < Remaining(msgs, b)
  }

  /** The scheduled messages of a peer; a peer never heard of has none. */
  function ListOf(lists: Lists, peer: nat): seq<MessageId> {
    if peer in lists then lists[peer] else []
  }

  /** The key of a peer: what remains of its first message. */
  function FrontKey(msgs: Messages, lists: Lists, peer: nat): int {
    if ListOf(lists, peer) == [] then 0 else Remaining(msgs, ListOf(lists, peer)[0])
  }

  /** Peer::ComparePriority. */
  function ByFront(msgs: Messages, lists: Lists): (nat, nat) -> bool {
    (a: nat, b: nat) => FrontKey(msgs, lists, a) < FrontKey(msgs, lists, b)
  }

  lemma OrdersAreWeak(msgs: Messages, lists: Lists)
    ensures StrictWeakOrder(ByRemaining(msgs)) && StrictWeakOrder(ByFront(msgs, lists))
  {
  }

  predicate LinkedTo(msgs: Messages, id: MessageId, peer: nat) {
    id in msgs && msgs[id].peer == Some(peer)
  }

  /** Each peer's list holds exactly the messages linked to the peer, once, in order. */
  ghost predicate ListInv(msgs: Messages, lists: Lists, peer: nat) {
    && NoDup(ListOf(lists, peer))
    && (forall id :: id in ListOf(lists, peer) <==> LinkedTo(msgs, id, peer))
    && Sorted(ListOf(lists, peer), ByRemaining(msgs))
  }

  ghost predicate SchedInv(s: Sched) {
    && (forall peer :: ListInv(s.msgs, s.lists, peer))
    && NoDup(s.peers)
    && (forall peer :: peer in s.peers <==> ListOf(s.lists, peer) != [])
    && Sorted(s.peers, ByFront(s.msgs, s.lists))
  }

  // ------------------------------------------------------------ operations

  /** `schedule`: insert the message in its peer's list, and put the peer in its place. */
  function Schedule(s: Sched, id: MessageId, m: InMessage): Sched
    requires m.peer.Some?
  {
    var peer, msgs := m.peer.value, s.msgs[id := m];
    var list := Deprioritized([id] + ListOf(s.lists, peer), 0, ByRemaining(msgs));
    var lists := s.lists[peer := list];
    Sched(msgs, lists,
          if peer !in s.peers then Deprioritized([peer] + s.peers, 0, ByFront(msgs, lists))
          else if list[0] == id then Prioritized(s.peers, IndexIn(s.peers, peer), ByFront(msgs, lists))
          else s.peers)
  }

  /** What `unschedule` does to the peers, given what it did to the list of one of them. */
  function PeersAfter(peers: seq<nat>, k: nat, empty: bool, less: (nat, nat) -> bool): seq<nat>
    requires k < |peers|
  {
    if empty then RemoveAt(peers, k)
    else if k + 1 == |peers| || !less(peers[k + 1], peers[k]) then peers
    else Deprioritized(peers, k, less)
  }

  /** `unschedule`: take the message out; an empty peer goes, another one may have to move back. */
  function Unschedule(s: Sched, id: MessageId): Sched
    requires id in s.msgs && s.msgs[id].peer.Some?
    requires s.msgs[id].peer.value in s.peers && id in ListOf(s.lists, s.msgs[id].peer.value)
  {
    var peer, msgs := s.msgs[id].peer.value, s.msgs[id := s.msgs[id].(peer := None)];
    var list := RemoveAt(ListOf(s.lists, peer), IndexIn(ListOf(s.lists, peer), id));
    var lists := s.lists[peer := list];
    var k, less := IndexIn(s.peers, peer), ByFront(msgs, lists);
    Sched(msgs, lists, PeersAfter(s.peers, k, list == [], less))
  }

  /** `updateSchedule` after bytes arrived: move the message up, and its peer if it is now first. */
  function Update(s: Sched, id: MessageId, m: InMessage): Sched
    requires m.peer.Some? && m.peer.value in s.peers && id in ListOf(s.lists, m.peer.value)
  {
    var peer, msgs := m.peer.value, s.msgs[id := m];
    var list := Prioritized(ListOf(s.lists, peer), IndexIn(ListOf(s.lists, peer), id), ByRemaining(msgs));
    var lists := s.lists[peer := list];
    Sched(msgs, lists,
          if list[0] == id then Prioritized(s.peers, IndexIn(s.peers, peer), ByFront(msgs, lists)) else s.peers)
  }

  // ------------------------------------------------- the lists of messages

  /** A list none of whose messages changed. */
  lemma ListUnchanged(s: Sched, msgs: Messages, lists: Lists, peer: nat, id: MessageId)
    requires ListInv(s.msgs, s.lists, peer) && ListOf(lists, peer) == ListOf(s.lists, peer)
    requires !LinkedTo(s.msgs, id, peer) && !LinkedTo(msgs, id, peer)
    requires forall x | x != id :: (x in msgs <==> x in s.msgs) && (x in msgs ==> msgs[x] == s.msgs[x])
    ensures ListInv(msgs, lists, peer) && FrontKey(msgs, lists, peer) == FrontKey(s.msgs, s.lists, peer)
  {
    var list := ListOf(lists, peer);
    forall i | 0 <= i < |list| ensures Remaining(msgs, list[i]) == Remaining(s.msgs, list[i]) {
      assert list[i] in ListOf(s.lists, peer);
    }
    forall i, j | 0 <= i < j < |list| ensures !ByRemaining(msgs)(list[j], list[i]) {
      assert !ByRemaining(s.msgs)(list[j], list[i]);
    }
  }

  /** A sorted list stays sorted when the keys of its elements do not change. */
  lemma SortedSame(list: seq<MessageId>, a: Messages, b: Messages)
    requires Sorted(list, ByRemaining(a)) && forall x | x in list :: Remaining(a, x) == Remaining(b, x)
    ensures Sorted(list, ByRemaining(b))
  {
    forall i, j | 0 <= i < j < |list| ensures !ByRemaining(b)(list[j], list[i]) {
      assert !ByRemaining(a)(list[j], list[i]);
      assert list[i] in list && list[j] in list;
    }
  }

  /** Where a new message goes in its peer's list. */
  lemma ScheduledList(msgs: Messages, list: seq<MessageId>, id: MessageId, m: InMessage, peer: nat)
    requires NoDup(list) && (forall x :: x in list <==> LinkedTo(msgs, x, peer)) && Sorted(list, ByRemaining(msgs))
    requires !LinkedTo(msgs, id, peer) && m.peer == Some(peer)
    ensures var msgs' := msgs[id := m];
            var list' := Deprioritized([id] + list, 0, ByRemaining(msgs'));
            && NoDup(list') && (forall x :: x in list' <==> LinkedTo(msgs', x, peer)) &&
               Sorted(list', ByRemaining(msgs'))
            && |list'| == |list| + 1
            && (list != [] && list'[0] == id ==> Remaining(msgs', id) < Remaining(msgs, list[0]))
            && (list != [] && list'[0] != id ==> list'[0] == list[0])
  {
    var msgs' := msgs[id := m];
    var less := ByRemaining(msgs');
    assert id !in list;
    SortedSame(list, msgs, msgs');
    OrdersAreWeak(msgs', map[]);
    PushFrontDeprioritizeInserts(list, id, less);
    var j := Sink(list, id, 0, less);
    InsertMembers(list, j, id);
    if list != [] {
      assert list[0] in list;
    }
  }

  /** A message that leaves its peer's list. */
  lemma UnscheduledList(msgs: Messages, list: seq<MessageId>, id: MessageId, m: InMessage, peer: nat)
    requires NoDup(list) && (forall x :: x in list <==> LinkedTo(msgs, x, peer)) && Sorted(list, ByRemaining(msgs))
    requires id in list && m.peer == None && m.bytesRemaining == Remaining(msgs, id)
    ensures var msgs' := msgs[id := m];
            var list' := RemoveAt(list, IndexIn(list, id));
            && NoDup(list') && (forall x :: x in list' <==> LinkedTo(msgs', x, peer)) &&
               Sorted(list', ByRemaining(msgs'))
            && (list' != [] ==> Remaining(msgs', list'[0]) >= Remaining(msgs, list[0]))
  {
    var msgs', i := msgs[id := m], IndexIn(list, id);
    var list' := RemoveAt(list, i);
    RemoveMembers(list, i);
    forall a, b | 0 <= a < b < |list'| ensures !ByRemaining(msgs)(list'[b], list'[a]) {
      assert list'[a] == list[if a < i then a else a + 1] && list'[b] == list[if b < i then b else b + 1];
    }
    SortedSame(list', msgs, msgs');
    if list' != [] && i == 0 {
      assert !ByRemaining(msgs)(list[1], list[0]);
    }
  }

  /** A message whose remaining bytes became fewer. */
  lemma UpdatedList(msgs: Messages, list: seq<MessageId>, id: MessageId, m: InMessage, peer: nat)
    requires NoDup(list) && (forall x :: x in list <==> LinkedTo(msgs, x, peer)) && Sorted(list, ByRemaining(msgs))
    requires id in list && m.peer == Some(peer) && m.bytesRemaining <= Remaining(msgs, id)
    ensures var msgs' := msgs[id := m];
            var list' := Prioritized(list, IndexIn(list, id), ByRemaining(msgs'));
            && NoDup(list') && (forall x :: x in list' <==> LinkedTo(msgs', x, peer)) &&
               Sorted(list', ByRemaining(msgs'))
            && |list'| == |list|
            && (list'[0] == id ==> Remaining(msgs', id) <= Remaining(msgs, list[0]))
            && (list'[0] != id ==> list'[0] == list[0] && list[0] != id)
  {
    var msgs', i := msgs[id := m], IndexIn(list, id);
    var less, rest := ByRemaining(msgs'), RemoveAt(list, i);
    assert Sorted(rest, less) by {
      forall a, b | 0 <= a < b < |rest| ensures !less(rest[b], rest[a]) {
        var a', b' := if a < i then a else a + 1, if b < i then b else b + 1;
        assert rest[a] == list[a'] && rest[b] == list[b'] && !ByRemaining(msgs)(list[b'], list[a']);
      }
    }
    forall k | i < k < |list| ensures !less(list[k], list[i]) {
      assert !ByRemaining(msgs)(list[k], list[i]);
    }
    OrdersAreWeak(msgs', map[]);
    PrioritizeSorts(list, i, less);
    var j := Rise(list, id, i, less);
    MoveNoDup(list, i, j);
    MoveSameElements(list, i, j);
    MoveAt(list, i, j, 0);
    if i > 0 {
      assert !ByRemaining(msgs)(list[i], list[0]);
      assert j == 0 ==> less(id, list[0]);
    }
  }

  // -------------------------------------------------------- the peers

  /** Only the peer at index `k` may have another key than before. */
  ghost predicate SameKeysBut(s: Sched, msgs: Messages, lists: Lists, k: int) {
    forall j | 0 <= j < |s.peers| && j != k ::
      FrontKey(msgs, lists, s.peers[j]) == FrontKey(s.msgs, s.lists, s.peers[j])
  }

  lemma PeersBut(s: Sched, msgs: Messages, lists: Lists, k: nat)
    requires Sorted(s.peers, ByFront(s.msgs, s.lists)) && k < |s.peers| && SameKeysBut(s, msgs, lists, k)
    ensures Sorted(RemoveAt(s.peers, k), ByFront(msgs, lists))
  {
    var rest := RemoveAt(s.peers, k);
    forall a, b | 0 <= a < b < |rest| ensures !ByFront(msgs, lists)(rest[b], rest[a]) {
      var a', b' := if a < k then a else a + 1, if b < k then b else b + 1;
      assert rest[a] == s.peers[a'] && rest[b] == s.peers[b'];
      assert !ByFront(s.msgs, s.lists)(s.peers[b'], s.peers[a']);
    }
  }

  lemma PeersSame(s: Sched, msgs: Messages, lists: Lists)
    requires Sorted(s.peers, ByFront(s.msgs, s.lists)) && SameKeysBut(s, msgs, lists, -1)
    ensures Sorted(s.peers, ByFront(msgs, lists))
  {
    forall a, b | 0 <= a < b < |s.peers| ensures !ByFront(msgs, lists)(s.peers[b], s.peers[a]) {
      assert !ByFront(s.msgs, s.lists)(s.peers[b], s.peers[a]);
    }
  }

  /** The key of a peer fell: moving it up sorts the peers. */
  lemma PeerFell(s: Sched, msgs: Messages, lists: Lists, k: nat)
    requires Sorted(s.peers, ByFront(s.msgs, s.lists)) && k < |s.peers| && SameKeysBut(s, msgs, lists, k)
    requires FrontKey(msgs, lists, s.peers[k]) <= FrontKey(s.msgs, s.lists, s.peers[k])
    ensures Sorted(Prioritized(s.peers, k, ByFront(msgs, lists)), ByFront(msgs, lists))
  {
    var less := ByFront(msgs, lists);
    PeersBut(s, msgs, lists, k);
    OrdersAreWeak(msgs, lists);
    forall j | k < j < |s.peers| ensures !less(s.peers[j], s.peers[k]) {
      assert !ByFront(s.msgs, s.lists)(s.peers[j], s.peers[k]);
    }
    PrioritizeSorts(s.peers, k, less);
  }

  /** The key of a peer rose: nothing in front of it is ordered after it. */
  lemma PeerRose(s: Sched, msgs: Messages, lists: Lists, k: nat)
    requires Sorted(s.peers, ByFront(s.msgs, s.lists)) && k < |s.peers| && SameKeysBut(s, msgs, lists, k)
    requires FrontKey(msgs, lists, s.peers[k]) >= FrontKey(s.msgs, s.lists, s.peers[k])
    ensures forall j | 0 <= j < k :: !ByFront(msgs, lists)(s.peers[k], s.peers[j])
  {
    forall j | 0 <= j < k ensures !ByFront(msgs, lists)(s.peers[k], s.peers[j]) {
      assert !ByFront(s.msgs, s.lists)(s.peers[k], s.peers[j]);
    }
  }

  /** ... so moving it back sorts the peers, ... */
  lemma PeerMovesBack(s: Sched, msgs: Messages, lists: Lists, k: nat)
    requires Sorted(s.peers, ByFront(s.msgs, s.lists)) && k < |s.peers| && SameKeysBut(s, msgs, lists, k)
    requires FrontKey(msgs, lists, s.peers[k]) >= FrontKey(s.msgs, s.lists, s.peers[k])
    ensures Sorted(Deprioritized(s.peers, k, ByFront(msgs, lists)), ByFront(msgs, lists))
  {
    PeersBut(s, msgs, lists, k);
    PeerRose(s, msgs, lists, k);
    OrdersAreWeak(msgs, lists);
    DeprioritizeSorts(s.peers, k, ByFront(msgs, lists));
  }

  /** ... and if its successor is not ordered before it, it may stay. */
  lemma PeerStays(s: Sched, msgs: Messages, lists: Lists, k: nat)
    requires Sorted(s.peers, ByFront(s.msgs, s.lists)) && k < |s.peers| && SameKeysBut(s, msgs, lists, k)
    requires FrontKey(msgs, lists, s.peers[k]) >= FrontKey(s.msgs, s.lists, s.peers[k])
    requires k + 1 == |s.peers| || !ByFront(msgs, lists)(s.peers[k + 1], s.peers[k])
    ensures Sorted(s.peers, ByFront(msgs, lists))
  {
    var less := ByFront(msgs, lists);
    PeerRose(s, msgs, lists, k);
    forall a, b | 0 <= a < b < |s.peers| ensures !less(s.peers[b], s.peers[a]) {
      if a == k {
        if k + 1 < b { assert !ByFront(s.msgs, s.lists)(s.peers[b], s.peers[k + 1]); }
      } else if b != k {
        assert !ByFront(s.msgs, s.lists)(s.peers[b], s.peers[a]);
      }
    }
  }

  // ----------------------------------------------- the invariant is kept

  /** The lists of the other peers, when only messages of `peer` change. */
  lemma OtherLists(s: Sched, msgs: Messages, lists: Lists, peer: nat, id: MessageId)
    requires SchedInv(s)
    requires forall q | q != peer :: ListOf(lists, q) == ListOf(s.lists, q)
    requires forall x | x != id :: (x in msgs <==> x in s.msgs) && (x in msgs ==> msgs[x] == s.msgs[x])
    requires forall q | q != peer :: !LinkedTo(s.msgs, id, q) && !LinkedTo(msgs, id, q)
    ensures forall q | q != peer :: ListInv(msgs, lists, q)
    ensures forall q | q != peer :: FrontKey(msgs, lists, q) == FrontKey(s.msgs, s.lists, q)
  {
    forall q | q != peer
      ensures ListInv(msgs, lists, q) && FrontKey(msgs, lists, q) == FrontKey(s.msgs, s.lists, q)
    {
      ListUnchanged(s, msgs, lists, q, id);
    }
  }

  lemma ScheduleKeepsInv(s: Sched, id: MessageId, m: InMessage)
    requires SchedInv(s) && m.peer.Some? && (id in s.msgs ==> s.msgs[id].peer.None?)
    ensures SchedInv(Schedule(s, id, m))
  {
    var t, peer := Schedule(s, id, m), m.peer.value;
    var list := ListOf(s.lists, peer);
    assert ListInv(s.msgs, s.lists, peer);
    ScheduledList(s.msgs, list, id, m, peer);
    OtherLists(s, t.msgs, t.lists, peer, id);
    if peer !in s.peers {
      SchedulePeer(s, t, peer);
    } else {
      var k := IndexIn(s.peers, peer);
      assert SameKeysBut(s, t.msgs, t.lists, k);
      if t.lists[peer][0] == id {
        PeerFell(s, t.msgs, t.lists, k);
        MoveNoDup(s.peers, k, Rise(s.peers, peer, k, ByFront(t.msgs, t.lists)));
        MoveSameElements(s.peers, k, Rise(s.peers, peer, k, ByFront(t.msgs, t.lists)));
      } else {
        assert list[0] in list;
        PeersSame(s, t.msgs, t.lists);
      }
    }
  }

  /**
   * A message scheduled goes behind those of its peer with as much or less remaining; a peer that comes to have
   * one goes behind those as near to the end.  All others keep their order.
   */
  lemma SchedulePlace(s: Sched, id: MessageId, m: InMessage)
    requires SchedInv(s) && m.peer.Some? && (id in s.msgs ==> s.msgs[id].peer.None?)
    ensures var t, peer := Schedule(s, id, m), m.peer.value;
            && PutBehindEqual(ListOf(s.lists, peer), ListOf(t.lists, peer), id, ByRemaining(t.msgs))
            && (peer !in s.peers ==> PutBehindEqual(s.peers, t.peers, peer, ByFront(t.msgs, t.lists)))
            && (forall q | q != peer :: ListOf(t.lists, q) == ListOf(s.lists, q))
  {
    var t, peer := Schedule(s, id, m), m.peer.value;
    assert ListInv(s.msgs, s.lists, peer) && !LinkedTo(s.msgs, id, peer);
    SortedSame(ListOf(s.lists, peer), s.msgs, t.msgs);
    OrdersAreWeak(t.msgs, t.lists);
    PushFrontDeprioritizePlaces(ListOf(s.lists, peer), id, ByRemaining(t.msgs));
    if peer !in s.peers {
      ScheduledPeerPlace(s, t, peer, id);
    }
  }

  lemma ScheduledPeerPlace(s: Sched, t: Sched, peer: nat, id: MessageId)
    requires SchedInv(s) && peer !in s.peers && t.peers == Deprioritized([peer] + s.peers, 0, ByFront(t.msgs, t.lists))
    requires forall q | q != peer :: ListOf(t.lists, q) == ListOf(s.lists, q)
    requires forall x | x != id :: (x in t.msgs <==> x in s.msgs) && (x in t.msgs ==> t.msgs[x] == s.msgs[x])
    requires LinkedTo(t.msgs, id, peer) && (id in s.msgs ==> s.msgs[id].peer.None?)
    ensures PutBehindEqual(s.peers, t.peers, peer, ByFront(t.msgs, t.lists))
  {
    OtherLists(s, t.msgs, t.lists, peer, id);
    assert forall j | 0 <= j < |s.peers| :: s.peers[j] in s.peers;
    PeersSame(s, t.msgs, t.lists);
    OrdersAreWeak(t.msgs, t.lists);
    PushFrontDeprioritizePlaces(s.peers, peer, ByFront(t.msgs, t.lists));
  }

  /** A peer that had no scheduled message is inserted in its place. */
  lemma SchedulePeer(s: Sched, t: Sched, peer: nat)
    requires NoDup(s.peers) && Sorted(s.peers, ByFront(s.msgs, s.lists)) && peer !in s.peers
    requires forall q | q != peer :: FrontKey(t.msgs, t.lists, q) == FrontKey(s.msgs, s.lists, q)
    requires t.peers == Deprioritized([peer] + s.peers, 0, ByFront(t.msgs, t.lists))
    ensures NoDup(t.peers) && (forall q :: q in t.peers <==> q in s.peers || q == peer)
    ensures Sorted(t.peers, ByFront(t.msgs, t.lists))
  {
    var less := ByFront(t.msgs, t.lists);
    forall j | 0 <= j < |s.peers| ensures s.peers[j] != peer {
      assert s.peers[j] in s.peers;
    }
    PeersSame(s, t.msgs, t.lists);
    OrdersAreWeak(t.msgs, t.lists);
    PushFrontDeprioritizeInserts(s.peers, peer, less);
    InsertMembers(s.peers, Sink(s.peers, peer, 0, less), peer);
  }

  lemma UnschedulePeer(s: Sched, msgs: Messages, lists: Lists, k: nat, empty: bool)
    requires NoDup(s.peers) && Sorted(s.peers, ByFront(s.msgs, s.lists)) && k < |s.peers|
    requires SameKeysBut(s, msgs, lists, k)
    requires !empty ==> FrontKey(msgs, lists, s.peers[k]) >= FrontKey(s.msgs, s.lists, s.peers[k])
    ensures var r := PeersAfter(s.peers, k, empty, ByFront(msgs, lists));
            && NoDup(r) && Sorted(r, ByFront(msgs, lists))
            && forall q :: q in r <==> q in s.peers && (empty ==> q != s.peers[k])
  {
    var less := ByFront(msgs, lists);
    if empty {
      PeersBut(s, msgs, lists, k);
      RemoveMembers(s.peers, k);
    } else if k + 1 == |s.peers| || !less(s.peers[k + 1], s.peers[k]) {
      PeerStays(s, msgs, lists, k);
    } else {
      PeerMovesBack(s, msgs, lists, k);
      var j := Sink(s.peers, s.peers[k], k + 1, less) - 1;
      MoveNoDup(s.peers, k, j);
      MoveSameElements(s.peers, k, j);
    }
  }

  lemma UnscheduleKeepsInv(s: Sched, id: MessageId)
    requires SchedInv(s) && id in s.msgs && s.msgs[id].peer.Some?
    ensures s.msgs[id].peer.value in s.peers && id in ListOf(s.lists, s.msgs[id].peer.value)
    ensures SchedInv(Unschedule(s, id))
  {
    var peer := s.msgs[id].peer.value;
    assert ListInv(s.msgs, s.lists, peer) && LinkedTo(s.msgs, id, peer);
    var t := Unschedule(s, id);
    UnscheduledList(s.msgs, ListOf(s.lists, peer), id, s.msgs[id].(peer := None), peer);
    OtherLists(s, t.msgs, t.lists, peer, id);
    var k := IndexIn(s.peers, peer);
    assert SameKeysBut(s, t.msgs, t.lists, k);
    UnschedulePeer(s, t.msgs, t.lists, k, t.lists[peer] == []);
  }

  lemma UpdateKeepsInv(s: Sched, id: MessageId, m: InMessage)
    requires SchedInv(s) && id in s.msgs && m.peer.Some? && m.peer == s.msgs[id].peer
    requires m.bytesRemaining <= s.msgs[id].bytesRemaining
    ensures m.peer.value in s.peers && id in ListOf(s.lists, m.peer.value)
    ensures SchedInv(Update(s, id, m))
  {
    var peer := m.peer.value;
    assert ListInv(s.msgs, s.lists, peer) && LinkedTo(s.msgs, id, peer);
    var t, list := Update(s, id, m), ListOf(s.lists, peer);
    UpdatedList(s.msgs, list, id, m, peer);
    OtherLists(s, t.msgs, t.lists, peer, id);
    var k := IndexIn(s.peers, peer);
    assert SameKeysBut(s, t.msgs, t.lists, k);
    if t.lists[peer][0] == id {
      PeerFell(s, t.msgs, t.lists, k);
      MoveNoDup(s.peers, k, Rise(s.peers, peer, k, ByFront(t.msgs, t.lists)));
      MoveSameElements(s.peers, k, Rise(s.peers, peer, k, ByFront(t.msgs, t.lists)));
    } else {
      PeersSame(s, t.msgs, t.lists);
    }
  }
}
