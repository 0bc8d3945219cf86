/**
 * The state of a Receiver and what each event does to it, on values.  The Receiver class
 * performs these events in place.
 */
module ReceiverModel {
  import opened Base
  import opened Reassembly
  import opened Protocol
  import opened Scheduler
  import opened Grants

  /** What is fixed for a receiver. */
  datatype Config = Config(p: nat, policy: Scheduled) {
    ghost predicate Valid() { 0 < p && PolicyOk(policy) }
  }

  /** The schedule with its messages, and the messages waiting for the application. */
  datatype ReceiverState = ReceiverState(sched: Sched, received: seq<MessageId>)

  /** A DATA packet as it arrives. */
  datatype Arrival = Arrival(
    id: MessageId,
    source: nat,
    totalLength: nat,
    unscheduled: nat,
    index: nat,
    payload: seq<byte>)

  function Init(): ReceiverState { ReceiverState(Sched(map[], map[], []), []) }

  // ---------------------------------------------------------------- events

  /** A message becomes known; if it needs grants it is scheduled. */
  function Admitted(s: Sched, id: MessageId, m: InMessage): Sched {
    if m.peer.Some? then Schedule(s, id, m) else s.(msgs := s.msgs[id := m])
  }

  /** A packet is stored; a scheduled message and its peer move up. */
  function StoredIn(s: Sched, id: MessageId, m: InMessage): Sched
    requires m.peer.Some? ==> m.peer.value in s.peers && id in ListOf(s.lists, m.peer.value)
  {
    if m.peer.Some? then Update(s, id, m) else s.(msgs := s.msgs[id := m])
  }

  /** A message is forgotten; if it is still scheduled it leaves the schedule first. */
  function Forgotten(s: Sched, id: MessageId): Sched
    requires SchedInv(s) && id in s.msgs
  {
    if s.msgs[id].peer.Some?
    then
      UnscheduleKeepsInv(s, id);
      var t := Unschedule(s, id);
      t.(msgs := t.msgs - {id})
    else s.(msgs := s.msgs - {id})
  }

  /** The schedule in which the packet's message is known. */
  function Known(c: Config, s: Sched, a: Arrival): Sched
    requires 0 < c.p
  {
    if a.id in s.msgs then s else Admitted(s, a.id, NewMessage(c.p, a.source, a.totalLength, a.unscheduled))
  }

  /** Changing messages that are linked nowhere does not touch the schedule. */
  lemma UnlinkedKeepsInv(s: Sched, msgs: Messages, id: MessageId)
    requires SchedInv(s) && (id in s.msgs ==> s.msgs[id].peer.None?) && (id in msgs ==> msgs[id].peer.None?)
    requires forall x | x != id :: (x in msgs <==> x in s.msgs) && (x in msgs ==> msgs[x] == s.msgs[x])
    ensures SchedInv(s.(msgs := msgs))
  {
    forall q ensures ListInv(msgs, s.lists, q) && FrontKey(msgs, s.lists, q) == FrontKey(s.msgs, s.lists, q) {
      assert ListInv(s.msgs, s.lists, q);
      ListUnchanged(s, msgs, s.lists, q, id);
    }
    PeersSame(s, msgs, s.lists);
  }

  lemma KnownKeepsInv(c: Config, s: Sched, a: Arrival)
    requires 0 < c.p && SchedInv(s)
    ensures SchedInv(Known(c, s, a)) && a.id in Known(c, s, a).msgs
    ensures Known(c, s, a).msgs ==
            if a.id in s.msgs then s.msgs else s.msgs[a.id := NewMessage(c.p, a.source, a.totalLength, a.unscheduled)]
  {
    if a.id !in s.msgs {
      var m := NewMessage(c.p, a.source, a.totalLength, a.unscheduled);
      if m.peer.Some? {
        ScheduleKeepsInv(s, a.id, m);
      } else {
        UnlinkedKeepsInv(s, s.msgs[a.id := m], a.id);
      }
    }
  }

  lemma StoredInKeepsInv(s: Sched, id: MessageId, m: InMessage)
    requires SchedInv(s) && id in s.msgs && m.peer == s.msgs[id].peer && m.bytesRemaining <= s.msgs[id].bytesRemaining
    ensures m.peer.Some? ==> m.peer.value in s.peers && id in ListOf(s.lists, m.peer.value)
    ensures SchedInv(StoredIn(s, id, m)) && StoredIn(s, id, m).msgs == s.msgs[id := m]
  {
    if m.peer.Some? {
      UpdateKeepsInv(s, id, m);
    } else {
      UnlinkedKeepsInv(s, s.msgs[id := m], id);
    }
  }

  lemma ForgottenKeepsInv(s: Sched, id: MessageId)
    requires SchedInv(s) && id in s.msgs
    ensures SchedInv(Forgotten(s, id)) && Forgotten(s, id).msgs == s.msgs - {id}
  {
    if s.msgs[id].peer.Some? {
      UnscheduleKeepsInv(s, id);
      var t := Unschedule(s, id);
      UnlinkedKeepsInv(t, t.msgs - {id}, id);
      assert t.msgs - {id} == s.msgs - {id};
    } else {
      UnlinkedKeepsInv(s, s.msgs - {id}, id);
    }
  }

  /** A packet for a free place of a known message; the last one makes the message available. */
  function WithPacket(s: ReceiverState, id: MessageId, index: nat, payload: seq<byte>): ReceiverState
    requires SchedInv(s.sched) && id in s.sched.msgs
  {
    var m := Stored(s.sched.msgs[id], index, payload);
    StoredInKeepsInv(s.sched, id, m);
    ReceiverState(StoredIn(s.sched, id, m),
                  if m.numPackets < m.numExpectedPackets then s.received else s.received + [id])
  }

  /** `handleDataPacket`. */
  function OnDataPacket(c: Config, s: ReceiverState, a: Arrival): ReceiverState
    requires 0 < c.p && SchedInv(s.sched)
  {
    KnownKeepsInv(c, s.sched, a);
    var k := s.(sched := Known(c, s.sched, a));
    if a.index in k.sched.msgs[a.id].packets then k else WithPacket(k, a.id, a.index, a.payload)
  }

  /** `checkMessageTimeouts` of one message: forgotten while incomplete, else marked for the application. */
  function OnTimeout(s: ReceiverState, id: MessageId): ReceiverState
    requires SchedInv(s.sched) && id in s.sched.msgs
  {
    if s.sched.msgs[id].state == Receiving then s.(sched := Forgotten(s.sched, id))
    else s.(sched := s.sched.(msgs := s.sched.msgs[id := TimedOutIn(s.sched.msgs[id])]))
  }

  /** `dropMessage`. */
  function OnDrop(s: ReceiverState, id: MessageId): ReceiverState
    requires SchedInv(s.sched)
  {
    if id in s.sched.msgs then s.(sched := Forgotten(s.sched, id)) else s
  }

  /** A round of grants led from one schedule to the other. */
  ghost predicate IsRound(c: Config, s: Sched, t: Sched, spots: seq<Spot>, visits: seq<Visit>) {
    var unused := Max(0, c.policy.maxScheduledPriority + 1 - |s.peers|);
    && Walk(spots, visits, c.policy, unused)
    && spots[0].s == s && spots[|visits|].s == t
    && |visits| <= c.policy.degreeOvercommitment
    && (|visits| < c.policy.degreeOvercommitment ==> spots[|visits|].pos == |t.peers|)
  }

  // ------------------------------------------------------------- invariant

  ghost predicate Inv(c: Config, s: ReceiverState) {
    && SchedInv(s.sched)
    && (forall id | id in s.sched.msgs :: s.sched.msgs[id].Valid(c.p, c.policy.maxScheduledBytes))
    && NoDup(s.received)
    && (forall id | id in s.received :: id in s.sched.msgs && s.sched.msgs[id].arrivals == 1)
  }

  /** The packet fits its message, known or new. */
  predicate Fits(c: Config, s: ReceiverState, a: Arrival)
    requires 0 < c.p
  {
    && 0 < a.totalLength
    && (a.id in s.sched.msgs ==> a.totalLength == s.sched.msgs[a.id].messageLength)
    && a.index < CeilDiv(a.totalLength, c.p) && |a.payload| == SizeAt(a.totalLength, c.p, a.index)
  }

  lemma DataKeepsMessages(c: Config, s: ReceiverState, a: Arrival)
    requires c.Valid() && Inv(c, s) && Fits(c, s, a)
    ensures var t := OnDataPacket(c, s, a);
            && SchedInv(t.sched) && a.id in t.sched.msgs && t.sched.msgs[a.id].Valid(c.p, c.policy.maxScheduledBytes)
            && t.sched.msgs == s.sched.msgs[a.id := t.sched.msgs[a.id]]
            && t.sched.msgs[a.id] == OnData(if a.id in s.sched.msgs then s.sched.msgs[a.id]
                                            else NewMessage(c.p, a.source, a.totalLength, a.unscheduled), a.index,
                                            a.payload)
  {
    KnownKeepsInv(c, s.sched, a);
    var k, max := Known(c, s.sched, a), c.policy.maxScheduledBytes;
    if a.index !in k.msgs[a.id].packets {
      StoredInKeepsInv(k, a.id, Stored(k.msgs[a.id], a.index, a.payload));
    }
    if a.id in s.sched.msgs {
      OnDataKeepsValid(c.p, max, s.sched.msgs[a.id], a.index, a.payload);
    } else {
      FirstDataIsValid(c.p, max, a.source, a.totalLength, a.unscheduled, a.index, a.payload);
    }
  }

  /** A DATA packet keeps the invariant; the message becomes available with its last packet and only then. */
  lemma DataKeepsInv(c: Config, s: ReceiverState, a: Arrival)
    requires c.Valid() && Inv(c, s) && Fits(c, s, a)
    ensures Inv(c, OnDataPacket(c, s, a))
  {
    DataKeepsMessages(c, s, a);
    KnownKeepsInv(c, s.sched, a);
    var t := OnDataPacket(c, s, a);
    if t.received != s.received && a.id in s.received {
      CompleteWhenAllStored(c.p, c.policy.maxScheduledBytes, s.sched.msgs[a.id]);
    }
  }

  lemma TimeoutKeepsInv(c: Config, s: ReceiverState, id: MessageId)
    requires c.Valid() && Inv(c, s) && id in s.sched.msgs
    ensures Inv(c, OnTimeout(s, id))
  {
    TimeoutKeepsSchedule(s, id);
  }

  lemma DropKeepsInv(c: Config, s: ReceiverState, id: MessageId)
    requires c.Valid() && Inv(c, s) && id !in s.received
    ensures Inv(c, OnDrop(s, id))
  {
    if id in s.sched.msgs {
      ForgottenKeepsInv(s.sched, id);
    }
  }

  /** A round of grants changes each message it visits by one grant and no other message. */
  lemma RoundKeepsInv(c: Config, s: ReceiverState, t: Sched, spots: seq<Spot>, visits: seq<Visit>)
    requires c.Valid() && Inv(c, s) && IsRound(c, s.sched, t, spots, visits)
    ensures Inv(c, s.(sched := t)) && GrantedOnce(s.sched.msgs, t.msgs, visits, c.policy)
    ensures forall v | v in visits :: v.id in s.sched.msgs && s.sched.msgs[v.id].peer.Some?
  {
    var unused := Max(0, c.policy.maxScheduledPriority + 1 - |s.sched.peers|);
    RoundGrantsOnce(spots, visits, c.policy, unused, |visits|);
    assert visits[..|visits|] == visits;
    forall v | v in visits ensures v.id in s.sched.msgs && s.sched.msgs[v.id].peer.Some? {
      var k :| 0 <= k < |visits| && visits[k] == v;
      VisitIsScheduled(spots, visits, c.policy, unused, k);
    }
    RoundKeepsMessages(c, s.sched.msgs, t.msgs, visits);
  }

  /** What a round does to the messages, said without its walk. */
  ghost predicate Rounded(c: Config, s: ReceiverState, t: Sched, visits: seq<Visit>) {
    && Inv(c, s.(sched := t)) && GrantedOnce(s.sched.msgs, t.msgs, visits, c.policy) && NoDupIds(visits)
    && forall v | v in visits :: v.id in s.sched.msgs && s.sched.msgs[v.id].peer.Some?
  }

  lemma RoundIsDistinct(c: Config, s: Sched, t: Sched, spots: seq<Spot>, visits: seq<Visit>)
    requires IsRound(c, s, t, spots, visits)
    ensures NoDupIds(visits)
  {
    VisitsAreDistinct(spots, visits, c.policy, Max(0, c.policy.maxScheduledPriority + 1 - |s.peers|));
  }

  lemma RoundIsRounded(c: Config, s: ReceiverState, t: Sched, spots: seq<Spot>, visits: seq<Visit>)
    requires c.Valid() && Inv(c, s) && IsRound(c, s.sched, t, spots, visits)
    ensures Rounded(c, s, t, visits)
  {
    RoundKeepsInv(c, s, t, spots, visits);
    RoundIsDistinct(c, s.sched, t, spots, visits);
  }

  /** A message visited in a round was scheduled when the round began. */
  lemma VisitIsScheduled(spots: seq<Spot>, visits: seq<Visit>, policy: Scheduled, unused: int, k: nat)
    requires Walk(spots, visits, policy, unused) && k < |visits|
    ensures visits[k].id in spots[0].s.msgs && spots[0].s.msgs[visits[k].id].peer.Some?
  {
    var a := spots[k];
    assert Turn(a, spots[k + 1], visits[k], policy, k, unused);
    assert LinkedTo(a.s.msgs, visits[k].id, a.s.peers[a.pos]);
    AheadEarlier(spots, visits, policy, unused, 0, k, visits[k].id);
  }

  lemma RoundKeepsMessages(c: Config, before: Messages, after: Messages, visits: seq<Visit>)
    requires c.Valid() && GrantedOnce(before, after, visits, c.policy)
    requires forall v | v in visits :: v.id in before && before[v.id].peer.Some?
    requires forall id | id in before :: before[id].Valid(c.p, c.policy.maxScheduledBytes)
    ensures forall id | id in after :: after[id].Valid(c.p, c.policy.maxScheduledBytes)
    ensures forall id | id in after :: after[id].arrivals == before[id].arrivals
  {
    forall id | id in after
      ensures after[id].Valid(c.p, c.policy.maxScheduledBytes) && after[id].arrivals == before[id].arrivals
    {
      if v :| v in visits && v.id == id {
        GrantedKeepsValid(c.p, c.policy, before[id], v.priority);
      }
    }
  }

  /** A message is visited as the round found it, with the priority its turn is worth. */
  lemma RoundVisits(c: Config, s: Sched, t: Sched, spots: seq<Spot>, visits: seq<Visit>, k: nat)
    requires c.Valid() && SchedInv(s) && IsRound(c, s, t, spots, visits) && k < |visits|
    ensures visits[k].id in s.msgs && visits[k].remaining == s.msgs[visits[k].id].bytesRemaining
    ensures var levels := Min(|s.peers|, c.policy.maxScheduledPriority + 1);
            visits[k].priority == if k < levels then levels - 1 - k else 0
  {
    VisitPeer(spots, visits, c.policy, Max(0, c.policy.maxScheduledPriority + 1 - |s.peers|), k);
    VisitPriorities(spots, visits, c.policy, |s.peers|, k);
  }

  /**
   * What a round of grants promises: it visits as many messages as there are peers or as
   * the policy allows, in the order of what remains of them, starting with the least remaining one and
   * leaving out no peer with a shorter message; the first visits get different priorities counting down
   * to 0; each message visited is granted what it is owed, and is scheduled from then on only with
   * something left to grant.
   */
  lemma RoundPromises(c: Config, s: ReceiverState, t: Sched, spots: seq<Spot>, visits: seq<Visit>)
    requires c.Valid() && Inv(c, s) && IsRound(c, s.sched, t, spots, visits)
    ensures Min(|s.sched.peers|, c.policy.degreeOvercommitment) <= |visits| <= c.policy.degreeOvercommitment
    ensures NoDupIds(visits)
    ensures forall k | 0 <= k < |visits| ::
              && visits[k].id in s.sched.msgs && visits[k].remaining == s.sched.msgs[visits[k].id].bytesRemaining
              && var levels := Min(|s.sched.peers|, c.policy.maxScheduledPriority + 1);
                 visits[k].priority == if k < levels then levels - 1 - k else 0
    ensures forall i, j | 0 <= i <= j < |visits| ::
              && visits[i].remaining <= visits[j].remaining
              && 0 <= visits[j].priority <= visits[i].priority <= c.policy.maxScheduledPriority
    ensures forall id | visits != [] && id in s.sched.msgs && s.sched.msgs[id].peer.Some? ::
              visits[0].remaining <= s.sched.msgs[id].bytesRemaining
    ensures forall id, j | 0 <= j < |visits| && LeftOut(s.sched.msgs, visits, id) ::
              visits[j].remaining <= s.sched.msgs[id].bytesRemaining
    ensures forall v | v in visits ::
              && v.id in s.sched.msgs && v.id in t.msgs && Outstanding(t.msgs[v.id], c.policy)
              && Regranted(s.sched.msgs[v.id], t.msgs[v.id], c.policy, v.priority)
  {
    var unused := Max(0, c.policy.maxScheduledPriority + 1 - |s.sched.peers|);
    PeersAheadRemain(spots, visits, c.policy, unused, |visits|);
    VisitsAreDistinct(spots, visits, c.policy, unused);
    forall k | 0 <= k < |visits|
      ensures visits[k].id in s.sched.msgs && visits[k].remaining == s.sched.msgs[visits[k].id].bytesRemaining
      ensures var levels := Min(|s.sched.peers|, c.policy.maxScheduledPriority + 1);
              visits[k].priority == if k < levels then levels - 1 - k else 0
    {
      RoundVisits(c, s.sched, t, spots, visits, k);
    }
    forall i, j | 0 <= i <= j < |visits| ensures visits[i].remaining <= visits[j].remaining {
      VisitsAreOrdered(spots, visits, c.policy, unused, i, j);
    }
    RoundIsLeast(c, s.sched, t, spots, visits);
    RoundLeavesOutstanding(c, s, t, spots, visits);
  }

  lemma RoundIsLeast(c: Config, s: Sched, t: Sched, spots: seq<Spot>, visits: seq<Visit>)
    requires SchedInv(s) && IsRound(c, s, t, spots, visits)
    ensures forall id | visits != [] && id in s.msgs && s.msgs[id].peer.Some? ::
              visits[0].remaining <= s.msgs[id].bytesRemaining
    ensures forall id, j | 0 <= j < |visits| && LeftOut(s.msgs, visits, id) ::
              visits[j].remaining <= s.msgs[id].bytesRemaining
  {
    var unused := Max(0, c.policy.maxScheduledPriority + 1 - |s.peers|);
    forall id | visits != [] && id in s.msgs && s.msgs[id].peer.Some?
      ensures visits[0].remaining <= s.msgs[id].bytesRemaining
    {
      FirstVisitIsLeast(spots, visits, c.policy, unused, id);
    }
    forall id, j | 0 <= j < |visits| && LeftOut(s.msgs, visits, id)
      ensures visits[j].remaining <= s.msgs[id].bytesRemaining
    {
      UnvisitedIsNotLess(spots, visits, c.policy, unused, id, j);
    }
  }

  lemma RoundLeavesOutstanding(c: Config, s: ReceiverState, t: Sched, spots: seq<Spot>, visits: seq<Visit>)
    requires c.Valid() && Inv(c, s) && IsRound(c, s.sched, t, spots, visits)
    ensures forall v | v in visits ::
              && v.id in s.sched.msgs && v.id in t.msgs && Outstanding(t.msgs[v.id], c.policy)
              && Regranted(s.sched.msgs[v.id], t.msgs[v.id], c.policy, v.priority)
  {
    RoundKeepsInv(c, s, t, spots, visits);
    forall v | v in visits
      ensures v.id in s.sched.msgs && v.id in t.msgs && Outstanding(t.msgs[v.id], c.policy)
      ensures Regranted(s.sched.msgs[v.id], t.msgs[v.id], c.policy, v.priority)
    {
      GrantedKeepsValid(c.p, c.policy, s.sched.msgs[v.id], v.priority);
    }
  }

  predicate Visited(visits: seq<Visit>, id: MessageId) { exists v :: v in visits && v.id == id }

  /**
   * The GRANTs of a round: one for each message visited that had less than the minimum outstanding,
   * with the limit and the priority the message has from then on, which a PING will find out again.
   */
  lemma RoundSends(c: Config, s: ReceiverState, t: Sched, spots: seq<Spot>, visits: seq<Visit>, x: GrantSent)
    requires c.Valid() && Inv(c, s) && IsRound(c, s.sched, t, spots, visits)
    ensures forall v | v in visits :: v.id in s.sched.msgs
    ensures x in GrantsOf(s.sched.msgs, visits, c.policy) <==>
            && Visited(visits, x.id) && x.id in s.sched.msgs && x.id in t.msgs
            && s.sched.msgs[x.id].bytesGranted - s.sched.msgs[x.id].RecordedBytes() < c.policy.minScheduledBytes
            && x.limit == t.msgs[x.id].bytesGranted && x.priority == t.msgs[x.id].priority
    ensures x in GrantsOf(s.sched.msgs, visits, c.policy) ==>
            0 <= t.msgs[x.id].bytesGranted && 0 <= x.limit && PingReply(t.msgs[x.id]) == Grant(x.limit, x.priority)
  {
    RoundIsRounded(c, s, t, spots, visits);
    GrantsSent(c.p, s.sched.msgs, t.msgs, visits, c.policy, x);
  }

  lemma GrantsSent(p: nat, before: Messages, after: Messages, visits: seq<Visit>, policy: Scheduled, x: GrantSent)
    requires PolicyOk(policy) && GrantedOnce(before, after, visits, policy) && NoDupIds(visits)
    requires forall v | v in visits :: before[v.id].peer.Some? && before[v.id].Valid(p, policy.maxScheduledBytes)
    ensures x in GrantsOf(before, visits, policy) <==>
            && Visited(visits, x.id) && x.id in before
            && before[x.id].bytesGranted - before[x.id].RecordedBytes() < policy.minScheduledBytes
            && x.limit == after[x.id].bytesGranted && x.priority == after[x.id].priority
    ensures x in GrantsOf(before, visits, policy) ==>
            0 <= after[x.id].bytesGranted && 0 <= x.limit && PingReply(after[x.id]) == Grant(x.limit, x.priority)
  {
    GrantsAre(before, visits, policy, x);
    if v :| v in visits && v.id == x.id {
      GrantedKeepsValid(p, policy, before[v.id], v.priority);
      forall w | w in visits && w.id == x.id ensures w == v {
        var i :| 0 <= i < |visits| && visits[i] == v;
        var j :| 0 <= j < |visits| && visits[j] == w;
      }
    }
  }

  /** Fully granted and out of the schedule, or in it with enough granted and not received. */
  predicate Outstanding(m: InMessage, policy: Scheduled) {
    if m.bytesGranted == m.messageLength then m.peer.None?
    else m.peer.Some? && policy.minScheduledBytes <= m.bytesGranted - m.RecordedBytes() <= policy.maxScheduledBytes
  }

  lemma TimeoutKeepsSchedule(s: ReceiverState, id: MessageId)
    requires SchedInv(s.sched) && id in s.sched.msgs
    ensures SchedInv(OnTimeout(s, id).sched)
    ensures OnTimeout(s, id).sched.msgs == if s.sched.msgs[id].state == Receiving then s.sched.msgs - {id}
                                           else s.sched.msgs[id := TimedOutIn(s.sched.msgs[id])]
  {
    if s.sched.msgs[id].state == Receiving {
      ForgottenKeepsInv(s.sched, id);
    } else {
      ChangeKeepsInv(s.sched, id, TimedOutIn(s.sched.msgs[id]));
    }
  }

  /** A list of message timeouts, dealt with one after the other. */
  ghost function TimeOutAll(s: ReceiverState, ids: seq<MessageId>): (t: ReceiverState)
    requires SchedInv(s.sched)
    ensures SchedInv(t.sched)
  {
    if ids == [] then s
    else
      var t, id := TimeOutAll(s, ids[..|ids| - 1]), ids[|ids| - 1];
      if id in t.sched.msgs then TimeoutKeepsSchedule(t, id); OnTimeout(t, id) else t
  }

  lemma TimeOutOneMore(s: ReceiverState, ids: seq<MessageId>, id: MessageId)
    requires SchedInv(s.sched) && id in TimeOutAll(s, ids).sched.msgs
    ensures TimeOutAll(s, ids + [id]) == OnTimeout(TimeOutAll(s, ids), id)
  {
    assert (ids + [id])[..|ids + [id]| - 1] == ids;
  }

  /** Incomplete messages are gone, complete ones are marked, all others and the queue are untouched. */
  lemma {:induction false} TimeOutAllEffect(s: ReceiverState, ids: seq<MessageId>, id: MessageId)
    requires SchedInv(s.sched) && id in s.sched.msgs
    ensures var t, m := TimeOutAll(s, ids), s.sched.msgs[id];
            && t.received == s.received
            && (id in t.sched.msgs <==> id !in ids || m.state != Receiving)
            && (id in t.sched.msgs ==> t.sched.msgs[id] == if id in ids then m.(state := Dropped) else m)
  {
    if ids != [] {
      var most, last := ids[..|ids| - 1], ids[|ids| - 1];
      TimeOutAllEffect(s, most, id);
      assert ids == most + [last];
      if last in TimeOutAll(s, most).sched.msgs {
        TimeoutKeepsSchedule(TimeOutAll(s, most), last);
      }
    }
  }

  lemma {:induction false} TimeOutAllKeepsInv(c: Config, s: ReceiverState, ids: seq<MessageId>)
    requires c.Valid() && Inv(c, s)
    ensures Inv(c, TimeOutAll(s, ids))
  {
    if ids != [] {
      TimeOutAllKeepsInv(c, s, ids[..|ids| - 1]);
      var t, id := TimeOutAll(s, ids[..|ids| - 1]), ids[|ids| - 1];
      if id in t.sched.msgs {
        TimeoutKeepsInv(c, t, id);
      }
    }
  }

  // ------------------------------------------------------------ whole runs

  datatype Event = Data(a: Arrival) | Receive | Drop(id: MessageId) | Timeout(id: MessageId) | Round

  /** One event; BUSY and PING packets and RESEND requests change no message. */
  ghost predicate Next(c: Config, s: ReceiverState, e: Event, t: ReceiverState)
    requires c.Valid() && SchedInv(s.sched)
  {
    match e
    case Data(a) => Fits(c, s, a) && t == OnDataPacket(c, s, a)
    case Receive => s.received != [] && t == s.(received := s.received[1..])
    case Drop(id) => id !in s.received && t == OnDrop(s, id)
    case Timeout(id) => id in s.sched.msgs && t == OnTimeout(s, id)
    case Round => t.received == s.received && exists spots, visits :: IsRound(c, s.sched, t.sched, spots, visits)
  }

  lemma ReceiveKeepsInv(c: Config, s: ReceiverState)
    requires Inv(c, s) && s.received != []
    ensures Inv(c, s.(received := s.received[1..]))
    ensures forall id :: id in s.received[1..] <==> id in s.received && id != s.received[0]
  {
    assert s.received == [s.received[0]] + s.received[1..];
  }

  lemma NextKeepsInv(c: Config, s: ReceiverState, e: Event, t: ReceiverState)
    requires c.Valid() && Inv(c, s) && Next(c, s, e, t)
    ensures Inv(c, t)
  {
    match e
    case Data(a) => DataKeepsInv(c, s, a);
    case Receive =>
    case Drop(id) => DropKeepsInv(c, s, id);
    case Timeout(id) => TimeoutKeepsInv(c, s, id);
    case Round =>
      var spots, visits :| IsRound(c, s.sched, t.sched, spots, visits);
      RoundKeepsInv(c, s, t.sched, spots, visits);
  }

  /**
   * A run: each state follows from the one before by its event.  Events are defined on proper
   * schedules; `RunKeepsInv` says that there are no others.
   */
  ghost predicate Run(c: Config, states: seq<ReceiverState>, events: seq<Event>) {
    && c.Valid() && |states| == |events| + 1 && states[0] == Init()
    && forall k {:trigger events[k]} | 0 <= k < |events| ::
         SchedInv(states[k].sched) ==> Next(c, states[k], events[k], states[k + 1])
  }

  /** Every state of every run satisfies the invariant. */
  lemma {:induction false} RunKeepsInv(c: Config, states: seq<ReceiverState>, events: seq<Event>, n: nat)
    requires Run(c, states, events) && n <= |events|
    ensures Inv(c, states[n])
  {
    if n > 0 {
      RunKeepsInv(c, states, events, n - 1);
      assert Next(c, states[n - 1], events[n - 1], states[n]);
      NextKeepsInv(c, states[n - 1], events[n - 1], states[n]);
    }
  }

  /** How a message may change while it is known. */
  ghost predicate Grows(m: InMessage, n: InMessage) {
    && n.messageLength == m.messageLength && n.source == m.source
    && n.scheduled == m.scheduled
    && m.bytesGranted <= n.bytesGranted && n.bytesRemaining <= m.bytesRemaining
    && (forall i | i in m.packets :: i in n.packets && n.packets[i] == m.packets[i])
    && (m.peer.None? ==> n.peer.None?)
    && (m.state != Receiving ==> n.state != Receiving) && (m.state == Dropped ==> n.state == Dropped)
    && m.arrivals <= n.arrivals
  }

  lemma GrantedGrows(c: Config, m: InMessage, priority: int)
    requires c.Valid() && m.Valid(c.p, c.policy.maxScheduledBytes) && m.peer.Some?
    ensures Grows(m, Granted(m, c.policy, priority)) && Granted(m, c.policy, priority).arrivals == m.arrivals
  {
    GrantedKeepsValid(c.p, c.policy, m, priority);
  }

  lemma RoundGrows(c: Config, s: ReceiverState, t: ReceiverState, id: MessageId)
    requires c.Valid() && Inv(c, s) && Next(c, s, Round, t) && id in s.sched.msgs && id in t.sched.msgs
    ensures Grows(s.sched.msgs[id], t.sched.msgs[id]) && t.sched.msgs[id].arrivals == s.sched.msgs[id].arrivals
  {
    var spots: seq<Spot>, visits: seq<Visit> :| IsRound(c, s.sched, t.sched, spots, visits);
    RoundKeepsInv(c, s, t.sched, spots, visits);
    if v :| v in visits && v.id == id {
      GrantedGrows(c, s.sched.msgs[id], v.priority);
    }
  }

  /** A round of grants adds and removes no message, and completes none. */
  lemma RoundKeepsState(c: Config, s: ReceiverState, t: ReceiverState, id: MessageId)
    requires c.Valid() && Inv(c, s) && Next(c, s, Round, t)
    ensures id in t.sched.msgs <==> id in s.sched.msgs
    ensures id in t.sched.msgs ==> t.sched.msgs[id].state == s.sched.msgs[id].state
  {
    var spots: seq<Spot>, visits: seq<Visit> :| IsRound(c, s.sched, t.sched, spots, visits);
    RoundKeepsInv(c, s, t.sched, spots, visits);
    if v :| v in visits && v.id == id {
      assert t.sched.msgs[id] == Granted(s.sched.msgs[id], c.policy, v.priority);
    }
  }

  lemma DataGrows(c: Config, s: ReceiverState, a: Arrival, id: MessageId)
    requires c.Valid() && Inv(c, s) && Fits(c, s, a) && id in s.sched.msgs
    ensures id in OnDataPacket(c, s, a).sched.msgs && Grows(s.sched.msgs[id], OnDataPacket(c, s, a).sched.msgs[id])
  {
    DataKeepsMessages(c, s, a);
    if id == a.id {
      var m := s.sched.msgs[id];
      assert a.index !in m.packets ==> Stored(m, a.index, a.payload).packets == m.packets[a.index := a.payload];
    }
  }

  /** Forgetting one message or marking it leaves the others as they were. */
  lemma EndGrows(s: ReceiverState, x: MessageId, id: MessageId)
    requires SchedInv(s.sched) && x in s.sched.msgs && id in s.sched.msgs
    ensures id in OnTimeout(s, x).sched.msgs ==> Grows(s.sched.msgs[id], OnTimeout(s, x).sched.msgs[id])
    ensures id in OnTimeout(s, x).sched.msgs ==> OnTimeout(s, x).sched.msgs[id].arrivals == s.sched.msgs[id].arrivals
    ensures id in OnDrop(s, x).sched.msgs ==> OnDrop(s, x).sched.msgs[id] == s.sched.msgs[id]
  {
    ForgottenKeepsInv(s.sched, x);
  }

  lemma NextGrows(c: Config, s: ReceiverState, e: Event, t: ReceiverState, id: MessageId)
    requires c.Valid() && Inv(c, s) && Next(c, s, e, t) && id in s.sched.msgs && id in t.sched.msgs
    ensures Grows(s.sched.msgs[id], t.sched.msgs[id])
  {
    match e
    case Data(a) => DataGrows(c, s, a, id);
    case Receive =>
    case Drop(x) => if x in s.sched.msgs { EndGrows(s, x, id); }
    case Timeout(x) => EndGrows(s, x, id);
    case Round => RoundGrows(c, s, t, id);
  }

  /**
   * While a message is known its grants never shrink, what is stored stays, and a
   * message that left the schedule never returns to it.
   */
  lemma {:induction false} RunGrows(c: Config, states: seq<ReceiverState>, events: seq<Event>, i: nat, j: nat,
                                    id: MessageId)
    requires Run(c, states, events) && i <= j <= |events|
    requires forall k | i <= k <= j :: id in states[k].sched.msgs
    ensures Grows(states[i].sched.msgs[id], states[j].sched.msgs[id])
    decreases j
  {
    if i < j {
      RunGrows(c, states, events, i, j - 1, id);
      RunKeepsInv(c, states, events, j - 1);
      assert Next(c, states[j - 1], events[j - 1], states[j]);
      NextGrows(c, states[j - 1], events[j - 1], states[j], id);
    }
  }

  /** How often a message was made available since it became known. */
  function Arrivals(s: ReceiverState, id: MessageId): nat {
    if id in s.sched.msgs then s.sched.msgs[id].arrivals else 0
  }

  lemma DataQueues(c: Config, s: ReceiverState, a: Arrival, id: MessageId)
    requires c.Valid() && Inv(c, s) && Fits(c, s, a)
    ensures var t := OnDataPacket(c, s, a);
            id in t.received <==> id in s.received || (Arrivals(s, id) == 0 && Arrivals(t, id) == 1)
  {
    DataKeepsMessages(c, s, a);
    KnownKeepsInv(c, s.sched, a);
    if id == a.id && id in s.sched.msgs {
      CompleteWhenAllStored(c.p, c.policy.maxScheduledBytes, s.sched.msgs[id]);
    }
  }

  /** Forgetting a message makes nothing available. */
  lemma EndQueues(c: Config, s: ReceiverState, x: MessageId, id: MessageId)
    requires c.Valid() && Inv(c, s) && x in s.sched.msgs
    ensures Arrivals(OnTimeout(s, x), id) <= Arrivals(s, id) && OnTimeout(s, x).received == s.received
    ensures Arrivals(OnDrop(s, x), id) <= Arrivals(s, id) && OnDrop(s, x).received == s.received
  {
    TimeoutKeepsSchedule(s, x);
    ForgottenKeepsInv(s.sched, x);
  }

  lemma RoundQueues(c: Config, s: ReceiverState, t: ReceiverState, id: MessageId)
    requires c.Valid() && Inv(c, s) && Next(c, s, Round, t)
    ensures Arrivals(t, id) == Arrivals(s, id)
  {
    var spots: seq<Spot>, visits: seq<Visit> :| IsRound(c, s.sched, t.sched, spots, visits);
    RoundKeepsInv(c, s, t.sched, spots, visits);
    RoundKeepsMessages(c, s.sched.msgs, t.sched.msgs, visits);
  }

  /**
   * A message, known before or not, is queued for the application by the packet that completes
   * it and by nothing else, and stays queued until it is the one handed out.
   */
  lemma NextQueues(c: Config, s: ReceiverState, e: Event, t: ReceiverState, id: MessageId)
    requires c.Valid() && Inv(c, s) && Next(c, s, e, t)
    ensures id in t.received <==>
            || (id in s.received && !(e == Receive && s.received[0] == id))
            || (Arrivals(s, id) == 0 && Arrivals(t, id) == 1)
  {
    match e
    case Data(a) => DataQueues(c, s, a, id);
    case Receive => assert s.received == [s.received[0]] + s.received[1..];
    case Drop(x) => if x in s.sched.msgs { EndQueues(c, s, x, id); }
    case Timeout(x) => EndQueues(c, s, x, id);
    case Round => RoundQueues(c, s, t, id);
  }

  /** The message was handed out in step `k` and has been known since. */
  ghost predicate HandedOutAt(states: seq<ReceiverState>, events: seq<Event>, k: nat, n: nat, id: MessageId)
    requires |states| == |events| + 1
  {
    && k < n <= |events| && events[k] == Receive && states[k].received != [] && states[k].received[0] == id
    && forall j | k <= j <= n :: id in states[j].sched.msgs
  }

  /**
   * In every run a message all of whose packets are stored is waiting for the application,
   * or was handed to it since it became known.
   */
  lemma {:induction false} CompleteIsAvailable(c: Config, states: seq<ReceiverState>, events: seq<Event>, n: nat,
                                               id: MessageId)
    requires Run(c, states, events) && n <= |events| && id in states[n].sched.msgs
    requires forall i: nat | i < states[n].sched.msgs[id].numExpectedPackets :: i in states[n].sched.msgs[id].packets
    ensures id in states[n].received || exists k :: HandedOutAt(states, events, k, n, id)
  {
    RunKeepsInv(c, states, events, n);
    CompleteWhenAllStored(c.p, c.policy.maxScheduledBytes, states[n].sched.msgs[id]);
    ArrivedIsAvailable(c, states, events, n, id);
  }

  /** One step of a run, as far as the queue and one message are concerned. */
  ghost predicate QueueStep(s: ReceiverState, e: Event, t: ReceiverState, id: MessageId) {
    && (e == Receive ==> s.received != [])
    && (id in t.received <==>
          || (id in s.received && !(e == Receive && s.received[0] == id))
          || (Arrivals(s, id) == 0 && Arrivals(t, id) == 1))
    && Arrivals(s, id) <= 1 && Arrivals(t, id) <= 1 && (id in s.received ==> Arrivals(s, id) == 1)
    && (id in s.sched.msgs && id in t.sched.msgs ==> Arrivals(s, id) <= Arrivals(t, id))
  }

  lemma NextIsQueueStep(c: Config, s: ReceiverState, e: Event, t: ReceiverState, id: MessageId)
    requires c.Valid() && Inv(c, s) && Next(c, s, e, t)
    ensures QueueStep(s, e, t, id)
  {
    NextQueues(c, s, e, t, id);
    NextKeepsInv(c, s, e, t);
    ArrivalsAtMostOne(c, s, id);
    ArrivalsAtMostOne(c, t, id);
    if id in s.sched.msgs && id in t.sched.msgs {
      NextGrows(c, s, e, t, id);
    }
  }

  lemma ArrivalsAtMostOne(c: Config, s: ReceiverState, id: MessageId)
    requires Inv(c, s)
    ensures Arrivals(s, id) <= 1 && (id in s.received ==> Arrivals(s, id) == 1)
  {
    if id in s.sched.msgs {
      assert s.sched.msgs[id].Valid(c.p, c.policy.maxScheduledBytes);
    }
  }

  lemma RunQueues(c: Config, states: seq<ReceiverState>, events: seq<Event>, n: nat, id: MessageId)
    requires Run(c, states, events) && n < |events|
    ensures QueueStep(states[n], events[n], states[n + 1], id)
  {
    RunKeepsInv(c, states, events, n);
    assert Next(c, states[n], events[n], states[n + 1]);
    NextIsQueueStep(c, states[n], events[n], states[n + 1], id);
  }

  lemma {:induction false} ArrivedIsAvailable(c: Config, states: seq<ReceiverState>, events: seq<Event>, n: nat,
                                              id: MessageId)
    requires Run(c, states, events) && n <= |events| && Arrivals(states[n], id) == 1
    ensures id in states[n].received || exists k :: HandedOutAt(states, events, k, n, id)
  {
    if n > 0 {
      RunQueues(c, states, events, n - 1, id);
      if id !in states[n].received {
        ArrivedIsAvailable(c, states, events, n - 1, id);
        var k := HandedOutBefore(states, events, n - 1, id);
        assert HandedOutAt(states, events, k, n, id);
      }
    }
  }

  /** The step at which a message no longer queued was handed out: the last one, or an earlier one. */
  lemma HandedOutBefore(states: seq<ReceiverState>, events: seq<Event>, n: nat, id: MessageId) returns (k: nat)
    requires |states| == |events| + 1 && n < |events| && QueueStep(states[n], events[n], states[n + 1], id)
    requires Arrivals(states[n], id) == 1 == Arrivals(states[n + 1], id) && id !in states[n + 1].received
    requires id in states[n].received || exists k :: HandedOutAt(states, events, k, n, id)
    ensures HandedOutAt(states, events, k, n + 1, id)
  {
    if id in states[n].received {
      k := n;
    } else {
      k :| HandedOutAt(states, events, k, n, id);
    }
  }

  /** A message handed out is never handed out again. */
  lemma {:induction false} HandedOutOnce(c: Config, states: seq<ReceiverState>, events: seq<Event>, i: nat, j: nat,
                                         id: MessageId)
    requires Run(c, states, events) && HandedOutAt(states, events, i, j, id)
    ensures id !in states[j].received && Arrivals(states[j], id) == 1
    decreases j
  {
    RunQueues(c, states, events, j - 1, id);
    if i + 1 == j {
      assert id in states[i].received;
    } else {
      HandedOutOnce(c, states, events, i, j - 1, id);
    }
  }

  // ------------------------------------------------------- first in, first out

  /** The message an event completes. */
  function Completes(s: ReceiverState, e: Event, t: ReceiverState): seq<MessageId> {
    if e.Data? && Arrivals(s, e.a.id) == 0 && Arrivals(t, e.a.id) == 1 then [e.a.id] else []
  }

  /** The message an event hands to the application. */
  function HandsOut(s: ReceiverState, e: Event): seq<MessageId> {
    if e == Receive && s.received != [] then [s.received[0]] else []
  }

  lemma NextIsFifo(c: Config, s: ReceiverState, e: Event, t: ReceiverState)
    requires c.Valid() && Inv(c, s) && Next(c, s, e, t)
    ensures s.received + Completes(s, e, t) == HandsOut(s, e) + t.received
  {
    match e
    case Data(a) => DataIsFifo(c, s, a);
    case Receive => assert s.received == [s.received[0]] + s.received[1..];
    case Drop(_) =>
    case Timeout(_) =>
    case Round =>
  }

  lemma DataIsFifo(c: Config, s: ReceiverState, a: Arrival)
    requires c.Valid() && Inv(c, s) && Fits(c, s, a)
    ensures var t := OnDataPacket(c, s, a); t.received == s.received + Completes(s, Event.Data(a), t)
  {
    DataKeepsMessages(c, s, a);
    KnownKeepsInv(c, s.sched, a);
    if a.id in s.sched.msgs {
      CompleteWhenAllStored(c.p, c.policy.maxScheduledBytes, s.sched.msgs[a.id]);
    }
  }

  /** The messages completed in the first `n` steps of a run, in that order. */
  ghost function CompletedBy(states: seq<ReceiverState>, events: seq<Event>, n: nat): seq<MessageId>
    requires |states| == |events| + 1 && n <= |events|
  {
    if n == 0 then [] else CompletedBy(states, events, n - 1) + Completes(states[n - 1], events[n - 1], states[n])
  }

  /** The messages handed out in the first `n` steps of a run, in that order. */
  ghost function HandedOutBy(states: seq<ReceiverState>, events: seq<Event>, n: nat): seq<MessageId>
    requires |states| == |events| + 1 && n <= |events|
  {
    if n == 0 then [] else HandedOutBy(states, events, n - 1) + HandsOut(states[n - 1], events[n - 1])
  }

  /**
   * In every run the messages completed so far are those handed out and those waiting, in this
   * order: none is lost, none is invented, and the first to be completed is the first to be handed out.
   */
  lemma {:induction false} FirstInFirstOut(c: Config, states: seq<ReceiverState>, events: seq<Event>, n: nat)
    requires Run(c, states, events) && n <= |events|
    ensures CompletedBy(states, events, n) == HandedOutBy(states, events, n) + states[n].received
  {
    if n > 0 {
      FirstInFirstOut(c, states, events, n - 1);
      RunIsFifo(c, states, events, n - 1);
      var more, next := Completes(states[n - 1], events[n - 1], states[n]), HandsOut(states[n - 1], events[n - 1]);
      var all, out := CompletedBy(states, events, n - 1), HandedOutBy(states, events, n - 1);
      assert CompletedBy(states, events, n) == all + more && HandedOutBy(states, events, n) == out + next;
      Regroup(all, out, states[n - 1].received, more, next, states[n].received);
    }
  }

  lemma RunIsFifo(c: Config, states: seq<ReceiverState>, events: seq<Event>, n: nat)
    requires Run(c, states, events) && n < |events|
    ensures states[n].received + Completes(states[n], events[n], states[n + 1]) ==
            HandsOut(states[n], events[n]) + states[n + 1].received
  {
    RunKeepsInv(c, states, events, n);
    assert Next(c, states[n], events[n], states[n + 1]);
    NextIsFifo(c, states[n], events[n], states[n + 1]);
  }

  lemma Regroup(all: seq<MessageId>, out: seq<MessageId>, queue: seq<MessageId>, more: seq<MessageId>,
                next: seq<MessageId>, rest: seq<MessageId>)
    requires all == out + queue && queue + more == next + rest
    ensures all + more == (out + next) + rest
  {
    assert all + more == out + (queue + more);
    assert (out + next) + rest == out + (next + rest);
  }
}
