/** The Receiver, working in place on its messages, its schedule and its timeouts. */
module Receivers {
  import opened Base
  import opened Protocol
  import opened Ordering
  import opened Scheduler
  import opened Grants
  import opened ReceiverModel
  import opened ReceiverTimers
  import opened ResendRanges
  import opened Timeouts

  /** Resend timeouts are armed only for messages that still wait for packets. */
  ghost predicate Waiting(list: seq<Entry>, messages: Messages) {
    forall k | 0 <= k < |list| :: list[k].id in messages && messages[list[k].id].state == Receiving
  }

  lemma WithoutWaiting(list: seq<Entry>, id: MessageId, messages: Messages)
    requires Ordered(list) && Waiting(list, messages)
    ensures Waiting(Without(list, id), messages) && Waiting(Without(list, id), messages - {id})
    ensures forall k | 0 <= k < |Without(list, id)| :: Without(list, id)[k].id != id
  {
    WithoutKeeps(list, id);
    forall k | 0 <= k < |Without(list, id)| ensures Without(list, id)[k] in list && Without(list, id)[k].id != id {
      assert Without(list, id)[k] in Without(list, id);
    }
  }

  /** A RESEND as it is sent out. */
  datatype Request = Request(id: MessageId, run: Run, priority: int)

  /** The request is one of the RESENDs the message calls for. */
  ghost predicate Requested(p: nat, messages: Messages, id: MessageId, x: Request)
    requires 0 < p
  {
    && x.id == id && id in messages && 0 <= messages[id].bytesGranted
    && Resend(x.run.index, x.run.num, x.priority) in ResendPackets(messages[id], p)
  }

  /** Exactly what the handled messages call for is requested, and all of them still wait for packets. */
  ghost predicate AllRequested(p: nat, messages: Messages, handled: seq<MessageId>, requests: seq<Request>)
    requires 0 < p
  {
    && (forall id | id in handled :: id in messages && messages[id].state == Receiving)
    && (forall x :: x in requests <==> x.id in handled && Requested(p, messages, x.id, x))
  }

  lemma RequestedOneMore(p: nat, messages: Messages, handled: seq<MessageId>, requests: seq<Request>,
                         id: MessageId, more: seq<Request>)
    requires 0 < p && AllRequested(p, messages, handled, requests)
    requires id in messages && messages[id].state == Receiving
    requires forall x :: x in more <==> Requested(p, messages, id, x)
    ensures AllRequested(p, messages, handled + [id], requests + more)
  {
    forall x ensures x in requests + more <==> x.id in handled + [id] && Requested(p, messages, x.id, x) {
      assert x in requests + more <==> x in requests || x in more;
      assert x.id in handled + [id] <==> x.id in handled || x.id == id;
    }
  }

  /** The timeouts of a message fit what it has become. */
  lemma ChangedWaiting(list: seq<Entry>, id: MessageId, expiration: nat, messages: Messages, m: InMessage)
    requires Ordered(list) && Waiting(list, messages)
    ensures Waiting(Without(list, id), messages[id := m])
    ensures m.state == Receiving ==> Waiting(Rearmed(list, id, expiration), messages[id := m])
  {
    WithoutWaiting(list, id, messages);
  }

  lemma ChangedTracked(list: seq<Entry>, id: MessageId, expiration: nat, messages: Messages, m: InMessage)
    requires Ordered(list) && Tracked(list, messages)
    ensures Tracked(Rearmed(list, id, expiration), messages[id := m])
  {
    WithoutTracked(list, id, messages);
  }

  class Receiver {
    const c: Config
    const messageTimeouts: TimeoutManager
    const resendTimeouts: TimeoutManager
    var messages: Messages
    var peerTable: Lists
    var scheduledPeers: seq<nat>
    var receivedMessages: seq<MessageId>

    ghost function Schedules(): Sched
      reads this
    {
      Sched(messages, peerTable, scheduledPeers)
    }

    ghost function State(): ReceiverState
      reads this
    {
      ReceiverState(Schedules(), receivedMessages)
    }

    /**
     * The timeouts are in order, belong to tracked messages, and ask for resends only
     * of incomplete ones.  The rest of the invariant, `Inv(c, State())`, is about the state's
     * value: every method below performs an event of ReceiverModel on it.
     */
    ghost predicate Valid()
      reads this, messageTimeouts, resendTimeouts
    {
      && c.Valid()
      && messageTimeouts != resendTimeouts
      && messageTimeouts.Valid() && Tracked(messageTimeouts.list, messages)
      && resendTimeouts.Valid() && Waiting(resendTimeouts.list, messages)
    }

    /** The entries of both timeout lists. */
    ghost function Lists(): Timers
      reads messageTimeouts, resendTimeouts
    {
      Timers(messageTimeouts.list, resendTimeouts.list)
    }

    ghost function Spans(): Intervals { Intervals(messageTimeouts.interval, resendTimeouts.interval) }

    ghost predicate Clock(cycle: nat)
      reads this, messageTimeouts, resendTimeouts
    {
      && messageTimeouts.lastCycle <= cycle && cycle + messageTimeouts.interval < UINT64_MAX
      && resendTimeouts.lastCycle <= cycle && cycle + resendTimeouts.interval < UINT64_MAX
    }

    constructor (c: Config, messageTimeoutCycles: nat, resendIntervalCycles: nat)
      requires c.Valid() && 0 < messageTimeoutCycles && 0 < resendIntervalCycles
      ensures Valid() && State() == Init() && this.c == c && fresh(messageTimeouts) && fresh(resendTimeouts)
    {
      this.c := c;
      messages, peerTable, scheduledPeers, receivedMessages := map[], map[], [], [];
      messageTimeouts := new TimeoutManager(messageTimeoutCycles);
      resendTimeouts := new TimeoutManager(resendIntervalCycles);
    }

    // ---------------------------------------------------------- the schedule

    method Schedule(id: MessageId, m: InMessage)
      requires m.peer.None?
      modifies this`messages, this`peerTable, this`scheduledPeers
      ensures Schedules() == Scheduler.Schedule(old(Schedules()), id, m.(peer := Some(m.source)))
    {
      var peer := m.source;
      messages := messages[id := m.(peer := Some(peer))];
      var list := [id] + ListOf(peerTable, peer);
      list := Deprioritized(list, 0, ByRemaining(messages));
      peerTable := peerTable[peer := list];
      if peer !in scheduledPeers {
        scheduledPeers := [peer] + scheduledPeers;
        scheduledPeers := Deprioritized(scheduledPeers, 0, ByFront(messages, peerTable));
      } else if list[0] == id {
        scheduledPeers := Prioritized(scheduledPeers, IndexIn(scheduledPeers, peer), ByFront(messages, peerTable));
      }
    }

    method Unschedule(id: MessageId)
      requires SchedInv(Schedules()) && id in messages && messages[id].peer.Some?
      modifies this`messages, this`peerTable, this`scheduledPeers
      ensures old(messages[id].peer.value in scheduledPeers && id in ListOf(peerTable, messages[id].peer.value))
      ensures Schedules() == Scheduler.Unschedule(old(Schedules()), id)
    {
      UnscheduleKeepsInv(Schedules(), id);
      var peer := messages[id].peer.value;
      var it := IndexIn(scheduledPeers, peer);
      var list := ListOf(peerTable, peer);
      list := RemoveAt(list, IndexIn(list, id));
      peerTable := peerTable[peer := list];
      messages := messages[id := messages[id].(peer := None)];
      var comp := ByFront(messages, peerTable);
      if list == [] {
        scheduledPeers := RemoveAt(scheduledPeers, it);
      } else if it + 1 == |scheduledPeers| || !comp(scheduledPeers[it + 1], scheduledPeers[it]) {
        // The peer is in the right place already.
      } else {
        scheduledPeers := Deprioritized(scheduledPeers, it, comp);
      }
    }

    method UpdateSchedule(id: MessageId, m: InMessage)
      requires m.peer.Some? && m.peer.value in scheduledPeers && id in ListOf(peerTable, m.peer.value)
      modifies this`messages, this`peerTable, this`scheduledPeers
      ensures Schedules() == Update(old(Schedules()), id, m)
    {
      messages := messages[id := m];
      var peer := m.peer.value;
      var list := ListOf(peerTable, peer);
      list := Prioritized(list, IndexIn(list, id), ByRemaining(messages));
      peerTable := peerTable[peer := list];
      if list[0] == id {
        scheduledPeers := Prioritized(scheduledPeers, IndexIn(scheduledPeers, peer), ByFront(messages, peerTable));
      }
    }

    // --------------------------------------------------------------- packets

    /** A message that lacks packets is in the state that says so. */
    ghost predicate Settled(id: MessageId)
      reads this
    {
      id in messages && messages[id].numPackets < messages[id].numExpectedPackets ==> messages[id].state == Receiving
    }

    /** A message not heard of before. */
    method Admit(a: Arrival)
      requires Valid() && SchedInv(Schedules()) && a.id !in messages
      modifies this`messages, this`peerTable, this`scheduledPeers
      ensures Valid() && Settled(a.id)
      ensures Schedules() == Known(c, old(Schedules()), a) && SchedInv(Schedules()) && a.id in messages
    {
      KnownKeepsInv(c, Schedules(), a);
      var m := NewMessage(c.p, a.source, a.totalLength, a.unscheduled).(peer := None);
      if m.scheduled {
        Schedule(a.id, m);
      } else {
        messages := messages[a.id := m];
      }
    }

    /** The message with one more packet; the scheduler counts the bytes of a message that is still linked. */
    method Place(message: InMessage, index: nat, payload: seq<byte>) returns (m: InMessage)
      ensures m == Stored(message, index, payload)
    {
      m := message.(packets := message.packets[index := payload], numPackets := message.numPackets + 1);
      if m.peer.Some? {
        m := m.(bytesRemaining := m.bytesRemaining - |payload|);
      }
      if m.numPackets >= m.numExpectedPackets {
        m := m.(state := Received, arrivals := m.arrivals + 1);
      }
    }

    /** The packet goes into a free place of its message. */
    method StorePacket(id: MessageId, index: nat, payload: seq<byte>)
      requires SchedInv(Schedules()) && id in messages
      modifies this`messages, this`peerTable, this`scheduledPeers
      ensures old(var m := Stored(messages[id], index, payload);
                  m.peer.Some? ==> m.peer.value in scheduledPeers && id in ListOf(peerTable, m.peer.value))
      ensures Schedules() == StoredIn(old(Schedules()), id, Stored(old(messages)[id], index, payload))
      ensures messages == old(messages)[id := Stored(old(messages)[id], index, payload)]
    {
      StoredInKeepsInv(Schedules(), id, Stored(messages[id], index, payload));
      var m := Place(messages[id], index, payload);
      if m.peer.Some? {
        UpdateSchedule(id, m);
      } else {
        messages := messages[id := m];
      }
    }

    /** A DATA packet: its message becomes known, the packet is stored unless its place is taken. */
    method HandleDataPacket(a: Arrival, cycle: nat) returns (stored: bool)
      requires Valid() && Clock(cycle) && SchedInv(Schedules()) && Settled(a.id)
      modifies this, messageTimeouts, resendTimeouts
      ensures Valid() && State() == OnDataPacket(c, old(State()), a) && a.id in messages
      ensures stored == IsNew(old(State()), a)
      ensures Lists() == TimersAfter(old(State()), State(), old(Lists()), Event.Data(a), cycle, Spans())
    {
      KnownKeepsInv(c, Schedules(), a);
      if a.id !in messages {
        Admit(a);
      }
      stored := a.index !in messages[a.id].packets;
      if stored {
        StoreAndRearm(a.id, a.index, a.payload, cycle);
      }
    }

    /** Packets of the message are missing. */
    ghost predicate Lacks(id: MessageId)
      requires id in messages
      reads this
    {
      messages[id].numPackets < messages[id].numExpectedPackets
    }

    /** Store a packet and tell the timeouts. */
    method StoreAndRearm(id: MessageId, index: nat, payload: seq<byte>, cycle: nat)
      requires Valid() && Clock(cycle) && SchedInv(Schedules()) && Settled(id) && id in messages
      modifies this, messageTimeouts, resendTimeouts
      ensures Valid() && id in messages && State() == WithPacket(old(State()), id, index, payload)
      ensures Lists() == Each(old(Lists()), id, Arm(cycle), if Lacks(id) then Arm(cycle) else Disarm, Spans())
    {
      ghost var m := Stored(messages[id], index, payload);
      ChangedTracked(messageTimeouts.list, id, cycle + messageTimeouts.interval, messages, m);
      ChangedWaiting(resendTimeouts.list, id, cycle + resendTimeouts.interval, messages, m);
      StorePacket(id, index, payload);
      NotePacket(id, cycle);
    }

    /** A new packet postpones the timeouts; the last one ends the resend timeout and makes the message available. */
    method NotePacket(id: MessageId, cycle: nat)
      requires c.Valid() && Clock(cycle) && id in messages
      requires messageTimeouts != resendTimeouts && messageTimeouts.Valid() && resendTimeouts.Valid()
      requires Tracked(Rearmed(messageTimeouts.list, id, cycle + messageTimeouts.interval), messages)
      requires Waiting(Without(resendTimeouts.list, id), messages)
      requires Lacks(id) ==> Waiting(Rearmed(resendTimeouts.list, id, cycle + resendTimeouts.interval), messages)
      modifies this`receivedMessages, messageTimeouts, resendTimeouts
      ensures Valid()
      ensures Lists() == Each(old(Lists()), id, Arm(cycle), if Lacks(id) then Arm(cycle) else Disarm, Spans())
      ensures receivedMessages == if Lacks(id) then old(receivedMessages) else old(receivedMessages) + [id]
    {
      messageTimeouts.SetTimeout(id, cycle);
      if messages[id].numPackets < messages[id].numExpectedPackets {
        resendTimeouts.SetTimeout(id, cycle);
      } else {
        resendTimeouts.CancelTimeout(id);
        receivedMessages := receivedMessages + [id];
      }
    }

    /** The sender is alive but busy: postpone both timeouts. */
    method HandleBusyPacket(id: MessageId, cycle: nat)
      requires Valid() && Clock(cycle)
      modifies messageTimeouts, resendTimeouts
      ensures Valid()
      ensures Lists() == BusyTimers(messages, old(Lists()), id, cycle, Spans())
    {
      WithoutTracked(messageTimeouts.list, id, messages);
      WithoutWaiting(resendTimeouts.list, id, messages);
      if id in messages {
        messageTimeouts.SetTimeout(id, cycle);
        if messages[id].state == Receiving {
          resendTimeouts.SetTimeout(id, cycle);
        }
      }
    }

    /** Answer a PING with the latest grant, an empty one, or that the message is not known. */
    method HandlePingPacket(id: MessageId, cycle: nat) returns (reply: Packet)
      requires Valid() && Clock(cycle) && (id in messages ==> 0 <= messages[id].bytesGranted)
      modifies messageTimeouts
      ensures Valid() && reply == if id in messages then PingReply(messages[id]) else Unknown
      ensures Lists() == PingTimers(messages, old(Lists()), id, cycle, Spans())
    {
      WithoutTracked(messageTimeouts.list, id, messages);
      if id !in messages {
        return Unknown;
      }
      messageTimeouts.SetTimeout(id, cycle);
      var bytesGranted: nat, priority := 0, 0;
      if messages[id].scheduled {
        bytesGranted, priority := messages[id].bytesGranted, messages[id].priority;
      }
      return Grant(bytesGranted, priority);
    }

    // ----------------------------------------------------------- application

    /** Hand the application the message that has waited longest. */
    method ReceiveMessage() returns (id: Option<MessageId>)
      modifies this`receivedMessages
      ensures id.Some? <==> old(receivedMessages) != []
      ensures id.Some? ==> old(receivedMessages) == [id.value] + receivedMessages
      ensures id.None? ==> receivedMessages == []
    {
      if receivedMessages == [] {
        return None;
      }
      id := Some(receivedMessages[0]);
      receivedMessages := receivedMessages[1..];
    }

    method CancelTimeouts(id: MessageId)
      requires Valid()
      modifies messageTimeouts, resendTimeouts
      ensures Valid()
      ensures Tracked(messageTimeouts.list, messages - {id}) && Waiting(resendTimeouts.list, messages - {id})
      ensures forall k | 0 <= k < |resendTimeouts.list| :: resendTimeouts.list[k].id != id
      ensures Lists() == Each(old(Lists()), id, Disarm, Disarm, Spans())
      ensures messageTimeouts.lastCycle == old(messageTimeouts.lastCycle)
      ensures resendTimeouts.lastCycle == old(resendTimeouts.lastCycle)
    {
      WithoutTracked(messageTimeouts.list, id, messages);
      WithoutWaiting(resendTimeouts.list, id, messages);
      messageTimeouts.CancelTimeout(id);
      resendTimeouts.CancelTimeout(id);
    }

    /** Take a message out of the schedule, if it is still in it, and forget it. */
    method Forget(id: MessageId)
      requires SchedInv(Schedules()) && id in messages
      modifies this`messages, this`peerTable, this`scheduledPeers
      ensures Schedules() == Forgotten(old(Schedules()), id) && messages == old(messages) - {id}
    {
      ForgottenKeepsInv(Schedules(), id);
      if messages[id].peer.Some? {
        Unschedule(id);
      }
      messages := messages - {id};
    }

    method DropMessage(id: MessageId)
      requires Valid() && SchedInv(Schedules())
      modifies this, messageTimeouts, resendTimeouts
      ensures Valid() && State() == OnDrop(old(State()), id)
      ensures Lists() == TimersAfter(old(State()), State(), old(Lists()), Event.Drop(id), 0, Spans())
    {
      if id in messages {
        CancelTimeouts(id);
        Forget(id);
      }
    }

    // -------------------------------------------------------------- timeouts

    /** One expired message timeout. */
    method TimeOutMessage(id: MessageId)
      requires Valid() && SchedInv(Schedules()) && id in messages
      modifies this, messageTimeouts, resendTimeouts
      ensures Valid() && State() == OnTimeout(old(State()), id)
      ensures Lists() == TimersAfter(old(State()), State(), old(Lists()), Event.Timeout(id), 0, Spans())
    {
      CancelTimeouts(id);
      if messages[id].state == Receiving {
        Forget(id);
      } else {
        messages := messages[id := messages[id].(state := Dropped)];
      }
    }

    /** The first expired message timeout is dealt with. */
    method TimeOutFront(ghost from: ReceiverState, ghost was: Timers, now: nat, handled: seq<MessageId>)
      returns (handled': seq<MessageId>)
      requires Valid() && SchedInv(from.sched) && State() == TimeOutAll(from, handled)
      requires Ordered(was.message) && Ordered(was.resend)
      requires ExpiredSoFar(was.message, was.resend, now, handled, messageTimeouts.list, resendTimeouts.list)
      requires messageTimeouts.list != [] && messageTimeouts.list[0].expiration <= now
      modifies this, messageTimeouts, resendTimeouts
      ensures Valid() && State() == TimeOutAll(from, handled')
      ensures ExpiredSoFar(was.message, was.resend, now, handled', messageTimeouts.list, resendTimeouts.list)
      ensures |messageTimeouts.list| < |old(messageTimeouts.list)|
    {
      var id := messageTimeouts.list[0].id;
      TimeOutOneMore(from, handled, id);
      ExpiredNext(was.message, was.resend, now, handled, messageTimeouts.list, resendTimeouts.list, id);
      TimeOutMessage(id);
      handled' := handled + [id];
    }

    /**
     * Deal with every expired message timeout: each exactly once, in order, until none is
     * left; the other entries stay.
     */
    method CheckMessageTimeouts(now: nat) returns (handled: seq<MessageId>)
      requires Valid() && SchedInv(Schedules()) && now < UINT64_MAX
      modifies this, messageTimeouts, resendTimeouts
      ensures Valid()
      ensures handled == ElapsedIds(old(messageTimeouts.list), now)
      ensures State() == TimeOutAll(old(State()), handled)
      ensures Lists() == Timers(old(messageTimeouts.list)[|handled|..],
                                WithoutIds(old(resendTimeouts.list), IdsOf(handled)))
      ensures forall k | 0 <= k < |messageTimeouts.list| :: now < messageTimeouts.list[k].expiration
    {
      handled := [];
      ghost var from, was := State(), Lists();
      ExpiredStart(was.message, was.resend, now);
      var any := messageTimeouts.AnyElapsed(now);
      if any {
        while messageTimeouts.list != [] && messageTimeouts.list[0].expiration <= now
          invariant Valid() && State() == TimeOutAll(from, handled)
          invariant ExpiredSoFar(was.message, was.resend, now, handled, messageTimeouts.list, resendTimeouts.list)
          decreases |messageTimeouts.list|
        {
          handled := TimeOutFront(from, was, now, handled);
        }
      }
      ExpiredDone(was.message, was.resend, now, handled, messageTimeouts.list, resendTimeouts.list);
    }

    /** What one expired resend timeout asks the sender for. */
    method RequestResends(id: MessageId) returns (requests: seq<Request>)
      requires c.Valid() && id in messages && 0 <= messages[id].bytesGranted
      ensures forall x :: x in requests <==> Requested(c.p, messages, id, x)
      ensures forall j, k | 0 <= j < k < |requests| ::
                requests[j].run.index + requests[j].run.num < requests[k].run.index
    {
      var message := messages[id];
      var grantIndexLimit := Min(message.numUnscheduledPackets, message.numExpectedPackets);
      if message.scheduled {
        var receivedBytes := message.messageLength - message.bytesRemaining;
        if receivedBytes >= message.bytesGranted {
          return [];
        } else if grantIndexLimit * c.p < message.bytesGranted {
          grantIndexLimit := (message.bytesGranted + c.p - 1) / c.p;
        }
      }
      assert grantIndexLimit == ResendLimit(message, c.p);
      var runs := FindRuns(message.packets, grantIndexLimit);
      requests := seq(|runs|, k requires 0 <= k < |runs| => Request(id, runs[k], message.priority));
      forall x ensures x in requests <==> Requested(c.p, messages, id, x) {
        ResendPacketsAre(message, c.p, Resend(x.run.index, x.run.num, x.priority));
        if Requested(c.p, messages, id, x) {
          var k :| 0 <= k < |runs| && runs[k] == x.run;
          assert requests[k] == x;
        }
      }
    }

    /** One expired resend timeout: arm it anew and request what is missing. */
    method ResendFront(ghost was: seq<Entry>, now: nat, cycle: nat, handled: seq<MessageId>, requests: seq<Request>)
      returns (handled': seq<MessageId>, requests': seq<Request>)
      requires Valid() && Clock(cycle) && now <= cycle && Ordered(was)
      requires forall id | id in messages :: 0 <= messages[id].bytesGranted
      requires ResentSoFar(was, now, cycle + resendTimeouts.interval, handled, resendTimeouts.list)
      requires AllRequested(c.p, messages, handled, requests)
      requires resendTimeouts.list != [] && resendTimeouts.list[0].expiration <= now
      modifies resendTimeouts
      ensures Valid() && Clock(cycle)
      ensures ResentSoFar(was, now, cycle + resendTimeouts.interval, handled', resendTimeouts.list)
      ensures AllRequested(c.p, messages, handled', requests')
      ensures ResendsLeft(was, now, handled') < ResendsLeft(was, now, handled)
    {
      var id := resendTimeouts.list[0].id;
      ResentNext(was, now, cycle + resendTimeouts.interval, handled, resendTimeouts.list, id);
      WithoutWaiting(resendTimeouts.list, id, messages);
      resendTimeouts.SetTimeout(id, cycle);
      var more := RequestResends(id);
      RequestedOneMore(c.p, messages, handled, requests, id, more);
      handled', requests' := handled + [id], requests + more;
    }

    /**
     * Deal with every expired resend timeout, each exactly once, until none is left; only
     * incomplete messages are among them, and every one is armed anew.
     */
    method CheckResendTimeouts(now: nat, cycle: nat) returns (handled: seq<MessageId>, requests: seq<Request>)
      requires Valid() && Clock(cycle) && now <= cycle
      requires forall id | id in messages :: 0 <= messages[id].bytesGranted
      modifies resendTimeouts
      ensures Valid()
      ensures handled == ElapsedIds(old(resendTimeouts.list), now)
      ensures AllRequested(c.p, messages, handled, requests)
      ensures Lists() == ResendsChecked(old(Lists()), now, cycle, Spans())
      ensures forall k | 0 <= k < |resendTimeouts.list| :: now < resendTimeouts.list[k].expiration
    {
      handled, requests := [], [];
      ghost var was, expiration := resendTimeouts.list, cycle + resendTimeouts.interval;
      ghost var t := was;
      var any := resendTimeouts.AnyElapsed(now);
      if any {
        while resendTimeouts.list != [] && resendTimeouts.list[0].expiration <= now
          invariant Valid() && Clock(cycle) && t == resendTimeouts.list
          invariant ResentSoFar(was, now, expiration, handled, t)
          invariant AllRequested(c.p, messages, handled, requests)
          decreases ResendsLeft(was, now, handled)
        {
          handled, requests := ResendFront(was, now, cycle, handled, requests);
          t := resendTimeouts.list;
        }
      }
      ResentDone(was, now, expiration, handled, t);
    }

    // ---------------------------------------------------------------- grants

    /** What the grant loop makes of a message: its priority, and a new limit if too little is outstanding. */
    method Regrant(id: MessageId, m: InMessage, priority: int) returns (info: InMessage, grants: seq<GrantSent>)
      ensures info == Granted(m, c.policy, priority).(peer := m.peer)
      ensures grants == GrantFor(m, Visit(id, m.bytesRemaining, priority), c.policy)
    {
      info, grants := m.(priority := priority), [];
      var receivedBytes := info.messageLength - info.bytesRemaining;
      if info.bytesGranted - receivedBytes < c.policy.minScheduledBytes {
        var newGrantLimit := Min(receivedBytes + c.policy.maxScheduledBytes, info.messageLength);
        info := info.(bytesGranted := newGrantLimit);
        grants := [GrantSent(id, info.bytesGranted, priority)];
      }
    }

    /** Grant the first message of a peer; it leaves the schedule when everything is granted. */
    method GrantFront(peer: nat, priority: int) returns (v: Visit, grants: seq<GrantSent>)
      requires Valid() && SchedInv(Schedules())
      requires ListOf(peerTable, peer) != [] && LinkedTo(messages, ListOf(peerTable, peer)[0], peer)
      modifies this`messages, this`peerTable, this`scheduledPeers
      ensures Valid() && v.id == ListOf(old(peerTable), peer)[0] && v.id in old(messages)
      ensures v == Visit(v.id, old(messages)[v.id].bytesRemaining, priority)
      ensures grants == GrantFor(old(messages)[v.id], v, c.policy)
      ensures Schedules() == GrantTo(old(Schedules()), v.id, c.policy, priority)
      ensures v.id in messages
      ensures old(messages)[v.id].Valid(c.p, c.policy.maxScheduledBytes) ==>
                Regranted(old(messages)[v.id], messages[v.id], c.policy, priority)
    {
      var id := peerTable[peer][0];
      var info;
      info, grants := Regrant(id, messages[id], priority);
      v := Visit(id, info.bytesRemaining, priority);
      ChangeKeepsInv(Schedules(), id, info);
      GrantToKeepsInv(Schedules(), id, c.policy, priority);
      messages := messages[id := info];
      if info.messageLength <= info.bytesGranted {
        Unschedule(id);
      }
      if old(messages)[id].Valid(c.p, c.policy.maxScheduledBytes) {
        GrantedKeepsValid(c.p, c.policy, old(messages)[id], priority);
      }
    }

    /**
     * One round of grants over the scheduled peers.  The iterator is advanced before a message
     * is unscheduled, because that may remove or move its peer.
     */
    method TrySendGrants() returns (grants: seq<GrantSent>, ghost visits: seq<Visit>, ghost spots: seq<Spot>)
      requires Valid() && SchedInv(Schedules())
      modifies this`messages, this`peerTable, this`scheduledPeers
      ensures Valid() && IsRound(c, old(Schedules()), Schedules(), spots, visits)
      ensures forall v | v in visits :: v.id in old(messages)
      ensures grants == GrantsOf(old(messages), visits, c.policy)
    {
      grants, visits, spots := [], [], [Spot(Schedules(), 0)];
      if scheduledPeers == [] {
        return;
      }
      var policy := c.policy;
      var unusedPriorities := Max(0, policy.maxScheduledPriority + 1 - |scheduledPeers|);
      var it := Some(scheduledPeers[0]);
      var slot := 0;
      while it.Some? && slot < policy.degreeOvercommitment
        invariant Valid() && |visits| == slot <= policy.degreeOvercommitment
        invariant Rounding(old(Schedules()), Schedules(), spots, visits, it, grants, policy, unusedPriorities)
      {
        ghost var s := Schedules();
        RoundingFront(old(Schedules()), s, spots, visits, it, grants, policy, unusedPriorities);
        var peer := it.value;
        var priority := Max(0, policy.maxScheduledPriority - slot - unusedPriorities);
        var next := After(scheduledPeers, peer);
        var v, sent := GrantFront(peer, priority);
        ghost var b := RoundingAdvances(old(Schedules()), s, spots, visits, it, grants, policy, unusedPriorities, v);
        it, visits, spots := next, visits + [v], spots + [b];
        grants := grants + sent;
        slot := slot + 1;
      }
    }
  }
}
