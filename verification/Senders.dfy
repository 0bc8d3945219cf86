/** The Sender, working in place on the messages it tracks, its queue and its timeouts. */
module Senders {
  import opened Base
  import opened Protocol
  import opened Ordering
  import opened SendQueue
  import opened QueueWalk
  import opened SenderModel
  import opened SenderTimers
  import opened Timeouts

  class Sender {
    const c: Config
    const messageTimeouts: TimeoutManager
    const pingTimeouts: TimeoutManager
    var messages: map<MessageId, OutMessage>
    var sendQueue: seq<MessageId>
    var sendReady: bool
    var doneMessages: seq<MessageId>
    var nextMessageSequenceNumber: nat

    ghost function State(): SenderState
      reads this
    {
      SenderState(Queue(messages, sendQueue), sendReady, doneMessages, nextMessageSequenceNumber)
    }

    /**
     * The timeouts are in order and belong to tracked messages.  The rest of the invariant,
     * `Inv(c, State())`, is a property of the state's value: every method below performs one
     * `Step` on it, and `StepKeepsInv` says that steps keep it.
     */
    ghost predicate Valid()
      reads this, messageTimeouts, pingTimeouts
    {
      && c.Valid()
      && messageTimeouts != pingTimeouts
      && messageTimeouts.Valid() && Tracked(messageTimeouts.list, messages)
      && pingTimeouts.Valid() && Tracked(pingTimeouts.list, messages)
    }

    /** The entries of both timeout lists. */
    ghost function Lists(): Timers
      reads messageTimeouts, pingTimeouts
    {
      Timers(messageTimeouts.list, pingTimeouts.list)
    }

    ghost function Spans(): Intervals { Intervals(messageTimeouts.interval, pingTimeouts.interval) }

    /** What the queue invariant says about one message. */
    ghost predicate Fits(id: MessageId)
      reads this
    {
      id in messages ==> messages[id].Valid() && (messages[id].status == IN_PROGRESS <==> id in sendQueue)
    }

    lemma InvFits(id: MessageId)
      requires Inv(c, State())
      ensures Fits(id)
    {
    }

    /** A clock reading not earlier than the last one, with room for both intervals. */
    ghost predicate Clock(cycle: nat)
      reads this, messageTimeouts, pingTimeouts
    {
      && messageTimeouts.lastCycle <= cycle && cycle + messageTimeouts.interval < UINT64_MAX
      && pingTimeouts.lastCycle <= cycle && cycle + pingTimeouts.interval < UINT64_MAX
    }

    constructor (c: Config, messageTimeoutCycles: nat, pingIntervalCycles: nat)
      requires c.Valid() && 0 < messageTimeoutCycles && 0 < pingIntervalCycles
      ensures Valid() && State() == Init() && this.c == c && fresh(messageTimeouts) && fresh(pingTimeouts)
    {
      this.c := c;
      messages, sendQueue, sendReady, doneMessages, nextMessageSequenceNumber := map[], [], false, [], 1;
      messageTimeouts := new TimeoutManager(messageTimeoutCycles);
      pingTimeouts := new TimeoutManager(pingIntervalCycles);
    }

    /** `setTimeout` of both timeouts. */
    method ArmTimeouts(id: MessageId, cycle: nat)
      requires Valid() && Clock(cycle) && id in messages
      modifies messageTimeouts, pingTimeouts
      ensures Valid()
      ensures Lists() == Both(old(Lists()), id, Arm(cycle), Spans())
      ensures messageTimeouts.lastCycle == cycle && pingTimeouts.lastCycle == cycle
    {
      WithoutTracked(messageTimeouts.list, id, messages);
      WithoutTracked(pingTimeouts.list, id, messages);
      messageTimeouts.SetTimeout(id, cycle);
      pingTimeouts.SetTimeout(id, cycle);
    }

    /** `cancelTimeout` of both timeouts. */
    method CancelTimeouts(id: MessageId)
      requires Valid()
      modifies messageTimeouts, pingTimeouts
      ensures Valid()
      ensures Tracked(messageTimeouts.list, messages - {id}) && Tracked(pingTimeouts.list, messages - {id})
      ensures Lists() == Both(old(Lists()), id, Disarm, Spans())
      ensures messageTimeouts.lastCycle == old(messageTimeouts.lastCycle)
      ensures pingTimeouts.lastCycle == old(pingTimeouts.lastCycle)
    {
      WithoutTracked(messageTimeouts.list, id, messages);
      WithoutTracked(pingTimeouts.list, id, messages);
      messageTimeouts.CancelTimeout(id);
      pingTimeouts.CancelTimeout(id);
    }

    /** Queue a message in SRPT order with fresh queue information. */
    method Enqueue(id: MessageId, message: OutMessage, priority: int)
      modifies this`messages, this`sendQueue, this`sendReady
      ensures messages == old(messages)[id := Queued(message, c.u, priority)]
      ensures sendQueue == Enqueued(messages, old(sendQueue), id) && sendReady
    {
      messages := messages[id := message.(status := IN_PROGRESS,
                                          unsentBytes := message.Length(),
                                          packetsGranted := Min(c.u, |message.packets|),
                                          priority := priority,
                                          packetsSent := 0)];
      sendQueue := [id] + sendQueue;
      sendQueue := Deprioritized(sendQueue, 0, BySize(messages));
      sendReady := true;
    }

    /** Send the only packet of a message right away. */
    method SendSinglePacket(id: MessageId, message: OutMessage) returns (sent: seq<Packet>)
      requires Valid() && id in messages && |message.packets| == 1
      modifies this`messages, messageTimeouts, pingTimeouts
      ensures Valid() && messages == old(messages)[id := message.(status := SENT)]
      ensures sent == [message.DataPacket(c.u, 0)]
      ensures Lists() == Both(old(Lists()), id, if message.options.noKeepAlive then Disarm else Keep, Spans())
      ensures messageTimeouts.lastCycle == old(messageTimeouts.lastCycle)
      ensures pingTimeouts.lastCycle == old(pingTimeouts.lastCycle)
    {
      sent := [message.DataPacket(c.u, 0)];
      messages := messages[id := message.(status := SENT)];
      if message.options.noKeepAlive {
        CancelTimeouts(id);
      }
    }

    /** Watch a message, and queue it or send it at once if it is a single packet. */
    method StartSending(id: MessageId, message: OutMessage, priority: int, cycle: nat) returns (sent: seq<Packet>)
      requires Valid() && Clock(cycle) && id in messages && 0 < |message.packets|
      modifies this, messageTimeouts, pingTimeouts
      ensures Valid() && doneMessages == old(doneMessages)
      ensures nextMessageSequenceNumber == old(nextMessageSequenceNumber)
      ensures Lists() == Both(old(Lists()), id, StartAction(message, cycle), Spans())
      ensures if |message.packets| == 1
              then messages == old(messages)[id := message.(status := SENT)] && sent == [message.DataPacket(c.u, 0)] &&
                   sendQueue == old(sendQueue) && sendReady == old(sendReady)
              else messages == old(messages)[id := Queued(message, c.u, priority)] && sent == [] &&
                   sendQueue == Enqueued(messages, old(sendQueue), id) && sendReady
    {
      ghost var before := Lists();
      ArmTimeouts(id, cycle);
      ghost var armed := Lists();
      if |message.packets| == 1 {
        sent := SendSinglePacket(id, message);
        ArmThenMaybeDisarm(before, armed, Lists(), id, cycle, Spans(), message.options.noKeepAlive);
      } else {
        Enqueue(id, message, priority);
        sent := [];
      }
    }

    /** Queue a message to be sent, or send it at once if it is a single packet. */
    method SendMessage(packets: seq<seq<byte>>, options: Options, priority: int, cycle: nat)
      returns (id: MessageId, sent: seq<Packet>)
      requires Valid() && Clock(cycle) && 0 < |packets|
      modifies this, messageTimeouts, pingTimeouts
      ensures Valid()
      ensures State() == Step(c, old(State()), Event.SendMessage(packets, options, priority))
      ensures id == MessageId(c.transportId, old(nextMessageSequenceNumber))
      ensures Lists() == TimersAfter(c, old(State()), old(Lists()), Event.SendMessage(packets, options, priority),
                                     cycle, Spans())
      ensures id in messages && sent == if |packets| == 1 then [messages[id].DataPacket(c.u, 0)] else []
    {
      id := MessageId(c.transportId, nextMessageSequenceNumber);
      nextMessageSequenceNumber := nextMessageSequenceNumber + 1;
      var message := OutMessage(packets, options, IN_PROGRESS, true, 0, 0, 0, 0);
      messages := messages[id := message];
      sent := StartSending(id, message, priority, cycle);
      assert messages == old(messages)[id := Started(packets, options, c.u, priority)];
    }

    method HandleGrantPacket(id: MessageId, byteLimit: nat, priority: int, cycle: nat)
      requires Valid() && Clock(cycle)
      modifies this, messageTimeouts, pingTimeouts
      ensures Valid()
      ensures State() == Step(c, old(State()), About(id, GrantArrived(byteLimit, priority)))
      ensures Lists() == TimersAfter(c, old(State()), old(Lists()), About(id, GrantArrived(byteLimit, priority)),
                                     cycle, Spans())
      ensures id in old(messages) ==>
                && Entry(id, cycle + messageTimeouts.interval) in messageTimeouts.list
                && Entry(id, cycle + pingTimeouts.interval) in pingTimeouts.list
    {
      if id !in messages {
        return;
      }
      ArmTimeouts(id, cycle);
      var message := messages[id];
      if message.status == IN_PROGRESS {
        var incomingGrantIndex := CeilDiv(byteLimit, c.p);
        if incomingGrantIndex > |message.packets| {
          incomingGrantIndex := |message.packets|;
        }
        if message.packetsGranted < incomingGrantIndex {
          messages := messages[id := message.(packetsGranted := incomingGrantIndex, priority := priority)];
          sendReady := true;
        }
      }
      assert messages == old(messages)[id := OnGrant(message, c.p, byteLimit, priority)];
    }

    method HandleResendPacket(id: MessageId, index: nat, num: nat, priority: int, cycle: nat)
      returns (sent: seq<Packet>)
      requires Valid() && Clock(cycle) && Fits(id)
      modifies this, messageTimeouts, pingTimeouts
      ensures Valid()
      ensures State() == Step(c, old(State()), About(id, ResendArrived(index, num, priority)))
      ensures Lists() == TimersAfter(c, old(State()), old(Lists()), About(id, ResendArrived(index, num, priority)),
                                     cycle, Spans())
      ensures sent == if id in old(messages) then ResendReply(old(messages)[id], c.u, index, num) else []
      ensures forall i: nat | id in old(messages) && index <= i < index + num <= |old(messages)[id].packets| &&
                              i < old(messages)[id].packetsSent ::
                old(messages)[id].DataPacket(c.u, i) in sent
    {
      sent := [];
      if id !in messages {
        return;
      }
      var message := messages[id];
      ResendIsAnswered(message, c.u, index, num);
      if |message.packets| < 2 {
        assert messages == old(messages)[id := message];
        return;
      }
      ArmTimeouts(id, cycle);
      var resendEnd := index + num;
      if index >= |message.packets| || resendEnd > |message.packets| {
        assert messages == old(messages)[id := message];
        return;
      }
      if message.packetsGranted < resendEnd {
        messages := messages[id := message.(packetsGranted := resendEnd, priority := priority)];
        sendReady := true;
      }
      assert messages == old(messages)[id := OnResend(message, index, num, priority)];
      sent := AnswerResend(message, index, resendEnd);
    }

    /** BUSY if nothing of the range was sent yet, else the packets of it that were. */
    method AnswerResend(message: OutMessage, index: nat, resendEnd: nat) returns (sent: seq<Packet>)
      requires message.Valid() && 2 <= |message.packets| && index < |message.packets|
      requires index <= resendEnd <= |message.packets|
      ensures sent == ResendReply(message, c.u, index, resendEnd - index)
    {
      if index >= message.packetsSent {
        sent := [Busy];
      } else {
        sent := Retransmit(message, index, Min(resendEnd, message.packetsSent));
      }
    }

    /** The loop that hands packets of a RESEND range to the driver again. */
    method Retransmit(message: OutMessage, index: nat, end: nat) returns (sent: seq<Packet>)
      requires index <= end <= |message.packets|
      ensures sent == seq(end - index, k requires 0 <= k < end - index => message.DataPacket(c.u, index + k))
    {
      sent := [];
      for i := index to end
        invariant |sent| == i - index
        invariant forall k | 0 <= k < |sent| :: sent[k] == message.DataPacket(c.u, index + k)
      {
        sent := sent + [message.DataPacket(c.u, i)];
      }
    }

    /** Take a message that is no longer in progress out of the queue; it is there exactly if it was in progress. */
    method Dequeue(id: MessageId)
      requires id in messages && Fits(id)
      modifies this`sendQueue
      ensures sendQueue == Dequeued(old(sendQueue), id)
    {
      if messages[id].status == IN_PROGRESS {
        assert id in sendQueue;
        sendQueue := Dequeued(sendQueue, id);
      }
    }

    method HandleUnknownPacket(id: MessageId, priority: int, cycle: nat) returns (sent: seq<Packet>)
      requires Valid() && Clock(cycle) && Fits(id)
      modifies this, messageTimeouts, pingTimeouts
      ensures Valid()
      ensures State() == Step(c, old(State()), About(id, UnknownArrived(priority)))
      ensures Lists() == TimersAfter(c, old(State()), old(Lists()), About(id, UnknownArrived(priority)), cycle, Spans())
      ensures sent == if id in old(messages) && Restarts(old(messages)[id]) && |old(messages)[id].packets| == 1
                      then [old(messages)[id].DataPacket(c.u, 0)] else []
    {
      sent := [];
      if id !in messages {
        return;
      }
      var message := messages[id];
      assert message.status != NOT_STARTED;
      if message.status != IN_PROGRESS && message.status != SENT {
        // Stale answer to a ping.
        assert messages == messages[id := message] && sendQueue == Dequeued(sendQueue, id);
      } else if message.options.noRetry {
        Dequeue(id);
        CancelTimeouts(id);
        messages := messages[id := message.(status := FAILED)];
      } else {
        Dequeue(id);
        sent := StartSending(id, message, priority, cycle);
      }
    }

    method HandleDonePacket(id: MessageId)
      requires Valid() && Fits(id)
      modifies this, messageTimeouts, pingTimeouts
      ensures Valid()
      ensures State() == Step(c, old(State()), About(id, DoneArrived))
      ensures Lists() == TimersAfter(c, old(State()), old(Lists()), About(id, DoneArrived), 0, Spans())
    {
      if id !in messages {
        return;
      }
      var message := messages[id];
      if message.status == SENT {
        CancelTimeouts(id);
        message := message.(status := COMPLETED);
        messages := messages[id := message];
        doneMessages := doneMessages + [id];
      }
      assert messages == old(messages)[id := message];
    }

    method HandleErrorPacket(id: MessageId)
      requires Valid() && Fits(id)
      modifies this, messageTimeouts, pingTimeouts
      ensures Valid()
      ensures State() == Step(c, old(State()), About(id, ErrorArrived))
      ensures Lists() == TimersAfter(c, old(State()), old(Lists()), About(id, ErrorArrived), 0, Spans())
    {
      if id !in messages {
        return;
      }
      var message := messages[id];
      if message.status == SENT {
        CancelTimeouts(id);
        message := message.(status := FAILED);
        messages := messages[id := message];
        doneMessages := doneMessages + [id];
      }
      assert messages == old(messages)[id := message];
    }

    method CancelMessage(id: MessageId)
      requires Valid() && Fits(id)
      modifies this, messageTimeouts, pingTimeouts
      ensures Valid()
      ensures State() == Step(c, old(State()), About(id, MessageEvent.CancelMessage))
      ensures Lists() == TimersAfter(c, old(State()), old(Lists()), About(id, MessageEvent.CancelMessage), 0, Spans())
    {
      if id in messages {
        CancelTimeouts(id);
        Dequeue(id);
        messages := messages[id := messages[id].(status := CANCELED)];
      }
    }

    method DropMessage(id: MessageId)
      requires Valid()
      modifies this, messageTimeouts, pingTimeouts
      ensures Valid()
      ensures State() == Step(c, old(State()), About(id, MessageEvent.DropMessage))
      ensures Lists() == TimersAfter(c, old(State()), old(Lists()), About(id, MessageEvent.DropMessage), 0, Spans())
    {
      if id !in messages {
        return;
      }
      var message := messages[id].(held := false);
      if message.status != IN_PROGRESS {
        CancelTimeouts(id);
        messages := messages - {id};
      } else {
        messages := messages[id := message];
      }
    }

    /** One expired message timeout. */
    method TimeOutMessage(id: MessageId)
      requires Valid() && Fits(id) && id in messages
      modifies this, messageTimeouts, pingTimeouts
      ensures Valid()
      ensures State() == Step(c, old(State()), About(id, MessageTimeout))
      ensures Lists() == Both(old(Lists()), id, Disarm, Spans())
      ensures messageTimeouts.lastCycle == old(messageTimeouts.lastCycle)
      ensures pingTimeouts.lastCycle == old(pingTimeouts.lastCycle)
    {
      var message := messages[id];
      if message.status != COMPLETED {
        Dequeue(id);
        message := message.(status := FAILED);
        messages := messages[id := message];
        doneMessages := doneMessages + [id];
      }
      assert messages == old(messages)[id := message];
      CancelTimeouts(id);
    }

    lemma FitsInRun(s: SenderState, handled: seq<MessageId>, id: MessageId)
      requires c.Valid() && Inv(c, s) && State() == TimeOutAll(c, s, handled)
      ensures Fits(id)
    {
      TimeOutAllKeepsInv(c, s, handled);
      InvFits(id);
    }

    /**
     * Fail every message whose timeout has expired: each exactly once, in order, until
     * none is left; the other entries stay.
     */
    method CheckMessageTimeouts(now: nat) returns (handled: seq<MessageId>)
      requires Valid() && Inv(c, State()) && now < UINT64_MAX
      modifies this, messageTimeouts, pingTimeouts
      ensures Valid()
      ensures handled == ElapsedIds(old(messageTimeouts.list), now)
      ensures State() == TimeOutAll(c, old(State()), handled)
      ensures Lists() == Timers(old(messageTimeouts.list)[|handled|..],
                                WithoutIds(old(pingTimeouts.list), IdsOf(handled)))
      ensures forall k | 0 <= k < |messageTimeouts.list| :: now < messageTimeouts.list[k].expiration
    {
      handled := [];
      ghost var was := Lists();
      ghost var t := was;
      ExpiredStart(was.message, was.ping, now);
      var any := messageTimeouts.AnyElapsed(now);
      if any {
        while messageTimeouts.list != [] && messageTimeouts.list[0].expiration <= now
          invariant Valid() && t == Lists() && ExpiredSoFar(was.message, was.ping, now, handled, t.message, t.ping)
          invariant State() == TimeOutAll(c, old(State()), handled)
          decreases |messageTimeouts.list|
        {
          var id := messageTimeouts.list[0].id;
          FitsInRun(old(State()), handled, id);
          TimeOutMessage(id);
          TimeOutOneMore(c, old(State()), handled, id);
          ExpiredNext(was.message, was.ping, now, handled, t.message, t.ping, id);
          handled, t := handled + [id], Lists();
        }
      }
      ExpiredDone(was.message, was.ping, now, handled, t.message, t.ping);
    }

    /** One expired ping timeout: cancel it, or re-arm it and find out whether a PING is due. */
    method PingMessage(id: MessageId, cycle: nat) returns (ping: bool)
      requires Valid() && Clock(cycle) && id in messages
      modifies messageTimeouts, pingTimeouts
      ensures Valid() && Clock(cycle) && ping == PingDue(messages[id])
      ensures messages[id].Valid() ==> (ping <==> Awaits(messages[id]))
      ensures PingedOne(messages, cycle + pingTimeouts.interval, old(Lists()), Lists(), id)
    {
      WithoutTracked(messageTimeouts.list, id, messages);
      WithoutTracked(pingTimeouts.list, id, messages);
      var message := messages[id];
      if message.status == COMPLETED || message.status == FAILED {
        pingTimeouts.CancelTimeout(id);
        return false;
      } else if message.options.noKeepAlive && message.status == SENT {
        messageTimeouts.CancelTimeout(id);
        pingTimeouts.CancelTimeout(id);
        return false;
      } else {
        pingTimeouts.SetTimeout(id, cycle);
      }
      if message.status == IN_PROGRESS && message.packetsSent < message.packetsGranted {
        return false;
      }
      return true;
    }

    /** The first expired ping timeout is dealt with. */
    method PingFront(ghost was: Timers, now: nat, cycle: nat, handled: seq<MessageId>, pings: seq<MessageId>)
      returns (handled': seq<MessageId>, pings': seq<MessageId>)
      requires Valid() && Clock(cycle) && now <= cycle && Ordered(was.message) && Ordered(was.ping)
      requires PingedSoFar(messages, was, now, cycle + pingTimeouts.interval, handled, pings, Lists())
      requires pingTimeouts.list != [] && pingTimeouts.list[0].expiration <= now
      modifies messageTimeouts, pingTimeouts
      ensures Valid() && Clock(cycle)
      ensures PingedSoFar(messages, was, now, cycle + pingTimeouts.interval, handled', pings', Lists())
      ensures 0 <= PingsLeft(was, now, handled') < PingsLeft(was, now, handled)
    {
      var id := pingTimeouts.list[0].id;
      ghost var msgs, before, expiration := messages, Lists(), cycle + pingTimeouts.interval;
      var ping := PingMessage(id, cycle);
      ghost var after := Lists();
      handled' := handled + [id];
      pings' := if ping then pings + [id] else pings;
      PingedNext(msgs, was, now, expiration, handled, pings, before, after, id, handled', pings');
    }

    /**
     * Look at every message whose ping timeout has expired, each exactly once, until none
     * is left: entries of messages that still wait are armed anew, all others that expired go.
     */
    method CheckPingTimeouts(now: nat, cycle: nat) returns (handled: seq<MessageId>, pings: seq<MessageId>)
      requires Valid() && Clock(cycle) && now <= cycle
      modifies messageTimeouts, pingTimeouts
      ensures Valid()
      ensures handled == ElapsedIds(old(pingTimeouts.list), now) && pings == Pinged(messages, handled)
      ensures forall id | id in messages && messages[id].Valid() ::
                id in pings <==> id in handled && Awaits(messages[id])
      ensures Lists() == PingsChecked(messages, old(Lists()), now, cycle, Spans())
      ensures forall k | 0 <= k < |pingTimeouts.list| :: now < pingTimeouts.list[k].expiration
    {
      handled, pings := [], [];
      ghost var msgs, was, expiration := messages, Lists(), cycle + pingTimeouts.interval;
      ghost var t := was;
      PingedStart(msgs, was, now, expiration);
      var any := pingTimeouts.AnyElapsed(now);
      if any {
        while pingTimeouts.list != [] && pingTimeouts.list[0].expiration <= now
          invariant Valid() && Clock(cycle) && t == Lists()
          invariant PingedSoFar(msgs, was, now, expiration, handled, pings, t)
          decreases PingsLeft(was, now, handled)
        {
          handled, pings := PingFront(was, now, cycle, handled, pings);
          t := Lists();
        }
      }
      PingedDone(msgs, was, now, cycle, Spans(), handled, pings, t);
    }

    ghost function Q(): Queue
      reads this
    {
      Queue(messages, sendQueue)
    }

    /** Hand the next packet of the message under the iterator to the driver; the iterator moves with it. */
    method SendOnePacket(pos: nat) returns (pos': nat)
      requires pos < |sendQueue| && ReadyIn(messages, sendQueue[pos]) && messages[sendQueue[pos]].Valid()
      requires messages[sendQueue[pos]].status == IN_PROGRESS
      modifies this`messages, this`sendQueue
      ensures Q() == SentInPlace(old(Q()), pos) && pos' == NewPosition(old(Q()), pos)
    {
      var id := sendQueue[pos];
      var message := messages[id];
      var packetDataBytes := |message.packets[message.packetsSent]|;
      assert message.unsentBytes >= packetDataBytes by {
        TransmitKeepsValid(message);
      }
      messages := messages[id := message.(unsentBytes := message.unsentBytes - packetDataBytes)];
      pos' := Rise(sendQueue, id, pos, BySize(messages));
      sendQueue := Prioritized(sendQueue, pos, BySize(messages));
      messages := messages[id := messages[id].(packetsSent := message.packetsSent + 1)];
    }

    /** The body of the inner loop. */
    method SendAndAdvance(id: MessageId, pos: nat, queued: nat, sent: seq<Sent>)
      returns (pos': nat, queued': nat, sent': seq<Sent>)
      requires pos < |sendQueue| && sendQueue[pos] == id && ReadyIn(messages, id) && messages[id].Valid()
      requires messages[id].status == IN_PROGRESS
      modifies this`messages, this`sendQueue
      ensures Stage(Q(), pos', queued', sent') == SentOne(Stage(old(Q()), pos, queued, sent), c.header)
    {
      var message := messages[id];
      var length := c.header + |message.packets[message.packetsSent]|;
      sent' := sent + [Sent(id, message.packetsSent, length, message.priority)];
      queued' := queued + length;
      pos' := SendOnePacket(pos);
    }

    /** A turn of the inner loop, seen from the rule. */
    method SendNext(id: MessageId, pos: nat, queued: nat, sent: seq<Sent>, ghost turns: seq<Turn>)
      returns (pos': nat, queued': nat, sent': seq<Sent>, ghost turns': seq<Turn>)
      requires c.Valid() && Sending(Stage(Q(), pos, queued, sent), c.limit, c.header, turns) && sendQueue[pos] == id
      requires ReadyIn(messages, id) && queued + NextPacketOf(Q(), pos, c.header).length <= c.limit
      modifies this`messages, this`sendQueue
      ensures Sending(Stage(Q(), pos', queued', sent'), c.limit, c.header, turns') && sendQueue[pos'] == id
      ensures turns'[0] == turns[0] && queued < queued' <= c.limit
      ensures messages == old(messages)[id := messages[id]]
      ensures messages[id].packetsSent == old(messages)[id].packetsSent + 1
      ensures messages[id].packetsGranted == old(messages)[id].packetsGranted
    {
      ghost var w := Stage(Q(), pos, queued, sent);
      SendingReady(w, c.limit, c.header, turns);
      SendingContinues(w, c.limit, c.header, turns);
      SentOneFacts(w, c.header, id);
      turns' := turns + [NextTurn(w, c.header)];
      pos', queued', sent' := SendAndAdvance(id, pos, queued, sent);
    }

    /** The inner loop: send granted packets of one message until none is left or the driver is full. */
    method SendGranted(id: MessageId, pos0: nat, queued0: nat, sent0: seq<Sent>, ghost turns0: seq<Turn>)
      returns (pos: nat, queued: nat, sent: seq<Sent>, full: bool, ghost turns: seq<Turn>)
      requires Sending(Stage(Q(), pos0, queued0, sent0), c.limit, c.header, turns0) && sendQueue[pos0] == id
      requires c.Valid()
      modifies this`messages, this`sendQueue
      ensures Sending(Stage(Q(), pos, queued, sent), c.limit, c.header, turns) && sendQueue[pos] == id
      ensures turns[0] == turns0[0]
      ensures full <==> messages[id].Ready()
      ensures full ==> turns[|sent|] == Turn(Q(), queued) && Stops(Turn(Q(), queued), true, c.limit, c.header)
      ensures queued == queued0 || queued0 < queued <= c.limit
      ensures queued == queued0 ==> pos == pos0 && Q() == old(Q())
      ensures messages == old(messages)[id := messages[id]]
    {
      pos, queued, sent, full, turns := pos0, queued0, sent0, false, turns0;
      while messages[id].packetsSent < messages[id].packetsGranted
        invariant Sending(Stage(Q(), pos, queued, sent), c.limit, c.header, turns) && sendQueue[pos] == id
        invariant turns[0] == turns0[0]
        invariant queued == queued0 || queued0 < queued <= c.limit
        invariant queued == queued0 ==> pos == pos0 && Q() == old(Q())
        invariant messages == old(messages)[id := messages[id]]
        decreases messages[id].packetsGranted - messages[id].packetsSent
      {
        assert ReadyIn(messages, id);
        if queued + c.header + |messages[id].packets[messages[id].packetsSent]| > c.limit {
          SendingBlocks(Stage(Q(), pos, queued, sent), c.limit, c.header, turns);
          full := true;
          break;
        }
        pos, queued, sent, turns := SendNext(id, pos, queued, sent, turns);
      }
    }

    /** The message under the iterator has sent what it may: mark and remove it, or step over it. */
    method LeaveMessage(id: MessageId, pos: nat, ghost w: Stage, ghost turns: seq<Turn>)
      returns (pos': nat, finished: bool)
      requires w.q == Q() && w.pos == pos && Sending(w, c.limit, c.header, turns) && sendQueue[pos] == id
      requires !messages[id].Ready()
      modifies this`messages, this`sendQueue
      ensures Walking(w.(q := Q(), pos := pos'), c.limit, c.header, turns)
      ensures |sendQueue| - pos' < |old(sendQueue)| - pos
      ensures finished <==> messages != old(messages)
      ensures messages == old(messages)[id := if finished then old(messages)[id].(status := SENT)
                                        else old(messages)[id]]
    {
      if messages[id].packetsSent >= |messages[id].packets| {
        LeaveFinished(w, c.limit, c.header, turns);
        messages := messages[id := messages[id].(status := SENT)];
        sendQueue := RemoveAt(sendQueue, pos);
        pos', finished := pos, true;
      } else {
        LeaveWaiting(w, c.limit, c.header, turns);
        pos', finished := pos + 1, false;
      }
    }

    /** One turn of the outer loop. */
    method VisitMessage(pos0: nat, queued0: nat, sent0: seq<Sent>, ghost turns0: seq<Turn>)
      returns (pos: nat, queued: nat, sent: seq<Sent>, full: bool, finished: bool, ghost turns: seq<Turn>)
      requires c.Valid() && Walking(Stage(Q(), pos0, queued0, sent0), c.limit, c.header, turns0) && pos0 < |sendQueue|
      modifies this`messages, this`sendQueue
      ensures Trace(turns, sent, c.limit, c.header) && turns[0] == turns0[0]
      ensures full ==> turns[|sent|] == Turn(Q(), queued) && Stops(turns[|sent|], true, c.limit, c.header) && !finished
      ensures !full ==> Walking(Stage(Q(), pos, queued, sent), c.limit, c.header, turns)
      ensures !full ==> || queued0 < queued <= c.limit
                        || (queued == queued0 && |sendQueue| - pos < |old(sendQueue)| - pos0)
      ensures var id := old(sendQueue)[pos0];
              && id in messages && InQueue(old(messages), id)
              && messages == old(messages)[id := messages[id]]
              && messages[id].status == if finished then SENT else IN_PROGRESS
    {
      var id := sendQueue[pos0];
      EnterMessage(Stage(Q(), pos0, queued0, sent0), c.limit, c.header, turns0);
      finished := false;
      pos, queued, sent, full, turns := SendGranted(id, pos0, queued0, sent0, turns0);
      if !full {
        pos, finished := LeaveMessage(id, pos, Stage(Q(), pos, queued, sent), turns);
      }
    }

    /**
     * The walk over the queue.  It ends because the queue or the driver's limit is
     * exhausted, and it has done what the rule does, although it never looks back.
     */
    method WalkQueue(queuedBytes: nat) returns (sent: seq<Sent>, sentMessageIds: seq<MessageId>)
      requires c.Valid() && QueueInv(Q())
      modifies this`messages, this`sendQueue, this`sendReady
      ensures Outcome(Q(), sent, sendReady) == Srpt(old(Q()), queuedBytes, c.limit, c.header)
      ensures Marked(old(messages), messages, sentMessageIds)
    {
      sent, sentMessageIds := [], [];
      sendReady := false;
      var pos: nat, queued := 0, queuedBytes;
      ghost var turns := [Turn(Q(), queued)];
      while pos < |sendQueue|
        invariant Walking(Stage(Q(), pos, queued, sent), c.limit, c.header, turns)
        invariant turns[0] == Turn(old(Q()), queuedBytes) && !sendReady
        invariant Marked(old(messages), messages, sentMessageIds)
        decreases if queued <= c.limit then c.limit - queued + 1 else 0, |sendQueue| - pos
      {
        var id, full, finished := sendQueue[pos], false, false;
        ghost var before := messages;
        pos, queued, sent, full, finished, turns := VisitMessage(pos, queued, sent, turns);
        MarkedOneMore(old(messages), before, messages, sentMessageIds, id, finished);
        if full {
          sendReady := true;
          break;
        }
        if finished {
          sentMessageIds := sentMessageIds + [id];
        }
      }
      if !sendReady {
        WalkOver(Stage(Q(), pos, queued, sent), c.limit, c.header, turns);
      }
      TraceIsSrpt(turns, sent, sendReady, c.limit, c.header, Srpt(old(Q()), queuedBytes, c.limit, c.header));
    }

    /** After the walk: messages that were released meanwhile go away, others may stop their timeouts. */
    method ReapSent(ids: seq<MessageId>, ghost before: map<MessageId, OutMessage>)
      requires Valid() && Marked(before, messages, ids)
      modifies this`messages, messageTimeouts, pingTimeouts
      ensures Valid() && messages == Pruned(before, old(messages))
      ensures Lists() == BothWithout(old(Lists()), Quiet(before, old(messages)))
    {
      ghost var was, lists := messages, Lists();
      QuietStart(was, ids, lists);
      for i := 0 to |ids|
        invariant Valid()
        invariant messages == Reaped(was, ids[..i])
        invariant Lists() == BothWithout(lists, QuietIn(was, ids[..i]))
      {
        var id := ids[i];
        ghost var before := Lists();
        ReapOneMore(was, ids, i);
        if id in messages {
          if !messages[id].held {
            CancelTimeouts(id);
            messages := messages - {id};
          } else if messages[id].options.noKeepAlive {
            CancelTimeouts(id);
          }
        }
        QuietNext(was, ids, i, lists, before, Lists(), Spans());
      }
      assert ids[..|ids|] == ids;
      assert QuietIn(was, ids) == Quiet(before, was);
    }

    /** Walk the queue and clean up; `r` is what the scheduling rule would do. */
    method SendAndReap(queuedBytes: nat, ghost r: Outcome) returns (sent: seq<Sent>)
      requires Valid() && QueueInv(Q()) && r == Srpt(Q(), queuedBytes, c.limit, c.header)
      modifies this`messages, this`sendQueue, this`sendReady, messageTimeouts, pingTimeouts
      ensures Valid() && sent == r.sent && sendReady == r.blocked && sendQueue == r.queue.order
      ensures messages == Pruned(old(messages), r.queue.msgs)
      ensures Lists() == BothWithout(old(Lists()), Quiet(old(messages), r.queue.msgs))
    {
      ghost var before := messages;
      var sentMessageIds;
      sent, sentMessageIds := WalkQueue(queuedBytes);
      assert Tracked(messageTimeouts.list, messages) && Tracked(pingTimeouts.list, messages);
      ReapSent(sentMessageIds, before);
    }

    /**
     * Send packets of messages that may send, shortest remaining first, as far as the
     * driver's limit allows.
     */
    method TrySend(queuedBytes: nat) returns (sent: seq<Sent>)
      requires Valid() && QueueInv(Q())
      modifies this, messageTimeouts, pingTimeouts
      ensures Valid()
      ensures State() == Step(c, old(State()), Event.TrySend(queuedBytes))
      ensures Lists() == TimersAfter(c, old(State()), old(Lists()), Event.TrySend(queuedBytes), 0, Spans())
      ensures sent == if old(sendReady) then Srpt(old(Q()), queuedBytes, c.limit, c.header).sent else []
    {
      sent := [];
      if sendReady {
        sent := SendAndReap(queuedBytes, Srpt(Q(), queuedBytes, c.limit, c.header));
      }
    }
  }

  /** What is left after going through some of the sent messages. */
  ghost function Reaped(messages: map<MessageId, OutMessage>, ids: seq<MessageId>): map<MessageId, OutMessage> {
    map id | id in messages && !(id in ids && !messages[id].held) :: messages[id]
  }

  lemma ReapOneMore(messages: map<MessageId, OutMessage>, ids: seq<MessageId>, i: nat)
    requires i < |ids|
    ensures var before, after := Reaped(messages, ids[..i]), Reaped(messages, ids[..i + 1]);
            after == if ids[i] in before && !before[ids[i]].held then before - {ids[i]} else before
  {
    assert ids[..i + 1] == ids[..i] + [ids[i]];
  }

  /** The only change of status is from IN_PROGRESS to SENT, and `ids` lists the messages it happened to. */
  ghost predicate Marked(before: map<MessageId, OutMessage>, after: map<MessageId, OutMessage>, ids: seq<MessageId>) {
    && before.Keys == after.Keys
    && (forall id | id in before ::
          after[id].status == before[id].status || (before[id].status == IN_PROGRESS && after[id].status == SENT))
    && (forall id :: id in ids <==> Finished(before, after, id))
  }

  lemma MarkedOneMore(before: map<MessageId, OutMessage>, mid: map<MessageId, OutMessage>,
                      after: map<MessageId, OutMessage>, ids: seq<MessageId>, id: MessageId, finished: bool)
    requires Marked(before, mid, ids) && InQueue(mid, id)
    requires id in after && after == mid[id := after[id]]
    requires after[id].status == if finished then SENT else IN_PROGRESS
    ensures Marked(before, after, if finished then ids + [id] else ids)
  {
  }
}
