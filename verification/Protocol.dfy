/**
 * The packets of the Homa protocol and what each event does to one message, at the
 * sender and at the receiver.  The Sender and Receiver classes apply these functions
 * to the messages they track; TwoParty runs them against each other.
 */
module Protocol {
  import opened Base
  import opened Fragments
  import opened Reassembly

  datatype MessageId = MessageId(transportId: nat, sequence: nat)

  /** A packet about one message, without the message id. */
  datatype Packet =
    | Data(totalLength: nat, unscheduledIndexLimit: nat, index: nat, payload: seq<byte>)
    | Grant(byteLimit: nat, priority: int)
    | Done
    | Resend(index: nat, num: nat, priority: int)
    | Busy
    | Ping
    | Unknown
    | Error

  // ---------------------------------------------------------------- sender

  datatype Status = NOT_STARTED | IN_PROGRESS | CANCELED | SENT | COMPLETED | FAILED

  datatype Options = Options(noRetry: bool, noKeepAlive: bool)

  /** A tracked outgoing message with its queue information. */
  datatype OutMessage = OutMessage(
    packets: seq<seq<byte>>,
    options: Options,
    status: Status,
    held: bool,
    unsentBytes: int,
    packetsGranted: int,
    packetsSent: int,
    priority: int)
  {
    function Length(): nat { Bytes(packets, |packets|) }

    /** The DATA packet with the given index; `u` is the unscheduled index limit in its header. */
    function DataPacket(u: nat, i: nat): Packet
      requires i < |packets|
    {
      Data(Length(), u, i, packets[i])
    }

    /** There are packets the message may send now. */
    predicate Ready() { packetsSent < packetsGranted }

    /** What every step keeps: a multi-packet message's counters agree with its packets. */
    ghost predicate Valid() {
      && 0 < |packets|
      && (forall i | 0 <= i < |packets| :: 0 < |packets[i]|)
      && status != NOT_STARTED
      && (|packets| == 1 ==> status != IN_PROGRESS && held && packetsSent == packetsGranted == 0)
      && (|packets| > 1 ==>
            && 0 <= packetsSent <= packetsGranted <= |packets|
            && unsentBytes == Length() - Bytes(packets, packetsSent)
            && (status == SENT || status == COMPLETED ==> packetsSent == |packets|)
            && (status == IN_PROGRESS ==> packetsSent < |packets|))
    }
  }

  /** The queue information a message starts and restarts with. */
  function Queued(m: OutMessage, u: nat, priority: int): OutMessage {
    m.(status := IN_PROGRESS, unsentBytes := m.Length(), packetsGranted := Min(u, |m.packets|),
       packetsSent := 0, priority := priority)
  }

  /** `sendMessage`: a single packet leaves at once, a longer message is queued. */
  function Started(packets: seq<seq<byte>>, options: Options, u: nat, priority: int): OutMessage {
    var m := OutMessage(packets, options, IN_PROGRESS, true, 0, 0, 0, 0);
    if |packets| == 1 then m.(status := SENT) else Queued(m, u, priority)
  }

  /** `handleGrantPacket`: a byte limit becomes a packet limit, clipped to the message. */
  function OnGrant(m: OutMessage, p: nat, byteLimit: nat, priority: int): OutMessage
    requires 0 < p
  {
    var index := Min(CeilDiv(byteLimit, p), |m.packets|);
    if m.status == IN_PROGRESS && m.packetsGranted < index
    then m.(packetsGranted := index, priority := priority)
    else m
  }

  /** A RESEND the sender acts upon rather than ignores. */
  predicate ResendAccepted(m: OutMessage, index: nat, num: nat) {
    2 <= |m.packets| && index < |m.packets| && index + num <= |m.packets|
  }

  /** `handleResendPacket`: the request also counts as a GRANT, whatever the status. */
  function OnResend(m: OutMessage, index: nat, num: nat, priority: int): OutMessage {
    if ResendAccepted(m, index, num) && m.packetsGranted < index + num
    then m.(packetsGranted := index + num, priority := priority)
    else m
  }

  /** The packets sent in answer to a RESEND: BUSY, or those of the range already sent. */
  function ResendReply(m: OutMessage, u: nat, index: nat, num: nat): (r: seq<Packet>)
    requires m.packetsSent <= |m.packets|
  {
    if !ResendAccepted(m, index, num) then []
    else if index >= m.packetsSent then [Busy]
    else
      var end := Min(index + num, m.packetsSent);
      seq(end - index, k requires 0 <= k < end - index => m.DataPacket(u, index + k))
  }

  /**
   * Exactly what a RESEND in range is answered with: every packet of the range that was sent
   * before, in order and once, or BUSY if the range begins where sending has not come to.
   */
  lemma ResendReplyIs(m: OutMessage, u: nat, index: nat, num: nat, x: Packet)
    requires m.packetsSent <= |m.packets|
    ensures var r := ResendReply(m, u, index, num);
            && (x in r <==>
                && 2 <= |m.packets| && index < |m.packets| && index + num <= |m.packets|
                && if m.packetsSent <= index then x == Busy
                   else x.Data? && index <= x.index < index + num && x.index < m.packetsSent &&
                        x == m.DataPacket(u, x.index))
            && forall j, k | 0 <= j < k < |r| :: r[j].Data? && r[k].Data? && r[j].index < r[k].index
  {
    var r := ResendReply(m, u, index, num);
    if ResendAccepted(m, index, num) && index < m.packetsSent {
      assert |r| == Min(index + num, m.packetsSent) - index;
      assert forall k: nat | k < |r| :: r[k] == m.DataPacket(u, index + k);
      if x.Data? && index <= x.index < index + |r| && x == m.DataPacket(u, x.index) {
        assert r[x.index - index] == x;
      }
    }
  }

  /** Every packet of the range that was sent before is sent again. */
  lemma ResendIsAnswered(m: OutMessage, u: nat, index: nat, num: nat)
    requires m.Valid()
    ensures forall i: nat | index <= i < index + num <= |m.packets| && i < m.packetsSent ::
              m.DataPacket(u, i) in ResendReply(m, u, index, num)
  {
    forall i: nat | index <= i < index + num <= |m.packets| && i < m.packetsSent
      ensures m.DataPacket(u, i) in ResendReply(m, u, index, num)
    {
      ResendReplyIs(m, u, index, num, m.DataPacket(u, i));
    }
  }

  /** The answer to a RESEND is BUSY or consists of packets that were sent before. */
  lemma ResendReplyWasSent(m: OutMessage, u: nat, index: nat, num: nat, reply: Packet)
    requires m.packetsSent <= |m.packets| && reply in ResendReply(m, u, index, num)
    ensures reply == Busy || (reply.Data? && reply.index < m.packetsSent && reply == m.DataPacket(u, reply.index))
  {
    ResendReplyIs(m, u, index, num, reply);
  }

  /** `handleDonePacket`: only a SENT message completes. */
  function OnDone(m: OutMessage): OutMessage {
    if m.status == SENT then m.(status := COMPLETED) else m
  }

  /** `handleErrorPacket`: only a SENT message fails. */
  function OnError(m: OutMessage): OutMessage {
    if m.status == SENT then m.(status := FAILED) else m
  }

  /** An UNKNOWN packet restarts the message. */
  predicate Restarts(m: OutMessage) {
    (m.status == IN_PROGRESS || m.status == SENT) && !m.options.noRetry
  }

  /** `handleUnknownPacket`: stale, fatal for NO_RETRY, or a restart from the first packet. */
  function OnUnknown(m: OutMessage, u: nat, priority: int): OutMessage {
    if m.status != IN_PROGRESS && m.status != SENT then m
    else if m.options.noRetry then m.(status := FAILED)
    else if |m.packets| == 1 then m.(status := SENT)
    else Queued(m, u, priority)
  }

  /** `cancelMessage` overwrites any status. */
  function Cancelled(m: OutMessage): OutMessage { m.(status := CANCELED) }

  /** A message timeout fails everything but a COMPLETED message. */
  function TimedOut(m: OutMessage): OutMessage {
    if m.status != COMPLETED then m.(status := FAILED) else m
  }

  /** A ping is due: the sender waits for the receiver and still cares. */
  predicate PingDue(m: OutMessage) {
    && m.status != COMPLETED && m.status != FAILED
    && !(m.options.noKeepAlive && m.status == SENT)
    && !(m.status == IN_PROGRESS && m.Ready())
  }

  /** `trySend` hands the next packet to the driver; the last one makes the message SENT. */
  function Transmitted(m: OutMessage): OutMessage
    requires 0 <= m.packetsSent < |m.packets|
  {
    m.(packetsSent := m.packetsSent + 1,
       unsentBytes := m.unsentBytes - |m.packets[m.packetsSent]|,
       status := if m.packetsSent + 1 >= |m.packets| then SENT else m.status)
  }

  lemma {:induction false} BytesMonotone(packets: seq<seq<byte>>, i: nat, j: nat)
    requires i <= j <= |packets|
    ensures Bytes(packets, i) <= Bytes(packets, j)
  {
    if i < j { BytesMonotone(packets, i, j - 1); }
  }

  /**
   * After a GRANT a message in progress may send the packets it might send before and those that
   * begin inside the granted bytes; its priority is the GRANT's if that made a difference.
   */
  lemma GrantReaches(m: OutMessage, p: nat, byteLimit: nat, priority: int, i: nat)
    requires 0 < p
    ensures var g := OnGrant(m, p, byteLimit, priority);
            && (i < g.packetsGranted <==>
                i < m.packetsGranted || (m.status == IN_PROGRESS && i < |m.packets| && i * p < byteLimit))
            && g.priority == (if m.packetsGranted < g.packetsGranted then priority else m.priority)
            && g == m.(packetsGranted := g.packetsGranted, priority := g.priority)
  {
    CeilDivLeast(byteLimit, p, i);
  }

  /** A RESEND in range is a GRANT up to its end, whatever the status. */
  lemma ResendReaches(m: OutMessage, index: nat, num: nat, priority: int, i: nat)
    ensures var g := OnResend(m, index, num, priority);
            && (i < g.packetsGranted <==>
                || i < m.packetsGranted
                || (2 <= |m.packets| && index < |m.packets| && i < index + num <= |m.packets|))
            && g.priority == (if m.packetsGranted < g.packetsGranted then priority else m.priority)
            && g == m.(packetsGranted := g.packetsGranted, priority := g.priority)
  {
  }

  /** A new message: sent at once if it is a single packet, else queued with its unscheduled packets granted. */
  lemma StartedIs(packets: seq<seq<byte>>, options: Options, u: nat, priority: int, i: nat)
    ensures var m := Started(packets, options, u, priority);
            && m.packets == packets && m.options == options && m.held
            && (m.status == SENT <==> |packets| == 1) && (m.status == IN_PROGRESS <==> |packets| != 1)
            && (|packets| != 1 ==>
                  && m.packetsSent == 0 && m.priority == priority
                  && (i < m.packetsGranted <==> i < u && i < |packets|))
  {
  }

  /** A restart is a new start: nothing of the first attempt is left but who holds the message. */
  lemma RestartIsAStart(m: OutMessage, u: nat, priority: int)
    requires m.status == IN_PROGRESS || m.status == SENT
    requires !m.options.noRetry && 1 < |m.packets|
    ensures OnUnknown(m, u, priority) == Started(m.packets, m.options, u, priority).(held := m.held)
  {
  }

  lemma GrantKeepsValid(m: OutMessage, p: nat, byteLimit: nat, priority: int)
    requires m.Valid() && 0 < p
    ensures OnGrant(m, p, byteLimit, priority).Valid()
  {
  }

  lemma ResendKeepsValid(m: OutMessage, index: nat, num: nat, priority: int)
    requires m.Valid()
    ensures OnResend(m, index, num, priority).Valid()
  {
  }

  lemma QueuedIsValid(m: OutMessage, u: nat, priority: int)
    requires 1 < |m.packets| && forall i | 0 <= i < |m.packets| :: 0 < |m.packets[i]|
    ensures Queued(m, u, priority).Valid()
  {
  }

  /** A message may end in FAILED or CANCELED at any time, in COMPLETED after SENT. */
  lemma EndKeepsValid(m: OutMessage, status: Status)
    requires m.Valid() && (status == FAILED || status == CANCELED || (status == COMPLETED && m.status == SENT))
    ensures m.(status := status).Valid()
  {
  }

  lemma UnknownKeepsValid(m: OutMessage, u: nat, priority: int)
    requires m.Valid()
    ensures OnUnknown(m, u, priority).Valid()
  {
    if 1 < |m.packets| {
      QueuedIsValid(m, u, priority);
    }
  }

  lemma TransmitKeepsValid(m: OutMessage)
    requires m.Valid() && m.status == IN_PROGRESS && m.Ready()
    ensures Transmitted(m).Valid() && 0 <= Transmitted(m).unsentBytes < m.unsentBytes
  {
    BytesMonotone(m.packets, m.packetsSent + 1, |m.packets|);
  }

  // -------------------------------------------------------------- receiver

  /** The part of the policy that steers grants. */
  datatype Scheduled = Scheduled(
    maxScheduledPriority: int,
    degreeOvercommitment: int,
    minScheduledBytes: int,
    maxScheduledBytes: int)

  /** IN_PROGRESS, COMPLETED and DROPPED of an incoming message. */
  datatype State = Receiving | Received | Dropped

  /** A tracked incoming message with its scheduling information. */
  datatype InMessage = InMessage(
    source: nat,
    messageLength: nat,
    numExpectedPackets: nat,
    numUnscheduledPackets: nat,
    scheduled: bool,
    packets: map<nat, seq<byte>>,
    numPackets: nat,
    state: State,
    bytesRemaining: int,
    bytesGranted: int,
    priority: int,
    peer: Option<nat>,
    arrivals: nat)            // how often the message was put into receivedMessages
  {
    /** The received bytes the scheduler knows about. */
    function RecordedBytes(): int { messageLength - bytesRemaining }

    ghost predicate Valid(p: nat, maxScheduledBytes: int) {
      && 0 < p && 0 < messageLength && 0 <= maxScheduledBytes
      && numExpectedPackets == CeilDiv(messageLength, p)
      && scheduled == (numExpectedPackets > numUnscheduledPackets)
      && Sized(packets, messageLength, p)
      && 0 < numPackets == |packets|
      && (state == Receiving <==> numPackets < numExpectedPackets)
      && arrivals == (if numPackets == numExpectedPackets then 1 else 0)
      && ValidGrants(maxScheduledBytes)
    }

    /** Only scheduled messages get grants, and they stay linked to their peer until fully granted. */
    ghost predicate ValidGrants(maxScheduledBytes: int) {
      && 0 <= bytesRemaining
      && 0 <= bytesGranted <= messageLength
      && (peer.Some? <==> scheduled && bytesGranted < messageLength)
      && (peer.Some? ==> peer.value == source)
      && (!scheduled ==> bytesGranted == 0)
      && RecordedBytes() <= StoredBytes(packets, numExpectedPackets)
      && (peer.Some? ==> RecordedBytes() == StoredBytes(packets, numExpectedPackets))
      && bytesGranted - RecordedBytes() <= maxScheduledBytes
    }
  }

  /** A message as its first DATA packet announces it; linked to its peer if it needs grants. */
  function NewMessage(p: nat, source: nat, totalLength: nat, unscheduled: nat): InMessage
    requires 0 < p
  {
    var n := CeilDiv(totalLength, p);
    InMessage(source, totalLength, n, unscheduled, n > unscheduled, map[], 0, Receiving, totalLength, 0, 0,
              if n > unscheduled then Some(source) else None, 0)
  }

  /** A new packet is stored; the last one makes the message available. */
  function Stored(m: InMessage, index: nat, payload: seq<byte>): InMessage {
    var complete := m.numPackets + 1 >= m.numExpectedPackets;
    m.(packets := m.packets[index := payload],
       numPackets := m.numPackets + 1,
       bytesRemaining := if m.peer.Some? then m.bytesRemaining - |payload| else m.bytesRemaining,
       state := if complete then Received else m.state,
       arrivals := if complete then m.arrivals + 1 else m.arrivals)
  }

  /** `handleDataPacket` on an existing or new message; a duplicate changes nothing. */
  function OnData(m: InMessage, index: nat, payload: seq<byte>): InMessage {
    if index in m.packets then m else Stored(m, index, payload)
  }

  /** What the receiver relies on: the packet fits the message it claims to belong to. */
  predicate WellFormed(p: nat, m: InMessage, totalLength: nat, index: nat, payload: seq<byte>)
    requires 0 < p
  {
    totalLength == m.messageLength && index < CeilDiv(totalLength, p) && |payload| == SizeAt(totalLength, p, index)
  }

  /** `checkMessageTimeouts` of a message the application already has access to. */
  function TimedOutIn(m: InMessage): InMessage { m.(state := Dropped) }

  /** `handlePingPacket`: the latest grant, or an empty one. */
  function PingReply(m: InMessage): Packet
    requires 0 <= m.bytesGranted
  {
    if m.scheduled then Grant(m.bytesGranted, m.priority) else Grant(0, 0)
  }

  predicate GrantDue(m: InMessage, policy: Scheduled) {
    m.bytesGranted - m.RecordedBytes() < policy.minScheduledBytes
  }

  /** The grant loop's treatment of one message: raise the limit if too little is outstanding. */
  function Granted(m: InMessage, policy: Scheduled, priority: int): InMessage {
    var limit := if GrantDue(m, policy)
                 then Min(m.RecordedBytes() + policy.maxScheduledBytes, m.messageLength)
                 else m.bytesGranted;
    m.(priority := priority, bytesGranted := limit, peer := if m.messageLength <= limit then None else m.peer)
  }

  /** A message after the grant loop has looked at it, if it is still scheduled. */
  function Served(m: InMessage, policy: Scheduled, priority: int): InMessage {
    if m.peer.Some? then Granted(m, policy, priority) else m
  }

  ghost predicate PolicyOk(policy: Scheduled) {
    && 0 <= policy.maxScheduledPriority < policy.degreeOvercommitment
    && 0 <= policy.minScheduledBytes <= policy.maxScheduledBytes
  }

  /** The scheduler's byte counter covers every packet that can still arrive. */
  lemma BytesRemainingSuffice(p: nat, max: int, m: InMessage, index: nat, payload: seq<byte>)
    requires 0 < p && m.numExpectedPackets == CeilDiv(m.messageLength, p)
    requires Sized(m.packets, m.messageLength, p) && m.ValidGrants(max)
    requires WellFormed(p, m, m.messageLength, index, payload) && index !in m.packets && m.peer.Some?
    ensures |payload| <= m.bytesRemaining
  {
    StoredBelow(m.packets, m.messageLength, p, m.numExpectedPackets, index);
  }

  lemma StoredKeepsGrants(p: nat, max: int, m: InMessage, index: nat, payload: seq<byte>)
    requires 0 < p && 0 <= max && m.numExpectedPackets == CeilDiv(m.messageLength, p)
    requires Sized(m.packets, m.messageLength, p) && m.ValidGrants(max)
    requires WellFormed(p, m, m.messageLength, index, payload) && index !in m.packets
    ensures Stored(m, index, payload).ValidGrants(max)
  {
    StoreAdds(m.packets, m.numExpectedPackets, index, payload);
    if m.peer.Some? {
      BytesRemainingSuffice(p, max, m, index, payload);
    }
  }

  lemma NewMessageGrants(p: nat, max: int, source: nat, totalLength: nat, unscheduled: nat)
    requires 0 < p && 0 < totalLength && 0 <= max
    ensures NewMessage(p, source, totalLength, unscheduled).ValidGrants(max)
  {
    StoredAbove(map[], 0, CeilDiv(totalLength, p));
  }

  /** A message is complete exactly when every index is occupied. */
  lemma CompleteWhenAllStored(p: nat, max: int, m: InMessage)
    requires m.Valid(p, max)
    ensures m.state != Receiving <==> forall i: nat | i < m.numExpectedPackets :: i in m.packets
    ensures m.numPackets <= m.numExpectedPackets
  {
    CountIsComplete(m.packets.Keys, m.numExpectedPackets);
  }

  /** Storing a packet that fits keeps the invariant, for a new message and for a known one. */
  lemma StoredIsValid(p: nat, max: int, m: InMessage, index: nat, payload: seq<byte>)
    requires 0 < p && 0 <= max && 0 < m.messageLength
    requires m.numExpectedPackets == CeilDiv(m.messageLength, p)
    requires m.scheduled == (m.numExpectedPackets > m.numUnscheduledPackets)
    requires Sized(m.packets, m.messageLength, p) && m.ValidGrants(max) && m.numPackets == |m.packets|
    requires m.state == Receiving <==> m.numPackets < m.numExpectedPackets
    requires m.arrivals == if m.numPackets == m.numExpectedPackets then 1 else 0
    requires WellFormed(p, m, m.messageLength, index, payload) && index !in m.packets
    ensures Stored(m, index, payload).Valid(p, max)
  {
    StoredKeepsGrants(p, max, m, index, payload);
    CountIsComplete(m.packets.Keys, m.numExpectedPackets);
    CountIsComplete(Stored(m, index, payload).packets.Keys, m.numExpectedPackets);
  }

  lemma OnDataKeepsValid(p: nat, max: int, m: InMessage, index: nat, payload: seq<byte>)
    requires m.Valid(p, max) && WellFormed(p, m, m.messageLength, index, payload)
    ensures OnData(m, index, payload).Valid(p, max)
  {
    if index !in m.packets {
      StoredIsValid(p, max, m, index, payload);
    }
  }

  lemma FirstDataIsValid(p: nat, max: int, source: nat, totalLength: nat, unscheduled: nat, index: nat,
                         payload: seq<byte>)
    requires 0 < p && 0 <= max && 0 < totalLength
    requires WellFormed(p, NewMessage(p, source, totalLength, unscheduled), totalLength, index, payload)
    ensures OnData(NewMessage(p, source, totalLength, unscheduled), index, payload).Valid(p, max)
  {
    NewMessageGrants(p, max, source, totalLength, unscheduled);
    CeilDivLeast(totalLength, p, 0);
    StoredIsValid(p, max, NewMessage(p, source, totalLength, unscheduled), index, payload);
  }

  /**
   * What the grant loop owes a message: if less than the minimum is outstanding, a limit that leaves
   * exactly the maximum outstanding or reaches the end; if not, the old limit.  The message leaves its
   * peer exactly when everything is granted, and nothing else about it changes but its priority.
   */
  predicate Regranted(m: InMessage, g: InMessage, policy: Scheduled, priority: int) {
    && g == m.(priority := priority, bytesGranted := g.bytesGranted, peer := g.peer)
    && (if m.bytesGranted - m.RecordedBytes() < policy.minScheduledBytes
        then && g.bytesGranted <= g.RecordedBytes() + policy.maxScheduledBytes
             && (g.bytesGranted == g.messageLength || g.bytesGranted == g.RecordedBytes() + policy.maxScheduledBytes)
        else g.bytesGranted == m.bytesGranted)
    && (if g.bytesGranted == g.messageLength then g.peer.None? else g.peer == m.peer)
  }

  /** A grant is what is owed, never takes anything back and never exceeds the message. */
  lemma GrantedKeepsValid(p: nat, policy: Scheduled, m: InMessage, priority: int)
    requires PolicyOk(policy) && m.Valid(p, policy.maxScheduledBytes) && m.peer.Some?
    ensures var g := Granted(m, policy, priority);
            && g.Valid(p, policy.maxScheduledBytes) && Regranted(m, g, policy, priority)
            && m.bytesGranted <= g.bytesGranted <= m.messageLength
            && (g.bytesGranted - g.RecordedBytes() >= policy.minScheduledBytes || g.bytesGranted == g.messageLength)
            && (g.peer.None? <==> g.bytesGranted == g.messageLength)
            && (!GrantDue(m, policy) ==> g.bytesGranted == m.bytesGranted)
  {
  }

  /**
   * The answer to a PING repeats the grant the message was last given, to the packet; the answer for a
   * message that needs no grants changes nothing at the sender.
   */
  lemma PingRepeatsTheGrant(p: nat, policy: Scheduled, m: InMessage, priority: int, o: OutMessage)
    requires PolicyOk(policy) && m.Valid(p, policy.maxScheduledBytes) && o.Valid()
    ensures m.peer.Some? ==> var g := Granted(m, policy, priority); PingReply(g) == Grant(g.bytesGranted, priority)
    ensures !m.scheduled ==> PingReply(m) == Grant(0, 0) && OnGrant(o, p, 0, 0) == o
  {
    CeilDivLeast(0, p, 0);
  }
}
