/**
 * One message between its sender and its receiver, over a network that loses,
 * duplicates, delays and reorders packets at will.  `net` holds every packet ever
 * sent; any of them may be delivered at any time, any number of times, or never.
 */
module TwoParty {
  import opened Base
  import opened Fragments
  import opened Reassembly
  import opened Protocol
  import opened ResendRanges

  /** What stays fixed in a run. */
  datatype Config = Config(
    p: nat,              // PACKET_DATA_LENGTH, the same at both ends
    u: nat,              // unscheduled index limit of the sender's policy
    data: seq<byte>,     // the message the application sends
    options: Options,
    source: nat,
    policy: Scheduled)   // of the receiver
  {
    ghost predicate Valid() { 0 < p && 0 < |data| && PolicyOk(policy) }

    function Packets(): seq<seq<byte>>
      requires 0 < p
    {
      Fragment(data, p)
    }

    function N(): nat
      requires 0 < p
    {
      CeilDiv(|data|, p)
    }

    /** The packet limit that goes with a byte limit. */
    function Limit(issued: nat): nat
      requires 0 < p
    {
      Max(Min(u, N()), CeilDiv(issued, p))
    }
  }

  datatype OutSide = NotSent | Tracked(m: OutMessage) | Gone

  datatype System = System(
    out: OutSide,
    incoming: Option<InMessage>,
    taken: bool,                   // receiveMessage returned the incoming message
    net: set<Packet>,
    deliveries: seq<seq<byte>>,    // the contents of every message handed to the receiving application
    issued: nat)                   // the largest byte limit the receiver put into a GRANT

  datatype Step =
    | Send(priority: int)
    | Deliver(packet: Packet, priority: int)
    | Transmit
    | Cancel
    | ReleaseOut
    | TimeoutOut
    | PingTimeout
    | GrantStep(priority: int)
    | ResendTimeout
    | TimeoutIn
    | Receive
    | Acknowledge
    | Fail
    | ReleaseIn

  function Init(): System { System(NotSent, None, false, {}, [], 0) }

  /** The bytes an application reads from a stored message. */
  function Contents(packets: map<nat, seq<byte>>, k: nat): seq<byte> {
    if k == 0 then [] else Contents(packets, k - 1) + if k - 1 in packets then packets[k - 1] else []
  }

  /** `processPacket`: the handler that belongs to the opcode. */
  ghost function Handle(c: Config, s: System, packet: Packet, priority: int): System
    requires c.Valid() && Safe(c, s) && packet in s.net
  {
    match packet
    case Data(total, unscheduled, index, payload) =>
      var m := if s.incoming.Some? then s.incoming.value else NewMessage(c.p, c.source, total, unscheduled);
      s.(incoming := Some(OnData(m, index, payload)))
    case Grant(byteLimit, granted) =>
      if s.out.Tracked? then s.(out := Tracked(OnGrant(s.out.m, c.p, byteLimit, granted))) else s
    case Done =>
      if s.out.Tracked? then s.(out := Tracked(OnDone(s.out.m))) else s
    case Resend(index, num, granted) =>
      if s.out.Tracked?
      then s.(out := Tracked(OnResend(s.out.m, index, num, granted)),
              net := s.net + Elements(ResendReply(s.out.m, c.u, index, num)))
      else s
    case Busy => s
    case Ping =>
      s.(net := s.net + {if s.incoming.Some? then PingReply(s.incoming.value) else Unknown})
    case Unknown =>
      if s.out.Tracked?
      then s.(out := Tracked(OnUnknown(s.out.m, c.u, priority)),
              net := s.net + if Restarts(s.out.m) && |s.out.m.packets| == 1 then {s.out.m.DataPacket(c.u, 0)} else {})
      else s
    case Error =>
      if s.out.Tracked? then s.(out := Tracked(OnError(s.out.m))) else s
  }

  ghost function Elements<T>(s: seq<T>): set<T> { set x | x in s }

  /** One step; a step that is not possible leaves the system as it is. */
  ghost function Next(c: Config, s: System, step: Step): System
    requires c.Valid() && Safe(c, s)
  {
    match step
    case Send(priority) =>
      if s.out.NotSent?
      then var m := Started(c.Packets(), c.options, c.u, priority);
           s.(out := Tracked(m), net := s.net + if |m.packets| == 1 then {m.DataPacket(c.u, 0)} else {})
      else s
    case Deliver(packet, priority) => if packet in s.net then Handle(c, s, packet, priority) else s
    case Transmit =>
      if s.out.Tracked? && s.out.m.status == IN_PROGRESS && s.out.m.Ready()
      then var m := Transmitted(s.out.m);
           s.(out := if m.status == SENT && !m.held then Gone else Tracked(m),
              net := s.net + {s.out.m.DataPacket(c.u, s.out.m.packetsSent)})
      else s
    case Cancel => if s.out.Tracked? && s.out.m.held then s.(out := Tracked(Cancelled(s.out.m))) else s
    case ReleaseOut =>
      if s.out.Tracked? && s.out.m.held
      then s.(out := if s.out.m.status == IN_PROGRESS then Tracked(s.out.m.(held := false)) else Gone)
      else s
    case TimeoutOut => if s.out.Tracked? then s.(out := Tracked(TimedOut(s.out.m))) else s
    case PingTimeout => if s.out.Tracked? && PingDue(s.out.m) then s.(net := s.net + {Ping}) else s
    case GrantStep(priority) =>
      if s.incoming.Some? && s.incoming.value.peer.Some?
      then var m := Granted(s.incoming.value, c.policy, priority);
           if GrantDue(s.incoming.value, c.policy)
           then s.(incoming := Some(m), net := s.net + {Grant(m.bytesGranted, priority)},
                   issued := Max(s.issued, m.bytesGranted))
           else s.(incoming := Some(m))
      else s
    case ResendTimeout =>
      if s.incoming.Some? && s.incoming.value.state == Receiving
      then s.(net := s.net + ResendPackets(s.incoming.value, c.p))
      else s
    case TimeoutIn =>
      if s.incoming.None? then s
      else if s.incoming.value.state == Receiving then s.(incoming := None)
      else s.(incoming := Some(TimedOutIn(s.incoming.value)))
    case Receive =>
      if s.incoming.Some? && s.incoming.value.arrivals > 0 && !s.taken
      then s.(taken := true,
              deliveries := s.deliveries + [Contents(s.incoming.value.packets, s.incoming.value.numExpectedPackets)])
      else s
    case Acknowledge => if s.taken then s.(net := s.net + {Done}) else s
    case Fail => if s.taken then s.(net := s.net + {Error}) else s
    case ReleaseIn => if s.taken then s.(incoming := None, taken := false) else s
  }

  // ------------------------------------------------------------- invariant

  /** What is true of every packet ever sent. */
  ghost predicate PacketSafe(c: Config, s: System, packet: Packet)
    requires 0 < c.p
  {
    match packet
    case Data(total, unscheduled, index, payload) =>
      && total == |c.data| && unscheduled == c.u && index < c.N() && payload == c.Packets()[index]
      && (0 < c.u || 1 < c.N() ==> index < c.Limit(s.issued))
    case Grant(byteLimit, _) => byteLimit <= s.issued
    case Resend(index, num, _) => 1 < c.N() && 0 < num && index + num <= c.Limit(s.issued)
    case Done => s.deliveries != []
    case _ => true
  }

  ghost predicate OutMessageSafe(c: Config, m: OutMessage, issued: nat)
    requires 0 < c.p
  {
    m.Valid() && m.packets == c.Packets() && m.packetsGranted <= c.Limit(issued)
  }

  ghost predicate OutSafe(c: Config, s: System)
    requires 0 < c.p
  {
    s.out.Tracked? ==>
      OutMessageSafe(c, s.out.m, s.issued) && (s.out.m.status == COMPLETED ==> s.deliveries != [])
  }

  ghost predicate InMessageSafe(c: Config, m: InMessage, issued: nat)
    requires 0 < c.p
  {
    && m.Valid(c.p, c.policy.maxScheduledBytes)
    && m.messageLength == |c.data| && m.numUnscheduledPackets == c.u && m.source == c.source
    && (forall i | i in m.packets :: m.packets[i] == c.Packets()[i])
    && m.bytesGranted <= issued
  }

  ghost predicate InSafe(c: Config, s: System)
    requires 0 < c.p
  {
    && (s.taken ==> s.incoming.Some? && s.incoming.value.arrivals > 0 && s.deliveries != [])
    && (s.incoming.Some? ==> InMessageSafe(c, s.incoming.value, s.issued))
  }

  ghost predicate Safe(c: Config, s: System)
    requires c.Valid()
  {
    && (forall packet | packet in s.net :: PacketSafe(c, s, packet))
    && OutSafe(c, s)
    && InSafe(c, s)
    && (forall d | d in s.deliveries :: d == c.data)
    && s.issued <= |c.data|
  }

  /** The largest limit issued is in some GRANT. */
  ghost predicate Issued(s: System) {
    s.issued > 0 ==> exists g :: g in s.net && g.Grant? && g.byteLimit == s.issued
  }

  lemma InitSafe(c: Config)
    requires c.Valid()
    ensures Safe(c, Init())
  {
  }

  lemma LimitMono(c: Config, a: nat, b: nat)
    requires 0 < c.p && a <= b
    ensures c.Limit(a) <= c.Limit(b)
  {
    CeilDivMono(a, b, c.p);
  }

  /** Packets that are safe stay safe while more is issued and delivered. */
  lemma PacketSafeMono(c: Config, s: System, t: System, packet: Packet)
    requires 0 < c.p && PacketSafe(c, s, packet)
    requires s.issued <= t.issued && (s.deliveries != [] ==> t.deliveries != [])
    ensures PacketSafe(c, t, packet)
  {
    LimitMono(c, s.issued, t.issued);
  }

  /** A step that only touches the sender side: new packets must be safe, and so must the sender. */
  lemma SenderStepSafe(c: Config, s: System, t: System)
    requires c.Valid() && Safe(c, s)
    requires s.net <= t.net && t == s.(out := t.out, net := t.net)
    requires forall packet | packet in t.net - s.net :: PacketSafe(c, s, packet)
    requires OutSafe(c, t)
    ensures Safe(c, t)
  {
    forall packet | packet in t.net ensures PacketSafe(c, t, packet) {
      assert packet in s.net || packet in t.net - s.net;
      PacketSafeMono(c, s, t, packet);
    }
  }

  lemma TotalLength(c: Config)
    requires c.Valid()
    ensures Bytes(c.Packets(), c.N()) == |c.data|
  {
    BytesCount(c.Packets(), c.N());
    FlattenFragment(c.data, c.p);
  }

  /** The sender's DATA packets are the packets of the message. */
  lemma DataPacketSafe(c: Config, s: System, m: OutMessage, i: nat)
    requires c.Valid() && m.packets == c.Packets() && i < |m.packets|
    requires 0 < c.u || 1 < c.N() ==> i < c.Limit(s.issued)
    ensures PacketSafe(c, s, m.DataPacket(c.u, i))
  {
    TotalLength(c);
  }

  /** The first packet of a message is always unscheduled, unless there are no unscheduled packets. */
  lemma FirstPacketSafe(c: Config, s: System, m: OutMessage)
    requires c.Valid() && m.packets == c.Packets() && |m.packets| == 1
    ensures PacketSafe(c, s, m.DataPacket(c.u, 0))
  {
    DataPacketSafe(c, s, m, 0);
  }

  lemma FragmentsNonempty(c: Config)
    requires c.Valid()
    ensures 0 < |c.Packets()| && forall i | 0 <= i < |c.Packets()| :: 0 < |c.Packets()[i]|
  {
    CeilDivLeast(|c.data|, c.p, 0);
  }

  lemma SendSafe(c: Config, s: System, priority: int)
    requires c.Valid() && Safe(c, s) && s.out.NotSent?
    ensures Safe(c, Next(c, s, Send(priority)))
  {
    var t := Next(c, s, Send(priority));
    var m := t.out.m;
    FragmentsNonempty(c);
    if |m.packets| == 1 {
      DataPacketSafe(c, s, m, 0);
    } else {
      QueuedIsValid(OutMessage(c.Packets(), c.options, IN_PROGRESS, true, 0, 0, 0, 0), c.u, priority);
    }
    SenderStepSafe(c, s, t);
  }

  lemma TransmitSafe(c: Config, s: System)
    requires c.Valid() && Safe(c, s)
    requires s.out.Tracked? && s.out.m.status == IN_PROGRESS && s.out.m.Ready()
    ensures Safe(c, Next(c, s, Transmit))
  {
    TransmitKeepsValid(s.out.m);
    DataPacketSafe(c, s, s.out.m, s.out.m.packetsSent);
    SenderStepSafe(c, s, Next(c, s, Transmit));
  }

  lemma GrantPacketSafe(c: Config, s: System, packet: Packet, priority: int)
    requires c.Valid() && Safe(c, s) && packet in s.net && packet.Grant? && s.out.Tracked?
    ensures Safe(c, Handle(c, s, packet, priority))
  {
    assert PacketSafe(c, s, packet);
    GrantKeepsValid(s.out.m, c.p, packet.byteLimit, packet.priority);
    CeilDivMono(packet.byteLimit, s.issued, c.p);
    SenderStepSafe(c, s, Handle(c, s, packet, priority));
  }

  /** Only packets already sent are sent again. */
  lemma ResendReplySafe(c: Config, s: System, index: nat, num: nat, reply: Packet)
    requires c.Valid() && OutSafe(c, s) && s.out.Tracked?
    requires reply in ResendReply(s.out.m, c.u, index, num)
    ensures PacketSafe(c, s, reply)
  {
    ResendReplyWasSent(s.out.m, c.u, index, num, reply);
    if reply.Data? {
      DataPacketSafe(c, s, s.out.m, reply.index);
    }
  }

  lemma ResendPacketSafe(c: Config, s: System, packet: Packet, priority: int)
    requires c.Valid() && Safe(c, s) && packet in s.net && packet.Resend? && s.out.Tracked?
    ensures Safe(c, Handle(c, s, packet, priority))
  {
    var m, t := s.out.m, Handle(c, s, packet, priority);
    assert PacketSafe(c, s, packet);
    ResendKeepsValid(m, packet.index, packet.num, packet.priority);
    assert OutSafe(c, t);
    forall reply | reply in t.net - s.net ensures PacketSafe(c, s, reply) {
      ResendReplySafe(c, s, packet.index, packet.num, reply);
    }
    SenderStepSafe(c, s, t);
  }

  lemma UnknownPacketSafe(c: Config, s: System, priority: int)
    requires c.Valid() && Safe(c, s) && Unknown in s.net && s.out.Tracked?
    ensures Safe(c, Handle(c, s, Unknown, priority))
  {
    var m, t := s.out.m, Handle(c, s, Unknown, priority);
    UnknownKeepsValid(m, c.u, priority);
    assert OutSafe(c, t);
    forall packet | packet in t.net - s.net ensures PacketSafe(c, s, packet) {
      FirstPacketSafe(c, s, m);
    }
    SenderStepSafe(c, s, t);
  }

  lemma ReplySafe(c: Config, s: System, packet: Packet, priority: int)
    requires c.Valid() && Safe(c, s) && s.out.Tracked? && packet in s.net && (packet.Done? || packet.Error?)
    ensures Safe(c, Handle(c, s, packet, priority))
  {
    assert PacketSafe(c, s, packet);
    if s.out.m.status == SENT {
      EndKeepsValid(s.out.m, if packet.Done? then COMPLETED else FAILED);
    }
    SenderStepSafe(c, s, Handle(c, s, packet, priority));
  }

  lemma EndingSafe(c: Config, s: System, step: Step)
    requires c.Valid() && Safe(c, s) && s.out.Tracked? && (step.Cancel? || step.TimeoutOut?)
    ensures Safe(c, Next(c, s, step))
  {
    EndKeepsValid(s.out.m, if step.Cancel? then CANCELED else FAILED);
    SenderStepSafe(c, s, Next(c, s, step));
  }

  lemma ReleaseOrPingSafe(c: Config, s: System, step: Step)
    requires c.Valid() && Safe(c, s) && s.out.Tracked? && (step.ReleaseOut? || step.PingTimeout?)
    ensures Safe(c, Next(c, s, step))
  {
    SenderStepSafe(c, s, Next(c, s, step));
  }

  /** A step that only touches the receiver side. */
  lemma ReceiverStepSafe(c: Config, s: System, t: System)
    requires c.Valid() && Safe(c, s)
    requires s.net <= t.net && t == s.(incoming := t.incoming, taken := t.taken, net := t.net, issued := t.issued)
    requires s.issued <= t.issued <= |c.data|
    requires forall packet | packet in t.net - s.net :: PacketSafe(c, t, packet)
    requires InSafe(c, t)
    ensures Safe(c, t)
  {
    forall packet | packet in t.net ensures PacketSafe(c, t, packet) {
      if packet in s.net {
        PacketSafeMono(c, s, t, packet);
      } else {
        assert packet in t.net - s.net;
      }
    }
    LimitMono(c, s.issued, t.issued);
  }

  lemma DataPacketReceivedSafe(c: Config, s: System, packet: Packet, priority: int)
    requires c.Valid() && Safe(c, s) && packet in s.net && packet.Data?
    ensures Safe(c, Handle(c, s, packet, priority))
  {
    assert PacketSafe(c, s, packet);
    SliceSize(c.data, c.p, packet.index);
    var max := c.policy.maxScheduledBytes;
    if s.incoming.Some? {
      OnDataKeepsValid(c.p, max, s.incoming.value, packet.index, packet.payload);
    } else {
      FirstDataIsValid(c.p, max, c.source, packet.totalLength, packet.unscheduledIndexLimit, packet.index,
                       packet.payload);
    }
    ReceiverStepSafe(c, s, Handle(c, s, packet, priority));
  }

  lemma PingSafe(c: Config, s: System, priority: int)
    requires c.Valid() && Safe(c, s) && Ping in s.net
    ensures Safe(c, Handle(c, s, Ping, priority))
  {
    ReceiverStepSafe(c, s, Handle(c, s, Ping, priority));
  }

  lemma GrantStepSafe(c: Config, s: System, priority: int)
    requires c.Valid() && Safe(c, s) && s.incoming.Some? && s.incoming.value.peer.Some?
    ensures Safe(c, Next(c, s, GrantStep(priority)))
  {
    var m, t := s.incoming.value, Next(c, s, GrantStep(priority));
    GrantedKeepsValid(c.p, c.policy, m, priority);
    ReceiverStepSafe(c, s, t);
  }

  lemma ResendTimeoutSafe(c: Config, s: System)
    requires c.Valid() && Safe(c, s) && s.incoming.Some? && s.incoming.value.state == Receiving
    ensures Safe(c, Next(c, s, ResendTimeout))
  {
    var m := s.incoming.value;
    ResendLimitIsMax(m, c.p, c.policy.maxScheduledBytes);
    CeilDivMono(m.bytesGranted, s.issued, c.p);
    ReceiverStepSafe(c, s, Next(c, s, ResendTimeout));
  }

  lemma ReceiverTimeoutSafe(c: Config, s: System)
    requires c.Valid() && Safe(c, s)
    ensures Safe(c, Next(c, s, TimeoutIn))
  {
    if s.incoming.Some? {
      ReceiverStepSafe(c, s, Next(c, s, TimeoutIn));
    }
  }

  lemma {:induction false} ContentsArePrefix(packets: map<nat, seq<byte>>, fragments: seq<seq<byte>>, k: nat)
    requires k <= |fragments| && forall i: nat | i < k :: i in packets && packets[i] == fragments[i]
    ensures Contents(packets, k) == Flatten(fragments, k)
  {
    if k > 0 { ContentsArePrefix(packets, fragments, k - 1); }
  }

  /** A message that became available reads exactly as it was sent. */
  lemma ReceivedContents(c: Config, s: System)
    requires c.Valid() && Safe(c, s) && s.incoming.Some? && s.incoming.value.arrivals > 0
    ensures Contents(s.incoming.value.packets, s.incoming.value.numExpectedPackets) == c.data
  {
    var m := s.incoming.value;
    CompleteWhenAllStored(c.p, c.policy.maxScheduledBytes, m);
    ContentsArePrefix(m.packets, c.Packets(), c.N());
    FlattenFragment(c.data, c.p);
  }

  lemma ReceiveSafe(c: Config, s: System)
    requires c.Valid() && Safe(c, s) && s.incoming.Some? && s.incoming.value.arrivals > 0 && !s.taken
    ensures Safe(c, Next(c, s, Receive))
  {
    var t := Next(c, s, Receive);
    ReceivedContents(c, s);
    forall packet | packet in t.net ensures PacketSafe(c, t, packet) {
      PacketSafeMono(c, s, t, packet);
    }
  }

  lemma ApplicationSafe(c: Config, s: System, step: Step)
    requires c.Valid() && Safe(c, s) && s.taken
    requires step.Acknowledge? || step.Fail? || step.ReleaseIn?
    ensures Safe(c, Next(c, s, step))
  {
    ReceiverStepSafe(c, s, Next(c, s, step));
  }

  lemma HandleSafe(c: Config, s: System, packet: Packet, priority: int)
    requires c.Valid() && Safe(c, s) && packet in s.net
    ensures Safe(c, Handle(c, s, packet, priority))
  {
    match packet
    case Data(_, _, _, _) => DataPacketReceivedSafe(c, s, packet, priority);
    case Grant(_, _) => if s.out.Tracked? { GrantPacketSafe(c, s, packet, priority); }
    case Resend(_, _, _) => if s.out.Tracked? { ResendPacketSafe(c, s, packet, priority); }
    case Unknown => if s.out.Tracked? { UnknownPacketSafe(c, s, priority); }
    case Ping => PingSafe(c, s, priority);
    case Busy =>
    case Done => if s.out.Tracked? { ReplySafe(c, s, packet, priority); }
    case Error => if s.out.Tracked? { ReplySafe(c, s, packet, priority); }
  }

  /** Every step of either side, of the network and of both applications keeps the invariant. */
  lemma StepSafe(c: Config, s: System, step: Step)
    requires c.Valid() && Safe(c, s)
    ensures Safe(c, Next(c, s, step))
  {
    match step
    case Send(priority) => if s.out.NotSent? { SendSafe(c, s, priority); }
    case Deliver(packet, priority) => if packet in s.net { HandleSafe(c, s, packet, priority); }
    case Transmit =>
      if s.out.Tracked? && s.out.m.status == IN_PROGRESS && s.out.m.Ready() { TransmitSafe(c, s); }
    case GrantStep(priority) =>
      if s.incoming.Some? && s.incoming.value.peer.Some? { GrantStepSafe(c, s, priority); }
    case ResendTimeout =>
      if s.incoming.Some? && s.incoming.value.state == Receiving { ResendTimeoutSafe(c, s); }
    case TimeoutIn => ReceiverTimeoutSafe(c, s);
    case Cancel => if s.out.Tracked? { EndingSafe(c, s, step); }
    case TimeoutOut => if s.out.Tracked? { EndingSafe(c, s, step); }
    case ReleaseOut => if s.out.Tracked? { ReleaseOrPingSafe(c, s, step); }
    case PingTimeout => if s.out.Tracked? { ReleaseOrPingSafe(c, s, step); }
    case Receive =>
      if s.incoming.Some? && s.incoming.value.arrivals > 0 && !s.taken { ReceiveSafe(c, s); }
    case Acknowledge => if s.taken { ApplicationSafe(c, s, step); }
    case Fail => if s.taken { ApplicationSafe(c, s, step); }
    case ReleaseIn => if s.taken { ApplicationSafe(c, s, step); }
  }

  // -------------------------------------------------------------- theorems

  /** The system after a run: any sequence of steps from the initial state. */
  ghost function After(c: Config, steps: seq<Step>): (s: System)
    requires c.Valid()
    ensures Safe(c, s)
  {
    if steps == [] then
      InitSafe(c);
      Init()
    else
      var before := After(c, steps[..|steps| - 1]);
      StepSafe(c, before, steps[|steps| - 1]);
      Next(c, before, steps[|steps| - 1])
  }

  /**
   * In every run: when the sender holds a message to be COMPLETED, the receiving
   * application was handed a message with that id, and whatever it was handed is
   * byte for byte what was sent.
   */
  lemma CompletedMeansDelivered(c: Config, steps: seq<Step>)
    requires c.Valid()
    ensures var s := After(c, steps);
            && (s.out.Tracked? && s.out.m.status == COMPLETED ==> s.deliveries != [])
            && (forall d | d in s.deliveries :: d == c.data)
  {
    assert Safe(c, After(c, steps));
  }

  lemma CompletedStays(c: Config, s: System, packet: Packet, priority: int)
    requires c.Valid() && Safe(c, s) && packet in s.net
    ensures s.out.Tracked? && s.out.m.status == COMPLETED ==>
              Handle(c, s, packet, priority).out.Tracked? && Handle(c, s, packet, priority).out.m.status == COMPLETED
  {
  }

  /** COMPLETED is left only by the application's own `cancel` and `release`. */
  lemma CompletedIsLeftOnlyByTheApplication(c: Config, s: System, step: Step)
    requires c.Valid() && Safe(c, s) && s.out.Tracked? && s.out.m.status == COMPLETED
    ensures (Next(c, s, step).out.Tracked? && Next(c, s, step).out.m.status == COMPLETED) <==>
            !((step.Cancel? || step.ReleaseOut?) && s.out.m.held)
  {
    match step
    case Deliver(packet, priority) => if packet in s.net { CompletedStays(c, s, packet, priority); }
    case Cancel =>
    case ReleaseOut =>
    case _ =>
  }

  /** Every DATA packet sent so far lies below the limit the receiver's grants allow. */
  ghost predicate GrantSafe(c: Config, s: System)
    requires 0 < c.p
  {
    forall packet | packet in s.net && packet.Data? :: packet.index < c.Limit(s.issued)
  }

  /**
   * No run ever sends a packet beyond the unscheduled ones and those the largest grant
   * so far reaches, exactly for the messages that have an unscheduled packet or more
   * than one packet: a one-packet message is sent without asking the limit.
   */
  lemma GrantSafety(c: Config)
    requires c.Valid()
    ensures (forall steps :: GrantSafe(c, After(c, steps))) <==> 0 < c.u || 1 < c.N()
  {
    if 0 < c.u || 1 < c.N() {
      forall steps ensures GrantSafe(c, After(c, steps)) {
        var s := After(c, steps);
        forall packet | packet in s.net && packet.Data? ensures packet.index < c.Limit(s.issued) {
          assert PacketSafe(c, s, packet);
        }
      }
    } else {
      SinglePacketIgnoresLimit(c);
    }
  }

  lemma SinglePacketIgnoresLimit(c: Config)
    requires c.Valid() && c.u == 0 && c.N() <= 1
    ensures !GrantSafe(c, After(c, [Send(0)]))
  {
    FragmentsNonempty(c);
    AfterStep(c, [], Send(0));
    assert [] + [Send(0)] == [Send(0)];
    var s := After(c, [Send(0)]);
    assert s.out.m.DataPacket(c.u, 0) in s.net;
    CeilDivLeast(0, c.p, 0);
  }

  lemma StepIssues(c: Config, s: System, step: Step)
    requires c.Valid() && Safe(c, s) && Issued(s)
    ensures Issued(Next(c, s, step))
  {
    var t := Next(c, s, step);
    NetGrows(c, s, step);
    if s.issued < t.issued {
      var g := Grant(t.incoming.value.bytesGranted, step.priority);
      assert g in t.net && g.byteLimit == t.issued;
    } else if s.issued > 0 {
      var g :| g in s.net && g.Grant? && g.byteLimit == s.issued;
      assert g in t.net;
    }
  }

  /** Nothing leaves the network, and only the grant loop issues new limits. */
  lemma NetGrows(c: Config, s: System, step: Step)
    requires c.Valid() && Safe(c, s)
    ensures s.net <= Next(c, s, step).net && s.issued <= Next(c, s, step).issued
    ensures s.issued < Next(c, s, step).issued ==>
              && step.GrantStep? && Next(c, s, step).incoming.Some?
              && Next(c, s, step).issued == Next(c, s, step).incoming.value.bytesGranted
              && Grant(Next(c, s, step).issued, step.priority) in Next(c, s, step).net
  {
    match step
    case Deliver(packet, priority) => if packet in s.net { HandleNetGrows(c, s, packet, priority); }
    case GrantStep(_) =>
    case ResendTimeout =>
    case _ =>
  }

  lemma HandleNetGrows(c: Config, s: System, packet: Packet, priority: int)
    requires c.Valid() && Safe(c, s) && packet in s.net
    ensures s.net <= Handle(c, s, packet, priority).net && Handle(c, s, packet, priority).issued == s.issued
  {
  }

  lemma {:induction false} RunIssues(c: Config, steps: seq<Step>)
    requires c.Valid()
    ensures Issued(After(c, steps))
  {
    if steps != [] {
      RunIssues(c, steps[..|steps| - 1]);
      StepIssues(c, After(c, steps[..|steps| - 1]), steps[|steps| - 1]);
    }
  }

  lemma UngrantedBytesAt(c: Config, s: System, packet: Packet)
    requires c.Valid() && Safe(c, s) && Issued(s) && packet in s.net && packet.Data? && Min(c.u, c.N()) <= packet.index
    requires 0 < c.u || 1 < c.N()
    ensures packet.index * c.p + |packet.payload| < s.issued + c.p
    ensures exists g :: g in s.net && g.Grant? && packet.index * c.p < g.byteLimit
  {
    assert PacketSafe(c, s, packet);
    CeilDivLeast(s.issued, c.p, packet.index);
    CeilDivLeast(0, c.p, 0);
    var g :| g in s.net && g.Grant? && g.byteLimit == s.issued;
    assert packet.index * c.p < g.byteLimit;
  }

  /** In every run a packet beyond the unscheduled ones starts inside bytes some GRANT covers. */
  lemma UngrantedBytes(c: Config, steps: seq<Step>, packet: Packet)
    requires c.Valid() && packet in After(c, steps).net && packet.Data? && Min(c.u, c.N()) <= packet.index
    requires 0 < c.u || 1 < c.N()
    ensures packet.index * c.p + |packet.payload| < After(c, steps).issued + c.p
    ensures exists g :: g in After(c, steps).net && g.Grant? && packet.index * c.p < g.byteLimit
  {
    RunIssues(c, steps);
    UngrantedBytesAt(c, After(c, steps), packet);
  }

  /** `After` extended by one step. */
  lemma AfterStep(c: Config, steps: seq<Step>, step: Step)
    requires c.Valid()
    ensures After(c, steps + [step]) == Next(c, After(c, steps), step)
  {
    assert (steps + [step])[..|steps|] == steps;
  }

  /** The end of some run. */
  ghost predicate Reachable(c: Config, s: System)
    requires c.Valid()
  {
    exists steps :: After(c, steps) == s
  }

  lemma ReachableStep(c: Config, s: System, step: Step)
    requires c.Valid() && Reachable(c, s)
    ensures Safe(c, s) && Reachable(c, Next(c, s, step))
  {
    var steps :| After(c, steps) == s;
    AfterStep(c, steps, step);
  }

  lemma ReachableIsSafe(c: Config, s: System)
    requires c.Valid() && Reachable(c, s)
    ensures Safe(c, s)
  {
  }

  /** The receiver asks only for packets the sender accepts a RESEND for, and never for a one-packet message. */
  lemma ResendsAreAccepted(c: Config, steps: seq<Step>, packet: Packet)
    requires c.Valid() && packet in After(c, steps).net && packet.Resend? && After(c, steps).out.Tracked?
    ensures ResendAccepted(After(c, steps).out.m, packet.index, packet.num)
  {
    var s := After(c, steps);
    assert PacketSafe(c, s, packet);
    CeilDivMono(s.issued, |c.data|, c.p);
  }
}
