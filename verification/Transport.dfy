/**
 * A whole sender and a whole receiver with any number of messages between them.  Seen from
 * one message, every run of the two is a run of TwoParty, so its theorems hold for each of them.
 */
module Transport {
  import opened Base
  import opened Fragments
  import opened Reassembly
  import opened Protocol
  import opened ResendRanges
  import opened SendQueue
  import opened Scheduler
  import opened Grants
  import S = SenderModel
  import R = ReceiverModel
  import T = TwoParty

  /** What is fixed for the two ends. */
  datatype Ends = Ends(transportId: nat, p: nat, header: nat, limit: nat, u: nat, source: nat, policy: Scheduled) {
    ghost predicate Valid() { 0 < p && 0 < header && PolicyOk(policy) }

    function Sending(): S.Config { S.Config(transportId, p, header, limit, u) }

    function Receiving(): R.Config { R.Config(p, policy) }

    function One(request: Request): T.Config { T.Config(p, u, request.data, request.options, source, policy) }
  }

  /** What an application asked to be sent. */
  datatype Request = Request(data: seq<byte>, options: Options)

  /** A packet with the id of its message. */
  datatype Mail = Mail(id: MessageId, packet: Packet)

  datatype Delivery = Delivery(id: MessageId, data: seq<byte>)

  datatype World = World(
    s: S.SenderState,
    r: R.ReceiverState,
    asked: map<MessageId, Request>,
    net: set<Mail>,                    // every packet ever sent
    taken: set<MessageId>,             // messages the receiving application holds
    deliveries: seq<Delivery>,         // everything it was handed
    issued: map<MessageId, nat>)       // the largest byte limit granted to each message

  function Init(): World { World(S.Init(), R.Init(), map[], {}, {}, [], map[]) }

  // ------------------------------------------------------- one message of many

  function PacketsOf(net: set<Mail>, id: MessageId): set<Packet> { set m | m in net && m.id == id :: m.packet }

  function Post(id: MessageId, packets: set<Packet>): set<Mail> { set p | p in packets :: Mail(id, p) }

  function DeliveriesOf(deliveries: seq<Delivery>, id: MessageId): seq<seq<byte>> {
    if deliveries == [] then []
    else
      var last := deliveries[|deliveries| - 1];
      DeliveriesOf(deliveries[..|deliveries| - 1], id) + if last.id == id then [last.data] else []
  }

  /** The contents of a message as the application reads it. */
  function Bytes(m: InMessage): seq<byte> { T.Contents(m.packets, m.numExpectedPackets) }

  function IssuedOf(issued: map<MessageId, nat>, id: MessageId): nat { if id in issued then issued[id] else 0 }

  /** All there is about one message. */
  function View(w: World, id: MessageId): T.System {
    T.System(if id !in w.asked then T.NotSent
             else if id in w.s.queue.msgs then T.Tracked(w.s.queue.msgs[id]) else T.Gone,
             if id in w.r.sched.msgs then Some(w.r.sched.msgs[id]) else None,
             id in w.taken,
             PacketsOf(w.net, id),
             DeliveriesOf(w.deliveries, id),
             IssuedOf(w.issued, id))
  }

  lemma PacketsOfBoth(a: set<Mail>, b: set<Mail>, id: MessageId)
    ensures PacketsOf(a + b, id) == PacketsOf(a, id) + PacketsOf(b, id)
  {
  }

  lemma Posted(net: set<Mail>, id: MessageId, packets: set<Packet>, x: MessageId)
    ensures PacketsOf(net + Post(id, packets), x) == PacketsOf(net, x) + if x == id then packets else {}
  {
    PacketsOfBoth(net, Post(id, packets), x);
    forall p | p in packets ensures p in PacketsOf(Post(id, packets), id) {
      assert Mail(id, p) in Post(id, packets);
    }
  }

  // ----------------------------------------------------------------- events

  datatype Event =
    | Send(data: seq<byte>, options: Options, priority: int)
    | Deliver(mail: Mail, priority: int)
    | TrySend(queued: nat)
    | Cancel(id: MessageId)
    | ReleaseOut(id: MessageId)
    | TimeoutOut(id: MessageId)
    | PingTimeout(id: MessageId)
    | Round
    | ResendTimeout(id: MessageId)
    | TimeoutIn(id: MessageId)
    | Receive
    | Acknowledge(id: MessageId)
    | Fail(id: MessageId)
    | ReleaseIn(id: MessageId)

  ghost predicate Sound(e: Ends, w: World) {
    e.Valid() && S.Inv(e.Sending(), w.s) && R.Inv(e.Receiving(), w.r)
  }

  /** An event of the sender about one message, and what it sends. */
  function AtSender(e: Ends, w: World, id: MessageId, event: S.MessageEvent, sent: set<Packet>): World
    requires e.Sending().Valid()
  {
    w.(s := S.Step(e.Sending(), w.s, S.About(id, event)), net := w.net + Post(id, sent))
  }

  /** A packet arrives at the end its kind belongs to. */
  ghost function Arrive(e: Ends, w: World, id: MessageId, packet: Packet, priority: int): World
    requires Sound(e, w)
  {
    var known := id in w.s.queue.msgs;
    match packet
    case Data(total, unscheduled, index, payload) =>
      w.(r := R.OnDataPacket(e.Receiving(), w.r, R.Arrival(id, e.source, total, unscheduled, index, payload)))
    case Grant(byteLimit, granted) => AtSender(e, w, id, S.GrantArrived(byteLimit, granted), {})
    case Done => AtSender(e, w, id, S.DoneArrived, {})
    case Resend(index, num, granted) =>
      AtSender(e, w, id, S.ResendArrived(index, num, granted),
               if known then T.Elements(ResendReply(w.s.queue.msgs[id], e.u, index, num)) else {})
    case Busy => w
    case Ping =>
      w.(net := w.net + Post(id, {if id in w.r.sched.msgs then PingReply(w.r.sched.msgs[id]) else Unknown}))
    case Unknown =>
      AtSender(e, w, id, S.UnknownArrived(priority),
               if known && Restarts(w.s.queue.msgs[id]) && |w.s.queue.msgs[id].packets| == 1
               then {w.s.queue.msgs[id].DataPacket(e.u, 0)} else {})
    case Error => AtSender(e, w, id, S.ErrorArrived, {})
  }

  /** The application asks for a message to be sent. */
  function Asked(e: Ends, w: World, data: seq<byte>, options: Options, priority: int): World
    requires e.Sending().Valid()
  {
    var id, packets := MessageId(e.transportId, w.s.nextSequence), Fragment(data, e.p);
    w.(s := S.Step(e.Sending(), w.s, S.SendMessage(packets, options, priority)),
       asked := w.asked[id := Request(data, options)],
       net := w.net + Post(id, if |packets| == 1 then {Started(packets, options, e.u, priority).DataPacket(e.u, 0)}
                               else {}))
  }

  /** The packets a `trySend` hands to the driver. */
  function MailOf(msgs: map<MessageId, OutMessage>, u: nat, sent: seq<Sent>): set<Mail> {
    set x | x in sent && x.id in msgs && x.index < |msgs[x.id].packets| :: Mail(x.id, msgs[x.id].DataPacket(u, x.index))
  }

  function SentBy(e: Ends, w: World, queued: nat): seq<Sent>
    requires e.Sending().Valid()
  {
    if w.s.sendReady then Srpt(w.s.queue, queued, e.limit, e.header).sent else []
  }

  /** The GRANTs of a round. */
  function GrantMail(grants: seq<GrantSent>): set<Mail> {
    set g | g in grants && 0 <= g.limit :: Mail(g.id, Grant(g.limit, g.priority))
  }

  function IssuedBy(issued: map<MessageId, nat>, grants: seq<GrantSent>): map<MessageId, nat> {
    if grants == [] then issued
    else
      var before, g := IssuedBy(issued, grants[..|grants| - 1]), grants[|grants| - 1];
      if 0 <= g.limit then before[g.id := Max(IssuedOf(before, g.id), g.limit)] else before
  }

  /** The GRANTs of a round are sent. */
  ghost predicate GrantsGoOut(e: Ends, w: World, w': World, visits: seq<Visit>) {
    && (forall v | v in visits :: v.id in w.r.sched.msgs)
    && var grants := GrantsOf(w.r.sched.msgs, visits, e.policy);
       w' == w.(r := w.r.(sched := w'.r.sched), net := w.net + GrantMail(grants), issued := IssuedBy(w.issued, grants))
  }

  ghost predicate GrantRound(e: Ends, w: World, w': World, spots: seq<Spot>, visits: seq<Visit>) {
    R.IsRound(e.Receiving(), w.r.sched, w'.r.sched, spots, visits) && GrantsGoOut(e, w, w', visits)
  }

  ghost predicate Next(e: Ends, w: World, event: Event, w': World)
    requires Sound(e, w)
  {
    match event
    case Send(data, options, priority) => 0 < |data| && w' == Asked(e, w, data, options, priority)
    case Deliver(mail, priority) => mail in w.net && w' == Arrive(e, w, mail.id, mail.packet, priority)
    case TrySend(queued) =>
      w' == ServedWorld(e, w, queued)
    case Cancel(id) =>
      id in w.s.queue.msgs && w.s.queue.msgs[id].held && w' == AtSender(e, w, id, S.CancelMessage, {})
    case ReleaseOut(id) =>
      id in w.s.queue.msgs && w.s.queue.msgs[id].held && w' == AtSender(e, w, id, S.DropMessage, {})
    case TimeoutOut(id) => w' == AtSender(e, w, id, S.MessageTimeout, {})
    case PingTimeout(id) =>
      id in w.s.queue.msgs && PingDue(w.s.queue.msgs[id]) && w' == w.(net := w.net + Post(id, {Ping}))
    case Round => exists spots, visits :: GrantRound(e, w, w', spots, visits)
    case ResendTimeout(id) =>
      && id in w.r.sched.msgs && w.r.sched.msgs[id].state == State.Receiving
      && w' == w.(net := w.net + Post(id, ResendPackets(w.r.sched.msgs[id], e.p)))
    case TimeoutIn(id) => id in w.r.sched.msgs && w' == w.(r := R.OnTimeout(w.r, id))
    case Receive =>
      w.r.received != [] && w.r.received[0] in w.r.sched.msgs && w' == Taking(w)
    case Acknowledge(id) => id in w.taken && w' == w.(net := w.net + Post(id, {Done}))
    case Fail(id) => id in w.taken && w' == w.(net := w.net + Post(id, {Error}))
    case ReleaseIn(id) => id in w.taken && w' == w.(r := R.OnDrop(w.r, id), taken := w.taken - {id})
  }

  // -------------------------------------------------------------- invariant

  /** What there is about a message is the end of some run of TwoParty. */
  ghost predicate Reached(e: Ends, w: World, id: MessageId)
    requires e.Valid() && id in w.asked && 0 < |w.asked[id].data|
  {
    T.Reachable(e.One(w.asked[id]), View(w, id))
  }

  /** What is true of each message id, used or not. */
  ghost predicate MessageInv(e: Ends, w: World, id: MessageId)
    requires e.Valid()
  {
    && (if id in w.asked then 0 < |w.asked[id].data| && id.sequence < w.s.nextSequence && Reached(e, w, id)
        else View(w, id) == T.Init() && id !in w.s.queue.msgs)
    && (id in w.r.received ==> id !in w.taken)
  }

  ghost predicate Inv(e: Ends, w: World) {
    Sound(e, w) && forall id :: MessageInv(e, w, id)
  }

  // ------------------------------------------------------- events at the sender

  /** What an event does to the sender's half of a message. */
  function OutAfter(e: Ends, m: OutMessage, event: S.MessageEvent): T.OutSide
    requires 0 < e.p
  {
    match event
    case GrantArrived(byteLimit, priority) => T.Tracked(OnGrant(m, e.p, byteLimit, priority))
    case ResendArrived(index, num, priority) => T.Tracked(OnResend(m, index, num, priority))
    case UnknownArrived(priority) => T.Tracked(OnUnknown(m, e.u, priority))
    case DoneArrived => T.Tracked(OnDone(m))
    case ErrorArrived => T.Tracked(OnError(m))
    case CancelMessage => T.Tracked(Cancelled(m))
    case DropMessage => if m.status != IN_PROGRESS then T.Gone else T.Tracked(m.(held := false))
    case MessageTimeout => T.Tracked(TimedOut(m))
  }

  lemma SenderMessages(e: Ends, s: S.SenderState, id: MessageId, event: S.MessageEvent)
    requires e.Valid() && id in s.queue.msgs
    ensures var t := S.Step(e.Sending(), s, S.About(id, event));
            && t.nextSequence == s.nextSequence
            && (match OutAfter(e, s.queue.msgs[id], event)
                case Tracked(m) => t.queue.msgs == s.queue.msgs[id := m]
                case _ => t.queue.msgs == s.queue.msgs - {id})
  {
  }

  /** An event about one tracked message shows in the view of that message only. */
  lemma SenderViews(e: Ends, w: World, id: MessageId, event: S.MessageEvent, sent: set<Packet>, x: MessageId)
    requires e.Valid() && id in w.s.queue.msgs && id in w.asked
    ensures var w' := AtSender(e, w, id, event, sent);
            View(w', x) == if x != id then View(w, x)
                           else View(w, id).(out := OutAfter(e, w.s.queue.msgs[id], event),
                                             net := PacketsOf(w.net, id) + sent)
  {
    SenderMessages(e, w.s, id, event);
    Posted(w.net, id, sent, x);
  }

  /** A message that is not tracked any more is not affected. */
  lemma UnknownViews(e: Ends, w: World, id: MessageId, event: S.MessageEvent, x: MessageId)
    requires e.Valid() && id !in w.s.queue.msgs
    ensures View(AtSender(e, w, id, event, {}), x) == View(w, x) && AtSender(e, w, id, event, {}).s == w.s
  {
    Posted(w.net, id, {}, x);
  }

  // ----------------------------------------------------- putting it together

  /** A message that an event does not concern. */
  lemma Unconcerned(e: Ends, w: World, w': World, id: MessageId)
    requires e.Valid() && MessageInv(e, w, id) && View(w', id) == View(w, id)
    requires w'.asked == w.asked && w'.s.nextSequence == w.s.nextSequence
    requires id in w'.s.queue.msgs ==> id in w.s.queue.msgs
    requires id in w'.r.received ==> id in w.r.received
    ensures MessageInv(e, w', id)
  {
  }

  /** The message an event is about, after a step of TwoParty. */
  lemma Concerned(e: Ends, w: World, w': World, id: MessageId, v: T.System)
    requires e.Valid() && MessageInv(e, w, id) && id in w.asked && T.Reachable(e.One(w.asked[id]), v)
    requires View(w', id) == v
    requires w'.asked == w.asked && w'.s.nextSequence == w.s.nextSequence
    requires id in w'.r.received ==> id !in w'.taken
    ensures MessageInv(e, w', id)
  {
  }

  lemma SenderSound(e: Ends, w: World, id: MessageId, event: S.MessageEvent, sent: set<Packet>)
    requires Sound(e, w)
    ensures Sound(e, AtSender(e, w, id, event, sent))
  {
    S.StepKeepsInv(e.Sending(), w.s, S.About(id, event));
  }

  /** The view of a message after an event at the sender. */
  function ViewAfter(e: Ends, w: World, id: MessageId, event: S.MessageEvent, sent: set<Packet>): T.System
    requires 0 < e.p && id in w.s.queue.msgs
  {
    View(w, id).(out := OutAfter(e, w.s.queue.msgs[id], event), net := PacketsOf(w.net, id) + sent)
  }

  /** An event at the sender that is a step of TwoParty for its message. */
  lemma SenderStep(e: Ends, w: World, id: MessageId, event: S.MessageEvent, sent: set<Packet>)
    requires Inv(e, w) && id in w.s.queue.msgs && id in w.asked
    requires 0 < |w.asked[id].data| && T.Reachable(e.One(w.asked[id]), ViewAfter(e, w, id, event, sent))
    ensures Inv(e, AtSender(e, w, id, event, sent))
  {
    var w' := AtSender(e, w, id, event, sent);
    SenderSound(e, w, id, event, sent);
    SenderMessages(e, w.s, id, event);
    forall x ensures MessageInv(e, w', x) {
      assert MessageInv(e, w, x);
      SenderViews(e, w, id, event, sent, x);
      if x == id {
        Concerned(e, w, w', id, ViewAfter(e, w, id, event, sent));
      } else {
        Unconcerned(e, w, w', x);
      }
    }
  }

  lemma UnknownStep(e: Ends, w: World, id: MessageId, event: S.MessageEvent)
    requires Inv(e, w) && id !in w.s.queue.msgs
    ensures Inv(e, AtSender(e, w, id, event, {}))
  {
    var w' := AtSender(e, w, id, event, {});
    SenderSound(e, w, id, event, {});
    forall x ensures MessageInv(e, w', x) {
      assert MessageInv(e, w, x);
      UnknownViews(e, w, id, event, x);
      Unconcerned(e, w, w', x);
    }
  }

  /** A packet that belongs to the sender arrives. */
  predicate ForSender(packet: Packet) {
    packet.Grant? || packet.Done? || packet.Resend? || packet.Unknown? || packet.Error?
  }

  function EventOf(packet: Packet, priority: int): S.MessageEvent
    requires ForSender(packet)
  {
    match packet
    case Grant(byteLimit, granted) => S.GrantArrived(byteLimit, granted)
    case Done => S.DoneArrived
    case Resend(index, num, granted) => S.ResendArrived(index, num, granted)
    case Unknown => S.UnknownArrived(priority)
    case Error => S.ErrorArrived
  }

  ghost function AnswerOf(e: Ends, m: OutMessage, packet: Packet): set<Packet>
    requires m.packetsSent <= |m.packets|
  {
    match packet
    case Resend(index, num, _) => T.Elements(ResendReply(m, e.u, index, num))
    case Unknown => if Restarts(m) && |m.packets| == 1 then {m.DataPacket(e.u, 0)} else {}
    case _ => {}
  }

  /** What TwoParty makes of such a packet. */
  lemma SenderHandles(e: Ends, c: T.Config, v: T.System, packet: Packet, priority: int)
    requires e.Valid() && c.Valid() && c.p == e.p && c.u == e.u && T.Safe(c, v) && packet in v.net && ForSender(packet)
    requires v.out.Tracked? && v.out.m.packetsSent <= |v.out.m.packets|
    ensures T.Next(c, v, T.Deliver(packet, priority)) ==
            v.(out := OutAfter(e, v.out.m, EventOf(packet, priority)), net := v.net + AnswerOf(e, v.out.m, packet))
  {
    assert v.net + {} == v.net;
  }

  lemma ArrivesAtSender(e: Ends, w: World, id: MessageId, packet: Packet, priority: int)
    requires Sound(e, w) && ForSender(packet)
    ensures id in w.s.queue.msgs ==>
              && w.s.queue.msgs[id].packetsSent <= |w.s.queue.msgs[id].packets|
              && Arrive(e, w, id, packet, priority) ==
                 AtSender(e, w, id, EventOf(packet, priority), AnswerOf(e, w.s.queue.msgs[id], packet))
    ensures id !in w.s.queue.msgs ==>
            Arrive(e, w, id, packet, priority) == AtSender(e, w, id, EventOf(packet, priority), {})
  {
    if id in w.s.queue.msgs {
      assert w.s.queue.msgs[id].Valid();
    }
  }

  lemma SenderArrival(e: Ends, w: World, id: MessageId, packet: Packet, priority: int)
    requires Inv(e, w) && Mail(id, packet) in w.net && ForSender(packet)
    ensures Inv(e, Arrive(e, w, id, packet, priority))
  {
    MailIsAsked(e, w, id, packet);
    ArrivesAtSender(e, w, id, packet, priority);
    if id in w.s.queue.msgs {
      T.ReachableStep(e.One(w.asked[id]), View(w, id), T.Deliver(packet, priority));
      SenderHandles(e, e.One(w.asked[id]), View(w, id), packet, priority);
      SenderStep(e, w, id, EventOf(packet, priority), AnswerOf(e, w.s.queue.msgs[id], packet));
    } else {
      UnknownStep(e, w, id, EventOf(packet, priority));
    }
  }

  /** A packet in the network belongs to a message that was sent. */
  lemma MailIsAsked(e: Ends, w: World, id: MessageId, packet: Packet)
    requires Inv(e, w) && Mail(id, packet) in w.net
    ensures packet in View(w, id).net && id in w.asked
    ensures 0 < |w.asked[id].data| && Reached(e, w, id) && T.Safe(e.One(w.asked[id]), View(w, id))
  {
    assert MessageInv(e, w, id) && packet in PacketsOf(w.net, id);
    T.ReachableIsSafe(e.One(w.asked[id]), View(w, id));
  }

  // ----------------------------------------------------- packets sent, nothing else

  lemma NetStep(e: Ends, w: World, id: MessageId, sent: set<Packet>)
    requires Inv(e, w) && id in w.asked && 0 < |w.asked[id].data|
    requires T.Reachable(e.One(w.asked[id]), View(w, id).(net := PacketsOf(w.net, id) + sent))
    ensures Inv(e, w.(net := w.net + Post(id, sent)))
  {
    var w' := w.(net := w.net + Post(id, sent));
    forall x ensures MessageInv(e, w', x) {
      assert MessageInv(e, w, x);
      Posted(w.net, id, sent, x);
      if x == id {
        Concerned(e, w, w', id, View(w, id).(net := PacketsOf(w.net, id) + sent));
      } else {
        Unconcerned(e, w, w', x);
      }
    }
  }

  /** A message the receiver knows, or holds, was sent. */
  lemma KnownIsAsked(e: Ends, w: World, id: MessageId)
    requires Inv(e, w) && (id in w.r.sched.msgs || id in w.taken || id in w.s.queue.msgs)
    ensures id in w.asked && 0 < |w.asked[id].data| && Reached(e, w, id) && T.Safe(e.One(w.asked[id]), View(w, id))
  {
    assert MessageInv(e, w, id) && (id in w.s.queue.msgs || View(w, id).incoming.Some? || View(w, id).taken);
    T.ReachableIsSafe(e.One(w.asked[id]), View(w, id));
  }

  lemma PingArrival(e: Ends, w: World, id: MessageId, priority: int)
    requires Inv(e, w) && Mail(id, Ping) in w.net
    ensures Inv(e, Arrive(e, w, id, Ping, priority))
  {
    MailIsAsked(e, w, id, Ping);
    T.ReachableStep(e.One(w.asked[id]), View(w, id), T.Deliver(Ping, priority));
    NetStep(e, w, id, {if id in w.r.sched.msgs then PingReply(w.r.sched.msgs[id]) else Unknown});
  }

  // ------------------------------------------------------ events at the receiver

  lemma DataFits(e: Ends, w: World, id: MessageId, packet: Packet)
    requires Inv(e, w) && Mail(id, packet) in w.net && packet.Data?
    ensures R.Fits(e.Receiving(), w.r,
                   R.Arrival(id, e.source, packet.totalLength, packet.unscheduledIndexLimit, packet.index,
                             packet.payload))
  {
    MailIsAsked(e, w, id, packet);
    var c := e.One(w.asked[id]);
    assert T.PacketSafe(c, View(w, id), packet);
    SliceSize(c.data, c.p, packet.index);
  }

  lemma DataViews(e: Ends, w: World, a: R.Arrival, x: MessageId)
    requires Sound(e, w) && R.Fits(e.Receiving(), w.r, a)
    ensures var w' := w.(r := R.OnDataPacket(e.Receiving(), w.r, a));
            var m := if a.id in w.r.sched.msgs then w.r.sched.msgs[a.id]
                     else NewMessage(e.p, a.source, a.totalLength, a.unscheduled);
            View(w', x) == if x != a.id then View(w, x)
                           else View(w, x).(incoming := Some(OnData(m, a.index, a.payload)))
  {
    R.DataKeepsMessages(e.Receiving(), w.r, a);
  }

  /** A message the application holds is not queued for it. */
  lemma DataKeepsApart(e: Ends, w: World, a: R.Arrival, x: MessageId)
    requires Inv(e, w) && R.Fits(e.Receiving(), w.r, a) && x in w.taken
    ensures x !in R.OnDataPacket(e.Receiving(), w.r, a).received
  {
    KnownIsAsked(e, w, x);
    assert MessageInv(e, w, x);
    R.DataQueues(e.Receiving(), w.r, a, x);
  }

  /** An event at the receiver, as far as one message is concerned. */
  lemma ReceiverStep(e: Ends, w: World, w': World, id: MessageId, v: T.System)
    requires Inv(e, w) && id in w.asked && 0 < |w.asked[id].data| && T.Reachable(e.One(w.asked[id]), v)
    requires View(w', id) == v
    requires Sound(e, w') && w'.asked == w.asked && w'.s == w.s
    requires forall x | x != id :: View(w', x) == View(w, x)
    requires forall x | x in w'.r.received && x != id :: x in w.r.received
    requires id in w'.r.received ==> id !in w'.taken
    ensures Inv(e, w')
  {
    forall x ensures MessageInv(e, w', x) {
      assert MessageInv(e, w, x);
      if x == id {
        Concerned(e, w, w', id, v);
      } else {
        Unconcerned(e, w, w', x);
      }
    }
  }

  /** What TwoParty makes of a DATA packet. */
  lemma DataHandled(e: Ends, c: T.Config, v: T.System, packet: Packet, priority: int)
    requires c.Valid() && c.p == e.p && c.source == e.source && T.Reachable(c, v) && packet in v.net && packet.Data?
    ensures var m := if v.incoming.Some? then v.incoming.value
                     else NewMessage(e.p, e.source, packet.totalLength, packet.unscheduledIndexLimit);
            T.Reachable(c, v.(incoming := Some(OnData(m, packet.index, packet.payload))))
  {
    T.ReachableStep(c, v, T.Deliver(packet, priority));
  }

  lemma DataArrival(e: Ends, w: World, id: MessageId, packet: Packet, priority: int)
    requires Inv(e, w) && Mail(id, packet) in w.net && packet.Data?
    ensures Inv(e, Arrive(e, w, id, packet, priority))
  {
    DataFits(e, w, id, packet);
    MailIsAsked(e, w, id, packet);
    DataHandled(e, e.One(w.asked[id]), View(w, id), packet, priority);
    var a := R.Arrival(id, e.source, packet.totalLength, packet.unscheduledIndexLimit, packet.index, packet.payload);
    var w' := w.(r := R.OnDataPacket(e.Receiving(), w.r, a));
    R.DataKeepsInv(e.Receiving(), w.r, a);
    forall x ensures x != id ==> View(w', x) == View(w, x) {
      DataViews(e, w, a, x);
    }
    DataViews(e, w, a, id);
    DataQueued(e, w, a);
    ReceiverStep(e, w, w', id, View(w', id));
  }

  /** Only the message of the packet may become available, and not if the application holds it. */
  lemma DataQueued(e: Ends, w: World, a: R.Arrival)
    requires Inv(e, w) && R.Fits(e.Receiving(), w.r, a)
    ensures var t := R.OnDataPacket(e.Receiving(), w.r, a);
            && (forall x | x in t.received && x != a.id :: x in w.r.received)
            && (a.id in t.received ==> a.id !in w.taken)
  {
    var t := R.OnDataPacket(e.Receiving(), w.r, a);
    R.DataKeepsMessages(e.Receiving(), w.r, a);
    forall x | x in t.received && x != a.id ensures x in w.r.received {
      R.DataQueues(e.Receiving(), w.r, a, x);
    }
    assert MessageInv(e, w, a.id);
    if a.id in w.taken {
      DataKeepsApart(e, w, a, a.id);
    }
  }

  lemma Arrival(e: Ends, w: World, id: MessageId, packet: Packet, priority: int)
    requires Inv(e, w) && Mail(id, packet) in w.net
    ensures Inv(e, Arrive(e, w, id, packet, priority))
  {
    if ForSender(packet) {
      SenderArrival(e, w, id, packet, priority);
    } else if packet.Data? {
      DataArrival(e, w, id, packet, priority);
    } else if packet.Ping? {
      PingArrival(e, w, id, priority);
    }
  }

  // --------------------------------------------- timeouts and the applications

  /** What TwoParty makes of the timeouts and of what the applications do. */
  lemma TimeoutNext(e: Ends, c: T.Config, v: T.System)
    requires e.Valid() && c.Valid() && T.Safe(c, v) && v.out.Tracked?
    ensures T.Next(c, v, T.TimeoutOut) == v.(out := OutAfter(e, v.out.m, S.MessageTimeout), net := v.net + {})
  {
    assert v.net + {} == v.net;
  }

  lemma TimeoutHandled(e: Ends, c: T.Config, v: T.System)
    requires e.Valid() && c.Valid() && T.Reachable(c, v) && v.out.Tracked?
    ensures T.Reachable(c, v.(out := OutAfter(e, v.out.m, S.MessageTimeout), net := v.net + {}))
  {
    T.ReachableStep(c, v, T.TimeoutOut);
    TimeoutNext(e, c, v);
  }

  lemma CancelHandled(e: Ends, c: T.Config, v: T.System)
    requires e.Valid() && c.Valid() && T.Reachable(c, v) && v.out.Tracked? && v.out.m.held
    ensures T.Reachable(c, v.(out := OutAfter(e, v.out.m, S.CancelMessage), net := v.net + {}))
  {
    assert v.net + {} == v.net;
    T.ReachableStep(c, v, T.Cancel);
  }

  lemma ReleaseHandled(e: Ends, c: T.Config, v: T.System)
    requires e.Valid() && c.Valid() && T.Reachable(c, v) && v.out.Tracked? && v.out.m.held
    ensures T.Reachable(c, v.(out := OutAfter(e, v.out.m, S.DropMessage), net := v.net + {}))
  {
    assert v.net + {} == v.net;
    T.ReachableStep(c, v, T.ReleaseOut);
  }

  lemma PingHandled(c: T.Config, v: T.System)
    requires c.Valid() && T.Reachable(c, v) && v.out.Tracked? && PingDue(v.out.m)
    ensures T.Reachable(c, v.(net := v.net + {Ping}))
  {
    T.ReachableStep(c, v, T.PingTimeout);
  }

  lemma ResendNext(c: T.Config, v: T.System)
    requires c.Valid() && T.Safe(c, v) && v.incoming.Some? && v.incoming.value.state == State.Receiving
    ensures 0 <= v.incoming.value.bytesGranted
    ensures T.Next(c, v, T.ResendTimeout) == v.(net := v.net + ResendPackets(v.incoming.value, c.p))
  {
  }

  lemma ResendHandled(c: T.Config, v: T.System)
    requires c.Valid() && T.Reachable(c, v) && v.incoming.Some? && v.incoming.value.state == State.Receiving
    ensures 0 <= v.incoming.value.bytesGranted
    ensures T.Reachable(c, v.(net := v.net + ResendPackets(v.incoming.value, c.p)))
  {
    T.ReachableStep(c, v, T.ResendTimeout);
    ResendNext(c, v);
  }

  lemma ExpiryHandled(c: T.Config, v: T.System)
    requires c.Valid() && T.Reachable(c, v) && v.incoming.Some?
    ensures T.Reachable(c, v.(incoming := if v.incoming.value.state == State.Receiving then None
                                        else Some(TimedOutIn(v.incoming.value))))
  {
    T.ReachableStep(c, v, T.TimeoutIn);
  }

  lemma ApplicationSteps(c: T.Config, v: T.System)
    requires c.Valid() && T.Safe(c, v) && v.taken
    ensures T.Next(c, v, T.Acknowledge) == v.(net := v.net + {Done})
    ensures T.Next(c, v, T.Fail) == v.(net := v.net + {Error})
    ensures T.Next(c, v, T.ReleaseIn) == v.(incoming := None, taken := false)
  {
  }

  lemma DoneHandled(c: T.Config, v: T.System)
    requires c.Valid() && T.Reachable(c, v) && v.taken
    ensures T.Reachable(c, v.(net := v.net + {Done}))
  {
    T.ReachableIsSafe(c, v);
    ApplicationSteps(c, v);
    T.ReachableStep(c, v, T.Acknowledge);
  }

  lemma ErrorHandled(c: T.Config, v: T.System)
    requires c.Valid() && T.Reachable(c, v) && v.taken
    ensures T.Reachable(c, v.(net := v.net + {Error}))
  {
    T.ReachableIsSafe(c, v);
    ApplicationSteps(c, v);
    T.ReachableStep(c, v, T.Fail);
  }

  lemma DropHandled(c: T.Config, v: T.System)
    requires c.Valid() && T.Reachable(c, v) && v.taken
    ensures T.Reachable(c, v.(incoming := None, taken := false)) && v.incoming.Some?
  {
    T.ReachableIsSafe(c, v);
    ApplicationSteps(c, v);
    T.ReachableStep(c, v, T.ReleaseIn);
  }

  lemma SenderTimeout(e: Ends, w: World, id: MessageId)
    requires Inv(e, w)
    ensures Inv(e, AtSender(e, w, id, S.MessageTimeout, {}))
  {
    if id in w.s.queue.msgs {
      KnownIsAsked(e, w, id);
      TimeoutHandled(e, e.One(w.asked[id]), View(w, id));
      SenderStep(e, w, id, S.MessageTimeout, {});
    } else {
      UnknownStep(e, w, id, S.MessageTimeout);
    }
  }

  lemma CancelOrRelease(e: Ends, w: World, id: MessageId)
    requires Inv(e, w) && id in w.s.queue.msgs && w.s.queue.msgs[id].held
    ensures Inv(e, AtSender(e, w, id, S.CancelMessage, {})) && Inv(e, AtSender(e, w, id, S.DropMessage, {}))
  {
    KnownIsAsked(e, w, id);
    CancelHandled(e, e.One(w.asked[id]), View(w, id));
    SenderStep(e, w, id, S.CancelMessage, {});
    ReleaseHandled(e, e.One(w.asked[id]), View(w, id));
    SenderStep(e, w, id, S.DropMessage, {});
  }

  lemma PingSent(e: Ends, w: World, id: MessageId)
    requires Inv(e, w) && id in w.s.queue.msgs && PingDue(w.s.queue.msgs[id])
    ensures Inv(e, w.(net := w.net + Post(id, {Ping})))
  {
    KnownIsAsked(e, w, id);
    PingHandled(e.One(w.asked[id]), View(w, id));
    NetStep(e, w, id, {Ping});
  }

  lemma ResendsSent(e: Ends, w: World, id: MessageId)
    requires Inv(e, w) && id in w.r.sched.msgs && w.r.sched.msgs[id].state == State.Receiving
    ensures 0 <= w.r.sched.msgs[id].bytesGranted
    ensures Inv(e, w.(net := w.net + Post(id, ResendPackets(w.r.sched.msgs[id], e.p))))
  {
    KnownIsAsked(e, w, id);
    ResendHandled(e.One(w.asked[id]), View(w, id));
    NetStep(e, w, id, ResendPackets(w.r.sched.msgs[id], e.p));
  }

  lemma ReplySent(e: Ends, w: World, id: MessageId, reply: Packet)
    requires Inv(e, w) && id in w.taken && (reply == Done || reply == Error)
    ensures Inv(e, w.(net := w.net + Post(id, {reply})))
  {
    KnownIsAsked(e, w, id);
    if reply == Done {
      DoneHandled(e.One(w.asked[id]), View(w, id));
    } else {
      ErrorHandled(e.One(w.asked[id]), View(w, id));
    }
    NetStep(e, w, id, {reply});
  }

  /** The views after a message timed out at the receiver or was released. */
  lemma EndViews(w: World, id: MessageId, x: MessageId)
    requires SchedInv(w.r.sched) && id in w.r.sched.msgs
    ensures View(w.(r := R.OnTimeout(w.r, id)), x) ==
            if x != id then View(w, x)
            else View(w, x).(incoming := if w.r.sched.msgs[id].state == State.Receiving then None
                                         else Some(TimedOutIn(w.r.sched.msgs[id])))
    ensures View(w.(r := R.OnDrop(w.r, id), taken := w.taken - {id}), x) ==
            if x != id then View(w, x) else View(w, x).(incoming := None, taken := false)
  {
    R.TimeoutKeepsSchedule(w.r, id);
    R.ForgottenKeepsInv(w.r.sched, id);
  }

  lemma ReceiverTimeout(e: Ends, w: World, id: MessageId)
    requires Inv(e, w) && id in w.r.sched.msgs
    ensures Inv(e, w.(r := R.OnTimeout(w.r, id)))
  {
    var w' := w.(r := R.OnTimeout(w.r, id));
    KnownIsAsked(e, w, id);
    ExpiryHandled(e.One(w.asked[id]), View(w, id));
    R.TimeoutKeepsInv(e.Receiving(), w.r, id);
    forall x ensures x != id ==> View(w', x) == View(w, x) {
      EndViews(w, id, x);
    }
    EndViews(w, id, id);
    assert MessageInv(e, w, id);
    ReceiverStep(e, w, w', id, View(w', id));
  }

  lemma Released(e: Ends, w: World, id: MessageId)
    requires Inv(e, w) && id in w.taken
    ensures Inv(e, w.(r := R.OnDrop(w.r, id), taken := w.taken - {id}))
  {
    var w' := w.(r := R.OnDrop(w.r, id), taken := w.taken - {id});
    KnownIsAsked(e, w, id);
    assert MessageInv(e, w, id);
    DropHandled(e.One(w.asked[id]), View(w, id));
    R.DropKeepsInv(e.Receiving(), w.r, id);
    forall x ensures x != id ==> View(w', x) == View(w, x) {
      EndViews(w, id, x);
    }
    EndViews(w, id, id);
    ReceiverStep(e, w, w', id, View(w', id));
  }

  lemma Delivered(deliveries: seq<Delivery>, d: Delivery, id: MessageId)
    ensures DeliveriesOf(deliveries + [d], id) == DeliveriesOf(deliveries, id) + if d.id == id then [d.data] else []
  {
    assert (deliveries + [d])[..|deliveries|] == deliveries;
  }

  /** What TwoParty makes of handing out a message. */
  lemma ReceiveHandled(c: T.Config, v: T.System)
    requires c.Valid() && T.Reachable(c, v) && v.incoming.Some? && v.incoming.value.arrivals > 0 && !v.taken
    ensures T.Reachable(c, v.(taken := true,
                            deliveries := v.deliveries + [Bytes(v.incoming.value)]))
  {
    T.ReachableStep(c, v, T.Receive);
  }

  /** The application takes the message that has waited longest. */
  function Taking(w: World): World
    requires w.r.received != [] && w.r.received[0] in w.r.sched.msgs
  {
    var id := w.r.received[0];
    var m := w.r.sched.msgs[id];
    w.(r := w.r.(received := w.r.received[1..]), taken := w.taken + {id},
       deliveries := w.deliveries + [Delivery(id, Bytes(m))])
  }

  lemma TakingViews(w: World, x: MessageId)
    requires w.r.received != [] && w.r.received[0] in w.r.sched.msgs
    ensures var id := w.r.received[0];
            var m := w.r.sched.msgs[id];
            View(Taking(w), x) ==
            if x != id then View(w, x)
            else View(w, x).(taken := true, deliveries := View(w, x).deliveries + [Bytes(m)])
  {
    var id := w.r.received[0];
    var m := w.r.sched.msgs[id];
    Delivered(w.deliveries, Delivery(id, Bytes(m)), x);
  }

  lemma HandedOut(e: Ends, w: World)
    requires Inv(e, w) && w.r.received != [] && w.r.received[0] in w.r.sched.msgs
    ensures Inv(e, Taking(w))
  {
    var id, w' := w.r.received[0], Taking(w);
    KnownIsAsked(e, w, id);
    assert MessageInv(e, w, id) && id in w.r.received;
    ReceiveHandled(e.One(w.asked[id]), View(w, id));
    forall x ensures x != id ==> View(w', x) == View(w, x) {
      TakingViews(w, x);
    }
    TakingViews(w, id);
    R.ReceiveKeepsInv(e.Receiving(), w.r);
    ReceiverStep(e, w, w', id, View(w', id));
  }

  // ------------------------------------------------------------------ sending

  /** The view of a message that was just sent. */
  function ViewStarted(e: Ends, m: OutMessage): T.System {
    T.Init().(out := T.Tracked(m), net := {} + if |m.packets| == 1 then {m.DataPacket(e.u, 0)} else {})
  }

  /** What TwoParty makes of sending. */
  lemma SendHandled(e: Ends, data: seq<byte>, options: Options, priority: int)
    requires e.Valid() && 0 < |data|
    ensures var c, m := e.One(Request(data, options)), Started(Fragment(data, e.p), options, e.u, priority);
            T.Reachable(c, ViewStarted(e, m))
  {
    FirstStep(e.One(Request(data, options)), T.Send(priority));
  }

  lemma SendViews(e: Ends, w: World, data: seq<byte>, options: Options, priority: int, x: MessageId)
    requires e.Valid() && 0 < |data|
    requires var id := MessageId(e.transportId, w.s.nextSequence); id !in w.asked && View(w, id) == T.Init()
    ensures var id, w' := MessageId(e.transportId, w.s.nextSequence), Asked(e, w, data, options, priority);
            var m := Started(Fragment(data, e.p), options, e.u, priority);
            && w'.s.queue.msgs == w.s.queue.msgs[id := m] && w'.s.nextSequence == w.s.nextSequence + 1
            && View(w', x) == if x != id then View(w, x)
                              else ViewStarted(e, m)
  {
    var id, packets := MessageId(e.transportId, w.s.nextSequence), Fragment(data, e.p);
    Posted(w.net, id, if |packets| == 1 then {Started(packets, options, e.u, priority).DataPacket(e.u, 0)} else {}, x);
  }

  lemma FirstStep(c: T.Config, step: T.Step)
    requires c.Valid()
    ensures T.Safe(c, T.Init()) && T.Reachable(c, T.Next(c, T.Init(), step))
  {
    T.InitSafe(c);
    assert T.After(c, []) == T.Init();
    T.ReachableStep(c, T.Init(), step);
  }

  lemma Requested(e: Ends, w: World, data: seq<byte>, options: Options, priority: int)
    requires Inv(e, w) && 0 < |data|
    ensures Inv(e, Asked(e, w, data, options, priority))
  {
    var id, w' := MessageId(e.transportId, w.s.nextSequence), Asked(e, w, data, options, priority);
    var c := e.One(Request(data, options));
    T.FragmentsNonempty(c);
    S.StepKeepsInv(e.Sending(), w.s, S.SendMessage(Fragment(data, e.p), options, priority));
    assert MessageInv(e, w, id);
    SendHandled(e, data, options, priority);
    forall x ensures MessageInv(e, w', x) {
      assert MessageInv(e, w, x);
      SendViews(e, w, data, options, priority, x);
    }
  }

  // ------------------------------------------------------- the queue is served

  /** The packets of a message from an index on. */
  function DataRange(m: OutMessage, u: nat, from: nat, k: nat): set<Packet> {
    set i: nat | from <= i < from + k && i < |m.packets| :: m.DataPacket(u, i)
  }

  /** The sender's half of a message after sending `k` packets. */
  function OutSent(m: OutMessage, k: nat): T.OutSide
    requires 0 <= m.packetsSent && m.packetsSent + k <= |m.packets|
  {
    var n := TransmittedTimes(m, k);
    if 0 < k && n.status == SENT && !n.held then T.Gone else T.Tracked(n)
  }

  /** The view of a message after sending `k` packets. */
  function ViewSent(u: nat, v: T.System, m: OutMessage, k: nat): T.System
    requires 0 <= m.packetsSent && m.packetsSent + k <= |m.packets|
  {
    v.(out := OutSent(m, k), net := v.net + DataRange(m, u, m.packetsSent, k))
  }

  lemma OutSentSplits(m: OutMessage, k: nat)
    requires 1 < k && 0 <= m.packetsSent && m.packetsSent + k <= |m.packets| && m.status == IN_PROGRESS
    ensures OutSent(m, 1) == T.Tracked(Transmitted(m)) && Transmitted(m).status == IN_PROGRESS
    ensures OutSent(m, k) == OutSent(Transmitted(m), k - 1)
  {
    assert TransmittedTimes(m, 1) == TransmittedTimes(Transmitted(m), 0);
  }

  lemma DataRangeSplits(m: OutMessage, u: nat, net: set<Packet>, k: nat)
    requires 1 < k && 0 <= m.packetsSent && m.packetsSent + k <= |m.packets|
    ensures net + DataRange(m, u, m.packetsSent, k) ==
            net + DataRange(m, u, m.packetsSent, 1) + DataRange(Transmitted(m), u, m.packetsSent + 1, k - 1)
  {
    var from, t := m.packetsSent, Transmitted(m);
    assert forall i: nat | i < |m.packets| :: t.DataPacket(u, i) == m.DataPacket(u, i);
    forall p
      ensures p in DataRange(m, u, from, k) <==> p in DataRange(m, u, from, 1) || p in DataRange(t, u, from + 1, k - 1)
    {
      if p in DataRange(m, u, from, k) {
        var i: nat :| from <= i < from + k && i < |m.packets| && p == m.DataPacket(u, i);
      }
    }
  }

  /** Sending `k` packets is sending one and then the others. */
  lemma ViewSentSplits(u: nat, v: T.System, m: OutMessage, k: nat)
    requires 1 < k && 0 <= m.packetsSent && m.packetsSent + k <= |m.packets| && m.status == IN_PROGRESS
    ensures ViewSent(u, v, m, k) == ViewSent(u, ViewSent(u, v, m, 1), Transmitted(m), k - 1)
    ensures ViewSent(u, v, m, 1).out == T.Tracked(Transmitted(m)) && Transmitted(m).status == IN_PROGRESS
  {
    OutSentSplits(m, k);
    DataRangeSplits(m, u, v.net, k);
  }

  lemma TransmitNext(c: T.Config, v: T.System, m: OutMessage)
    requires c.Valid() && T.Safe(c, v) && v.out == T.Tracked(m) && m.status == IN_PROGRESS
    requires 0 <= m.packetsSent < m.packetsGranted <= |m.packets|
    ensures T.Next(c, v, T.Transmit) == ViewSent(c.u, v, m, 1)
  {
    OneSent(m, c.u);
  }

  lemma OneSent(m: OutMessage, u: nat)
    requires 0 <= m.packetsSent < |m.packets|
    ensures TransmittedTimes(m, 1) == Transmitted(m)
    ensures DataRange(m, u, m.packetsSent, 1) == {m.DataPacket(u, m.packetsSent)}
  {
    assert TransmittedTimes(m, 1) == TransmittedTimes(Transmitted(m), 0);
  }

  lemma TransmitHandled(c: T.Config, v: T.System, m: OutMessage)
    requires c.Valid() && T.Reachable(c, v) && v.out == T.Tracked(m) && m.status == IN_PROGRESS
    requires 0 <= m.packetsSent < m.packetsGranted <= |m.packets|
    ensures T.Reachable(c, ViewSent(c.u, v, m, 1))
  {
    T.ReachableStep(c, v, T.Transmit);
    TransmitNext(c, v, m);
  }

  /** Sending several packets in a row is several steps of TwoParty. */
  lemma {:induction false} TransmitRun(c: T.Config, v: T.System, m: OutMessage, k: nat)
    requires c.Valid() && T.Reachable(c, v) && v.out == T.Tracked(m) && m.status == IN_PROGRESS && 0 < k
    requires 0 <= m.packetsSent && m.packetsSent + k <= m.packetsGranted <= |m.packets|
    ensures T.Reachable(c, ViewSent(c.u, v, m, k))
    decreases k
  {
    TransmitHandled(c, v, m);
    if k > 1 {
      ViewSentSplits(c.u, v, m, k);
      TransmitRun(c, ViewSent(c.u, v, m, 1), Transmitted(m), k - 1);
    }
  }

  /** The mail of a message holds the packets it sent. */
  lemma MailOfOne(msgs: map<MessageId, OutMessage>, u: nat, sent: seq<Sent>, id: MessageId, m: OutMessage,
                  r: OutMessage)
    requires id in msgs && msgs[id] == m && 0 <= m.packetsSent && SentInARow(m, r, IndicesOf(sent, id))
    ensures PacketsOf(MailOf(msgs, u, sent), id) == DataRange(m, u, m.packetsSent, |IndicesOf(sent, id)|)
  {
    var indices, from := IndicesOf(sent, id), m.packetsSent;
    forall i: nat ensures IsSent(sent, id, i) <==> from <= i < from + |indices| {
      IndicesMember(sent, id, i);
      assert from <= i < from + |indices| ==> indices[i - from] == i;
    }
    var packets := PacketsOf(MailOf(msgs, u, sent), id);
    forall p | p in packets ensures p in DataRange(m, u, from, |indices|) {
      var x :| x in sent && x.id == id && x.index < |m.packets| && p == m.DataPacket(u, x.index);
      assert IsSent(sent, id, x.index);
    }
    forall p | p in DataRange(m, u, from, |indices|) ensures p in packets {
      var i: nat :| from <= i < from + |indices| && i < |m.packets| && p == m.DataPacket(u, i);
      assert IsSent(sent, id, i);
      assert Mail(id, p) in MailOf(msgs, u, sent);
    }
  }

  lemma NoMail(msgs: map<MessageId, OutMessage>, u: nat, sent: seq<Sent>, id: MessageId)
    requires id !in msgs
    ensures PacketsOf(MailOf(msgs, u, sent), id) == {}
  {
  }

  /** How many packets of a message the queue sends, and what becomes of it. */
  lemma SentOf(e: Ends, s: S.SenderState, queued: nat, r: Outcome, id: MessageId) returns (k: nat)
    requires e.Valid() && S.Inv(e.Sending(), s) && s.sendReady && id in s.queue.msgs
    requires r == Srpt(s.queue, queued, e.limit, e.header)
    ensures var m := s.queue.msgs[id];
            && id in r.queue.msgs && k == |IndicesOf(r.sent, id)|
            && SentInARow(m, r.queue.msgs[id], IndicesOf(r.sent, id))
            && 0 <= m.packetsSent && m.packetsSent + k <= |m.packets| && r.queue.msgs[id] == TransmittedTimes(m, k)
            && (0 < k ==> m.status == IN_PROGRESS && m.packetsSent + k <= m.packetsGranted <= |m.packets|)
  {
    var m := s.queue.msgs[id];
    assert m.Valid();
    SrptPerMessage(s.queue, queued, e.limit, e.header, r, id);
    SrptKeepsInv(s.queue, queued, e.limit, e.header, r);
    k := |IndicesOf(r.sent, id)|;
    if m.status != IN_PROGRESS {
      UnqueuedUnsent(s.queue, queued, e.limit, e.header, r, id);
    } else {
      assert r.queue.msgs[id].Valid();
    }
  }

  /** A message is pruned exactly if it was sent completely and released. */
  lemma PrunedOf(s: S.SenderState, r: Outcome, id: MessageId, k: nat)
    requires SentOnly(s.queue.msgs, r.queue.msgs) && id in s.queue.msgs && id in r.queue.msgs
    requires 0 <= s.queue.msgs[id].packetsSent && s.queue.msgs[id].packetsSent + k <= |s.queue.msgs[id].packets|
    requires r.queue.msgs[id] == TransmittedTimes(s.queue.msgs[id], k) &&
             (0 < k ==> s.queue.msgs[id].status == IN_PROGRESS)
    ensures var after := S.Pruned(s.queue.msgs, r.queue.msgs);
            OutSent(s.queue.msgs[id], k) == if id in after then T.Tracked(after[id]) else T.Gone
  {
  }

  lemma ServedViews(e: Ends, w: World, queued: nat, r: Outcome, id: MessageId, k: nat)
    requires e.Valid() && w.s.sendReady && id in w.s.queue.msgs && id in w.asked
    requires r == Srpt(w.s.queue, queued, e.limit, e.header) && id in r.queue.msgs
    requires SentOnly(w.s.queue.msgs, r.queue.msgs)
    requires var m := w.s.queue.msgs[id];
             && k == |IndicesOf(r.sent, id)| && SentInARow(m, r.queue.msgs[id], IndicesOf(r.sent, id))
             && 0 <= m.packetsSent && m.packetsSent + k <= |m.packets| && r.queue.msgs[id] == TransmittedTimes(m, k)
             && (0 < k ==> m.status == IN_PROGRESS)
    ensures View(ServedWorld(e, w, queued), id) == ViewSent(e.u, View(w, id), w.s.queue.msgs[id], k)
  {
    PrunedOf(w.s, r, id, k);
    ServedNet(w.net, w.s.queue.msgs, e.u, r, id, k);
  }

  lemma ServedNet(net: set<Mail>, msgs: map<MessageId, OutMessage>, u: nat, r: Outcome, id: MessageId, k: nat)
    requires id in msgs && id in r.queue.msgs && k == |IndicesOf(r.sent, id)|
    requires 0 <= msgs[id].packetsSent && SentInARow(msgs[id], r.queue.msgs[id], IndicesOf(r.sent, id))
    ensures PacketsOf(net + MailOf(msgs, u, r.sent), id) ==
            PacketsOf(net, id) + DataRange(msgs[id], u, msgs[id].packetsSent, k)
  {
    MailOfOne(msgs, u, r.sent, id, msgs[id], r.queue.msgs[id]);
    PacketsOfBoth(net, MailOf(msgs, u, r.sent), id);
  }

  /** The world after `trySend`. */
  function ServedWorld(e: Ends, w: World, queued: nat): World
    requires e.Sending().Valid()
  {
    w.(s := S.Step(e.Sending(), w.s, S.TrySend(queued)),
       net := w.net + MailOf(w.s.queue.msgs, e.u, SentBy(e, w, queued)))
  }

  /** Sending any number of packets, or none. */
  lemma ReachSent(c: T.Config, v: T.System, m: OutMessage, k: nat)
    requires c.Valid() && T.Reachable(c, v) && v.out == T.Tracked(m)
    requires 0 <= m.packetsSent && m.packetsSent + k <= |m.packets|
    requires 0 < k ==> m.status == IN_PROGRESS && m.packetsSent + k <= m.packetsGranted <= |m.packets|
    ensures T.Reachable(c, ViewSent(c.u, v, m, k))
  {
    if k == 0 {
      assert v.net + DataRange(m, c.u, m.packetsSent, 0) == v.net;
    } else {
      TransmitRun(c, v, m, k);
    }
  }

  lemma ServedMessage(e: Ends, w: World, queued: nat, id: MessageId)
    requires Sound(e, w) && MessageInv(e, w, id) && w.s.sendReady && id in w.s.queue.msgs
    ensures MessageInv(e, ServedWorld(e, w, queued), id)
  {
    var r := Srpt(w.s.queue, queued, e.limit, e.header);
    var k := SentOf(e, w.s, queued, r, id);
    SrptSentOnly(w.s.queue, queued, e.limit, e.header, r);
    ServedViews(e, w, queued, r, id, k);
    ReachSent(e.One(w.asked[id]), View(w, id), w.s.queue.msgs[id], k);
    ServedConcerned(e, w, queued, id, k);
  }

  lemma ServedConcerned(e: Ends, w: World, queued: nat, id: MessageId, k: nat)
    requires e.Valid() && MessageInv(e, w, id) && id in w.s.queue.msgs && id in w.asked
    requires var m := w.s.queue.msgs[id]; 0 <= m.packetsSent && m.packetsSent + k <= |m.packets|
    requires View(ServedWorld(e, w, queued), id) == ViewSent(e.u, View(w, id), w.s.queue.msgs[id], k)
    requires T.Reachable(e.One(w.asked[id]), ViewSent(e.u, View(w, id), w.s.queue.msgs[id], k))
    ensures MessageInv(e, ServedWorld(e, w, queued), id)
  {
  }

  /** A message the sender does not track gets no packets. */
  lemma UnservedMessage(e: Ends, w: World, queued: nat, id: MessageId)
    requires Inv(e, w) && w.s.sendReady && id !in w.s.queue.msgs
    ensures MessageInv(e, ServedWorld(e, w, queued), id)
  {
    var r, w' := Srpt(w.s.queue, queued, e.limit, e.header), ServedWorld(e, w, queued);
    assert MessageInv(e, w, id);
    SrptSentOnly(w.s.queue, queued, e.limit, e.header, r);
    NoMail(w.s.queue.msgs, e.u, r.sent, id);
    PacketsOfBoth(w.net, MailOf(w.s.queue.msgs, e.u, r.sent), id);
    Unconcerned(e, w, w', id);
  }

  lemma Served(e: Ends, w: World, queued: nat)
    requires Inv(e, w)
    ensures Inv(e, ServedWorld(e, w, queued))
  {
    var w' := ServedWorld(e, w, queued);
    S.StepKeepsInv(e.Sending(), w.s, S.TrySend(queued));
    if w.s.sendReady {
      forall id ensures MessageInv(e, w', id) {
        assert MessageInv(e, w, id);
        if id in w.s.queue.msgs {
          ServedMessage(e, w, queued, id);
        } else {
          UnservedMessage(e, w, queued, id);
        }
      }
    } else {
      assert w.net + MailOf(w.s.queue.msgs, e.u, []) == w.net;
      assert w' == w;
    }
  }

  // ------------------------------------------------------------- a round of grants

  lemma {:induction false} GrantsMember(before: Messages, visits: seq<Visit>, policy: Scheduled, g: GrantSent)
    requires forall v | v in visits :: v.id in before
    ensures g in GrantsOf(before, visits, policy) <==> exists v :: v in visits && g in GrantFor(before[v.id], v, policy)
  {
    if visits != [] {
      var most, last := visits[..|visits| - 1], visits[|visits| - 1];
      GrantsMember(before, most, policy, g);
      assert visits == most + [last];
    }
  }

  /** No grant for a message leaves what was issued to it. */
  lemma {:induction false} IssuedOther(issued: map<MessageId, nat>, grants: seq<GrantSent>, id: MessageId)
    requires forall g | g in grants :: g.id != id
    ensures IssuedOf(IssuedBy(issued, grants), id) == IssuedOf(issued, id)
  {
    if grants != [] {
      IssuedOther(issued, grants[..|grants| - 1], id);
    }
  }

  /** The grants before a visit are for other messages. */
  lemma EarlierGrants(before: Messages, visits: seq<Visit>, policy: Scheduled, n: nat, g: GrantSent)
    requires (forall w | w in visits :: w.id in before) && NoDupIds(visits) && n < |visits|
    requires forall w | w in visits[..n] :: w.id in before
    requires g in GrantsOf(before, visits[..n], policy)
    ensures g.id != visits[n].id
  {
    GrantsMember(before, visits[..n], policy, g);
    var w :| w in visits[..n] && g in GrantFor(before[w.id], w, policy);
    var k :| 0 <= k < n && visits[k] == w;
  }

  /** At most one grant for each message. */
  predicate NoDupGrants(grants: seq<GrantSent>) { forall i, j | 0 <= i < j < |grants| :: grants[i].id != grants[j].id }

  lemma {:induction false} GrantsDistinct(before: Messages, visits: seq<Visit>, policy: Scheduled)
    requires (forall w | w in visits :: w.id in before) && NoDupIds(visits)
    ensures NoDupGrants(GrantsOf(before, visits, policy))
  {
    if visits != [] {
      var n := |visits| - 1;
      assert forall w | w in visits[..n] :: w in visits;
      GrantsDistinct(before, visits[..n], policy);
      var grants := GrantsOf(before, visits[..n], policy);
      forall i | 0 <= i < |grants| ensures grants[i].id != visits[n].id {
        EarlierGrants(before, visits, policy, n, grants[i]);
      }
    }
  }

  /** One grant for a message raises what was issued to it. */
  lemma {:induction false} IssuedAt(issued: map<MessageId, nat>, grants: seq<GrantSent>, k: nat)
    requires k < |grants| && NoDupGrants(grants) && 0 <= grants[k].limit
    ensures IssuedOf(IssuedBy(issued, grants), grants[k].id) == Max(IssuedOf(issued, grants[k].id), grants[k].limit)
  {
    var n := |grants| - 1;
    if k == n {
      IssuedOther(issued, grants[..n], grants[n].id);
    } else {
      IssuedAt(issued, grants[..n], k);
    }
  }

  lemma IssuedOne(issued: map<MessageId, nat>, before: Messages, visits: seq<Visit>, policy: Scheduled, v: Visit)
    requires (forall w | w in visits :: w.id in before) && v in visits && NoDupIds(visits) &&
             GrantDue(before[v.id], policy)
    requires 0 <= Granted(before[v.id], policy, v.priority).bytesGranted
    ensures IssuedOf(IssuedBy(issued, GrantsOf(before, visits, policy)), v.id) ==
            Max(IssuedOf(issued, v.id), Granted(before[v.id], policy, v.priority).bytesGranted)
  {
    var grants, g := GrantsOf(before, visits, policy), GrantFor(before[v.id], v, policy)[0];
    GrantsMember(before, visits, policy, g);
    GrantsDistinct(before, visits, policy);
    var k :| 0 <= k < |grants| && grants[k] == g;
    IssuedAt(issued, grants, k);
  }

  lemma GrantMailOf(before: Messages, visits: seq<Visit>, policy: Scheduled, v: Visit)
    requires (forall w | w in visits :: w.id in before) && v in visits && NoDupIds(visits)
    requires GrantDue(before[v.id], policy) ==> 0 <= Granted(before[v.id], policy, v.priority).bytesGranted
    ensures PacketsOf(GrantMail(GrantsOf(before, visits, policy)), v.id) ==
            if GrantDue(before[v.id], policy)
            then {Grant(Granted(before[v.id], policy, v.priority).bytesGranted, v.priority)} else {}
  {
    var grants := GrantsOf(before, visits, policy);
    forall g ensures g in grants && g.id == v.id <==> g in GrantFor(before[v.id], v, policy) {
      GrantsMember(before, visits, policy, g);
      if g in grants && g.id == v.id {
        var w :| w in visits && g in GrantFor(before[w.id], w, policy);
        SameVisit(visits, v, w);
      }
    }
    if GrantDue(before[v.id], policy) {
      var g := GrantSent(v.id, Granted(before[v.id], policy, v.priority).bytesGranted, v.priority);
      assert g in grants;
      assert Mail(g.id, Grant(g.limit, g.priority)) in GrantMail(grants);
    }
  }

  lemma SameVisit(visits: seq<Visit>, v: Visit, w: Visit)
    requires NoDupIds(visits) && v in visits && w in visits && v.id == w.id
    ensures v == w
  {
    var i :| 0 <= i < |visits| && visits[i] == v;
    var j :| 0 <= j < |visits| && visits[j] == w;
    assert i == j;
  }

  /** A message no visit went to gets no grant. */
  lemma NoGrant(issued: map<MessageId, nat>, before: Messages, visits: seq<Visit>, policy: Scheduled, id: MessageId)
    requires (forall w | w in visits :: w.id in before && w.id != id)
    ensures PacketsOf(GrantMail(GrantsOf(before, visits, policy)), id) == {}
    ensures IssuedOf(IssuedBy(issued, GrantsOf(before, visits, policy)), id) == IssuedOf(issued, id)
  {
    var grants := GrantsOf(before, visits, policy);
    forall g | g in grants ensures g.id != id {
      GrantsMember(before, visits, policy, g);
    }
    IssuedOther(issued, grants, id);
  }

  /** A message that was visited but had enough outstanding gets no grant, either. */
  lemma NoneDue(issued: map<MessageId, nat>, before: Messages, visits: seq<Visit>, policy: Scheduled, v: Visit)
    requires (forall w | w in visits :: w.id in before) && v in visits && NoDupIds(visits) &&
             !GrantDue(before[v.id], policy)
    ensures IssuedOf(IssuedBy(issued, GrantsOf(before, visits, policy)), v.id) == IssuedOf(issued, v.id)
  {
    var grants := GrantsOf(before, visits, policy);
    forall g | g in grants ensures g.id != v.id {
      GrantsMember(before, visits, policy, g);
      var w :| w in visits && g in GrantFor(before[w.id], w, policy);
      if w.id == v.id { SameVisit(visits, v, w); }
    }
    IssuedOther(issued, grants, v.id);
  }

  /** What TwoParty makes of the grant loop's visit. */
  lemma GrantHandled(c: T.Config, v: T.System, priority: int)
    requires c.Valid() && T.Reachable(c, v) && v.incoming.Some? && v.incoming.value.peer.Some?
    ensures var m := v.incoming.value;
            var g := Granted(m, c.policy, priority);
            && 0 <= g.bytesGranted
            && (GrantDue(m, c.policy) ==>
                  T.Reachable(c, v.(incoming := Some(g), net := v.net + {Grant(g.bytesGranted, priority)},
                                  issued := Max(v.issued, g.bytesGranted))))
            && (!GrantDue(m, c.policy) ==> T.Reachable(c, v.(incoming := Some(g))))
  {
    T.ReachableStep(c, v, T.GrantStep(priority));
    GrantedKeepsValid(c.p, c.policy, v.incoming.value, priority);
  }

  /** What a round does to the world, said without its walk. */
  ghost predicate Regranted(e: Ends, w: World, w': World, visits: seq<Visit>) {
    R.Rounded(e.Receiving(), w.r, w'.r.sched, visits) && GrantsGoOut(e, w, w', visits)
  }

  /** The view of a message after the visit. */
  function ViewGranted(v: T.System, policy: Scheduled, m: InMessage, priority: int): T.System {
    var g := Granted(m, policy, priority);
    if GrantDue(m, policy) && 0 <= g.bytesGranted
    then v.(incoming := Some(g), net := v.net + {Grant(g.bytesGranted, priority)},
            issued := Max(v.issued, g.bytesGranted))
    else v.(incoming := Some(g))
  }

  lemma VisitedNet(net: set<Mail>, before: Messages, visits: seq<Visit>, policy: Scheduled, v: Visit)
    requires (forall w | w in visits :: w.id in before) && v in visits && NoDupIds(visits)
    requires 0 <= Granted(before[v.id], policy, v.priority).bytesGranted
    ensures PacketsOf(net + GrantMail(GrantsOf(before, visits, policy)), v.id) ==
            if GrantDue(before[v.id], policy)
            then PacketsOf(net, v.id) + {Grant(Granted(before[v.id], policy, v.priority).bytesGranted, v.priority)}
            else PacketsOf(net, v.id)
  {
    GrantMailOf(before, visits, policy, v);
    PacketsOfBoth(net, GrantMail(GrantsOf(before, visits, policy)), v.id);
  }

  lemma VisitedIssued(issued: map<MessageId, nat>, before: Messages, visits: seq<Visit>, policy: Scheduled, v: Visit)
    requires (forall w | w in visits :: w.id in before) && v in visits && NoDupIds(visits)
    requires 0 <= Granted(before[v.id], policy, v.priority).bytesGranted
    ensures IssuedOf(IssuedBy(issued, GrantsOf(before, visits, policy)), v.id) ==
            if GrantDue(before[v.id], policy)
            then Max(IssuedOf(issued, v.id), Granted(before[v.id], policy, v.priority).bytesGranted)
            else IssuedOf(issued, v.id)
  {
    if GrantDue(before[v.id], policy) {
      IssuedOne(issued, before, visits, policy, v);
    } else {
      NoneDue(issued, before, visits, policy, v);
    }
  }

  lemma VisitedView(e: Ends, w: World, w': World, visits: seq<Visit>, v: Visit)
    requires GrantsGoOut(e, w, w', visits) && v in visits && NoDupIds(visits)
    requires GrantedOnce(w.r.sched.msgs, w'.r.sched.msgs, visits, e.policy)
    requires 0 <= Granted(w.r.sched.msgs[v.id], e.policy, v.priority).bytesGranted
    ensures View(w', v.id) == ViewGranted(View(w, v.id), e.policy, w.r.sched.msgs[v.id], v.priority)
  {
    VisitedNet(w.net, w.r.sched.msgs, visits, e.policy, v);
    VisitedIssued(w.issued, w.r.sched.msgs, visits, e.policy, v);
  }

  lemma VisitedMessage(e: Ends, w: World, w': World, visits: seq<Visit>, v: Visit)
    requires Sound(e, w) && MessageInv(e, w, v.id) && v in visits && NoDupIds(visits) && GrantsGoOut(e, w, w', visits)
    requires GrantedOnce(w.r.sched.msgs, w'.r.sched.msgs, visits, e.policy) && w.r.sched.msgs[v.id].peer.Some?
    ensures MessageInv(e, w', v.id)
  {
    var id := v.id;
    assert View(w, id).incoming.Some?;
    GrantHandled(e.One(w.asked[id]), View(w, id), v.priority);
    VisitedView(e, w, w', visits, v);
    Concerned(e, w, w', id, ViewGranted(View(w, id), e.policy, w.r.sched.msgs[id], v.priority));
  }

  lemma UnvisitedMessage(e: Ends, w: World, w': World, visits: seq<Visit>, id: MessageId)
    requires e.Valid() && MessageInv(e, w, id) && GrantsGoOut(e, w, w', visits) && forall v | v in visits :: v.id != id
    requires GrantedOnce(w.r.sched.msgs, w'.r.sched.msgs, visits, e.policy)
    ensures MessageInv(e, w', id)
  {
    NoGrant(w.issued, w.r.sched.msgs, visits, e.policy, id);
    PacketsOfBoth(w.net, GrantMail(GrantsOf(w.r.sched.msgs, visits, e.policy)), id);
    Unconcerned(e, w, w', id);
  }

  lemma Granting(e: Ends, w: World, w': World, visits: seq<Visit>)
    requires Inv(e, w) && Regranted(e, w, w', visits)
    ensures Inv(e, w')
  {
    forall id ensures MessageInv(e, w', id) {
      assert MessageInv(e, w, id);
      if v :| v in visits && v.id == id {
        VisitedMessage(e, w, w', visits, v);
      } else {
        UnvisitedMessage(e, w, w', visits, id);
      }
    }
  }

  // --------------------------------------------------------------- whole runs

  lemma InitInv(e: Ends)
    requires e.Valid()
    ensures Inv(e, Init())
  {
    forall id ensures MessageInv(e, Init(), id) {
      assert PacketsOf({}, id) == {};
    }
  }

  lemma NextKeepsInv(e: Ends, w: World, event: Event, w': World)
    requires Inv(e, w) && Next(e, w, event, w')
    ensures Inv(e, w')
  {
    match event
    case Send(data, options, priority) => Requested(e, w, data, options, priority);
    case Deliver(mail, priority) => Arrival(e, w, mail.id, mail.packet, priority);
    case TrySend(queued) => Served(e, w, queued);
    case Cancel(id) => CancelOrRelease(e, w, id);
    case ReleaseOut(id) => CancelOrRelease(e, w, id);
    case TimeoutOut(id) => SenderTimeout(e, w, id);
    case PingTimeout(id) => PingSent(e, w, id);
    case Round =>
      var spots, visits :| GrantRound(e, w, w', spots, visits);
      R.RoundIsRounded(e.Receiving(), w.r, w'.r.sched, spots, visits);
      Granting(e, w, w', visits);
    case ResendTimeout(id) => ResendsSent(e, w, id);
    case TimeoutIn(id) => ReceiverTimeout(e, w, id);
    case Receive => HandedOut(e, w);
    case Acknowledge(id) => ReplySent(e, w, id, Done);
    case Fail(id) => ReplySent(e, w, id, Error);
    case ReleaseIn(id) => Released(e, w, id);
  }

  /** Events one after the other, from nothing. */
  ghost predicate Run(e: Ends, worlds: seq<World>, events: seq<Event>) {
    && e.Valid() && |worlds| == |events| + 1 && worlds[0] == Init()
    && forall k {:trigger events[k]} | 0 <= k < |events| ::
         Sound(e, worlds[k]) ==> Next(e, worlds[k], events[k], worlds[k + 1])
  }

  /** In every run both ends keep their invariants, and each message is at the end of a run of TwoParty. */
  lemma {:induction false} RunKeepsInv(e: Ends, worlds: seq<World>, events: seq<Event>, n: nat)
    requires Run(e, worlds, events) && n <= |events|
    ensures Inv(e, worlds[n])
  {
    if n == 0 {
      InitInv(e);
    } else {
      RunKeepsInv(e, worlds, events, n - 1);
      assert Next(e, worlds[n - 1], events[n - 1], worlds[n]);
      NextKeepsInv(e, worlds[n - 1], events[n - 1], worlds[n]);
    }
  }

  lemma ReachableDelivered(c: T.Config, v: T.System)
    requires c.Valid() && T.Reachable(c, v)
    ensures v.out.Tracked? && v.out.m.status == COMPLETED ==> v.deliveries != []
    ensures forall d | d in v.deliveries :: d == c.data
  {
    var steps :| T.After(c, steps) == v;
    T.CompletedMeansDelivered(c, steps);
  }

  lemma InvDelivered(e: Ends, w: World, id: MessageId)
    requires Inv(e, w)
    ensures id in w.s.queue.msgs && w.s.queue.msgs[id].status == COMPLETED ==> DeliveriesOf(w.deliveries, id) != []
    ensures DeliveriesOf(w.deliveries, id) != [] ==> id in w.asked
    ensures forall d | d in DeliveriesOf(w.deliveries, id) :: id in w.asked && d == w.asked[id].data
  {
    assert MessageInv(e, w, id);
    if id in w.asked {
      ReachableDelivered(e.One(w.asked[id]), View(w, id));
    }
  }

  /**
   * In every run of a sender and a receiver with any number of messages: a COMPLETED message
   * was handed to the receiving application, and all it is ever handed under an id is, byte for byte,
   * what was asked to be sent under that id.
   */
  lemma EveryCompletedMessageWasDelivered(e: Ends, worlds: seq<World>, events: seq<Event>, n: nat, id: MessageId)
    requires Run(e, worlds, events) && n <= |events|
    ensures var w := worlds[n];
            && (id in w.s.queue.msgs && w.s.queue.msgs[id].status == COMPLETED ==>
                exists d :: d in w.deliveries && d.id == id)
            && (forall d | d in w.deliveries && d.id == id :: id in w.asked && d.data == w.asked[id].data)
  {
    var w := worlds[n];
    RunKeepsInv(e, worlds, events, n);
    InvDelivered(e, w, id);
    DeliveriesMember(w.deliveries, id);
    if DeliveriesOf(w.deliveries, id) != [] {
      assert Delivery(id, DeliveriesOf(w.deliveries, id)[0]) in w.deliveries;
    }
    forall d | d in w.deliveries && d.id == id ensures id in w.asked && d.data == w.asked[id].data {
      assert Delivery(id, d.data) == d && d.data in DeliveriesOf(w.deliveries, id);
    }
  }

  lemma {:induction false} DeliveriesMember(deliveries: seq<Delivery>, id: MessageId)
    ensures forall x :: x in DeliveriesOf(deliveries, id) <==> Delivery(id, x) in deliveries
  {
    if deliveries != [] {
      var most, last := deliveries[..|deliveries| - 1], deliveries[|deliveries| - 1];
      DeliveriesMember(most, id);
      assert deliveries == most + [last];
    }
  }

  /** In every run no message sends beyond its unscheduled packets and the largest limit granted to it. */
  lemma EveryMessageStaysGranted(e: Ends, worlds: seq<World>, events: seq<Event>, n: nat, mail: Mail)
    requires Run(e, worlds, events) && n <= |events| && mail in worlds[n].net && mail.packet.Data?
    ensures var w := worlds[n];
            && mail.id in w.asked
            && (0 < e.u || 1 < CeilDiv(|w.asked[mail.id].data|, e.p) ==>
                  mail.packet.index < Max(Min(e.u, CeilDiv(|w.asked[mail.id].data|, e.p)),
                                          CeilDiv(IssuedOf(w.issued, mail.id), e.p)))
  {
    RunKeepsInv(e, worlds, events, n);
    MailIsAsked(e, worlds[n], mail.id, mail.packet);
    assert T.PacketSafe(e.One(worlds[n].asked[mail.id]), View(worlds[n], mail.id), mail.packet);
  }
}
