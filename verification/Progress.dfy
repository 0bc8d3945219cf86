/**
 * No run paints a message into a corner: as long as the application holds an unfinished message,
 * there is a way on from where the run stands to COMPLETED.
 */
module Progress {
  import opened Base
  import opened Reassembly
  import opened Protocol
  import opened TwoParty

  /** What comes after a state. */
  ghost function RunFrom(c: Config, s: System, steps: seq<Step>): (t: System)
    requires c.Valid() && Safe(c, s)
    ensures Safe(c, t)
    decreases |steps|
  {
    if steps == [] then s
    else
      StepSafe(c, s, steps[0]);
      RunFrom(c, Next(c, s, steps[0]), steps[1..])
  }

  predicate Completed(s: System) { s.out.Tracked? && s.out.m.status == COMPLETED }

  ghost predicate CanComplete(c: Config, s: System)
    requires c.Valid() && Safe(c, s)
  {
    exists steps :: Completed(RunFrom(c, s, steps))
  }

  lemma RunFromCons(c: Config, s: System, step: Step, steps: seq<Step>)
    requires c.Valid() && Safe(c, s)
    ensures Safe(c, Next(c, s, step)) && RunFrom(c, s, [step] + steps) == RunFrom(c, Next(c, s, step), steps)
  {
    StepSafe(c, s, step);
    assert ([step] + steps)[1..] == steps;
  }

  lemma CanCompleteBy(c: Config, s: System, steps: seq<Step>)
    requires c.Valid() && Safe(c, s) && Completed(RunFrom(c, s, steps))
    ensures CanComplete(c, s)
  {
  }

  /** A way on from the next state is a way on from this one. */
  lemma StepBack(c: Config, s: System, step: Step)
    requires c.Valid() && Safe(c, s)
    ensures Safe(c, Next(c, s, step)) && (CanComplete(c, Next(c, s, step)) ==> CanComplete(c, s))
  {
    StepSafe(c, s, step);
    if CanComplete(c, Next(c, s, step)) {
      var steps :| Completed(RunFrom(c, Next(c, s, step), steps));
      RunFromCons(c, s, step, steps);
      CanCompleteBy(c, s, [step] + steps);
    }
  }

  // ------------------------------------------------- what a run leaves behind

  /** Whatever a message has sent is somewhere in the network, and it may send its unscheduled packets. */
  ghost predicate MessageKept(c: Config, m: OutMessage, net: set<Packet>)
    requires 0 < c.p
  {
    && m.packets == c.Packets()
    && (|m.packets| == 1 ==> m.DataPacket(c.u, 0) in net)
    && (1 < |m.packets| ==> Min(c.u, |m.packets|) <= m.packetsGranted)
    && forall i: nat | i < m.packetsSent && i < |m.packets| :: m.DataPacket(c.u, i) in net
  }

  ghost predicate Kept(c: Config, s: System)
    requires 0 < c.p
  {
    s.out.Tracked? ==> MessageKept(c, s.out.m, s.net)
  }

  lemma KeptGrows(c: Config, m: OutMessage, n: OutMessage, net: set<Packet>, more: set<Packet>)
    requires 0 < c.p && MessageKept(c, m, net) && net <= more
    requires n.packets == m.packets && n.packetsSent <= m.packetsSent && m.packetsGranted <= n.packetsGranted
    ensures MessageKept(c, n, more)
  {
    forall i: nat | i < n.packetsSent && i < |n.packets| ensures n.DataPacket(c.u, i) in more {
      assert m.DataPacket(c.u, i) in net;
    }
  }

  lemma QueuedKept(c: Config, m: OutMessage, net: set<Packet>, priority: int)
    requires 0 < c.p && m.packets == c.Packets() && 1 < |m.packets|
    ensures MessageKept(c, Queued(m, c.u, priority), net)
  {
  }

  lemma TransmittedKept(c: Config, m: OutMessage, net: set<Packet>)
    requires 0 < c.p && MessageKept(c, m, net) && 0 <= m.packetsSent < |m.packets|
    ensures MessageKept(c, Transmitted(m), net + {m.DataPacket(c.u, m.packetsSent)})
  {
    var t, more := Transmitted(m), net + {m.DataPacket(c.u, m.packetsSent)};
    forall i: nat | i < t.packetsSent && i < |t.packets| ensures t.DataPacket(c.u, i) in more {
      assert t.DataPacket(c.u, i) == m.DataPacket(c.u, i);
    }
  }

  lemma HandleKept(c: Config, s: System, packet: Packet, priority: int)
    requires c.Valid() && Safe(c, s) && Kept(c, s) && packet in s.net
    ensures Kept(c, Handle(c, s, packet, priority))
  {
    var t := Handle(c, s, packet, priority);
    if s.out.Tracked? {
      var m := s.out.m;
      if packet.Unknown? && Restarts(m) && 1 < |m.packets| {
        QueuedKept(c, m, t.net, priority);
      } else {
        KeptGrows(c, m, t.out.m, s.net, t.net);
      }
    }
  }

  lemma SendKept(c: Config, s: System, priority: int)
    requires c.Valid() && Safe(c, s) && Kept(c, s)
    ensures Kept(c, Next(c, s, Send(priority)))
  {
    FragmentsNonempty(c);
  }

  lemma TransmitKept(c: Config, s: System)
    requires c.Valid() && Safe(c, s) && Kept(c, s)
    ensures Kept(c, Next(c, s, Transmit))
  {
    if s.out.Tracked? && s.out.m.status == IN_PROGRESS && s.out.m.Ready() {
      TransmittedKept(c, s.out.m, s.net);
    }
  }

  /** The other steps of either side change neither the packets sent nor the limit. */
  lemma OtherStepKept(c: Config, s: System, step: Step)
    requires c.Valid() && Safe(c, s) && Kept(c, s) && !step.Send? && !step.Deliver? && !step.Transmit?
    ensures Kept(c, Next(c, s, step))
  {
    OtherStep(c, s, step);
    var t := Next(c, s, step);
    if t.out.Tracked? {
      KeptGrows(c, s.out.m, t.out.m, s.net, t.net);
    }
  }

  lemma OtherStep(c: Config, s: System, step: Step)
    requires c.Valid() && Safe(c, s) && !step.Send? && !step.Deliver? && !step.Transmit?
    ensures var t := Next(c, s, step);
            && s.net <= t.net
            && (t.out.Tracked? ==>
                  && s.out.Tracked? && t.out.m.packets == s.out.m.packets
                  && t.out.m.packetsSent == s.out.m.packetsSent && t.out.m.packetsGranted == s.out.m.packetsGranted)
  {
    NetGrows(c, s, step);
    if !step.Cancel? && !step.ReleaseOut? && !step.TimeoutOut? {
      ReceiverStep(c, s, step);
    }
  }

  lemma ReceiverStep(c: Config, s: System, step: Step)
    requires c.Valid() && Safe(c, s) && !step.Send? && !step.Deliver? && !step.Transmit?
    requires !step.Cancel? && !step.ReleaseOut? && !step.TimeoutOut?
    ensures Next(c, s, step).out == s.out
  {
  }

  lemma StepKept(c: Config, s: System, step: Step)
    requires c.Valid() && Safe(c, s) && Kept(c, s)
    ensures Kept(c, Next(c, s, step))
  {
    match step
    case Send(priority) => SendKept(c, s, priority);
    case Deliver(packet, priority) => if packet in s.net { HandleKept(c, s, packet, priority); }
    case Transmit => TransmitKept(c, s);
    case _ => OtherStepKept(c, s, step);
  }

  lemma {:induction false} RunKept(c: Config, steps: seq<Step>)
    requires c.Valid()
    ensures Kept(c, After(c, steps))
  {
    if steps != [] {
      RunKept(c, steps[..|steps| - 1]);
      StepKept(c, After(c, steps[..|steps| - 1]), steps[|steps| - 1]);
    }
  }

  // ------------------------------------------------------------ the way on

  /** The application holds a message that has not ended. */
  predicate Unfinished(s: System) {
    s.out.Tracked? && s.out.m.held && (s.out.m.status == IN_PROGRESS || s.out.m.status == SENT)
  }

  /** A state from which we look for a way on: its unscheduled packets the message may always send. */
  ghost predicate Alive(c: Config, s: System)
    requires c.Valid()
  {
    && Safe(c, s) && Unfinished(s)
    && (1 < |s.out.m.packets| ==> Min(c.u, |s.out.m.packets|) <= s.out.m.packetsGranted)
  }

  /** A state from which packets sent before may still arrive. */
  ghost predicate Live(c: Config, s: System)
    requires c.Valid()
  {
    Alive(c, s) && Kept(c, s)
  }

  /** `t` comes after `s`, what may still arrive then may still arrive, and a way on from it is one from `s`. */
  ghost predicate Onward(c: Config, s: System, t: System)
    requires c.Valid()
  {
    && Alive(c, s) && Alive(c, t) && (Kept(c, s) ==> Kept(c, t))
    && (CanComplete(c, t) ==> CanComplete(c, s))
  }

  /** A step that leaves the sender alone leaves the message alive. */
  lemma AliveStep(c: Config, s: System, step: Step)
    requires c.Valid() && Alive(c, s) && Next(c, s, step).out == s.out
    ensures Onward(c, s, Next(c, s, step))
  {
    StepBack(c, s, step);
    if Kept(c, s) {
      StepKept(c, s, step);
    }
  }

  /** The receiver holds the first `k` packets. */
  predicate Holding(s: System, k: nat) {
    s.incoming.Some? && forall i: nat | i < k :: i in s.incoming.value.packets
  }

  /** A packet of the message arrives. */
  lemma DataArrives(c: Config, s: System, k: nat)
    requires c.Valid() && Safe(c, s) && s.out.Tracked? && k < |s.out.m.packets| && s.out.m.DataPacket(c.u, k) in s.net
    ensures var d := s.out.m.DataPacket(c.u, k);
            var m := if s.incoming.Some? then s.incoming.value else NewMessage(c.p, c.source, d.totalLength, c.u);
            Next(c, s, Deliver(d, 0)) == s.(incoming := Some(OnData(m, k, d.payload)))
  {
  }

  /** A packet is stored beside the others, and nothing is granted meanwhile. */
  lemma OnDataHolds(m: InMessage, k: nat, payload: seq<byte>)
    ensures var t := OnData(m, k, payload);
            && (forall i :: i in t.packets <==> i == k || i in m.packets)
            && t.bytesGranted == m.bytesGranted && (m.state != Receiving ==> t.state != Receiving)
  {
  }

  /** The next packet arrives. */
  lemma GatherOne(c: Config, s: System, k: nat)
    requires c.Valid() && Alive(c, s) && k < |s.out.m.packets| && s.out.m.DataPacket(c.u, k) in s.net
    requires k == 0 || Holding(s, k)
    ensures var t := Next(c, s, Deliver(s.out.m.DataPacket(c.u, k), 0));
            && t == s.(incoming := t.incoming) && Holding(t, k + 1) && (Fresh(s) ==> Fresh(t))
            && Onward(c, s, t)
  {
    var d := s.out.m.DataPacket(c.u, k);
    DataArrives(c, s, k);
    var m := if s.incoming.Some? then s.incoming.value else NewMessage(c.p, c.source, d.totalLength, c.u);
    OnDataHolds(m, k, d.payload);
    AliveStep(c, s, Deliver(d, 0));
  }

  /** The first packets of the message arrive, one after the other. */
  lemma {:induction false} Gather(c: Config, s: System, k: nat) returns (t: System)
    requires c.Valid() && Alive(c, s) && 0 < k <= |s.out.m.packets|
    requires forall i: nat | i < k :: s.out.m.DataPacket(c.u, i) in s.net
    ensures t == s.(incoming := t.incoming) && Holding(t, k) && (Fresh(s) ==> Fresh(t))
    ensures Onward(c, s, t)
  {
    t := s;
    if k > 1 {
      t := Gather(c, s, k - 1);
    }
    GatherOne(c, t, k - 1);
    t := Next(c, t, Deliver(s.out.m.DataPacket(c.u, k - 1), 0));
  }

  lemma {:induction false} StoredBytesGrow(packets: map<nat, seq<byte>>, k: nat, l: nat)
    requires k <= l
    ensures StoredBytes(packets, k) <= StoredBytes(packets, l)
  {
    if k < l { StoredBytesGrow(packets, k, l - 1); }
  }

  /**
   * Exactly when a receiver that holds the first `k` packets of a longer message, and has been
   * served by the grant loop, has granted something beyond them.
   */
  lemma GrantsReachFurther(p: nat, policy: Scheduled, m: InMessage, priority: int, k: nat)
    requires PolicyOk(policy) && m.Valid(p, policy.maxScheduledBytes) && m.scheduled
    requires k < m.numExpectedPackets && forall i: nat | i < k :: i in m.packets
    ensures k < CeilDiv(Served(m, policy, priority).bytesGranted, p) <==>
            || m.peer.None? || k * p < m.bytesGranted
            || (GrantDue(m, policy) && (0 < policy.maxScheduledBytes || k * p < m.RecordedBytes()))
  {
    var g := Served(m, policy, priority);
    CeilDivLeast(m.messageLength, p, k);
    CeilDivLeast(g.bytesGranted, p, k);
    if m.peer.Some? {
      GrantedKeepsValid(p, policy, m, priority);
      StoredComplete(m.packets, m.messageLength, p, k);
      StoredBytesGrow(m.packets, k, m.numExpectedPackets);
      assert k * p <= m.RecordedBytes();
    }
  }

  /** A receiver that starts afresh, or has everything, is granting beyond what it holds. */
  lemma FreshGrantsReachFurther(p: nat, policy: Scheduled, m: InMessage, k: nat)
    requires PolicyOk(policy) && 0 < policy.maxScheduledBytes && m.Valid(p, policy.maxScheduledBytes) && m.scheduled
    requires 0 < k < m.numExpectedPackets && forall i: nat | i < k :: i in m.packets
    requires m.bytesGranted == 0 || m.state != Receiving
    ensures k < CeilDiv(Served(m, policy, 0).bytesGranted, p)
  {
    GrantsReachFurther(p, policy, m, 0, k);
    if m.peer.Some? {
      StoredAll(m.packets, m.messageLength, p);
      CompleteWhenAllStored(p, policy.maxScheduledBytes, m);
      StoredComplete(m.packets, m.messageLength, p, k);
      StoredBytesGrow(m.packets, k, m.numExpectedPackets);
      CeilDivLeast(m.messageLength, p, 0);
      MulMono(0, k, p);
      assert 0 < m.RecordedBytes();
    }
  }

  /** A receiver that is still waiting for packets gives up and hears of the message again. */
  ghost predicate Fresh(s: System) {
    s.incoming.Some? ==> s.incoming.value.bytesGranted == 0 || s.incoming.value.state != Receiving
  }

  lemma Refresh(c: Config, s: System) returns (t: System)
    requires c.Valid() && Alive(c, s)
    ensures t.out == s.out && t.net == s.net && Fresh(t) && Onward(c, s, t)
  {
    t := s;
    if !Fresh(s) {
      AliveStep(c, s, TimeoutIn);
      t := Next(c, s, TimeoutIn);
    }
  }

  /** The grant loop serves the message. */
  lemma Serve(c: Config, s: System) returns (t: System)
    requires c.Valid() && Alive(c, s) && s.incoming.Some?
    ensures t.out == s.out && t.incoming == Some(Served(s.incoming.value, c.policy, 0)) && Onward(c, s, t)
  {
    AliveStep(c, s, GrantStep(0));
    t := Next(c, s, GrantStep(0));
  }

  /** The sender asks, and the answer is on its way. */
  lemma Ask(c: Config, s: System) returns (t: System)
    requires c.Valid() && Alive(c, s) && s.out.m.status == IN_PROGRESS && !s.out.m.Ready() && s.incoming.Some?
    ensures t.out == s.out && t.incoming == s.incoming && 0 <= t.incoming.value.bytesGranted &&
            PingReply(t.incoming.value) in t.net
    ensures Onward(c, s, t)
  {
    AliveStep(c, s, PingTimeout);
    var a := Next(c, s, PingTimeout);
    AliveStep(c, a, Deliver(Ping, 0));
    t := Next(c, a, Deliver(Ping, 0));
  }

  /** A waiting sender can get a grant for its next packet. */
  lemma Unblock(c: Config, s: System) returns (t: System)
    requires c.Valid() && 0 < c.u && 0 < c.policy.maxScheduledBytes
    requires Live(c, s) && s.out.m.status == IN_PROGRESS && !s.out.m.Ready()
    ensures Live(c, t) && t.out.m.status == IN_PROGRESS && t.out.m.Ready() && t.out.m.packetsSent == s.out.m.packetsSent
    ensures CanComplete(c, t) ==> CanComplete(c, s)
  {
    var m := s.out.m;
    var k: nat := m.packetsSent;
    assert m.Valid() && 0 < k < |m.packets| && k == m.packetsGranted;
    forall i: nat | i < k ensures m.DataPacket(c.u, i) in s.net {
      assert MessageKept(c, m, s.net);
    }
    var again := Refresh(c, s);
    var a := Gather(c, again, k);
    var b := Serve(c, a);
    FreshGrantsReachFurther(c.p, c.policy, a.incoming.value, k);
    var d := Ask(c, b);
    t := TakeGrant(c, d, k);
  }

  /** The grant arrives. */
  lemma TakeGrant(c: Config, s: System, k: nat) returns (t: System)
    requires c.Valid() && Alive(c, s) && s.out.m.status == IN_PROGRESS && s.incoming.Some?
    requires s.out.m.packetsSent == k == s.out.m.packetsGranted && k < |s.out.m.packets|
    requires 0 <= s.incoming.value.bytesGranted && s.incoming.value.scheduled && PingReply(s.incoming.value) in s.net
    requires k < CeilDiv(s.incoming.value.bytesGranted, c.p)
    ensures t.out.Tracked? && t.out.m.status == IN_PROGRESS && t.out.m.Ready() && t.out.m.packetsSent == k
    ensures t.incoming == s.incoming && t.out.m.packets == s.out.m.packets && Onward(c, s, t)
  {
    var step := Deliver(PingReply(s.incoming.value), 0);
    StepBack(c, s, step);
    if Kept(c, s) {
      StepKept(c, s, step);
    }
    t := Next(c, s, step);
  }

  /** The receiving application takes a complete message and acknowledges it. */
  lemma Acknowledged(c: Config, s: System) returns (t: System)
    requires c.Valid() && Alive(c, s) && (s.taken || (s.incoming.Some? && s.incoming.value.arrivals > 0))
    ensures t.out == s.out && Done in t.net && Onward(c, s, t)
  {
    var a := s;
    if !s.taken {
      AliveStep(c, s, Receive);
      a := Next(c, s, Receive);
    }
    AliveStep(c, a, Acknowledge);
    t := Next(c, a, Acknowledge);
  }

  lemma DoneCompletes(c: Config, s: System)
    requires c.Valid() && Alive(c, s) && s.out.m.status == SENT && Done in s.net
    ensures CanComplete(c, s)
  {
    StepBack(c, s, Deliver(Done, 0));
    var t := Next(c, s, Deliver(Done, 0));
    assert Completed(RunFrom(c, t, []));
  }

  /** A message sent completely can complete. */
  lemma SentCompletes(c: Config, s: System)
    requires c.Valid() && Live(c, s) && s.out.m.status == SENT
    ensures CanComplete(c, s)
  {
    var a, n := s, |s.out.m.packets|;
    if !s.taken {
      forall i: nat | i < n ensures s.out.m.DataPacket(c.u, i) in s.net {
        assert MessageKept(c, s.out.m, s.net);
      }
      a := Gather(c, s, n);
      CompleteWhenAllStored(c.p, c.policy.maxScheduledBytes, a.incoming.value);
    }
    var b := Acknowledged(c, a);
    DoneCompletes(c, b);
  }

  /** A message that may send gets one packet further. */
  lemma SendOne(c: Config, s: System) returns (t: System)
    requires c.Valid() && Alive(c, s) && s.out.m.status == IN_PROGRESS && s.out.m.Ready()
    ensures t.out == Tracked(Transmitted(s.out.m)) && t.incoming == s.incoming
    ensures 0 <= s.out.m.packetsSent < |s.out.m.packets| && s.out.m.DataPacket(c.u, s.out.m.packetsSent) in t.net
    ensures Onward(c, s, t)
  {
    StepBack(c, s, Transmit);
    if Kept(c, s) {
      StepKept(c, s, Transmit);
    }
    t := Next(c, s, Transmit);
  }

  /** Grants can be had, or are not needed. */
  predicate CanBeSent(c: Config)
    requires 0 < c.p
  {
    c.N() == 1 || c.N() <= c.u || (0 < c.u && 0 < c.policy.maxScheduledBytes)
  }

  lemma {:induction false} LiveCompletes(c: Config, s: System)
    requires c.Valid() && CanBeSent(c) && Live(c, s)
    ensures CanComplete(c, s)
    decreases |s.out.m.packets| - s.out.m.packetsSent
  {
    if s.out.m.status == SENT {
      SentCompletes(c, s);
    } else {
      var a := s;
      if !s.out.m.Ready() {
        a := Unblock(c, s);
      }
      var t := SendOne(c, a);
      LiveCompletes(c, t);
    }
  }

  // ----------------------------------------------------------- no way on

  /**
   * Without unscheduled packets, or with a policy that grants nothing beyond what arrived, the
   * packets beyond the unscheduled ones are never granted.
   */
  ghost predicate Stalled(c: Config, s: System)
    requires 0 < c.p
  {
    && s.issued <= c.u * c.p
    && (s.incoming.Some? ==> forall i | i in s.incoming.value.packets :: i < c.u)
  }

  lemma StalledLimit(c: Config, s: System)
    requires c.Valid() && !CanBeSent(c) && Stalled(c, s)
    ensures c.Limit(s.issued) == c.u < c.N()
  {
    FragmentsNonempty(c);
    CeilDivLeast(s.issued, c.p, c.u);
  }

  /** A stalled message has not been sent completely. */
  lemma StalledIsUnsent(c: Config, s: System)
    requires c.Valid() && !CanBeSent(c) && Safe(c, s) && Stalled(c, s)
    ensures !Completed(s)
  {
    StalledLimit(c, s);
  }

  /** All that can be granted is what the unscheduled packets brought. */
  lemma StalledBytes(c: Config, m: InMessage, issued: nat, priority: int)
    requires c.Valid() && !CanBeSent(c) && InMessageSafe(c, m, issued) && issued <= c.u * c.p && c.u < c.N()
    requires forall i | i in m.packets :: i < c.u
    ensures Granted(m, c.policy, priority).bytesGranted <= c.u * c.p
  {
    StoredAbove(m.packets, c.u, m.numExpectedPackets);
    StoredBelow(m.packets, m.messageLength, c.p, c.u, 0);
    assert m.RecordedBytes() <= c.u * c.p;
    var i :| i in m.packets;
    assert 0 < c.u && c.policy.maxScheduledBytes == 0;
  }

  lemma StalledGrant(c: Config, s: System, priority: int)
    requires c.Valid() && !CanBeSent(c) && Safe(c, s) && Stalled(c, s)
    ensures Stalled(c, Next(c, s, GrantStep(priority)))
  {
    if s.incoming.Some? && s.incoming.value.peer.Some? {
      StalledLimit(c, s);
      StalledBytes(c, s.incoming.value, s.issued, priority);
    }
  }

  lemma StalledData(c: Config, s: System, packet: Packet, priority: int)
    requires c.Valid() && !CanBeSent(c) && Safe(c, s) && Stalled(c, s) && packet in s.net
    ensures Stalled(c, Next(c, s, Deliver(packet, priority)))
  {
    if packet.Data? {
      StalledLimit(c, s);
      assert PacketSafe(c, s, packet);
    }
  }

  lemma StepStalls(c: Config, s: System, step: Step)
    requires c.Valid() && !CanBeSent(c) && Safe(c, s) && Stalled(c, s)
    ensures Stalled(c, Next(c, s, step))
  {
    match step
    case GrantStep(priority) => StalledGrant(c, s, priority);
    case Deliver(packet, priority) => if packet in s.net { StalledData(c, s, packet, priority); }
    case _ =>
  }

  lemma {:induction false} RunStalls(c: Config, s: System, steps: seq<Step>)
    requires c.Valid() && !CanBeSent(c) && Safe(c, s) && Stalled(c, s)
    ensures !Completed(RunFrom(c, s, steps))
    decreases |steps|
  {
    if steps == [] {
      StalledIsUnsent(c, s);
    } else {
      StepSafe(c, s, steps[0]);
      StepStalls(c, s, steps[0]);
      RunStalls(c, Next(c, s, steps[0]), steps[1..]);
    }
  }

  lemma StalledCannotComplete(c: Config, s: System)
    requires c.Valid() && !CanBeSent(c) && Safe(c, s) && Stalled(c, s)
    ensures !CanComplete(c, s)
  {
    forall steps ensures !Completed(RunFrom(c, s, steps)) {
      RunStalls(c, s, steps);
    }
  }

  lemma {:induction false} AfterStalls(c: Config, steps: seq<Step>)
    requires c.Valid() && !CanBeSent(c)
    ensures Stalled(c, After(c, steps))
  {
    if steps != [] {
      AfterStalls(c, steps[..|steps| - 1]);
      StepStalls(c, After(c, steps[..|steps| - 1]), steps[|steps| - 1]);
    }
  }

  // -------------------------------------------------------------- theorems

  /**
   * In every run, whatever was lost, restarted or timed out at the receiver: a message
   * its application still holds, and that has not ended, can still complete, exactly if it is a
   * single packet, or all its packets are unscheduled, or some are and the policy grants more.
   */
  lemma AlwaysAWayOn(c: Config, steps: seq<Step>)
    requires c.Valid() && Unfinished(After(c, steps))
    ensures CanComplete(c, After(c, steps)) <==> CanBeSent(c)
  {
    if CanBeSent(c) {
      RunKept(c, steps);
      LiveCompletes(c, After(c, steps));
    } else {
      AfterStalls(c, steps);
      StalledCannotComplete(c, After(c, steps));
    }
  }

  /** The same from the beginning: which messages can complete at all. */
  lemma CompletionIsPossible(c: Config)
    requires c.Valid()
    ensures Safe(c, Init()) && (CanComplete(c, Init()) <==> CanBeSent(c))
  {
    InitSafe(c);
    FragmentsNonempty(c);
    if CanBeSent(c) {
      StepBack(c, Init(), Send(0));
      AfterStep(c, [], Send(0));
      assert [] + [Send(0)] == [Send(0)];
      AlwaysAWayOn(c, [Send(0)]);
    } else {
      StalledCannotComplete(c, Init());
    }
  }
}
