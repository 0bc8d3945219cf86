/**
 * Recovery from loss: all packets in flight vanish, and only what is sent from then on can arrive.  A
 * message its application still holds comes through exactly if someone is left to speak up about it.
 */
module Recovery {
  import opened Base
  import opened Reassembly
  import opened Protocol
  import opened ResendRanges
  import opened TwoParty
  import opened Progress

  /** The network has lost everything. */
  ghost function Lost(s: System): System { s.(net := {}) }

  lemma LostIsSafe(c: Config, s: System)
    requires c.Valid() && Safe(c, s)
    ensures Safe(c, Lost(s))
  {
  }

  /** The sender may ask the receiver, and begin anew when that knows nothing. */
  predicate MayRestart(m: OutMessage) {
    !m.options.noRetry && (m.status == IN_PROGRESS || !m.options.noKeepAlive)
  }

  /**
   * Someone is left to speak up: the receiver, which has heard of the message and will ask for the rest;
   * or the sender, which has a packet to send or may ask.
   */
  predicate Recoverable(s: System) {
    s.out.Tracked? &&
    (s.incoming.Some? || (s.out.m.status == IN_PROGRESS && s.out.m.Ready()) || MayRestart(s.out.m))
  }

  /** The policy keeps something outstanding, or nothing needs to be granted. */
  predicate KeepsGranting(c: Config)
    requires 0 < c.p
  {
    c.N() == 1 || c.N() <= c.u || 0 < c.policy.minScheduledBytes
  }

  // ----------------------------------------------------------- the receiver asks

  /** A receiver that has been served and still lacks packets lacks one it will ask for. */
  lemma AsksForSomething(p: nat, policy: Scheduled, m: InMessage) returns (i: nat)
    requires PolicyOk(policy) && m.Valid(p, policy.maxScheduledBytes) && m.state == Receiving && !Silent(m)
    ensures i < ResendLimit(m, p) && i !in m.packets && ResendLimit(m, p) <= m.numExpectedPackets
  {
    var max, limit := policy.maxScheduledBytes, ResendLimit(m, p);
    ResendLimitIsMax(m, p, max);
    CompleteWhenAllStored(p, max, m);
    if forall j: nat | j < limit :: j in m.packets {
      NothingIsMissing(m, p, max);
      CeilDivLeast(m.bytesGranted, p, limit);
      StoredBytesGrow(m.packets, limit, m.numExpectedPackets);
      StoredAll(m.packets, m.messageLength, p);
    }
    i :| i < limit && i !in m.packets;
  }

  /** The run of missing packets around a missing one. */
  lemma {:induction false} RunBegin(packets: map<nat, seq<byte>>, i: nat) returns (j: nat)
    requires i !in packets
    ensures j <= i && (j == 0 || j - 1 in packets) && forall k: nat | j <= k <= i :: k !in packets
  {
    j := i;
    if i > 0 && i - 1 !in packets {
      j := RunBegin(packets, i - 1);
    }
  }

  lemma {:induction false} RunEnd(packets: map<nat, seq<byte>>, i: nat, limit: nat) returns (j: nat)
    requires i < limit && i !in packets
    ensures i < j <= limit && (j == limit || j in packets) && forall k: nat | i <= k < j :: k !in packets
    decreases limit - i
  {
    j := i + 1;
    if i + 1 < limit && i + 1 !in packets {
      j := RunEnd(packets, i + 1, limit);
    }
  }

  lemma RunAround(packets: map<nat, seq<byte>>, i: nat, limit: nat) returns (r: Run)
    requires i < limit && i !in packets
    ensures MaximalRun(packets, limit, r) && r.index <= i < r.index + r.num
  {
    var from := RunBegin(packets, i);
    var to := RunEnd(packets, i, limit);
    r := Run(from, to - from);
  }

  /** An incomplete receiver that the grant loop has served is not silent. */
  lemma ServedAsks(c: Config, m: InMessage, issued: nat)
    requires c.Valid() && KeepsGranting(c) && InMessageSafe(c, m, issued) && m.state == Receiving
    ensures !Silent(Served(m, c.policy, 0)) && 1 < c.N()
  {
    if m.scheduled {
      SilenceEnds(m, c.p, c.policy, 0);
    }
  }

  /** The receiver's resend timeout expires, and a RESEND for a missing packet is in the network. */
  lemma ResendGoesOut(c: Config, s: System) returns (t: System, i: nat, r: Run)
    requires c.Valid() && Alive(c, s) && s.incoming.Some? && s.incoming.value.state == Receiving
    requires !Silent(s.incoming.value)
    ensures t.out == s.out && t.incoming == s.incoming && Onward(c, s, t)
    ensures i !in s.incoming.value.packets && r.index <= i < r.index + r.num <= |s.out.m.packets|
    ensures Resend(r.index, r.num, s.incoming.value.priority) in t.net
  {
    var m := s.incoming.value;
    ResendTimeoutIs(c, s);
    AliveStep(c, s, ResendTimeout);
    t := Next(c, s, ResendTimeout);
    i := AsksForSomething(c.p, c.policy, m);
    r := RunAround(m.packets, i, ResendLimit(m, c.p));
    ResendPacketsAre(m, c.p, Resend(r.index, r.num, m.priority));
  }

  lemma ResendTimeoutIs(c: Config, s: System)
    requires c.Valid() && Safe(c, s) && s.incoming.Some? && s.incoming.value.state == Receiving
    ensures 0 <= s.incoming.value.bytesGranted
    ensures Next(c, s, ResendTimeout) == s.(net := s.net + ResendPackets(s.incoming.value, c.p))
  {
  }

  /** The packet is in the network, or the sender may send it. */
  ghost predicate Obtainable(c: Config, s: System, i: nat)
    requires c.Valid()
  {
    && Alive(c, s) && i < |s.out.m.packets|
    && (|| s.out.m.DataPacket(c.u, i) in s.net
        || (s.out.m.status == IN_PROGRESS && s.out.m.packetsSent <= i < s.out.m.packetsGranted))
  }

  lemma ResendIs(c: Config, s: System, r: Run, priority: int)
    requires c.Valid() && Safe(c, s) && s.out.Tracked? && Resend(r.index, r.num, priority) in s.net
    ensures Next(c, s, Deliver(Resend(r.index, r.num, priority), 0)) ==
            s.(out := Tracked(OnResend(s.out.m, r.index, r.num, priority)),
               net := s.net + Elements(ResendReply(s.out.m, c.u, r.index, r.num)))
  {
  }

  lemma ResendKeepsAlive(m: OutMessage, index: nat, num: nat, priority: int)
    ensures var t := OnResend(m, index, num, priority);
            && t.status == m.status && t.held == m.held && t.packets == m.packets && t.packetsSent == m.packetsSent
            && m.packetsGranted <= t.packetsGranted
  {
  }

  /** A RESEND arrives: what it asks for is sent again, or may be sent. */
  lemma ResendArrives(c: Config, s: System, i: nat, r: Run, priority: int) returns (t: System)
    requires c.Valid() && Alive(c, s) && Resend(r.index, r.num, priority) in s.net
    requires r.index <= i < r.index + r.num <= |s.out.m.packets| && 1 < |s.out.m.packets|
    ensures t.incoming == s.incoming && Onward(c, s, t) && Obtainable(c, t, i)
  {
    var m, step := s.out.m, Deliver(Resend(r.index, r.num, priority), 0);
    ResendIs(c, s, r, priority);
    ResendKeepsAlive(m, r.index, r.num, priority);
    StepBack(c, s, step);
    if Kept(c, s) {
      StepKept(c, s, step);
    }
    t := Next(c, s, step);
    ResendReaches(m, r.index, r.num, priority, i);
    if i < m.packetsSent {
      ResendReplyIs(m, c.u, r.index, r.num, m.DataPacket(c.u, i));
    }
  }

  /** The sender sends up to the packet in question. */
  lemma {:induction false} TransmitUpTo(c: Config, s: System, i: nat) returns (t: System)
    requires c.Valid() && Alive(c, s) && s.out.m.status == IN_PROGRESS
    requires s.out.m.packetsSent <= i < s.out.m.packetsGranted
    ensures t.incoming == s.incoming && Onward(c, s, t)
    ensures i < |t.out.m.packets| && t.out.m.DataPacket(c.u, i) in t.net
    decreases i - s.out.m.packetsSent
  {
    t := SendOne(c, s);
    if s.out.m.packetsSent < i {
      t := TransmitUpTo(c, t, i);
    }
  }

  lemma Obtain(c: Config, s: System, i: nat) returns (t: System)
    requires c.Valid() && Obtainable(c, s, i)
    ensures t.incoming == s.incoming && Onward(c, s, t)
    ensures i < |t.out.m.packets| && t.out.m.DataPacket(c.u, i) in t.net
  {
    t := s;
    if s.out.m.DataPacket(c.u, i) !in s.net {
      t := TransmitUpTo(c, s, i);
    }
  }

  /** A packet that was missing arrives. */
  lemma MissingArrives(c: Config, s: System, i: nat) returns (t: System)
    requires c.Valid() && Alive(c, s) && i < |s.out.m.packets| && s.out.m.DataPacket(c.u, i) in s.net
    requires s.incoming.Some? ==> i !in s.incoming.value.packets
    ensures t.incoming.Some? && Onward(c, s, t)
    ensures s.incoming.Some? ==> t.incoming.value.numPackets == s.incoming.value.numPackets + 1
  {
    DataArrives(c, s, i);
    AliveStep(c, s, Deliver(s.out.m.DataPacket(c.u, i), 0));
    t := Next(c, s, Deliver(s.out.m.DataPacket(c.u, i), 0));
  }

  /** An incomplete receiver gets one packet further. */
  lemma FetchOne(c: Config, s: System) returns (t: System)
    requires c.Valid() && KeepsGranting(c) && Alive(c, s) && s.incoming.Some? && s.incoming.value.state == Receiving
    ensures t.incoming.Some? && t.incoming.value.numPackets == s.incoming.value.numPackets + 1 && Onward(c, s, t)
  {
    ServedAsks(c, s.incoming.value, s.issued);
    var a := Serve(c, s);
    var b, i, r := ResendGoesOut(c, a);
    var d := ResendArrives(c, b, i, r, a.incoming.value.priority);
    var e := Obtain(c, d, i);
    t := MissingArrives(c, e, i);
  }

  /** A receiver that has heard of the message gets all of it. */
  lemma {:induction false} FetchAll(c: Config, s: System) returns (t: System)
    requires c.Valid() && KeepsGranting(c) && Alive(c, s) && s.incoming.Some?
    ensures t.incoming.Some? && t.incoming.value.state != Receiving && Onward(c, s, t)
    decreases c.N() - s.incoming.value.numPackets
  {
    t := s;
    if s.incoming.value.state == Receiving {
      t := FetchOne(c, s);
      t := FetchAll(c, t);
    }
  }

  // ------------------------------------------------------- the sender catches up

  /** The grant loop grants a complete message to the end. */
  lemma CompleteIsGranted(p: nat, policy: Scheduled, m: InMessage)
    requires PolicyOk(policy) && m.Valid(p, policy.maxScheduledBytes) && m.state != Receiving && m.scheduled
    ensures Served(m, policy, 0).bytesGranted == m.messageLength
  {
    if m.peer.Some? {
      CompleteWhenAllStored(p, policy.maxScheduledBytes, m);
      StoredAll(m.packets, m.messageLength, p);
      GrantedKeepsValid(p, policy, m, 0);
    }
  }

  /** A sender that waits although the receiver has everything finds out. */
  lemma CatchUp(c: Config, s: System) returns (t: System)
    requires c.Valid() && Alive(c, s) && s.out.m.status == IN_PROGRESS && !s.out.m.Ready()
    requires s.incoming.Some? && s.incoming.value.state != Receiving
    ensures t.out.Tracked? && t.out.m.status == IN_PROGRESS && t.out.m.Ready()
    ensures t.out.m.packetsSent == s.out.m.packetsSent && t.out.m.packets == s.out.m.packets
    ensures t.incoming.Some? && t.incoming.value.state != Receiving && Onward(c, s, t)
  {
    var k: nat := s.out.m.packetsSent;
    CompleteIsGranted(c.p, c.policy, s.incoming.value);
    var a := Serve(c, s);
    var b := Ask(c, a);
    t := TakeGrant(c, b, k);
  }

  /** A message sent completely to a receiver that has everything completes. */
  lemma SentFinishes(c: Config, s: System)
    requires c.Valid() && Alive(c, s) && s.out.m.status == SENT
    requires s.incoming.Some? && s.incoming.value.state != Receiving
    ensures CanComplete(c, s)
  {
    CompleteWhenAllStored(c.p, c.policy.maxScheduledBytes, s.incoming.value);
    var a := Acknowledged(c, s);
    DoneCompletes(c, a);
  }

  /** A sender that is behind its receiver gets one packet further. */
  lemma SendNext(c: Config, s: System) returns (t: System)
    requires c.Valid() && Alive(c, s) && s.out.m.status == IN_PROGRESS
    requires s.incoming.Some? && s.incoming.value.state != Receiving
    ensures t.incoming.Some? && t.incoming.value.state != Receiving && Onward(c, s, t)
    ensures t.out.Tracked? && |s.out.m.packets| == |t.out.m.packets|
    ensures s.out.m.packetsSent < t.out.m.packetsSent <= |t.out.m.packets|
  {
    var a := s;
    if !s.out.m.Ready() {
      a := CatchUp(c, s);
    }
    t := SendOne(c, a);
  }

  lemma {:induction false} FinishSending(c: Config, s: System)
    requires c.Valid() && Alive(c, s) && s.incoming.Some? && s.incoming.value.state != Receiving
    ensures CanComplete(c, s)
    decreases |s.out.m.packets| - s.out.m.packetsSent
  {
    if s.out.m.status == SENT {
      SentFinishes(c, s);
    } else {
      var t := SendNext(c, s);
      FinishSending(c, t);
    }
  }

  // ---------------------------------------------------------- the sender asks

  /** The receiver forgets what it has heard of the message. */
  lemma Forget(c: Config, s: System) returns (t: System)
    requires c.Valid() && Alive(c, s) && (s.incoming.Some? ==> s.incoming.value.state == Receiving)
    ensures t.incoming.None? && t.out == s.out && Onward(c, s, t)
  {
    t := s;
    if s.incoming.Some? {
      AliveStep(c, s, TimeoutIn);
      t := Next(c, s, TimeoutIn);
    }
  }

  /** A PING that finds nobody who knows the message brings back an UNKNOWN. */
  lemma AskInVain(c: Config, s: System) returns (t: System)
    requires c.Valid() && Alive(c, s) && s.incoming.None? && PingDue(s.out.m)
    ensures t.out == s.out && t.incoming.None? && Unknown in t.net && Onward(c, s, t)
  {
    AliveStep(c, s, PingTimeout);
    var a := Next(c, s, PingTimeout);
    AliveStep(c, a, Deliver(Ping, 0));
    t := Next(c, a, Deliver(Ping, 0));
  }

  /** The UNKNOWN makes the sender begin anew. */
  lemma Restart(c: Config, s: System) returns (t: System)
    requires c.Valid() && Alive(c, s) && Unknown in s.net && !s.out.m.options.noRetry
    ensures Live(c, t) && (CanComplete(c, t) ==> CanComplete(c, s))
  {
    var step, m := Deliver(Unknown, 0), s.out.m;
    StepBack(c, s, step);
    t := Next(c, s, step);
    FragmentsNonempty(c);
    if 1 < |m.packets| {
      QueuedKept(c, m, t.net, 0);
    }
  }

  /** A sender that may ask, and has nothing left to send meanwhile, gets its message through. */
  lemma RestartCompletes(c: Config, s: System)
    requires c.Valid() && CanBeSent(c) && Alive(c, s) && s.incoming.None? && MayRestart(s.out.m)
    requires !(s.out.m.status == IN_PROGRESS && s.out.m.Ready())
    ensures CanComplete(c, s)
  {
    var a := AskInVain(c, s);
    var b := Restart(c, a);
    LiveCompletes(c, b);
  }

  /** Whoever is left to speak up gets the message through. */
  lemma RecoverableCompletes(c: Config, s: System)
    requires c.Valid() && CanBeSent(c) && KeepsGranting(c) && Alive(c, s) && Recoverable(s)
    ensures CanComplete(c, s)
  {
    if s.incoming.Some? {
      var a := FetchAll(c, s);
      FinishSending(c, a);
    } else if s.out.m.status == IN_PROGRESS && s.out.m.Ready() {
      var i: nat := s.out.m.packetsSent;
      var a := SendOne(c, s);
      var b := MissingArrives(c, a, i);
      var d := FetchAll(c, b);
      FinishSending(c, d);
    } else {
      RestartCompletes(c, s);
    }
  }

  // ------------------------------------------------------------ no one speaks up

  /** Nobody who could say so knows that a packet is missing. */
  ghost predicate Mute(s: System) {
    && s.incoming.None? && !s.taken && !s.out.NotSent?
    && (forall packet | packet in s.net :: packet == Ping || packet == Unknown)
    && (s.out.Tracked? ==> MuteMessage(s.out.m, s.net))
  }

  ghost predicate MuteMessage(m: OutMessage, net: set<Packet>) {
    && m.status != COMPLETED && !(m.status == IN_PROGRESS && m.Ready())
    && (m.status == IN_PROGRESS || m.status == SENT ==>
          m.options.noRetry || (m.status == SENT && m.options.noKeepAlive && net == {}))
  }

  lemma DeliveryStaysMute(c: Config, s: System, packet: Packet, priority: int)
    requires c.Valid() && Safe(c, s) && Mute(s) && packet in s.net
    ensures Mute(Next(c, s, Deliver(packet, priority)))
  {
  }

  lemma StepStaysMute(c: Config, s: System, step: Step)
    requires c.Valid() && Safe(c, s) && Mute(s)
    ensures Mute(Next(c, s, step))
  {
    match step
    case Deliver(packet, priority) => if packet in s.net { DeliveryStaysMute(c, s, packet, priority); }
    case _ =>
  }

  lemma {:induction false} MuteCannotComplete(c: Config, s: System, steps: seq<Step>)
    requires c.Valid() && Safe(c, s) && Mute(s)
    ensures !Completed(RunFrom(c, s, steps))
    decreases |steps|
  {
    if steps != [] {
      StepSafe(c, s, steps[0]);
      StepStaysMute(c, s, steps[0]);
      MuteCannotComplete(c, Next(c, s, steps[0]), steps[1..]);
    }
  }

  // -------------------------------------------------------------- theorems

  lemma UnrecoverableIsMute(c: Config, s: System)
    requires c.Valid() && Safe(c, s) && Unfinished(s) && !Recoverable(s)
    ensures Safe(c, Lost(s)) && !CanComplete(c, Lost(s))
  {
    LostIsSafe(c, s);
    forall steps ensures !Completed(RunFrom(c, Lost(s), steps)) {
      MuteCannotComplete(c, Lost(s), steps);
    }
  }

  lemma UnsendableIsStuck(c: Config, steps: seq<Step>)
    requires c.Valid() && !CanBeSent(c)
    ensures Safe(c, Lost(After(c, steps))) && !CanComplete(c, Lost(After(c, steps)))
  {
    LostIsSafe(c, After(c, steps));
    AfterStalls(c, steps);
    StalledCannotComplete(c, Lost(After(c, steps)));
  }

  /** The message is looked after to the end, and may be sent again. */
  predicate LookedAfter(m: OutMessage) { !m.options.noRetry && !m.options.noKeepAlive }

  /** The sender sends all it may. */
  lemma {:induction false} SendAll(c: Config, s: System) returns (t: System)
    requires c.Valid() && Alive(c, s) && s.incoming.None?
    ensures t.incoming.None? && t.out.Tracked? && t.out.m.options == s.out.m.options && Onward(c, s, t)
    ensures !(t.out.m.status == IN_PROGRESS && t.out.m.Ready())
    decreases s.out.m.packetsGranted - s.out.m.packetsSent
  {
    t := s;
    if s.out.m.status == IN_PROGRESS && s.out.m.Ready() {
      t := SendOne(c, s);
      t := SendAll(c, t);
    }
  }

  /** Whatever the policy, a message that is looked after gets through if it can be sent at all. */
  lemma LookedAfterCompletes(c: Config, s: System)
    requires c.Valid() && CanBeSent(c) && Alive(c, s) && LookedAfter(s.out.m)
    ensures CanComplete(c, s)
  {
    if s.incoming.Some? && s.incoming.value.state != Receiving {
      FinishSending(c, s);
    } else {
      var a := Forget(c, s);
      var b := SendAll(c, a);
      RestartCompletes(c, b);
    }
  }

  /**
   * In every run, if all packets in flight are lost at once: a message its application still holds, and
   * that has not ended, can still complete only if grants can be had or are not needed, and its receiver has
   * heard of it, or it has a packet to send, or it may be restarted: it is not NO_RETRY, and not NO_KEEP_ALIVE
   * unless it is still in progress.  Under a policy that keeps something outstanding, and for a message
   * without these options under any policy, it can complete exactly then.
   */
  lemma RecoveryFromLoss(c: Config, steps: seq<Step>)
    requires c.Valid() && Unfinished(After(c, steps))
    ensures Safe(c, Lost(After(c, steps)))
    ensures CanComplete(c, Lost(After(c, steps))) ==> CanBeSent(c) && Recoverable(After(c, steps))
    ensures KeepsGranting(c) || LookedAfter(After(c, steps).out.m) ==>
              (CanComplete(c, Lost(After(c, steps))) <==> CanBeSent(c) && Recoverable(After(c, steps)))
  {
    var s := After(c, steps);
    LostIsSafe(c, s);
    if !CanBeSent(c) {
      UnsendableIsStuck(c, steps);
    } else if !Recoverable(s) {
      UnrecoverableIsMute(c, s);
    } else {
      RunKept(c, steps);
      if KeepsGranting(c) {
        RecoverableCompletes(c, Lost(s));
      } else if LookedAfter(s.out.m) {
        LookedAfterCompletes(c, Lost(s));
      }
    }
  }

  // ------------------------------------------- a policy without a minimum

  /** The receiver has exactly what it granted: it neither grants more, without a minimum, nor asks for anything. */
  predicate Content(m: InMessage) {
    m.state == Receiving && m.arrivals == 0 && m.scheduled && m.bytesGranted == m.RecordedBytes()
  }

  /** Each side waits for the other. */
  ghost predicate Deadlocked(c: Config, s: System)
    requires 0 < c.p
  {
    && !s.taken && !s.out.NotSent?
    && (s.incoming.Some? ==> Content(s.incoming.value))
    && (forall packet | packet in s.net :: packet.Ping? || packet.Unknown? || packet.Grant?)
    && (s.out.Tracked? ==>
          && s.out.m.options.noRetry && s.out.m.status != COMPLETED
          && !(s.out.m.status == IN_PROGRESS && s.out.m.Ready())
          && (forall g | g in s.net && g.Grant? :: CeilDiv(g.byteLimit, c.p) <= s.out.m.packetsGranted)
          && (s.incoming.Some? && 0 <= s.incoming.value.bytesGranted ==>
                CeilDiv(s.incoming.value.bytesGranted, c.p) <= s.out.m.packetsGranted))
  }

  lemma DeliveryStaysDeadlocked(c: Config, s: System, packet: Packet, priority: int)
    requires c.Valid() && Safe(c, s) && Deadlocked(c, s) && packet in s.net
    ensures Deadlocked(c, Next(c, s, Deliver(packet, priority)))
  {
  }

  lemma StepStaysDeadlocked(c: Config, s: System, step: Step)
    requires c.Valid() && c.policy.minScheduledBytes == 0 && Safe(c, s) && Deadlocked(c, s)
    ensures Deadlocked(c, Next(c, s, step))
  {
    match step
    case Deliver(packet, priority) => if packet in s.net { DeliveryStaysDeadlocked(c, s, packet, priority); }
    case _ =>
  }

  lemma {:induction false} DeadlockLasts(c: Config, s: System, steps: seq<Step>)
    requires c.Valid() && c.policy.minScheduledBytes == 0 && Safe(c, s) && Deadlocked(c, s)
    ensures !Completed(RunFrom(c, s, steps))
    decreases |steps|
  {
    if steps != [] {
      StepSafe(c, s, steps[0]);
      StepStaysDeadlocked(c, s, steps[0]);
      DeadlockLasts(c, Next(c, s, steps[0]), steps[1..]);
    }
  }

  /**
   * Without a minimum a receiver that has heard of the message is not enough: a NO_RETRY message that has
   * sent what it may, to a receiver that has exactly the bytes it granted, never completes.
   */
  lemma NoMinimumDeadlocks(c: Config, s: System)
    requires c.Valid() && c.policy.minScheduledBytes == 0 && Safe(c, s) && Unfinished(s) && !s.taken
    requires s.out.m.options.noRetry && !(s.out.m.status == IN_PROGRESS && s.out.m.Ready())
    requires s.incoming.Some? && Content(s.incoming.value)
    requires CeilDiv(s.incoming.value.bytesGranted, c.p) <= s.out.m.packetsGranted
    ensures Safe(c, Lost(s)) && !CanComplete(c, Lost(s))
  {
    LostIsSafe(c, s);
    forall steps ensures !Completed(RunFrom(c, Lost(s), steps)) {
      DeadlockLasts(c, Lost(s), steps);
    }
  }

  /** Three packets of one byte, one of them unscheduled, and a policy that lets one byte be outstanding. */
  function Tiny(data: seq<byte>): Config {
    Config(1, 1, data, Options(true, false), 0, Scheduled(0, 1, 0, 1))
  }

  /** The sender has sent `sent` of `granted` packets; the receiver has `stored` and has granted `bytes`. */
  ghost predicate TinyState(c: Config, s: System, sent: nat, granted: nat, stored: nat, bytes: nat) {
    && c == Tiny(c.data) && |c.data| == 3 && Safe(c, s) && !s.taken
    && s.out.Tracked? && |s.out.m.packets| == 3 && s.out.m.status == IN_PROGRESS && s.out.m.held
    && s.out.m.options.noRetry && s.out.m.packetsSent == sent && s.out.m.packetsGranted == granted
    && (stored == 0 ==> s.incoming.None? && bytes == 0)
    && (stored > 0 ==>
          && s.incoming.Some? && s.incoming.value.bytesGranted == bytes
          && (forall i: nat :: i in s.incoming.value.packets <==> i < stored))
  }

  lemma TinySends(c: Config)
    requires c == Tiny(c.data) && |c.data| == 3
    ensures c.Valid() && Safe(c, Init()) && TinyState(c, Next(c, Init(), Send(0)), 0, 1, 0, 0)
  {
    InitSafe(c);
    StepSafe(c, Init(), Send(0));
    FragmentsNonempty(c);
  }

  lemma TransmitIs(c: Config, s: System)
    requires c.Valid() && Safe(c, s) && Unfinished(s) && s.out.m.status == IN_PROGRESS && s.out.m.Ready()
    ensures 0 <= s.out.m.packetsSent < |s.out.m.packets|
    ensures Next(c, s, Transmit) ==
            s.(out := Tracked(Transmitted(s.out.m)), net := s.net + {s.out.m.DataPacket(c.u, s.out.m.packetsSent)})
  {
  }

  lemma TinyTransmits(c: Config, s: System, sent: nat, granted: nat, stored: nat, bytes: nat)
    requires TinyState(c, s, sent, granted, stored, bytes) && sent < granted && sent < 2
    ensures var t := Next(c, s, Transmit);
            && TinyState(c, t, sent + 1, granted, stored, bytes)
            && sent < |t.out.m.packets| && t.out.m.DataPacket(c.u, sent) in t.net
  {
    StepSafe(c, s, Transmit);
    TransmitIs(c, s);
  }

  lemma TinyArrives(c: Config, s: System, sent: nat, granted: nat, stored: nat, bytes: nat)
    requires TinyState(c, s, sent, granted, stored, bytes) && stored < 2
    requires s.out.m.DataPacket(c.u, stored) in s.net
    ensures TinyState(c, Next(c, s, Deliver(s.out.m.DataPacket(c.u, stored), 0)), sent, granted, stored + 1, bytes)
  {
    var d := s.out.m.DataPacket(c.u, stored);
    StepSafe(c, s, Deliver(d, 0));
    DataArrives(c, s, stored);
    var m := if s.incoming.Some? then s.incoming.value else NewMessage(c.p, c.source, d.totalLength, c.u);
    OnDataHolds(m, stored, d.payload);
    TinyStores(m, OnData(m, stored, d.payload), stored, bytes);
  }

  lemma TinyStores(m: InMessage, t: InMessage, stored: nat, bytes: nat)
    requires m.bytesGranted == bytes == t.bytesGranted && forall i: nat :: i in m.packets <==> i < stored
    requires forall i: nat :: i in t.packets <==> i == stored || i in m.packets
    ensures forall i: nat :: i in t.packets <==> i < stored + 1
  {
  }

  /** What a receiver of the tiny message has recorded. */
  lemma TinyRecords(c: Config, s: System, sent: nat, granted: nat, stored: nat, bytes: nat)
    requires TinyState(c, s, sent, granted, stored, bytes) && 0 < stored < 3 && bytes < 3
    ensures var m := s.incoming.value;
            && m.scheduled && m.peer.Some? && m.RecordedBytes() == stored && m.state == Receiving && m.arrivals == 0
  {
    var m := s.incoming.value;
    assert InMessageSafe(c, m, s.issued);
    StoredComplete(m.packets, 3, 1, stored);
    StoredAbove(m.packets, stored, m.numExpectedPackets);
    CompleteWhenAllStored(c.p, c.policy.maxScheduledBytes, m);
    assert stored !in m.packets;
  }

  lemma GrantStepIs(c: Config, s: System, g: InMessage)
    requires c.Valid() && Safe(c, s) && s.incoming.Some? && s.incoming.value.peer.Some?
    requires GrantDue(s.incoming.value, c.policy) && g == Granted(s.incoming.value, c.policy, 0)
    ensures 0 <= g.bytesGranted
    ensures Next(c, s, GrantStep(0)) ==
            s.(incoming := Some(g), net := s.net + {Grant(g.bytesGranted, 0)}, issued := Max(s.issued, g.bytesGranted))
  {
    GrantedKeepsValid(c.p, c.policy, s.incoming.value, 0);
  }

  lemma TinyGrants(c: Config, s: System)
    requires TinyState(c, s, 1, 1, 1, 0)
    ensures TinyState(c, Next(c, s, GrantStep(0)), 1, 1, 1, 2) && Grant(2, 0) in Next(c, s, GrantStep(0)).net
  {
    TinyRecords(c, s, 1, 1, 1, 0);
    StepSafe(c, s, GrantStep(0));
    var m := s.incoming.value;
    assert m.messageLength == 3 && c.policy == Scheduled(0, 1, 0, 1);
    GrantStepIs(c, s, Granted(m, c.policy, 0));
  }

  lemma GrantArrives(c: Config, s: System, byteLimit: nat, priority: int)
    requires c.Valid() && Safe(c, s) && s.out.Tracked? && Grant(byteLimit, priority) in s.net
    ensures Next(c, s, Deliver(Grant(byteLimit, priority), 0)) ==
            s.(out := Tracked(OnGrant(s.out.m, c.p, byteLimit, priority)))
  {
  }

  lemma TinyIsGranted(c: Config, s: System)
    requires TinyState(c, s, 1, 1, 1, 2) && Grant(2, 0) in s.net
    ensures TinyState(c, Next(c, s, Deliver(Grant(2, 0), 0)), 1, 2, 1, 2)
  {
    StepSafe(c, s, Deliver(Grant(2, 0), 0));
    GrantArrives(c, s, 2, 0);
    assert CeilDiv(2, 1) == 2;
  }

  /** A step of the run, with the state it leads to. */
  lemma Go(c: Config, s: System, step: Step) returns (t: System)
    requires c.Valid() && Reachable(c, s)
    ensures Safe(c, s) && t == Next(c, s, step) && Reachable(c, t)
  {
    ReachableStep(c, s, step);
    t := Next(c, s, step);
  }

  /**
   * Such a deadlock is reached: the receiver has heard of the message and it could be sent, but once what
   * is in flight is lost it cannot complete.
   */
  lemma DeadlockIsReached(data: seq<byte>) returns (c: Config, s: System)
    requires |data| == 3
    ensures c.Valid() && c.data == data && CanBeSent(c) && Reachable(c, s) && Unfinished(s) && Recoverable(s)
    ensures Safe(c, Lost(s)) && !CanComplete(c, Lost(s))
  {
    c := Tiny(data);
    assert After(c, []) == Init();
    TinySends(c);
    s := Go(c, Init(), Send(0));
    TinyTransmits(c, s, 0, 1, 0, 0);
    s := Go(c, s, Transmit);
    TinyArrives(c, s, 1, 1, 0, 0);
    s := Go(c, s, Deliver(s.out.m.DataPacket(c.u, 0), 0));
    TinyGrants(c, s);
    s := Go(c, s, GrantStep(0));
    TinyIsGranted(c, s);
    s := Go(c, s, Deliver(Grant(2, 0), 0));
    TinyTransmits(c, s, 1, 2, 1, 2);
    s := Go(c, s, Transmit);
    TinyArrives(c, s, 2, 2, 1, 2);
    s := Go(c, s, Deliver(s.out.m.DataPacket(c.u, 1), 0));
    TinyRecords(c, s, 2, 2, 2, 2);
    NoMinimumDeadlocks(c, s);
  }
}
