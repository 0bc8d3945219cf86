/**
 * What an expired resend timeout asks for: the ranges of packets that should have
 * arrived and did not.
 */
module ResendRanges {
  import opened Base
  import opened Reassembly
  import opened Protocol

  datatype Run = Run(index: nat, num: nat)

  ghost predicate Missing(packets: map<nat, seq<byte>>, r: Run) {
    forall i: nat | r.index <= i < r.index + r.num :: i !in packets
  }

  /** `r` is a range of missing indices below `limit` that cannot be extended on either side. */
  ghost predicate MaximalRun(packets: map<nat, seq<byte>>, limit: nat, r: Run) {
    && 0 < r.num && r.index + r.num <= limit
    && Missing(packets, r)
    && (r.index == 0 || r.index - 1 in packets)
    && (r.index + r.num == limit || r.index + r.num in packets)
  }

  /** The message's share of packets the sender may have sent: the limit up to which it looks. */
  function ResendLimit(m: InMessage, p: nat): nat
    requires 0 < p && 0 <= m.bytesGranted
  {
    var unscheduled := Min(m.numUnscheduledPackets, m.numExpectedPackets);
    if m.scheduled && unscheduled * p < m.bytesGranted then CeilDiv(m.bytesGranted, p) else unscheduled
  }

  /** The sender is taken to be waiting for grants, so no RESEND is sent at all. */
  predicate Silent(m: InMessage) {
    m.scheduled && m.RecordedBytes() >= m.bytesGranted
  }

  /** The RESENDs of one expired resend timeout. */
  ghost function ResendPackets(m: InMessage, p: nat): set<Packet>
    requires 0 < p && 0 <= m.bytesGranted
  {
    var limit := ResendLimit(m, p);
    if Silent(m) then {}
    else set i: nat, n: nat | i < limit && n <= limit && MaximalRun(m.packets, limit, Run(i, n)) ::
           Resend(i, n, m.priority)
  }

  lemma ResendPacketsAre(m: InMessage, p: nat, x: Packet)
    requires 0 < p && 0 <= m.bytesGranted
    ensures x in ResendPackets(m, p) <==>
            x.Resend? && !Silent(m) && MaximalRun(m.packets, ResendLimit(m, p), Run(x.index, x.num)) &&
            x.priority == m.priority
  {
  }

  /**
   * A RESEND for the last packets granted does at a sender in progress what the latest GRANT would
   * have done: it makes up for a GRANT that was lost.
   */
  lemma ResendIsTheLostGrant(m: InMessage, p: nat, max: int, o: OutMessage, x: Packet)
    requires m.Valid(p, max) && m.scheduled && x in ResendPackets(m, p) && x.index + x.num == CeilDiv(m.bytesGranted, p)
    requires o.status == IN_PROGRESS && 2 <= |o.packets| == m.numExpectedPackets
    ensures PingReply(m).Grant?
    ensures OnResend(o, x.index, x.num, x.priority) == OnGrant(o, p, PingReply(m).byteLimit, PingReply(m).priority)
  {
    ResendPacketsAre(m, p, x);
    ResendLimitIsMax(m, p, max);
  }

  lemma ResendLimitIsMax(m: InMessage, p: nat, max: int)
    requires m.Valid(p, max)
    ensures ResendLimit(m, p) == Max(Min(m.numUnscheduledPackets, m.numExpectedPackets), CeilDiv(m.bytesGranted, p))
    ensures ResendLimit(m, p) <= m.numExpectedPackets
  {
    var unscheduled := Min(m.numUnscheduledPackets, m.numExpectedPackets);
    CeilDivLeast(m.bytesGranted, p, unscheduled);
    CeilDivMono(m.bytesGranted, m.messageLength, p);
    CeilDivLeast(0, p, 0);
  }

  /**
   * Nothing below the limit is missing exactly when the packets below it hold all the bytes
   * they can hold: the count that would have to decide about silence.
   */
  lemma NothingIsMissing(m: InMessage, p: nat, max: int)
    requires m.Valid(p, max)
    ensures var limit := ResendLimit(m, p);
            (forall i: nat | i < limit :: i in m.packets) <==>
            StoredBytes(m.packets, limit) == Min(limit * p, m.messageLength)
  {
    var limit := ResendLimit(m, p);
    ResendLimitIsMax(m, p, max);
    if forall i: nat | i < limit :: i in m.packets {
      StoredComplete(m.packets, m.messageLength, p, limit);
    } else {
      var i: nat :| i < limit && i !in m.packets;
      StoredBelow(m.packets, m.messageLength, p, limit, i);
    }
  }

  /** Nothing the grants reach is missing exactly when the packets they reach hold the granted bytes. */
  lemma NothingGrantedIsMissing(m: InMessage, p: nat, max: int)
    requires m.Valid(p, max)
    ensures (forall i: nat | i < CeilDiv(m.bytesGranted, p) :: i in m.packets) <==>
            m.bytesGranted <= StoredBytes(m.packets, CeilDiv(m.bytesGranted, p))
  {
    GrantedBytesFillGrantedPackets(m.packets, m.messageLength, p, m.bytesGranted);
  }

  /**
   * The receiver counts all stored bytes and compares them with the granted ones.  If it
   * stored only packets the grants reach, silence means that none of those is missing; if the
   * grants also reach all unscheduled packets, nothing below the limit is.
   */
  lemma SilenceIsSound(m: InMessage, p: nat, max: int)
    requires m.Valid(p, max) && Silent(m)
    requires forall i | i in m.packets :: i < CeilDiv(m.bytesGranted, p)
    ensures forall i: nat | i < CeilDiv(m.bytesGranted, p) :: i in m.packets
    ensures Min(m.numUnscheduledPackets, m.numExpectedPackets) <= CeilDiv(m.bytesGranted, p) ==>
              forall i: nat | i < ResendLimit(m, p) :: i in m.packets
  {
    CeilDivMono(m.bytesGranted, m.messageLength, p);
    StoredAbove(m.packets, CeilDiv(m.bytesGranted, p), m.numExpectedPackets);
    NothingGrantedIsMissing(m, p, max);
    ResendLimitIsMax(m, p, max);
  }

  /**
   * Otherwise silence can hide a loss: a message of any length that needs grants, has two or
   * more unscheduled packets and was not granted anything yet stays silent although its
   * first packet is missing.
   */
  lemma SilenceCanHideLoss(p: nat, max: int, length: nat, unscheduled: nat, payload: seq<byte>) returns (m: InMessage)
    requires 0 < p == |payload| && 0 <= max && 2 <= unscheduled < CeilDiv(length, p)
    ensures m.Valid(p, max) && m.state == Receiving && Silent(m)
    ensures 0 !in m.packets && 0 < ResendLimit(m, p)
  {
    var first := NewMessage(p, 0, length, unscheduled);
    assert SizeAt(length, p, 1) == p by {
      CeilDivLeast(length, p, 2);
    }
    FirstDataIsValid(p, max, 0, length, unscheduled, 1, payload);
    m := OnData(first, 1, payload);
  }

  /** An incomplete message that is silent is scheduled, and which one the grant loop would grant. */
  lemma SilentIsScheduled(m: InMessage, p: nat, policy: Scheduled)
    requires PolicyOk(policy) && m.Valid(p, policy.maxScheduledBytes) && m.state == Receiving && Silent(m)
    ensures m.peer.Some?
    ensures GrantDue(m, policy) <==> 0 < policy.minScheduledBytes || m.bytesGranted < m.RecordedBytes()
  {
    StoredAll(m.packets, m.messageLength, p);
    CompleteWhenAllStored(p, policy.maxScheduledBytes, m);
  }

  /**
   * Silence lasts only until the grant loop looks at the message, except under a policy that
   * grants nothing beyond what arrived: exactly when a message is silent afterwards.
   */
  lemma SilenceEnds(m: InMessage, p: nat, policy: Scheduled, priority: int)
    requires PolicyOk(policy) && m.Valid(p, policy.maxScheduledBytes) && m.state == Receiving && m.scheduled
    ensures Silent(Served(m, policy, priority)) <==>
            m.peer.Some? &&
            if GrantDue(m, policy) then policy.maxScheduledBytes == 0 else m.bytesGranted == m.RecordedBytes()
    ensures 0 < policy.minScheduledBytes ==> !Silent(Served(m, policy, priority))
  {
    StoredAll(m.packets, m.messageLength, p);
    CompleteWhenAllStored(p, policy.maxScheduledBytes, m);
    if m.peer.Some? {
      GrantedKeepsValid(p, policy, m, priority);
    }
  }

  /** One pass over the indices finds exactly the maximal runs, in order and with a gap between any two. */
  method FindRuns(packets: map<nat, seq<byte>>, limit: nat) returns (runs: seq<Run>)
    ensures forall r :: r in runs <==> MaximalRun(packets, limit, r)
    ensures forall j, k | 0 <= j < k < |runs| :: runs[j].index + runs[j].num < runs[k].index
  {
    runs := [];
    var index: nat, num: nat := 0, 0;
    for i := 0 to limit
      invariant num > 0 ==> index + num == i && Missing(packets, Run(index, num))
      invariant num > 0 ==> index == 0 || index - 1 in packets
      invariant num == 0 ==> i == 0 || i - 1 in packets
      invariant forall r | r in runs :: MaximalRun(packets, limit, r) && r.index + r.num < i
      invariant num > 0 ==> forall r | r in runs :: r.index + r.num < index
      invariant forall r | MaximalRun(packets, limit, r) && r.index < (if num > 0 then index else i) :: r in runs
      invariant forall j, k | 0 <= j < k < |runs| :: runs[j].index + runs[j].num < runs[k].index
    {
      if i !in packets {
        if num == 0 {
          index := i;
        }
        num := num + 1;
      } else {
        if num != 0 {
          ghost var closed := Run(index, num);
          forall r | MaximalRun(packets, limit, r) && r.index < i + 1 ensures r in runs + [closed] {
            RunStartsAtOpen(packets, limit, r, index, i);
          }
          runs := runs + [Run(index, num)];
          num := 0;
        }
      }
    }
    if num != 0 {
      ghost var closed := Run(index, num);
      forall r | MaximalRun(packets, limit, r) ensures r in runs + [closed] {
        RunStartsAtOpen(packets, limit, r, index, limit);
      }
      runs := runs + [Run(index, num)];
    }
  }

  /** A maximal run that starts inside an open run of missing indices is that run. */
  lemma RunStartsAtOpen(packets: map<nat, seq<byte>>, limit: nat, r: Run, index: nat, end: nat)
    requires MaximalRun(packets, limit, r) && index <= end <= limit
    requires forall i: nat | index <= i < end :: i !in packets
    requires end == limit || end in packets
    requires r.index <= end
    ensures r.index < index || (r.index == index && r.index + r.num == end)
  {
  }
}
