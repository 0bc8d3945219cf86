/** The default policies: what may be sent without being granted, and how grants are given. */
module Policy {
  import opened Base
  import opened Protocol

  const RTT_TIME_US: nat := 8
  const UNSCHEDULED_PRIORITY_CUTOFFS: seq<nat> := [469, 5521, 15267]
  const MAX_OVERCOMMIT_COUNT: int := 4

  datatype UnscheduledPolicy = UnscheduledPolicy(version: nat, highestPriority: int, priorityCutoffBytes: seq<nat>)

  datatype Unscheduled = Unscheduled(version: nat, unscheduledByteLimit: nat, priority: int)

  function DefaultUnscheduled(maxPriority: int): UnscheduledPolicy {
    UnscheduledPolicy(0, maxPriority, UNSCHEDULED_PRIORITY_CUTOFFS)
  }

  /** How many cutoffs a message reaches before the first one it does not. */
  function Rank(cutoffs: seq<nat>, length: nat): (r: nat)
    ensures r <= |cutoffs|
  {
    if cutoffs == [] || length < cutoffs[0] then 0 else 1 + Rank(cutoffs[1..], length)
  }

  function PriorityOf(policy: UnscheduledPolicy, length: nat): int {
    Max(0, policy.highestPriority - Rank(policy.priorityCutoffBytes, length))
  }

  /** The rank is the one place that has only reached cutoffs before it and an unreached one, if any, at it. */
  lemma {:induction false} RankIsFirst(cutoffs: seq<nat>, length: nat, r: nat)
    requires r <= |cutoffs|
    ensures Rank(cutoffs, length) == r <==>
            (r < |cutoffs| ==> length < cutoffs[r]) && forall k | 0 <= k < r :: cutoffs[k] <= length
  {
    if cutoffs != [] && cutoffs[0] <= length && 0 < r {
      var rest := cutoffs[1..];
      RankIsFirst(rest, length, r - 1);
      assert forall k | 0 < k < r :: cutoffs[k] == rest[k - 1];
      assert forall k | 0 <= k < r - 1 :: rest[k] == cutoffs[k + 1];
    }
  }

  /** A longer message never gets a higher priority, whatever the cutoffs. */
  lemma {:induction false} LongerIsNotHigher(policy: UnscheduledPolicy, a: nat, b: nat)
    requires a <= b
    ensures PriorityOf(policy, b) <= PriorityOf(policy, a)
    decreases |policy.priorityCutoffBytes|
  {
    var cutoffs := policy.priorityCutoffBytes;
    if cutoffs != [] {
      LongerIsNotHigher(policy.(highestPriority := policy.highestPriority - 1, priorityCutoffBytes := cutoffs[1..]),
                        a, b);
    }
  }

  /** The priority of a message that reaches the first `r` cutoffs and no more: one level lower for each. */
  lemma PriorityIsLevel(policy: UnscheduledPolicy, length: nat, r: nat)
    requires r <= |policy.priorityCutoffBytes|
    requires forall k | 0 <= k < r :: policy.priorityCutoffBytes[k] <= length
    requires r < |policy.priorityCutoffBytes| ==> length < policy.priorityCutoffBytes[r]
    ensures PriorityOf(policy, length) == Max(0, policy.highestPriority - r)
  {
    RankIsFirst(policy.priorityCutoffBytes, length, r);
  }

  class Manager {
    const rttBytes: nat
    const maxPriority: int
    const localScheduledPolicy: Scheduled
    var peerPolicies: map<nat, UnscheduledPolicy>

    /** `bandwidth` is in megabits per second, `highestPriority` what the driver offers. */
    constructor (bandwidth: nat, highestPriority: int)
      ensures rttBytes == RTT_TIME_US * (bandwidth / 8) && maxPriority == highestPriority && peerPolicies == map[]
      ensures 0 <= localScheduledPolicy.maxScheduledPriority
      ensures localScheduledPolicy.minScheduledBytes == rttBytes
      ensures localScheduledPolicy.maxScheduledBytes == 2 * rttBytes
      ensures localScheduledPolicy.degreeOvercommitment == MAX_OVERCOMMIT_COUNT
      ensures 4 <= highestPriority ==>
                localScheduledPolicy.maxScheduledPriority + |UNSCHEDULED_PRIORITY_CUTOFFS| + 1 == highestPriority
      ensures 0 < localScheduledPolicy.minScheduledBytes <==> 8 <= bandwidth
      ensures PolicyOk(localScheduledPolicy) <==> highestPriority < 8
      ensures forall n :: localScheduledPolicy.maxScheduledPriority <= PriorityOf(DefaultUnscheduled(maxPriority), n)
      ensures (forall n :: localScheduledPolicy.maxScheduledPriority < PriorityOf(DefaultUnscheduled(maxPriority), n))
              <==> 4 <= highestPriority
    {
      rttBytes := RTT_TIME_US * (bandwidth / 8);
      maxPriority := highestPriority;
      peerPolicies := map[];
      localScheduledPolicy := Scheduled(Max(0, highestPriority - (|UNSCHEDULED_PRIORITY_CUTOFFS| + 1)),
                                        MAX_OVERCOMMIT_COUNT,
                                        RTT_TIME_US * (bandwidth / 8),
                                        2 * (RTT_TIME_US * (bandwidth / 8)));
      new;
      ghost var unscheduled := DefaultUnscheduled(maxPriority);
      assert Rank(UNSCHEDULED_PRIORITY_CUTOFFS, 15267) == 3 by {
        assert UNSCHEDULED_PRIORITY_CUTOFFS[0] == 469 && UNSCHEDULED_PRIORITY_CUTOFFS[1] == 5521;
        assert UNSCHEDULED_PRIORITY_CUTOFFS[2] == 15267;
      }
      assert PriorityOf(unscheduled, 15267) == Max(0, maxPriority - 3);
    }

    /** The priority and the unscheduled bytes for a message to a peer; a new peer gets the defaults. */
    method GetUnscheduledPolicy(destination: nat, messageLength: nat) returns (policy: Unscheduled)
      modifies this
      ensures destination in peerPolicies
      ensures peerPolicies == if destination in old(peerPolicies) then old(peerPolicies)
                              else old(peerPolicies)[destination := DefaultUnscheduled(maxPriority)]
      ensures policy == Unscheduled(peerPolicies[destination].version, rttBytes,
                                    PriorityOf(peerPolicies[destination], messageLength))
    {
      if destination !in peerPolicies {
        peerPolicies := peerPolicies[destination := DefaultUnscheduled(maxPriority)];
      }
      var peer := peerPolicies[destination];
      var rank, numCutoffs := 0, |peer.priorityCutoffBytes|;
      while rank < numCutoffs
        invariant 0 <= rank <= numCutoffs
        invariant forall k | 0 <= k < rank :: peer.priorityCutoffBytes[k] <= messageLength
      {
        if messageLength < peer.priorityCutoffBytes[rank] {
          break;
        }
        rank := rank + 1;
      }
      RankIsFirst(peer.priorityCutoffBytes, messageLength, rank);
      policy := Unscheduled(peer.version, rttBytes, Max(0, peer.highestPriority - rank));
    }
  }
}
