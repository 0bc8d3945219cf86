/** Counting the bytes of the packets a receiver has stored so far. */
module Reassembly {
  import opened Base
  import opened Fragments

  /** The number of data bytes packet `i` of an `n`-byte message carries. */
  function SizeAt(n: nat, p: nat, i: nat): (size: nat)
    requires 0 < p && i < CeilDiv(n, p)
    ensures 0 < size <= p
  {
    CeilDivLeast(n, p, i);
    Min(p, n - i * p)
  }

  lemma SliceSize(data: seq<byte>, p: nat, i: nat)
    requires 0 < p && i < CeilDiv(|data|, p)
    ensures |Slice(data, p, i)| == SizeAt(|data|, p, i)
  {
    SliceBounds(data, p, i);
  }

  /** Every stored packet has an index of the message and the size that goes with it. */
  ghost predicate Sized(packets: map<nat, seq<byte>>, n: nat, p: nat)
    requires 0 < p
  {
    forall i | i in packets :: i < CeilDiv(n, p) && |packets[i]| == SizeAt(n, p, i)
  }

  /** The bytes stored under indices below `k`. */
  function StoredBytes(packets: map<nat, seq<byte>>, k: nat): nat {
    if k == 0 then 0
    else StoredBytes(packets, k - 1) + if k - 1 in packets then |packets[k - 1]| else 0
  }

  lemma {:induction false} StoreAdds(packets: map<nat, seq<byte>>, k: nat, index: nat, payload: seq<byte>)
    requires index !in packets
    ensures StoredBytes(packets[index := payload], k) ==
            StoredBytes(packets, k) + if index < k then |payload| else 0
  {
    if k > 0 { StoreAdds(packets, k - 1, index, payload); }
  }

  /** The first `k` packets of a message carry `Min(k * p, n)` bytes; a missing one is missing from the sum. */
  lemma {:induction false} StoredBelow(packets: map<nat, seq<byte>>, n: nat, p: nat, k: nat, missing: nat)
    requires 0 < p && Sized(packets, n, p) && k <= CeilDiv(n, p)
    ensures StoredBytes(packets, k) <= Min(k * p, n)
    ensures missing < k && missing !in packets ==> StoredBytes(packets, k) <= Min(k * p, n) - SizeAt(n, p, missing)
  {
    if k > 0 {
      StoredBelow(packets, n, p, k - 1, missing);
      CeilDivLeast(n, p, k - 1);
      assert (k - 1) * p + p == k * p;
    }
  }

  lemma {:induction false} StoredComplete(packets: map<nat, seq<byte>>, n: nat, p: nat, k: nat)
    requires 0 < p && Sized(packets, n, p) && k <= CeilDiv(n, p)
    requires forall i: nat | i < k :: i in packets
    ensures StoredBytes(packets, k) == Min(k * p, n)
  {
    if k > 0 {
      StoredComplete(packets, n, p, k - 1);
      CeilDivLeast(n, p, k - 1);
      assert (k - 1) * p + p == k * p;
    }
  }

  /** All bytes are stored exactly when all packets are. */
  lemma StoredAll(packets: map<nat, seq<byte>>, n: nat, p: nat)
    requires 0 < p && Sized(packets, n, p)
    ensures StoredBytes(packets, CeilDiv(n, p)) <= n
    ensures StoredBytes(packets, CeilDiv(n, p)) == n <==> forall i: nat | i < CeilDiv(n, p) :: i in packets
  {
    var k := CeilDiv(n, p);
    StoredBelow(packets, n, p, k, 0);
    if forall i: nat | i < k :: i in packets {
      StoredComplete(packets, n, p, k);
    } else {
      var i: nat :| i < k && i !in packets;
      StoredBelow(packets, n, p, k, i);
    }
  }

  /** Nothing is stored above a bound, so counting further adds nothing. */
  lemma {:induction false} StoredAbove(packets: map<nat, seq<byte>>, k: nat, l: nat)
    requires k <= l && forall i | i in packets :: i < k
    ensures StoredBytes(packets, l) == StoredBytes(packets, k)
  {
    if k < l { StoredAbove(packets, k, l - 1); }
  }

  /**
   * The packets a grant reaches are all stored exactly when they hold at least the granted
   * bytes: leaving out any one of them, short last packet included, would leave fewer.
   */
  lemma GrantedBytesFillGrantedPackets(packets: map<nat, seq<byte>>, n: nat, p: nat, granted: nat)
    requires 0 < p && Sized(packets, n, p) && granted <= n
    ensures granted <= StoredBytes(packets, CeilDiv(granted, p)) <==>
            forall i: nat | i < CeilDiv(granted, p) :: i in packets
  {
    var k := CeilDiv(granted, p);
    CeilDivMono(granted, n, p);
    if forall i: nat | i < k :: i in packets {
      StoredComplete(packets, n, p, k);
    } else {
      var i: nat :| i < k && i !in packets;
      StoredBelow(packets, n, p, k, i);
      MissingOneIsTooMany(n, p, granted, i);
    }
  }

  lemma MissingOneIsTooMany(n: nat, p: nat, granted: nat, i: nat)
    requires 0 < p && granted <= n && i < CeilDiv(granted, p) <= CeilDiv(n, p)
    ensures Min(CeilDiv(granted, p) * p, n) - SizeAt(n, p, i) < granted
  {
    var k := CeilDiv(granted, p);
    assert k * p < granted + p;
    if SizeAt(n, p, i) < p {
      MulMono(i + 1, k, p);
      assert (i + 1) * p == i * p + p;
      assert i + 1 == k;
    }
  }

  /** As many distinct indices below `n` as there are is all of them. */
  lemma {:induction false} CountIsComplete(s: set<nat>, n: nat)
    requires forall i | i in s :: i < n
    ensures |s| <= n
    ensures |s| == n <==> forall i: nat | i < n :: i in s
  {
    if n > 0 {
      var t := s - {n - 1};
      CountIsComplete(t, n - 1);
      if n - 1 in s {
        assert |s| == |t| + 1;
        assert forall i: nat | i < n - 1 :: i in s <==> i in t;
      } else {
        assert t == s;
        assert n - 1 !in s;
      }
    } else {
      assert s == {};
    }
  }
}
