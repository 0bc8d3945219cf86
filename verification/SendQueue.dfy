/**
 * The sender's queue and its scheduling rule, shortest remaining first.  `Srpt` is the
 * rule stated simply: look for the first message that may send, send one packet of it,
 * start over.  `Sender.TrySend` walks the queue once with an iterator and is proved to
 * do the same.
 */
module SendQueue {
  import opened Base
  import opened Chains
  import opened Protocol
  import opened Ordering

  datatype Queue = Queue(msgs: map<MessageId, OutMessage>, order: seq<MessageId>)

  function Unsent(msgs: map<MessageId, OutMessage>, id: MessageId): int {
    if id in msgs then msgs[id].unsentBytes else 0
  }

  /** QueuedMessageInfo::ComparePriority. */
  function BySize(msgs: map<MessageId, OutMessage>): (MessageId, MessageId) -> bool {
    (a, b) => Unsent(msgs, a) < Unsent(msgs, b)
  }

  lemma BySizeIsOrder(msgs: map<MessageId, OutMessage>)
    ensures StrictWeakOrder(BySize(msgs))
  {
  }

  predicate InQueue(msgs: map<MessageId, OutMessage>, id: MessageId) {
    id in msgs && msgs[id].status == IN_PROGRESS
  }

  /** The message has a granted packet that was not sent yet. */
  predicate ReadyIn(msgs: map<MessageId, OutMessage>, id: MessageId) {
    id in msgs && 0 <= msgs[id].packetsSent < msgs[id].packetsGranted <= |msgs[id].packets|
  }

  /** The queue holds exactly the IN_PROGRESS messages, each once, fewest unsent bytes first. */
  ghost predicate QueueInv(q: Queue) {
    && NoDup(q.order)
    && (forall id :: id in q.order <==> InQueue(q.msgs, id))
    && (forall id | id in q.msgs :: q.msgs[id].Valid())
    && Sorted(q.order, BySize(q.msgs))
  }

  /** The first message from index `i` on that has granted unsent packets. */
  function FirstReady(q: Queue, i: nat): (r: nat)
    requires i <= |q.order|
    ensures i <= r <= |q.order|
    ensures r < |q.order| ==> ReadyIn(q.msgs, q.order[r])
    ensures forall k | i <= k < r :: !ReadyIn(q.msgs, q.order[k])
    decreases |q.order| - i
  {
    if i == |q.order| || ReadyIn(q.msgs, q.order[i]) then i else FirstReady(q, i + 1)
  }

  /** Send one packet of the message at index `i`: it moves up, or leaves when it was the last packet. */
  function SendAt(q: Queue, i: nat): Queue
    requires i < |q.order| && ReadyIn(q.msgs, q.order[i])
  {
    var m := Transmitted(q.msgs[q.order[i]]);
    var msgs := q.msgs[q.order[i] := m];
    Queue(msgs, if m.status == SENT then RemoveAt(q.order, i) else Prioritized(q.order, i, BySize(msgs)))
  }

  /** A queue entry is a valid message in progress. */
  lemma QueueEntry(q: Queue, i: nat)
    requires QueueInv(q) && i < |q.order|
    ensures q.order[i] in q.msgs
    ensures var m := q.msgs[q.order[i]];
            m.Valid() && m.status == IN_PROGRESS && 1 < |m.packets| && (ReadyIn(q.msgs, q.order[i]) <==> m.Ready())
  {
    assert q.order[i] in q.order;
  }

  /** Taking one element out of a sorted list leaves it sorted under a key that changed only for that element. */
  lemma RestSorted(q: Queue, i: nat, m: OutMessage)
    requires QueueInv(q) && i < |q.order|
    ensures Sorted(RemoveAt(q.order, i), BySize(q.msgs[q.order[i] := m]))
  {
    var rest := RemoveAt(q.order, i);
    forall a, b | 0 <= a < b < |rest| ensures !BySize(q.msgs[q.order[i] := m])(rest[b], rest[a]) {
      var a', b' := if a < i then a else a + 1, if b < i then b else b + 1;
      assert rest[a] == q.order[a'] && rest[b] == q.order[b'];
      assert !BySize(q.msgs)(q.order[b'], q.order[a']);
    }
  }

  lemma SendAtKeepsOrder(q: Queue, i: nat)
    requires QueueInv(q) && i < |q.order| && ReadyIn(q.msgs, q.order[i])
    ensures Sorted(SendAt(q, i).order, BySize(SendAt(q, i).msgs))
  {
    var id := q.order[i];
    var m := Transmitted(q.msgs[id]);
    QueueEntry(q, i);
    TransmitKeepsValid(q.msgs[id]);
    RestSorted(q, i, m);
    if m.status != SENT {
      var less := BySize(q.msgs[id := m]);
      BySizeIsOrder(q.msgs[id := m]);
      forall k | i < k < |q.order| ensures !less(q.order[k], q.order[i]) {
        assert !BySize(q.msgs)(q.order[k], q.order[i]);
      }
      PrioritizeSorts(q.order, i, less);
    }
  }

  lemma SendAtMembers(q: Queue, i: nat)
    requires QueueInv(q) && i < |q.order| && ReadyIn(q.msgs, q.order[i])
    ensures NoDup(SendAt(q, i).order)
    ensures forall id :: id in SendAt(q, i).order <==> InQueue(SendAt(q, i).msgs, id)
  {
    var id := q.order[i];
    var m := Transmitted(q.msgs[id]);
    QueueEntry(q, i);
    if m.status == SENT {
      RemoveMembers(q.order, i);
    } else {
      var j := Rise(q.order, id, i, BySize(q.msgs[id := m]));
      MoveNoDup(q.order, i, j);
      MoveSameElements(q.order, i, j);
    }
  }

  /** Sending one packet keeps the queue invariant. */
  lemma SendAtKeepsInv(q: Queue, i: nat)
    requires QueueInv(q) && i < |q.order| && ReadyIn(q.msgs, q.order[i])
    ensures QueueInv(SendAt(q, i))
  {
    QueueEntry(q, i);
    TransmitKeepsValid(q.msgs[q.order[i]]);
    SendAtKeepsOrder(q, i);
    SendAtMembers(q, i);
  }

  /** The first message that may send has the fewest unsent bytes of all that may. */
  lemma FirstReadyIsLeast(q: Queue, id: MessageId)
    requires QueueInv(q) && InQueue(q.msgs, id) && ReadyIn(q.msgs, id)
    ensures FirstReady(q, 0) < |q.order| && Unsent(q.msgs, q.order[FirstReady(q, 0)]) <= Unsent(q.msgs, id)
  {
    assert id in q.order;
    var k :| 0 <= k < |q.order| && q.order[k] == id;
    var i := FirstReady(q, 0);
    if i < k {
      assert !BySize(q.msgs)(q.order[k], q.order[i]);
    }
  }

  /** One packet handed to the driver with a priority; `length` includes the header. */
  datatype Sent = Sent(id: MessageId, index: nat, length: nat, priority: int)

  datatype Outcome = Outcome(queue: Queue, sent: seq<Sent>, blocked: bool)

  /** What sending the next packet of the message at index `i` puts on the wire. */
  function NextPacketOf(q: Queue, i: nat, header: nat): Sent
    requires i < |q.order| && ReadyIn(q.msgs, q.order[i])
  {
    var m := q.msgs[q.order[i]];
    Sent(q.order[i], m.packetsSent, header + |m.packets[m.packetsSent]|, m.priority)
  }

  /** What the rule does after a first packet, with that packet. */
  function SentFirst(next: Sent, rest: Outcome): Outcome { Outcome(rest.queue, [next] + rest.sent, rest.blocked) }

  /**
   * The scheduling rule: while some message may send and its next packet fits under the
   * driver's limit, send one packet of the first such message.
   */
  function Srpt(q: Queue, queued: nat, limit: nat, header: nat): Outcome
    requires 0 < header
    decreases if queued <= limit then limit - queued + 1 else 0
  {
    var i := FirstReady(q, 0);
    if i == |q.order| then Outcome(q, [], false) else
      var next := NextPacketOf(q, i, header);
      if queued + next.length > limit then Outcome(q, [], true) else
        SentFirst(next, Srpt(SendAt(q, i), queued + next.length, limit, header))
  }

  // ------------------------------------------------- turns of the rule

  /** The queue and the bytes in the driver's queue, at one turn of the rule. */
  datatype Turn = Turn(q: Queue, queued: nat)

  /** The rule sends packet `s` in turn `t` and goes on with turn `t'`. */
  ghost predicate Sends(t: Turn, t': Turn, s: Sent, limit: nat, header: nat) {
    var i := FirstReady(t.q, 0);
    && i < |t.q.order| && s == NextPacketOf(t.q, i, header)
    && t' == Turn(SendAt(t.q, i), t.queued + s.length) && t'.queued <= limit
  }

  /** The rule stops in turn `t`, because of the driver's limit or because nothing is left. */
  ghost predicate Stops(t: Turn, blocked: bool, limit: nat, header: nat) {
    var i := FirstReady(t.q, 0);
    && (blocked <==> i < |t.q.order|)
    && (blocked ==> t.queued + NextPacketOf(t.q, i, header).length > limit)
  }

  ghost function Rule(limit: nat, header: nat): (Turn, Sent, Turn) -> bool {
    (t, s, t') => Sends(t, t', s, limit, header)
  }

  /** Turns of the rule, one after the other, with the packets sent. */
  ghost predicate Trace(turns: seq<Turn>, sent: seq<Sent>, limit: nat, header: nat) {
    Chain(turns, sent, Rule(limit, header))
  }

  lemma TraceStep(turns: seq<Turn>, sent: seq<Sent>, limit: nat, header: nat, k: nat)
    requires Trace(turns, sent, limit, header) && k < |sent|
    ensures Sends(turns[k], turns[k + 1], sent[k], limit, header)
  {
    ChainStep(turns, sent, Rule(limit, header), k);
  }

  /** The rule stops in this turn. */
  predicate MustStop(q: Queue, queued: nat, limit: nat, header: nat) {
    var i := FirstReady(q, 0);
    i == |q.order| || queued + NextPacketOf(q, i, header).length > limit
  }

  lemma SrptStops(q: Queue, queued: nat, limit: nat, header: nat, r: Outcome)
    requires 0 < header && r == Srpt(q, queued, limit, header) && MustStop(q, queued, limit, header)
    ensures r.queue == q && r.sent == [] && Stops(Turn(q, queued), r.blocked, limit, header)
  {
  }

  lemma SrptUnfolds(q: Queue, queued: nat, limit: nat, header: nat, i: nat, next: Sent)
    requires 0 < header && i == FirstReady(q, 0) < |q.order| && next == NextPacketOf(q, i, header)
    requires queued + next.length <= limit
    ensures Srpt(q, queued, limit, header) == SentFirst(next, Srpt(SendAt(q, i), queued + next.length, limit, header))
  {
  }

  lemma SrptGoesOn(q: Queue, queued: nat, limit: nat, header: nat, r: Outcome)
    returns (t: Turn, next: Sent, rest: Outcome)
    requires 0 < header && r == Srpt(q, queued, limit, header) && !MustStop(q, queued, limit, header)
    ensures Sends(Turn(q, queued), t, next, limit, header) && 0 < next.length
    ensures rest == Srpt(t.q, t.queued, limit, header)
    ensures r.queue == rest.queue && r.sent == [next] + rest.sent && r.blocked == rest.blocked
  {
    next := NextPacketOf(q, FirstReady(q, 0), header);
    t := Turn(SendAt(q, FirstReady(q, 0)), queued + next.length);
    rest := Srpt(t.q, t.queued, limit, header);
    SrptUnfolds(q, queued, limit, header, FirstReady(q, 0), next);
  }

  /** What the rule does is a trace from start to stop; all that follows is read off it. */
  lemma {:induction false} SrptHasTrace(q: Queue, queued: nat, limit: nat, header: nat, r: Outcome)
    returns (turns: seq<Turn>)
    requires 0 < header && r == Srpt(q, queued, limit, header)
    ensures Trace(turns, r.sent, limit, header) && turns[0] == Turn(q, queued)
    ensures turns[|r.sent|].q == r.queue && Stops(turns[|r.sent|], r.blocked, limit, header)
    decreases if queued <= limit then limit - queued + 1 else 0
  {
    if MustStop(q, queued, limit, header) {
      SrptStops(q, queued, limit, header, r);
      turns := [Turn(q, queued)];
    } else {
      var t, next, rest := SrptGoesOn(q, queued, limit, header, r);
      var later := SrptHasTrace(t.q, t.queued, limit, header, rest);
      ChainCons(Turn(q, queued), next, later, rest.sent, Rule(limit, header));
      turns := [Turn(q, queued)] + later;
    }
  }

  // ------------------------------------------------- what the rule achieves

  lemma RuleKeepsInv(limit: nat, header: nat)
    ensures Keeps(Rule(limit, header), (t: Turn) => QueueInv(t.q))
  {
    forall t, s, t' | Rule(limit, header)(t, s, t') && QueueInv(t.q) ensures QueueInv(t'.q) {
      SendAtKeepsInv(t.q, FirstReady(t.q, 0));
    }
  }

  lemma TraceKeepsInv(turns: seq<Turn>, sent: seq<Sent>, limit: nat, header: nat, n: nat)
    requires Trace(turns, sent, limit, header) && n <= |sent| && QueueInv(turns[0].q)
    ensures QueueInv(turns[n].q)
  {
    RuleKeepsInv(limit, header);
    ChainKeeps(turns, sent, Rule(limit, header), (t: Turn) => QueueInv(t.q), n);
  }

  lemma SrptKeepsInv(q: Queue, queued: nat, limit: nat, header: nat, r: Outcome)
    requires 0 < header && r == Srpt(q, queued, limit, header)
    ensures QueueInv(q) ==> QueueInv(r.queue)
  {
    var turns := SrptHasTrace(q, queued, limit, header, r);
    if QueueInv(q) {
      TraceKeepsInv(turns, r.sent, limit, header, |r.sent|);
    }
  }

  function TotalLength(sent: seq<Sent>): nat {
    if sent == [] then 0 else TotalLength(sent[..|sent| - 1]) + sent[|sent| - 1].length
  }

  lemma {:induction false} TraceLength(turns: seq<Turn>, sent: seq<Sent>, limit: nat, header: nat, n: nat)
    requires Trace(turns, sent, limit, header) && n <= |sent|
    ensures turns[n].queued == turns[0].queued + TotalLength(sent[..n])
    ensures 0 < n ==> turns[n].queued <= limit
  {
    if n > 0 {
      TraceLength(turns, sent, limit, header, n - 1);
      TraceStep(turns, sent, limit, header, n - 1);
      assert sent[..n][..n - 1] == sent[..n - 1];
    }
  }

  /** The driver's queue is never filled past its limit, and left alone if it is past it already. */
  lemma SrptStaysUnderLimit(q: Queue, queued: nat, limit: nat, header: nat, r: Outcome)
    requires 0 < header && r == Srpt(q, queued, limit, header)
    ensures if queued <= limit then queued + TotalLength(r.sent) <= limit else r.sent == []
  {
    var turns := SrptHasTrace(q, queued, limit, header, r);
    TraceLength(turns, r.sent, limit, header, |r.sent|);
    assert r.sent[..|r.sent|] == r.sent;
    if r.sent != [] {
      TraceLength(turns, r.sent, limit, header, 1);
    }
  }

  /**
   * The rule stops for one of two reasons: no queued message may send any more, or the
   * next packet of the first one that may would take the driver past its limit.
   */
  lemma SrptStopsForAReason(q: Queue, queued: nat, limit: nat, header: nat, r: Outcome)
    requires 0 < header && r == Srpt(q, queued, limit, header)
    ensures r.blocked <==> FirstReady(r.queue, 0) < |r.queue.order|
    ensures r.blocked ==>
              queued + TotalLength(r.sent) + NextPacketOf(r.queue, FirstReady(r.queue, 0), header).length > limit
  {
    var turns := SrptHasTrace(q, queued, limit, header, r);
    TraceLength(turns, r.sent, limit, header, |r.sent|);
    assert r.sent[..|r.sent|] == r.sent;
  }

  /** When the rule is not blocked, no queued message has granted packets left to send. */
  lemma SrptFinishes(q: Queue, queued: nat, limit: nat, header: nat, r: Outcome)
    requires QueueInv(q) && 0 < header && r == Srpt(q, queued, limit, header) && !r.blocked
    ensures forall id | InQueue(r.queue.msgs, id) :: !r.queue.msgs[id].Ready()
  {
    SrptStopsForAReason(q, queued, limit, header, r);
    SrptKeepsInv(q, queued, limit, header, r);
    forall id | InQueue(r.queue.msgs, id) ensures !r.queue.msgs[id].Ready() {
      assert id in r.queue.order;
      var k :| 0 <= k < |r.queue.order| && r.queue.order[k] == id;
      QueueEntry(r.queue, k);
    }
  }

  /** Every packet of the sequence belongs to a message with the fewest unsent bytes of those that may send. */
  ghost predicate ShortestFirst(q: Queue, sent: seq<Sent>, header: nat)
    decreases |sent|
  {
    sent != [] ==>
      exists i :: ShortestAt(q, i) && sent[0] == NextPacketOf(q, i, header) &&
                  ShortestFirst(SendAt(q, i), sent[1..], header)
  }

  ghost predicate ShortestAt(q: Queue, i: int) {
    && 0 <= i < |q.order| && ReadyIn(q.msgs, q.order[i])
    && forall id | InQueue(q.msgs, id) && ReadyIn(q.msgs, id) :: Unsent(q.msgs, q.order[i]) <= Unsent(q.msgs, id)
  }

  lemma FirstReadyIsShortest(q: Queue)
    requires QueueInv(q) && FirstReady(q, 0) < |q.order|
    ensures ShortestAt(q, FirstReady(q, 0))
  {
    forall id | InQueue(q.msgs, id) && ReadyIn(q.msgs, id)
      ensures Unsent(q.msgs, q.order[FirstReady(q, 0)]) <= Unsent(q.msgs, id)
    {
      FirstReadyIsLeast(q, id);
    }
  }

  lemma {:induction false} TraceIsShortestFirst(turns: seq<Turn>, sent: seq<Sent>, limit: nat, header: nat, n: nat)
    requires Trace(turns, sent, limit, header) && n <= |sent| && QueueInv(turns[0].q)
    ensures ShortestFirst(turns[n].q, sent[n..], header)
    decreases |sent| - n
  {
    if n < |sent| {
      TraceIsShortestFirst(turns, sent, limit, header, n + 1);
      TraceKeepsInv(turns, sent, limit, header, n);
      var q := turns[n].q;
      TraceStep(turns, sent, limit, header, n);
      FirstReadyIsShortest(q);
      assert sent[n..][1..] == sent[n + 1..];
      var i := FirstReady(q, 0);
      assert ShortestAt(q, i) && ShortestFirst(SendAt(q, i), sent[n..][1..], header);
    }
  }

  /** `trySend` is shortest remaining first, packet by packet. */
  lemma SrptIsShortestFirst(q: Queue, queued: nat, limit: nat, header: nat, r: Outcome)
    requires 0 < header && r == Srpt(q, queued, limit, header)
    ensures QueueInv(q) ==> ShortestFirst(q, r.sent, header)
  {
    var turns := SrptHasTrace(q, queued, limit, header, r);
    if QueueInv(q) {
      TraceIsShortestFirst(turns, r.sent, limit, header, 0);
      assert r.sent[0..] == r.sent;
    }
  }

  /** A message after sending `k` packets in a row. */
  function TransmittedTimes(m: OutMessage, k: nat): (r: OutMessage)
    requires 0 <= m.packetsSent && m.packetsSent + k <= |m.packets|
    ensures r.packetsSent == m.packetsSent + k && r.packets == m.packets
    ensures r.packetsGranted == m.packetsGranted && r.held == m.held
    decreases k
  {
    if k == 0 then m else TransmittedTimes(Transmitted(m), k - 1)
  }

  /** The packet indices sent for one message. */
  function IndicesOf(sent: seq<Sent>, id: MessageId): seq<nat> {
    if sent == [] then []
    else (if sent[0].id == id then [sent[0].index] else []) + IndicesOf(sent[1..], id)
  }

  /** A message went from `m` to `r` by sending consecutive packets, the given ones. */
  ghost predicate SentInARow(m: OutMessage, r: OutMessage, indices: seq<nat>) {
    && (indices == [] ==> r == m)
    && (indices != [] ==>
          && 0 <= m.packetsSent && m.packetsSent + |indices| <= |m.packets|
          && r == TransmittedTimes(m, |indices|))
    && forall k | 0 <= k < |indices| :: indices[k] == m.packetsSent + k
  }

  lemma SentOneMore(m: OutMessage, r: OutMessage, indices: seq<nat>)
    requires 0 <= m.packetsSent < |m.packets| && SentInARow(Transmitted(m), r, indices)
    ensures SentInARow(m, r, [m.packetsSent] + indices)
  {
    var all := [m.packetsSent] + indices;
    if indices == [] {
      assert TransmittedTimes(m, 1) == TransmittedTimes(Transmitted(m), 0);
    }
    forall k | 0 <= k < |all| ensures all[k] == m.packetsSent + k {
      if k > 0 { assert all[k] == indices[k - 1]; }
    }
  }

  lemma IndicesCons(x: Sent, rest: seq<Sent>, id: MessageId)
    ensures IndicesOf([x] + rest, id) == (if x.id == id then [x.index] else []) + IndicesOf(rest, id)
  {
    assert ([x] + rest)[1..] == rest;
  }

  /** What handing out `s` did to a message. */
  ghost predicate Handed(m: OutMessage, m': OutMessage, s: Sent, id: MessageId) {
    if s.id == id
    then 0 <= m.packetsSent < |m.packets| && s.index == m.packetsSent && m' == Transmitted(m)
    else m' == m
  }

  /** One turn, seen from one message. */
  lemma TurnPerMessage(turns: seq<Turn>, sent: seq<Sent>, limit: nat, header: nat, n: nat, id: MessageId)
    requires Trace(turns, sent, limit, header) && n < |sent| && id in turns[n].q.msgs
    ensures id in turns[n + 1].q.msgs && Handed(turns[n].q.msgs[id], turns[n + 1].q.msgs[id], sent[n], id)
  {
    TraceStep(turns, sent, limit, header, n);
  }

  /** What was sent from some turn on, seen from one message. */
  lemma MoreInARow(m: OutMessage, m': OutMessage, r: OutMessage, sent: seq<Sent>, n: nat, id: MessageId)
    requires n < |sent| && SentInARow(m', r, IndicesOf(sent[n + 1..], id)) && Handed(m, m', sent[n], id)
    ensures SentInARow(m, r, IndicesOf(sent[n..], id))
  {
    assert sent[n..] == [sent[n]] + sent[n + 1..];
    IndicesCons(sent[n], sent[n + 1..], id);
    if sent[n].id == id {
      SentOneMore(m, r, IndicesOf(sent[n + 1..], id));
    } else {
      assert IndicesOf(sent[n..], id) == IndicesOf(sent[n + 1..], id);
    }
  }

  lemma {:induction false} TracePerMessage(turns: seq<Turn>, sent: seq<Sent>, limit: nat, header: nat, n: nat,
                                           id: MessageId)
    requires Trace(turns, sent, limit, header) && n <= |sent| && id in turns[n].q.msgs
    ensures id in turns[|sent|].q.msgs
    ensures SentInARow(turns[n].q.msgs[id], turns[|sent|].q.msgs[id], IndicesOf(sent[n..], id))
    decreases |sent| - n
  {
    if n < |sent| {
      TurnPerMessage(turns, sent, limit, header, n, id);
      TracePerMessage(turns, sent, limit, header, n + 1, id);
      MoreInARow(turns[n].q.msgs[id], turns[n + 1].q.msgs[id], turns[|sent|].q.msgs[id], sent, n, id);
    }
  }

  /**
   * Seen from one message, the rule sends some number of its packets, consecutive ones
   * from where it stood, and changes nothing else about it.
   */
  lemma SrptPerMessage(q: Queue, queued: nat, limit: nat, header: nat, r: Outcome, id: MessageId)
    requires 0 < header && id in q.msgs && r == Srpt(q, queued, limit, header)
    ensures id in r.queue.msgs && SentInARow(q.msgs[id], r.queue.msgs[id], IndicesOf(r.sent, id))
  {
    var turns := SrptHasTrace(q, queued, limit, header, r);
    TracePerMessage(turns, r.sent, limit, header, 0, id);
    assert r.sent[0..] == r.sent;
  }

  /** Sending changes neither the packets of a message nor its limit nor its priority. */
  ghost predicate SameContents(before: map<MessageId, OutMessage>, after: map<MessageId, OutMessage>) {
    && before.Keys == after.Keys
    && forall id | id in before ::
         && after[id].packets == before[id].packets && after[id].priority == before[id].priority
         && after[id].packetsGranted == before[id].packetsGranted
  }

  lemma RuleKeepsContents(limit: nat, header: nat, before: map<MessageId, OutMessage>)
    ensures Keeps(Rule(limit, header), (t: Turn) => SameContents(before, t.q.msgs))
  {
  }

  /** Every packet sent is a granted packet of a known message, whole, and goes out with the message's priority. */
  lemma SrptPackets(q: Queue, queued: nat, limit: nat, header: nat, r: Outcome, k: nat)
    requires 0 < header && r == Srpt(q, queued, limit, header) && k < |r.sent|
    ensures var x := r.sent[k];
            && x.id in q.msgs && x.index < |q.msgs[x.id].packets| && x.index < q.msgs[x.id].packetsGranted
            && x.length == header + |q.msgs[x.id].packets[x.index]| && x.priority == q.msgs[x.id].priority
  {
    var turns := SrptHasTrace(q, queued, limit, header, r);
    RuleKeepsContents(limit, header, q.msgs);
    ChainKeeps(turns, r.sent, Rule(limit, header), (t: Turn) => SameContents(q.msgs, t.q.msgs), k);
    TraceStep(turns, r.sent, limit, header, k);
  }

  /** The only change of status the rule makes is from IN_PROGRESS to SENT. */
  ghost predicate SentOnly(before: map<MessageId, OutMessage>, after: map<MessageId, OutMessage>) {
    && before.Keys == after.Keys
    && forall id | id in before ::
         && after[id].options == before[id].options && after[id].held == before[id].held
         && (after[id].status == before[id].status || (before[id].status == IN_PROGRESS && after[id].status == SENT))
  }

  lemma SendAtSentOnly(q: Queue, i: nat)
    requires QueueInv(q) && i < |q.order| && ReadyIn(q.msgs, q.order[i])
    ensures SentOnly(q.msgs, SendAt(q, i).msgs)
  {
    QueueEntry(q, i);
  }

  lemma SentOnlyTwice(a: map<MessageId, OutMessage>, b: map<MessageId, OutMessage>, c: map<MessageId, OutMessage>)
    requires SentOnly(a, b) && SentOnly(b, c)
    ensures SentOnly(a, c)
  {
  }

  lemma RuleSentOnly(limit: nat, header: nat, before: map<MessageId, OutMessage>)
    ensures Keeps(Rule(limit, header), (t: Turn) => QueueInv(t.q) && SentOnly(before, t.q.msgs))
  {
    forall t, s, t' | Rule(limit, header)(t, s, t') && QueueInv(t.q) && SentOnly(before, t.q.msgs)
      ensures QueueInv(t'.q) && SentOnly(before, t'.q.msgs)
    {
      SendAtKeepsInv(t.q, FirstReady(t.q, 0));
      SendAtSentOnly(t.q, FirstReady(t.q, 0));
      SentOnlyTwice(before, t.q.msgs, t'.q.msgs);
    }
  }

  lemma SrptSentOnly(q: Queue, queued: nat, limit: nat, header: nat, r: Outcome)
    requires 0 < header && QueueInv(q) && r == Srpt(q, queued, limit, header)
    ensures SentOnly(q.msgs, r.queue.msgs)
  {
    var turns := SrptHasTrace(q, queued, limit, header, r);
    RuleSentOnly(limit, header, q.msgs);
    ChainKeeps(turns, r.sent, Rule(limit, header), (t: Turn) => QueueInv(t.q) && SentOnly(q.msgs, t.q.msgs), |r.sent|);
  }

  /** A message that is not in the queue does not change. */
  lemma RuleSkips(limit: nat, header: nat, id: MessageId, m: OutMessage)
    requires m.status != IN_PROGRESS
    ensures Keeps(Rule(limit, header), (t: Turn) => QueueInv(t.q) && id in t.q.msgs && t.q.msgs[id] == m)
  {
    forall t, s, t' | Rule(limit, header)(t, s, t') && QueueInv(t.q) && id in t.q.msgs && t.q.msgs[id] == m
      ensures QueueInv(t'.q) && id in t'.q.msgs && t'.q.msgs[id] == m
    {
      SendAtKeepsInv(t.q, FirstReady(t.q, 0));
      QueueEntry(t.q, FirstReady(t.q, 0));
    }
  }

  lemma UnqueuedUnsent(q: Queue, queued: nat, limit: nat, header: nat, r: Outcome, id: MessageId)
    requires 0 < header && QueueInv(q) && id in q.msgs && r == Srpt(q, queued, limit, header)
    requires q.msgs[id].status != IN_PROGRESS
    ensures id in r.queue.msgs && r.queue.msgs[id] == q.msgs[id] && IndicesOf(r.sent, id) == []
  {
    var m := q.msgs[id];
    var turns := SrptHasTrace(q, queued, limit, header, r);
    RuleSkips(limit, header, id, m);
    ChainKeeps(turns, r.sent, Rule(limit, header),
               (t: Turn) => QueueInv(t.q) && id in t.q.msgs && t.q.msgs[id] == m, |r.sent|);
    SrptPerMessage(q, queued, limit, header, r, id);
  }

  /** The packet with this index of the message was sent. */
  ghost predicate IsSent(sent: seq<Sent>, id: MessageId, i: nat) {
    exists x :: x in sent && x.id == id && x.index == i
  }

  lemma {:induction false} IndicesMember(sent: seq<Sent>, id: MessageId, i: nat)
    ensures i in IndicesOf(sent, id) <==> IsSent(sent, id, i)
  {
    if sent != [] {
      IndicesMember(sent[1..], id, i);
      assert forall x :: x in sent <==> x == sent[0] || x in sent[1..];
    }
  }
}
