/**
 * `trySend` walks the send queue once, with an iterator that stays on its node when
 * `prioritize` moves the node.  These lemmas relate one turn of that walk to one turn of
 * the scheduling rule.
 */
module QueueWalk {
  import opened Chains
  import opened Protocol
  import opened Ordering
  import opened SendQueue

  /** Nothing can be sent for the messages before the iterator. */
  ghost predicate CleanBefore(q: Queue, i: nat)
    requires i <= |q.order|
  {
    forall k | 0 <= k < i :: !ReadyIn(q.msgs, q.order[k])
  }

  lemma {:induction false} FirstReadyFrom(q: Queue, i: nat, j: nat)
    requires i <= j <= |q.order| && forall k | i <= k < j :: !ReadyIn(q.msgs, q.order[k])
    ensures FirstReady(q, i) == FirstReady(q, j)
    decreases j - i
  {
    if i < j { FirstReadyFrom(q, i + 1, j); }
  }

  /** With nothing to do before the iterator, what it points at is what the rule picks. */
  lemma IteratorIsFirst(q: Queue, i: nat)
    requires i < |q.order| && CleanBefore(q, i) && ReadyIn(q.msgs, q.order[i])
    ensures FirstReady(q, 0) == i
  {
    FirstReadyFrom(q, 0, i);
  }

  /** What is sent next, and whether anything is, depends on the turn alone. */
  lemma RuleIsDeterministic(limit: nat, header: nat)
    ensures Deterministic(Rule(limit, header))
  {
  }

  lemma SendsOrStops(t: Turn, blocked: bool, limit: nat, header: nat)
    requires Stops(t, blocked, limit, header)
    ensures forall s, t' :: !Rule(limit, header)(t, s, t')
  {
  }

  /** A trace from start to stop is what the rule does. */
  lemma TraceIsSrpt(turns: seq<Turn>, sent: seq<Sent>, blocked: bool, limit: nat, header: nat, r: Outcome)
    requires 0 < header && Trace(turns, sent, limit, header) && Stops(turns[|sent|], blocked, limit, header)
    requires r == Srpt(turns[0].q, turns[0].queued, limit, header)
    ensures r == Outcome(turns[|sent|].q, sent, blocked)
  {
    var others := SrptHasTrace(turns[0].q, turns[0].queued, limit, header, r);
    RuleIsDeterministic(limit, header);
    SendsOrStops(turns[|sent|], blocked, limit, header);
    SendsOrStops(others[|r.sent|], r.blocked, limit, header);
    ChainsAreEqual(turns, sent, others, r.sent, Rule(limit, header));
  }

  // ----------------------------------------------- one packet, as performed

  /** The messages after the byte counter of the sending message was lowered. */
  function Resized(q: Queue, i: nat): map<MessageId, OutMessage>
    requires i < |q.order| && ReadyIn(q.msgs, q.order[i])
  {
    var m := q.msgs[q.order[i]];
    q.msgs[q.order[i] := m.(unsentBytes := m.unsentBytes - |m.packets[m.packetsSent]|)]
  }

  /** Lower the byte counter, `prioritize`, count the packet. */
  function SentInPlace(q: Queue, i: nat): Queue
    requires i < |q.order| && ReadyIn(q.msgs, q.order[i])
  {
    var id := q.order[i];
    Queue(Resized(q, i)[id := Resized(q, i)[id].(packetsSent := q.msgs[id].packetsSent + 1)],
          Prioritized(q.order, i, BySize(Resized(q, i))))
  }

  /** Where the node, and with it the iterator, ends up. */
  function NewPosition(q: Queue, i: nat): (j: nat)
    requires i < |q.order| && ReadyIn(q.msgs, q.order[i])
    ensures j <= i
  {
    Rise(q.order, q.order[i], i, BySize(Resized(q, i)))
  }

  /** The queue once a completely sent message at index `i` has been marked SENT and removed. */
  function Settled(q: Queue, i: nat): Queue
    requires i < |q.order| && q.order[i] in q.msgs
  {
    var m := q.msgs[q.order[i]];
    if m.packetsSent >= |m.packets|
    then Queue(q.msgs[q.order[i] := m.(status := SENT)], RemoveAt(q.order, i))
    else q
  }

  lemma {:induction false} RiseAgrees<T>(s: seq<T>, x: T, pos: nat, a: (T, T) -> bool, b: (T, T) -> bool)
    requires pos <= |s| && forall k | 0 <= k < pos :: a(x, s[k]) == b(x, s[k])
    ensures Rise(s, x, pos, a) == Rise(s, x, pos, b)
  {
    if pos > 0 { RiseAgrees(s, x, pos - 1, a, b); }
  }

  /** The iterator still points at the message, and the messages before it are the same. */
  lemma InPlaceOrder(q: Queue, i: nat)
    requires i < |q.order| && ReadyIn(q.msgs, q.order[i])
    ensures var t, j := SentInPlace(q, i), NewPosition(q, i);
            && |t.order| == |q.order| && t.order[j] == q.order[i]
            && forall k | 0 <= k < j :: t.order[k] == q.order[k]
  {
    var j := NewPosition(q, i);
    forall k: nat | k <= j ensures SentInPlace(q, i).order[k] == if k < j then q.order[k] else q.order[i] {
      MoveAt(q.order, i, j, k);
    }
  }

  lemma InPlaceMessages(q: Queue, i: nat)
    requires i < |q.order| && ReadyIn(q.msgs, q.order[i])
    ensures SentInPlace(q, i).msgs ==
            q.msgs[q.order[i] := Transmitted(q.msgs[q.order[i]]).(status := q.msgs[q.order[i]].status)]
  {
  }

  lemma FinishedSettles(q: Queue, i: nat)
    requires i < |q.order| && ReadyIn(q.msgs, q.order[i])
    requires q.msgs[q.order[i]].packetsSent + 1 >= |q.msgs[q.order[i]].packets|
    ensures SentInPlace(q, i).order[NewPosition(q, i)] in SentInPlace(q, i).msgs
    ensures Settled(SentInPlace(q, i), NewPosition(q, i)) == SendAt(q, i)
  {
    var t, id := SentInPlace(q, i), q.order[i];
    InPlaceOrder(q, i);
    InPlaceMessages(q, i);
    MoveKeepsTheRest(q.order, i, NewPosition(q, i));
    var m := Transmitted(q.msgs[id]);
    assert t.msgs[id := m] == q.msgs[id := m];
  }

  lemma UnfinishedSettles(q: Queue, i: nat)
    requires i < |q.order| && ReadyIn(q.msgs, q.order[i]) && q.msgs[q.order[i]].status == IN_PROGRESS
    requires q.msgs[q.order[i]].packetsSent + 1 < |q.msgs[q.order[i]].packets|
    ensures SentInPlace(q, i) == SendAt(q, i)
  {
    var id := q.order[i];
    InPlaceMessages(q, i);
    RiseAgrees(q.order, id, i, BySize(Resized(q, i)), BySize(q.msgs[id := Transmitted(q.msgs[id])]));
  }

  /** Marking and removing a finished message afterwards completes the rule's step. */
  lemma InPlaceSettles(q: Queue, i: nat)
    requires i < |q.order| && ReadyIn(q.msgs, q.order[i]) && q.msgs[q.order[i]].status == IN_PROGRESS
    ensures SentInPlace(q, i).order[NewPosition(q, i)] in SentInPlace(q, i).msgs
    ensures Settled(SentInPlace(q, i), NewPosition(q, i)) == SendAt(q, i)
  {
    InPlaceOrder(q, i);
    InPlaceMessages(q, i);
    if q.msgs[q.order[i]].packetsSent + 1 >= |q.msgs[q.order[i]].packets| {
      FinishedSettles(q, i);
    } else {
      UnfinishedSettles(q, i);
    }
  }

  /** The messages before the iterator still have nothing to send. */
  lemma InPlaceClean(q: Queue, i: nat)
    requires QueueInv(q) && i < |q.order| && ReadyIn(q.msgs, q.order[i]) && CleanBefore(q, i)
    ensures NewPosition(q, i) <= |SentInPlace(q, i).order| && CleanBefore(SentInPlace(q, i), NewPosition(q, i))
  {
    InPlaceOrder(q, i);
  }

  // ------------------------------------------------------ the walk as a whole

  /** A stage of the walk: where the iterator is, what the driver holds, what was sent so far. */
  datatype Stage = Stage(q: Queue, pos: nat, queued: nat, sent: seq<Sent>)

  /** Between messages: the packets so far are a trace of the rule that has led here. */
  ghost predicate Walking(w: Stage, limit: nat, header: nat, turns: seq<Turn>) {
    && w.pos <= |w.q.order|
    && QueueInv(w.q) && CleanBefore(w.q, w.pos)
    && Trace(turns, w.sent, limit, header) && turns[|w.sent|] == Turn(w.q, w.queued)
  }

  /** Inside a message: the same, but the message may be finished without being marked yet. */
  ghost predicate Sending(w: Stage, limit: nat, header: nat, turns: seq<Turn>) {
    && w.pos < |w.q.order| && w.q.order[w.pos] in w.q.msgs
    && QueueInv(Settled(w.q, w.pos)) && CleanBefore(w.q, w.pos)
    && Trace(turns, w.sent, limit, header) && turns[|w.sent|] == Turn(Settled(w.q, w.pos), w.queued)
    && SendingMessage(w.q.msgs[w.q.order[w.pos]])
  }

  ghost predicate SendingMessage(m: OutMessage) {
    m.status == IN_PROGRESS && 0 <= m.packetsSent <= m.packetsGranted <= |m.packets|
  }

  /** The stage after the message under the iterator sent a packet. */
  function SentOne(w: Stage, header: nat): Stage
    requires w.pos < |w.q.order| && ReadyIn(w.q.msgs, w.q.order[w.pos])
  {
    var next := NextPacketOf(w.q, w.pos, header);
    Stage(SentInPlace(w.q, w.pos), NewPosition(w.q, w.pos), w.queued + next.length, w.sent + [next])
  }

  lemma EnterMessage(w: Stage, limit: nat, header: nat, turns: seq<Turn>)
    requires Walking(w, limit, header, turns) && w.pos < |w.q.order|
    ensures Sending(w, limit, header, turns)
  {
    QueueEntry(w.q, w.pos);
  }

  lemma SendingReady(w: Stage, limit: nat, header: nat, turns: seq<Turn>)
    requires Sending(w, limit, header, turns) && w.q.msgs[w.q.order[w.pos]].Ready()
    ensures ReadyIn(w.q.msgs, w.q.order[w.pos]) && QueueInv(w.q) && w.q.msgs[w.q.order[w.pos]].Valid()
    ensures turns[|w.sent|] == Turn(w.q, w.queued)
  {
    QueueEntry(w.q, w.pos);
  }

  lemma StillSending(q: Queue, i: nat)
    requires i < |q.order| && ReadyIn(q.msgs, q.order[i]) && q.msgs[q.order[i]].status == IN_PROGRESS
    ensures var t, j := SentInPlace(q, i), NewPosition(q, i);
            j < |t.order| && t.order[j] == q.order[i] && t.order[j] in t.msgs && SendingMessage(t.msgs[t.order[j]])
  {
    InPlaceOrder(q, i);
    InPlaceMessages(q, i);
  }

  /** Sending counts the packet, touches no other message and keeps the iterator on the message. */
  lemma SentOneFacts(w: Stage, header: nat, id: MessageId)
    requires w.pos < |w.q.order| && ReadyIn(w.q.msgs, w.q.order[w.pos]) && w.q.order[w.pos] == id && 0 < header
    ensures var t := SentOne(w, header);
            && t.pos < |t.q.order| && t.q.order[t.pos] == id && id in t.q.msgs
            && t.q.msgs[id].packetsSent == w.q.msgs[id].packetsSent + 1
            && t.q.msgs[id].packetsGranted == w.q.msgs[id].packetsGranted
            && t.q.msgs == w.q.msgs[id := t.q.msgs[id]]
            && w.queued < t.queued == w.queued + NextPacketOf(w.q, w.pos, header).length
  {
    InPlaceOrder(w.q, w.pos);
    InPlaceMessages(w.q, w.pos);
  }

  /** The turn that follows when the message under the iterator sends. */
  function NextTurn(w: Stage, header: nat): Turn
    requires w.pos < |w.q.order| && ReadyIn(w.q.msgs, w.q.order[w.pos])
  {
    Turn(SendAt(w.q, w.pos), w.queued + NextPacketOf(w.q, w.pos, header).length)
  }

  lemma SendingTrace(w: Stage, limit: nat, header: nat, turns: seq<Turn>)
    requires Sending(w, limit, header, turns) && ReadyIn(w.q.msgs, w.q.order[w.pos])
    requires w.queued + NextPacketOf(w.q, w.pos, header).length <= limit
    ensures Trace(turns + [NextTurn(w, header)], w.sent + [NextPacketOf(w.q, w.pos, header)], limit, header)
  {
    SendingReady(w, limit, header, turns);
    IteratorIsFirst(w.q, w.pos);
    ChainExtends(turns, w.sent, Rule(limit, header), NextPacketOf(w.q, w.pos, header), NextTurn(w, header));
  }

  /** Sending a packet that fits takes the walk from stage to stage. */
  lemma SendingContinues(w: Stage, limit: nat, header: nat, turns: seq<Turn>)
    requires Sending(w, limit, header, turns) && ReadyIn(w.q.msgs, w.q.order[w.pos])
    requires w.queued + NextPacketOf(w.q, w.pos, header).length <= limit
    ensures Sending(SentOne(w, header), limit, header, turns + [NextTurn(w, header)])
  {
    SendingReady(w, limit, header, turns);
    SendingTrace(w, limit, header, turns);
    SendAtKeepsInv(w.q, w.pos);
    StillSending(w.q, w.pos);
    InPlaceSettles(w.q, w.pos);
    InPlaceClean(w.q, w.pos);
  }

  /** A packet that does not fit stops the rule. */
  lemma SendingBlocks(w: Stage, limit: nat, header: nat, turns: seq<Turn>)
    requires Sending(w, limit, header, turns) && ReadyIn(w.q.msgs, w.q.order[w.pos])
    requires w.queued + NextPacketOf(w.q, w.pos, header).length > limit
    ensures turns[|w.sent|] == Turn(w.q, w.queued) && Stops(Turn(w.q, w.queued), true, limit, header)
  {
    SendingReady(w, limit, header, turns);
    IteratorIsFirst(w.q, w.pos);
  }

  /** A message that sent all its packets is marked and removed; the iterator is on its successor. */
  lemma LeaveFinished(w: Stage, limit: nat, header: nat, turns: seq<Turn>)
    requires Sending(w, limit, header, turns)
    requires w.q.msgs[w.q.order[w.pos]].packetsSent >= |w.q.msgs[w.q.order[w.pos]].packets|
    ensures Walking(w.(q := Settled(w.q, w.pos)), limit, header, turns)
  {
    var t := Settled(w.q, w.pos);
    forall k | 0 <= k < w.pos ensures !ReadyIn(t.msgs, t.order[k]) {
      assert t.order[k] == w.q.order[k];
    }
  }

  /** A message that sent all it may stays; the iterator steps over it. */
  lemma LeaveWaiting(w: Stage, limit: nat, header: nat, turns: seq<Turn>)
    requires Sending(w, limit, header, turns)
    requires w.q.msgs[w.q.order[w.pos]].packetsSent < |w.q.msgs[w.q.order[w.pos]].packets|
    requires !w.q.msgs[w.q.order[w.pos]].Ready()
    ensures Walking(w.(pos := w.pos + 1), limit, header, turns)
  {
  }

  /** At the end of the queue the rule stops for want of work. */
  lemma WalkOver(w: Stage, limit: nat, header: nat, turns: seq<Turn>)
    requires Walking(w, limit, header, turns) && w.pos == |w.q.order|
    ensures Stops(turns[|w.sent|], false, limit, header)
  {
    FirstReadyFrom(w.q, 0, w.pos);
  }
}
