/**
 * The state of a Sender and what each event does to it, on values.  The Sender class
 * performs these events in place.
 */
module SenderModel {
  import opened Base
  import opened Protocol
  import opened Ordering
  import opened SendQueue

  /** What is fixed for a sender. */
  datatype Config = Config(
    transportId: nat,
    p: nat,          // PACKET_DATA_LENGTH
    header: nat,     // TRANSPORT_HEADER_LENGTH
    limit: nat,      // DRIVER_QUEUED_BYTE_LIMIT
    u: nat)          // unscheduled index limit
  {
    predicate Valid() { 0 < p && 0 < header }
  }

  datatype SenderState = SenderState(
    queue: Queue,
    sendReady: bool,
    done: seq<MessageId>,
    nextSequence: nat)

  /** What can happen to one tracked message. */
  datatype MessageEvent =
    | GrantArrived(byteLimit: nat, priority: int)
    | ResendArrived(index: nat, num: nat, priority: int)
    | UnknownArrived(policyPriority: int)
    | DoneArrived
    | ErrorArrived
    | CancelMessage
    | DropMessage
    | MessageTimeout

  datatype Event =
    | SendMessage(packets: seq<seq<byte>>, options: Options, priority: int)
    | About(id: MessageId, event: MessageEvent)
    | TrySend(queued: nat)

  function Init(): SenderState { SenderState(Queue(map[], []), false, [], 1) }

  // --------------------------------------------------- queue manipulations

  /** `sendQueue.remove(node)`: nothing happens if the message is not queued. */
  function Dequeued(order: seq<MessageId>, id: MessageId): seq<MessageId> {
    if id in order then RemoveAt(order, IndexIn(order, id)) else order
  }

  /** `push_front` and `deprioritize`. */
  function Enqueued(msgs: map<MessageId, OutMessage>, order: seq<MessageId>, id: MessageId): seq<MessageId> {
    Deprioritized([id] + order, 0, BySize(msgs))
  }

  /** Give a message a new value; a message that leaves IN_PROGRESS leaves the queue. */
  function Updated(q: Queue, id: MessageId, m: OutMessage): Queue {
    Queue(q.msgs[id := m], if m.status == IN_PROGRESS then q.order else Dequeued(q.order, id))
  }

  lemma DequeuedMembers(order: seq<MessageId>, id: MessageId)
    requires NoDup(order)
    ensures NoDup(Dequeued(order, id))
    ensures forall x :: x in Dequeued(order, id) <==> x in order && x != id
  {
    if id in order {
      RemoveMembers(order, IndexIn(order, id));
    }
  }

  /** Only the keys of members matter for sortedness. */
  lemma SortedSameKeys(order: seq<MessageId>, a: map<MessageId, OutMessage>, b: map<MessageId, OutMessage>)
    requires Sorted(order, BySize(a)) && forall id | id in order :: Unsent(a, id) == Unsent(b, id)
    ensures Sorted(order, BySize(b))
  {
    forall i, j | 0 <= i < j < |order| ensures !BySize(b)(order[j], order[i]) {
      assert !BySize(a)(order[j], order[i]);
      assert order[i] in order && order[j] in order;
    }
  }

  lemma SortedDequeued(order: seq<MessageId>, id: MessageId, less: (MessageId, MessageId) -> bool)
    requires Sorted(order, less)
    ensures Sorted(Dequeued(order, id), less)
  {
    if id in order {
      var i := IndexIn(order, id);
      var rest := RemoveAt(order, i);
      forall a, b | 0 <= a < b < |rest| ensures !less(rest[b], rest[a]) {
        assert rest[a] == order[if a < i then a else a + 1] && rest[b] == order[if b < i then b else b + 1];
      }
    }
  }

  /** Updates that keep a queued message's place: same status and same unsent bytes, or no longer in progress. */
  lemma UpdatedKeepsInv(q: Queue, id: MessageId, m: OutMessage)
    requires QueueInv(q) && id in q.msgs && m.Valid()
    requires m.status == IN_PROGRESS ==>
               q.msgs[id].status == IN_PROGRESS && m.unsentBytes == q.msgs[id].unsentBytes
    ensures QueueInv(Updated(q, id, m))
  {
    var r := Updated(q, id, m);
    if m.status == IN_PROGRESS {
      SortedSameKeys(q.order, q.msgs, r.msgs);
    } else {
      DequeuedMembers(q.order, id);
      SortedDequeued(q.order, id, BySize(q.msgs));
      SortedSameKeys(r.order, q.msgs, r.msgs);
    }
  }

  /** Queueing a message that is not queued, in its place. */
  lemma EnqueuedKeepsInv(q: Queue, id: MessageId, m: OutMessage)
    requires QueueInv(q) && id !in q.order && m.Valid() && m.status == IN_PROGRESS
    ensures var msgs := q.msgs[id := m]; QueueInv(Queue(msgs, Enqueued(msgs, q.order, id)))
  {
    var msgs := q.msgs[id := m];
    SortedSameKeys(q.order, q.msgs, msgs);
    BySizeIsOrder(msgs);
    PushFrontDeprioritizeInserts(q.order, id, BySize(msgs));
    InsertMembers(q.order, Sink(q.order, id, 0, BySize(msgs)), id);
  }

  /** A message queued goes behind those with as much or less to send, and the others keep their order. */
  lemma EnqueuedPlace(msgs: map<MessageId, OutMessage>, order: seq<MessageId>, id: MessageId)
    requires Sorted(order, BySize(msgs))
    ensures PutBehindEqual(order, Enqueued(msgs, order, id), id, BySize(msgs))
  {
    BySizeIsOrder(msgs);
    PushFrontDeprioritizePlaces(order, id, BySize(msgs));
  }

  // ---------------------------------------------------------------- events

  function OnSend(c: Config, s: SenderState, packets: seq<seq<byte>>, options: Options, priority: int): SenderState {
    var id := MessageId(c.transportId, s.nextSequence);
    var msgs := s.queue.msgs[id := Started(packets, options, c.u, priority)];
    if |packets| == 1 then s.(queue := Queue(msgs, s.queue.order), nextSequence := s.nextSequence + 1)
    else s.(queue := Queue(msgs, Enqueued(msgs, s.queue.order, id)), sendReady := true,
            nextSequence := s.nextSequence + 1)
  }

  /** A GRANT or a RESEND: raising the packet limit makes the sender look for work. */
  function Raised(s: SenderState, id: MessageId, m: OutMessage): SenderState
    requires id in s.queue.msgs
  {
    s.(queue := s.queue.(msgs := s.queue.msgs[id := m]),
       sendReady := s.sendReady || s.queue.msgs[id].packetsGranted < m.packetsGranted)
  }

  function OnUnknownEvent(c: Config, s: SenderState, id: MessageId, priority: int): SenderState
    requires id in s.queue.msgs
  {
    var m := OnUnknown(s.queue.msgs[id], c.u, priority);
    if Restarts(s.queue.msgs[id]) && 1 < |m.packets|
    then
      var msgs := s.queue.msgs[id := m];
      s.(queue := Queue(msgs, Enqueued(msgs, Dequeued(s.queue.order, id), id)), sendReady := true)
    else s.(queue := Updated(s.queue, id, m))
  }

  /** The status changes the application is told about. */
  function Notified(s: SenderState, id: MessageId, m: OutMessage, notify: bool): SenderState {
    s.(queue := Updated(s.queue, id, m), done := if notify then s.done + [id] else s.done)
  }

  function OnDrop(s: SenderState, id: MessageId): SenderState
    requires id in s.queue.msgs
  {
    if s.queue.msgs[id].status != IN_PROGRESS
    then s.(queue := s.queue.(msgs := s.queue.msgs - {id}))
    else s.(queue := s.queue.(msgs := s.queue.msgs[id := s.queue.msgs[id].(held := false)]))
  }

  /** The message was sent completely between the two states. */
  predicate Finished(before: map<MessageId, OutMessage>, after: map<MessageId, OutMessage>, id: MessageId) {
    InQueue(before, id) && id in after && after[id].status == SENT
  }

  /** Messages the application released while they were in progress go away once they are SENT. */
  function Pruned(before: map<MessageId, OutMessage>, after: map<MessageId, OutMessage>): map<MessageId, OutMessage> {
    map id | id in after && !(Finished(before, after, id) && !after[id].held) :: after[id]
  }

  function OnTrySend(c: Config, s: SenderState, queued: nat): SenderState
    requires c.Valid()
  {
    if !s.sendReady then s else
      var r := Srpt(s.queue, queued, c.limit, c.header);
      s.(queue := Queue(Pruned(s.queue.msgs, r.queue.msgs), r.queue.order), sendReady := r.blocked)
  }

  function OnMessageEvent(c: Config, s: SenderState, id: MessageId, e: MessageEvent): SenderState
    requires c.Valid() && id in s.queue.msgs
  {
    var m := s.queue.msgs[id];
    match e
    case GrantArrived(byteLimit, priority) => Raised(s, id, OnGrant(m, c.p, byteLimit, priority))
    case ResendArrived(index, num, priority) => Raised(s, id, OnResend(m, index, num, priority))
    case UnknownArrived(priority) => OnUnknownEvent(c, s, id, priority)
    case DoneArrived => Notified(s, id, OnDone(m), m.status == SENT)
    case ErrorArrived => Notified(s, id, OnError(m), m.status == SENT)
    case CancelMessage => Notified(s, id, Cancelled(m), false)
    case DropMessage => OnDrop(s, id)
    case MessageTimeout => Notified(s, id, TimedOut(m), m.status != COMPLETED)
  }

  /** One event; packets about unknown messages are dropped. */
  function Step(c: Config, s: SenderState, e: Event): SenderState
    requires c.Valid()
  {
    match e
    case SendMessage(packets, options, priority) => OnSend(c, s, packets, options, priority)
    case TrySend(queued) => OnTrySend(c, s, queued)
    case About(id, event) => if id in s.queue.msgs then OnMessageEvent(c, s, id, event) else s
  }

  /** An event about one message leaves the others alone. */
  lemma OthersStay(c: Config, s: SenderState, x: MessageId, e: MessageEvent, id: MessageId)
    requires c.Valid() && x != id
    ensures var after := Step(c, s, About(x, e)).queue.msgs;
            (id in after <==> id in s.queue.msgs) && (id in after ==> after[id] == s.queue.msgs[id])
  {
  }

  // ------------------------------------------------------------- invariant

  /** `sendReady` may be down only when no queued message has anything to send. */
  ghost predicate NothingMissed(s: SenderState) {
    !s.sendReady ==> forall id | InQueue(s.queue.msgs, id) :: !s.queue.msgs[id].Ready()
  }

  ghost predicate Inv(c: Config, s: SenderState) {
    && QueueInv(s.queue)
    && NothingMissed(s)
    && (forall id | id in s.queue.msgs && id.transportId == c.transportId :: id.sequence < s.nextSequence)
  }

  /** What an application may send: at least one packet, none of them empty. */
  ghost predicate Sendable(packets: seq<seq<byte>>) {
    0 < |packets| && forall i | 0 <= i < |packets| :: 0 < |packets[i]|
  }

  lemma SendKeepsInv(c: Config, s: SenderState, packets: seq<seq<byte>>, options: Options, priority: int)
    requires Inv(c, s) && Sendable(packets)
    ensures Inv(c, OnSend(c, s, packets, options, priority))
  {
    var id := MessageId(c.transportId, s.nextSequence);
    var m := Started(packets, options, c.u, priority);
    assert id !in s.queue.msgs;
    assert id !in s.queue.order;
    if |packets| == 1 {
      SortedSameKeys(s.queue.order, s.queue.msgs, s.queue.msgs[id := m]);
    } else {
      QueuedIsValid(OutMessage(packets, options, IN_PROGRESS, true, 0, 0, 0, 0), c.u, priority);
      EnqueuedKeepsInv(s.queue, id, m);
    }
  }

  lemma RaisedKeepsInv(c: Config, s: SenderState, id: MessageId, m: OutMessage)
    requires Inv(c, s) && id in s.queue.msgs && m.Valid()
    requires m.status == s.queue.msgs[id].status && m.unsentBytes == s.queue.msgs[id].unsentBytes
    requires m.packetsSent == s.queue.msgs[id].packetsSent
    ensures Inv(c, Raised(s, id, m))
  {
    SortedSameKeys(s.queue.order, s.queue.msgs, s.queue.msgs[id := m]);
  }

  lemma NotifiedKeepsInv(c: Config, s: SenderState, id: MessageId, m: OutMessage, notify: bool)
    requires Inv(c, s) && id in s.queue.msgs && m.Valid()
    requires m == s.queue.msgs[id] || m.status != IN_PROGRESS
    ensures Inv(c, Notified(s, id, m, notify))
  {
    UpdatedKeepsInv(s.queue, id, m);
  }

  /** A message that restarts is taken out of the queue and put in again with its new size. */
  lemma RequeuedKeepsInv(q: Queue, id: MessageId, m: OutMessage)
    requires QueueInv(q) && id in q.msgs && m.Valid() && m.status == IN_PROGRESS
    ensures var msgs := q.msgs[id := m]; QueueInv(Queue(msgs, Enqueued(msgs, Dequeued(q.order, id), id)))
  {
    var out := q.msgs[id].(status := FAILED);
    EndKeepsValid(q.msgs[id], FAILED);
    UpdatedKeepsInv(q, id, out);
    DequeuedMembers(q.order, id);
    EnqueuedKeepsInv(Updated(q, id, out), id, m);
    assert q.msgs[id := out][id := m] == q.msgs[id := m];
  }

  lemma UnknownKeepsInv(c: Config, s: SenderState, id: MessageId, priority: int)
    requires Inv(c, s) && id in s.queue.msgs
    ensures Inv(c, OnUnknownEvent(c, s, id, priority))
  {
    var m := OnUnknown(s.queue.msgs[id], c.u, priority);
    UnknownKeepsValid(s.queue.msgs[id], c.u, priority);
    if Restarts(s.queue.msgs[id]) && 1 < |m.packets| {
      RequeuedKeepsInv(s.queue, id, m);
    } else {
      UpdatedKeepsInv(s.queue, id, m);
    }
  }

  lemma DropKeepsInv(c: Config, s: SenderState, id: MessageId)
    requires Inv(c, s) && id in s.queue.msgs
    ensures Inv(c, OnDrop(s, id))
  {
    var t := OnDrop(s, id);
    assert s.queue.msgs[id].status != IN_PROGRESS ==> id !in s.queue.order;
    SortedSameKeys(s.queue.order, s.queue.msgs, t.queue.msgs);
  }

  lemma PrunedKeepsInv(before: map<MessageId, OutMessage>, q: Queue)
    requires QueueInv(q)
    ensures QueueInv(Queue(Pruned(before, q.msgs), q.order))
  {
    var msgs := Pruned(before, q.msgs);
    forall id ensures id in q.order <==> InQueue(msgs, id) {
      assert id in q.order <==> InQueue(q.msgs, id);
    }
    SortedSameKeys(q.order, q.msgs, msgs);
  }

  lemma TrySendKeepsInv(c: Config, s: SenderState, queued: nat)
    requires c.Valid() && Inv(c, s)
    ensures Inv(c, OnTrySend(c, s, queued))
  {
    if s.sendReady {
      var r := Srpt(s.queue, queued, c.limit, c.header);
      SrptKeepsInv(s.queue, queued, c.limit, c.header, r);
      PrunedKeepsInv(s.queue.msgs, r.queue);
      if !r.blocked {
        SrptFinishes(s.queue, queued, c.limit, c.header, r);
      }
      SrptSentOnly(s.queue, queued, c.limit, c.header, r);
    }
  }

  lemma MessageEventKeepsInv(c: Config, s: SenderState, id: MessageId, e: MessageEvent)
    requires c.Valid() && Inv(c, s) && id in s.queue.msgs
    ensures Inv(c, OnMessageEvent(c, s, id, e))
  {
    var m := s.queue.msgs[id];
    match e
    case GrantArrived(byteLimit, priority) =>
      GrantKeepsValid(m, c.p, byteLimit, priority);
      RaisedKeepsInv(c, s, id, OnGrant(m, c.p, byteLimit, priority));
    case ResendArrived(index, num, priority) =>
      ResendKeepsValid(m, index, num, priority);
      RaisedKeepsInv(c, s, id, OnResend(m, index, num, priority));
    case UnknownArrived(priority) => UnknownKeepsInv(c, s, id, priority);
    case DoneArrived =>
      if m.status == SENT { EndKeepsValid(m, COMPLETED); }
      NotifiedKeepsInv(c, s, id, OnDone(m), m.status == SENT);
    case ErrorArrived =>
      if m.status == SENT { EndKeepsValid(m, FAILED); }
      NotifiedKeepsInv(c, s, id, OnError(m), m.status == SENT);
    case CancelMessage =>
      EndKeepsValid(m, CANCELED);
      NotifiedKeepsInv(c, s, id, Cancelled(m), false);
    case DropMessage => DropKeepsInv(c, s, id);
    case MessageTimeout =>
      if m.status != COMPLETED { EndKeepsValid(m, FAILED); }
      NotifiedKeepsInv(c, s, id, TimedOut(m), m.status != COMPLETED);
  }

  /** Every event of a sender keeps its invariant. */
  lemma StepKeepsInv(c: Config, s: SenderState, e: Event)
    requires c.Valid() && Inv(c, s) && (e.SendMessage? ==> Sendable(e.packets))
    ensures Inv(c, Step(c, s, e))
  {
    match e
    case SendMessage(packets, options, priority) => SendKeepsInv(c, s, packets, options, priority);
    case TrySend(queued) => TrySendKeepsInv(c, s, queued);
    case About(id, event) => if id in s.queue.msgs { MessageEventKeepsInv(c, s, id, event); }
  }

  /** The state after any sequence of events. */
  function After(c: Config, events: seq<Event>): SenderState
    requires c.Valid()
  {
    if events == [] then Init() else Step(c, After(c, events[..|events| - 1]), events[|events| - 1])
  }

  /** In every run the queue is right, and work is never overlooked. */
  lemma {:induction false} RunKeepsInv(c: Config, events: seq<Event>)
    requires c.Valid() && forall e | e in events && e.SendMessage? :: Sendable(e.packets)
    ensures Inv(c, After(c, events))
  {
    if events != [] {
      var before := events[..|events| - 1];
      forall e | e in before && e.SendMessage? ensures Sendable(e.packets) {
        assert e in events;
      }
      RunKeepsInv(c, before);
      StepKeepsInv(c, After(c, before), events[|events| - 1]);
    }
  }
}
