/**
 * What each event of a sender does to the two timeouts of its messages, and why a message that
 * waits for something is always watched by both.
 */
module SenderTimers {
  import opened Base
  import opened Protocol
  import opened SendQueue
  import opened SenderModel
  import opened Timeouts

  /** The entries of `messageTimeouts` and `pingTimeouts`. */
  datatype Timers = Timers(message: seq<Entry>, ping: seq<Entry>)

  datatype Intervals = Intervals(message: nat, ping: nat)

  function Both(t: Timers, id: MessageId, action: TimerAction, v: Intervals): Timers {
    Timers(Timed(t.message, id, action, v.message), Timed(t.ping, id, action, v.ping))
  }

  function BothWithout(t: Timers, ids: set<MessageId>): Timers {
    Timers(WithoutIds(t.message, ids), WithoutIds(t.ping, ids))
  }

  /** A message sent completely and asked not to be looked after. */
  predicate Unwatched(m: OutMessage) { m.options.noKeepAlive && m.status == SENT }

  predicate HasEnded(m: OutMessage) { m.status == COMPLETED || m.status == FAILED }

  /** What an event about a tracked message does to both its timeouts. */
  function MessageAction(m: OutMessage, e: MessageEvent, cycle: nat): TimerAction {
    match e
    case GrantArrived(_, _) => Arm(cycle)
    case ResendArrived(_, _, _) => if 2 <= |m.packets| then Arm(cycle) else Keep
    case UnknownArrived(_) =>
      if m.status != IN_PROGRESS && m.status != SENT then Keep
      else if m.options.noRetry || (|m.packets| == 1 && m.options.noKeepAlive) then Disarm
      else Arm(cycle)
    case DoneArrived => if m.status == SENT then Disarm else Keep
    case ErrorArrived => if m.status == SENT then Disarm else Keep
    case CancelMessage => Disarm
    case DropMessage => if m.status != IN_PROGRESS then Disarm else Keep
    case MessageTimeout => Disarm
  }

  /** What starting to send a message does to both its timeouts. */
  function StartAction(m: OutMessage, cycle: nat): TimerAction {
    if |m.packets| == 1 && m.options.noKeepAlive then Disarm else Arm(cycle)
  }

  /** The messages that need no timeouts any more once they have been sent completely. */
  function Quiet(before: map<MessageId, OutMessage>, after: map<MessageId, OutMessage>): set<MessageId> {
    set id | id in after && Finished(before, after, id) && (!after[id].held || after[id].options.noKeepAlive)
  }

  function TimersAfter(c: Config, s: SenderState, t: Timers, e: Event, cycle: nat, v: Intervals): Timers
    requires c.Valid()
  {
    match e
    case SendMessage(packets, options, _) =>
      Both(t, MessageId(c.transportId, s.nextSequence),
           if |packets| == 1 && options.noKeepAlive then Disarm else Arm(cycle), v)
    case About(id, event) =>
      if id in s.queue.msgs then Both(t, id, MessageAction(s.queue.msgs[id], event, cycle), v) else t
    case TrySend(queued) =>
      if s.sendReady then BothWithout(t, Quiet(s.queue.msgs, Srpt(s.queue, queued, c.limit, c.header).queue.msgs))
      else t
  }

  /** An expired ping timeout is armed anew unless nothing is awaited. */
  function Pingable(msgs: map<MessageId, OutMessage>): MessageId -> bool {
    id => id in msgs && !HasEnded(msgs[id]) && !Unwatched(msgs[id])
  }

  /** The messages among these for which nothing is awaited, although they have not ended. */
  function UnwatchedOf(msgs: map<MessageId, OutMessage>, ids: seq<MessageId>): set<MessageId> {
    set id | id in ids && id in msgs && Unwatched(msgs[id])
  }

  /** `checkPingTimeouts`. */
  function PingsChecked(msgs: map<MessageId, OutMessage>, t: Timers, now: nat, cycle: nat, v: Intervals): Timers {
    var handled := ElapsedIds(t.ping, now);
    Timers(WithoutIds(t.message, UnwatchedOf(msgs, handled)),
           Swept(t.ping, now, Pingable(msgs), cycle + v.ping, |handled|))
  }

  /** Armed, and disarmed again because nothing is awaited. */
  lemma ArmThenMaybeDisarm(t0: Timers, t1: Timers, t2: Timers, id: MessageId, cycle: nat, v: Intervals, disarm: bool)
    requires Ordered(t0.message) && Ordered(t0.ping) && t1 == Both(t0, id, Arm(cycle), v)
    requires t2 == Both(t1, id, if disarm then Disarm else Keep, v)
    ensures t2 == Both(t0, id, if disarm then Disarm else Arm(cycle), v)
  {
    RearmThenCancel(t0.message, id, cycle + v.message);
    RearmThenCancel(t0.ping, id, cycle + v.ping);
  }

  // ------------------------------------------- the loops, one entry at a time

  /** The messages of `ids` for which a PING is due. */
  function Pinged(messages: map<MessageId, OutMessage>, ids: seq<MessageId>): seq<MessageId> {
    if ids == [] then []
    else
      var id := ids[|ids| - 1];
      Pinged(messages, ids[..|ids| - 1]) + if id in messages && PingDue(messages[id]) then [id] else []
  }

  lemma PingedOneMore(messages: map<MessageId, OutMessage>, ids: seq<MessageId>, id: MessageId)
    ensures Pinged(messages, ids + [id]) ==
            Pinged(messages, ids) + if id in messages && PingDue(messages[id]) then [id] else []
  {
    assert (ids + [id])[..|ids|] == ids;
  }

  /** The next move is the receiver's, or the message was cancelled and its timeout left armed by a late packet. */
  predicate Awaits(m: OutMessage) {
    || (m.status == SENT && !m.options.noKeepAlive)
    || (m.status == IN_PROGRESS && m.packetsSent == m.packetsGranted)
    || m.status == CANCELED
  }

  /** Exactly the messages that wait for the receiver are pinged. */
  lemma {:induction false} PingedExactly(msgs: map<MessageId, OutMessage>, ids: seq<MessageId>, id: MessageId)
    requires id in msgs ==> msgs[id].Valid()
    ensures id in Pinged(msgs, ids) <==> id in ids && id in msgs && Awaits(msgs[id])
  {
    if ids != [] {
      assert ids == ids[..|ids| - 1] + [ids[|ids| - 1]];
      PingedExactly(msgs, ids[..|ids| - 1], id);
    }
  }

  /** One PING for each, in the order in which the timeouts expired. */
  lemma {:induction false} PingedInOrder(msgs: map<MessageId, OutMessage>, ids: seq<MessageId>, k: nat)
    requires NoDup(ids) && k <= |ids|
    ensures Pinged(msgs, ids[..k]) <= Pinged(msgs, ids)
    ensures NoDup(Pinged(msgs, ids)) && forall id | id in Pinged(msgs, ids) :: id in ids
  {
    if ids != [] {
      var most, last := ids[..|ids| - 1], ids[|ids| - 1];
      PingedInOrder(msgs, most, if k <= |most| then k else |most|);
      assert ids == most + [last] && last !in most;
      if k <= |most| {
        assert most[..k] == ids[..k];
      } else {
        assert ids[..k] == ids;
      }
    }
  }

  /** The first ping timeouts that expired have been dealt with: the timeouts and the PINGs so far. */
  ghost predicate PingedSoFar(msgs: map<MessageId, OutMessage>, was: Timers, now: nat, expiration: nat,
                              handled: seq<MessageId>, pings: seq<MessageId>, t: Timers)
  {
    var all := ElapsedIds(was.ping, now);
    && |handled| <= |all| && handled == all[..|handled|] && pings == Pinged(msgs, handled)
    && t.message == WithoutIds(was.message, UnwatchedOf(msgs, handled))
    && t.ping == Swept(was.ping, now, Pingable(msgs), expiration, |handled|)
  }

  lemma PingedStart(msgs: map<MessageId, OutMessage>, was: Timers, now: nat, expiration: nat)
    ensures PingedSoFar(msgs, was, now, expiration, [], [], was)
  {
    assert UnwatchedOf(msgs, []) == {};
    WithoutNone(was.message);
  }

  /** The front has not expired, so all are dealt with. */
  lemma PingedAll(msgs: map<MessageId, OutMessage>, was: Timers, now: nat, expiration: nat,
                  handled: seq<MessageId>, pings: seq<MessageId>, t: Timers)
    requires Ordered(was.ping) && now < expiration && PingedSoFar(msgs, was, now, expiration, handled, pings, t)
    requires t.ping == [] || now < t.ping[0].expiration
    ensures handled == ElapsedIds(was.ping, now) && forall k | 0 <= k < |t.ping| :: now < t.ping[k].expiration
  {
    var all := ElapsedIds(was.ping, now);
    SweptFront(was.ping, now, Pingable(msgs), expiration, |handled|);
    assert all[..|all|] == all;
  }

  lemma PingedDone(msgs: map<MessageId, OutMessage>, was: Timers, now: nat, cycle: nat, v: Intervals,
                   handled: seq<MessageId>, pings: seq<MessageId>, t: Timers)
    requires Ordered(was.ping) && now < cycle + v.ping
    requires PingedSoFar(msgs, was, now, cycle + v.ping, handled, pings, t)
    requires t.ping == [] || now < t.ping[0].expiration
    ensures handled == ElapsedIds(was.ping, now) && pings == Pinged(msgs, handled)
    ensures forall id | id in msgs && msgs[id].Valid() :: id in pings <==> id in handled && Awaits(msgs[id])
    ensures t == PingsChecked(msgs, was, now, cycle, v) && forall k | 0 <= k < |t.ping| :: now < t.ping[k].expiration
  {
    PingedAll(msgs, was, now, cycle + v.ping, handled, pings, t);
    forall id | id in msgs && msgs[id].Valid() ensures id in pings <==> id in handled && Awaits(msgs[id]) {
      PingedExactly(msgs, handled, id);
    }
  }

  /** What one expired ping timeout does to the timeouts of its message. */
  ghost predicate PingedOne(msgs: map<MessageId, OutMessage>, expiration: nat, t: Timers, t': Timers, id: MessageId) {
    && id in msgs
    && t'.ping == Without(t.ping, id) + (if Pingable(msgs)(id) then [Entry(id, expiration)] else [])
    && t'.message == if Unwatched(msgs[id]) then Without(t.message, id) else t.message
  }

  /** How many are left to be dealt with. */
  function PingsLeft(was: Timers, now: nat, handled: seq<MessageId>): int { |ElapsedIds(was.ping, now)| - |handled| }

  lemma PingedNext(msgs: map<MessageId, OutMessage>, was: Timers, now: nat, expiration: nat, handled: seq<MessageId>,
                   pings: seq<MessageId>, t: Timers, t': Timers, id: MessageId, handled': seq<MessageId>,
                   pings': seq<MessageId>)
    requires Ordered(was.message) && Ordered(was.ping) && now < expiration
    requires PingedSoFar(msgs, was, now, expiration, handled, pings, t) && PingedOne(msgs, expiration, t, t', id)
    requires t.ping != [] && t.ping[0].expiration <= now && id == t.ping[0].id
    requires handled' == handled + [id] && pings' == if PingDue(msgs[id]) then pings + [id] else pings
    ensures PingedSoFar(msgs, was, now, expiration, handled', pings', t')
    ensures 0 <= PingsLeft(was, now, handled') < PingsLeft(was, now, handled)
  {
    var all, n := ElapsedIds(was.ping, now), |handled|;
    SweptFront(was.ping, now, Pingable(msgs), expiration, n);
    SweptNext(was.ping, now, Pingable(msgs), expiration, n);
    assert all[..n + 1] == all[..n] + [all[n]];
    WithoutOneMore(was.message, UnwatchedOf(msgs, handled), id);
    UnwatchedOneMore(msgs, handled, id);
    PingedOneMore(msgs, handled, id);
  }

  lemma UnwatchedOneMore(msgs: map<MessageId, OutMessage>, ids: seq<MessageId>, id: MessageId)
    ensures UnwatchedOf(msgs, ids + [id]) ==
            if id in msgs && Unwatched(msgs[id]) then UnwatchedOf(msgs, ids) + {id} else UnwatchedOf(msgs, ids)
  {
  }

  /** The messages among the sent ones that need no timeouts any more. */
  function QuietIn(msgs: map<MessageId, OutMessage>, ids: seq<MessageId>): set<MessageId> {
    set id | id in ids && id in msgs && (!msgs[id].held || msgs[id].options.noKeepAlive)
  }

  lemma QuietStart(msgs: map<MessageId, OutMessage>, ids: seq<MessageId>, t: Timers)
    ensures t == BothWithout(t, QuietIn(msgs, ids[..0]))
  {
    assert QuietIn(msgs, ids[..0]) == {};
    WithoutNone(t.message);
    WithoutNone(t.ping);
  }

  lemma QuietNext(msgs: map<MessageId, OutMessage>, ids: seq<MessageId>, i: nat, was: Timers, t: Timers, t': Timers,
                  v: Intervals)
    requires Ordered(was.message) && Ordered(was.ping) && i < |ids| && t == BothWithout(was, QuietIn(msgs, ids[..i]))
    requires if ids[i] in msgs && (!msgs[ids[i]].held || msgs[ids[i]].options.noKeepAlive)
             then t' == Both(t, ids[i], Disarm, v) || (t' == t && ids[i] in QuietIn(msgs, ids[..i])) else t' == t
    ensures t' == BothWithout(was, QuietIn(msgs, ids[..i + 1]))
  {
    var quiet, id := QuietIn(msgs, ids[..i]), ids[i];
    assert ids[..i + 1] == ids[..i] + [id];
    if id in msgs && (!msgs[id].held || msgs[id].options.noKeepAlive) {
      assert QuietIn(msgs, ids[..i + 1]) == quiet + {id};
      if id in quiet {
        assert quiet + {id} == quiet;
      }
      WithoutOneMore(was.message, quiet, id);
      WithoutOneMore(was.ping, quiet, id);
    } else {
      assert QuietIn(msgs, ids[..i + 1]) == quiet;
    }
  }

  // --------------------------------------------------------------- watched

  /** A message that waits for the receiver or for its own packets to be sent. */
  predicate NeedsWatch(m: OutMessage) { m.status == IN_PROGRESS || (m.status == SENT && !m.options.noKeepAlive) }

  ghost predicate Watched(msgs: map<MessageId, OutMessage>, t: Timers) {
    forall id | id in msgs && NeedsWatch(msgs[id]) :: Armed(t.message, id) && Armed(t.ping, id)
  }

  /** One message changed, and both its timeouts with it. */
  lemma BothWatched(msgs: map<MessageId, OutMessage>, after: map<MessageId, OutMessage>, t: Timers,
                    id: MessageId, action: TimerAction, v: Intervals)
    requires Watched(msgs, t)
    requires forall x | x in after && x != id :: x in msgs && after[x] == msgs[x]
    requires id in after && NeedsWatch(after[id]) ==>
             action.Arm? || (action.Keep? && id in msgs && NeedsWatch(msgs[id]))
    ensures Watched(after, Both(t, id, action, v))
  {
    forall x | x in after && NeedsWatch(after[x])
      ensures Armed(Both(t, id, action, v).message, x) && Armed(Both(t, id, action, v).ping, x)
    {
      TimedArmed(t.message, id, action, v.message, x);
      TimedArmed(t.ping, id, action, v.ping, x);
    }
  }

  /** An event about one message leaves the others alone. */
  lemma MessageEventWatched(c: Config, s: SenderState, t: Timers, id: MessageId, e: MessageEvent, cycle: nat,
                            v: Intervals)
    requires c.Valid() && Watched(s.queue.msgs, t) && id in s.queue.msgs
    ensures Watched(Step(c, s, About(id, e)).queue.msgs, TimersAfter(c, s, t, About(id, e), cycle, v))
  {
    var m, after := s.queue.msgs[id], Step(c, s, About(id, e)).queue.msgs;
    BothWatched(s.queue.msgs, after, t, id, MessageAction(m, e, cycle), v);
  }

  lemma SendWatched(c: Config, s: SenderState, t: Timers, e: Event, cycle: nat, v: Intervals)
    requires c.Valid() && Watched(s.queue.msgs, t) && e.SendMessage?
    ensures Watched(Step(c, s, e).queue.msgs, TimersAfter(c, s, t, e, cycle, v))
  {
    var id := MessageId(c.transportId, s.nextSequence);
    BothWatched(s.queue.msgs, Step(c, s, e).queue.msgs, t, id,
                if |e.packets| == 1 && e.options.noKeepAlive then Disarm else Arm(cycle), v);
  }

  /** Messages that were sent completely lose their timeouts only if nothing is awaited any more. */
  lemma QuietWatched(before: map<MessageId, OutMessage>, after: map<MessageId, OutMessage>, t: Timers)
    requires Watched(before, t) && SentOnly(before, after)
    ensures Watched(Pruned(before, after), BothWithout(t, Quiet(before, after)))
  {
    var quiet := Quiet(before, after);
    forall x | x in Pruned(before, after) && NeedsWatch(after[x])
      ensures Armed(WithoutIds(t.message, quiet), x) && Armed(WithoutIds(t.ping, quiet), x)
    {
      WithoutIdsArmed(t.message, quiet, x);
      WithoutIdsArmed(t.ping, quiet, x);
    }
  }

  lemma TrySendWatched(c: Config, s: SenderState, t: Timers, queued: nat, cycle: nat, v: Intervals)
    requires c.Valid() && QueueInv(s.queue) && Watched(s.queue.msgs, t)
    ensures Watched(Step(c, s, TrySend(queued)).queue.msgs, TimersAfter(c, s, t, TrySend(queued), cycle, v))
  {
    if s.sendReady {
      var r := Srpt(s.queue, queued, c.limit, c.header);
      SrptSentOnly(s.queue, queued, c.limit, c.header, r);
      QuietWatched(s.queue.msgs, r.queue.msgs, t);
    }
  }

  lemma StepWatched(c: Config, s: SenderState, t: Timers, e: Event, cycle: nat, v: Intervals)
    requires c.Valid() && Inv(c, s) && Watched(s.queue.msgs, t)
    ensures Watched(Step(c, s, e).queue.msgs, TimersAfter(c, s, t, e, cycle, v))
  {
    match e
    case SendMessage(_, _, _) => SendWatched(c, s, t, e, cycle, v);
    case About(id, event) => if id in s.queue.msgs { MessageEventWatched(c, s, t, id, event, cycle, v); }
    case TrySend(queued) => TrySendWatched(c, s, t, queued, cycle, v);
  }

  /** The message timeouts of several messages, one after the other. */
  function TimeOutAll(c: Config, s: SenderState, ids: seq<MessageId>): SenderState
    requires c.Valid()
  {
    if ids == [] then s
    else Step(c, TimeOutAll(c, s, ids[..|ids| - 1]), About(ids[|ids| - 1], MessageTimeout))
  }

  lemma TimeOutOneMore(c: Config, s: SenderState, ids: seq<MessageId>, id: MessageId)
    requires c.Valid()
    ensures TimeOutAll(c, s, ids + [id]) == Step(c, TimeOutAll(c, s, ids), About(id, MessageTimeout))
  {
    assert (ids + [id])[..|ids|] == ids;
  }

  lemma {:induction false} TimeOutAllKeepsInv(c: Config, s: SenderState, ids: seq<MessageId>)
    requires c.Valid() && Inv(c, s)
    ensures Inv(c, TimeOutAll(c, s, ids))
  {
    if ids != [] {
      TimeOutAllKeepsInv(c, s, ids[..|ids| - 1]);
      StepKeepsInv(c, TimeOutAll(c, s, ids[..|ids| - 1]), About(ids[|ids| - 1], MessageTimeout));
    }
  }

  /** What became of a message: it failed if its timeout expired before it was COMPLETED. */
  lemma {:induction false} TimeOutAllEffect(c: Config, s: SenderState, ids: seq<MessageId>, x: MessageId)
    requires c.Valid()
    ensures x in TimeOutAll(c, s, ids).queue.msgs <==> x in s.queue.msgs
    ensures x in s.queue.msgs ==>
              TimeOutAll(c, s, ids).queue.msgs[x] == if x in ids then TimedOut(s.queue.msgs[x]) else s.queue.msgs[x]
  {
    if ids != [] {
      var most, last := ids[..|ids| - 1], ids[|ids| - 1];
      TimeOutAllEffect(c, s, most, x);
      assert ids == most + [last];
    }
  }

  /** Dealing with expired message timeouts leaves every message watched that still waits. */
  lemma FailedWatched(c: Config, s: SenderState, was: Timers, now: nat)
    requires c.Valid() && Watched(s.queue.msgs, was)
    ensures var handled := ElapsedIds(was.message, now);
            Watched(TimeOutAll(c, s, handled).queue.msgs,
                    Timers(was.message[|handled|..], WithoutIds(was.ping, IdsOf(handled))))
  {
    var handled := ElapsedIds(was.message, now);
    var after := TimeOutAll(c, s, handled).queue.msgs;
    forall x | x in after && NeedsWatch(after[x])
      ensures Armed(was.message[|handled|..], x) && Armed(WithoutIds(was.ping, IdsOf(handled)), x)
    {
      TimeOutAllEffect(c, s, handled, x);
      ElapsedOrLeft(was.message, now, x);
      WithoutIdsArmed(was.ping, IdsOf(handled), x);
    }
  }

  // ----------------------------------------------------------------- pings

  /** Looking after expired ping timeouts leaves every message watched that waits for something. */
  lemma PingsWatched(msgs: map<MessageId, OutMessage>, t: Timers, now: nat, cycle: nat, v: Intervals)
    requires Watched(msgs, t)
    ensures Watched(msgs, PingsChecked(msgs, t, now, cycle, v))
  {
    var handled := ElapsedIds(t.ping, now);
    forall x | x in msgs && NeedsWatch(msgs[x])
      ensures Armed(PingsChecked(msgs, t, now, cycle, v).message, x)
      ensures Armed(PingsChecked(msgs, t, now, cycle, v).ping, x)
    {
      WithoutIdsArmed(t.message, UnwatchedOf(msgs, handled), x);
      SweptArmed(t.ping, now, Pingable(msgs), cycle + v.ping, x);
    }
  }

  /** Nothing is awaited for the message any more. */
  predicate Settled(m: OutMessage) {
    m.status == COMPLETED || m.status == FAILED || (m.status == SENT && m.options.noKeepAlive)
  }

  /**
   * What a check makes of the timeouts: an expired ping timeout starts anew, unless nothing is awaited for its
   * message; then it goes, and the message timeout with it if the message was sent and is not to be kept alive.
   */
  lemma PingsCheckedAre(msgs: map<MessageId, OutMessage>, t: Timers, now: nat, cycle: nat, v: Intervals, x: Entry)
    requires Ordered(t.message) && Ordered(t.ping)
    ensures var t', handled := PingsChecked(msgs, t, now, cycle, v), ElapsedIds(t.ping, now);
            && (x in t'.ping <==>
                  || (x in t.ping && now < x.expiration)
                  || (x.id in handled && x.expiration == cycle + v.ping && x.id in msgs && !Settled(msgs[x.id])))
            && (x in t'.message <==>
                  && x in t.message
                  && !(x.id in handled && x.id in msgs && msgs[x.id].status == SENT && msgs[x.id].options.noKeepAlive))
  {
    SweptMembers(t.ping, now, Pingable(msgs), cycle + v.ping, x);
    WithoutIdsMembers(t.message, UnwatchedOf(msgs, ElapsedIds(t.ping, now)));
  }

  // ------------------------------------------------------------ whole runs

  datatype TimedEvent = Happens(e: Event, cycle: nat) | PingCheck(now: nat, cycle: nat) | MessageCheck(now: nat)

  datatype TimedState = TimedState(s: SenderState, t: Timers)

  /** `checkMessageTimeouts`. */
  function MessagesChecked(c: Config, x: TimedState, now: nat): TimedState
    requires c.Valid()
  {
    var handled := ElapsedIds(x.t.message, now);
    TimedState(TimeOutAll(c, x.s, handled),
               Timers(x.t.message[|handled|..], WithoutIds(x.t.ping, IdsOf(handled))))
  }

  function TimedStep(c: Config, v: Intervals, x: TimedState, e: TimedEvent): TimedState
    requires c.Valid()
  {
    match e
    case Happens(event, cycle) => TimedState(Step(c, x.s, event), TimersAfter(c, x.s, x.t, event, cycle, v))
    case PingCheck(now, cycle) => x.(t := PingsChecked(x.s.queue.msgs, x.t, now, cycle, v))
    case MessageCheck(now) => MessagesChecked(c, x, now)
  }

  function TimedAfter(c: Config, v: Intervals, events: seq<TimedEvent>): TimedState
    requires c.Valid()
  {
    if events == [] then TimedState(Init(), Timers([], []))
    else TimedStep(c, v, TimedAfter(c, v, events[..|events| - 1]), events[|events| - 1])
  }

  /** The applications send proper messages only. */
  ghost predicate Proper(events: seq<TimedEvent>) {
    forall e | e in events && e.Happens? && e.e.SendMessage? :: Sendable(e.e.packets)
  }

  /**
   * In every run each message in progress, and each sent one that is to be kept alive, has both its
   * timeouts armed: none can be forgotten.
   */
  lemma {:induction false} RunWatched(c: Config, v: Intervals, events: seq<TimedEvent>)
    requires c.Valid() && Proper(events)
    ensures Inv(c, TimedAfter(c, v, events).s)
    ensures Watched(TimedAfter(c, v, events).s.queue.msgs, TimedAfter(c, v, events).t)
  {
    if events != [] {
      var most, last := events[..|events| - 1], events[|events| - 1];
      assert last in events && forall e | e in most :: e in events;
      RunWatched(c, v, most);
      var x := TimedAfter(c, v, most);
      match last
      case Happens(event, cycle) =>
        StepKeepsInv(c, x.s, event);
        StepWatched(c, x.s, x.t, event, cycle, v);
      case PingCheck(now, cycle) => PingsWatched(x.s.queue.msgs, x.t, now, cycle, v);
      case MessageCheck(now) =>
        TimeOutAllKeepsInv(c, x.s, ElapsedIds(x.t.message, now));
        FailedWatched(c, x.s, x.t, now);
    }
  }

  // ------------------------------------------------ how long a message waits

  /**
   * The event starts the clock of a message anew: sending begins or begins again, or the receiver
   * was heard of.
   */
  predicate Heard(c: Config, s: SenderState, e: Event, id: MessageId) {
    match e
    case SendMessage(packets, options, _) =>
      id == MessageId(c.transportId, s.nextSequence) && !(|packets| == 1 && options.noKeepAlive)
    case About(x, event) => x == id && id in s.queue.msgs && HeardOf(s.queue.msgs[id], event)
    case TrySend(_) => false
  }

  predicate HeardOf(m: OutMessage, e: MessageEvent) {
    || e.GrantArrived?
    || (e.ResendArrived? && 2 <= |m.packets|)
    || (e.UnknownArrived? && Restarts(m) && !(|m.packets| == 1 && m.options.noKeepAlive))
  }

  /** What an event does to the timeouts of its message, told by what it does to the message. */
  lemma ActionIs(c: Config, s: SenderState, id: MessageId, e: MessageEvent, cycle: nat)
    requires c.Valid() && id in s.queue.msgs
    ensures var action, after := MessageAction(s.queue.msgs[id], e, cycle), Step(c, s, About(id, e)).queue.msgs;
            && (action == Arm(cycle) <==> HeardOf(s.queue.msgs[id], e))
            && (action.Arm? ==> action.cycle == cycle)
            && (id !in after ==> action.Disarm?)
            && (id in after && after[id].status != s.queue.msgs[id].status && !NeedsWatch(after[id]) ==> action.Disarm?)
  {
  }

  /** When a message was last heard of in a run. */
  function LastHeard(c: Config, v: Intervals, events: seq<TimedEvent>, id: MessageId): Option<nat>
    requires c.Valid()
  {
    if events == [] then None
    else
      var most, e := events[..|events| - 1], events[|events| - 1];
      if e.Happens? && Heard(c, TimedAfter(c, v, most).s, e.e, id) then Some(e.cycle) else LastHeard(c, v, most, id)
  }

  function CycleOf(e: TimedEvent): nat {
    match e
    case Happens(_, cycle) => cycle
    case PingCheck(_, cycle) => cycle
    case MessageCheck(now) => now
  }

  /** The clock never runs backwards. */
  ghost predicate Forward(v: Intervals, events: seq<TimedEvent>) {
    && 0 < v.ping
    && (forall i, j | 0 <= i < j < |events| :: CycleOf(events[i]) <= CycleOf(events[j]))
    && (forall e | e in events && e.PingCheck? :: e.now <= e.cycle)
  }

  function Clock(events: seq<TimedEvent>): nat { if events == [] then 0 else CycleOf(events[|events| - 1]) }

  /** Both lists of timeouts, as far as the messages were heard of. */
  ghost predicate BothDated(t: Timers, v: Intervals, cycle: nat, last: MessageId -> Option<nat>) {
    Dated(t.message, v.message, cycle, last, true) && Dated(t.ping, v.ping, cycle, last, false)
  }

  lemma OneDated(t: Timers, v: Intervals, cycle: nat, last: MessageId -> Option<nat>, id: MessageId,
                 action: TimerAction, cycle': nat, last': MessageId -> Option<nat>)
    requires BothDated(t, v, cycle, last) && cycle <= cycle' && forall y | y != id :: last'(y) == last(y)
    requires action.Arm? ==> action.cycle == cycle' && last'(id) == Some(cycle')
    requires action.Keep? ==> last'(id) == last(id)
    ensures BothDated(Both(t, id, action, v), v, cycle', last')
  {
    TimedDated(t.message, id, action, v.message, cycle, last, true, cycle', last');
    TimedDated(t.ping, id, action, v.ping, cycle, last, false, cycle', last');
  }

  lemma QuietDated(t: Timers, v: Intervals, cycle: nat, last: MessageId -> Option<nat>, ids: set<MessageId>,
                   cycle': nat)
    requires BothDated(t, v, cycle, last) && cycle <= cycle'
    ensures BothDated(BothWithout(t, ids), v, cycle', last)
    ensures BothDated(t, v, cycle', last)
  {
    WithoutIdsDated(t.message, ids, v.message, cycle, last, true, cycle');
    WithoutIdsDated(t.ping, ids, v.ping, cycle, last, false, cycle');
    FewerDated(t.message, t.message, v.message, cycle, last, true, cycle', last);
    FewerDated(t.ping, t.ping, v.ping, cycle, last, false, cycle', last);
  }

  /** An event dates the timeouts of the message that was heard of, and no other. */
  lemma StepDated(c: Config, s: SenderState, t: Timers, e: Event, cycle: nat, v: Intervals, cycle': nat,
                  last: MessageId -> Option<nat>, last': MessageId -> Option<nat>)
    requires c.Valid() && BothDated(t, v, cycle, last) && cycle <= cycle'
    requires forall y :: last'(y) == if Heard(c, s, e, y) then Some(cycle') else last(y)
    ensures BothDated(TimersAfter(c, s, t, e, cycle', v), v, cycle', last')
  {
    match e
    case SendMessage(packets, options, _) =>
      OneDated(t, v, cycle, last, MessageId(c.transportId, s.nextSequence),
               if |packets| == 1 && options.noKeepAlive then Disarm else Arm(cycle'), cycle', last');
    case About(id, event) =>
      if id in s.queue.msgs {
        ActionIs(c, s, id, event, cycle');
        OneDated(t, v, cycle, last, id, MessageAction(s.queue.msgs[id], event, cycle'), cycle', last');
      } else {
        QuietDated(t, v, cycle, last, {}, cycle');
        SameDated(t, v, cycle', last, last');
      }
    case TrySend(queued) =>
      var quiet := Quiet(s.queue.msgs, Srpt(s.queue, queued, c.limit, c.header).queue.msgs);
      QuietDated(t, v, cycle, last, quiet, cycle');
      SameDated(t, v, cycle', last, last');
      SameDated(BothWithout(t, quiet), v, cycle', last, last');
  }

  lemma SameDated(t: Timers, v: Intervals, cycle: nat, last: MessageId -> Option<nat>, last': MessageId -> Option<nat>)
    requires BothDated(t, v, cycle, last) && forall y :: last'(y) == last(y)
    ensures BothDated(t, v, cycle, last')
  {
    FewerDated(t.message, t.message, v.message, cycle, last, true, cycle, last');
    FewerDated(t.ping, t.ping, v.ping, cycle, last, false, cycle, last');
  }

  lemma ChecksDated(c: Config, x: TimedState, v: Intervals, cycle: nat, last: MessageId -> Option<nat>, now: nat,
                    cycle': nat)
    requires c.Valid() && BothDated(x.t, v, cycle, last) && cycle <= cycle' && now <= cycle' && 0 < v.ping
    ensures BothDated(PingsChecked(x.s.queue.msgs, x.t, now, cycle', v), v, cycle', last)
    ensures BothDated(MessagesChecked(c, x, now).t, v, cycle', last)
  {
    var pinged, failed := ElapsedIds(x.t.ping, now), ElapsedIds(x.t.message, now);
    WithoutIdsDated(x.t.message, UnwatchedOf(x.s.queue.msgs, pinged), v.message, cycle, last, true, cycle');
    SweptDated(x.t.ping, now, Pingable(x.s.queue.msgs), v.ping, cycle, last, cycle', |pinged|);
    ExpiredDated(x.t.message, now, v.message, cycle, last, true, cycle');
    WithoutIdsDated(x.t.ping, IdsOf(failed), v.ping, cycle, last, false, cycle');
  }

  ghost function Last(c: Config, v: Intervals, events: seq<TimedEvent>): MessageId -> Option<nat>
    requires c.Valid()
  {
    id => LastHeard(c, v, events, id)
  }

  /**
   * In every run a message timeout expires exactly its interval after the message was last heard of, and a
   * ping timeout not before its own.
   */
  lemma {:induction false} RunDated(c: Config, v: Intervals, events: seq<TimedEvent>)
    requires c.Valid() && Forward(v, events)
    ensures BothDated(TimedAfter(c, v, events).t, v, Clock(events), Last(c, v, events))
  {
    if events != [] {
      var most, e := events[..|events| - 1], events[|events| - 1];
      assert e in events && forall x | x in most :: x in events;
      RunDated(c, v, most);
      var x, last := TimedAfter(c, v, most), Last(c, v, most);
      assert Clock(most) <= Clock(events);
      match e
      case Happens(event, cycle) =>
        StepDated(c, x.s, x.t, event, Clock(most), v, cycle, last, Last(c, v, events));
      case PingCheck(now, cycle) =>
        ChecksDated(c, x, v, Clock(most), last, now, cycle);
        SameDated(TimedAfter(c, v, events).t, v, cycle, last, Last(c, v, events));
      case MessageCheck(now) =>
        ChecksDated(c, x, v, Clock(most), last, now, now);
        SameDated(TimedAfter(c, v, events).t, v, now, last, Last(c, v, events));
    }
  }

  /**
   * A message that waits is given up by a check exactly if it was last heard of at least the message
   * interval ago, and looked at for a PING only if at least the ping interval ago.
   */
  lemma GivenUpAfterSilence(c: Config, v: Intervals, events: seq<TimedEvent>, now: nat, id: MessageId)
    requires c.Valid() && Proper(events) && Forward(v, events)
    ensures var x := TimedAfter(c, v, events);
            id in x.s.queue.msgs && NeedsWatch(x.s.queue.msgs[id]) ==>
              && LastHeard(c, v, events, id).Some?
              && (id in ElapsedIds(x.t.message, now) <==> LastHeard(c, v, events, id).value + v.message <= now)
              && (id in ElapsedIds(x.t.ping, now) ==> LastHeard(c, v, events, id).value + v.ping <= now)
  {
    var x, last := TimedAfter(c, v, events), Last(c, v, events);
    RunDated(c, v, events);
    RunWatched(c, v, events);
    if id in x.s.queue.msgs && NeedsWatch(x.s.queue.msgs[id]) {
      ArmedIsDated(x.t.message, v.message, Clock(events), last, true, id);
      DatedElapses(x.t.message, now, v.message, Clock(events), last, true, id);
      DatedElapses(x.t.ping, now, v.ping, Clock(events), last, false, id);
    }
  }

  ghost predicate Unarmed(t: Timers, id: MessageId) { !Armed(t.message, id) && !Armed(t.ping, id) }

  lemma QuietIsUnarmed(t: Timers, ids: set<MessageId>, id: MessageId)
    requires id in ids
    ensures Unarmed(BothWithout(t, ids), id)
  {
    WithoutIdsMembers(t.message, ids);
    WithoutIdsMembers(t.ping, ids);
    var m, p := WithoutIds(t.message, ids), WithoutIds(t.ping, ids);
    assert forall k | 0 <= k < |m| :: m[k] in m;
    assert forall k | 0 <= k < |p| :: p[k] in p;
  }

  /** The event ended the message, took it away, or left it with nothing to wait for. */
  ghost predicate Ends(before: map<MessageId, OutMessage>, after: map<MessageId, OutMessage>, id: MessageId) {
    && id in before
    && (id in after ==> after[id].status != before[id].status && !NeedsWatch(after[id]))
  }

  /** A message that ended, or is no longer tracked, has no timeout left from the event that ended it. */
  lemma EndedIsUnwatched(c: Config, s: SenderState, t: Timers, e: Event, cycle: nat, v: Intervals, id: MessageId)
    requires c.Valid() && Inv(c, s) && Ordered(t.message) && Ordered(t.ping)
    requires Ends(s.queue.msgs, Step(c, s, e).queue.msgs, id)
    ensures Unarmed(TimersAfter(c, s, t, e, cycle, v), id)
  {
    match e
    case SendMessage(_, _, _) =>
    case About(x, event) =>
      if x != id { OthersStay(c, s, x, event, id); }
      ActionIs(c, s, id, event, cycle);
      DisarmedIsUnarmed(t.message, id);
      DisarmedIsUnarmed(t.ping, id);
    case TrySend(queued) =>
      var r := Srpt(s.queue, queued, c.limit, c.header);
      SrptSentOnly(s.queue, queued, c.limit, c.header, r);
      QuietIsUnarmed(t, Quiet(s.queue.msgs, r.queue.msgs), id);
  }
}
