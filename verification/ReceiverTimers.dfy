/**
 * What each event of a receiver does to the two timeouts of its messages, and why an incomplete
 * message is always watched by both.
 */
module ReceiverTimers {
  import opened Base
  import opened Protocol
  import opened Scheduler
  import opened ReceiverModel
  import opened Timeouts

  /** The entries of `messageTimeouts` and `resendTimeouts`. */
  datatype Timers = Timers(message: seq<Entry>, resend: seq<Entry>)

  datatype Intervals = Intervals(message: nat, resend: nat)

  function Each(t: Timers, id: MessageId, message: TimerAction, resend: TimerAction, v: Intervals): Timers {
    Timers(Timed(t.message, id, message, v.message), Timed(t.resend, id, resend, v.resend))
  }

  /** The packet finds its place free. */
  predicate IsNew(s: ReceiverState, a: Arrival) {
    !(a.id in s.sched.msgs && a.index in s.sched.msgs[a.id].packets)
  }

  /** What a packet does to the resend timeout: the last one ends it. */
  function ResendAction(s: ReceiverState, t: ReceiverState, a: Arrival, cycle: nat): TimerAction {
    if !IsNew(s, a) then Keep
    else if a.id in t.sched.msgs && t.sched.msgs[a.id].numPackets < t.sched.msgs[a.id].numExpectedPackets
    then Arm(cycle)
    else Disarm
  }

  /** Timers after an event of ReceiverModel that leads from `s` to `t`. */
  function TimersAfter(s: ReceiverState, t: ReceiverState, x: Timers, e: Event, cycle: nat, v: Intervals): Timers {
    match e
    case Data(a) => Each(x, a.id, if IsNew(s, a) then Arm(cycle) else Keep, ResendAction(s, t, a, cycle), v)
    case Receive => x
    case Drop(id) => if id in s.sched.msgs then Each(x, id, Disarm, Disarm, v) else x
    case Timeout(id) => Each(x, id, Disarm, Disarm, v)
    case Round => x
  }

  /** `handleBusyPacket`. */
  function BusyTimers(msgs: Messages, x: Timers, id: MessageId, cycle: nat, v: Intervals): Timers {
    if id !in msgs then x else Each(x, id, Arm(cycle), if msgs[id].state == Receiving then Arm(cycle) else Keep, v)
  }

  /** `handlePingPacket`. */
  function PingTimers(msgs: Messages, x: Timers, id: MessageId, cycle: nat, v: Intervals): Timers {
    if id !in msgs then x else Each(x, id, Arm(cycle), Keep, v)
  }

  /** `checkResendTimeouts`: every expired entry is armed anew. */
  function ResendsChecked(x: Timers, now: nat, cycle: nat, v: Intervals): Timers {
    x.(resend := Swept(x.resend, now, id => true, cycle + v.resend, |ElapsedIds(x.resend, now)|))
  }

  /** The first resend timeouts that expired have been armed anew. */
  ghost predicate ResentSoFar(was: seq<Entry>, now: nat, expiration: nat, handled: seq<MessageId>, list: seq<Entry>) {
    var all := ElapsedIds(was, now);
    && |handled| <= |all| && handled == all[..|handled|]
    && list == Swept(was, now, id => true, expiration, |handled|)
  }

  /** How many are left to be dealt with. */
  function ResendsLeft(was: seq<Entry>, now: nat, handled: seq<MessageId>): nat {
    if |handled| <= |ElapsedIds(was, now)| then |ElapsedIds(was, now)| - |handled| else 0
  }

  /** The front has not expired, so all are dealt with. */
  lemma ResentDone(was: seq<Entry>, now: nat, expiration: nat, handled: seq<MessageId>, list: seq<Entry>)
    requires Ordered(was) && now < expiration && ResentSoFar(was, now, expiration, handled, list)
    requires list == [] || now < list[0].expiration
    ensures handled == ElapsedIds(was, now) && list == Swept(was, now, id => true, expiration, |ElapsedIds(was, now)|)
    ensures forall k | 0 <= k < |list| :: now < list[k].expiration
  {
    var all := ElapsedIds(was, now);
    SweptFront(was, now, id => true, expiration, |handled|);
    assert |handled| == |all| && all[..|all|] == all;
  }

  lemma ResentNext(was: seq<Entry>, now: nat, expiration: nat, handled: seq<MessageId>, list: seq<Entry>, id: MessageId)
    requires Ordered(was) && now < expiration && ResentSoFar(was, now, expiration, handled, list)
    requires list != [] && list[0].expiration <= now && id == list[0].id
    ensures ResentSoFar(was, now, expiration, handled + [id], Rearmed(list, id, expiration))
    ensures ResendsLeft(was, now, handled + [id]) < ResendsLeft(was, now, handled)
  {
    var all, n := ElapsedIds(was, now), |handled|;
    SweptFront(was, now, id => true, expiration, n);
    SweptNext(was, now, id => true, expiration, n);
    assert all[..n + 1] == all[..n] + [all[n]];
  }

  // --------------------------------------------------------------- watched

  ghost predicate Watched(msgs: Messages, x: Timers) {
    forall id | id in msgs && msgs[id].state == Receiving :: Armed(x.message, id) && Armed(x.resend, id)
  }

  lemma EachWatched(msgs: Messages, after: Messages, x: Timers, id: MessageId,
                    message: TimerAction, resend: TimerAction, v: Intervals)
    requires Watched(msgs, x)
    requires forall y | y in after && y != id :: y in msgs && after[y].state == msgs[y].state
    requires id in after && after[id].state == Receiving ==>
               && (message.Arm? || (message.Keep? && id in msgs && msgs[id].state == Receiving))
               && (resend.Arm? || (resend.Keep? && id in msgs && msgs[id].state == Receiving))
    ensures Watched(after, Each(x, id, message, resend, v))
  {
    forall y | y in after && after[y].state == Receiving
      ensures Armed(Each(x, id, message, resend, v).message, y) && Armed(Each(x, id, message, resend, v).resend, y)
    {
      TimedArmed(x.message, id, message, v.message, y);
      TimedArmed(x.resend, id, resend, v.resend, y);
    }
  }

  lemma DataWatched(c: Config, s: ReceiverState, x: Timers, a: Arrival, cycle: nat, v: Intervals)
    requires c.Valid() && Inv(c, s) && Fits(c, s, a) && Watched(s.sched.msgs, x)
    ensures Watched(OnDataPacket(c, s, a).sched.msgs, TimersAfter(s, OnDataPacket(c, s, a), x, Event.Data(a), cycle, v))
  {
    var t := OnDataPacket(c, s, a);
    DataKeepsMessages(c, s, a);
    EachWatched(s.sched.msgs, t.sched.msgs, x, a.id,
                if IsNew(s, a) then Arm(cycle) else Keep, ResendAction(s, t, a, cycle), v);
  }

  lemma EndWatched(s: ReceiverState, x: Timers, id: MessageId, v: Intervals)
    requires SchedInv(s.sched) && id in s.sched.msgs && Watched(s.sched.msgs, x)
    ensures Watched(OnTimeout(s, id).sched.msgs, Each(x, id, Disarm, Disarm, v))
    ensures Watched(OnDrop(s, id).sched.msgs, Each(x, id, Disarm, Disarm, v))
  {
    TimeoutKeepsSchedule(s, id);
    ForgottenKeepsInv(s.sched, id);
    EachWatched(s.sched.msgs, OnTimeout(s, id).sched.msgs, x, id, Disarm, Disarm, v);
    EachWatched(s.sched.msgs, OnDrop(s, id).sched.msgs, x, id, Disarm, Disarm, v);
  }

  lemma RoundWatched(c: Config, s: ReceiverState, t: ReceiverState, x: Timers)
    requires c.Valid() && Inv(c, s) && Next(c, s, Round, t) && Watched(s.sched.msgs, x)
    ensures Watched(t.sched.msgs, x)
  {
    forall id | id in t.sched.msgs && t.sched.msgs[id].state == Receiving
      ensures Armed(x.message, id) && Armed(x.resend, id)
    {
      RoundKeepsState(c, s, t, id);
    }
  }

  /** Every event of the receiver leaves every incomplete message watched. */
  lemma NextWatched(c: Config, s: ReceiverState, e: Event, t: ReceiverState, x: Timers, cycle: nat, v: Intervals)
    requires c.Valid() && Inv(c, s) && Next(c, s, e, t) && Watched(s.sched.msgs, x)
    ensures Watched(t.sched.msgs, TimersAfter(s, t, x, e, cycle, v))
  {
    match e
    case Data(a) => DataWatched(c, s, x, a, cycle, v);
    case Receive =>
    case Drop(id) => if id in s.sched.msgs { EndWatched(s, x, id, v); }
    case Timeout(id) => EndWatched(s, x, id, v);
    case Round => RoundWatched(c, s, t, x);
  }

  lemma BusyWatched(msgs: Messages, x: Timers, id: MessageId, cycle: nat, v: Intervals)
    requires Watched(msgs, x)
    ensures Watched(msgs, BusyTimers(msgs, x, id, cycle, v)) && Watched(msgs, PingTimers(msgs, x, id, cycle, v))
  {
    if id in msgs {
      EachWatched(msgs, msgs, x, id, Arm(cycle), if msgs[id].state == Receiving then Arm(cycle) else Keep, v);
      EachWatched(msgs, msgs, x, id, Arm(cycle), Keep, v);
    }
  }

  lemma ResendsWatched(msgs: Messages, x: Timers, now: nat, cycle: nat, v: Intervals)
    requires Watched(msgs, x)
    ensures Watched(msgs, ResendsChecked(x, now, cycle, v))
  {
    forall y | y in msgs && msgs[y].state == Receiving ensures Armed(ResendsChecked(x, now, cycle, v).resend, y) {
      SweptArmed(x.resend, now, id => true, cycle + v.resend, y);
    }
  }

  /** Dealing with expired message timeouts leaves every incomplete message watched that is still known. */
  lemma ExpiryWatched(s: ReceiverState, x: Timers, now: nat)
    requires SchedInv(s.sched) && Watched(s.sched.msgs, x)
    ensures var handled := ElapsedIds(x.message, now);
            Watched(TimeOutAll(s, handled).sched.msgs,
                    Timers(x.message[|handled|..], WithoutIds(x.resend, IdsOf(handled))))
  {
    var handled := ElapsedIds(x.message, now);
    var after := TimeOutAll(s, handled).sched.msgs;
    forall y | y in after && after[y].state == Receiving
      ensures Armed(x.message[|handled|..], y) && Armed(WithoutIds(x.resend, IdsOf(handled)), y)
    {
      TimeOutAllKnown(s, handled, y);
      TimeOutAllEffect(s, handled, y);
      ElapsedOrLeft(x.message, now, y);
      WithoutIdsArmed(x.resend, IdsOf(handled), y);
    }
  }

  lemma {:induction false} TimeOutAllKnown(s: ReceiverState, ids: seq<MessageId>, id: MessageId)
    requires SchedInv(s.sched) && id in TimeOutAll(s, ids).sched.msgs
    ensures id in s.sched.msgs
  {
    if ids != [] {
      var t, last := TimeOutAll(s, ids[..|ids| - 1]), ids[|ids| - 1];
      if last in t.sched.msgs {
        TimeoutKeepsSchedule(t, last);
      }
      TimeOutAllKnown(s, ids[..|ids| - 1], id);
    }
  }

  // ------------------------------------------------------------ whole runs

  datatype TimedEvent =
    | Happens(e: Event, cycle: nat)
    | BusyArrives(id: MessageId, cycle: nat)
    | PingArrives(id: MessageId, cycle: nat)
    | ResendCheck(now: nat, cycle: nat)
    | MessageCheck(now: nat)

  datatype TimedState = TimedState(s: ReceiverState, x: Timers)

  /** `checkMessageTimeouts`. */
  ghost function MessagesChecked(a: TimedState, now: nat): TimedState
    requires SchedInv(a.s.sched)
  {
    var handled := ElapsedIds(a.x.message, now);
    TimedState(TimeOutAll(a.s, handled), Timers(a.x.message[|handled|..], WithoutIds(a.x.resend, IdsOf(handled))))
  }

  ghost predicate TimedNext(c: Config, v: Intervals, a: TimedState, e: TimedEvent, b: TimedState)
    requires c.Valid() && SchedInv(a.s.sched)
  {
    match e
    case Happens(event, cycle) => Next(c, a.s, event, b.s) && b.x == TimersAfter(a.s, b.s, a.x, event, cycle, v)
    case BusyArrives(id, cycle) => b == a.(x := BusyTimers(a.s.sched.msgs, a.x, id, cycle, v))
    case PingArrives(id, cycle) => b == a.(x := PingTimers(a.s.sched.msgs, a.x, id, cycle, v))
    case ResendCheck(now, cycle) => b == a.(x := ResendsChecked(a.x, now, cycle, v))
    case MessageCheck(now) => b == MessagesChecked(a, now)
  }

  ghost predicate TimedRun(c: Config, v: Intervals, states: seq<TimedState>, events: seq<TimedEvent>) {
    && c.Valid() && |states| == |events| + 1 && states[0] == TimedState(Init(), Timers([], []))
    && forall k {:trigger events[k]} | 0 <= k < |events| ::
         SchedInv(states[k].s.sched) ==> TimedNext(c, v, states[k], events[k], states[k + 1])
  }

  lemma TimedNextWatched(c: Config, v: Intervals, a: TimedState, e: TimedEvent, b: TimedState)
    requires c.Valid() && Inv(c, a.s) && Watched(a.s.sched.msgs, a.x) && TimedNext(c, v, a, e, b)
    ensures Inv(c, b.s) && Watched(b.s.sched.msgs, b.x)
  {
    match e
    case Happens(event, cycle) =>
      NextKeepsInv(c, a.s, event, b.s);
      NextWatched(c, a.s, event, b.s, a.x, cycle, v);
    case BusyArrives(id, cycle) => BusyWatched(a.s.sched.msgs, a.x, id, cycle, v);
    case PingArrives(id, cycle) => BusyWatched(a.s.sched.msgs, a.x, id, cycle, v);
    case ResendCheck(now, cycle) => ResendsWatched(a.s.sched.msgs, a.x, now, cycle, v);
    case MessageCheck(now) =>
      TimeOutAllKeepsInv(c, a.s, ElapsedIds(a.x.message, now));
      ExpiryWatched(a.s, a.x, now);
  }

  /** In every run each incomplete message has both its timeouts armed: it is asked for again, or given up. */
  lemma {:induction false} RunWatched(c: Config, v: Intervals, states: seq<TimedState>, events: seq<TimedEvent>, n: nat)
    requires TimedRun(c, v, states, events) && n <= |events|
    ensures Inv(c, states[n].s) && Watched(states[n].s.sched.msgs, states[n].x)
  {
    if n > 0 {
      RunWatched(c, v, states, events, n - 1);
      assert TimedNext(c, v, states[n - 1], events[n - 1], states[n]);
      TimedNextWatched(c, v, states[n - 1], events[n - 1], states[n]);
    }
  }

  // ------------------------------------------------ how long a message waits

  /** The sender of a message was heard of: a packet not seen before, BUSY, or PING. */
  predicate Heard(s: ReceiverState, e: TimedEvent, id: MessageId) {
    match e
    case Happens(event, _) => event.Data? && event.a.id == id && IsNew(s, event.a)
    case BusyArrives(x, _) => x == id && id in s.sched.msgs
    case PingArrives(x, _) => x == id && id in s.sched.msgs
    case ResendCheck(_, _) => false
    case MessageCheck(_) => false
  }

  /** There is no need yet to ask for packets again: another one came, or the sender is busy. */
  predicate Patient(s: ReceiverState, e: TimedEvent, t: ReceiverState, id: MessageId) {
    && (e.Happens? || e.BusyArrives?) && Heard(s, e, id)
    && id in t.sched.msgs && t.sched.msgs[id].state == Receiving
  }

  function CycleOf(e: TimedEvent): nat {
    match e
    case Happens(_, cycle) => cycle
    case BusyArrives(_, cycle) => cycle
    case PingArrives(_, cycle) => cycle
    case ResendCheck(_, cycle) => cycle
    case MessageCheck(now) => now
  }

  /** The clock never runs backwards. */
  ghost predicate Forward(v: Intervals, events: seq<TimedEvent>) {
    && 0 < v.resend
    && (forall i, j | 0 <= i < j < |events| :: CycleOf(events[i]) <= CycleOf(events[j]))
    && (forall e | e in events && e.ResendCheck? :: e.now <= e.cycle)
  }

  /** When the sender of a message was last heard of in the first `n` steps of a run. */
  ghost function LastHeard(states: seq<TimedState>, events: seq<TimedEvent>, n: nat, id: MessageId): Option<nat>
    requires |states| == |events| + 1 && n <= |events|
  {
    if n == 0 then None
    else if Heard(states[n - 1].s, events[n - 1], id) then Some(CycleOf(events[n - 1]))
    else LastHeard(states, events, n - 1, id)
  }

  ghost function LastPatient(states: seq<TimedState>, events: seq<TimedEvent>, n: nat, id: MessageId): Option<nat>
    requires |states| == |events| + 1 && n <= |events|
  {
    if n == 0 then None
    else if Patient(states[n - 1].s, events[n - 1], states[n].s, id) then Some(CycleOf(events[n - 1]))
    else LastPatient(states, events, n - 1, id)
  }

  /** Both lists of timeouts, as far as the senders of the messages were heard of. */
  ghost predicate BothDated(x: Timers, v: Intervals, cycle: nat, heard: MessageId -> Option<nat>,
                            patient: MessageId -> Option<nat>)
  {
    Dated(x.message, v.message, cycle, heard, true) && Dated(x.resend, v.resend, cycle, patient, false)
  }

  lemma EachDated(x: Timers, v: Intervals, cycle: nat, heard: MessageId -> Option<nat>,
                  patient: MessageId -> Option<nat>, id: MessageId, message: TimerAction, resend: TimerAction,
                  cycle': nat, heard': MessageId -> Option<nat>, patient': MessageId -> Option<nat>)
    requires BothDated(x, v, cycle, heard, patient) && cycle <= cycle'
    requires forall y | y != id :: heard'(y) == heard(y) && patient'(y) == patient(y)
    requires message.Arm? ==> message.cycle == cycle' && heard'(id) == Some(cycle')
    requires message.Keep? ==> heard'(id) == heard(id)
    requires resend.Arm? ==> resend.cycle == cycle' && patient'(id) == Some(cycle')
    requires resend.Keep? ==> patient'(id) == patient(id)
    ensures BothDated(Each(x, id, message, resend, v), v, cycle', heard', patient')
  {
    TimedDated(x.message, id, message, v.message, cycle, heard, true, cycle', heard');
    TimedDated(x.resend, id, resend, v.resend, cycle, patient, false, cycle', patient');
  }

  lemma SameDated(x: Timers, v: Intervals, cycle: nat, heard: MessageId -> Option<nat>,
                  patient: MessageId -> Option<nat>, cycle': nat, heard': MessageId -> Option<nat>,
                  patient': MessageId -> Option<nat>)
    requires BothDated(x, v, cycle, heard, patient) && cycle <= cycle'
    requires forall y :: heard'(y) == heard(y) && patient'(y) == patient(y)
    ensures BothDated(x, v, cycle', heard', patient')
  {
    FewerDated(x.message, x.message, v.message, cycle, heard, true, cycle', heard');
    FewerDated(x.resend, x.resend, v.resend, cycle, patient, false, cycle', patient');
  }

  lemma ChecksDated(a: TimedState, v: Intervals, cycle: nat, heard: MessageId -> Option<nat>,
                    patient: MessageId -> Option<nat>, now: nat, cycle': nat)
    requires SchedInv(a.s.sched) && BothDated(a.x, v, cycle, heard, patient)
    requires cycle <= cycle' && now <= cycle' && 0 < v.resend
    ensures BothDated(ResendsChecked(a.x, now, cycle', v), v, cycle', heard, patient)
    ensures BothDated(MessagesChecked(a, now).x, v, cycle', heard, patient)
  {
    var handled := ElapsedIds(a.x.message, now);
    FewerDated(a.x.message, a.x.message, v.message, cycle, heard, true, cycle', heard);
    SweptDated(a.x.resend, now, id => true, v.resend, cycle, patient, cycle', |ElapsedIds(a.x.resend, now)|);
    ExpiredDated(a.x.message, now, v.message, cycle, heard, true, cycle');
    WithoutIdsDated(a.x.resend, IdsOf(handled), v.resend, cycle, patient, false, cycle');
  }

  /** What the clocks show after a step. */
  ghost predicate Noted(a: TimedState, e: TimedEvent, b: TimedState, heard: MessageId -> Option<nat>,
                        patient: MessageId -> Option<nat>, heard': MessageId -> Option<nat>,
                        patient': MessageId -> Option<nat>)
  {
    && (forall y :: heard'(y) == if Heard(a.s, e, y) then Some(CycleOf(e)) else heard(y))
    && (forall y :: patient'(y) == if Patient(a.s, e, b.s, y) then Some(CycleOf(e)) else patient(y))
  }

  lemma EventDated(c: Config, v: Intervals, a: TimedState, e: TimedEvent, b: TimedState, cycle: nat,
                   heard: MessageId -> Option<nat>, patient: MessageId -> Option<nat>,
                   heard': MessageId -> Option<nat>, patient': MessageId -> Option<nat>)
    requires c.Valid() && Inv(c, a.s) && TimedNext(c, v, a, e, b) && e.Happens? && cycle <= e.cycle
    requires BothDated(a.x, v, cycle, heard, patient) && Noted(a, e, b, heard, patient, heard', patient')
    ensures BothDated(b.x, v, e.cycle, heard', patient')
  {
    match e.e
    case Data(d) =>
      DataKeepsMessages(c, a.s, d);
      EachDated(a.x, v, cycle, heard, patient, d.id, if IsNew(a.s, d) then Arm(e.cycle) else Keep,
                ResendAction(a.s, b.s, d, e.cycle), e.cycle, heard', patient');
    case Receive => SameDated(a.x, v, cycle, heard, patient, e.cycle, heard', patient');
    case Drop(id) =>
      if id in a.s.sched.msgs {
        EachDated(a.x, v, cycle, heard, patient, id, Disarm, Disarm, e.cycle, heard', patient');
      } else {
        SameDated(a.x, v, cycle, heard, patient, e.cycle, heard', patient');
      }
    case Timeout(id) => EachDated(a.x, v, cycle, heard, patient, id, Disarm, Disarm, e.cycle, heard', patient');
    case Round => SameDated(a.x, v, cycle, heard, patient, e.cycle, heard', patient');
  }

  /** An event dates the timeouts of the message whose sender was heard of, and no other. */
  lemma NextDated(c: Config, v: Intervals, a: TimedState, e: TimedEvent, b: TimedState, cycle: nat,
                  heard: MessageId -> Option<nat>, patient: MessageId -> Option<nat>,
                  heard': MessageId -> Option<nat>, patient': MessageId -> Option<nat>)
    requires c.Valid() && Inv(c, a.s) && TimedNext(c, v, a, e, b) && cycle <= CycleOf(e) && 0 < v.resend
    requires e.ResendCheck? ==> e.now <= e.cycle
    requires BothDated(a.x, v, cycle, heard, patient) && Noted(a, e, b, heard, patient, heard', patient')
    ensures BothDated(b.x, v, CycleOf(e), heard', patient')
  {
    match e
    case Happens(_, _) => EventDated(c, v, a, e, b, cycle, heard, patient, heard', patient');
    case BusyArrives(id, now) =>
      if id in a.s.sched.msgs {
        EachDated(a.x, v, cycle, heard, patient, id, Arm(now),
                  if a.s.sched.msgs[id].state == Receiving then Arm(now) else Keep, now, heard', patient');
      } else {
        SameDated(a.x, v, cycle, heard, patient, now, heard', patient');
      }
    case PingArrives(id, now) =>
      if id in a.s.sched.msgs {
        EachDated(a.x, v, cycle, heard, patient, id, Arm(now), Keep, now, heard', patient');
      } else {
        SameDated(a.x, v, cycle, heard, patient, now, heard', patient');
      }
    case ResendCheck(now, cycle') =>
      ChecksDated(a, v, cycle, heard, patient, now, cycle');
      SameDated(b.x, v, cycle', heard, patient, cycle', heard', patient');
    case MessageCheck(now) =>
      ChecksDated(a, v, cycle, heard, patient, now, now);
      SameDated(b.x, v, now, heard, patient, now, heard', patient');
  }

  function Clock(events: seq<TimedEvent>, n: nat): nat
    requires n <= |events|
  {
    if n == 0 then 0 else CycleOf(events[n - 1])
  }

  ghost function Last(states: seq<TimedState>, events: seq<TimedEvent>, n: nat): MessageId -> Option<nat>
    requires |states| == |events| + 1 && n <= |events|
  {
    id => LastHeard(states, events, n, id)
  }

  ghost function Waited(states: seq<TimedState>, events: seq<TimedEvent>, n: nat): MessageId -> Option<nat>
    requires |states| == |events| + 1 && n <= |events|
  {
    id => LastPatient(states, events, n, id)
  }

  /**
   * In every run a message timeout expires exactly its interval after the sender was last heard of, and
   * a resend timeout not before its own.
   */
  lemma {:induction false} RunDated(c: Config, v: Intervals, states: seq<TimedState>, events: seq<TimedEvent>, n: nat)
    requires TimedRun(c, v, states, events) && Forward(v, events) && n <= |events|
    ensures BothDated(states[n].x, v, Clock(events, n), Last(states, events, n), Waited(states, events, n))
  {
    if n > 0 {
      RunDated(c, v, states, events, n - 1);
      RunWatched(c, v, states, events, n - 1);
      assert events[n - 1] in events && TimedNext(c, v, states[n - 1], events[n - 1], states[n]);
      NextDated(c, v, states[n - 1], events[n - 1], states[n], Clock(events, n - 1),
                Last(states, events, n - 1), Waited(states, events, n - 1),
                Last(states, events, n), Waited(states, events, n));
    }
  }

  /**
   * An incomplete message is given up by a check exactly if its sender was last heard of at least the
   * message interval ago, and asked for again only if the resend interval has passed without a packet or BUSY.
   */
  lemma GivenUpAfterSilence(c: Config, v: Intervals, states: seq<TimedState>, events: seq<TimedEvent>, n: nat,
                            now: nat, id: MessageId)
    requires TimedRun(c, v, states, events) && Forward(v, events) && n <= |events|
    requires id in states[n].s.sched.msgs && states[n].s.sched.msgs[id].state == Receiving
    ensures var heard, patient := LastHeard(states, events, n, id), LastPatient(states, events, n, id);
            && heard.Some? && patient.Some?
            && (id in ElapsedIds(states[n].x.message, now) <==> heard.value + v.message <= now)
            && (id in ElapsedIds(states[n].x.resend, now) ==> patient.value + v.resend <= now)
  {
    var x, heard, patient := states[n].x, Last(states, events, n), Waited(states, events, n);
    RunDated(c, v, states, events, n);
    RunWatched(c, v, states, events, n);
    ArmedIsDated(x.message, v.message, Clock(events, n), heard, true, id);
    ArmedIsDated(x.resend, v.resend, Clock(events, n), patient, false, id);
    DatedElapses(x.message, now, v.message, Clock(events, n), heard, true, id);
    DatedElapses(x.resend, now, v.resend, Clock(events, n), patient, false, id);
  }

  /** A message that is forgotten leaves no timeout behind, and one that is complete is not asked for. */
  lemma EndedIsUnwatched(c: Config, s: ReceiverState, e: Event, t: ReceiverState, x: Timers, cycle: nat, v: Intervals,
                         id: MessageId)
    requires c.Valid() && Inv(c, s) && Next(c, s, e, t) && Ordered(x.message) && Ordered(x.resend)
    requires id in s.sched.msgs && s.sched.msgs[id].state == Receiving
    ensures id !in t.sched.msgs ==> !Armed(TimersAfter(s, t, x, e, cycle, v).message, id)
    ensures id !in t.sched.msgs || t.sched.msgs[id].state != Receiving ==>
              !Armed(TimersAfter(s, t, x, e, cycle, v).resend, id)
  {
    if e.Data? && e.a.id == id {
      DataKeepsMessages(c, s, e.a);
      DisarmedIsUnarmed(x.resend, id);
    } else if e == Event.Drop(id) || e == Event.Timeout(id) {
      DisarmedIsUnarmed(x.message, id);
      DisarmedIsUnarmed(x.resend, id);
    } else {
      OthersStay(c, s, e, t, id);
    }
  }

  lemma OthersStay(c: Config, s: ReceiverState, e: Event, t: ReceiverState, id: MessageId)
    requires c.Valid() && Inv(c, s) && Next(c, s, e, t) && id in s.sched.msgs
    requires !(e.Data? && e.a.id == id) && e != Event.Drop(id) && e != Event.Timeout(id)
    ensures id in t.sched.msgs && t.sched.msgs[id].state == s.sched.msgs[id].state
  {
    match e
    case Data(a) => DataKeepsMessages(c, s, a);
    case Receive =>
    case Drop(y) => if y in s.sched.msgs { ForgottenKeepsInv(s.sched, y); }
    case Timeout(y) => TimeoutKeepsSchedule(s, y);
    case Round => RoundKeepsState(c, s, t, id);
  }
}
