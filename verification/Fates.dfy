/** What becomes of the messages of a sender in the end, and what its application is told about it. */
module Fates {
  import opened Protocol
  import opened SendQueue
  import opened SenderModel

  /** The message is still to be delivered. */
  predicate Live(m: OutMessage) { m.status == IN_PROGRESS || m.status == SENT }

  /** The events that end a message and are reported to the application. */
  predicate Reported(m: OutMessage, e: MessageEvent) {
    || ((e.DoneArrived? || e.ErrorArrived?) && m.status == SENT)
    || (e.MessageTimeout? && m.status != COMPLETED)
  }

  /** The events that end a message in progress. */
  predicate Ends(m: OutMessage, e: MessageEvent) {
    e.CancelMessage? || e.MessageTimeout? || (e.UnknownArrived? && (m.options.noRetry || |m.packets| == 1))
  }

  /**
   * How a message ends: COMPLETED by a DONE once it is SENT, CANCELED by the application, FAILED by an ERROR
   * once it is SENT, by its timeout, or by an UNKNOWN if it must not be retried.  The application's `cancel`
   * overrides every end, and the timeout every end but COMPLETED; nothing else does.
   */
  lemma EventFate(c: Config, s: SenderState, id: MessageId, e: MessageEvent)
    requires c.Valid() && id in s.queue.msgs
    ensures var m, t := s.queue.msgs[id], Step(c, s, About(id, e));
            && t.done == s.done + (if Reported(m, e) then [id] else [])
            && (id !in t.queue.msgs <==> e.DropMessage? && m.status != IN_PROGRESS)
            && (id in t.queue.msgs ==>
                  var n := t.queue.msgs[id];
                  && (n.status == COMPLETED <==>
                        (e.DoneArrived? && m.status == SENT) || (m.status == COMPLETED && !e.CancelMessage?))
                  && (n.status == CANCELED <==> e.CancelMessage? || (m.status == CANCELED && !e.MessageTimeout?))
                  && (n.status == FAILED <==>
                        || (e.ErrorArrived? && m.status == SENT)
                        || (e.MessageTimeout? && m.status != COMPLETED)
                        || (e.UnknownArrived? && Live(m) && m.options.noRetry)
                        || (m.status == FAILED && !e.CancelMessage?))
                  && (n.status == IN_PROGRESS <==>
                        || (m.status == IN_PROGRESS && !Ends(m, e))
                        || (e.UnknownArrived? && m.status == SENT && !m.options.noRetry && |m.packets| != 1)))
  {
  }

  /** An event about another message, a new message and sending leave a message's end alone. */
  lemma OtherFate(c: Config, s: SenderState, e: Event, id: MessageId)
    requires c.Valid() && Inv(c, s) && id in s.queue.msgs && !(e.About? && e.id == id)
    ensures var t := Step(c, s, e);
            id in t.queue.msgs ==>
              || t.queue.msgs[id].status == s.queue.msgs[id].status
              || (s.queue.msgs[id].status == IN_PROGRESS && t.queue.msgs[id].status == SENT)
  {
    match e
    case SendMessage(_, _, _) =>
    case TrySend(queued) => SrptSentOnly(s.queue, queued, c.limit, c.header, Srpt(s.queue, queued, c.limit, c.header));
    case About(x, event) => OthersStay(c, s, x, event, id);
  }

  // ------------------------------------------------------------ whole runs

  /** What happened to a message in a run. */
  predicate Happened(events: seq<Event>, id: MessageId, e: MessageEvent) { About(id, e) in events }

  ghost predicate WasUnknown(events: seq<Event>, id: MessageId) {
    exists priority :: Happened(events, id, UnknownArrived(priority))
  }

  /** A message and what its application was told, explained by what happened. */
  ghost predicate Explained(s: SenderState, events: seq<Event>, id: MessageId) {
    && (id in s.done ==> || Happened(events, id, DoneArrived) || Happened(events, id, ErrorArrived)
                         || Happened(events, id, MessageTimeout))
    && (id in s.queue.msgs ==> MessageExplained(s.queue.msgs[id], s.done, events, id))
  }

  ghost predicate MessageExplained(m: OutMessage, done: seq<MessageId>, events: seq<Event>, id: MessageId) {
    match m.status
    case COMPLETED => Happened(events, id, DoneArrived) && id in done
    case CANCELED => Happened(events, id, CancelMessage)
    case FAILED =>
      || (id in done && (Happened(events, id, ErrorArrived) || Happened(events, id, MessageTimeout)))
      || (m.options.noRetry && WasUnknown(events, id))
    case _ => true
  }

  lemma ExplainedLonger(m: OutMessage, done: seq<MessageId>, events: seq<Event>, e: Event, id: MessageId)
    requires MessageExplained(m, done, events, id)
    ensures MessageExplained(m, done, events + [e], id)
  {
    if m.status == FAILED && WasUnknown(events, id) {
      var priority :| Happened(events, id, UnknownArrived(priority));
      assert Happened(events + [e], id, UnknownArrived(priority));
    }
  }

  lemma ExplainedMore(m: OutMessage, done: seq<MessageId>, more: seq<MessageId>, events: seq<Event>, id: MessageId)
    requires MessageExplained(m, done, events, id)
    ensures MessageExplained(m, done + more, events, id)
  {
  }

  lemma OwnEventExplained(c: Config, s: SenderState, events: seq<Event>, id: MessageId, e: MessageEvent)
    requires c.Valid() && id in s.queue.msgs && Explained(s, events, id)
    ensures Explained(Step(c, s, About(id, e)), events + [About(id, e)], id)
  {
    EventFate(c, s, id, e);
    var m, t := s.queue.msgs[id], Step(c, s, About(id, e));
    ExplainedLonger(m, s.done, events, About(id, e), id);
    ExplainedMore(m, s.done, if Reported(m, e) then [id] else [], events + [About(id, e)], id);
    assert Happened(events + [About(id, e)], id, e);
    KeepsOptions(c, s, id, e);
  }

  lemma KeepsOptions(c: Config, s: SenderState, id: MessageId, e: MessageEvent)
    requires c.Valid() && id in s.queue.msgs
    ensures var t := Step(c, s, About(id, e));
            id in t.queue.msgs ==>
              && t.queue.msgs[id].options == s.queue.msgs[id].options
              && t.queue.msgs[id].packets == s.queue.msgs[id].packets
  {
  }

  lemma OtherEventExplained(c: Config, s: SenderState, events: seq<Event>, e: Event, id: MessageId)
    requires c.Valid() && Inv(c, s) && Explained(s, events, id) && !(e.About? && e.id == id && id in s.queue.msgs)
    ensures Explained(Step(c, s, e), events + [e], id)
  {
    var t := Step(c, s, e);
    DoneGrows(c, s, e, id);
    if id in s.queue.msgs && id in t.queue.msgs {
      OtherFate(c, s, e, id);
      StepHolds(c, s, e, id);
      ExplainedLonger(s.queue.msgs[id], s.done, events, e, id);
    }
  }

  /** Only an event about a tracked message is reported, as that message's. */
  lemma DoneGrows(c: Config, s: SenderState, e: Event, id: MessageId)
    requires c.Valid() && Inv(c, s) && !(e.About? && e.id == id && id in s.queue.msgs)
    ensures id in Step(c, s, e).done <==> id in s.done
    ensures id !in s.queue.msgs && id in Step(c, s, e).queue.msgs ==> Live(Step(c, s, e).queue.msgs[id])
  {
    match e
    case SendMessage(_, _, _) =>
    case TrySend(queued) => TrySendKnows(c, s, queued, id);
    case About(x, event) => if x != id { OthersStay(c, s, x, event, id); }
  }

  lemma TrySendKnows(c: Config, s: SenderState, queued: nat, id: MessageId)
    requires c.Valid() && QueueInv(s.queue)
    ensures var t := Step(c, s, TrySend(queued)); t.done == s.done && (id in t.queue.msgs ==> id in s.queue.msgs)
  {
    SrptSentOnly(s.queue, queued, c.limit, c.header, Srpt(s.queue, queued, c.limit, c.header));
  }

  /** The applications send proper messages only. */
  ghost predicate Proper(events: seq<Event>) { forall e | e in events && e.SendMessage? :: Sendable(e.packets) }

  /**
   * In every run: a COMPLETED message was reported and a DONE came for it; a CANCELED one was cancelled; a
   * FAILED one was reported after an ERROR or a timeout, or was not to be retried and turned out to be
   * unknown; and whatever is reported was ended by a DONE, an ERROR or a timeout.
   */
  lemma {:induction false} RunFate(c: Config, events: seq<Event>, id: MessageId)
    requires c.Valid() && Proper(events)
    ensures Explained(After(c, events), events, id)
  {
    if events != [] {
      var most, e := events[..|events| - 1], events[|events| - 1];
      assert events == most + [e] && forall x | x in most :: x in events;
      RunFate(c, most, id);
      RunKeepsInv(c, most);
      if e.About? && e.id == id && id in After(c, most).queue.msgs {
        OwnEventExplained(c, After(c, most), most, id, e.event);
      } else {
        OtherEventExplained(c, After(c, most), most, e, id);
      }
    }
  }

  // ------------------------------------------------- what the application holds

  /**
   * What a step leaves of a message the sender knew as `m`: its contents stay, only `release` gives it up, and it
   * goes away then, or as soon as it has been sent.
   */
  ghost predicate HeldAs(m: OutMessage, after: map<MessageId, OutMessage>, e: Event, id: MessageId) {
    && (id in after ==>
          && after[id].packets == m.packets && after[id].options == m.options
          && (after[id].held <==> m.held && e != About(id, DropMessage))
          && (e.TrySend? && m.status == IN_PROGRESS && after[id].status == SENT ==> m.held))
    && (id !in after ==> || (e == About(id, DropMessage) && m.status != IN_PROGRESS)
                         || (e.TrySend? && !m.held && m.status == IN_PROGRESS))
    && (e == About(id, DropMessage) && m.status != IN_PROGRESS ==> id !in after)
  }

  lemma OwnEventHolds(c: Config, s: SenderState, e: MessageEvent, id: MessageId)
    requires c.Valid() && id in s.queue.msgs
    ensures HeldAs(s.queue.msgs[id], Step(c, s, About(id, e)).queue.msgs, About(id, e), id)
  {
    KeepsOptions(c, s, id, e);
  }

  lemma TrySendHolds(c: Config, s: SenderState, queued: nat, id: MessageId)
    requires c.Valid() && QueueInv(s.queue) && id in s.queue.msgs
    ensures HeldAs(s.queue.msgs[id], Step(c, s, TrySend(queued)).queue.msgs, TrySend(queued), id)
  {
    var r := Srpt(s.queue, queued, c.limit, c.header);
    SrptSentOnly(s.queue, queued, c.limit, c.header, r);
    SrptPerMessage(s.queue, queued, c.limit, c.header, r, id);
  }

  lemma StepHolds(c: Config, s: SenderState, e: Event, id: MessageId)
    requires c.Valid() && Inv(c, s) && id in s.queue.msgs
    ensures HeldAs(s.queue.msgs[id], Step(c, s, e).queue.msgs, e, id)
  {
    match e
    case SendMessage(_, _, _) =>
    case TrySend(queued) => TrySendHolds(c, s, queued, id);
    case About(x, event) => if x == id { OwnEventHolds(c, s, event, id); } else { OthersStay(c, s, x, event, id); }
  }

  /** No message the application has released is kept once it was sent. */
  ghost predicate Released(s: SenderState) {
    forall id | id in s.queue.msgs && !s.queue.msgs[id].held ::
      s.queue.msgs[id].status != SENT && s.queue.msgs[id].status != COMPLETED
  }

  lemma StepReleases(c: Config, s: SenderState, e: Event)
    requires c.Valid() && Inv(c, s) && Released(s) && (e.SendMessage? ==> Sendable(e.packets))
    ensures Released(Step(c, s, e))
  {
    var t := Step(c, s, e);
    forall id | id in t.queue.msgs && !t.queue.msgs[id].held
      ensures t.queue.msgs[id].status != SENT && t.queue.msgs[id].status != COMPLETED
    {
      if id in s.queue.msgs {
        StepHolds(c, s, e, id);
        ReleasedStays(c, s, e, id);
      } else {
        NewIsHeld(c, s, e, id);
      }
    }
  }

  /** A message given up does not become SENT or COMPLETED. */
  lemma ReleasedStays(c: Config, s: SenderState, e: Event, id: MessageId)
    requires c.Valid() && Inv(c, s) && id in s.queue.msgs && id in Step(c, s, e).queue.msgs
    requires HeldAs(s.queue.msgs[id], Step(c, s, e).queue.msgs, e, id)
    requires !Step(c, s, e).queue.msgs[id].held
    requires !s.queue.msgs[id].held ==> s.queue.msgs[id].status != SENT && s.queue.msgs[id].status != COMPLETED
    ensures Step(c, s, e).queue.msgs[id].status != SENT && Step(c, s, e).queue.msgs[id].status != COMPLETED
  {
    if e.About? && e.id == id {
      assert s.queue.msgs[id].Valid();
      EventFate(c, s, id, e.event);
    } else {
      OtherFate(c, s, e, id);
    }
  }

  lemma NewIsHeld(c: Config, s: SenderState, e: Event, id: MessageId)
    requires c.Valid() && Inv(c, s) && id !in s.queue.msgs && id in Step(c, s, e).queue.msgs
    ensures Step(c, s, e).queue.msgs[id].held
  {
    match e
    case SendMessage(_, _, _) =>
    case TrySend(queued) =>
      SrptSentOnly(s.queue, queued, c.limit, c.header, Srpt(s.queue, queued, c.limit, c.header));
    case About(x, event) => if x != id { OthersStay(c, s, x, event, id); }
  }

  lemma {:induction false} RunReleases(c: Config, events: seq<Event>)
    requires c.Valid() && Proper(events)
    ensures Released(After(c, events))
  {
    if events != [] {
      var most, e := events[..|events| - 1], events[|events| - 1];
      assert e in events && forall x | x in most :: x in events;
      RunReleases(c, most);
      RunKeepsInv(c, most);
      StepReleases(c, After(c, most), e);
    }
  }

  // --------------------------------------------------------- work to be done

  /** The event gives the sender something to look at. */
  predicate BringsWork(c: Config, s: SenderState, e: Event)
    requires c.Valid()
  {
    match e
    case SendMessage(packets, _, _) => |packets| != 1
    case TrySend(_) => false
    case About(id, event) =>
      && id in s.queue.msgs
      && var m := s.queue.msgs[id];
         || (event.UnknownArrived? && Live(m) && !m.options.noRetry && |m.packets| != 1)
         || (event.GrantArrived? && m.status == IN_PROGRESS && Reaches(m, c.p, event.byteLimit))
         || (event.ResendArrived? && 2 <= |m.packets| && event.index < |m.packets| &&
             m.packetsGranted < event.index + event.num <= |m.packets|)
  }

  /** The limit lets a message send a packet it could not send before. */
  predicate Reaches(m: OutMessage, p: nat, byteLimit: nat) {
    m.packetsGranted < |m.packets| && m.packetsGranted * p < byteLimit
  }

  /**
   * `sendReady` goes up exactly when there is something new to look at, and after `trySend` it is up exactly
   * when a queued message still has a granted packet to send.
   */
  lemma ReadyExactly(c: Config, s: SenderState, e: Event)
    requires c.Valid() && Inv(c, s)
    ensures var t := Step(c, s, e);
            if e.TrySend? && s.sendReady
            then t.sendReady <==> exists id :: InQueue(t.queue.msgs, id) && t.queue.msgs[id].Ready()
            else t.sendReady <==> s.sendReady || BringsWork(c, s, e)
  {
    if e.TrySend? && s.sendReady {
      BlockedExactly(c, s, e.queued);
    } else if e.About? && e.event.GrantArrived? && e.id in s.queue.msgs {
      var m := s.queue.msgs[e.id];
      GrantReaches(m, c.p, e.event.byteLimit, e.event.priority, m.packetsGranted);
    }
  }

  lemma BlockedExactly(c: Config, s: SenderState, queued: nat)
    requires c.Valid() && Inv(c, s) && s.sendReady
    ensures var t := Step(c, s, TrySend(queued));
            t.sendReady <==> exists id :: InQueue(t.queue.msgs, id) && t.queue.msgs[id].Ready()
  {
    var r, t := Srpt(s.queue, queued, c.limit, c.header), Step(c, s, TrySend(queued));
    TrySendKeepsInv(c, s, queued);
    if r.blocked {
      SrptKeepsInv(s.queue, queued, c.limit, c.header, r);
      SrptStopsForAReason(s.queue, queued, c.limit, c.header, r);
      var k := FirstReady(r.queue, 0);
      QueueEntry(r.queue, k);
      assert InQueue(t.queue.msgs, r.queue.order[k]) && t.queue.msgs[r.queue.order[k]].Ready();
    }
  }
}
