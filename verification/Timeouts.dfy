/**
 * Timeouts that all last equally long: a list in the order in which they were armed is
 * a list in the order in which they expire.
 */
module Timeouts {
  import opened Base
  import opened Protocol

  const UINT64_MAX: nat := 0xFFFF_FFFF_FFFF_FFFF

  /** An armed timeout of a message. */
  datatype Entry = Entry(id: MessageId, expiration: nat)

  /** Unlink the entry of a message, if it is armed. */
  function Without(list: seq<Entry>, id: MessageId): (r: seq<Entry>)
    ensures |r| <= |list|
  {
    if list == [] then []
    else if list[0].id == id then list[1..]
    else [list[0]] + Without(list[1..], id)
  }

  ghost predicate Ordered(list: seq<Entry>) {
    forall i, j | 0 <= i < j < |list| :: list[i].expiration <= list[j].expiration && list[i].id != list[j].id
  }

  /** An entry in front of later ones. */
  lemma OrderedCons(e: Entry, rest: seq<Entry>)
    requires Ordered(rest) && forall x | x in rest :: e.expiration <= x.expiration && e.id != x.id
    ensures Ordered([e] + rest)
  {
  }

  lemma OrderedHead(list: seq<Entry>, e: Entry)
    requires Ordered(list) && list != [] && e in list[1..]
    ensures Ordered(list[1..]) && list[0].expiration <= e.expiration && list[0].id != e.id
  {
    var k :| 0 <= k < |list[1..]| && list[1..][k] == e;
    assert list[k + 1] == e;
  }

  /** Removing one entry keeps the others, and only them, in their order. */
  lemma {:induction false} WithoutKeeps(list: seq<Entry>, id: MessageId)
    requires Ordered(list)
    ensures Ordered(Without(list, id))
    ensures forall e :: e in Without(list, id) <==> e in list && e.id != id
  {
    if list != [] {
      var first, rest := list[0], list[1..];
      assert Ordered(rest);
      forall e | e in rest ensures first.expiration <= e.expiration && first.id != e.id {
        OrderedHead(list, e);
      }
      assert list == [first] + rest;
      if first.id != id {
        WithoutKeeps(rest, id);
        OrderedCons(first, Without(rest, id));
      }
    }
  }

  /** The entry armed last goes to the end. */
  lemma RearmKeepsOrder(list: seq<Entry>, id: MessageId, expiration: nat)
    requires Ordered(list) && forall k | 0 <= k < |list| :: list[k].expiration <= expiration
    ensures Ordered(Without(list, id) + [Entry(id, expiration)])
    ensures forall e | e in Without(list, id) + [Entry(id, expiration)] :: e.expiration <= expiration
  {
    WithoutKeeps(list, id);
    var kept := Without(list, id);
    forall k | 0 <= k < |kept| ensures kept[k].expiration <= expiration && kept[k].id != id {
      assert kept[k] in kept;
    }
  }

  /** The messages whose timeout has expired by `now`, in order. */
  function ElapsedIds(list: seq<Entry>, now: nat): (r: seq<MessageId>)
    ensures |r| <= |list|
  {
    if list == [] || now < list[0].expiration then [] else [list[0].id] + ElapsedIds(list[1..], now)
  }

  /** Every expired entry is among them, each exactly once. */
  lemma {:induction false} ElapsedIdsComplete(list: seq<Entry>, now: nat)
    requires Ordered(list)
    ensures |ElapsedIds(list, now)| <= |list|
    ensures forall k | 0 <= k < |ElapsedIds(list, now)| ::
              list[k].id == ElapsedIds(list, now)[k] && list[k].expiration <= now
    ensures forall k | |ElapsedIds(list, now)| <= k < |list| :: now < list[k].expiration
    ensures NoDup(ElapsedIds(list, now))
  {
    if list != [] && list[0].expiration <= now {
      ElapsedIdsComplete(list[1..], now);
    }
  }

  // ------------------------------------------------------- several entries

  /** Unlink the entries of several messages. */
  function WithoutIds(list: seq<Entry>, ids: set<MessageId>): seq<Entry> {
    if list == [] then []
    else (if list[0].id in ids then [] else [list[0]]) + WithoutIds(list[1..], ids)
  }

  lemma {:induction false} WithoutNone(list: seq<Entry>)
    ensures WithoutIds(list, {}) == list
  {
    if list != [] { WithoutNone(list[1..]); }
  }

  lemma {:induction false} WithoutAbsent(list: seq<Entry>, ids: set<MessageId>, id: MessageId)
    requires forall k | 0 <= k < |list| :: list[k].id != id
    ensures WithoutIds(list, ids + {id}) == WithoutIds(list, ids)
  {
    if list != [] { WithoutAbsent(list[1..], ids, id); }
  }

  lemma {:induction false} WithoutIdsMembers(list: seq<Entry>, ids: set<MessageId>)
    ensures forall e :: e in WithoutIds(list, ids) <==> e in list && e.id !in ids
  {
    if list != [] {
      WithoutIdsMembers(list[1..], ids);
      assert forall e :: e in list <==> e == list[0] || e in list[1..];
    }
  }

  /** Unlinking one more message. */
  lemma {:induction false} WithoutOneMore(list: seq<Entry>, ids: set<MessageId>, id: MessageId)
    requires Ordered(list)
    ensures Without(WithoutIds(list, ids), id) == WithoutIds(list, ids + {id})
  {
    if list != [] {
      var first, rest := list[0], list[1..];
      WithoutOneMore(rest, ids, id);
      if first.id == id {
        WithoutAbsent(rest, ids, id);
        assert WithoutIds(list, ids + {id}) == WithoutIds(rest, ids + {id});
        if id in ids {
          assert ids + {id} == ids;
          WithoutIdsMembers(rest, ids);
          assert WithoutIds(list, ids) == WithoutIds(rest, ids);
          WithoutNothing(WithoutIds(rest, ids), id);
        } else {
          assert ([first] + WithoutIds(rest, ids))[1..] == WithoutIds(rest, ids);
        }
      } else if first.id in ids {
        assert WithoutIds(list, ids) == WithoutIds(rest, ids);
        assert WithoutIds(list, ids + {id}) == WithoutIds(rest, ids + {id});
      } else {
        assert ([first] + WithoutIds(rest, ids))[1..] == WithoutIds(rest, ids);
      }
    }
  }

  lemma {:induction false} WithoutNothing(list: seq<Entry>, id: MessageId)
    requires forall e | e in list :: e.id != id
    ensures Without(list, id) == list
  {
    if list != [] { WithoutNothing(list[1..], id); }
  }

  /** Arming and cancelling is cancelling. */
  lemma RearmThenCancel(list: seq<Entry>, id: MessageId, expiration: nat)
    requires Ordered(list)
    ensures Without(Rearmed(list, id, expiration), id) == Without(list, id)
  {
    WithoutKeeps(list, id);
    WithoutLast(Without(list, id), id, expiration);
  }

  lemma {:induction false} WithoutLast(list: seq<Entry>, id: MessageId, expiration: nat)
    requires forall e | e in list :: e.id != id
    ensures Without(list + [Entry(id, expiration)], id) == list
  {
    if list != [] {
      assert (list + [Entry(id, expiration)])[1..] == list[1..] + [Entry(id, expiration)];
      WithoutLast(list[1..], id, expiration);
    }
  }

  /** The messages of a list. */
  function IdsOf(ids: seq<MessageId>): set<MessageId> { set id | id in ids }

  // ------------------------------------------------- dealing with expired ones

  /** New entries for those of the messages that are to be watched on. */
  function RearmedOf(keep: MessageId -> bool, ids: seq<MessageId>, expiration: nat): seq<Entry> {
    if ids == [] then []
    else
      var id := ids[|ids| - 1];
      RearmedOf(keep, ids[..|ids| - 1], expiration) + if keep(id) then [Entry(id, expiration)] else []
  }

  /** A list in which the first `n` expired entries were dealt with: taken out, and armed anew if kept. */
  function Swept(list: seq<Entry>, now: nat, keep: MessageId -> bool, expiration: nat, n: nat): seq<Entry>
    requires n <= |ElapsedIds(list, now)|
  {
    list[n..] + RearmedOf(keep, ElapsedIds(list, now)[..n], expiration)
  }

  lemma {:induction false} RearmedLater(keep: MessageId -> bool, ids: seq<MessageId>, expiration: nat)
    ensures forall e | e in RearmedOf(keep, ids, expiration) :: e.expiration == expiration
  {
    if ids != [] { RearmedLater(keep, ids[..|ids| - 1], expiration); }
  }

  lemma {:induction false} RearmedMembers(keep: MessageId -> bool, ids: seq<MessageId>, expiration: nat, x: Entry)
    ensures x in RearmedOf(keep, ids, expiration) <==> x.id in ids && keep(x.id) && x.expiration == expiration
  {
    if ids != [] {
      RearmedMembers(keep, ids[..|ids| - 1], expiration, x);
      assert ids == ids[..|ids| - 1] + [ids[|ids| - 1]];
    }
  }

  lemma LeftMembers(list: seq<Entry>, now: nat, x: Entry)
    requires Ordered(list)
    ensures x in list[|ElapsedIds(list, now)|..] <==> x in list && now < x.expiration
  {
    var n := |ElapsedIds(list, now)|;
    var left := list[n..];
    ElapsedIdsComplete(list, now);
    if x in left {
      var k :| 0 <= k < |left| && left[k] == x;
      assert list[n + k] == x;
    }
    if x in list && now < x.expiration {
      var k :| 0 <= k < |list| && list[k] == x;
      assert n <= k && left[k - n] == x;
    }
  }

  /** After all expired entries were dealt with: those not expired, and new ones for the messages that are kept. */
  lemma SweptMembers(list: seq<Entry>, now: nat, keep: MessageId -> bool, expiration: nat, x: Entry)
    requires Ordered(list)
    ensures x in Swept(list, now, keep, expiration, |ElapsedIds(list, now)|) <==>
            || (x in list && now < x.expiration)
            || (x.id in ElapsedIds(list, now) && keep(x.id) && x.expiration == expiration)
  {
    var ids := ElapsedIds(list, now);
    assert ids[..|ids|] == ids;
    RearmedMembers(keep, ids, expiration, x);
    LeftMembers(list, now, x);
    var l := Swept(list, now, keep, expiration, |ids|);
    assert l == list[|ids|..] + RearmedOf(keep, ids, expiration);
  }

  /** The front entry has expired exactly as long as some are left to be dealt with. */
  lemma SweptFront(list: seq<Entry>, now: nat, keep: MessageId -> bool, expiration: nat, n: nat)
    requires Ordered(list) && now < expiration && n <= |ElapsedIds(list, now)|
    ensures var l := Swept(list, now, keep, expiration, n);
            && (l != [] && l[0].expiration <= now <==> n < |ElapsedIds(list, now)|)
            && (n < |ElapsedIds(list, now)| ==> l[0] == list[n] && l[0].id == ElapsedIds(list, now)[n])
            && (n == |ElapsedIds(list, now)| ==> forall k | 0 <= k < |l| :: now < l[k].expiration)
  {
    var l, ids := Swept(list, now, keep, expiration, n), ElapsedIds(list, now);
    ElapsedIdsComplete(list, now);
    RearmedLater(keep, ids[..n], expiration);
    if n == |ids| {
      forall k | 0 <= k < |l| ensures now < l[k].expiration {
        if k < |list| - n {
          assert l[k] == list[n + k];
        } else {
          assert l[k] in RearmedOf(keep, ids[..n], expiration);
        }
      }
    }
  }

  /** Dealing with the front entry. */
  lemma SweptNext(list: seq<Entry>, now: nat, keep: MessageId -> bool, expiration: nat, n: nat)
    requires Ordered(list) && now < expiration && n < |ElapsedIds(list, now)|
    ensures var id := ElapsedIds(list, now)[n];
            Swept(list, now, keep, expiration, n + 1) ==
            Without(Swept(list, now, keep, expiration, n), id) + if keep(id) then [Entry(id, expiration)] else []
  {
    var l, ids := Swept(list, now, keep, expiration, n), ElapsedIds(list, now);
    SweptFront(list, now, keep, expiration, n);
    assert Without(l, ids[n]) == l[1..];
    assert l[1..] == list[n + 1..] + RearmedOf(keep, ids[..n], expiration);
    assert ids[..n + 1][..n] == ids[..n];
  }

  /**
   * The first expired entries of `was` have been taken out for good, and the entries of the
   * same messages in another list with them.
   */
  ghost predicate ExpiredSoFar(was: seq<Entry>, other: seq<Entry>, now: nat, handled: seq<MessageId>,
                               list: seq<Entry>, other': seq<Entry>)
  {
    var all := ElapsedIds(was, now);
    && |handled| <= |all| && handled == all[..|handled|]
    && list == was[|handled|..] && other' == WithoutIds(other, IdsOf(handled))
  }

  lemma ExpiredStart(was: seq<Entry>, other: seq<Entry>, now: nat)
    ensures ExpiredSoFar(was, other, now, [], was, other)
  {
    assert IdsOf([]) == {};
    WithoutNone(other);
  }

  /** The front has not expired, so all are dealt with. */
  lemma ExpiredDone(was: seq<Entry>, other: seq<Entry>, now: nat, handled: seq<MessageId>, list: seq<Entry>,
                    other': seq<Entry>)
    requires Ordered(was) && ExpiredSoFar(was, other, now, handled, list, other')
    requires list == [] || now < list[0].expiration
    ensures handled == ElapsedIds(was, now) && forall k | 0 <= k < |list| :: now < list[k].expiration
  {
    ElapsedIdsComplete(was, now);
  }

  lemma ExpiredNext(was: seq<Entry>, other: seq<Entry>, now: nat, handled: seq<MessageId>, list: seq<Entry>,
                    other': seq<Entry>,
                    id: MessageId)
    requires Ordered(was) && Ordered(other) && ExpiredSoFar(was, other, now, handled, list, other')
    requires list != [] && list[0].expiration <= now && id == list[0].id
    ensures ExpiredSoFar(was, other, now, handled + [id], Without(list, id), Without(other', id))
  {
    ElapsedIdsComplete(was, now);
    var all, n := ElapsedIds(was, now), |handled|;
    assert all[..n + 1] == all[..n] + [all[n]];
    assert Without(list, id) == list[1..];
    WithoutOneMore(other, IdsOf(handled), id);
    assert IdsOf(handled + [id]) == IdsOf(handled) + {id};
  }

  // ------------------------------------------------------------ armed or not

  predicate Armed(list: seq<Entry>, id: MessageId) {
    exists k :: 0 <= k < |list| && list[k].id == id
  }

  /** Unlinking one message's entry disarms no other message. */
  lemma {:induction false} WithoutArmed(list: seq<Entry>, id: MessageId, x: MessageId)
    requires Armed(list, x) && x != id
    ensures Armed(Without(list, id), x)
  {
    var k :| 0 <= k < |list| && list[k].id == x;
    if list[0].id == id {
      assert list[1..][k - 1].id == x;
    } else if k == 0 {
      assert Without(list, id)[0].id == x;
    } else {
      assert list[1..][k - 1].id == x;
      WithoutArmed(list[1..], id, x);
      var w := Without(list[1..], id);
      var j :| 0 <= j < |w| && w[j].id == x;
      assert Without(list, id)[j + 1].id == x;
    }
  }

  lemma RearmedArmed(list: seq<Entry>, id: MessageId, expiration: nat, x: MessageId)
    requires Armed(list, x) || x == id
    ensures Armed(Rearmed(list, id, expiration), x)
  {
    var r := Rearmed(list, id, expiration);
    if x == id {
      assert r[|r| - 1].id == x;
    } else {
      WithoutArmed(list, id, x);
      var w := Without(list, id);
      var j :| 0 <= j < |w| && w[j].id == x;
      assert r[j].id == x;
    }
  }

  lemma WithoutIdsArmed(list: seq<Entry>, ids: set<MessageId>, x: MessageId)
    requires Armed(list, x) && x !in ids
    ensures Armed(WithoutIds(list, ids), x)
  {
    var k :| 0 <= k < |list| && list[k].id == x;
    WithoutIdsMembers(list, ids);
    assert list[k] in WithoutIds(list, ids);
  }

  lemma {:induction false} RearmedOfArmed(keep: MessageId -> bool, ids: seq<MessageId>, expiration: nat, x: MessageId)
    requires x in ids && keep(x)
    ensures Armed(RearmedOf(keep, ids, expiration), x)
  {
    var most, last := ids[..|ids| - 1], ids[|ids| - 1];
    var r := RearmedOf(keep, ids, expiration);
    if last == x {
      assert r[|r| - 1].id == x;
    } else {
      assert ids == most + [last];
      RearmedOfArmed(keep, most, expiration, x);
      var p := RearmedOf(keep, most, expiration);
      var k :| 0 <= k < |p| && p[k].id == x;
      assert r[k].id == x;
    }
  }

  lemma {:induction false} ElapsedOrLeft(list: seq<Entry>, now: nat, x: MessageId)
    requires Armed(list, x)
    ensures x in ElapsedIds(list, now) || Armed(list[|ElapsedIds(list, now)|..], x)
  {
    var n := |ElapsedIds(list, now)|;
    if n == 0 {
      assert list[n..] == list;
    } else {
      var rest := list[1..];
      var k :| 0 <= k < |list| && list[k].id == x;
      if k > 0 {
        assert rest[k - 1].id == x;
        ElapsedOrLeft(rest, now, x);
        assert rest[n - 1..] == list[n..];
      }
    }
  }

  lemma ArmedInEither(a: seq<Entry>, b: seq<Entry>, x: MessageId)
    requires Armed(a, x) || Armed(b, x)
    ensures Armed(a + b, x)
  {
    if Armed(a, x) {
      var k :| 0 <= k < |a| && a[k].id == x;
      assert (a + b)[k].id == x;
    } else {
      var k :| 0 <= k < |b| && b[k].id == x;
      assert (a + b)[|a| + k].id == x;
    }
  }

  /** Dealing with all expired entries disarms no message that is kept. */
  lemma SweptArmed(list: seq<Entry>, now: nat, keep: MessageId -> bool, expiration: nat, x: MessageId)
    requires Armed(list, x) && keep(x)
    ensures Armed(Swept(list, now, keep, expiration, |ElapsedIds(list, now)|), x)
  {
    var ids := ElapsedIds(list, now);
    assert ids[..|ids|] == ids;
    ElapsedOrLeft(list, now, x);
    if x in ids {
      RearmedOfArmed(keep, ids, expiration, x);
    }
    ArmedInEither(list[|ids|..], RearmedOf(keep, ids, expiration), x);
  }

  /** What an action on one message's timeout leaves armed. */
  lemma TimedArmed(list: seq<Entry>, id: MessageId, action: TimerAction, interval: nat, x: MessageId)
    requires Armed(list, x) || (x == id && action.Arm?)
    requires x == id ==> !action.Disarm?
    ensures Armed(Timed(list, id, action, interval), x)
  {
    match action
    case Keep =>
    case Arm(cycle) => RearmedArmed(list, id, cycle + interval, x);
    case Disarm => WithoutArmed(list, id, x);
  }

  lemma DisarmedIsUnarmed(list: seq<Entry>, id: MessageId)
    requires Ordered(list)
    ensures !Armed(Without(list, id), id)
  {
    WithoutKeeps(list, id);
    var l := Without(list, id);
    assert forall k | 0 <= k < |l| :: l[k] in l;
  }

  /** Every armed timeout belongs to a tracked message. */
  ghost predicate Tracked<M>(list: seq<Entry>, messages: map<MessageId, M>) {
    forall k | 0 <= k < |list| :: list[k].id in messages
  }

  function Rearmed(list: seq<Entry>, id: MessageId, expiration: nat): seq<Entry> {
    Without(list, id) + [Entry(id, expiration)]
  }

  /** What an event does to the two timeouts of a message. */
  datatype TimerAction = Keep | Arm(cycle: nat) | Disarm

  function Timed(list: seq<Entry>, id: MessageId, action: TimerAction, interval: nat): seq<Entry> {
    match action
    case Keep => list
    case Arm(cycle) => Rearmed(list, id, cycle + interval)
    case Disarm => Without(list, id)
  }

  lemma WithoutTracked<M>(list: seq<Entry>, id: MessageId, messages: map<MessageId, M>)
    requires Ordered(list) && Tracked(list, messages)
    ensures Tracked(Without(list, id), messages) && Tracked(Without(list, id), messages - {id})
  {
    WithoutKeeps(list, id);
    forall k | 0 <= k < |Without(list, id)| ensures Without(list, id)[k].id in messages - {id} {
      assert Without(list, id)[k] in Without(list, id);
    }
  }

  // ------------------------------------------------------ when entries expire

  /**
   * Every entry belongs to a message last heard of at some cycle and expires no sooner than the
   * interval after it; an exact list's entries expire exactly then.
   */
  ghost predicate Dated(list: seq<Entry>, interval: nat, cycle: nat, last: MessageId -> Option<nat>, exact: bool) {
    && Ordered(list)
    && forall x | x in list :: IsDated(x, interval, cycle, last, exact)
  }

  predicate IsDated(x: Entry, interval: nat, cycle: nat, last: MessageId -> Option<nat>, exact: bool) {
    && last(x.id).Some? && last(x.id).value <= cycle
    && last(x.id).value + interval <= x.expiration <= cycle + interval
    && (exact ==> x.expiration == last(x.id).value + interval)
  }

  /** Time passes, and other messages are heard of. */
  lemma LaterIsDated(x: Entry, interval: nat, cycle: nat, last: MessageId -> Option<nat>, exact: bool,
                     cycle': nat, last': MessageId -> Option<nat>)
    requires IsDated(x, interval, cycle, last, exact) && cycle <= cycle' && last'(x.id) == last(x.id)
    ensures IsDated(x, interval, cycle', last', exact)
  {
  }

  /** Some entries go, and the messages of the others are not heard of. */
  lemma FewerDated(list: seq<Entry>, fewer: seq<Entry>, interval: nat, cycle: nat, last: MessageId -> Option<nat>,
                   exact: bool, cycle': nat, last': MessageId -> Option<nat>)
    requires Dated(list, interval, cycle, last, exact) && cycle <= cycle' && Ordered(fewer)
    requires forall x | x in fewer :: x in list && last'(x.id) == last(x.id)
    ensures Dated(fewer, interval, cycle', last', exact)
  {
    forall x | x in fewer ensures IsDated(x, interval, cycle', last', exact) {
      LaterIsDated(x, interval, cycle, last, exact, cycle', last');
    }
  }

  lemma OrderedEnd(list: seq<Entry>, expiration: nat)
    requires forall x | x in list :: x.expiration <= expiration
    ensures forall k | 0 <= k < |list| :: list[k].expiration <= expiration
  {
    assert forall k | 0 <= k < |list| :: list[k] in list;
  }

  /** A message's timeout is armed when it is heard of, disarmed, or left alone when it is not. */
  lemma TimedDated(list: seq<Entry>, id: MessageId, action: TimerAction, interval: nat, cycle: nat,
                   last: MessageId -> Option<nat>, exact: bool, cycle': nat, last': MessageId -> Option<nat>)
    requires Dated(list, interval, cycle, last, exact) && cycle <= cycle'
    requires forall y | y != id :: last'(y) == last(y)
    requires action.Arm? ==> action.cycle == cycle' && last'(id) == Some(cycle')
    requires action.Keep? ==> last'(id) == last(id)
    ensures Dated(Timed(list, id, action, interval), interval, cycle', last', exact)
  {
    WithoutKeeps(list, id);
    match action
    case Keep => FewerDated(list, list, interval, cycle, last, exact, cycle', last');
    case Disarm => FewerDated(list, Without(list, id), interval, cycle, last, exact, cycle', last');
    case Arm(_) =>
      var kept := Without(list, id);
      FewerDated(list, kept, interval, cycle, last, exact, cycle', last');
      OrderedEnd(list, cycle' + interval);
      RearmKeepsOrder(list, id, cycle' + interval);
  }

  lemma {:induction false} WithoutIdsOrdered(list: seq<Entry>, ids: set<MessageId>)
    requires Ordered(list)
    ensures Ordered(WithoutIds(list, ids))
  {
    if list != [] {
      var first, rest := list[0], list[1..];
      WithoutIdsOrdered(rest, ids);
      if first.id !in ids {
        WithoutIdsMembers(rest, ids);
        forall e | e in WithoutIds(rest, ids) ensures first.expiration <= e.expiration && first.id != e.id {
          OrderedHead(list, e);
        }
        OrderedCons(first, WithoutIds(rest, ids));
      }
    }
  }

  /** Several messages lose their timeouts. */
  lemma WithoutIdsDated(list: seq<Entry>, ids: set<MessageId>, interval: nat, cycle: nat,
                        last: MessageId -> Option<nat>, exact: bool, cycle': nat)
    requires Dated(list, interval, cycle, last, exact) && cycle <= cycle'
    ensures Dated(WithoutIds(list, ids), interval, cycle', last, exact)
  {
    WithoutIdsOrdered(list, ids);
    WithoutIdsMembers(list, ids);
    FewerDated(list, WithoutIds(list, ids), interval, cycle, last, exact, cycle', last);
  }

  /** The expired entries have been dealt with for good. */
  lemma ExpiredDated(list: seq<Entry>, now: nat, interval: nat, cycle: nat, last: MessageId -> Option<nat>,
                     exact: bool, cycle': nat)
    requires Dated(list, interval, cycle, last, exact) && cycle <= cycle'
    ensures Dated(list[|ElapsedIds(list, now)|..], interval, cycle', last, exact)
  {
    FewerDated(list, list[|ElapsedIds(list, now)|..], interval, cycle, last, exact, cycle', last);
  }

  /** The first expired entries have been dealt with, and armed anew if kept. */
  lemma {:induction false} SweptDated(list: seq<Entry>, now: nat, keep: MessageId -> bool, interval: nat, cycle: nat,
                                      last: MessageId -> Option<nat>, cycle': nat, n: nat)
    requires Dated(list, interval, cycle, last, false) && cycle <= cycle' && now < cycle' + interval
    requires n <= |ElapsedIds(list, now)|
    ensures Dated(Swept(list, now, keep, cycle' + interval, n), interval, cycle', last, false)
  {
    if n == 0 {
      assert Swept(list, now, keep, cycle' + interval, 0) == list;
      FewerDated(list, list, interval, cycle, last, false, cycle', last);
    } else {
      var l, id := Swept(list, now, keep, cycle' + interval, n - 1), ElapsedIds(list, now)[n - 1];
      SweptDated(list, now, keep, interval, cycle, last, cycle', n - 1);
      SweptFront(list, now, keep, cycle' + interval, n - 1);
      SweptNext(list, now, keep, cycle' + interval, n - 1);
      assert l[0] in l && l[0].id == id;
      SweepOneDated(l, id, keep(id), interval, cycle', last);
    }
  }

  /** One expired entry goes to the end, or goes. */
  lemma SweepOneDated(list: seq<Entry>, id: MessageId, keep: bool, interval: nat, cycle: nat,
                      last: MessageId -> Option<nat>)
    requires Dated(list, interval, cycle, last, false) && last(id).Some? && last(id).value <= cycle
    ensures Dated(Without(list, id) + if keep then [Entry(id, cycle + interval)] else [], interval, cycle, last, false)
  {
    WithoutKeeps(list, id);
    OrderedEnd(list, cycle + interval);
    RearmKeepsOrder(list, id, cycle + interval);
    assert Without(list, id) + [] == Without(list, id);
  }

  /** An entry has expired exactly if it is among those dealt with. */
  lemma ElapsedExactly(list: seq<Entry>, now: nat, id: MessageId)
    requires Ordered(list)
    ensures id in ElapsedIds(list, now) <==> exists x :: x in list && x.id == id && x.expiration <= now
  {
    ElapsedIdsComplete(list, now);
    var ids := ElapsedIds(list, now);
    if id in ids {
      var k :| 0 <= k < |ids| && ids[k] == id;
      assert list[k] in list;
    }
    if x :| x in list && x.id == id && x.expiration <= now {
      var k :| 0 <= k < |list| && list[k] == x;
      assert k < |ids|;
    }
  }

  /** A message with an armed timeout has run out of time exactly the interval after it was last heard of. */
  lemma DatedElapses(list: seq<Entry>, now: nat, interval: nat, cycle: nat, last: MessageId -> Option<nat>,
                     exact: bool, id: MessageId)
    requires Dated(list, interval, cycle, last, exact)
    ensures id in ElapsedIds(list, now) ==> last(id).Some? && last(id).value + interval <= now
    ensures exact && Armed(list, id) && last(id).Some? && last(id).value + interval <= now ==>
              id in ElapsedIds(list, now)
  {
    ElapsedExactly(list, now, id);
    if exact && Armed(list, id) {
      var k :| 0 <= k < |list| && list[k].id == id;
      assert list[k] in list && IsDated(list[k], interval, cycle, last, exact);
    }
  }

  lemma ArmedIsDated(list: seq<Entry>, interval: nat, cycle: nat, last: MessageId -> Option<nat>, exact: bool,
                     id: MessageId)
    requires Dated(list, interval, cycle, last, exact) && Armed(list, id)
    ensures last(id).Some?
  {
    var k :| 0 <= k < |list| && list[k].id == id;
    assert list[k] in list;
  }

  class TimeoutManager {
    const interval: nat
    var list: seq<Entry>
    var nextTimeout: nat
    /** No entry was armed later than this cycle. */
    ghost var lastCycle: nat

    ghost predicate Valid()
      reads this
    {
      && 0 < interval
      && Ordered(list)
      && (forall k | 0 <= k < |list| :: list[k].expiration <= lastCycle + interval < UINT64_MAX)
      && nextTimeout == if list == [] then UINT64_MAX else list[0].expiration
    }

    constructor (interval: nat)
      requires 0 < interval
      ensures Valid() && list == [] && this.interval == interval && lastCycle == 0
    {
      this.interval := interval;
      list, nextTimeout, lastCycle := [], UINT64_MAX, 0;
    }

    /** Arm or re-arm a timeout; `cycle` is what the clock reads. */
    method SetTimeout(id: MessageId, cycle: nat)
      requires Valid() && lastCycle <= cycle && cycle + interval < UINT64_MAX
      modifies this
      ensures Valid() && lastCycle == cycle
      ensures list == Rearmed(old(list), id, cycle + interval)
    {
      RearmKeepsOrder(list, id, cycle + interval);
      list := Without(list, id) + [Entry(id, cycle + interval)];
      nextTimeout := list[0].expiration;
      lastCycle := cycle;
    }

    method CancelTimeout(id: MessageId)
      requires Valid()
      modifies this
      ensures Valid() && lastCycle == old(lastCycle) && list == Without(old(list), id)
    {
      WithoutKeeps(list, id);
      forall k | 0 <= k < |Without(list, id)| ensures Without(list, id)[k] in list {
        assert Without(list, id)[k] in Without(list, id);
      }
      list := Without(list, id);
      if list == [] {
        nextTimeout := UINT64_MAX;
      } else {
        nextTimeout := list[0].expiration;
      }
    }

    /** The cached minimum answers for the whole list. */
    method AnyElapsed(now: nat) returns (b: bool)
      requires Valid() && now < UINT64_MAX
      ensures b <==> exists k :: 0 <= k < |list| && list[k].expiration <= now
    {
      b := now >= nextTimeout;
      assert list != [] ==> list[0].expiration <= now || forall k | 0 <= k < |list| :: list[k].expiration > now;
    }
  }
}
