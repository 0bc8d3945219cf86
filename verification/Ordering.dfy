/**
 * What the two reordering functions of the intrusive list do to a sequence,
 * for an arbitrary strict weak order.
 */
module Ordering {
  import opened Base

  /** Names the triples for which the comparator laws below are wanted. */
  ghost predicate Triple<T>(x: T, y: T, z: T) { true }

  /** The comparator contract the list documents: irreflexive, transitive, with transitive incomparability. */
  ghost predicate StrictWeakOrder<T(!new)>(less: (T, T) -> bool) {
    && (forall x :: !less(x, x))
    && (forall x, y, z {:trigger Triple(x, y, z)} :: less(x, y) && less(y, z) ==> less(x, z))
    && (forall x, y, z {:trigger Triple(x, y, z)} :: !less(x, y) && !less(y, z) ==> !less(x, z))
  }

  /** No element is ordered before an earlier one. */
  ghost predicate Sorted<T>(s: seq<T>, less: (T, T) -> bool) {
    forall i, j | 0 <= i < j < |s| :: !less(s[j], s[i])
  }

  function RemoveAt<T>(s: seq<T>, i: nat): (r: seq<T>)
    requires i < |s|
    ensures |r| == |s| - 1
  {
    seq(|s| - 1, k requires 0 <= k < |s| - 1 => if k < i then s[k] else s[k + 1])
  }

  function InsertAt<T>(s: seq<T>, i: nat, x: T): (r: seq<T>)
    requires i <= |s|
    ensures |r| == |s| + 1
  {
    seq(|s| + 1, k requires 0 <= k < |s| + 1 => if k < i then s[k] else if k == i then x else s[k - 1])
  }

  /** Take the element at `i` out and put it back at index `j`. */
  function Move<T>(s: seq<T>, i: nat, j: nat): (r: seq<T>)
    requires i < |s| && j < |s|
    ensures |r| == |s|
  {
    InsertAt(RemoveAt(s, i), j, s[i])
  }

  /** Where `x` stops when it walks from `pos` towards the front of the list. */
  function Rise<T>(s: seq<T>, x: T, pos: nat, less: (T, T) -> bool): (j: nat)
    requires pos <= |s|
    ensures j <= pos
    ensures j == 0 || !less(x, s[j - 1])
    ensures forall k | j <= k < pos :: less(x, s[k])
  {
    if pos == 0 || !less(x, s[pos - 1]) then pos else Rise(s, x, pos - 1, less)
  }

  /** Where `x` stops when it walks from `pos` towards the end of the list. */
  function Sink<T>(s: seq<T>, x: T, pos: nat, less: (T, T) -> bool): (j: nat)
    requires pos <= |s|
    ensures pos <= j <= |s|
    ensures j == |s| || less(x, s[j])
    ensures forall k | pos <= k < j :: !less(x, s[k])
    decreases |s| - pos
  {
    if pos == |s| || less(x, s[pos]) then pos else Sink(s, x, pos + 1, less)
  }

  /** The list after `prioritize` of the element at index `i`. */
  function Prioritized<T>(s: seq<T>, i: nat, less: (T, T) -> bool): (r: seq<T>)
    requires i < |s|
    ensures |r| == |s|
  {
    Move(s, i, Rise(s, s[i], i, less))
  }

  /** The list after `deprioritize` of the element at index `i`. */
  function Deprioritized<T>(s: seq<T>, i: nat, less: (T, T) -> bool): (r: seq<T>)
    requires i < |s|
    ensures |r| == |s|
  {
    Move(s, i, Sink(s, s[i], i + 1, less) - 1)
  }

  /** `Sink` and `Rise` are the first place, going back or forward, that fits. */
  lemma {:induction false} SinkIsFirst<T>(s: seq<T>, x: T, pos: nat, less: (T, T) -> bool, j: nat)
    requires pos <= j <= |s| && (j == |s| || less(x, s[j])) && forall k | pos <= k < j :: !less(x, s[k])
    ensures Sink(s, x, pos, less) == j
    decreases j - pos
  {
    if pos < j { SinkIsFirst(s, x, pos + 1, less, j); }
  }

  lemma {:induction false} RiseIsFirst<T>(s: seq<T>, x: T, pos: nat, less: (T, T) -> bool, j: nat)
    requires j <= pos <= |s| && (j == 0 || !less(x, s[j - 1])) && forall k | j <= k < pos :: less(x, s[k])
    ensures Rise(s, x, pos, less) == j
  {
    if j < pos { RiseIsFirst(s, x, pos - 1, less, j); }
  }

  function IndexIn<T(==)>(s: seq<T>, x: T): (i: nat)
    requires x in s
    ensures i < |s| && s[i] == x
  {
    if s[0] == x then 0 else 1 + IndexIn(s[1..], x)
  }

  lemma RemoveMembers<T>(s: seq<T>, i: nat)
    requires i < |s| && NoDup(s)
    ensures NoDup(RemoveAt(s, i))
    ensures forall x :: x in RemoveAt(s, i) <==> x in s && x != s[i]
  {
    var r := RemoveAt(s, i);
    forall x | x in s && x != s[i] ensures x in r {
      var k :| 0 <= k < |s| && s[k] == x;
      assert r[if k < i then k else k - 1] == x;
    }
  }

  lemma InsertMembers<T>(s: seq<T>, i: nat, x: T)
    requires i <= |s|
    ensures NoDup(s) && x !in s ==> NoDup(InsertAt(s, i, x))
    ensures forall y :: y in InsertAt(s, i, x) <==> y in s || y == x
  {
    var r := InsertAt(s, i, x);
    assert r[i] == x;
    forall y | y in s ensures y in r {
      var k :| 0 <= k < |s| && s[k] == y;
      assert r[if k < i then k else k + 1] == y;
    }
  }

  /** Where each element of a moved list comes from. */
  lemma MoveAt<T>(s: seq<T>, i: nat, j: nat, k: nat)
    requires i < |s| && j < |s| && k < |s|
    ensures Move(s, i, j)[k] ==
            if k == j then s[i]
            else if i <= k < j then s[k + 1]
            else if j < k <= i then s[k - 1]
            else s[k]
  {
  }

  lemma MoveNowhere<T>(s: seq<T>, i: nat)
    requires i < |s|
    ensures Move(s, i, i) == s
  {
  }

  /** Moving one element keeps the order of all the others. */
  lemma MoveKeepsTheRest<T>(s: seq<T>, i: nat, j: nat)
    requires i < |s| && j < |s|
    ensures RemoveAt(Move(s, i, j), j) == RemoveAt(s, i)
  {
  }

  lemma InsertAdds<T>(s: seq<T>, i: nat, x: T)
    requires i <= |s|
    ensures multiset(InsertAt(s, i, x)) == multiset(s) + multiset{x}
  {
    assert s == s[..i] + s[i..];
    assert InsertAt(s, i, x) == s[..i] + [x] + s[i..];
  }

  /** Moving one element permutes the list. */
  lemma MovePermutes<T>(s: seq<T>, i: nat, j: nat)
    requires i < |s| && j < |s|
    ensures multiset(Move(s, i, j)) == multiset(s)
  {
    InsertAdds(RemoveAt(s, i), i, s[i]);
    assert InsertAt(RemoveAt(s, i), i, s[i]) == s;
    InsertAdds(RemoveAt(s, i), j, s[i]);
  }

  lemma MoveSameElements<T>(s: seq<T>, i: nat, j: nat)
    requires i < |s| && j < |s|
    ensures forall x :: x in Move(s, i, j) <==> x in s
  {
    MovePermutes(s, i, j);
    forall x ensures x in Move(s, i, j) <==> x in s {
      assert x in Move(s, i, j) <==> x in multiset(Move(s, i, j));
      assert x in s <==> x in multiset(s);
    }
  }

  lemma MoveNoDup<T>(s: seq<T>, i: nat, j: nat)
    requires i < |s| && j < |s| && NoDup(s)
    ensures NoDup(Move(s, i, j))
  {
    forall a, b | 0 <= a < b < |s| ensures Move(s, i, j)[a] != Move(s, i, j)[b] {
      MoveAt(s, i, j, a);
      MoveAt(s, i, j, b);
    }
  }

  lemma Asymmetric<T(!new)>(less: (T, T) -> bool, x: T, y: T)
    requires StrictWeakOrder(less) && less(x, y)
    ensures !less(y, x)
  {
    assert Triple(x, y, x);
  }

  /** If `x` is before `y` and `z` is not before `y`, then `x` is before `z`. */
  lemma BeforeNotLess<T(!new)>(less: (T, T) -> bool, x: T, y: T, z: T)
    requires StrictWeakOrder(less) && less(x, y) && !less(z, y)
    ensures less(x, z)
  {
    assert Triple(x, z, y);
  }

  lemma NotBeforeTransitive<T(!new)>(less: (T, T) -> bool, x: T, y: T, z: T)
    requires StrictWeakOrder(less) && !less(x, y) && !less(y, z)
    ensures !less(x, z)
  {
    assert Triple(x, y, z);
  }

  /** In a sorted list the elements ordered strictly after `x` form a suffix. */
  lemma SinkSplits<T(!new)>(s: seq<T>, x: T, pos: nat, less: (T, T) -> bool)
    requires StrictWeakOrder(less) && Sorted(s, less) && pos <= |s|
    ensures forall k | Sink(s, x, pos, less) <= k < |s| :: less(x, s[k])
  {
    var j := Sink(s, x, pos, less);
    forall k | j < k < |s| ensures less(x, s[k]) {
      BeforeNotLess(less, x, s[j], s[k]);
    }
  }

  /** In a sorted list the elements not ordered after `x` form a prefix. */
  lemma RiseSplits<T(!new)>(s: seq<T>, x: T, pos: nat, less: (T, T) -> bool)
    requires StrictWeakOrder(less) && pos <= |s|
    requires forall a, b | 0 <= a < b < pos :: !less(s[b], s[a])
    ensures forall k | 0 <= k < Rise(s, x, pos, less) :: !less(x, s[k])
  {
    var j := Rise(s, x, pos, less);
    forall k: nat | k + 1 < j ensures !less(x, s[k]) {
      NotBeforeTransitive(less, x, s[j - 1], s[k]);
    }
  }

  /** Inserting between a prefix not after `x` and a suffix not before `x` keeps a list sorted. */
  lemma InsertSorts<T>(s: seq<T>, j: nat, x: T, less: (T, T) -> bool)
    requires j <= |s| && Sorted(s, less)
    requires forall k | 0 <= k < j :: !less(x, s[k])
    requires forall k | j <= k < |s| :: !less(s[k], x)
    ensures Sorted(InsertAt(s, j, x), less)
  {
    var r := InsertAt(s, j, x);
    forall a, b | 0 <= a < b < |r| ensures !less(r[b], r[a]) {
      assert r[a] == if a < j then s[a] else if a == j then x else s[a - 1];
      assert r[b] == if b < j then s[b] else if b == j then x else s[b - 1];
    }
  }

  /** Moving an element to a place between what is not after it and what is not before it sorts the list. */
  lemma MoveSorts<T>(s: seq<T>, i: nat, j: nat, less: (T, T) -> bool)
    requires i < |s| && j < |s| && Sorted(RemoveAt(s, i), less)
    requires forall k | 0 <= k < j :: !less(s[i], RemoveAt(s, i)[k])
    requires forall k | j <= k < |s| - 1 :: !less(RemoveAt(s, i)[k], s[i])
    ensures Sorted(Move(s, i, j), less)
  {
    InsertSorts(RemoveAt(s, i), j, s[i], less);
  }

  lemma SortedInFront<T>(s: seq<T>, i: nat, less: (T, T) -> bool)
    requires i < |s| && Sorted(RemoveAt(s, i), less)
    ensures forall a, b | 0 <= a < b < i :: !less(s[b], s[a])
  {
    var rest := RemoveAt(s, i);
    forall a, b | 0 <= a < b < i ensures !less(s[b], s[a]) {
      assert rest[a] == s[a] && rest[b] == s[b];
    }
  }

  lemma SortedBehind<T>(s: seq<T>, i: nat, less: (T, T) -> bool)
    requires i < |s| && Sorted(RemoveAt(s, i), less)
    ensures forall a, b | i < a < b < |s| :: !less(s[b], s[a])
  {
    var rest := RemoveAt(s, i);
    forall a, b | i < a < b < |s| ensures !less(s[b], s[a]) {
      assert rest[a - 1] == s[a] && rest[b - 1] == s[b];
    }
  }

  /**
   * `prioritize` after a key fell: if the other elements are sorted and nothing
   * behind the element is ordered before it, the result is sorted, and the
   * element lands behind everything that is not ordered after it.
   */
  lemma PrioritizeSorts<T(!new)>(s: seq<T>, i: nat, less: (T, T) -> bool)
    requires StrictWeakOrder(less) && i < |s|
    requires Sorted(RemoveAt(s, i), less)
    requires forall k | i < k < |s| :: !less(s[k], s[i])
    ensures Sorted(Prioritized(s, i, less), less)
    ensures var j := Rise(s, s[i], i, less);
            && (forall k | 0 <= k < j :: !less(s[i], s[k]))
            && (forall k | j <= k < i :: less(s[i], s[k]))
  {
    var j := Rise(s, s[i], i, less);
    SortedInFront(s, i, less);
    RiseSplits(s, s[i], i, less);
    forall k | j <= k < i ensures !less(s[k], s[i]) {
      Asymmetric(less, s[i], s[k]);
    }
    MoveSorts(s, i, j, less);
  }

  /** Everything from where `deprioritize` stops is ordered after the element. */
  lemma SinkStops<T(!new)>(s: seq<T>, i: nat, less: (T, T) -> bool)
    requires StrictWeakOrder(less) && i < |s|
    requires forall a, b | i < a < b < |s| :: !less(s[b], s[a])
    ensures forall k | Sink(s, s[i], i + 1, less) <= k < |s| :: less(s[i], s[k]) && !less(s[k], s[i])
  {
    var j := Sink(s, s[i], i + 1, less);
    forall k | j <= k < |s| ensures less(s[i], s[k]) && !less(s[k], s[i]) {
      if j < k {
        BeforeNotLess(less, s[i], s[j], s[k]);
      }
      Asymmetric(less, s[i], s[k]);
    }
  }

  /**
   * `deprioritize` after a key rose: if the other elements are sorted and nothing
   * in front of the element is ordered after it, the result is sorted, and the
   * element lands behind everything that is not ordered after it.
   */
  lemma DeprioritizeSorts<T(!new)>(s: seq<T>, i: nat, less: (T, T) -> bool)
    requires StrictWeakOrder(less) && i < |s|
    requires Sorted(RemoveAt(s, i), less)
    requires forall k | 0 <= k < i :: !less(s[i], s[k])
    ensures Sorted(Deprioritized(s, i, less), less)
    ensures var j := Sink(s, s[i], i + 1, less);
            && (forall k | i < k < j :: !less(s[i], s[k]))
            && (forall k | j <= k < |s| :: less(s[i], s[k]))
  {
    SortedBehind(s, i, less);
    SinkStops(s, i, less);
    MoveSorts(s, i, Sink(s, s[i], i + 1, less) - 1, less);
  }

  lemma SinkShift<T>(s: seq<T>, x: T, y: T, pos: nat, less: (T, T) -> bool)
    requires pos <= |s|
    ensures Sink([y] + s, x, pos + 1, less) == Sink(s, x, pos, less) + 1
    decreases |s| - pos
  {
    if pos < |s| {
      assert ([y] + s)[pos + 1] == s[pos];
      SinkShift(s, x, y, pos + 1, less);
    }
  }

  /** `r` is `s` with `x` put behind everything that is not ordered after it, and in front of the rest. */
  ghost predicate PutBehindEqual<T>(s: seq<T>, r: seq<T>, x: T, less: (T, T) -> bool) {
    exists j: nat {:trigger InsertAt(s, j, x)} :: j <= |s| && r == InsertAt(s, j, x)
      && (forall k | 0 <= k < j :: !less(x, s[k])) && forall k | j <= k < |s| :: less(x, s[k])
  }

  /** `push_front` then `deprioritize` inserts in sorted order, behind all equal elements. */
  lemma PushFrontDeprioritizeInserts<T(!new)>(s: seq<T>, x: T, less: (T, T) -> bool)
    requires StrictWeakOrder(less) && Sorted(s, less)
    ensures var r := Deprioritized([x] + s, 0, less);
            var j := Sink(s, x, 0, less);
            && r == InsertAt(s, j, x)
            && Sorted(r, less)
            && (forall k | 0 <= k < j :: !less(x, s[k]))
            && (forall k | j <= k < |s| :: less(x, s[k]))
  {
    assert RemoveAt([x] + s, 0) == s;
    DeprioritizeSorts([x] + s, 0, less);
    SinkSplits(s, x, 0, less);
    SinkShift(s, x, x, 0, less);
  }

  lemma PushFrontDeprioritizePlaces<T(!new)>(s: seq<T>, x: T, less: (T, T) -> bool)
    requires StrictWeakOrder(less) && Sorted(s, less)
    ensures PutBehindEqual(s, Deprioritized([x] + s, 0, less), x, less)
  {
    PushFrontDeprioritizeInserts(s, x, less);
    assert Deprioritized([x] + s, 0, less) == InsertAt(s, Sink(s, x, 0, less), x);
  }
}
