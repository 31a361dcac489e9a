/** Ordering by upload date, as the client does it with
    `array.sort((a, b) => date(b) - date(a))` (newest first) or
    `array.sort((a, b) => date(a) - date(b))` (oldest first).
    `Array.prototype.sort` is stable, so the model is a stable insertion sort:
    an element goes in front of every element it does not come after. */
module Recency {

  datatype Order = NewestFirst | OldestFirst

  /** The comparator returns a non-positive number for `(a, b)`: `a` may stay
      in front of `b`. */
  predicate InOrder<T>(a: T, b: T, date: T -> int, order: Order)
  {
    match order
    case NewestFirst => date(b) - date(a) <= 0
    case OldestFirst => date(a) - date(b) <= 0
  }

  predicate Sorted<T>(s: seq<T>, date: T -> int, order: Order)
  {
    forall i, j :: 0 <= i < j < |s| ==> InOrder(s[i], s[j], date, order)
  }

  /** Every element of `s` may come after `x`. */
  predicate Precedes<T>(x: T, s: seq<T>, date: T -> int, order: Order)
  {
    forall k :: 0 <= k < |s| ==> InOrder(x, s[k], date, order)
  }

  lemma PrecedesPermutation<T>(x: T, s: seq<T>, t: seq<T>, date: T -> int, order: Order)
    requires Precedes(x, s, date, order)
    requires multiset(t) <= multiset(s)
    ensures Precedes(x, t, date, order)
  {
    forall k | 0 <= k < |t|
      ensures InOrder(x, t[k], date, order)
    {
      assert t[k] in multiset(t);
      assert t[k] in multiset(s);
      var m :| 0 <= m < |s| && s[m] == t[k];
    }
  }

  lemma ConsSorted<T>(x: T, s: seq<T>, date: T -> int, order: Order)
    requires Precedes(x, s, date, order) && Sorted(s, date, order)
    ensures Sorted([x] + s, date, order)
  {
    forall i, j | 0 <= i < j < |[x] + s|
      ensures InOrder(([x] + s)[i], ([x] + s)[j], date, order)
    {
      if i > 0 {
        assert ([x] + s)[i] == s[i - 1];
      }
    }
  }

  /** The index of the first element of `s` that `x` may precede, or `|s|`:
      `x` goes after every element it must not precede. */
  function InsertionPoint<T>(x: T, s: seq<T>, date: T -> int, order: Order): (k: nat)
    ensures k <= |s|
    ensures forall j :: 0 <= j < k ==> !InOrder(x, s[j], date, order)
    ensures k < |s| ==> InOrder(x, s[k], date, order)
  {
    if s == [] || InOrder(x, s[0], date, order) then 0
    else InsertionPoint(x, s[1..], date, order) + 1
  }

  /** Inserts `x` in front of the first element it may precede. */
  function Insert<T>(x: T, s: seq<T>, date: T -> int, order: Order): (r: seq<T>)
    ensures multiset(r) == multiset(s) + multiset{x}
    ensures |r| == |s| + 1
    ensures Sorted(s, date, order) ==> Sorted(r, date, order)
  {
    if s == [] || InOrder(x, s[0], date, order) then
      [x] + s
    else
      var rest := Insert(x, s[1..], date, order);
      assert s == [s[0]] + s[1..];
      InsertBehindHead(x, s, rest, date, order);
      [s[0]] + rest
  }

  /** The recursive step of `Insert` keeps a sorted list sorted: the head
      stays in front of the rest with `x` inserted. */
  lemma InsertBehindHead<T>(x: T, s: seq<T>, rest: seq<T>, date: T -> int, order: Order)
    requires s != [] && !InOrder(x, s[0], date, order)
    requires multiset(rest) == multiset(s[1..]) + multiset{x}
    requires Sorted(s[1..], date, order) ==> Sorted(rest, date, order)
    ensures Sorted(s, date, order) ==> Sorted([s[0]] + rest, date, order)
  {
    if Sorted(s, date, order) {
      assert Precedes(s[0], s[1..] + [x], date, order);
      assert multiset(rest) == multiset(s[1..] + [x]);
      PrecedesPermutation(s[0], s[1..] + [x], rest, date, order);
      ConsSorted(s[0], rest, date, order);
    }
  }

  /** `Insert` puts `x` exactly at its insertion point: after every element it
      must not precede, and in front of the first one it may precede. With
      equal dates that is in front of the first of them, so `x` keeps its
      place ahead of the elements that came after it in the input, which makes
      the sort stable. */
  lemma {:induction false} InsertIsStable<T>(x: T, s: seq<T>, date: T -> int, order: Order)
    ensures var k := InsertionPoint(x, s, date, order);
            Insert(x, s, date, order) == s[..k] + [x] + s[k..]
  {
    if s == [] || InOrder(x, s[0], date, order) {
      InsertAtFront(x, s, date, order);
    } else {
      var t := s[1..];
      var k := InsertionPoint(x, t, date, order);
      var rest := Insert(x, t, date, order);
      InsertBehindFront(x, s, date, order);
      InsertIsStable(x, t, date, order);
      assert rest == t[..k] + [x] + t[k..];
      SpliceUnderHead(s, x, k, rest);
    }
  }

  /** When `x` may precede the head, it goes in front of everything. */
  lemma InsertAtFront<T>(x: T, s: seq<T>, date: T -> int, order: Order)
    requires s == [] || InOrder(x, s[0], date, order)
    ensures InsertionPoint(x, s, date, order) == 0
    ensures Insert(x, s, date, order) == s[..0] + [x] + s[0..]
  {
    assert s[..0] == [] && s[0..] == s;
  }

  /** When `x` may not precede the head, the head stays first and `x` goes
      into the tail, one place further on. */
  lemma InsertBehindFront<T>(x: T, s: seq<T>, date: T -> int, order: Order)
    requires s != [] && !InOrder(x, s[0], date, order)
    ensures InsertionPoint(x, s, date, order) == InsertionPoint(x, s[1..], date, order) + 1
    ensures Insert(x, s, date, order) == [s[0]] + Insert(x, s[1..], date, order)
  {
  }

  /** Splicing `x` into the tail at `k` and putting the head back in front
      is splicing it into the whole list at `k + 1`. */
  lemma SpliceUnderHead<T>(s: seq<T>, x: T, k: nat, rest: seq<T>)
    requires k < |s| && rest == s[1..][..k] + [x] + s[1..][k..]
    ensures [s[0]] + rest == s[..k + 1] + [x] + s[k + 1..]
  {
    assert s[..k + 1] == [s[0]] + s[1..][..k];
    assert s[k + 1..] == s[1..][k..];
  }

  /** The stable sort of `s`: sorted in the requested order and a permutation
      of `s`, nothing dropped and nothing added. */
  function Sort<T>(s: seq<T>, date: T -> int, order: Order): (r: seq<T>)
    ensures multiset(r) == multiset(s)
    ensures |r| == |s|
    ensures Sorted(r, date, order)
  {
    if s == [] then
      []
    else
      assert s == [s[0]] + s[1..];
      Insert(s[0], Sort(s[1..], date, order), date, order)
  }

  /** Sorting a list that is already in order leaves it as it is, so the
      editor's second in-place sort during rendering changes nothing. */
  lemma {:induction false} SortKeepsSorted<T>(s: seq<T>, date: T -> int, order: Order)
    requires Sorted(s, date, order)
    ensures Sort(s, date, order) == s
  {
    if s != [] {
      assert Sorted(s[1..], date, order);
      SortKeepsSorted(s[1..], date, order);
      assert s == [s[0]] + s[1..];
    }
  }

  /** Among the elements with the minimal date, the oldest-first sort puts
      the first one in input order at its head: every element in front of it
      in the input is strictly newer. */
  lemma {:induction false} OldestFirstHeadComesFirst<T>(s: seq<T>, date: T -> int)
    requires s != []
    ensures exists i :: 0 <= i < |s| && Sort(s, date, OldestFirst)[0] == s[i] && NewerBefore(s, i, date)
  {
    var t := Sort(s[1..], date, OldestFirst);
    HeadOfSort(s, t, date);
    if t == [] || InOrder(s[0], t[0], date, OldestFirst) {
      assert NewerBefore(s, 0, date);
    } else {
      OldestFirstHeadComesFirst(s[1..], date);
      var i :| 0 <= i < |s[1..]| && t[0] == s[1..][i] && NewerBefore(s[1..], i, date);
      assert s[i + 1] == t[0];
      NewerBeforeUnderHead(s, i, date);
    }
  }

  /** Every element in front of index `i` is strictly newer than `s[i]`. */
  predicate NewerBefore<T>(s: seq<T>, i: nat, date: T -> int)
    requires i < |s|
  {
    forall j :: 0 <= j < i ==> date(s[j]) > date(s[i])
  }

  /** The head of the sort of `s` is what inserting `s[0]` into the sorted
      tail `t` puts first. */
  lemma HeadOfSort<T>(s: seq<T>, t: seq<T>, date: T -> int)
    requires s != [] && t == Sort(s[1..], date, OldestFirst)
    ensures t == [] || InOrder(s[0], t[0], date, OldestFirst) ==> Sort(s, date, OldestFirst)[0] == s[0]
    ensures t != [] && !InOrder(s[0], t[0], date, OldestFirst) ==> Sort(s, date, OldestFirst)[0] == t[0]
  {
    assert Sort(s, date, OldestFirst) == Insert(s[0], t, date, OldestFirst);
  }

  /** An index of the tail keeps `NewerBefore` in the whole list when the head
      is newer than the element there. */
  lemma NewerBeforeUnderHead<T>(s: seq<T>, i: nat, date: T -> int)
    requires i + 1 < |s| && NewerBefore(s[1..], i, date)
    requires date(s[0]) > date(s[i + 1])
    ensures NewerBefore(s, i + 1, date)
  {
    forall j | 0 <= j < i + 1
      ensures date(s[j]) > date(s[i + 1])
    {
      if j > 0 {
        assert s[j] == s[1..][j - 1];
      }
    }
  }

  /** The first element of an oldest-first sort carries the minimal date. */
  lemma OldestFirstHeadIsOldest<T>(s: seq<T>, date: T -> int)
    requires s != []
    ensures Sort(s, date, OldestFirst)[0] in s
    ensures forall x :: x in s ==> date(Sort(s, date, OldestFirst)[0]) <= date(x)
  {
    var t := Sort(s, date, OldestFirst);
    assert t[0] in multiset(t);
    forall x | x in s
      ensures date(t[0]) <= date(x)
    {
      assert x in multiset(s);
      assert x in multiset(t);
      var i :| 0 <= i < |t| && t[i] == x;
      if i > 0 {
        assert InOrder(t[0], t[i], date, OldestFirst);
      }
    }
  }

  function Min(a: nat, b: nat): nat
  {
    if a <= b then a else b
  }

  /** `sort(newest first).slice(0, n)`: the newest `n` elements, newest first;
      all of them when there are no more than `n`. */
  function TopNewest<T>(s: seq<T>, date: T -> int, n: nat): (r: seq<T>)
    ensures |r| == Min(n, |s|)
    ensures Sorted(r, date, NewestFirst)
    ensures multiset(r) <= multiset(s)
    ensures |s| <= n ==> multiset(r) == multiset(s)
  {
    var t := Sort(s, date, NewestFirst);
    var k := Min(n, |t|);
    assert t == t[..k] + t[k..];
    assert multiset(t) == multiset(t[..k]) + multiset(t[k..]);
    t[..k]
  }

  /** Whatever the slice leaves out is no newer than anything it keeps. */
  lemma TopNewestDropsOnlyOlder<T>(s: seq<T>, date: T -> int, n: nat)
    ensures forall x, y :: x in multiset(s) - multiset(TopNewest(s, date, n)) && y in TopNewest(s, date, n)
                           ==> date(x) <= date(y)
  {
    var t := Sort(s, date, NewestFirst);
    var k := Min(n, |t|);
    assert TopNewest(s, date, n) == t[..k];
    SliceRemainder(t, k);
    NewestFirstSplit(t, date, k);
  }

  /** Taking the first `k` elements out of `t` leaves the rest. */
  lemma SliceRemainder<T>(t: seq<T>, k: nat)
    requires k <= |t|
    ensures multiset(t) - multiset(t[..k]) == multiset(t[k..])
  {
    assert t == t[..k] + t[k..];
  }

  /** In a newest-first list, everything after position `k` is no newer than
      everything before it. */
  lemma NewestFirstSplit<T>(t: seq<T>, date: T -> int, k: nat)
    requires Sorted(t, date, NewestFirst) && k <= |t|
    ensures forall x, y :: x in multiset(t[k..]) && y in t[..k] ==> date(x) <= date(y)
  {
    forall x, y | x in multiset(t[k..]) && y in t[..k]
      ensures date(x) <= date(y)
    {
      assert x in t[k..];
      var m :| 0 <= m < |t[k..]| && t[k..][m] == x;
      var i :| 0 <= i < k && t[..k][i] == y;
      assert InOrder(t[i], t[k + m], date, NewestFirst);
    }
  }
}
