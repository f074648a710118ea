/**
 * The read-side ordering policy: a list of fetched documents is sorted in place by
 * its `created_at` timestamp, newest first (posts, offers) or oldest first
 * (comments). The sort is stable in both directions: documents with equal
 * timestamps keep their fetched order, also when sorting newest first.
 *
 * The sorting itself is stated for any element type and integer key; `Key` is the
 * key of a document.
 */
module Ordering {
  import opened Documents

  const CreatedAtKey: string := "created_at"

  /** The document carries a comparable creation timestamp. */
  predicate Timestamped(d: Doc) {
    CreatedAtKey in d && d[CreatedAtKey].Time?
  }

  /**
   * Sorting two or more documents compares every one of them, and the comparison of a
   * missing (`None`) or non-datetime timestamp fails; zero or one document is never compared.
   */
  predicate Sortable(docs: seq<Doc>) {
    |docs| <= 1 || forall i :: 0 <= i < |docs| ==> Timestamped(docs[i])
  }

  /** The sort key; only consulted on documents that are `Timestamped`. */
  function Key(d: Doc): int {
    if Timestamped(d) then d[CreatedAtKey].t else 0
  }

  /** An element with key `x` may stand before one with key `y`. */
  predicate InOrder(x: int, y: int, newestFirst: bool) {
    if newestFirst then x >= y else x <= y
  }

  ghost predicate Sorted<T>(s: seq<T>, key: T -> int, newestFirst: bool) {
    forall i, j :: 0 <= i < j < |s| ==> InOrder(key(s[i]), key(s[j]), newestFirst)
  }

  /** The elements of `s` whose key is `t`, in their order in `s`. */
  function WithKey<T>(s: seq<T>, key: T -> int, t: int): (r: seq<T>)
    ensures |r| <= |s|
  {
    if s == [] then []
    else (if key(s[0]) == t then [s[0]] else []) + WithKey(s[1..], key, t)
  }

  /** `d` goes after every element of `s` that may stand before it, and before the rest. */
  function Insert<T>(s: seq<T>, d: T, key: T -> int, newestFirst: bool): (r: seq<T>)
    ensures |r| == |s| + 1
  {
    if s == [] then [d]
    else if InOrder(key(s[0]), key(d), newestFirst) then [s[0]] + Insert(s[1..], d, key, newestFirst)
    else [d] + s
  }

  lemma {:induction false} InsertPermutes<T>(s: seq<T>, d: T, key: T -> int, newestFirst: bool)
    ensures multiset(Insert(s, d, key, newestFirst)) == multiset(s) + multiset{d}
  {
    if s != [] && InOrder(key(s[0]), key(d), newestFirst) {
      InsertPermutes(s[1..], d, key, newestFirst);
      calc {
        multiset(Insert(s, d, key, newestFirst));
        multiset([s[0]] + Insert(s[1..], d, key, newestFirst));
        multiset{s[0]} + multiset(Insert(s[1..], d, key, newestFirst));
        multiset{s[0]} + multiset(s[1..]) + multiset{d};
        { assert s == [s[0]] + s[1..]; }
        multiset(s) + multiset{d};
      }
    }
  }

  /** The result of a stable sort: each element inserted, in input order, after its equals. */
  function StableSorted<T>(s: seq<T>, key: T -> int, newestFirst: bool): (r: seq<T>)
    ensures |r| == |s|
  {
    if s == [] then []
    else Insert(StableSorted(s[..|s| - 1], key, newestFirst), s[|s| - 1], key, newestFirst)
  }

  /** The sorted list is a permutation of the input. */
  lemma {:induction false} StableSortedPermutes<T>(s: seq<T>, key: T -> int, newestFirst: bool)
    ensures multiset(StableSorted(s, key, newestFirst)) == multiset(s)
  {
    if s != [] {
      StableSortedPermutes(s[..|s| - 1], key, newestFirst);
      InsertPermutes(StableSorted(s[..|s| - 1], key, newestFirst), s[|s| - 1], key, newestFirst);
      assert s == s[..|s| - 1] + [s[|s| - 1]];
    }
  }

  lemma {:induction false} InsertSorted<T>(s: seq<T>, d: T, key: T -> int, newestFirst: bool)
    requires Sorted(s, key, newestFirst)
    ensures Sorted(Insert(s, d, key, newestFirst), key, newestFirst)
  {
    if s != [] && InOrder(key(s[0]), key(d), newestFirst) {
      var rest := Insert(s[1..], d, key, newestFirst);
      SortedTail(s, key, newestFirst);
      InsertSorted(s[1..], d, key, newestFirst);
      InsertPermutes(s[1..], d, key, newestFirst);
      var r := [s[0]] + rest;
      assert r == Insert(s, d, key, newestFirst);
      forall j | 0 < j < |r|
        ensures InOrder(key(s[0]), key(r[j]), newestFirst)
      {
        assert r[j] == rest[j - 1];
        assert r[j] in multiset(rest);
        if r[j] != d {
          assert r[j] in multiset(s[1..]);
          var k :| 0 <= k < |s[1..]| && s[1..][k] == r[j];
          assert s[k + 1] == r[j];
        }
      }
    }
  }

  /** The input comes out sorted by key in the requested direction. */
  lemma {:induction false} StableSortedSorted<T>(s: seq<T>, key: T -> int, newestFirst: bool)
    ensures Sorted(StableSorted(s, key, newestFirst), key, newestFirst)
  {
    if s != [] {
      StableSortedSorted(s[..|s| - 1], key, newestFirst);
      InsertSorted(StableSorted(s[..|s| - 1], key, newestFirst), s[|s| - 1], key, newestFirst);
    }
  }

  lemma {:induction false} WithKeyAppend<T>(a: seq<T>, b: seq<T>, key: T -> int, t: int)
    ensures WithKey(a + b, key, t) == WithKey(a, key, t) + WithKey(b, key, t)
  {
    if a != [] {
      var head := if key(a[0]) == t then [a[0]] else [];
      calc {
        WithKey(a + b, key, t);
        { assert (a + b)[0] == a[0]; assert (a + b)[1..] == a[1..] + b; }
        head + WithKey(a[1..] + b, key, t);
        { WithKeyAppend(a[1..], b, key, t); }
        head + (WithKey(a[1..], key, t) + WithKey(b, key, t));
        (head + WithKey(a[1..], key, t)) + WithKey(b, key, t);
      }
    } else {
      assert a + b == b;
    }
  }

  lemma {:induction false} WithKeyNone<T>(s: seq<T>, key: T -> int, t: int)
    requires forall i :: 0 <= i < |s| ==> key(s[i]) != t
    ensures WithKey(s, key, t) == []
  {
    if s != [] { WithKeyNone(s[1..], key, t); }
  }

  /** Inserting `d` into a sorted list appends `d` to its run of equal keys. */
  lemma {:induction false} InsertWithKey<T>(s: seq<T>, d: T, key: T -> int, newestFirst: bool, t: int)
    requires Sorted(s, key, newestFirst)
    ensures WithKey(Insert(s, d, key, newestFirst), key, t)
         == WithKey(s, key, t) + (if key(d) == t then [d] else [])
  {
    if s == [] {
      assert Insert(s, d, key, newestFirst) == [d];
      assert WithKey([d], key, t) == (if key(d) == t then [d] else []) + WithKey([], key, t);
    } else if InOrder(key(s[0]), key(d), newestFirst) {
      var rest := Insert(s[1..], d, key, newestFirst);
      var extra := if key(d) == t then [d] else [];
      SortedTail(s, key, newestFirst);
      calc {
        WithKey(Insert(s, d, key, newestFirst), key, t);
        WithKey([s[0]] + rest, key, t);
        { WithKeyAppend([s[0]], rest, key, t); }
        WithKey([s[0]], key, t) + WithKey(rest, key, t);
        { InsertWithKey(s[1..], d, key, newestFirst, t); }
        WithKey([s[0]], key, t) + (WithKey(s[1..], key, t) + extra);
        { WithKeyAppend([s[0]], s[1..], key, t); assert [s[0]] + s[1..] == s; }
        WithKey(s, key, t) + extra;
      }
    } else {
      assert Insert(s, d, key, newestFirst) == [d] + s;
      WithKeyAppend([d], s, key, t);
      assert WithKey([d], key, t) == (if key(d) == t then [d] else []) + WithKey([], key, t);
      if key(d) == t {
        InsertBeforeAll(s, d, key, newestFirst);
        WithKeyNone(s, key, t);
      }
    }
  }

  lemma SortedTail<T>(s: seq<T>, key: T -> int, newestFirst: bool)
    requires Sorted(s, key, newestFirst) && s != []
    ensures Sorted(s[1..], key, newestFirst)
  {
  }

  /** When `d` may not follow the head of a sorted list, its key differs from every key there. */
  lemma InsertBeforeAll<T>(s: seq<T>, d: T, key: T -> int, newestFirst: bool)
    requires Sorted(s, key, newestFirst)
    requires s != [] && !InOrder(key(s[0]), key(d), newestFirst)
    ensures forall i :: 0 <= i < |s| ==> key(s[i]) != key(d)
  {
  }

  /** Stability: for every key, the elements carrying it keep their input order. */
  lemma {:induction false} StableSortedStable<T>(s: seq<T>, key: T -> int, newestFirst: bool, t: int)
    ensures WithKey(StableSorted(s, key, newestFirst), key, t) == WithKey(s, key, t)
  {
    if s != [] {
      var init, last := s[..|s| - 1], s[|s| - 1];
      StableSortedStable(init, key, newestFirst, t);
      StableSortedSorted(init, key, newestFirst);
      InsertWithKey(StableSorted(init, key, newestFirst), last, key, newestFirst, t);
      assert s == init + [last];
      WithKeyAppend(init, [last], key, t);
    }
  }

  lemma {:induction false} WithKeyFound<T>(s: seq<T>, key: T -> int, t: int)
    requires WithKey(s, key, t) != []
    ensures exists i :: 0 <= i < |s| && key(s[i]) == t
  {
    if key(s[0]) != t {
      WithKeyFound(s[1..], key, t);
      var i :| 0 <= i < |s[1..]| && key(s[1..][i]) == t;
      assert s[i + 1] == s[1..][i];
    }
  }

  lemma WithKeyOfHead<T>(s: seq<T>, key: T -> int)
    requires s != []
    ensures WithKey(s, key, key(s[0])) != []
  {
  }

  /**
   * Sorted and stable pin the order down: two sorted lists with the same run of
   * elements for every key are equal.
   */
  lemma {:induction false} SameRunsEqual<T>(r: seq<T>, q: seq<T>, key: T -> int, newestFirst: bool)
    requires Sorted(r, key, newestFirst) && Sorted(q, key, newestFirst)
    requires forall t :: WithKey(r, key, t) == WithKey(q, key, t)
    ensures r == q
    decreases |r|
  {
    if r != [] { WithKeyOfHead(r, key); }
    if q != [] { WithKeyOfHead(q, key); }
    if r != [] && q != [] {
      SameRunsHeads(r, q, key, newestFirst);
      SameRunsTails(r, q, key);
      SortedTail(r, key, newestFirst);
      SortedTail(q, key, newestFirst);
      SameRunsEqual(r[1..], q[1..], key, newestFirst);
      assert r == [r[0]] + r[1..] && q == [q[0]] + q[1..];
    }
  }

  /** Two sorted lists with the same runs start with the same element. */
  lemma SameRunsHeads<T>(r: seq<T>, q: seq<T>, key: T -> int, newestFirst: bool)
    requires Sorted(r, key, newestFirst) && Sorted(q, key, newestFirst)
    requires forall t :: WithKey(r, key, t) == WithKey(q, key, t)
    requires r != [] && q != []
    ensures r[0] == q[0]
  {
    var a, b := r[0], q[0];
    assert WithKey(q, key, key(a)) == WithKey(r, key, key(a)) != [];
    WithKeyFound(q, key, key(a));
    var i :| 0 <= i < |q| && key(q[i]) == key(a);
    assert i == 0 || InOrder(key(b), key(q[i]), newestFirst);
    assert WithKey(r, key, key(b)) == WithKey(q, key, key(b)) != [];
    WithKeyFound(r, key, key(b));
    var j :| 0 <= j < |r| && key(r[j]) == key(b);
    assert j == 0 || InOrder(key(a), key(r[j]), newestFirst);
    assert key(a) == key(b);
    assert a == WithKey(r, key, key(a))[0] == WithKey(q, key, key(a))[0] == b;
  }

  /** Dropping an equal first element from both lists keeps their runs equal. */
  lemma SameRunsTails<T>(r: seq<T>, q: seq<T>, key: T -> int)
    requires forall t :: WithKey(r, key, t) == WithKey(q, key, t)
    requires r != [] && q != [] && r[0] == q[0]
    ensures forall t :: WithKey(r[1..], key, t) == WithKey(q[1..], key, t)
  {
    forall t
      ensures WithKey(r[1..], key, t) == WithKey(q[1..], key, t)
    {
      var head := if key(r[0]) == t then [r[0]] else [];
      assert WithKey(r, key, t) == head + WithKey(r[1..], key, t);
      assert WithKey(q, key, t) == head + WithKey(q[1..], key, t);
      assert WithKey(r[1..], key, t) == WithKey(r, key, t)[|head|..];
    }
  }

  /**
   * `StableSorted` is the only arrangement of the input that is sorted by key and keeps
   * each key's elements in input order.
   */
  lemma StableSortedUnique<T>(s: seq<T>, r: seq<T>, key: T -> int, newestFirst: bool)
    requires Sorted(r, key, newestFirst)
    requires forall t :: WithKey(r, key, t) == WithKey(s, key, t)
    ensures r == StableSorted(s, key, newestFirst)
  {
    var q := StableSorted(s, key, newestFirst);
    StableSortedSorted(s, key, newestFirst);
    forall t
      ensures WithKey(r, key, t) == WithKey(q, key, t)
    {
      StableSortedStable(s, key, newestFirst, t);
    }
    SameRunsEqual(r, q, key, newestFirst);
  }

  /** Three items stamped t1 < t2 < t3 come out t3, t2, t1 newest first and t1, t2, t3 oldest first. */
  lemma ThreeDistinctTimes<T>(x1: T, x2: T, x3: T, key: T -> int)
    requires key(x1) < key(x2) < key(x3)
    ensures StableSorted([x1, x2, x3], key, true) == [x3, x2, x1]
    ensures StableSorted([x1, x2, x3], key, false) == [x1, x2, x3]
  {
    var s := [x1, x2, x3];
    assert s[..2] == [x1, x2] && [x1, x2][..1] == [x1] && [x1][..0] == [];
    assert StableSorted([x1], key, true) == [x1] == StableSorted([x1], key, false);
    assert Insert([x1], x2, key, true) == [x2, x1];
    assert Insert([x2, x1], x3, key, true) == [x3, x2, x1];
    assert Insert([], x2, key, false) == [x2];
    assert Insert([x1], x2, key, false) == [x1, x2];
    assert Insert([x2], x3, key, false) == [x2, x3];
    assert Insert([x1, x2], x3, key, false) == [x1, x2, x3];
  }

  /**
   * Where the inner loop of the insertion sort leaves `d`: after every element that may
   * stand before it, in front of the first one that may not.
   */
  lemma {:induction false} InsertAt<T>(s: seq<T>, d: T, key: T -> int, newestFirst: bool, j: int)
    requires Sorted(s, key, newestFirst)
    requires 0 <= j <= |s|
    requires j > 0 ==> InOrder(key(s[j - 1]), key(d), newestFirst)
    requires j < |s| ==> !InOrder(key(s[j]), key(d), newestFirst)
    ensures Insert(s, d, key, newestFirst) == s[..j] + [d] + s[j..]
  {
    if j > 0 {
      assert InOrder(key(s[0]), key(d), newestFirst) by {
        if j > 1 { assert InOrder(key(s[0]), key(s[j - 1]), newestFirst); }
      }
      SortedTail(s, key, newestFirst);
      InsertAt(s[1..], d, key, newestFirst, j - 1);
      assert s[..j] == [s[0]] + s[1..][..j - 1];
      assert s[j..] == s[1..][j - 1..];
    }
  }

  /**
   * One step of the insertion sort: the element at `i` moves left past every element of
   * the sorted prefix that may not stand before it.
   */
  method InsertInPlace(a: array<Doc>, i: int, newestFirst: bool)
    requires 0 <= i < a.Length
    requires Sorted(a[..i], Key, newestFirst)
    modifies a
    ensures a[..i + 1] == Insert(old(a[..i]), old(a[i]), Key, newestFirst)
    ensures a[i + 1..] == old(a[i + 1..])
  {
    ghost var done := a[..i];
    var d := a[i];
    var j := i;
    while j > 0 && !InOrder(Key(a[j - 1]), Key(d), newestFirst)
      invariant 0 <= j <= i
      invariant a[j] == d
      invariant forall k :: 0 <= k < j ==> a[k] == done[k]
      invariant forall k :: j < k <= i ==> a[k] == done[k - 1]
      invariant j < i ==> !InOrder(Key(done[j]), Key(d), newestFirst)
      invariant a[i + 1..] == old(a[i + 1..])
    {
      a[j - 1], a[j] := a[j], a[j - 1];
      j := j - 1;
    }
    InsertAt(done, d, Key, newestFirst, j);
    assert a[..i + 1] == done[..j] + [d] + done[j..];
  }

  /**
   * `docs.sort(key=lambda d: d.get("created_at"), reverse=newestFirst)`: a stable
   * insertion sort in place.
   */
  method SortInPlace(a: array<Doc>, newestFirst: bool)
    modifies a
    ensures a[..] == StableSorted(old(a[..]), Key, newestFirst)
  {
    ghost var s := a[..];
    var i := 0;
    while i < a.Length
      invariant 0 <= i <= a.Length
      invariant a[..i] == StableSorted(s[..i], Key, newestFirst)
      invariant a[i..] == s[i..]
    {
      StableSortedSorted(s[..i], Key, newestFirst);
      ghost var before := a[..];
      assert before[i] == s[i];
      InsertInPlace(a, i, newestFirst);
      assert s[..i + 1][..i] == s[..i];
      assert StableSorted(s[..i + 1], Key, newestFirst)
          == Insert(StableSorted(s[..i], Key, newestFirst), s[i], Key, newestFirst);
      assert a[i + 1..] == before[i + 1..] == s[i + 1..];
      i := i + 1;
    }
    assert s[..a.Length] == s;
  }
}
