/** `Array.prototype.sort` with a numeric comparator. The JavaScript sort is stable
    (ECMAScript 2019 and later), and for a given comparator the stable ordering is
    unique, so a stable insertion sort computes the same sequence. */
module Sorting {
  import opened Seqs

  /** `s` is ordered by `key`, smallest first. */
  ghost predicate SortedBy<T>(s: seq<T>, key: T -> real) {
    forall i, j :: 0 <= i < j < |s| ==> key(s[i]) <= key(s[j])
  }

  /** `s` is ordered by `key`, largest first. */
  ghost predicate SortedDescBy<T>(s: seq<T>, key: T -> real) {
    forall i, j :: 0 <= i < j < |s| ==> key(s[i]) >= key(s[j])
  }

  /** Places `x` after every element whose key is not greater than its own. */
  function Insert<T>(x: T, s: seq<T>, key: T -> real): (r: seq<T>)
    requires SortedBy(s, key)
    ensures SortedBy(r, key)
    ensures multiset(r) == multiset(s) + multiset{x}
    ensures |r| == |s| + 1
    decreases |s|
  {
    if |s| == 0 then [x]
    else if key(x) < key(s[0]) then [x] + s
    else
      var rest := Insert(x, s[1..], key);
      InsertAfterHead(x, s, key, rest);
      [s[0]] + rest
  }

  /** Keeping the head in front of the tail with `x` inserted keeps the order. */
  lemma InsertAfterHead<T>(x: T, s: seq<T>, key: T -> real, rest: seq<T>)
    requires |s| > 0 && SortedBy(s, key) && key(s[0]) <= key(x)
    requires SortedBy(rest, key) && multiset(rest) == multiset(s[1..]) + multiset{x}
    ensures SortedBy([s[0]] + rest, key)
    ensures multiset([s[0]] + rest) == multiset(s) + multiset{x}
  {
    assert s == [s[0]] + s[1..];
    forall k | 0 <= k < |rest|
      ensures key(s[0]) <= key(rest[k])
    {
      assert rest[k] in multiset(rest);
      assert rest[k] in multiset(s[1..]) + multiset{x};
    }
  }

  /** `[...s].sort((a, b) => key(a) - key(b))`. */
  function SortBy<T>(s: seq<T>, key: T -> real): (r: seq<T>)
    ensures SortedBy(r, key)
    ensures multiset(r) == multiset(s)
    ensures |r| == |s|
    decreases |s|
  {
    if |s| == 0 then []
    else
      assert s == s[..|s| - 1] + [s[|s| - 1]];
      Insert(s[|s| - 1], SortBy(s[..|s| - 1], key), key)
  }

  /** `[...s].sort((a, b) => key(b) - key(a))`. */
  function SortDescBy<T>(s: seq<T>, key: T -> real): (r: seq<T>)
    ensures SortedDescBy(r, key)
    ensures multiset(r) == multiset(s)
    ensures |r| == |s|
  {
    var r := SortBy(s, x => -key(x));
    assert forall i, j :: 0 <= i < j < |r| ==> -key(r[i]) <= -key(r[j]);
    r
  }

  /** The first element of a descending sort has the largest key. */
  lemma SortedDescHeadIsMax<T>(s: seq<T>, key: T -> real, x: T)
    requires x in s
    ensures |SortDescBy(s, key)| > 0
    ensures key(SortDescBy(s, key)[0]) >= key(x)
  {
    var r := SortDescBy(s, key);
    assert x in multiset(r);
    var k :| 0 <= k < |r| && r[k] == x;
  }

  /** No element of a sorted sequence above `x`'s key shares it. */
  lemma NoTiesAbove<T>(x: T, s: seq<T>, key: T -> real, p: T -> bool, k: real)
    requires SortedBy(s, key) && |s| > 0 && key(x) < key(s[0])
    requires forall y :: p(y) <==> key(y) == k
    requires p(x)
    ensures Filter(s, p) == []
  {
  }

  /** Inserting `x` adds it after every element of its key class. */
  lemma {:induction false} InsertKeepsTies<T>(x: T, s: seq<T>, key: T -> real, p: T -> bool, k: real)
    requires SortedBy(s, key)
    requires forall y :: p(y) <==> key(y) == k
    ensures Filter(Insert(x, s, key), p) == Filter(s, p) + (if p(x) then [x] else [])
    decreases |s|
  {
    if |s| > 0 {
      var r := Insert(x, s, key);
      if key(x) < key(s[0]) {
        assert r == [x] + s;
        assert r[1..] == s;
        if p(x) {
          NoTiesAbove(x, s, key, p, k);
        }
      } else {
        var rest := Insert(x, s[1..], key);
        assert r == [s[0]] + rest;
        assert r[1..] == rest;
        InsertKeepsTies(x, s[1..], key, p, k);
      }
    }
  }

  /** The sort is stable: the elements of any one key keep their input
      order. */
  lemma {:induction false} SortByStable<T>(s: seq<T>, key: T -> real, p: T -> bool, k: real)
    requires forall y :: p(y) <==> key(y) == k
    ensures Filter(SortBy(s, key), p) == Filter(s, p)
    decreases |s|
  {
    if |s| > 0 {
      var init, x := s[..|s| - 1], s[|s| - 1];
      SortByStable(init, key, p, k);
      InsertKeepsTies(x, SortBy(init, key), key, p, k);
      assert SortBy(s, key) == Insert(x, SortBy(init, key), key);
      FilterLast(s, p);
    }
  }

  /** The descending sort is stable too. */
  lemma SortDescByStable<T>(s: seq<T>, key: T -> real, p: T -> bool, k: real)
    requires forall y :: p(y) <==> key(y) == k
    ensures Filter(SortDescBy(s, key), p) == Filter(s, p)
  {
    SortByStable(s, x => -key(x), p, -k);
  }

  /** The first element of a descending sort is the earliest element of the
      input with the largest key. */
  lemma SortedDescHeadIsFirstMax<T>(s: seq<T>, key: T -> real, p: T -> bool)
    requires |s| > 0
    requires forall y :: p(y) <==> key(y) == key(SortDescBy(s, key)[0])
    ensures |Filter(s, p)| > 0 && SortDescBy(s, key)[0] == Filter(s, p)[0]
  {
    var d := SortDescBy(s, key);
    SortDescByStable(s, key, p, key(d[0]));
    assert Filter(d, p) == [d[0]] + Filter(d[1..], p);
  }
}
