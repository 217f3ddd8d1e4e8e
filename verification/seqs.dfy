/** Sequence helpers shared by the model: filtering (`Array.prototype.filter`),
    slicing (`slice(0, n)`), de-duplication (`[...new Set(xs)]`), batching
    (`for (i = 0; i < n; i += size) xs.slice(i, i + size)`), sums and maxima. */
module Seqs {
  import opened Wrappers

  /** No element occurs twice. */
  predicate NoDups<T(==)>(s: seq<T>) {
    forall i, j :: 0 <= i < j < |s| ==> s[i] != s[j]
  }

  /** `r` is obtained from `s` by deleting elements, keeping the order of the rest. */
  predicate IsSubsequence<T(==)>(r: seq<T>, s: seq<T>)
    decreases |s|
  {
    if |r| == 0 then true
    else if |s| == 0 then false
    else if r[0] == s[0] then IsSubsequence(r[1..], s[1..])
    else IsSubsequence(r, s[1..])
  }

  /** The elements of a subsequence are elements of the sequence. */
  lemma {:induction false} SubsequenceMember<T>(r: seq<T>, s: seq<T>)
    requires IsSubsequence(r, s)
    ensures forall x :: x in r ==> x in s
    decreases |s|
  {
    if |r| > 0 && |s| > 0 {
      if r[0] == s[0] {
        SubsequenceMember(r[1..], s[1..]);
        assert r == [r[0]] + r[1..];
      } else {
        SubsequenceMember(r, s[1..]);
      }
    }
  }

  /** Deleting elements keeps the images under `f` distinct. */
  lemma {:induction false} SubsequenceNoDupsMap<A, B>(r: seq<A>, s: seq<A>, f: A -> B)
    requires IsSubsequence(r, s) && NoDups(Map(s, f))
    ensures NoDups(Map(r, f))
    decreases |s|
  {
    if |r| > 0 && |s| > 0 {
      var ms := Map(s, f);
      assert NoDups(Map(s[1..], f)) by {
        forall i, j | 0 <= i < j < |s| - 1
          ensures Map(s[1..], f)[i] != Map(s[1..], f)[j]
        {
          assert Map(s[1..], f)[i] == ms[i + 1] && Map(s[1..], f)[j] == ms[j + 1];
        }
      }
      if r[0] == s[0] {
        SubsequenceNoDupsMap(r[1..], s[1..], f);
        SubsequenceMember(r[1..], s[1..]);
        var mr := Map(r, f);
        forall i, j | 0 <= i < j < |r|
          ensures mr[i] != mr[j]
        {
          assert mr[j] == Map(r[1..], f)[j - 1];
          if i == 0 {
            assert r[1..][j - 1] in s[1..];
            var k :| 0 <= k < |s| - 1 && s[1..][k] == r[1..][j - 1];
            assert ms[0] != ms[k + 1];
          } else {
            assert mr[i] == Map(r[1..], f)[i - 1];
          }
        }
      } else {
        SubsequenceNoDupsMap(r, s[1..], f);
      }
    }
  }

  /** `xs.filter(p)`. */
  function Filter<T>(s: seq<T>, p: T -> bool): (r: seq<T>)
    ensures |r| <= |s|
    ensures forall i :: 0 <= i < |r| ==> r[i] in s && p(r[i])
    ensures forall i :: 0 <= i < |s| && p(s[i]) ==> s[i] in r
    decreases |s|
  {
    if |s| == 0 then []
    else if p(s[0]) then [s[0]] + Filter(s[1..], p)
    else Filter(s[1..], p)
  }

  /** Two predicates that agree on a sequence select the same elements. */
  lemma {:induction false} FilterSame<T>(s: seq<T>, p: T -> bool, q: T -> bool)
    requires forall i :: 0 <= i < |s| ==> p(s[i]) == q(s[i])
    ensures Filter(s, p) == Filter(s, q)
    decreases |s|
  {
    if |s| > 0 {
      FilterSame(s[1..], p, q);
    }
  }

  lemma {:induction false} FilterNone<T>(s: seq<T>, p: T -> bool)
    requires forall i :: 0 <= i < |s| ==> !p(s[i])
    ensures Filter(s, p) == []
    decreases |s|
  {
    if |s| > 0 {
      FilterNone(s[1..], p);
    }
  }

  /** `xs.map(f)`. */
  function Map<A, B>(s: seq<A>, f: A -> B): (r: seq<B>)
    ensures |r| == |s|
    ensures forall i :: 0 <= i < |s| ==> r[i] == f(s[i])
    decreases |s|
  {
    if |s| == 0 then [] else [f(s[0])] + Map(s[1..], f)
  }

  /** `xs.filter((x) => x !== null)`: the present values, in order. */
  function Kept<T>(xs: seq<Option<T>>): (r: seq<T>)
    ensures |r| <= |xs|
    decreases |xs|
  {
    if |xs| == 0 then []
    else (if xs[0].Some? then [xs[0].value] else []) + Kept(xs[1..])
  }

  /** Mapping to a value or null and dropping the nulls is filtering, then mapping. */
  lemma {:induction false} KeptMap<A, B>(s: seq<A>, p: A -> bool, f: A -> B, g: A -> Option<B>)
    requires forall x :: g(x) == if p(x) then Some(f(x)) else None
    ensures Kept(Map(s, g)) == Map(Filter(s, p), f)
    decreases |s|
  {
    if |s| > 0 {
      KeptMap(s[1..], p, f, g);
      assert Map(s, g)[1..] == Map(s[1..], g);
    }
  }

  /** `xs.filter(p).length`. */
  function Count<T>(s: seq<T>, p: T -> bool): (n: nat)
    ensures n <= |s|
  {
    |Filter(s, p)|
  }

  lemma CountCons<T>(x: T, s: seq<T>, p: T -> bool)
    ensures Count([x] + s, p) == (if p(x) then 1 else 0) + Count(s, p)
  {
    assert ([x] + s)[1..] == s;
  }

  /** The positions of a sequence whose element satisfies `p`. */
  function Positions<T>(s: seq<T>, p: T -> bool): set<nat> {
    set i: nat | i < |s| && p(s[i])
  }

  /** The positions of a non-empty sequence: those of its front, and its
      last index when the last element is kept. */
  lemma PositionsLast<T>(s: seq<T>, p: T -> bool)
    requires |s| > 0
    ensures Positions(s, p) == Positions(s[..|s| - 1], p) + (if p(s[|s| - 1]) then {|s| - 1} else {})
  {
    var init := s[..|s| - 1];
    var a, b := Positions(s, p), Positions(init, p) + (if p(s[|s| - 1]) then {|s| - 1} else {});
    forall i | i in a ensures i in b {
      if i < |init| { assert init[i] == s[i]; }
    }
    forall i | i in b ensures i in a {
      if i < |init| { assert init[i] == s[i]; }
    }
  }

  /** Counting the kept elements is counting the positions that satisfy the
      predicate. */
  lemma {:induction false} CountPositions<T>(s: seq<T>, p: T -> bool)
    ensures Count(s, p) == |Positions(s, p)|
    decreases |s|
  {
    if |s| > 0 {
      var init := s[..|s| - 1];
      CountPositions(init, p);
      FilterLast(s, p);
      PositionsLast(s, p);
      assert |init| !in Positions(init, p);
    }
  }

  /** `xs.slice(0, n)`. */
  function Take<T>(s: seq<T>, n: nat): (r: seq<T>)
    ensures |r| == if n < |s| then n else |s|
    ensures r == s[..|r|]
  {
    if n < |s| then s[..n] else s
  }

  /** Filtering distributes over appending one element. */
  lemma {:induction false} FilterSnoc<T>(s: seq<T>, x: T, p: T -> bool)
    ensures Filter(s + [x], p) == Filter(s, p) + (if p(x) then [x] else [])
    decreases |s|
  {
    if |s| == 0 {
      assert s + [x] == [x];
    } else {
      FilterSnoc(s[1..], x, p);
      assert (s + [x])[1..] == s[1..] + [x];
    }
  }

  /** Filtering a non-empty sequence: the filtered front, then its last element if kept. */
  lemma FilterLast<T>(s: seq<T>, p: T -> bool)
    requires |s| > 0
    ensures Filter(s, p) == Filter(s[..|s| - 1], p) + (if p(s[|s| - 1]) then [s[|s| - 1]] else [])
  {
    var init, x := s[..|s| - 1], s[|s| - 1];
    FilterSnoc(init, x, p);
    assert init + [x] == s;
  }

  lemma {:induction false} FilterIsSubsequence<T>(s: seq<T>, p: T -> bool)
    ensures IsSubsequence(Filter(s, p), s)
    decreases |s|
  {
    if |s| > 0 {
      FilterIsSubsequence(s[1..], p);
      var f := Filter(s, p);
      if p(s[0]) {
        assert f[1..] == Filter(s[1..], p);
      } else if |f| > 0 {
        assert p(f[0]);
      }
    }
  }

  lemma {:induction false} PrefixOfSubsequence<T>(r: seq<T>, s: seq<T>, n: nat)
    requires IsSubsequence(r, s) && n <= |r|
    ensures IsSubsequence(r[..n], s)
    decreases |s|
  {
    if n > 0 && |s| > 0 {
      if r[0] == s[0] {
        PrefixOfSubsequence(r[1..], s[1..], n - 1);
        assert r[1..][..n - 1] == r[..n][1..];
      } else {
        PrefixOfSubsequence(r, s[1..], n);
      }
    }
  }

  /** A filter followed by a slice keeps the order of its input. */
  lemma TakeFilterIsSubsequence<T>(s: seq<T>, p: T -> bool, n: nat)
    ensures IsSubsequence(Take(Filter(s, p), n), s)
  {
    FilterIsSubsequence(s, p);
    PrefixOfSubsequence(Filter(s, p), s, |Take(Filter(s, p), n)|);
  }

  /** `[...new Set(xs)]`: the distinct elements in order of first occurrence. */
  function Dedup<T(==)>(s: seq<T>): (r: seq<T>)
    ensures NoDups(r)
    ensures forall i :: 0 <= i < |r| ==> r[i] in s
    ensures forall i :: 0 <= i < |s| ==> s[i] in r
    ensures |r| <= |s|
    decreases |s|
  {
    if |s| == 0 then []
    else
      var r := Dedup(s[..|s| - 1]);
      if s[|s| - 1] in r then r else r + [s[|s| - 1]]
  }

  /** A duplicate-free sequence has as many elements as its set. */
  lemma {:induction false} NoDupsCardinality<T>(s: seq<T>)
    requires NoDups(s)
    ensures |set x | x in s| == |s|
    decreases |s|
  {
    if |s| > 0 {
      var init := s[..|s| - 1];
      NoDupsCardinality(init);
      assert (set x | x in s) == (set x | x in init) + {s[|s| - 1]};
      assert s[|s| - 1] !in init;
    }
  }

  /** Prepending a new element keeps a sequence duplicate-free. */
  lemma ConsNoDups<T>(x: T, s: seq<T>)
    requires NoDups(s) && forall i :: 0 <= i < |s| ==> s[i] != x
    ensures NoDups([x] + s)
  {
    var r := [x] + s;
    forall i, j | 0 <= i < j < |r|
      ensures r[i] != r[j]
    {
      if i > 0 { assert r[i] == s[i - 1] && r[j] == s[j - 1]; }
    }
  }

  /** A sequence without duplicates holds each value at most once. */
  lemma {:induction false} NoDupsMultiplicity<T>(s: seq<T>, x: T)
    requires NoDups(s)
    ensures multiset(s)[x] <= 1
    decreases |s|
  {
    if |s| > 0 {
      assert NoDups(s[1..]);
      NoDupsMultiplicity(s[1..], x);
      assert s == [s[0]] + s[1..];
      if s[0] == x {
        assert x !in s[1..];
      }
    }
  }

  /** The number of positions of `x` in `s`. */
  function CountEq<T(==)>(s: seq<T>, x: T): nat
    decreases |s|
  {
    if |s| == 0 then 0 else (if s[0] == x then 1 else 0) + CountEq(s[1..], x)
  }

  /** In a sequence without duplicates a value occurs once or not at all. */
  lemma {:induction false} CountEqOne<T>(s: seq<T>, x: T)
    requires NoDups(s)
    ensures CountEq(s, x) == if x in s then 1 else 0
    decreases |s|
  {
    if |s| > 0 {
      assert NoDups(s[1..]);
      CountEqOne(s[1..], x);
      if s[0] == x {
        assert x !in s[1..];
      }
      assert x in s <==> x == s[0] || x in s[1..];
    }
  }

  /** A permutation of a sequence without duplicates has none either. */
  lemma PermutationNoDups<T>(a: seq<T>, b: seq<T>)
    requires NoDups(a) && multiset(a) == multiset(b)
    ensures NoDups(b)
  {
    forall i, j | 0 <= i < j < |b| ensures b[i] != b[j] {
      if b[i] == b[j] {
        TwoOccurrences(b, i, j);
        NoDupsMultiplicity(a, b[i]);
      }
    }
  }

  lemma TwoOccurrences<T>(b: seq<T>, i: nat, j: nat)
    requires i < j < |b| && b[i] == b[j]
    ensures multiset(b)[b[i]] >= 2
  {
    assert b == b[..j] + [b[j]] + b[j + 1..];
    assert b[i] in b[..j];
  }

  /** A position holding `x`, which occurs in `s`. */
  lemma PositionOf<T>(s: seq<T>, x: T) returns (j: nat)
    requires x in multiset(s)
    ensures j < |s| && s[j] == x
  {
    j :| 0 <= j < |s| && s[j] == x;
  }

  lemma {:induction false} SubsetCardinality<T>(a: set<T>, b: set<T>)
    requires a <= b
    ensures |a| <= |b|
    decreases |a|
  {
    if a != {} {
      var x :| x in a;
      SubsetCardinality(a - {x}, b - {x});
    }
  }

  /** Deleting position `j` removes one copy of `b[j]`. */
  lemma MultisetRemove<T>(b: seq<T>, j: nat)
    requires j < |b|
    ensures multiset(b[..j] + b[j + 1..]) == multiset(b) - multiset{b[j]}
  {
    assert b == b[..j] + [b[j]] + b[j + 1..];
  }

  /** Concatenation of a sequence of sequences. */
  function Flatten<T>(ss: seq<seq<T>>): (r: seq<T>)
    decreases |ss|
  {
    if |ss| == 0 then [] else ss[0] + Flatten(ss[1..])
  }

  lemma {:induction false} FlattenMembership<T>(ss: seq<seq<T>>, x: T)
    ensures x in Flatten(ss) <==> exists i :: 0 <= i < |ss| && x in ss[i]
    decreases |ss|
  {
    if |ss| > 0 {
      FlattenMembership(ss[1..], x);
      if x in Flatten(ss[1..]) {
        var i :| 0 <= i < |ss[1..]| && x in ss[1..][i];
        assert x in ss[i + 1];
      }
      if exists i :: 0 <= i < |ss| && x in ss[i] {
        var i :| 0 <= i < |ss| && x in ss[i];
        if i > 0 { assert x in ss[1..][i - 1]; }
      }
    }
  }

  lemma DivOne(a: int, n: int)
    requires 0 < n <= a < 2 * n
    ensures a / n == 1
  {
  }

  lemma MulLess(x: int, y: int, n: int)
    requires n > 0 && x * n < y * n
    ensures x < y
  {
    assert (y - x) * n == y * n - x * n;
  }

  lemma DivStep(a: int, n: int)
    requires n > 0 && a >= 0
    ensures (a + n) / n == a / n + 1
  {
    var q := a / n;
    var q2, r2 := (a + n) / n, (a + n) % n;
    assert a + n == q2 * n + r2;
    assert (q + 1) * n == q * n + n;
    assert (q + 2) * n == q * n + 2 * n;
    MulLess(q2, q + 2, n);
    MulLess(q, q2, n);
  }

  /** Number of batches of `n` needed for `len` items: `Math.ceil(len / n)`. */
  function CeilDiv(len: nat, n: nat): nat
    requires n > 0
  {
    (len + n - 1) / n
  }

  /** The batches `xs.slice(i, i + n)` for `i = 0, n, 2n, ...`. */
  function Chunks<T>(s: seq<T>, n: nat): (r: seq<seq<T>>)
    requires n > 0
    ensures forall i :: 0 <= i < |r| ==> 0 < |r[i]| <= n
    ensures forall i :: 0 <= i < |r| - 1 ==> |r[i]| == n
    ensures Flatten(r) == s
    ensures |r| == CeilDiv(|s|, n)
    decreases |s|
  {
    if |s| == 0 then []
    else if |s| <= n then
      DivOne(|s| + n - 1, n);
      [s]
    else
      DivStep(|s| - 1, n);
      [s[..n]] + Chunks(s[n..], n)
  }

  lemma NextChunk<T>(s: seq<T>, i: nat, n: nat, done: seq<seq<T>>)
    requires n > 0 && i < |s|
    requires Chunks(s, n) == done + Chunks(s[i..], n)
    ensures var e := if i + n <= |s| then i + n else |s|;
      Chunks(s, n) == (done + [s[i..e]]) + Chunks(s[e..], n)
  {
    ChunksStep(s, i, n);
  }

  lemma NoChunkLeft<T>(s: seq<T>, n: nat, done: seq<seq<T>>)
    requires n > 0
    requires Chunks(s, n) == done + Chunks(s[|s|..], n)
    ensures Chunks(s, n) == done
  {
    assert s[|s|..] == [];
  }

  /** The batches from `i` on: the slice `[i, i + n)` (cut at the end), then the rest. */
  lemma ChunksStep<T>(s: seq<T>, i: nat, n: nat)
    requires n > 0 && i < |s|
    ensures var e := if i + n <= |s| then i + n else |s|;
      Chunks(s[i..], n) == [s[i..e]] + Chunks(s[e..], n)
  {
    var t := s[i..];
    var e := if i + n <= |s| then i + n else |s|;
    assert t[..e - i] == s[i..e];
    assert t[e - i..] == s[e..];
    if |t| <= n {
      assert t[..|t|] == t;
    }
  }

  /** Sum of a natural-valued `f` over a sequence, added from the front. */
  function SumF<T>(s: seq<T>, f: T -> nat): nat
    decreases |s|
  {
    if |s| == 0 then 0 else f(s[0]) + SumF(s[1..], f)
  }

  lemma {:induction false} SumFRemove<T>(b: seq<T>, j: nat, f: T -> nat)
    requires j < |b|
    ensures SumF(b, f) == f(b[j]) + SumF(b[..j] + b[j + 1..], f)
    decreases j
  {
    if j > 0 {
      SumFRemove(b[1..], j - 1, f);
      assert b[1..][..j - 1] + b[1..][j..] == (b[..j] + b[j + 1..])[1..];
    } else {
      assert b[..0] + b[1..] == b[1..];
    }
  }

  /** Summing over a mapped sequence is summing the composed function. */
  lemma {:induction false} SumFMap<A, B>(s: seq<A>, g: A -> B, f: B -> nat, h: A -> nat)
    requires forall x :: h(x) == f(g(x))
    ensures SumF(Map(s, g), f) == SumF(s, h)
    decreases |s|
  {
    if |s| > 0 {
      SumFMap(s[1..], g, f, h);
    }
  }

  /** A permutation has the same sum. */
  lemma {:induction false} SumFPermutation<T>(a: seq<T>, b: seq<T>, f: T -> nat)
    requires multiset(a) == multiset(b)
    ensures SumF(a, f) == SumF(b, f)
    decreases |a|
  {
    if |a| == 0 {
      assert |multiset(b)| == 0;
    } else {
      var x := a[0];
      assert x in multiset(b);
      var j := PositionOf(b, x);
      var rest := b[..j] + b[j + 1..];
      MultisetRemove(b, j);
      assert a == [x] + a[1..];
      assert multiset(a[1..]) == multiset(a) - multiset{x};
      assert multiset(rest) == multiset(b) - multiset{x};
      SumFPermutation(a[1..], rest, f);
      SumFRemove(b, j, f);
    }
  }
  /** Sum of `f` over a sequence, added left to right. */
  function SumBy<T>(s: seq<T>, f: T -> int): int
    decreases |s|
  {
    if |s| == 0 then 0 else SumBy(s[..|s| - 1], f) + f(s[|s| - 1])
  }

  lemma {:induction false} SumByAppend<T>(a: seq<T>, b: seq<T>, f: T -> int)
    ensures SumBy(a + b, f) == SumBy(a, f) + SumBy(b, f)
    decreases |b|
  {
    if |b| > 0 {
      var last := b[|b| - 1];
      SumByAppend(a, b[..|b| - 1], f);
      assert (a + b)[..|a + b| - 1] == a + b[..|b| - 1];
      assert (a + b)[|a + b| - 1] == last;
      assert SumBy(a + b, f) == SumBy(a + b[..|b| - 1], f) + f(last);
      assert SumBy(b, f) == SumBy(b[..|b| - 1], f) + f(last);
    } else {
      assert a + b == a;
    }
  }

  lemma {:induction false} SumByNonNegative<T>(s: seq<T>, f: T -> int)
    requires forall x :: x in s ==> f(x) >= 0
    ensures SumBy(s, f) >= 0
    decreases |s|
  {
    if |s| > 0 {
      SumByNonNegative(s[..|s| - 1], f);
    }
  }

  /** `Math.max(0, ...xs)`: the largest element, or 0 for the empty sequence. */
  function MaxNat(s: seq<nat>): (m: nat)
    ensures forall i :: 0 <= i < |s| ==> s[i] <= m
    ensures |s| > 0 ==> m in s
    ensures |s| == 0 ==> m == 0
    decreases |s|
  {
    if |s| == 0 then 0
    else
      var rest := MaxNat(s[1..]);
      if s[0] >= rest then s[0] else rest
  }

  /** `x` survives `Kept` exactly when `Some(x)` is among the options. */
  lemma {:induction false} KeptMember<T>(xs: seq<Option<T>>, x: T)
    ensures x in Kept(xs) <==> Some(x) in xs
    decreases |xs|
  {
    if |xs| > 0 {
      KeptMember(xs[1..], x);
      assert xs == [xs[0]] + xs[1..];
    }
  }

  /** Reordering keeps the projections `f` distinct. */
  lemma PermutationNoDupsMap<A, B>(a: seq<A>, b: seq<A>, f: A -> B)
    requires NoDups(Map(a, f)) && multiset(a) == multiset(b)
    ensures NoDups(Map(b, f))
  {
    forall i, j | 0 <= i < j < |b| ensures f(b[i]) != f(b[j]) {
      if f(b[i]) == f(b[j]) {
        assert b[i] in multiset(a) && b[j] in multiset(a);
        var i' := PositionOf(a, b[i]);
        var j' := PositionOf(a, b[j]);
        assert Map(a, f)[i'] == Map(a, f)[j'];
        TwoOccurrences(b, i, j);
        assert NoDups(a) by {
          forall x, y | 0 <= x < y < |a| ensures a[x] != a[y] {
            assert Map(a, f)[x] != Map(a, f)[y];
          }
        }
        NoDupsMultiplicity(a, b[i]);
      }
    }
  }

  lemma MapSnoc<A, B>(s: seq<A>, x: A, f: A -> B)
    ensures Map(s + [x], f) == Map(s, f) + [f(x)]
  {
    var l, r := Map(s + [x], f), Map(s, f) + [f(x)];
    assert |l| == |r|;
    forall i | 0 <= i < |l| ensures l[i] == r[i] {
      if i < |s| { assert (s + [x])[i] == s[i]; }
    }
  }

  /** Reordering keeps the set of projections. */
  lemma PermutationMapMember<A, B>(a: seq<A>, b: seq<A>, f: A -> B, y: B)
    requires multiset(a) == multiset(b)
    ensures y in Map(a, f) <==> y in Map(b, f)
  {
    if y in Map(a, f) {
      var i :| 0 <= i < |a| && Map(a, f)[i] == y;
      assert a[i] in multiset(b);
      var j := PositionOf(b, a[i]);
      assert Map(b, f)[j] == y;
    }
    if y in Map(b, f) {
      var i :| 0 <= i < |b| && Map(b, f)[i] == y;
      assert b[i] in multiset(a);
      var j := PositionOf(a, b[i]);
      assert Map(a, f)[j] == y;
    }
  }
}
