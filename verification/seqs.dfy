/** Generic sequence machinery the store is built from: JavaScript's
    `Array.prototype.splice` index rules, element-wise `map`, and duplicate-free
    sequences. */
module Seqs {

  /** The position `splice(start, …)` acts on in an array of length `len`
      (section 23.1.3.31 of ECMAScript 2024): a negative start counts from the
      end, and the result is clamped to `[0, len]`. */
  function SpliceStart(start: int, len: nat): (k: nat)
    ensures k <= len
    ensures 0 <= start ==> k == (if start < len then start else len)
    ensures start < 0 && -start <= len ==> k + (-start) == len
    ensures start < 0 && len < -start ==> k == 0
  {
    if start < 0 then (if len + start < 0 then 0 else len + start)
    else if start > len then len
    else start
  }

  /** `xs.splice(start, 0, x)` on a copy of `xs`: `x` goes in front of the
      element at the splice position, or at the end when that position is the
      length. */
  function InsertAt<T>(xs: seq<T>, start: int, x: T): (r: seq<T>)
    ensures |r| == |xs| + 1
    ensures r[SpliceStart(start, |xs|)] == x
    ensures r[..SpliceStart(start, |xs|)] == xs[..SpliceStart(start, |xs|)]
    ensures r[SpliceStart(start, |xs|) + 1..] == xs[SpliceStart(start, |xs|)..]
    ensures multiset(r) == multiset(xs) + multiset{x}
  {
    var k := SpliceStart(start, |xs|);
    assert xs == xs[..k] + xs[k..];
    xs[..k] + [x] + xs[k..]
  }

  /** `xs.splice(start, 1)` on a copy of `xs`, for a start that names an
      element: the element is dropped and the rest keep their order. */
  function RemoveAt<T>(xs: seq<T>, start: int): (r: seq<T>)
    requires SpliceStart(start, |xs|) < |xs|
    ensures |r| + 1 == |xs|
    ensures r[..SpliceStart(start, |xs|)] == xs[..SpliceStart(start, |xs|)]
    ensures r[SpliceStart(start, |xs|)..] == xs[SpliceStart(start, |xs|) + 1..]
    ensures multiset(r) + multiset{xs[SpliceStart(start, |xs|)]} == multiset(xs)
  {
    var k := SpliceStart(start, |xs|);
    assert xs == xs[..k] + [xs[k]] + xs[k + 1..];
    xs[..k] + xs[k + 1..]
  }

  /** Element-wise image of a sequence, `xs.map(f)`. */
  function Map<T, U>(f: T -> U, xs: seq<T>): (r: seq<U>)
    ensures |r| == |xs|
    ensures forall i :: 0 <= i < |xs| ==> r[i] == f(xs[i])
  {
    seq(|xs|, i requires 0 <= i < |xs| => f(xs[i]))
  }

  lemma MapAppend<T, U>(f: T -> U, a: seq<T>, b: seq<T>)
    ensures Map(f, a + b) == Map(f, a) + Map(f, b)
  {
  }

  /** Mapping a permutation yields a permutation. */
  lemma {:induction false} MapPermutation<T, U>(f: T -> U, a: seq<T>, b: seq<T>)
    requires multiset(a) == multiset(b)
    ensures multiset(Map(f, a)) == multiset(Map(f, b))
    decreases |a|
  {
    if a == [] {
      assert |multiset(b)| == 0;
      assert b == [];
    } else {
      var x := a[0];
      assert x in multiset(b);
      var j :| 0 <= j < |b| && b[j] == x;
      var b' := b[..j] + b[j + 1..];
      assert b == b[..j] + [x] + b[j + 1..];
      assert a == [x] + a[1..];
      assert multiset(b) == multiset(b[..j]) + multiset{x} + multiset(b[j + 1..]);
      assert multiset(a) == multiset{x} + multiset(a[1..]);
      assert multiset(b') == multiset(b[..j]) + multiset(b[j + 1..]);
      calc {
        multiset(a[1..]);
        multiset(a) - multiset{x};
        multiset(b) - multiset{x};
        multiset(b');
      }
      MapPermutation(f, a[1..], b');
      MapAppend(f, [x], a[1..]);
      MapAppend(f, b[..j] + [x], b[j + 1..]);
      MapAppend(f, b[..j], [x]);
      MapAppend(f, b[..j], b[j + 1..]);
    }
  }

  /** A sub-multiset maps to a sub-multiset. */
  lemma MapSubMultiset<T, U>(f: T -> U, a: seq<T>, b: seq<T>, rest: seq<T>)
    requires multiset(a) + multiset(rest) == multiset(b)
    ensures multiset(Map(f, a)) <= multiset(Map(f, b))
  {
    MapPermutation(f, a + rest, b);
    MapAppend(f, a, rest);
  }

  /** No value occurs twice. */
  ghost predicate Distinct<T(!new)>(xs: seq<T>) {
    forall x :: multiset(xs)[x] <= 1
  }

  lemma DistinctSub<T(!new)>(a: seq<T>, b: seq<T>)
    requires multiset(a) <= multiset(b)
    requires Distinct(b)
    ensures Distinct(a)
  {
    forall x ensures multiset(a)[x] <= 1 {
      assert multiset(a)[x] <= multiset(b)[x];
    }
  }

  /** A value held at two different positions occurs at least twice. */
  lemma {:induction false} DuplicateCount<T>(xs: seq<T>, i: int, j: int)
    requires 0 <= i < j < |xs| && xs[i] == xs[j]
    ensures multiset(xs)[xs[i]] >= 2
    decreases |xs|
  {
    assert xs == [xs[0]] + xs[1..];
    assert multiset(xs) == multiset{xs[0]} + multiset(xs[1..]);
    if i == 0 {
      assert xs[1..][j - 1] == xs[0];
      assert xs[0] in multiset(xs[1..]);
    } else {
      assert xs[1..][i - 1] == xs[i] && xs[1..][j - 1] == xs[j];
      DuplicateCount(xs[1..], i - 1, j - 1);
    }
  }

  /** Distinctness read at positions: two positions hold the same value only
      when they are the same position. */
  lemma DistinctIndices<T(!new)>(xs: seq<T>, i: int, j: int)
    requires Distinct(xs)
    requires 0 <= i < |xs| && 0 <= j < |xs| && xs[i] == xs[j]
    ensures i == j
  {
    if i < j {
      DuplicateCount(xs, i, j);
      assert false;
    } else if j < i {
      DuplicateCount(xs, j, i);
      assert false;
    }
  }

  /** Conversely, a sequence whose positions hold pairwise different values is
      distinct. */
  lemma {:induction false} IndicesDistinct<T(!new)>(xs: seq<T>)
    requires forall i, j :: 0 <= i < j < |xs| ==> xs[i] != xs[j]
    ensures Distinct(xs)
    decreases |xs|
  {
    if xs != [] {
      var rest := xs[1..];
      forall i, j | 0 <= i < j < |rest| ensures rest[i] != rest[j] {
        assert rest[i] == xs[i + 1] && rest[j] == xs[j + 1];
      }
      IndicesDistinct(rest);
      assert xs == [xs[0]] + rest;
      forall k | 0 <= k < |rest| ensures rest[k] != xs[0] {
        assert rest[k] == xs[k + 1];
      }
      assert xs[0] !in rest;
      assert multiset(xs) == multiset{xs[0]} + multiset(rest);
    }
  }

  lemma DistinctAppend<T(!new)>(a: seq<T>, b: seq<T>)
    requires Distinct(a + b)
    ensures Distinct(a) && Distinct(b)
    ensures forall x :: x in a ==> x !in b
  {
    assert multiset(a + b) == multiset(a) + multiset(b);
    DistinctSub(a, a + b);
    DistinctSub(b, a + b);
    forall x | x in a ensures x !in b {
      assert multiset(a)[x] >= 1;
      assert multiset(a)[x] + multiset(b)[x] <= 1;
      assert multiset(b)[x] == 0;
    }
  }

  /** `xs.findIndex(p)`: the first position whose element satisfies `p`, or -1
      when there is none. */
  function FirstIndex<T>(p: T -> bool, xs: seq<T>): (k: int)
    ensures -1 <= k < |xs|
    ensures k == -1 <==> forall i :: 0 <= i < |xs| ==> !p(xs[i])
    ensures 0 <= k ==> p(xs[k]) && forall i :: 0 <= i < k ==> !p(xs[i])
  {
    if xs == [] then -1
    else if p(xs[0]) then 0
    else
      var k := FirstIndex(p, xs[1..]);
      if k == -1 then -1 else k + 1
  }

  /** `xs.filter(p)`: the elements satisfying `p`, in their old order. */
  function Filter<T>(p: T -> bool, xs: seq<T>): (r: seq<T>)
    ensures |r| <= |xs|
    ensures forall i :: 0 <= i < |r| ==> r[i] in xs && p(r[i])
    ensures forall i :: 0 <= i < |xs| && p(xs[i]) ==> xs[i] in r
  {
    if xs == [] then []
    else if p(xs[0]) then [xs[0]] + Filter(p, xs[1..])
    else Filter(p, xs[1..])
  }

  lemma {:induction false} FilterAppend<T>(p: T -> bool, a: seq<T>, b: seq<T>)
    ensures Filter(p, a + b) == Filter(p, a) + Filter(p, b)
    decreases |a|
  {
    if a == [] {
      assert a + b == b;
    } else {
      assert (a + b)[0] == a[0];
      assert (a + b)[1..] == a[1..] + b;
      FilterAppend(p, a[1..], b);
    }
  }

  /** Filtering keeps a sub-multiset of the elements. */
  lemma {:induction false} FilterSubMultiset<T>(p: T -> bool, xs: seq<T>)
    ensures multiset(Filter(p, xs)) <= multiset(xs)
    decreases |xs|
  {
    if xs != [] {
      FilterSubMultiset(p, xs[1..]);
      assert xs == [xs[0]] + xs[1..];
    }
  }

  /** Filtering keeps every copy of each element that passes and no copy of
      one that fails. */
  lemma {:induction false} FilterKeeps<T>(p: T -> bool, xs: seq<T>)
    ensures forall x :: multiset(Filter(p, xs))[x] == if p(x) then multiset(xs)[x] else 0
    decreases |xs|
  {
    if xs != [] {
      FilterKeeps(p, xs[1..]);
      assert xs == [xs[0]] + xs[1..];
    }
  }

  /** A filter that every element passes changes nothing. */
  lemma {:induction false} FilterAll<T>(p: T -> bool, xs: seq<T>)
    requires forall i :: 0 <= i < |xs| ==> p(xs[i])
    ensures Filter(p, xs) == xs
    decreases |xs|
  {
    if xs != [] {
      FilterAll(p, xs[1..]);
      assert xs == [xs[0]] + xs[1..];
    }
  }

  /** A filter that exactly one element fails drops that element and keeps
      the rest in order. */
  lemma {:induction false} FilterAllBut<T>(p: T -> bool, xs: seq<T>, k: int)
    requires 0 <= k < |xs| && !p(xs[k])
    requires forall i :: 0 <= i < |xs| && i != k ==> p(xs[i])
    ensures Filter(p, xs) == xs[..k] + xs[k + 1..]
    decreases |xs|
  {
    var tail := xs[1..];
    if k == 0 {
      FilterAll(p, tail);
      assert xs[..0] + xs[1..] == tail;
    } else {
      FilterAllBut(p, tail, k - 1);
      assert xs[..k] + xs[k + 1..] == [xs[0]] + (tail[..k - 1] + tail[k..]);
    }
  }

  lemma DistinctSnoc<T(!new)>(xs: seq<T>, x: T)
    requires Distinct(xs) && x !in xs
    ensures Distinct(xs + [x])
  {
    assert multiset(xs + [x]) == multiset(xs) + multiset{x};
    assert multiset(xs)[x] == 0;
  }

  /** The image of a filtered sequence is a sub-multiset of the image. */
  lemma {:induction false} MapFilterSubMultiset<T, U>(f: T -> U, p: T -> bool, xs: seq<T>)
    ensures multiset(Map(f, Filter(p, xs))) <= multiset(Map(f, xs))
    decreases |xs|
  {
    if xs != [] {
      MapFilterSubMultiset(f, p, xs[1..]);
      assert xs == [xs[0]] + xs[1..];
      MapAppend(f, [xs[0]], xs[1..]);
      if p(xs[0]) {
        MapAppend(f, [xs[0]], Filter(p, xs[1..]));
      }
    }
  }

  /** Cancelling a common part on both sides of a multiset equation. */
  lemma MultisetCancel<T>(a: multiset<T>, b: multiset<T>, common: multiset<T>)
    requires a + common == b + common
    ensures a == b
  {
    forall z ensures a[z] == b[z] {
      assert (a + common)[z] == (b + common)[z];
    }
  }

  /** Taking back out what `InsertAt` put in restores the sequence. */
  lemma RemoveInserted<T>(xs: seq<T>, start: int, x: T)
    ensures var k := SpliceStart(start, |xs|);
            var r := InsertAt(xs, start, x);
            r[..k] + r[k + 1..] == xs
  {
    var k := SpliceStart(start, |xs|);
    assert xs == xs[..k] + xs[k..];
  }

  /** Splicing an element out and back in elsewhere: taking it out again, from
      where it landed, gives the other elements in their old order. */
  lemma RemoveThenInsert<T>(xs: seq<T>, start: int, end: int)
    requires SpliceStart(start, |xs|) < |xs|
    ensures var s := SpliceStart(start, |xs|);
            var e := SpliceStart(end, |xs| - 1);
            var r := InsertAt(RemoveAt(xs, start), end, xs[s]);
            r[..e] + r[e + 1..] == xs[..s] + xs[s + 1..]
  {
    var s := SpliceStart(start, |xs|);
    var rest := RemoveAt(xs, start);
    RemoveInserted(rest, end, xs[s]);
    assert rest == xs[..s] + xs[s + 1..];
  }

  /** Undoing an update at one position and overwriting another. */
  lemma UpdateRestore<T>(s: seq<T>, k: int, m: int, a: T, b: T, c: T)
    requires 0 <= k < |s| && 0 <= m < |s| && k != m
    ensures s[k := a][m := b][m := s[m]][k := c] == s[k := c]
  {
  }
}
