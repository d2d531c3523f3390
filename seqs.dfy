/** Generic sequence operations behind the Kotlin collection calls that the
    repository helpers are built from: `filter`, `removeIf`, `indexOfFirst`,
    `List - element`, `MutableList.remove`, `groupBy` keys. */
module Seqs {

  datatype Option<T> = None | Some(value: T)

  /** Kotlin `List.contains` on distinct elements: no element occurs twice. */
  ghost predicate NoDuplicates<T>(s: seq<T>)
  {
    forall i, j :: 0 <= i < j < |s| ==> s[i] != s[j]
  }

  /** `r` can be obtained from `s` by deleting elements (greedy matching). */
  predicate IsSubsequence<T(==)>(r: seq<T>, s: seq<T>)
    decreases |s|
  {
    |r| == 0 ||
    (|s| > 0 && if r[0] == s[0] then IsSubsequence(r[1..], s[1..]) else IsSubsequence(r, s[1..]))
  }

  /** The complement of a predicate (the lambda `!p(it)`). */
  function Not<T(!new)>(p: T -> bool): (q: T -> bool)
    ensures forall x :: q(x) == !p(x)
  {
    x => !p(x)
  }

  /** Kotlin `filter`: the elements of `s` satisfying `p`, in their order in `s`. */
  function Filter<T(==,!new)>(s: seq<T>, p: T -> bool): (r: seq<T>)
    ensures |r| <= |s|
    ensures forall x :: x in r <==> x in s && p(x)
    ensures forall x :: multiset(r)[x] == if p(x) then multiset(s)[x] else 0
    ensures IsSubsequence(r, s)
  {
    if |s| == 0 then []
    else
      assert s == [s[0]] + s[1..];
      if p(s[0]) then [s[0]] + Filter(s[1..], p) else Filter(s[1..], p)
  }

  /** Filtering distributes over concatenation, which pins down the order of the result. */
  lemma {:induction false} FilterConcat<T(!new)>(a: seq<T>, b: seq<T>, p: T -> bool)
    ensures Filter(a + b, p) == Filter(a, p) + Filter(b, p)
    decreases |a|
  {
    if |a| == 0 {
      assert a + b == b;
    } else {
      assert (a + b)[0] == a[0];
      assert (a + b)[1..] == a[1..] + b;
      FilterConcat(a[1..], b, p);
    }
  }

  /** Filtering with a predicate and with its complement splits the sequence. */
  lemma {:induction false} FilterPartition<T(!new)>(s: seq<T>, p: T -> bool)
    ensures |Filter(s, p)| + |Filter(s, Not(p))| == |s|
    decreases |s|
  {
    if |s| > 0 {
      FilterPartition(s[1..], p);
    }
  }

  /** Filters with pointwise-equal predicates agree. */
  lemma {:induction false} FilterCongruent<T(!new)>(s: seq<T>, p: T -> bool, q: T -> bool)
    requires forall x :: x in s ==> p(x) == q(x)
    ensures Filter(s, p) == Filter(s, q)
    decreases |s|
  {
    if |s| > 0 {
      FilterCongruent(s[1..], p, q);
    }
  }

  /** A filter that rejects nothing returns its input. */
  lemma {:induction false} FilterKeepsAll<T(!new)>(s: seq<T>, p: T -> bool)
    requires forall x :: x in s ==> p(x)
    ensures Filter(s, p) == s
    decreases |s|
  {
    if |s| > 0 {
      FilterKeepsAll(s[1..], p);
      assert s == [s[0]] + s[1..];
    }
  }

  /** One step of the filter: the head is kept exactly when it satisfies
      the predicate. */
  lemma {:induction false} FilterCons<T(!new)>(x: T, s: seq<T>, p: T -> bool)
    ensures Filter([x] + s, p) == if p(x) then [x] + Filter(s, p) else Filter(s, p)
  {
    assert ([x] + s)[0] == x && ([x] + s)[1..] == s;
  }

  /** Nothing is kept when no element satisfies the predicate. */
  lemma {:induction false} FilterDropsAll<T(!new)>(s: seq<T>, p: T -> bool)
    requires forall x :: x in s ==> !p(x)
    ensures Filter(s, p) == []
  {
  }

  /** Filtering a prefix gives a prefix of the filtered sequence. */
  lemma {:induction false} FilterPrefix<T(!new)>(s: seq<T>, n: nat, p: T -> bool)
    requires n <= |s|
    ensures |Filter(s[..n], p)| <= |Filter(s, p)|
    ensures Filter(s[..n], p) == Filter(s, p)[..|Filter(s[..n], p)|]
  {
    assert s == s[..n] + s[n..];
    FilterConcat(s[..n], s[n..], p);
  }

  /** Filtering a filtered sequence by a stronger predicate is filtering once. */
  lemma {:induction false} FilterOfFilter<T(!new)>(s: seq<T>, p: T -> bool, q: T -> bool)
    requires forall x :: q(x) ==> p(x)
    ensures Filter(Filter(s, p), q) == Filter(s, q)
    decreases |s|
  {
    if |s| > 0 {
      FilterOfFilter(s[1..], p, q);
    }
  }

  /** Filtering never introduces a duplicate. */
  lemma {:induction false} FilterNoDuplicates<T(!new)>(s: seq<T>, p: T -> bool)
    requires NoDuplicates(s)
    ensures NoDuplicates(Filter(s, p))
    decreases |s|
  {
    if |s| > 0 {
      NoDuplicatesTail(s);
      FilterNoDuplicates(s[1..], p);
      if p(s[0]) {
        NoDuplicatesCons(s[0], Filter(s[1..], p));
      }
    }
  }

  /** The tail of a duplicate-free sequence is duplicate-free and lacks the head. */
  lemma {:induction false} NoDuplicatesTail<T>(s: seq<T>)
    requires |s| > 0 && NoDuplicates(s)
    ensures NoDuplicates(s[1..]) && s[0] !in s[1..]
  {
    forall i, j | 0 <= i < j < |s[1..]| ensures s[1..][i] != s[1..][j] {
      assert s[1..][i] == s[i + 1] && s[1..][j] == s[j + 1];
    }
    forall k | 0 <= k < |s[1..]| ensures s[1..][k] != s[0] {
      assert s[1..][k] == s[k + 1];
    }
  }

  /** Putting an absent element in front keeps a sequence duplicate-free. */
  lemma {:induction false} NoDuplicatesCons<T>(x: T, s: seq<T>)
    requires NoDuplicates(s) && x !in s
    ensures NoDuplicates([x] + s)
  {
    var r := [x] + s;
    forall i, j | 0 <= i < j < |r| ensures r[i] != r[j] {
      assert r[j] == s[j - 1];
      if i > 0 {
        assert r[i] == s[i - 1];
      }
    }
  }

  /** Kotlin `indexOf`: the first index of `x`, or `|s|` when `x` is absent. */
  function IndexOf<T(==)>(s: seq<T>, x: T): (i: nat)
    ensures i <= |s|
    ensures i < |s| <==> x in s
    ensures i < |s| ==> s[i] == x
    ensures forall j :: 0 <= j < i ==> s[j] != x
  {
    if |s| == 0 then 0
    else if s[0] == x then 0
    else 1 + IndexOf(s[1..], x)
  }

  /** The first `x` of `a + [x] + b` is the one after `a` when `a` has none. */
  lemma {:induction false} IndexOfSplit<T>(a: seq<T>, x: T, b: seq<T>)
    requires x !in a
    ensures IndexOf(a + [x] + b, x) == |a|
  {
    var s := a + [x] + b;
    assert s[|a|] == x;
    assert forall j :: 0 <= j < |a| ==> s[j] == a[j];
  }

  /** Kotlin `indexOfFirst` / `find`: the first index whose element satisfies `p`,
      or `|s|` when none does. */
  function IndexWhere<T>(s: seq<T>, p: T -> bool): (i: nat)
    ensures i <= |s|
    ensures i < |s| ==> p(s[i])
    ensures forall j :: 0 <= j < i ==> !p(s[j])
  {
    if |s| == 0 then 0
    else if p(s[0]) then 0
    else 1 + IndexWhere(s[1..], p)
  }

  /** Kotlin `List - element` and `MutableList.remove(element)`: drop the first
      occurrence of `x`, if any. */
  function RemoveFirst<T(==)>(s: seq<T>, x: T): (r: seq<T>)
    ensures x !in s ==> r == s
    ensures x in s ==> r == s[..IndexOf(s, x)] + s[IndexOf(s, x) + 1..]
  {
    if |s| == 0 then []
    else if s[0] == x then
      assert s == [x] + s[1..];
      s[1..]
    else
      var rest := RemoveFirst(s[1..], x);
      RemoveFirstStep(s, x);
      [s[0]] + rest
  }

  /** Cutting out the first `x` commutes with putting back a head that is not `x`. */
  lemma {:induction false} RemoveFirstStep<T>(s: seq<T>, x: T)
    requires |s| > 0 && s[0] != x
    ensures x in s ==> var j := IndexOf(s[1..], x);
      IndexOf(s, x) == j + 1 &&
      [s[0]] + (s[1..][..j] + s[1..][j + 1..]) == s[..j + 1] + s[j + 2..]
  {
    if x in s {
      var t := s[1..];
      assert x in t by { assert s == [s[0]] + t; }
      var j := IndexOf(t, x);
      assert t[..j] == s[1..j + 1] && t[j + 1..] == s[j + 2..];
      assert [s[0]] + s[1..j + 1] == s[..j + 1];
    }
  }

  /** Removing the first occurrence takes exactly one copy of `x` out of the
      multiset of elements (none when `x` is absent). */
  lemma {:induction false} RemoveFirstMultiset<T>(s: seq<T>, x: T)
    ensures multiset(RemoveFirst(s, x)) == multiset(s) - multiset{x}
    decreases |s|
  {
    if |s| > 0 {
      assert s == [s[0]] + s[1..];
      if s[0] != x {
        RemoveFirstMultiset(s[1..], x);
        assert RemoveFirst(s, x) == [s[0]] + RemoveFirst(s[1..], x);
      }
    }
  }

  /** Appending an element and removing it again restores the sequence. */
  lemma {:induction false} RemoveFirstOfAppended<T>(s: seq<T>, x: T)
    requires x !in s
    ensures RemoveFirst(s + [x], x) == s
  {
    assert IndexOf(s + [x], x) == |s| by {
      assert (s + [x])[|s|] == x;
      forall j | 0 <= j < |s| ensures (s + [x])[j] != x {
        assert (s + [x])[j] == s[j];
      }
    }
    assert (s + [x])[..|s|] == s;
  }

  /** Removing from a duplicate-free sequence removes the element entirely and
      keeps the sequence duplicate-free. */
  lemma {:induction false} RemoveFirstNoDuplicates<T>(s: seq<T>, x: T)
    requires NoDuplicates(s)
    ensures x !in RemoveFirst(s, x)
    ensures NoDuplicates(RemoveFirst(s, x))
    decreases |s|
  {
    if |s| > 0 {
      NoDuplicatesTail(s);
      if s[0] != x {
        var rest := RemoveFirst(s[1..], x);
        RemoveFirstNoDuplicates(s[1..], x);
        RemoveFirstMultiset(s[1..], x);
        assert s[0] !in rest by {
          assert multiset(rest)[s[0]] <= multiset(s[1..])[s[0]];
        }
        NoDuplicatesCons(s[0], rest);
        assert RemoveFirst(s, x) == [s[0]] + rest;
      }
    }
  }

  /** A prefix takes no element more often than the whole sequence has it. */
  lemma {:induction false} PrefixMultiset<T>(s: seq<T>, n: nat)
    requires n <= |s|
    ensures multiset(s[..n]) <= multiset(s)
  {
    assert s == s[..n] + s[n..];
  }

  /** Adding an element that is absent keeps a sequence duplicate-free. */
  lemma {:induction false} AppendNoDuplicates<T>(s: seq<T>, x: T)
    requires NoDuplicates(s) && x !in s
    ensures NoDuplicates(s + [x])
  {
    var r := s + [x];
    forall a, b | 0 <= a < b < |r| ensures r[a] != r[b] {
      assert r[a] == s[a];
      if b == |s| { assert r[b] == x; } else { assert r[b] == s[b]; }
    }
  }

  /** The distinct elements of `s` in order of first appearance (the key order
      of Kotlin's `groupBy`, which keeps insertion order). */
  function Distinct<T(==,!new)>(s: seq<T>): (r: seq<T>)
    ensures NoDuplicates(r)
    ensures forall x :: x in r <==> x in s
    ensures forall i, j :: 0 <= i < j < |r| ==> IndexOf(s, r[i]) < IndexOf(s, r[j])
  {
    if |s| == 0 then []
    else
      var init := s[..|s| - 1];
      var last := s[|s| - 1];
      var keys := Distinct(init);
      assert s == init + [last];
      IndexOfExtend(init, last);
      if last in keys then keys
      else
        AppendNoDuplicates(keys, last);
        keys + [last]
  }

  /** Extending a sequence does not move the first occurrence of what it
      already holds, and puts anything new at the end. */
  lemma {:induction false} IndexOfExtend<T>(s: seq<T>, y: T)
    ensures forall x :: x in s ==> IndexOf(s + [y], x) == IndexOf(s, x)
    ensures y !in s ==> IndexOf(s + [y], y) == |s|
  {
    forall x | x in s ensures IndexOf(s + [y], x) == IndexOf(s, x) {
      var i := IndexOf(s, x);
      var k := IndexOf(s + [y], x);
      assert (s + [y])[i] == x;
    }
    if y !in s {
      assert (s + [y])[|s|] == y;
      forall j | 0 <= j < |s| ensures (s + [y])[j] != y {
        assert (s + [y])[j] == s[j];
      }
    }
  }

  /** Kotlin `sumOf(f)`: the sum of `f` over the list. */
  function SumOf<T>(s: seq<T>, f: T -> int): (r: int)
    ensures (forall x :: x in s ==> f(x) >= 0) ==> r >= 0
    ensures (forall x :: x in s ==> f(x) > 0) ==> r >= |s|
  {
    if |s| == 0 then 0
    else
      assert forall x :: x in s[1..] ==> x in s;
      f(s[0]) + SumOf(s[1..], f)
  }

  /** The sum grows by exactly `f` of an appended element. */
  lemma {:induction false} SumOfAppend<T>(s: seq<T>, x: T, f: T -> int)
    ensures SumOf(s + [x], f) == SumOf(s, f) + f(x)
    decreases |s|
  {
    if |s| > 0 {
      assert (s + [x])[1..] == s[1..] + [x];
      SumOfAppend(s[1..], x, f);
    } else {
      assert (s + [x])[1..] == [];
    }
  }

  /** When every term lies between `lo` and `hi`, the sum lies between
      `|s| * lo` and `|s| * hi`. */
  lemma {:induction false} SumOfBounds<T>(s: seq<T>, f: T -> int, lo: int, hi: int)
    requires forall x :: x in s ==> lo <= f(x) <= hi
    ensures |s| * lo <= SumOf(s, f) <= |s| * hi
    decreases |s|
  {
    if |s| > 0 {
      assert forall x :: x in s[1..] ==> x in s;
      SumOfBounds(s[1..], f, lo, hi);
      MulStep(|s| - 1, lo);
      MulStep(|s| - 1, hi);
    }
  }

  lemma MulStep(n: int, x: int)
    ensures (n + 1) * x == n * x + x
  {
  }
}
