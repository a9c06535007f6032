/** Sequence helpers: tables are sequences of rows in storage order. */
module Seqs {

  /** No element occurs twice, as in a column with a primary-key constraint. */
  predicate NoDuplicates<T(==)>(xs: seq<T>) {
    forall i, j :: 0 <= i < j < |xs| ==> xs[i] != xs[j]
  }

  /** In a sequence without duplicates, equal elements sit at one index. */
  lemma NoDuplicatesIndex<T>(xs: seq<T>, i: int, j: int)
    requires NoDuplicates(xs)
    requires 0 <= i < |xs| && 0 <= j < |xs| && xs[i] == xs[j]
    ensures i == j
  {
  }

  function Min(a: int, b: int): int {
    if a <= b then a else b
  }

  function Max(a: int, b: int): int {
    if a <= b then b else a
  }

  /** Applies `f` to every element, keeping positions. */
  function MapSeq<T, U>(f: T -> U, xs: seq<T>): (r: seq<U>)
    ensures |r| == |xs|
    ensures forall i :: 0 <= i < |xs| ==> r[i] == f(xs[i])
  {
    seq(|xs|, i requires 0 <= i < |xs| => f(xs[i]))
  }

  /** Appending rows that share no element with the existing ones keeps
      a column free of duplicates. */
  lemma NoDuplicatesConcat<T>(a: seq<T>, b: seq<T>)
    requires NoDuplicates(a) && NoDuplicates(b)
    requires forall i, j :: 0 <= i < |a| && 0 <= j < |b| ==> a[i] != b[j]
    ensures NoDuplicates(a + b)
  {
  }

  /** The elements of `xs` satisfying `p`, in their original order. */
  function Filter<T(!new)>(xs: seq<T>, p: T -> bool): (r: seq<T>)
    ensures |r| <= |xs|
    ensures forall x :: x in r <==> x in xs && p(x)
    ensures (forall x :: x in xs ==> !p(x)) ==> r == []
  {
    if |xs| == 0 then []
    else if p(xs[0]) then [xs[0]] + Filter(xs[1..], p)
    else Filter(xs[1..], p)
  }

  lemma ConcatAssoc<T>(a: seq<T>, b: seq<T>, c: seq<T>)
    ensures a + (b + c) == (a + b) + c
  {
  }

  /** Filtering distributes over concatenation. */
  lemma {:induction false} FilterConcat<T(!new)>(a: seq<T>, b: seq<T>, p: T -> bool)
    ensures Filter(a + b, p) == Filter(a, p) + Filter(b, p)
  {
    if |a| == 0 {
      assert a + b == b;
    } else {
      var x, rest := a[0], a[1..];
      assert (a + b)[0] == x;
      assert (a + b)[1..] == rest + b;
      FilterConcat(rest, b, p);
      if p(x) {
        ConcatAssoc([x], Filter(rest, p), Filter(b, p));
      }
    }
  }

  lemma FilterSingleton<T(!new)>(x: T, p: T -> bool)
    ensures Filter([x], p) == if p(x) then [x] else []
  {
    assert [x][1..] == [];
  }

  /** Rows the predicate rejects contribute nothing in front of others. */
  lemma FilterAfterNone<T(!new)>(xs: seq<T>, ys: seq<T>, p: T -> bool)
    requires forall x :: x in xs ==> !p(x)
    ensures Filter(xs + ys, p) == Filter(ys, p)
  {
    FilterConcat(xs, ys, p);
    assert Filter(xs, p) == [];
    assert [] + Filter(ys, p) == Filter(ys, p);
  }

  /** Two predicates that agree on every element of `xs` select the same rows. */
  lemma {:induction false} FilterCongruence<T(!new)>(xs: seq<T>, p: T -> bool, q: T -> bool)
    requires forall x :: x in xs ==> p(x) == q(x)
    ensures Filter(xs, p) == Filter(xs, q)
  {
    if |xs| > 0 {
      assert xs[0] in xs;
      assert forall x :: x in xs[1..] ==> x in xs;
      FilterCongruence(xs[1..], p, q);
    }
  }

  /** SQL `DISTINCT`: keeps the first occurrence of every element. */
  function Distinct<T(==,!new)>(xs: seq<T>): (r: seq<T>)
    ensures NoDuplicates(r)
    ensures forall x :: x in r <==> x in xs
    ensures |r| <= |xs|
    ensures NoDuplicates(xs) ==> r == xs
  {
    if |xs| == 0 then []
    else
      var init := xs[..|xs| - 1];
      var last := xs[|xs| - 1];
      assert xs == init + [last];
      var d := Distinct(init);
      if last in d then d else d + [last]
  }

  /** SQL `OFFSET offset LIMIT limit` over rows in storage order. */
  function Window<T>(xs: seq<T>, offset: nat, limit: nat): (r: seq<T>)
    ensures |r| <= limit
    ensures forall i :: 0 <= i < |r| ==> offset + i < |xs| && r[i] == xs[offset + i]
    ensures |r| == limit || offset + |r| >= |xs|
    ensures NoDuplicates(xs) ==> NoDuplicates(r)
  {
    if offset >= |xs| then [] else xs[offset .. offset + Min(limit, |xs| - offset)]
  }
}
