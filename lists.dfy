/**
 * Sequence operations that the client code performs with `Array.prototype.filter`
 * and `slice`: keeping the elements a predicate accepts, dropping one index,
 * and taking a prefix.
 */
module Lists {

  /** `r` is an ordered subsequence of `xs`: `r` can be obtained by deleting elements of `xs`. */
  ghost predicate IsSubsequence<T>(r: seq<T>, xs: seq<T>)
    decreases |xs|
  {
    if |r| == 0 then true
    else if |xs| == 0 then false
    else if r[0] == xs[0] then IsSubsequence(r[1..], xs[1..])
    else IsSubsequence(r, xs[1..])
  }

  /** `xs.filter(p)`. */
  function Filter<T>(xs: seq<T>, p: T -> bool): (r: seq<T>)
    ensures |r| <= |xs|
    ensures forall i | 0 <= i < |r| :: p(r[i]) && r[i] in xs
    ensures forall i | 0 <= i < |xs| :: p(xs[i]) ==> xs[i] in r
    ensures (forall i | 0 <= i < |xs| :: p(xs[i])) ==> r == xs
    decreases |xs|
  {
    if |xs| == 0 then []
    else
      assert xs == [xs[0]] + xs[1..];
      if p(xs[0]) then [xs[0]] + Filter(xs[1..], p) else Filter(xs[1..], p)
  }

  /** `filter` keeps each accepted element as many times as it occurs, and no rejected one. */
  lemma {:induction false} FilterCount<T>(xs: seq<T>, p: T -> bool, x: T)
    ensures multiset(Filter(xs, p))[x] == if p(x) then multiset(xs)[x] else 0
    decreases |xs|
  {
    if |xs| > 0 {
      FilterCount(xs[1..], p, x);
      assert xs == [xs[0]] + xs[1..];
    }
  }

  /** `FilterCount` for every element of the input; so what `filter` keeps is a sub-multiset of the input. */
  lemma FilterCounts<T>(xs: seq<T>, p: T -> bool)
    ensures forall x | x in xs :: multiset(Filter(xs, p))[x] == if p(x) then multiset(xs)[x] else 0
    ensures multiset(Filter(xs, p)) <= multiset(xs)
  {
    forall x
      ensures multiset(Filter(xs, p))[x] == if p(x) then multiset(xs)[x] else 0
    {
      FilterCount(xs, p, x);
    }
  }

  /** What `filter` keeps is in the order of the input: an ordered subsequence. */
  lemma {:induction false} FilterIsSubsequence<T>(xs: seq<T>, p: T -> bool)
    ensures IsSubsequence(Filter(xs, p), xs)
    decreases |xs|
  {
    if |xs| > 0 {
      FilterIsSubsequence(xs[1..], p);
      var r := Filter(xs, p);
      if p(xs[0]) {
        assert r[0] == xs[0] && r[1..] == Filter(xs[1..], p);
      } else if |r| > 0 {
        SubsequenceOfTail(r, xs);
      }
    }
  }

  /** A subsequence of the tail is a subsequence of the whole sequence. */
  lemma {:induction false} SubsequenceOfTail<T>(r: seq<T>, xs: seq<T>)
    requires |xs| > 0 && IsSubsequence(r, xs[1..])
    ensures IsSubsequence(r, xs)
    decreases |xs|
  {
    if |r| > 0 && r[0] == xs[0] {
      // r[0] also occurs somewhere in xs[1..]; skip past it on both sides
      SubsequenceDrop(r, xs[1..]);
      SubsequenceOfTail(r[1..], xs[1..]);
    }
  }

  /** Dropping the head of a non-empty subsequence keeps it a subsequence of the tail. */
  lemma {:induction false} SubsequenceDrop<T>(r: seq<T>, xs: seq<T>)
    requires |r| > 0 && IsSubsequence(r, xs)
    ensures |xs| > 0 && IsSubsequence(r[1..], xs[1..])
    decreases |xs|
  {
    if r[0] != xs[0] {
      SubsequenceDrop(r, xs[1..]);
      SubsequenceOfTail(r[1..], xs[1..]);
    }
  }

  /**
   * `xs.filter((_, j) => j !== i)`: the element at index `i` is dropped when
   * `i` is an index of `xs`; any other `i` keeps the whole sequence.
   */
  function RemoveAt<T>(xs: seq<T>, i: int): (r: seq<T>)
    ensures r == if 0 <= i < |xs| then xs[..i] + xs[i + 1..] else xs
    decreases |xs|
  {
    if |xs| == 0 then []
    else if i == 0 then xs[1..]
    else [xs[0]] + RemoveAt(xs[1..], i - 1)
  }

  /** `xs.slice(0, n)` for a non-negative `n`. */
  function Take<T>(xs: seq<T>, n: nat): (r: seq<T>)
    ensures |r| == if n < |xs| then n else |xs|
    ensures r <= xs
  {
    if n < |xs| then xs[..n] else xs
  }

  /** `xs.map(f)`. */
  function Map<T, U>(xs: seq<T>, f: T -> U): (r: seq<U>)
    ensures |r| == |xs|
    ensures forall i | 0 <= i < |xs| :: r[i] == f(xs[i])
  {
    seq(|xs|, i requires 0 <= i < |xs| => f(xs[i]))
  }

  /** Mapping a sequence with a leading element maps that element first. */
  lemma MapCons<T, U>(x: T, xs: seq<T>, f: T -> U)
    ensures Map([x] + xs, f) == [f(x)] + Map(xs, f)
  {
    var l, r := Map([x] + xs, f), [f(x)] + Map(xs, f);
    forall i | 0 <= i < |l| ensures l[i] == r[i] {
      if i > 0 {
        assert ([x] + xs)[i] == xs[i - 1];
      }
    }
  }

  /** An element of the tail part whose image is `y` is still there after a prefix is put in front. */
  lemma HitInSuffix<T, U>(first: seq<T>, rest: seq<T>, f: T -> U, y: U)
    requires exists i | 0 <= i < |rest| :: f(rest[i]) == y
    ensures exists i | 0 <= i < |first + rest| :: f((first + rest)[i]) == y
  {
    var i :| 0 <= i < |rest| && f(rest[i]) == y;
    assert (first + rest)[|first| + i] == rest[i];
  }

  /** No element occurs twice. */
  predicate Distinct<T(==)>(xs: seq<T>) {
    forall i, j | 0 <= i < j < |xs| :: xs[i] != xs[j]
  }

  /** The set of a sequence's elements. */
  function Elements<T(==)>(xs: seq<T>): set<T> {
    set x | x in xs
  }

  /** A sequence has at least as many positions as distinct elements, and exactly as many when none repeats. */
  lemma {:induction false} ElementsCount<T>(xs: seq<T>)
    ensures |Elements(xs)| <= |xs|
    ensures |Elements(xs)| == |xs| <==> Distinct(xs)
    decreases |xs|
  {
    if |xs| > 0 {
      var tail := xs[1..];
      ElementsCount(tail);
      if xs[0] in tail {
        assert Elements(xs) == Elements(tail);
        var j :| 0 <= j < |tail| && tail[j] == xs[0];
        assert xs[0] == xs[j + 1];
      } else {
        assert Elements(xs) == Elements(tail) + {xs[0]};
        if Distinct(tail) {
          forall i, j | 0 <= i < j < |xs| ensures xs[i] != xs[j] {
            if i == 0 { assert xs[j] == tail[j - 1]; } else { assert xs[i] == tail[i - 1] && xs[j] == tail[j - 1]; }
          }
        }
        if Distinct(xs) {
          forall i, j | 0 <= i < j < |tail| ensures tail[i] != tail[j] {
            assert tail[i] == xs[i + 1] && tail[j] == xs[j + 1];
          }
        }
      }
    }
  }

  /** A subset has no more elements than its superset. */
  lemma SubsetCount<T>(a: set<T>, b: set<T>)
    requires a <= b
    ensures |a| <= |b|
  {
    assert b == a + (b - a);
  }

  /** A proper subset has fewer elements. */
  lemma ProperSubsetCount<T>(a: set<T>, b: set<T>)
    requires a < b
    ensures |a| < |b|
  {
    assert b == a + (b - a);
    assert b - a != {};
  }
}
