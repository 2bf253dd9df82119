/**
 * Sequence operations shared by the pages: JavaScript's `Array.prototype.filter`,
 * the index-based removal `xs.filter((_, i) => i !== index)`, and the
 * subsequence and no-duplicates relations used to state what they keep.
 */
module Lists {

  /** `a` is obtained from `b` by deleting elements, keeping the rest in order. */
  predicate IsSubsequence<T(==)>(a: seq<T>, b: seq<T>)
    decreases |b|
  {
    if a == [] then true
    else if b == [] then false
    else if a[0] == b[0] then IsSubsequence(a[1..], b[1..])
    else IsSubsequence(a, b[1..])
  }

  predicate NoDuplicates<T(==)>(xs: seq<T>)
  {
    forall i, j :: 0 <= i < j < |xs| ==> xs[i] != xs[j]
  }

  /** `xs.filter(p)`: the elements satisfying `p`, in their original order. */
  function Filter<T(==,!new)>(xs: seq<T>, p: T -> bool): (r: seq<T>)
    ensures |r| <= |xs|
    ensures IsSubsequence(r, xs)
    ensures forall x :: x in r <==> x in xs && p(x)
    ensures forall x :: multiset(r)[x] == if p(x) then multiset(xs)[x] else 0
  {
    if xs == [] then []
    else
      assert xs == [xs[0]] + xs[1..];
      if p(xs[0]) then [xs[0]] + Filter(xs[1..], p)
      else Filter(xs[1..], p)
  }

  /** Filtering out an element that occurs makes the list shorter. */
  lemma {:induction false} FilterDropsOne<T(!new)>(xs: seq<T>, p: T -> bool, x: T)
    requires x in xs && !p(x)
    ensures |Filter(xs, p)| < |xs|
  {
    if xs[0] != x {
      assert x in xs[1..];
      FilterDropsOne(xs[1..], p, x);
    }
  }

  /** Filtering with a predicate that holds everywhere on `xs` keeps all of `xs`. */
  lemma {:induction false} FilterKeepsAll<T(!new)>(xs: seq<T>, p: T -> bool)
    requires forall x :: x in xs ==> p(x)
    ensures Filter(xs, p) == xs
  {
    if xs != [] {
      assert forall x :: x in xs[1..] ==> x in xs;
      FilterKeepsAll(xs[1..], p);
    }
  }

  /** Filtering twice with the same predicate is the same as filtering once. */
  lemma FilterIdempotent<T(!new)>(xs: seq<T>, p: T -> bool)
    ensures Filter(Filter(xs, p), p) == Filter(xs, p)
  {
    FilterKeepsAll(Filter(xs, p), p);
  }

  /**
   * `xs.filter((_, i) => i !== index)`: every element whose position differs
   * from `index`. Written as the filter it is (scanning from the end), its
   * contract says it removes exactly one slot when `index` is in range and
   * nothing otherwise.
   */
  function WithoutIndex<T>(xs: seq<T>, index: int): (r: seq<T>)
    ensures 0 <= index < |xs| ==> r == xs[..index] + xs[index + 1..]
    ensures !(0 <= index < |xs|) ==> r == xs
  {
    if xs == [] then []
    else
      var n := |xs| - 1;
      WithoutIndex(xs[..n], index) + (if n == index then [] else [xs[n]])
  }

  /** Removing one slot keeps the others in order. */
  lemma {:induction false} WithoutIndexIsSubsequence<T>(xs: seq<T>, index: int)
    ensures IsSubsequence(WithoutIndex(xs, index), xs)
  {
    if 0 <= index < |xs| {
      SliceJoinIsSubsequence(xs, index);
    } else {
      SubsequenceReflexive(xs);
    }
  }

  lemma {:induction false} SubsequenceReflexive<T>(xs: seq<T>)
    ensures IsSubsequence(xs, xs)
  {
    if xs != [] {
      SubsequenceReflexive(xs[1..]);
    }
  }

  lemma {:induction false} SliceJoinIsSubsequence<T>(xs: seq<T>, index: nat)
    requires index < |xs|
    ensures IsSubsequence(xs[..index] + xs[index + 1..], xs)
    decreases index
  {
    var r := xs[..index] + xs[index + 1..];
    if index == 0 {
      assert r == xs[1..];
      SubsequenceOfTail(xs);
    } else {
      assert r[0] == xs[0];
      assert r[1..] == xs[1..][..index - 1] + xs[1..][index..];
      SliceJoinIsSubsequence(xs[1..], index - 1);
    }
  }

  /** A sequence minus its head is a subsequence of itself. */
  lemma {:induction false} SubsequenceOfTail<T>(xs: seq<T>)
    requires xs != []
    ensures IsSubsequence(xs[1..], xs)
  {
    SubsequenceDropHead(xs[1..], xs);
  }

  lemma {:induction false} SubsequenceDropHead<T>(a: seq<T>, b: seq<T>)
    requires b != [] && a == b[1..]
    ensures IsSubsequence(a, b)
    decreases |b|
  {
    if a != [] {
      if a[0] == b[0] {
        SubsequenceDropHead(a[1..], b[1..]);
      } else {
        SubsequenceReflexive(a);
      }
    }
  }

  /** Removing an element keeps a list free of duplicates. */
  lemma SubsequenceKeepsNoDuplicates<T>(a: seq<T>, b: seq<T>)
    requires IsSubsequence(a, b) && NoDuplicates(b)
    ensures NoDuplicates(a)
    decreases |b|
  {
    if a != [] && b != [] {
      if a[0] == b[0] {
        SubsequenceKeepsNoDuplicates(a[1..], b[1..]);
        SubsequenceMembers(a[1..], b[1..]);
        forall j | 0 < j < |a| ensures a[0] != a[j] {
          assert a[j] in a[1..];
        }
      } else {
        SubsequenceKeepsNoDuplicates(a, b[1..]);
      }
    }
  }

  /** Every element of a subsequence is an element of the whole. */
  lemma SubsequenceMembers<T>(a: seq<T>, b: seq<T>)
    requires IsSubsequence(a, b)
    ensures forall x :: x in a ==> x in b
    decreases |b|
  {
    if a != [] && b != [] {
      if a[0] == b[0] {
        SubsequenceMembers(a[1..], b[1..]);
        assert forall x :: x in a ==> x == a[0] || x in a[1..];
      } else {
        SubsequenceMembers(a, b[1..]);
      }
      assert forall x :: x in b[1..] ==> x in b;
    }
  }
}
