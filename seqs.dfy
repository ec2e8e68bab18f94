/**
 * Sequence helpers shared by the pages: `Array.prototype.filter` and the
 * order-preserving subsequence relation it produces.
 */
module Seqs {

  /** `xs.filter(p)`: the elements of `xs` that satisfy `p`, in their original order. */
  function Filter<T>(xs: seq<T>, p: T -> bool): (r: seq<T>)
    ensures |r| <= |xs|
    ensures forall i :: 0 <= i < |r| ==> r[i] in xs && p(r[i])
    ensures forall i :: 0 <= i < |xs| && p(xs[i]) ==> xs[i] in r
  {
    if xs == [] then []
    else if p(xs[0]) then [xs[0]] + Filter(xs[1..], p)
    else Filter(xs[1..], p)
  }

  /**
   * `a` can be obtained from `b` by deleting elements: every element of `a`
   * occurs in `b`, and in the same relative order.
   */
  predicate IsSubsequence<T(==)>(a: seq<T>, b: seq<T>)
    decreases |b|
  {
    a == [] || (b != [] && ((a[0] == b[0] && IsSubsequence(a[1..], b[1..])) || IsSubsequence(a, b[1..])))
  }

  /** An element of the input is kept exactly when it satisfies the predicate. */
  lemma FilterMembership<T>(xs: seq<T>, p: T -> bool)
    ensures forall i :: 0 <= i < |xs| ==> (xs[i] in Filter(xs, p) <==> p(xs[i]))
  {
    forall i | 0 <= i < |xs| && xs[i] in Filter(xs, p)
      ensures p(xs[i])
    {
      var r := Filter(xs, p);
      var j :| 0 <= j < |r| && r[j] == xs[i];
    }
  }

  /** A filter result is an order-preserving subsequence of its input. */
  lemma {:induction false} FilterIsSubsequence<T>(xs: seq<T>, p: T -> bool)
    ensures IsSubsequence(Filter(xs, p), xs)
  {
    if xs != [] {
      FilterIsSubsequence(xs[1..], p);
      if p(xs[0]) {
        assert Filter(xs, p)[1..] == Filter(xs[1..], p);
      }
    }
  }

  /** A subsequence is never longer than the sequence it was taken from. */
  lemma {:induction false} SubsequenceLength<T>(a: seq<T>, b: seq<T>)
    requires IsSubsequence(a, b)
    ensures |a| <= |b|
    decreases |b|
  {
    if a != [] {
      if a[0] == b[0] && IsSubsequence(a[1..], b[1..]) {
        SubsequenceLength(a[1..], b[1..]);
      } else {
        SubsequenceLength(a, b[1..]);
      }
    }
  }

  /** A filter whose predicate holds everywhere keeps the whole sequence. */
  lemma {:induction false} FilterKeepsAll<T>(xs: seq<T>, p: T -> bool)
    requires forall i :: 0 <= i < |xs| ==> p(xs[i])
    ensures Filter(xs, p) == xs
  {
    if xs != [] {
      FilterKeepsAll(xs[1..], p);
    }
  }

  /** Filtering by a predicate that no element satisfies leaves nothing. */
  lemma FilterKeepsNone<T>(xs: seq<T>, p: T -> bool)
    requires forall i :: 0 <= i < |xs| ==> !p(xs[i])
    ensures Filter(xs, p) == []
  {
    var r := Filter(xs, p);
    if r != [] {
      var j :| 0 <= j < |xs| && xs[j] == r[0];
      assert false;
    }
  }

  /** Two predicates that agree on every element of `xs` select the same elements. */
  lemma {:induction false} FilterCongruent<T>(xs: seq<T>, p: T -> bool, q: T -> bool)
    requires forall i :: 0 <= i < |xs| ==> p(xs[i]) == q(xs[i])
    ensures Filter(xs, p) == Filter(xs, q)
  {
    if xs != [] {
      FilterCongruent(xs[1..], p, q);
    }
  }

  /** Filtering by `p` and by its negation splits `xs` into two parts that together are `xs`. */
  lemma {:induction false} FilterPartition<T>(xs: seq<T>, p: T -> bool, q: T -> bool)
    requires forall x :: q(x) == !p(x)
    ensures multiset(Filter(xs, p)) + multiset(Filter(xs, q)) == multiset(xs)
    ensures |Filter(xs, p)| + |Filter(xs, q)| == |xs|
  {
    if xs != [] {
      FilterPartition(xs[1..], p, q);
      assert xs == [xs[0]] + xs[1..];
    }
  }

  /** The number of elements of `xs` that satisfy `p`. */
  function Count<T>(xs: seq<T>, p: T -> bool): nat {
    if xs == [] then 0 else (if p(xs[|xs| - 1]) then 1 else 0) + Count(xs[..|xs| - 1], p)
  }

  /** A filter keeps as many elements as satisfy its predicate. */
  lemma {:induction false} FilterLengthIsCount<T>(xs: seq<T>, p: T -> bool)
    ensures |Filter(xs, p)| == Count(xs, p)
    decreases |xs|
  {
    if xs != [] {
      var n := |xs| - 1;
      var init := xs[..n];
      FilterLengthIsCount(init, p);
      assert xs == init + [xs[n]];
      FilterAppend(init, [xs[n]], p);
      assert [xs[n]][1..] == [];
    }
  }

  /** Filtering distributes over concatenation. */
  lemma {:induction false} FilterAppend<T>(a: seq<T>, b: seq<T>, p: T -> bool)
    ensures Filter(a + b, p) == Filter(a, p) + Filter(b, p)
    decreases |a|
  {
    if a != [] {
      var ab := a + b;
      assert ab[0] == a[0] && ab[1..] == a[1..] + b;
      FilterAppend(a[1..], b, p);
      FilterStep(ab, p);
      FilterStep(a, p);
    } else {
      assert a + b == b;
    }
  }

  /** One step of `Filter`: the head, if it is kept, before the filtered tail. */
  lemma FilterStep<T>(xs: seq<T>, p: T -> bool)
    requires xs != []
    ensures Filter(xs, p) == (if p(xs[0]) then [xs[0]] else []) + Filter(xs[1..], p)
  {
  }

  /** Exactly one of `p`, `q` and `s` holds of `x`. */
  predicate ExactlyOne<T>(p: T -> bool, q: T -> bool, s: T -> bool, x: T) {
    (p(x) && !q(x) && !s(x)) || (!p(x) && q(x) && !s(x)) || (!p(x) && !q(x) && s(x))
  }

  /** One step of `Filter`, counted as a multiset. */
  lemma FilterStepMultiset<T>(xs: seq<T>, p: T -> bool)
    requires xs != []
    ensures multiset(Filter(xs, p)) ==
              (if p(xs[0]) then multiset{xs[0]} else multiset{}) + multiset(Filter(xs[1..], p))
  {
    FilterStep(xs, p);
  }

  /** Three predicates of which exactly one holds of each element split `xs` into three parts. */
  lemma {:induction false} FilterPartition3<T>(xs: seq<T>, p: T -> bool, q: T -> bool, s: T -> bool)
    requires forall i :: 0 <= i < |xs| ==> ExactlyOne(p, q, s, xs[i])
    ensures multiset(Filter(xs, p)) + multiset(Filter(xs, q)) + multiset(Filter(xs, s)) == multiset(xs)
  {
    if xs != [] {
      var x, t := xs[0], xs[1..];
      assert forall i :: 0 <= i < |t| ==> ExactlyOne(p, q, s, t[i]) by {
        forall i | 0 <= i < |t| ensures ExactlyOne(p, q, s, t[i]) {
          assert t[i] == xs[i + 1];
        }
      }
      FilterPartition3(t, p, q, s);
      assert multiset(xs) == multiset{x} + multiset(t) by {
        assert xs == [x] + t;
      }
      FilterStepMultiset(xs, p);
      FilterStepMultiset(xs, q);
      FilterStepMultiset(xs, s);
      AddToOneOfThree(x, p(x), q(x), s(x),
        multiset(Filter(t, p)), multiset(Filter(t, q)), multiset(Filter(t, s)), multiset(t));
    }
  }

  /** Adding `x` to exactly one of three parts whose union is `m` adds it to `m`. */
  lemma AddToOneOfThree<T>(x: T, inA: bool, inB: bool, inC: bool,
                           a: multiset<T>, b: multiset<T>, c: multiset<T>, m: multiset<T>)
    requires (inA && !inB && !inC) || (!inA && inB && !inC) || (!inA && !inB && inC)
    requires a + b + c == m
    ensures ((if inA then multiset{x} else multiset{}) + a) + ((if inB then multiset{x} else multiset{}) + b) +
            ((if inC then multiset{x} else multiset{}) + c) == multiset{x} + m
  {
  }

  /** The three parts of such a split together are as long as `xs`. */
  lemma FilterPartition3Length<T>(xs: seq<T>, p: T -> bool, q: T -> bool, s: T -> bool)
    requires forall i :: 0 <= i < |xs| ==> ExactlyOne(p, q, s, xs[i])
    ensures |Filter(xs, p)| + |Filter(xs, q)| + |Filter(xs, s)| == |xs|
  {
    FilterPartition3(xs, p, q, s);
    assert |multiset(Filter(xs, p)) + multiset(Filter(xs, q)) + multiset(Filter(xs, s))| == |multiset(xs)|;
  }
}
