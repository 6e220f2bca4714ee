/**
 * Generic sequence operations behind the document model and the templates'
 * region splits: `Array.prototype.filter` by element or by index, and the
 * order-preserving sub-sequence relation used to state that a split keeps
 * the original section order.
 */
module Seqs {

  /** `s.filter(p)`: the elements of `s` that satisfy `p`, in their original order. */
  function Filter<T>(p: T -> bool, s: seq<T>): (r: seq<T>)
    ensures |r| <= |s|
    ensures forall x :: x in r ==> x in s && p(x)
    decreases |s|
  {
    if s == [] then [] else (if p(s[0]) then [s[0]] else []) + Filter(p, s[1..])
  }

  /** `a` is `s` with some elements left out and the rest in their original order. */
  ghost predicate IsSubseq<T>(a: seq<T>, s: seq<T>)
    decreases |s|
  {
    if a == [] then true
    else if s == [] then false
    else (a[0] == s[0] && IsSubseq(a[1..], s[1..])) || IsSubseq(a, s[1..])
  }

  /**
   * `a` and `b` split `s`: every element of `s` lands in exactly one of them
   * (counting repeats) and each keeps the order it had in `s`.
   */
  ghost predicate Partitions<T>(s: seq<T>, a: seq<T>, b: seq<T>)
  {
    && multiset(a) + multiset(b) == multiset(s)
    && IsSubseq(a, s)
    && IsSubseq(b, s)
  }

  lemma {:induction false} SubseqLength<T>(a: seq<T>, s: seq<T>)
    requires IsSubseq(a, s)
    ensures |a| <= |s|
    decreases |s|
  {
    if a != [] {
      if a[0] == s[0] && IsSubseq(a[1..], s[1..]) {
        SubseqLength(a[1..], s[1..]);
      } else {
        SubseqLength(a, s[1..]);
      }
    }
  }

  /** Keeping everything, or nothing, keeps the order. */
  lemma {:induction false} SubseqWhole<T>(s: seq<T>)
    ensures IsSubseq(s, s) && IsSubseq([], s)
    decreases |s|
  {
    if s != [] {
      SubseqWhole(s[1..]);
    }
  }

  /** An element is kept by the filter exactly when it occurs in `s` and satisfies `p`. */
  lemma {:induction false} FilterMembers<T>(p: T -> bool, s: seq<T>)
    ensures forall x :: x in Filter(p, s) <==> x in s && p(x)
    decreases |s|
  {
    if s != [] {
      FilterMembers(p, s[1..]);
      assert s == [s[0]] + s[1..];
    }
  }

  /** The filter keeps every copy of an element that satisfies `p` and no copy of one that does not. */
  lemma {:induction false} FilterCounts<T>(p: T -> bool, s: seq<T>)
    ensures forall x :: multiset(Filter(p, s))[x] == if p(x) then multiset(s)[x] else 0
    decreases |s|
  {
    if s != [] {
      FilterCounts(p, s[1..]);
      assert s == [s[0]] + s[1..];
      assert Filter(p, s) == (if p(s[0]) then [s[0]] else []) + Filter(p, s[1..]);
    }
  }

  lemma {:induction false} FilterIsSubseq<T>(p: T -> bool, s: seq<T>)
    ensures IsSubseq(Filter(p, s), s)
    decreases |s|
  {
    if s != [] {
      FilterIsSubseq(p, s[1..]);
      var rest := Filter(p, s[1..]);
      if p(s[0]) {
        assert Filter(p, s) == [s[0]] + rest;
        assert Filter(p, s)[1..] == rest;
      } else {
        assert Filter(p, s) == rest;
      }
    }
  }

  /** A filter whose predicate holds of every element returns the whole list. */
  lemma {:induction false} FilterKeepsAll<T>(p: T -> bool, s: seq<T>)
    requires forall x :: x in s ==> p(x)
    ensures Filter(p, s) == s
    decreases |s|
  {
    if s != [] {
      assert s[0] in s;
      assert forall x :: x in s[1..] ==> x in s;
      FilterKeepsAll(p, s[1..]);
      assert s == [s[0]] + s[1..];
    }
  }

  /** A filter whose predicate holds of no element returns the empty list. */
  lemma {:induction false} FilterKeepsNone<T>(p: T -> bool, s: seq<T>)
    requires forall x :: x in s ==> !p(x)
    ensures Filter(p, s) == []
    decreases |s|
  {
    if s != [] {
      assert s[0] in s;
      assert forall x :: x in s[1..] ==> x in s;
      FilterKeepsNone(p, s[1..]);
    }
  }

  /**
   * Filtering by a predicate and by its negation partitions the list; the two
   * predicates need only be each other's negation on the list's own elements.
   */
  lemma {:induction false} FilterComplementPartitions<T>(p: T -> bool, q: T -> bool, s: seq<T>)
    requires forall i :: 0 <= i < |s| ==> q(s[i]) == !p(s[i])
    ensures Partitions(s, Filter(p, s), Filter(q, s))
    decreases |s|
  {
    if s != [] {
      FilterComplementPartitions(p, q, s[1..]);
      var a, b := Filter(p, s[1..]), Filter(q, s[1..]);
      if p(s[0]) {
        assert Filter(p, s) == [s[0]] + a;
        assert Filter(q, s) == b;
        PartitionsCons(s, a, b);
      } else {
        assert Filter(p, s) == a;
        assert Filter(q, s) == [s[0]] + b;
        PartitionsCons(s, b, a);
      }
    }
  }

  /**
   * `s.filter((_, i) => i % 2 === parity)` applied to the part of a list that
   * starts at index `from`.
   */
  function ParityFilter<T>(s: seq<T>, from: nat, parity: nat): (r: seq<T>)
    decreases |s|
  {
    if s == [] then []
    else (if from % 2 == parity then [s[0]] else []) + ParityFilter(s[1..], from + 1, parity)
  }

  /**
   * The parity filter keeps every second element: the k-th kept element is
   * `s[2k]` when the first index has the wanted parity and `s[2k + 1]`
   * otherwise, so it keeps ceil(n/2) or floor(n/2) elements.
   */
  lemma {:induction false} ParityFilterAt<T>(s: seq<T>, from: nat, parity: nat)
    requires parity < 2
    ensures var skip := if from % 2 == parity then 0 else 1;
            var r := ParityFilter(s, from, parity);
            && |r| == (|s| + 1 - skip) / 2
            && forall k :: 0 <= k < |r| ==> r[k] == s[2 * k + skip]
    decreases |s|
  {
    if s != [] {
      ParityFilterAt(s[1..], from + 1, parity);
      var r, t := ParityFilter(s, from, parity), ParityFilter(s[1..], from + 1, parity);
      if from % 2 == parity {
        assert (from + 1) % 2 != parity;
        assert r == [s[0]] + t;
        assert |t| == (|s| - 1) / 2;
        forall k | 0 <= k < |r|
          ensures r[k] == s[2 * k]
        {
          if k > 0 {
            assert r[k] == t[k - 1] == s[1..][2 * (k - 1) + 1];
          }
        }
      } else {
        assert (from + 1) % 2 == parity;
        assert r == t;
        assert |t| == |s| / 2;
        forall k | 0 <= k < |r|
          ensures r[k] == s[2 * k + 1]
        {
          assert r[k] == t[k] == s[1..][2 * k];
        }
      }
    }
  }

  /** The even-index and odd-index filters partition the list. */
  lemma {:induction false} ParityFilterPartitions<T>(s: seq<T>, from: nat)
    ensures Partitions(s, ParityFilter(s, from, 0), ParityFilter(s, from, 1))
    decreases |s|
  {
    if s != [] {
      ParityFilterPartitions(s[1..], from + 1);
      var e, o := ParityFilter(s[1..], from + 1, 0), ParityFilter(s[1..], from + 1, 1);
      if from % 2 == 0 {
        assert ParityFilter(s, from, 0) == [s[0]] + e;
        assert ParityFilter(s, from, 1) == o;
        PartitionsCons(s, e, o);
      } else {
        assert ParityFilter(s, from, 0) == e;
        assert ParityFilter(s, from, 1) == [s[0]] + o;
        PartitionsCons(s, o, e);
      }
    }
  }

  /** Putting the head of a list in front of one side of a split of its tail splits the list. */
  lemma PartitionsCons<T>(s: seq<T>, a: seq<T>, b: seq<T>)
    requires s != []
    requires Partitions(s[1..], a, b)
    ensures Partitions(s, [s[0]] + a, b)
    ensures Partitions(s, b, [s[0]] + a)
  {
    assert s == [s[0]] + s[1..];
    assert ([s[0]] + a)[1..] == a;
    assert IsSubseq([s[0]] + a, s);
    assert IsSubseq(b, s);
  }

  /** `s.filter((_, i) => i !== index)` applied to the part of a list that starts at index `from`. */
  function DropIndex<T>(s: seq<T>, index: int, from: nat): (r: seq<T>)
    decreases |s|
  {
    if s == [] then []
    else (if from != index then [s[0]] else []) + DropIndex(s[1..], index, from + 1)
  }

  /**
   * Dropping by index removes exactly the element at that position and closes
   * the gap; an index outside the list removes nothing.
   */
  lemma {:induction false} DropIndexSlices<T>(s: seq<T>, index: int, from: nat)
    ensures from <= index < from + |s| ==>
              DropIndex(s, index, from) == s[..index - from] + s[index - from + 1..]
    ensures !(from <= index < from + |s|) ==> DropIndex(s, index, from) == s
    decreases |s|
  {
    if s != [] {
      DropIndexSlices(s[1..], index, from + 1);
      var t := DropIndex(s[1..], index, from + 1);
      if from == index {
        assert DropIndex(s, index, from) == t;
        assert t == s[1..];
        assert s[..0] + s[1..] == s[1..];
      } else if from < index < from + |s| {
        var j := index - from;
        assert DropIndex(s, index, from) == [s[0]] + t;
        assert t == s[1..][..j - 1] + s[1..][j..];
        assert s[..j] == [s[0]] + s[1..][..j - 1];
        assert s[j + 1..] == s[1..][j..];
      } else {
        assert DropIndex(s, index, from) == [s[0]] + t;
        assert t == s[1..];
        assert s == [s[0]] + s[1..];
      }
    }
  }

  /** `s` without its element at position `i`. */
  function RemoveAt<T>(s: seq<T>, i: nat): (r: seq<T>)
    requires i < |s|
    ensures |r| == |s| - 1
  {
    s[..i] + s[i + 1..]
  }

  /** `s` with `x` inserted so that it sits at position `i`. */
  function InsertAt<T>(s: seq<T>, i: nat, x: T): (r: seq<T>)
    requires i <= |s|
    ensures |r| == |s| + 1
  {
    s[..i] + [x] + s[i..]
  }
}
