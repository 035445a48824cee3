/**
 Sequence operations behind the components' list views: `Array.prototype.filter`
 and the order-preserving de-duplication of `[...new Set(xs)]`.
 */
module Seqs {

  /** `a` can be obtained from `b` by deleting elements: `a` keeps `b`'s relative order. */
  ghost predicate IsSubseq<T>(a: seq<T>, b: seq<T>)
    decreases |b|
  {
    || |a| == 0
    || (|b| > 0 && ((a[0] == b[0] && IsSubseq(a[1..], b[1..])) || IsSubseq(a, b[1..])))
  }

  /** `s.filter(keep)`: the elements of `s` satisfying `keep`. */
  function Filter<T(!new)>(s: seq<T>, keep: T -> bool): (r: seq<T>)
    ensures |r| <= |s|
    ensures forall x :: x in r <==> x in s && keep(x)
  {
    if |s| == 0 then []
    else (if keep(s[0]) then [s[0]] else []) + Filter(s[1..], keep)
  }

  /** The filtered list keeps the original relative order. */
  lemma {:induction false} FilterIsSubseq<T(!new)>(s: seq<T>, keep: T -> bool)
    ensures IsSubseq(Filter(s, keep), s)
  {
    if |s| > 0 {
      FilterIsSubseq(s[1..], keep);
      var r := Filter(s, keep);
      if keep(s[0]) {
        assert r[0] == s[0] && r[1..] == Filter(s[1..], keep);
      } else {
        assert r == Filter(s[1..], keep);
      }
    }
  }

  /** Filtering with a test every element passes returns the list unchanged. */
  lemma {:induction false} FilterKeepsAll<T(!new)>(s: seq<T>, keep: T -> bool)
    requires forall i :: 0 <= i < |s| ==> keep(s[i])
    ensures Filter(s, keep) == s
  {
    if |s| > 0 {
      FilterKeepsAll(s[1..], keep);
      assert [s[0]] + s[1..] == s;
    }
  }

  /** Two tests that disagree on every element split the list: each element lands in exactly one of the two results. */
  lemma {:induction false} FilterPartition<T(!new)>(s: seq<T>, p: T -> bool, q: T -> bool)
    requires forall i :: 0 <= i < |s| ==> p(s[i]) != q(s[i])
    ensures multiset(Filter(s, p)) + multiset(Filter(s, q)) == multiset(s)
    ensures |Filter(s, p)| + |Filter(s, q)| == |s|
  {
    if |s| > 0 {
      FilterPartition(s[1..], p, q);
      assert s == [s[0]] + s[1..];
    }
  }

  /** Filtering twice with the same test is filtering once. */
  lemma {:induction false} FilterIdempotent<T(!new)>(s: seq<T>, keep: T -> bool)
    ensures Filter(Filter(s, keep), keep) == Filter(s, keep)
  {
    var r := Filter(s, keep);
    forall i | 0 <= i < |r| ensures keep(r[i]) {
      assert r[i] in r;
    }
    FilterKeepsAll(r, keep);
  }

  /** No element occurs twice. */
  predicate NoDuplicates<T(==)>(s: seq<T>)
  {
    forall i, j :: 0 <= i < j < |s| ==> s[i] != s[j]
  }

  /** `[...new Set(s)]`: each element of `s` once, in the order of its first
      occurrence (a `Set` iterates in insertion order and ignores re-insertion). */
  function Dedup<T(==,!new)>(s: seq<T>): (r: seq<T>)
    ensures NoDuplicates(r)
    ensures forall x :: x in r <==> x in s
    ensures |r| <= |s|
  {
    if |s| == 0 then []
    else
      var p := Dedup(s[..|s| - 1]);
      assert forall x :: x in s <==> x in s[..|s| - 1] || x == s[|s| - 1];
      if s[|s| - 1] in p then p else p + [s[|s| - 1]]
  }

  /** The index of the first occurrence of `x` in `s`. */
  function FirstIndex<T(==)>(s: seq<T>, x: T): (i: nat)
    requires x in s
    ensures i < |s| && s[i] == x && x !in s[..i]
  {
    if s[0] == x then 0
    else
      assert x in s[1..];
      var j := FirstIndex(s[1..], x);
      assert s[..j + 1] == [s[0]] + s[1..][..j];
      j + 1
  }

  /** A first occurrence in a prefix is a first occurrence in the whole list. */
  lemma FirstIndexExtend<T(!new)>(s: seq<T>, t: seq<T>, x: T)
    requires x in s
    ensures x in s + t && FirstIndex(s + t, x) == FirstIndex(s, x)
  {
    var i := FirstIndex(s, x);
    var k := FirstIndex(s + t, x);
    assert (s + t)[..i] == s[..i];
    assert (s + t)[i] == x;
  }

  /** The de-duplicated list is ordered by first occurrence in the input. */
  lemma {:induction false} DedupOrder<T(!new)>(s: seq<T>)
    ensures forall i, j :: 0 <= i < j < |Dedup(s)| ==>
              FirstIndex(s, Dedup(s)[i]) < FirstIndex(s, Dedup(s)[j])
  {
    if |s| > 0 {
      var s0 := s[..|s| - 1];
      var x := s[|s| - 1];
      var p := Dedup(s0);
      DedupOrder(s0);
      assert s == s0 + [x];
      forall y | y in p ensures FirstIndex(s, y) == FirstIndex(s0, y) {
        FirstIndexExtend(s0, [x], y);
      }
      if x !in p {
        assert x !in s0;
        assert s[..|s0|] == s0;
      }
    }
  }

  /** The de-duplicated list keeps the input's relative order. */
  lemma {:induction false} DedupIsSubseq<T(!new)>(s: seq<T>)
    ensures IsSubseq(Dedup(s), s)
  {
    if |s| > 0 {
      var s0 := s[..|s| - 1];
      DedupIsSubseq(s0);
      assert s == s0 + [s[|s| - 1]];
      if s[|s| - 1] in Dedup(s0) {
        SubseqAppendRight(Dedup(s0), s0, [s[|s| - 1]]);
      } else {
        SubseqAppendBoth(Dedup(s0), s0, [s[|s| - 1]]);
      }
    }
  }

  lemma {:induction false} SubseqAppendRight<T(!new)>(a: seq<T>, b: seq<T>, t: seq<T>)
    requires IsSubseq(a, b)
    ensures IsSubseq(a, b + t)
    decreases |b|
  {
    if |a| > 0 {
      assert (b + t)[1..] == b[1..] + t;
      if a[0] == b[0] && IsSubseq(a[1..], b[1..]) {
        SubseqAppendRight(a[1..], b[1..], t);
      } else {
        SubseqAppendRight(a, b[1..], t);
      }
    }
  }

  lemma {:induction false} SubseqAppendBoth<T(!new)>(a: seq<T>, b: seq<T>, t: seq<T>)
    requires IsSubseq(a, b)
    ensures IsSubseq(a + t, b + t)
    decreases |b| + |t|
  {
    if |a| == 0 {
      assert a + t == t;
      SubseqPrefixFree(t, b);
    } else {
      assert (b + t)[1..] == b[1..] + t;
      assert (a + t)[1..] == a[1..] + t;
      if a[0] == b[0] && IsSubseq(a[1..], b[1..]) {
        SubseqAppendBoth(a[1..], b[1..], t);
      } else {
        SubseqAppendBoth(a, b[1..], t);
      }
    }
  }

  /** A list is a subsequence of itself with anything put in front. */
  lemma {:induction false} SubseqPrefixFree<T(!new)>(t: seq<T>, b: seq<T>)
    ensures IsSubseq(t, b + t)
    decreases |b| + |t|
  {
    if |t| > 0 {
      if |b| == 0 {
        assert b + t == t;
        SubseqPrefixFree(t[1..], []);
        assert [] + t[1..] == t[1..];
      } else {
        assert (b + t)[1..] == b[1..] + t;
        SubseqPrefixFree(t, b[1..]);
      }
    }
  }
}
