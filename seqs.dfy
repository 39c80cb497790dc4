/**
  Order-preserving selection on sequences: the `filter` of the array chains
  that the converter is built from, with a declarative notion of
  subsequence it is specified against.
 */
module Seqs {

  /** `a` can be obtained from `b` by deleting elements, keeping the order of the rest. */
  ghost predicate Subseq<T>(a: seq<T>, b: seq<T>)
    decreases |b|
  {
    a == [] || (b != [] && ((a[0] == b[0] && Subseq(a[1..], b[1..])) || Subseq(a, b[1..])))
  }

  /** The elements of `s` that satisfy `p`, in their original order. */
  function Filter<T>(p: T -> bool, s: seq<T>): seq<T> {
    if s == [] then []
    else if p(s[0]) then [s[0]] + Filter(p, s[1..])
    else Filter(p, s[1..])
  }

  /** `Filter(p, s)` is a subsequence of `s` holding every occurrence of
      the elements that satisfy `p` and no other element. */
  lemma {:induction false} FilterSpec<T(!new)>(p: T -> bool, s: seq<T>)
    ensures Subseq(Filter(p, s), s)
    ensures forall x :: multiset(Filter(p, s))[x] == if p(x) then multiset(s)[x] else 0
    ensures forall x :: x in Filter(p, s) <==> x in s && p(x)
  {
    if s != [] {
      assert s == [s[0]] + s[1..];
      FilterSpec(p, s[1..]);
    }
  }

  /** Being a subsequence is transitive. */
  lemma {:induction false} SubseqTrans<T>(a: seq<T>, b: seq<T>, c: seq<T>)
    requires Subseq(a, b) && Subseq(b, c)
    ensures Subseq(a, c)
    decreases |c|
  {
    if a != [] {
      assert b != [] && c != [];
      if b[0] == c[0] && Subseq(b[1..], c[1..]) {
        if a[0] == b[0] && Subseq(a[1..], b[1..]) {
          SubseqTrans(a[1..], b[1..], c[1..]);
        } else {
          SubseqTrans(a, b[1..], c[1..]);
        }
      } else {
        SubseqTrans(a, b, c[1..]);
      }
    }
  }

  /** A subsequence never holds an element more often than the sequence it comes from. */
  lemma {:induction false} SubseqMultiset<T>(a: seq<T>, b: seq<T>)
    requires Subseq(a, b)
    ensures multiset(a) <= multiset(b)
    decreases |b|
  {
    if a != [] {
      assert b == [b[0]] + b[1..];
      if a[0] == b[0] && Subseq(a[1..], b[1..]) {
        assert a == [a[0]] + a[1..];
        SubseqMultiset(a[1..], b[1..]);
      } else {
        SubseqMultiset(a, b[1..]);
      }
    }
  }

  /** The contract of `Filter` determines its result: any subsequence of `s` that
      keeps every occurrence of the elements satisfying `p`, and nothing else, is `Filter(p, s)`. */
  lemma {:induction false} FilterUnique<T(!new)>(p: T -> bool, s: seq<T>, a: seq<T>)
    requires Subseq(a, s)
    requires forall x :: multiset(a)[x] == if p(x) then multiset(s)[x] else 0
    ensures a == Filter(p, s)
    decreases |s|
  {
    if s == [] {
      assert a == [];
    } else {
      var h, t := s[0], s[1..];
      assert s == [h] + t;
      if p(h) {
        assert multiset(a)[h] == multiset(s)[h] >= 1;
        assert a != [];
        if a[0] == h && Subseq(a[1..], t) {
          assert a == [h] + a[1..];
          forall x ensures multiset(a[1..])[x] == if p(x) then multiset(t)[x] else 0 {
            assert multiset(a)[x] == multiset(a[1..])[x] + (if x == h then 1 else 0);
            assert multiset(s)[x] == multiset(t)[x] + (if x == h then 1 else 0);
          }
          FilterUnique(p, t, a[1..]);
        } else {
          SubseqMultiset(a, t);
          assert false;
        }
      } else {
        forall x ensures multiset(a)[x] == if p(x) then multiset(t)[x] else 0 {
          assert multiset(s)[x] == multiset(t)[x] + (if x == h then 1 else 0);
        }
        FilterUnique(p, t, a);
      }
    }
  }

  /** Two filters may be applied in either order. */
  lemma {:induction false} FilterCommute<T>(p: T -> bool, q: T -> bool, s: seq<T>)
    ensures Filter(q, Filter(p, s)) == Filter(p, Filter(q, s))
  {
    if s != [] {
      FilterCommute(p, q, s[1..]);
    }
  }

  /** Filtering twice by the same predicate is filtering once. */
  lemma {:induction false} FilterIdempotent<T>(p: T -> bool, s: seq<T>)
    ensures Filter(p, Filter(p, s)) == Filter(p, s)
  {
    if s != [] {
      FilterIdempotent(p, s[1..]);
    }
  }

  /** A filter that every element passes keeps the whole sequence. */
  lemma {:induction false} FilterKeepsAll<T>(p: T -> bool, s: seq<T>)
    requires forall i :: 0 <= i < |s| ==> p(s[i])
    ensures Filter(p, s) == s
  {
    if s != [] {
      FilterKeepsAll(p, s[1..]);
    }
  }

  /** A filter that no element passes keeps nothing. */
  lemma {:induction false} FilterKeepsNone<T>(p: T -> bool, s: seq<T>)
    requires forall i :: 0 <= i < |s| ==> !p(s[i])
    ensures Filter(p, s) == []
  {
    if s != [] {
      FilterKeepsNone(p, s[1..]);
    }
  }
}
