/** List comprehensions with a condition, `[x for x in xs if p(x)]`, and what they keep. */
module Seqs {

  /** `[x for x in s if p(x)]`. */
  function Filter<T>(p: T -> bool, s: seq<T>): (r: seq<T>)
    ensures |r| <= |s|
    ensures forall i :: 0 <= i < |r| ==> p(r[i]) && r[i] in s
  {
    if s == [] then [] else (if p(s[0]) then [s[0]] else []) + Filter(p, s[1..])
  }

  /** `a` is obtained from `b` by deleting elements, keeping the order of the rest. */
  ghost predicate IsSubsequence<T>(a: seq<T>, b: seq<T>)
    decreases |b|
  {
    if a == [] then true
    else if b == [] then false
    else if a[0] == b[0] then IsSubsequence(a[1..], b[1..])
    else IsSubsequence(a, b[1..])
  }

  /** The number of elements of `s` that satisfy `p`. */
  function Count<T>(p: T -> bool, s: seq<T>): nat {
    if s == [] then 0 else (if p(s[0]) then 1 else 0) + Count(p, s[1..])
  }

  /** A filtered list keeps its elements in their original order. */
  lemma {:induction false} FilterIsSubsequence<T>(p: T -> bool, s: seq<T>)
    ensures IsSubsequence(Filter(p, s), s)
  {
    if s != [] {
      FilterIsSubsequence(p, s[1..]);
      if p(s[0]) {
        assert Filter(p, s) == [s[0]] + Filter(p, s[1..]);
        assert ([s[0]] + Filter(p, s[1..]))[1..] == Filter(p, s[1..]);
      } else {
        var r := Filter(p, s);
        assert r == Filter(p, s[1..]);
        if r != [] {
          assert r[0] in s && p(r[0]);
          SubsequenceSkip(r, s);
        }
      }
    }
  }

  /** A list `a` that is a subsequence of `s[1..]` is one of `s`. */
  lemma {:induction false} SubsequenceSkip<T>(a: seq<T>, s: seq<T>)
    requires s != [] && IsSubsequence(a, s[1..])
    ensures IsSubsequence(a, s)
    decreases |s|, 1
  {
    if a != [] && a[0] == s[0] {
      SubsequenceTail(a, s[1..]);
    }
  }

  /** Dropping the head of a subsequence leaves a subsequence. */
  lemma {:induction false} SubsequenceTail<T>(a: seq<T>, b: seq<T>)
    requires a != [] && IsSubsequence(a, b)
    ensures IsSubsequence(a[1..], b)
    decreases |b| + 1, 0
  {
    if a[0] != b[0] {
      SubsequenceTail(a, b[1..]);
    }
    SubsequenceSkip(a[1..], b);
  }

  /** The filter keeps exactly the elements that satisfy `p`. */
  lemma {:induction false} FilterMembership<T>(p: T -> bool, s: seq<T>, x: T)
    ensures x in Filter(p, s) <==> x in s && p(x)
  {
    if s != [] {
      FilterMembership(p, s[1..], x);
      assert s == [s[0]] + s[1..];
    }
  }

  /** The filter keeps as many elements as satisfy `p`. */
  lemma {:induction false} FilterLength<T>(p: T -> bool, s: seq<T>)
    ensures |Filter(p, s)| == Count(p, s)
  {
    if s != [] {
      FilterLength(p, s[1..]);
    }
  }

  /** Every element satisfies exactly one of two complementary conditions. */
  lemma {:induction false} CountComplement<T>(p: T -> bool, q: T -> bool, s: seq<T>)
    requires forall x :: q(x) == !p(x)
    ensures Count(p, s) + Count(q, s) == |s|
  {
    if s != [] {
      CountComplement(p, q, s[1..]);
    }
  }

  lemma {:induction false} SubsequenceReflexive<T>(a: seq<T>)
    ensures IsSubsequence(a, a)
  {
    if a != [] {
      SubsequenceReflexive(a[1..]);
    }
  }

  lemma {:induction false} SubsequenceTransitive<T>(a: seq<T>, b: seq<T>, c: seq<T>)
    requires IsSubsequence(a, b) && IsSubsequence(b, c)
    ensures IsSubsequence(a, c)
    decreases |c|
  {
    if a == [] {
    } else if a[0] == b[0] && b[0] == c[0] {
      SubsequenceTransitive(a[1..], b[1..], c[1..]);
    } else if b[0] == c[0] {
      SubsequenceTransitive(a, b[1..], c[1..]);
      SubsequenceSkip(a, c);
    } else {
      SubsequenceTransitive(a, b, c[1..]);
      SubsequenceSkip(a, c);
    }
  }

  /** A list whose elements all satisfy `p` passes through the filter unchanged. */
  lemma {:induction false} FilterAll<T>(p: T -> bool, s: seq<T>)
    requires forall i :: 0 <= i < |s| ==> p(s[i])
    ensures Filter(p, s) == s
  {
    if s != [] {
      FilterAll(p, s[1..]);
    }
  }

  /** Filtering twice with the same condition is filtering once. */
  lemma FilterIdempotent<T>(p: T -> bool, s: seq<T>)
    ensures Filter(p, Filter(p, s)) == Filter(p, s)
  {
    FilterAll(p, Filter(p, s));
  }

  /** Filtering a list extended by one element. */
  lemma {:induction false} FilterSnoc<T>(p: T -> bool, s: seq<T>, x: T)
    ensures Filter(p, s + [x]) == Filter(p, s) + (if p(x) then [x] else [])
  {
    if s == [] {
      assert [] + [x] == [x];
    } else {
      assert (s + [x])[1..] == s[1..] + [x];
      FilterSnoc(p, s[1..], x);
    }
  }

  /** The positions of the elements that satisfy `p`, as `enumerate` visits them. */
  function Positions<T>(p: T -> bool, s: seq<T>): seq<nat>
    decreases |s|
  {
    if s == [] then []
    else Positions(p, s[..|s| - 1]) + (if p(s[|s| - 1]) then [|s| - 1] else [])
  }

  /** The listed positions are in range, hold elements satisfying `p`, and increase strictly. */
  lemma {:induction false} PositionsInOrder<T>(p: T -> bool, s: seq<T>)
    ensures |Positions(p, s)| <= |s|
    ensures forall k :: 0 <= k < |Positions(p, s)| ==> Positions(p, s)[k] < |s| && p(s[Positions(p, s)[k]])
    ensures forall k, l :: 0 <= k < l < |Positions(p, s)| ==> Positions(p, s)[k] < Positions(p, s)[l]
    decreases |s|
  {
    if s != [] {
      var t := s[..|s| - 1];
      PositionsInOrder(p, t);
      forall k | 0 <= k < |Positions(p, t)| ensures s[Positions(p, t)[k]] == t[Positions(p, t)[k]] {
      }
    }
  }

  /** Extending a prefix by one element lists that element's position when it qualifies. */
  lemma PositionsSnoc<T>(p: T -> bool, s: seq<T>, n: nat)
    requires n < |s|
    ensures Positions(p, s[..n + 1]) == Positions(p, s[..n]) + (if p(s[n]) then [n] else [])
  {
    assert s[..n + 1][..n] == s[..n];
  }

  /** Every position whose element satisfies `p` is listed, and no other. */
  lemma {:induction false} PositionsComplete<T>(p: T -> bool, s: seq<T>, i: nat)
    ensures i in Positions(p, s) <==> i < |s| && p(s[i])
    decreases |s|
  {
    if s != [] {
      var t := s[..|s| - 1];
      PositionsComplete(p, t, i);
      if i < |t| {
        assert t[i] == s[i];
      }
    }
  }

  /** The elements at the listed positions are the filtered list. */
  lemma {:induction false} PositionsSelectFilter<T>(p: T -> bool, s: seq<T>)
    ensures |Positions(p, s)| == |Filter(p, s)|
    ensures forall k :: 0 <= k < |Filter(p, s)| ==> Positions(p, s)[k] < |s| && s[Positions(p, s)[k]] == Filter(p, s)[k]
    decreases |s|
  {
    if s != [] {
      var t := s[..|s| - 1];
      assert s == t + [s[|s| - 1]];
      PositionsInOrder(p, t);
      PositionsSelectFilter(p, t);
      FilterSnoc(p, t, s[|s| - 1]);
      forall k | 0 <= k < |Positions(p, t)| ensures s[Positions(p, t)[k]] == t[Positions(p, t)[k]] {
      }
    }
  }
}
