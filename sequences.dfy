/** Order-preserving selection over sequences: the shape of every
    "walk a slice, keep some elements, append them in order" loop. */
module Sequences {

  /** The elements of `s` that satisfy `p`, in their original order. It is
      defined from the last element so that a loop appending to a result
      can keep `Filter(p, s[..i])` as its invariant. */
  function Filter<T>(p: T -> bool, s: seq<T>): (r: seq<T>)
    ensures |r| <= |s|
    decreases |s|
  {
    if s == [] then []
    else Filter(p, s[..|s| - 1]) + (if p(s[|s| - 1]) then [s[|s| - 1]] else [])
  }

  /** `f` applied to every element of `s`. */
  function Map<T, U>(f: T -> U, s: seq<T>): (r: seq<U>)
    ensures |r| == |s|
    ensures forall k :: 0 <= k < |s| ==> r[k] == f(s[k])
  {
    seq(|s|, k requires 0 <= k < |s| => f(s[k]))
  }

  /** The groups of `gs` laid end to end, as `append(xs, g...)` does. */
  function Flatten<T>(gs: seq<seq<T>>): seq<T>
    decreases |gs|
  {
    if gs == [] then [] else Flatten(gs[..|gs| - 1]) + gs[|gs| - 1]
  }

  /** `idx` picks, in strictly increasing positions of `b`, the elements of `a`. */
  ghost predicate Embeds<T>(idx: seq<nat>, a: seq<T>, b: seq<T>)
  {
    && |idx| == |a|
    && (forall k :: 0 <= k < |idx| ==> idx[k] < |b| && a[k] == b[idx[k]])
    && (forall k, l :: 0 <= k < l < |idx| ==> idx[k] < idx[l])
  }

  /** `a` is `b` with some elements dropped and the rest kept in order. */
  ghost predicate IsSubsequence<T>(a: seq<T>, b: seq<T>)
  {
    exists idx :: Embeds(idx, a, b)
  }

  lemma FilterSnoc<T>(p: T -> bool, s: seq<T>, x: T)
    ensures Filter(p, s + [x]) == Filter(p, s) + (if p(x) then [x] else [])
  {
    assert (s + [x])[..|s|] == s;
  }

  lemma MapSnoc<T, U>(f: T -> U, s: seq<T>, x: T)
    ensures Map(f, s + [x]) == Map(f, s) + [f(x)]
  {
  }

  lemma FlattenSnoc<T>(gs: seq<seq<T>>, g: seq<T>)
    ensures Flatten(gs + [g]) == Flatten(gs) + g
  {
    assert (gs + [g])[..|gs|] == gs;
  }

  /** Among the positions of `s`, `idx` holds exactly those whose element
      satisfies `p`. */
  ghost predicate PositionsPassing<T>(idx: seq<nat>, p: T -> bool, s: seq<T>)
  {
    forall k :: 0 <= k < |s| ==> (k in idx <==> p(s[k]))
  }

  /** The positions that `Filter` keeps, as a witness of the subsequence:
      every position whose element passes, and no other. */
  lemma {:induction false} FilterEmbedding<T>(p: T -> bool, s: seq<T>) returns (idx: seq<nat>)
    ensures Embeds(idx, Filter(p, s), s)
    ensures PositionsPassing(idx, p, s)
    decreases |s|
  {
    if s == [] {
      idx := [];
    } else {
      var n := |s| - 1;
      var prefix := s[..n];
      var before := FilterEmbedding(p, prefix);
      assert s == prefix + [s[n]];
      FilterSnoc(p, prefix, s[n]);
      assert n !in before by {
        forall j | 0 <= j < |before|
          ensures before[j] != n
        {
          assert before[j] < |prefix|;
        }
      }
      idx := before + (if p(s[n]) then [n] else []);
      forall k | 0 <= k < |s|
        ensures k in idx <==> p(s[k])
      {
        if k < n {
          assert s[k] == prefix[k];
          assert k in idx <==> k in before;
        }
      }
    }
  }

  /** What `Filter` keeps is a subsequence of its input. */
  lemma FilterIsSubsequence<T>(p: T -> bool, s: seq<T>)
    ensures IsSubsequence(Filter(p, s), s)
  {
    var idx := FilterEmbedding(p, s);
  }

  /** `Filter` keeps one element per passing position of its input, in
      order, and nothing from any other position: a passing element that
      occurs twice is kept twice. */
  lemma FilterKeepsEveryPassingPosition<T>(p: T -> bool, s: seq<T>)
    ensures exists idx :: Embeds(idx, Filter(p, s), s) && PositionsPassing(idx, p, s)
  {
    var idx := FilterEmbedding(p, s);
  }

  /** A sequence is a subsequence of itself with anything put before it. */
  lemma SuffixIsSubsequence<T>(a: seq<T>, b: seq<T>)
    ensures IsSubsequence(b, a + b)
  {
    var idx: seq<nat> := seq(|b|, k requires 0 <= k < |b| => k + |a|);
    assert Embeds(idx, b, a + b);
  }

  /** Subsequences of two parts, put end to end, are a subsequence of the
      parts put end to end. */
  lemma SubsequenceConcat<T>(a: seq<T>, a': seq<T>, b: seq<T>, b': seq<T>)
    requires IsSubsequence(a, a') && IsSubsequence(b, b')
    ensures IsSubsequence(a + b, a' + b')
  {
    var ia :| Embeds(ia, a, a');
    var ib :| Embeds(ib, b, b');
    var shifted: seq<nat> := seq(|ib|, k requires 0 <= k < |ib| => ib[k] + |a'|);
    var idx := ia + shifted;
    forall k | 0 <= k < |idx|
      ensures idx[k] < |a' + b'| && (a + b)[k] == (a' + b')[idx[k]]
    {
      if k >= |ia| {
        assert idx[k] == ib[k - |ia|] + |a'|;
      }
    }
    assert Embeds(idx, a + b, a' + b');
  }

  /** An element survives `Filter` exactly when it occurs in the input and
      satisfies the predicate. */
  lemma {:induction false} FilterMembership<T>(p: T -> bool, s: seq<T>, x: T)
    ensures x in Filter(p, s) <==> x in s && p(x)
    decreases |s|
  {
    if s != [] {
      var n := |s| - 1;
      FilterMembership(p, s[..n], x);
      assert s == s[..n] + [s[n]];
    }
  }

  /** `Filter` keeps nothing exactly when no element satisfies the predicate. */
  lemma FilterEmptyIff<T>(p: T -> bool, s: seq<T>)
    ensures Filter(p, s) == [] <==> forall x :: x in s ==> !p(x)
  {
    if Filter(p, s) != [] {
      FilterMembership(p, s, Filter(p, s)[0]);
    }
    forall x | x in s && p(x)
      ensures x in Filter(p, s)
    {
      FilterMembership(p, s, x);
    }
  }

  /** Filtering by a conjunction is filtering by one conjunct and then by the
      other: a later test only ever sees what an earlier one kept. */
  lemma {:induction false} FilterConjunction<T>(p: T -> bool, q: T -> bool, pq: T -> bool, s: seq<T>)
    requires forall x :: pq(x) == (p(x) && q(x))
    ensures Filter(pq, s) == Filter(q, Filter(p, s))
    decreases |s|
  {
    if s != [] {
      var n, x := |s| - 1, s[|s| - 1];
      var prefix := s[..n];
      FilterConjunction(p, q, pq, prefix);
      assert s == prefix + [x];
      FilterSnoc(pq, prefix, x);
      FilterSnoc(p, prefix, x);
      if p(x) {
        FilterSnoc(q, Filter(p, prefix), x);
        assert Filter(p, s) == Filter(p, prefix) + [x];
        assert Filter(q, Filter(p, s)) == Filter(q, Filter(p, prefix)) + (if q(x) then [x] else []);
        assert pq(x) == q(x);
      } else {
        assert Filter(p, s) == Filter(p, prefix);
        assert !pq(x);
      }
    }
  }
}
