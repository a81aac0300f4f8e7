/** Order-preserving filtering and counting over sequences: the shape of the
    source's "loop over the rows and append the ones that qualify" and of its
    list comprehensions with an `if`. */
module Seqs {

  /** The elements of `s` that satisfy `p`, in their original order. */
  function Filter<T>(s: seq<T>, p: T -> bool): (r: seq<T>)
    ensures |r| <= |s|
  {
    if |s| == 0 then [] else Filter(s[..|s| - 1], p) + (if p(s[|s| - 1]) then [s[|s| - 1]] else [])
  }

  /** The number of elements of `s` that satisfy `p`. */
  function Count<T>(s: seq<T>, p: T -> bool): nat
  {
    if |s| == 0 then 0 else Count(s[..|s| - 1], p) + (if p(s[|s| - 1]) then 1 else 0)
  }

  lemma FilterSnoc<T>(s: seq<T>, x: T, p: T -> bool)
    ensures Filter(s + [x], p) == Filter(s, p) + (if p(x) then [x] else [])
  {
    assert (s + [x])[..|s|] == s;
  }

  lemma CountSnoc<T>(s: seq<T>, x: T, p: T -> bool)
    ensures Count(s + [x], p) == Count(s, p) + (if p(x) then 1 else 0)
  {
    assert (s + [x])[..|s|] == s;
  }

  /** Filtering keeps exactly the qualifying elements: nothing that fails `p`
      gets in, and nothing that satisfies it is dropped. */
  lemma {:induction false} FilterExact<T>(s: seq<T>, p: T -> bool, x: T)
    ensures x in Filter(s, p) <==> x in s && p(x)
  {
    if |s| > 0 {
      FilterExact(s[..|s| - 1], p, x);
      assert s == s[..|s| - 1] + [s[|s| - 1]];
    }
  }

  /** When every element qualifies, filtering is the identity. */
  lemma {:induction false} FilterAll<T>(s: seq<T>, p: T -> bool)
    requires forall i :: 0 <= i < |s| ==> p(s[i])
    ensures Filter(s, p) == s
  {
    if |s| > 0 {
      FilterAll(s[..|s| - 1], p);
      assert s == s[..|s| - 1] + [s[|s| - 1]];
    }
  }

  /** Filtering and counting agree. */
  lemma {:induction false} FilterCount<T>(s: seq<T>, p: T -> bool)
    ensures |Filter(s, p)| == Count(s, p)
  {
    if |s| > 0 {
      FilterCount(s[..|s| - 1], p);
    }
  }

  /** The result is a subsequence of the input: its elements come from
      increasing positions of `s`. */
  ghost predicate SubsequenceOf<T>(r: seq<T>, s: seq<T>)
  {
    exists idx: seq<nat> ::
      && |idx| == |r|
      && (forall k :: 0 <= k < |idx| ==> idx[k] < |s| && r[k] == s[idx[k]])
      && (forall k, l :: 0 <= k < l < |idx| ==> idx[k] < idx[l])
  }

  lemma {:induction false} FilterIsSubsequence<T>(s: seq<T>, p: T -> bool)
    ensures SubsequenceOf(Filter(s, p), s)
  {
    if |s| == 0 {
      assert SubsequenceOf<T>([], s) by {
        var idx: seq<nat> := [];
        assert |idx| == 0;
      }
    } else {
      var init := s[..|s| - 1];
      FilterIsSubsequence(init, p);
      var idx: seq<nat> :| |idx| == |Filter(init, p)|
        && (forall k :: 0 <= k < |idx| ==> idx[k] < |init| && Filter(init, p)[k] == init[idx[k]])
        && (forall k, l :: 0 <= k < l < |idx| ==> idx[k] < idx[l]);
      if p(s[|s| - 1]) {
        var idx' := idx + [|s| - 1];
        assert forall k :: 0 <= k < |idx'| ==> idx'[k] < |s| && Filter(s, p)[k] == s[idx'[k]];
      } else {
        assert forall k :: 0 <= k < |idx| ==> idx[k] < |s| && Filter(s, p)[k] == s[idx[k]];
      }
    }
  }

  lemma {:induction false} CountConcat<T>(a: seq<T>, b: seq<T>, p: T -> bool)
    ensures Count(a + b, p) == Count(a, p) + Count(b, p)
    decreases |b|
  {
    if |b| > 0 {
      var b' := b[..|b| - 1];
      CountConcat(a, b', p);
      assert (a + b)[..|a + b| - 1] == a + b';
    } else {
      assert a + b == a;
    }
  }

  /** Filtering out exactly one position removes that element and nothing else. */
  lemma {:induction false} FilterDropsOne<T>(s: seq<T>, p: T -> bool, k: int)
    requires 0 <= k < |s| && !p(s[k])
    requires forall i :: 0 <= i < |s| && i != k ==> p(s[i])
    ensures Filter(s, p) == s[..k] + s[k + 1..]
  {
    var init := s[..|s| - 1];
    if k == |s| - 1 {
      FilterAll(init, p);
    } else {
      FilterDropsOne(init, p, k);
      assert init[..k] + init[k + 1..] + [s[|s| - 1]] == s[..k] + s[k + 1..];
    }
  }
}
