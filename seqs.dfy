/**
 * Order-preserving selection from a sequence: the shape of a pandas boolean
 * mask `df[mask]` and of `dropna`, which keep the surviving rows in their
 * original order.
 */
module Seqs {
  import opened Wrappers

  /** The elements of `s` that satisfy `keep`, in their original order. */
  function Filter<T>(s: seq<T>, keep: T -> bool): (r: seq<T>)
    ensures |r| <= |s|
  {
    if s == [] then []
    else Filter(s[..|s| - 1], keep) + (if keep(s[|s| - 1]) then [s[|s| - 1]] else [])
  }

  /** The positions in `s` of the elements that satisfy `keep`, ascending. */
  function KeptIndices<T>(s: seq<T>, keep: T -> bool): seq<nat>
  {
    if s == [] then []
    else KeptIndices(s[..|s| - 1], keep) + (if keep(s[|s| - 1]) then [|s| - 1] else [])
  }

  predicate StrictlyIncreasing(xs: seq<nat>)
  {
    forall i, j :: 0 <= i < j < |xs| ==> xs[i] < xs[j]
  }

  lemma {:induction false} KeptIndicesBounded<T>(s: seq<T>, keep: T -> bool)
    ensures forall i :: 0 <= i < |KeptIndices(s, keep)| ==> KeptIndices(s, keep)[i] < |s|
    ensures StrictlyIncreasing(KeptIndices(s, keep))
  {
    if s != [] {
      KeptIndicesBounded(s[..|s| - 1], keep);
    }
  }

  lemma {:induction false} KeptIndicesExact<T>(s: seq<T>, keep: T -> bool)
    ensures forall j :: 0 <= j < |s| ==> (keep(s[j]) <==> j in KeptIndices(s, keep))
  {
    if s != [] {
      var n := |s| - 1;
      var init := s[..n];
      KeptIndicesExact(init, keep);
      KeptIndicesBounded(init, keep);
      var idx0 := KeptIndices(init, keep);
      assert n !in idx0;
      forall j | 0 <= j < n ensures keep(s[j]) <==> j in KeptIndices(s, keep) {
        assert s[j] == init[j];
      }
    }
  }

  lemma {:induction false} FilterAtKeptIndices<T>(s: seq<T>, keep: T -> bool)
    ensures |Filter(s, keep)| == |KeptIndices(s, keep)|
    ensures forall i :: 0 <= i < |KeptIndices(s, keep)| ==>
      KeptIndices(s, keep)[i] < |s| && Filter(s, keep)[i] == s[KeptIndices(s, keep)[i]]
  {
    KeptIndicesBounded(s, keep);
    if s != [] {
      var n := |s| - 1;
      var init := s[..n];
      FilterAtKeptIndices(init, keep);
      KeptIndicesBounded(init, keep);
      var idx0 := KeptIndices(init, keep);
      forall i | 0 <= i < |idx0| ensures s[idx0[i]] == init[idx0[i]] {
      }
    }
  }

  /**
   * The filter is exactly the subsequence of `s` taken at the positions whose
   * element satisfies `keep`: every such position is used, no other, and in
   * ascending order.
   */
  lemma {:induction false} FilterPicksKeptIndices<T>(s: seq<T>, keep: T -> bool)
    ensures var r, idx := Filter(s, keep), KeptIndices(s, keep);
      && |r| == |idx|
      && StrictlyIncreasing(idx)
      && (forall i :: 0 <= i < |idx| ==> idx[i] < |s| && r[i] == s[idx[i]])
      && (forall j :: 0 <= j < |s| ==> (keep(s[j]) <==> j in idx))
  {
    KeptIndicesBounded(s, keep);
    KeptIndicesExact(s, keep);
    FilterAtKeptIndices(s, keep);
  }

  /** An element is in the filter exactly when it is in `s` and satisfies `keep`. */
  lemma {:induction false} FilterMembership<T>(s: seq<T>, keep: T -> bool, x: T)
    ensures x in Filter(s, keep) <==> x in s && keep(x)
  {
    if s != [] {
      var init := s[..|s| - 1];
      FilterMembership(init, keep, x);
      assert s == init + [s[|s| - 1]];
    }
  }

  /** When every element satisfies `keep`, the filter returns `s` unchanged. */
  lemma {:induction false} FilterKeepsAll<T>(s: seq<T>, keep: T -> bool)
    requires forall i :: 0 <= i < |s| ==> keep(s[i])
    ensures Filter(s, keep) == s
  {
    if s != [] {
      FilterKeepsAll(s[..|s| - 1], keep);
      assert s[..|s| - 1] + [s[|s| - 1]] == s;
    }
  }

  /** When no element satisfies `keep`, the filter is empty. */
  lemma {:induction false} FilterDropsAll<T>(s: seq<T>, keep: T -> bool)
    requires forall i :: 0 <= i < |s| ==> !keep(s[i])
    ensures Filter(s, keep) == []
  {
    if s != [] {
      FilterDropsAll(s[..|s| - 1], keep);
    }
  }

  /**
   * The values `f` produces for the elements of `s`, in order, skipping the
   * elements for which it produces nothing: the shape of mapping every row
   * and then dropping the empty results.
   */
  function FilterMap<T, U>(s: seq<T>, f: T -> Option<U>): (r: seq<U>)
    ensures |r| <= |s|
  {
    if s == [] then []
    else FilterMap(s[..|s| - 1], f) + (match f(s[|s| - 1]) case Some(u) => [u] case None => [])
  }

  /** Appending one element adds its value, if any, at the end. */
  lemma FilterMapSnoc<T, U>(s: seq<T>, x: T, f: T -> Option<U>)
    ensures FilterMap(s + [x], f) == FilterMap(s, f) + (match f(x) case Some(u) => [u] case None => [])
  {
    assert (s + [x])[..|s|] == s;
  }

  /** Elements are mapped one at a time: the result for a concatenation is the concatenation of the results. */
  lemma {:induction false} FilterMapAppend<T, U>(a: seq<T>, b: seq<T>, f: T -> Option<U>)
    ensures FilterMap(a + b, f) == FilterMap(a, f) + FilterMap(b, f)
  {
    if b == [] {
      assert a + b == a;
    } else {
      var b' := b[..|b| - 1];
      assert a + b == (a + b') + [b[|b| - 1]];
      FilterMapAppend(a, b', f);
      FilterMapSnoc(a + b', b[|b| - 1], f);
      FilterMapSnoc(b', b[|b| - 1], f);
      assert b == b' + [b[|b| - 1]];
    }
  }

  /** An element for which `f` produces nothing can be removed without changing the result. */
  lemma FilterMapSkip<T, U>(s: seq<T>, f: T -> Option<U>, j: nat)
    requires j < |s| && f(s[j]).None?
    ensures FilterMap(s, f) == FilterMap(s[..j] + s[j + 1..], f)
  {
    var pre, x, post := s[..j], s[j], s[j + 1..];
    assert s == (pre + [x]) + post;
    calc {
      FilterMap(s, f);
      { FilterMapAppend(pre + [x], post, f); }
      FilterMap(pre + [x], f) + FilterMap(post, f);
      { FilterMapSnoc(pre, x, f); }
      FilterMap(pre, f) + FilterMap(post, f);
      { FilterMapAppend(pre, post, f); }
      FilterMap(pre + post, f);
    }
  }

  lemma {:induction false} FilterMapAtKeptIndices<T, U>(s: seq<T>, f: T -> Option<U>, keep: T -> bool)
    requires forall x :: keep(x) <==> f(x).Some?
    ensures |FilterMap(s, f)| == |KeptIndices(s, keep)|
    ensures forall i :: 0 <= i < |KeptIndices(s, keep)| ==>
      KeptIndices(s, keep)[i] < |s| && f(s[KeptIndices(s, keep)[i]]) == Some(FilterMap(s, f)[i])
  {
    KeptIndicesBounded(s, keep);
    if s != [] {
      var n := |s| - 1;
      var init := s[..n];
      FilterMapAtKeptIndices(init, f, keep);
      KeptIndicesBounded(init, keep);
      var idx0 := KeptIndices(init, keep);
      forall i | 0 <= i < |idx0| ensures s[idx0[i]] == init[idx0[i]] {
      }
    }
  }

  /**
   * The result of `FilterMap` is exactly the values produced at the positions
   * where `f` produces one, in ascending order of position; `keep` names
   * those positions.
   */
  lemma {:induction false} FilterMapPicksKeptIndices<T, U>(s: seq<T>, f: T -> Option<U>, keep: T -> bool)
    requires forall x :: keep(x) <==> f(x).Some?
    ensures var r, idx := FilterMap(s, f), KeptIndices(s, keep);
      && |r| == |idx|
      && StrictlyIncreasing(idx)
      && (forall i :: 0 <= i < |idx| ==> idx[i] < |s| && f(s[idx[i]]) == Some(r[i]))
      && (forall j :: 0 <= j < |s| ==> (keep(s[j]) <==> j in idx))
  {
    KeptIndicesBounded(s, keep);
    KeptIndicesExact(s, keep);
    FilterMapAtKeptIndices(s, f, keep);
  }
}
