/** Python list behaviour the model needs: slicing with negative bounds and order-preserving de-duplication. */
module Seqs {

  /** Where a Python slice bound `n` lands in a sequence of length `len`. */
  function SliceBound(n: int, len: nat): (b: nat)
    ensures b <= len
    ensures 0 <= n <= len ==> b == n
  {
    if n < 0 then (if n + len < 0 then 0 else n + len) else if n > len then len else n
  }

  /** `s[a:b]` in Python, negative bounds counting from the end. */
  function PySlice<T>(s: seq<T>, a: int, b: int): (r: seq<T>)
    ensures |r| <= |s|
    ensures 0 <= a <= b <= |s| ==> r == s[a..b]
  {
    var lo := SliceBound(a, |s|);
    var hi := SliceBound(b, |s|);
    if lo < hi then s[lo..hi] else []
  }

  predicate NoDup<T(==)>(xs: seq<T>)
  {
    forall i, j :: 0 <= i < j < |xs| ==> xs[i] != xs[j]
  }

  /** Index of the first occurrence of `x` in `xs`. */
  function FirstIndex<T(==)>(xs: seq<T>, x: T): (k: nat)
    requires x in xs
    ensures k < |xs| && xs[k] == x
    ensures forall j :: 0 <= j < k ==> xs[j] != x
  {
    if xs[0] == x then 0 else 1 + FirstIndex(xs[1..], x)
  }

  /**
   * The loop `for x in xs: if x not in seen: seen.add(x); out.append(x)`,
   * started with the given `seen` set.
   */
  function DedupFrom<T(==)>(xs: seq<T>, seen: set<T>): seq<T>
    decreases |xs|
  {
    if xs == [] then []
    else if xs[0] in seen then DedupFrom(xs[1..], seen)
    else [xs[0]] + DedupFrom(xs[1..], seen + {xs[0]})
  }

  /** One step of the loop: an element is appended exactly when it has not been seen. */
  lemma DedupStep<T>(xs: seq<T>, i: nat, seen: set<T>)
    requires i < |xs|
    ensures DedupFrom(xs[i..], seen) ==
      if xs[i] in seen then DedupFrom(xs[i + 1..], seen) else [xs[i]] + DedupFrom(xs[i + 1..], seen + {xs[i]})
  {
    assert xs[i..][1..] == xs[i + 1..];
  }

  /** One step of the loop keeps "what is kept so far, then what the rest adds" equal to the whole. */
  lemma DedupAdvance<T>(xs: seq<T>, i: nat, kept: seq<T>, seen: set<T>)
    requires i < |xs|
    ensures var x := xs[i];
      kept + DedupFrom(xs[i..], seen) ==
        if x in seen then kept + DedupFrom(xs[i + 1..], seen) else (kept + [x]) + DedupFrom(xs[i + 1..], seen + {x})
  {
    DedupStep(xs, i, seen);
  }

  function Dedup<T(==)>(xs: seq<T>): seq<T>
  {
    DedupFrom(xs, {})
  }

  lemma {:induction false} DedupFromFacts<T>(xs: seq<T>, seen: set<T>)
    ensures var r := DedupFrom(xs, seen);
      && NoDup(r)
      && (forall x :: x in r <==> x in xs && x !in seen)
      && (forall i, j :: 0 <= i < j < |r| ==> FirstIndex(xs, r[i]) < FirstIndex(xs, r[j]))
    decreases |xs|
  {
    if xs != [] {
      var t := xs[1..];
      assert forall x :: x in xs <==> x == xs[0] || x in t;
      if xs[0] in seen {
        DedupFromFacts(t, seen);
        var r := DedupFrom(t, seen);
        forall i | 0 <= i < |r| ensures FirstIndex(xs, r[i]) == 1 + FirstIndex(t, r[i]) {
          assert r[i] in r;
        }
      } else {
        var seen' := seen + {xs[0]};
        DedupFromFacts(t, seen');
        var r' := DedupFrom(t, seen');
        var r := [xs[0]] + r';
        assert r == DedupFrom(xs, seen);
        forall i | 0 <= i < |r'| ensures r'[i] != xs[0] && FirstIndex(xs, r'[i]) == 1 + FirstIndex(t, r'[i]) {
          assert r'[i] in r';
        }
        forall i, j | 0 <= i < j < |r| ensures r[i] != r[j] && FirstIndex(xs, r[i]) < FirstIndex(xs, r[j]) {
          if i > 0 {
            assert r[i] == r'[i - 1] && r[j] == r'[j - 1];
          } else {
            assert r[j] == r'[j - 1];
          }
        }
      }
    }
  }

  /**
   * `Dedup(xs)` lists every distinct element of `xs` exactly once,
   * in the order of first occurrence.
   */
  lemma DedupFacts<T>(xs: seq<T>)
    ensures NoDup(Dedup(xs))
    ensures forall x :: x in Dedup(xs) <==> x in xs
    ensures forall i, j :: 0 <= i < j < |Dedup(xs)| ==> FirstIndex(xs, Dedup(xs)[i]) < FirstIndex(xs, Dedup(xs)[j])
  {
    DedupFromFacts(xs, {});
  }
  /**
   * A scan `f` that copies one element at each position of [i, j) produces
   * the slice `s[i..j]` before what it produces from j.
   */
  lemma {:induction false} CopyRun<T>(s: seq<T>, f: nat -> seq<T>, i: nat, j: nat)
    requires i <= j <= |s|
    requires forall k :: i <= k < j ==> f(k) == [s[k]] + f(k + 1)
    ensures f(i) == s[i..j] + f(j)
    decreases j - i
  {
    if i < j {
      CopyRun(s, f, i + 1, j);
      assert [s[i]] + s[i + 1..j] == s[i..j];
    }
  }

  /** `[x for x in xs if p(x)]`, built by appending as the source's loops do. */
  function Filter<T>(xs: seq<T>, p: T -> bool): seq<T>
    decreases |xs|
  {
    if xs == [] then [] else Filter(xs[..|xs| - 1], p) + (if p(xs[|xs| - 1]) then [xs[|xs| - 1]] else [])
  }

  /**
   * `Filter` keeps exactly the elements that satisfy `p`, in their order:
   * `idx` lists the positions it keeps, increasing, and a position is
   * kept exactly when its element satisfies `p`.
   */
  lemma {:induction false} FilterFacts<T>(xs: seq<T>, p: T -> bool) returns (idx: seq<nat>)
    ensures |idx| == |Filter(xs, p)|
    ensures forall k :: 0 <= k < |idx| ==> idx[k] < |xs| && Filter(xs, p)[k] == xs[idx[k]]
    ensures forall k, l :: 0 <= k < l < |idx| ==> idx[k] < idx[l]
    ensures forall j :: 0 <= j < |xs| ==> (p(xs[j]) <==> j in idx)
    decreases |xs|
  {
    if xs == [] {
      idx := [];
    } else {
      var prev := FilterFacts(xs[..|xs| - 1], p);
      idx := FilterStep(xs, p, prev);
    }
  }

  /** `idx` lists, in increasing order, exactly the positions of `xs` whose element `f` keeps. */
  ghost predicate FilterIndexed<T>(xs: seq<T>, p: T -> bool, f: seq<T>, idx: seq<nat>)
  {
    && |idx| == |f|
    && (forall k :: 0 <= k < |idx| ==> idx[k] < |xs| && f[k] == xs[idx[k]])
    && (forall k, l :: 0 <= k < l < |idx| ==> idx[k] < idx[l])
    && (forall j :: 0 <= j < |xs| ==> (p(xs[j]) <==> j in idx))
  }

  /** The last element of `xs` is kept, at position `|xs| - 1`, exactly when it satisfies `p`. */
  lemma FilterStep<T>(xs: seq<T>, p: T -> bool, prev: seq<nat>) returns (idx: seq<nat>)
    requires xs != []
    requires FilterIndexed(xs[..|xs| - 1], p, Filter(xs[..|xs| - 1], p), prev)
    ensures FilterIndexed(xs, p, Filter(xs, p), idx)
  {
    var n := |xs| - 1;
    var init := xs[..n];
    var f0 := Filter(init, p);
    var f := Filter(xs, p);
    idx := prev + (if p(xs[n]) then [n] else []);
    assert f == f0 + (if p(xs[n]) then [xs[n]] else []);
    forall k | 0 <= k < |idx|
      ensures idx[k] < |xs| && f[k] == xs[idx[k]]
    {
      if k < |prev| {
        assert f[k] == f0[k] && init[prev[k]] == xs[prev[k]];
      }
    }
    forall j | 0 <= j < |xs|
      ensures p(xs[j]) <==> j in idx
    {
      if j < n {
        assert init[j] == xs[j];
        assert j in idx <==> j in prev;
      } else {
        assert n !in prev;
      }
    }
  }

  /** Appending an element extends the filter by that element when it satisfies `p`. */
  lemma FilterSnoc<T>(xs: seq<T>, x: T, p: T -> bool)
    ensures Filter(xs + [x], p) == Filter(xs, p) + (if p(x) then [x] else [])
  {
    assert (xs + [x])[..|xs|] == xs;
  }
  /** Nothing is kept when no element satisfies `p`. */
  lemma {:induction false} FilterNone<T>(xs: seq<T>, p: T -> bool)
    requires forall k :: 0 <= k < |xs| ==> !p(xs[k])
    ensures Filter(xs, p) == []
    decreases |xs|
  {
    if xs != [] {
      FilterNone(xs[..|xs| - 1], p);
    }
  }
}
