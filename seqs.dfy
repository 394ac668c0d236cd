/**
 * `Array.prototype.filter`, `filter(...).length` and `slice(0, end)` over
 * sequences, with the facts the analyzers need about them.
 */
module Seqs {
  import opened Wrappers

  /** `s.filter(p).length`. */
  function Count<T>(s: seq<T>, p: T -> bool): (r: nat)
    ensures r <= |s|
    decreases |s|
  {
    if s == [] then 0 else Count(s[..|s| - 1], p) + (if p(s[|s| - 1]) then 1 else 0)
  }

  /** `s.filter(p)`. */
  function Filter<T>(s: seq<T>, p: T -> bool): (r: seq<T>)
    ensures |r| == Count(s, p)
    decreases |s|
  {
    if s == [] then [] else Filter(s[..|s| - 1], p) + (if p(s[|s| - 1]) then [s[|s| - 1]] else [])
  }

  /** The filter keeps exactly the elements that satisfy `p`. */
  lemma {:induction false} FilterMembers<T>(s: seq<T>, p: T -> bool, x: T)
    ensures x in Filter(s, p) <==> x in s && p(x)
    decreases |s|
  {
    if s != [] {
      var n := |s| - 1;
      FilterMembers(s[..n], p, x);
      assert s == s[..n] + [s[n]];
    }
  }

  /** The indices of `s` whose element satisfies `p`. */
  function Indices<T>(s: seq<T>, p: T -> bool): set<int>
  {
    set i | 0 <= i < |s| && p(s[i])
  }

  /** The count is the number of positions whose element satisfies `p`. */
  lemma {:induction false} CountIsIndexCount<T>(s: seq<T>, p: T -> bool)
    ensures Count(s, p) == |Indices(s, p)|
    decreases |s|
  {
    if s != [] {
      var n := |s| - 1;
      var init := s[..n];
      CountIsIndexCount(init, p);
      var a := Indices(init, p);
      assert a == set i | 0 <= i < n && p(s[i]) by {
        forall i | 0 <= i < n ensures init[i] == s[i] { }
      }
      if p(s[n]) {
        assert Indices(s, p) == a + {n};
        assert n !in a;
      } else {
        assert Indices(s, p) == a;
      }
    }
  }

  /** No element satisfies `p` exactly when the count is zero. */
  lemma {:induction false} CountZero<T>(s: seq<T>, p: T -> bool)
    ensures Count(s, p) == 0 <==> forall i :: 0 <= i < |s| ==> !p(s[i])
    decreases |s|
  {
    if s != [] {
      var n := |s| - 1;
      CountZero(s[..n], p);
      assert forall i :: 0 <= i < n ==> s[..n][i] == s[i];
    }
  }

  /** A predicate implied by `p` holds at least as often as `p`. */
  lemma {:induction false} CountMono<T>(s: seq<T>, p: T -> bool, q: T -> bool)
    requires forall i :: 0 <= i < |s| ==> p(s[i]) ==> q(s[i])
    ensures Count(s, p) <= Count(s, q)
    decreases |s|
  {
    if s != [] {
      var n := |s| - 1;
      assert forall i :: 0 <= i < n ==> s[..n][i] == s[i];
      CountMono(s[..n], p, q);
    }
  }

  /** A predicate every element satisfies counts them all. */
  lemma {:induction false} CountAll<T>(s: seq<T>, p: T -> bool)
    requires forall i :: 0 <= i < |s| ==> p(s[i])
    ensures Count(s, p) == |s|
    decreases |s|
  {
    if s != [] {
      var n := |s| - 1;
      assert forall i :: 0 <= i < n ==> s[..n][i] == s[i];
      CountAll(s[..n], p);
    }
  }

  lemma {:induction false} FilterAppend<T>(a: seq<T>, b: seq<T>, p: T -> bool)
    ensures Filter(a + b, p) == Filter(a, p) + Filter(b, p)
    decreases |b|
  {
    if b == [] {
      assert a + b == a;
    } else {
      var n := |b| - 1;
      assert (a + b)[..|a + b| - 1] == a + b[..n];
      FilterAppend(a, b[..n], p);
    }
  }

  /** Every prefix of a filter is the filter of a prefix: taking the first `k`
      matches is the same as filtering the input up to some position. */
  lemma {:induction false} FilterPrefix<T>(s: seq<T>, p: T -> bool, k: nat)
    requires k <= |Filter(s, p)|
    ensures exists j :: 0 <= j <= |s| && Filter(s[..j], p) == Filter(s, p)[..k]
    decreases |s|
  {
    var f := Filter(s, p);
    if k == |f| {
      assert s[..|s|] == s;
      assert f[..k] == f;
    } else {
      var n := |s| - 1;
      assert s != [];
      var g := Filter(s[..n], p);
      assert k <= |g|;
      assert g[..k] == f[..k];
      FilterPrefix(s[..n], p, k);
      var j :| 0 <= j <= n && Filter(s[..n][..j], p) == g[..k];
      assert s[..n][..j] == s[..j];
    }
  }

  /** The positions of `s` whose element satisfies `p`, in increasing order. */
  function Positions<T>(s: seq<T>, p: T -> bool): (r: seq<int>)
    ensures forall k, l :: 0 <= k < l < |r| ==> r[k] < r[l]
    ensures forall i :: i in r <==> 0 <= i < |s| && p(s[i])
    decreases |s|
  {
    if s == [] then []
    else
      var n := |s| - 1;
      var q := Positions(s[..n], p);
      assert forall i :: 0 <= i < n ==> s[..n][i] == s[i];
      assert forall k :: 0 <= k < |q| ==> q[k] < n by {
        forall k | 0 <= k < |q| ensures q[k] < n {
          assert q[k] in q;
        }
      }
      q + (if p(s[n]) then [n] else [])
  }

  /** The filter lists the elements at the satisfying positions, in order:
      the `k`-th element kept is the one at the `k`-th such position. */
  lemma {:induction false} FilterAtPositions<T>(s: seq<T>, p: T -> bool)
    ensures |Filter(s, p)| == |Positions(s, p)|
    ensures forall k :: 0 <= k < |Filter(s, p)| ==> 0 <= Positions(s, p)[k] < |s| && Filter(s, p)[k] == s[Positions(s, p)[k]]
    decreases |s|
  {
    if s != [] {
      var n := |s| - 1;
      FilterAtPositions(s[..n], p);
      var f, q := Filter(s[..n], p), Positions(s[..n], p);
      forall k | 0 <= k < |f| ensures q[k] < n && f[k] == s[q[k]] {
        assert q[k] in q;
      }
    }
  }

  /** The values `f` yields along `s`, in order, skipping elements for which
      it yields nothing (a loop that pushes only some results). */
  function FilterMap<A, B>(s: seq<A>, f: A -> Option<B>): (r: seq<B>)
    ensures |r| <= |s|
    decreases |s|
  {
    if s == [] then []
    else
      var last := f(s[|s| - 1]);
      FilterMap(s[..|s| - 1], f) + (if last.Some? then [last.value] else [])
  }

  lemma {:induction false} FilterMapAppend<A, B>(a: seq<A>, b: seq<A>, f: A -> Option<B>)
    ensures FilterMap(a + b, f) == FilterMap(a, f) + FilterMap(b, f)
    decreases |b|
  {
    if b == [] {
      assert a + b == a;
    } else {
      var n := |b| - 1;
      assert (a + b)[..|a + b| - 1] == a + b[..n];
      assert (a + b)[|a + b| - 1] == b[n];
      FilterMapAppend(a, b[..n], f);
    }
  }

  lemma {:induction false} FilterMapMembers<A, B>(s: seq<A>, f: A -> Option<B>, y: B)
    ensures y in FilterMap(s, f) <==> exists j :: 0 <= j < |s| && f(s[j]) == Some(y)
    decreases |s|
  {
    if s != [] {
      var n := |s| - 1;
      var init := s[..n];
      FilterMapMembers(init, f, y);
      assert forall j :: 0 <= j < n ==> init[j] == s[j];
      var tail := if f(s[n]).Some? then [f(s[n]).value] else [];
      assert FilterMap(s, f) == FilterMap(init, f) + tail;
      assert y in tail <==> f(s[n]) == Some(y);
    }
  }

  lemma SliceExtend<T>(s: seq<T>, i: nat, j: nat)
    requires i <= j < |s|
    ensures s[i..j + 1] == s[i..j] + [s[j]]
  {
  }

  /** `s.slice(0, end)` in JavaScript: a negative `end` counts from the end. */
  function SliceTo<T>(s: seq<T>, end: int): (r: seq<T>)
    ensures |r| <= |s| && r == s[..|r|]
    ensures end >= 0 ==> |r| == if end < |s| then end else |s|
    ensures end < 0 ==> |r| == if |s| + end > 0 then |s| + end else 0
  {
    var k := if end < 0 then (if |s| + end > 0 then |s| + end else 0)
             else (if end < |s| then end else |s|);
    s[..k]
  }
}
