/**
 * The ranking step of `getTeamStats` (src/utils/csvParser.ts): rows of
 * per-team figures sorted by points, 3 per win and 1 per draw, with
 * JavaScript's stable `Array.prototype.sort`.
 */
module Ranking {
  import opened Seqs

  /** One leaderboard row (`vitórias`, `empates`, `derrotas`, `golsPro`,
      `golsContra` in the source). */
  datatype Standing = Standing(name: string, wins: nat, draws: nat, losses: nat,
                               goalsFor: int, goalsAgainst: int)

  function Points(s: Standing): nat
  {
    3 * s.wins + s.draws
  }

  predicate SortedByPoints(s: seq<Standing>)
  {
    forall i, j :: 0 <= i < j < |s| ==> Points(s[i]) >= Points(s[j])
  }

  function HasPoints(p: nat): Standing -> bool
  {
    (s: Standing) => Points(s) == p
  }

  /** Insert `x` after every row with at least its points, so that a later
      row never overtakes an earlier one with the same points. */
  function Insert(s: seq<Standing>, x: Standing): seq<Standing>
    decreases |s|
  {
    if s == [] then [x]
    else if Points(s[0]) >= Points(x) then [s[0]] + Insert(s[1..], x)
    else [x] + s
  }

  /** Inserting adds `x` and loses nothing. */
  lemma {:induction false} InsertPerm(s: seq<Standing>, x: Standing)
    ensures multiset(Insert(s, x)) == multiset(s) + multiset{x}
    decreases |s|
  {
    if s != [] && Points(s[0]) >= Points(x) {
      InsertPerm(s[1..], x);
      assert s == [s[0]] + s[1..];
    }
  }

  /** Every row of the result is `x` or a row of `s`. */
  lemma {:induction false} InsertMembers(s: seq<Standing>, x: Standing, y: Standing)
    requires y in Insert(s, x)
    ensures y == x || y in s
    decreases |s|
  {
    if s != [] && Points(s[0]) >= Points(x) && y != s[0] {
      InsertMembers(s[1..], x, y);
    }
  }

  lemma {:induction false} InsertSorted(s: seq<Standing>, x: Standing)
    requires SortedByPoints(s)
    ensures SortedByPoints(Insert(s, x))
    decreases |s|
  {
    if s != [] && Points(s[0]) >= Points(x) {
      var rest := Insert(s[1..], x);
      InsertSorted(s[1..], x);
      forall i | 0 <= i < |rest| ensures Points(s[0]) >= Points(rest[i]) {
        InsertMembers(s[1..], x, rest[i]);
        if rest[i] != x {
          var k :| 0 <= k < |s[1..]| && s[1..][k] == rest[i];
          assert s[k + 1] == rest[i];
        }
      }
      var r := [s[0]] + rest;
      assert forall i :: 1 <= i < |r| ==> r[i] == rest[i - 1];
    }
  }

  /** `rows.sort((a, b) => points(b) - points(a))`: JavaScript's sort is
      stable, so this is a stable sort by decreasing points. */
  function SortByPoints(s: seq<Standing>): (r: seq<Standing>)
    ensures SortedByPoints(r)
    ensures multiset(r) == multiset(s)
    decreases |s|
  {
    if s == [] then []
    else
      var n := |s| - 1;
      assert s == s[..n] + [s[n]];
      InsertSorted(SortByPoints(s[..n]), s[n]);
      InsertPerm(SortByPoints(s[..n]), s[n]);
      Insert(SortByPoints(s[..n]), s[n])
  }

  lemma {:induction false} NoneWithPoints(s: seq<Standing>, p: nat)
    requires forall i :: 0 <= i < |s| ==> Points(s[i]) != p
    ensures Filter(s, HasPoints(p)) == []
    decreases |s|
  {
    if s != [] {
      NoneWithPoints(s[..|s| - 1], p);
    }
  }

  lemma {:induction false} InsertStable(s: seq<Standing>, x: Standing, p: nat)
    requires SortedByPoints(s)
    ensures Filter(Insert(s, x), HasPoints(p))
            == Filter(s, HasPoints(p)) + (if Points(x) == p then [x] else [])
    decreases |s|
  {
    if s == [] {
      FilterOne(x, HasPoints(p));
    } else if Points(s[0]) >= Points(x) {
      InsertStable(s[1..], x, p);
      InsertStableBehind(s, x, p);
    } else {
      InsertStableFront(s, x, p);
    }
  }

  lemma InsertStableBehind(s: seq<Standing>, x: Standing, p: nat)
    requires s != [] && Points(s[0]) >= Points(x)
    requires Filter(Insert(s[1..], x), HasPoints(p))
             == Filter(s[1..], HasPoints(p)) + (if Points(x) == p then [x] else [])
    ensures Filter(Insert(s, x), HasPoints(p))
            == Filter(s, HasPoints(p)) + (if Points(x) == p then [x] else [])
  {
    var t := Insert(s[1..], x);
    assert Insert(s, x) == [s[0]] + t;
    assert [s[0]] + s[1..] == s;
    FilterConsBoth(s[0], s[1..], t, HasPoints(p), if Points(x) == p then [x] else []);
  }

  /** Putting the same element in front of two sequences keeps a relation
      between their filters. */
  lemma FilterConsBoth<T>(y: T, s: seq<T>, t: seq<T>, f: T -> bool, tail: seq<T>)
    requires Filter(t, f) == Filter(s, f) + tail
    ensures Filter([y] + t, f) == Filter([y] + s, f) + tail
  {
    FilterCons(y, t, f);
    FilterCons(y, s, f);
    ConcatAssoc(if f(y) then [y] else [], Filter(s, f), tail);
  }

  lemma InsertStableFront(s: seq<Standing>, x: Standing, p: nat)
    requires SortedByPoints(s)
    requires s != [] && Points(s[0]) < Points(x)
    ensures Filter(Insert(s, x), HasPoints(p))
            == Filter(s, HasPoints(p)) + (if Points(x) == p then [x] else [])
  {
    assert Insert(s, x) == [x] + s;
    FilterCons(x, s, HasPoints(p));
    if Points(x) == p {
      forall i | 0 <= i < |s| ensures Points(s[i]) != p {
        if i > 0 {
          assert Points(s[0]) >= Points(s[i]);
        }
      }
      NoneWithPoints(s, p);
    }
  }

  lemma ConcatAssoc<T>(a: seq<T>, b: seq<T>, c: seq<T>)
    ensures a + (b + c) == (a + b) + c
  {
  }

  lemma FilterOne<T>(x: T, f: T -> bool)
    ensures Filter([x], f) == if f(x) then [x] else []
  {
    assert [x][..0] == [];
  }

  lemma FilterCons<T>(x: T, s: seq<T>, f: T -> bool)
    ensures Filter([x] + s, f) == (if f(x) then [x] else []) + Filter(s, f)
  {
    FilterAppend([x], s, f);
    FilterOne(x, f);
  }

  /** Stability: for every number of points, the rows with that many points
      come out in the order they went in. */
  lemma {:induction false} SortStable(s: seq<Standing>, p: nat)
    ensures Filter(SortByPoints(s), HasPoints(p)) == Filter(s, HasPoints(p))
    decreases |s|
  {
    if s != [] {
      var n := |s| - 1;
      SortStable(s[..n], p);
      InsertStable(SortByPoints(s[..n]), s[n], p);
    }
  }

  /** A leading part of a sorted list is sorted, and no row left out has
      more points than a row kept. */
  lemma PrefixOnTop(s: seq<Standing>, r: seq<Standing>)
    requires SortedByPoints(s)
    requires |r| <= |s| && r == s[..|r|]
    ensures SortedByPoints(r)
    ensures forall x, y :: x in s && x !in r && y in r ==> Points(x) <= Points(y)
  {
    forall x, y | x in s && x !in r && y in r ensures Points(x) <= Points(y) {
      var k :| 0 <= k < |s| && s[k] == x;
      var j :| 0 <= j < |r| && r[j] == y;
      assert forall i :: 0 <= i < |r| ==> s[i] in r;
      assert s[j] == y;
    }
  }

  /** The rows with a given number of points in a leading part of a list
      are the first ones among those of the whole list. */
  lemma PrefixFilter(s: seq<Standing>, r: seq<Standing>, p: nat)
    requires |r| <= |s| && r == s[..|r|]
    ensures var f := Filter(r, HasPoints(p));
            var g := Filter(s, HasPoints(p));
            |f| <= |g| && f == g[..|f|]
  {
    assert s == r + s[|r|..];
    FilterAppend(r, s[|r|..], HasPoints(p));
  }
}
