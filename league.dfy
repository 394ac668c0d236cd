/**
 * `analyzePatterns` (src/utils/csvParser.ts): whole-list counts of result
 * codes, goals, matches over 2.5 goals and matches where both sides scored.
 */
module League {
  import opened Csv
  import opened Seqs
  import opened Rounding

  /** The counts `analyzePatterns` returns, and its printed figures as
      integers: `avgGoals` in hundredths of a goal, every percentage in
      tenths of a percent. */
  datatype LeagueStats = LeagueStats(
    totalMatches: nat, homeWins: nat, draws: nat, awayWins: nat,
    avgGoals: int,
    over25Percentage: nat, btsPercentage: nat,
    homeWinPercentage: nat, drawPercentage: nat, awayWinPercentage: nat)

  predicate IsHomeWin(m: FootballMatch) { m.FTR == "H" }
  predicate IsDraw(m: FootballMatch) { m.FTR == "D" }
  predicate IsAwayWin(m: FootballMatch) { m.FTR == "A" }

  /** `(m.FTHG + m.FTAG) > 2.5`: on whole goals, three or more. */
  function IsOver25(m: FootballMatch): (r: bool)
    ensures r <==> m.FTHG + m.FTAG >= 3
  {
    2 * (m.FTHG + m.FTAG) > 5
  }

  /** `m.FTHG > 0 && m.FTAG > 0`. */
  predicate BothScored(m: FootballMatch) {
    m.FTHG > 0 && m.FTAG > 0
  }

  /** `matches.reduce((sum, m) => sum + m.FTHG + m.FTAG, 0)`. */
  function TotalGoals(ms: seq<FootballMatch>): int
    decreases |ms|
  {
    if ms == [] then 0 else TotalGoals(ms[..|ms| - 1]) + ms[|ms| - 1].FTHG + ms[|ms| - 1].FTAG
  }

  /** `analyzePatterns` on a non-empty list (on an empty one the source
      divides zero by zero and prints "NaN"). */
  function AnalyzePatterns(ms: seq<FootballMatch>): (r: LeagueStats)
    requires |ms| > 0
    ensures r.totalMatches == |ms|
    ensures r.homeWins + r.draws + r.awayWins <= r.totalMatches
    ensures r.homeWinPercentage + r.drawPercentage + r.awayWinPercentage <= 1001
    ensures r.over25Percentage <= 1000 && r.btsPercentage <= 1000
  {
    var n := |ms|;
    var homeWins := Count(ms, IsHomeWin);
    var draws := Count(ms, IsDraw);
    var awayWins := Count(ms, IsAwayWin);
    ResultsPartition(ms);
    var r := LeagueStats(
      n, homeWins, draws, awayWins,
      AvgHundredths(TotalGoals(ms), n),
      RoundPctTenths(Count(ms, IsOver25), n),
      RoundPctTenths(Count(ms, BothScored), n),
      RoundPctTenths(homeWins, n), RoundPctTenths(draws, n), RoundPctTenths(awayWins, n));
    PercentagesAddUp(homeWins, draws, awayWins, n);
    r
  }

  /** A match whose result code is none of `H`, `D`, `A`. */
  predicate IsOtherResult(m: FootballMatch) {
    !IsHomeWin(m) && !IsDraw(m) && !IsAwayWin(m)
  }

  /** Every match has exactly one of the codes `H`, `D`, `A`, or another one:
      the three counts and the rest add up to the number of matches. */
  lemma {:induction false} ResultsPartition(ms: seq<FootballMatch>)
    ensures Count(ms, IsHomeWin) + Count(ms, IsDraw) + Count(ms, IsAwayWin)
            + Count(ms, IsOtherResult) == |ms|
    decreases |ms|
  {
    if ms != [] {
      ResultsPartition(ms[..|ms| - 1]);
    }
  }

  /** Three rounded shares of at most one whole never print more than
      100.1%, and three shares of exactly one whole print at least 99.9%. */
  lemma PercentagesAddUp(h: nat, d: nat, a: nat, n: nat)
    requires n > 0
    requires h + d + a <= n
    ensures RoundPctTenths(h, n) + RoundPctTenths(d, n) + RoundPctTenths(a, n) <= 1001
    ensures h + d + a == n ==>
              999 <= RoundPctTenths(h, n) + RoundPctTenths(d, n) + RoundPctTenths(a, n)
  {
    TenthsBounds(h, n);
    TenthsBounds(d, n);
    TenthsBounds(a, n);
    SumOfRounded(n, h, d, a, RoundPctTenths(h, n), RoundPctTenths(d, n), RoundPctTenths(a, n));
  }

  /** Three values each within half a unit of `1000 * share / n` add up to
      within one and a half units of `1000 * total / n`. */
  lemma SumOfRounded(n: nat, h: nat, d: nat, a: nat, x: int, y: int, z: int)
    requires n > 0 && h + d + a <= n
    requires n * (2 * x - 1) <= 2000 * h < n * (2 * x + 1)
    requires n * (2 * y - 1) <= 2000 * d < n * (2 * y + 1)
    requires n * (2 * z - 1) <= 2000 * a < n * (2 * z + 1)
    ensures x + y + z <= 1001
    ensures h + d + a == n ==> 999 <= x + y + z
  {
    HalfUnits(n, x);
    HalfUnits(n, y);
    HalfUnits(n, z);
    var s := x + y + z;
    Distrib3(n, x, y, z);
    assert 2 * (n * s) - 3 * n <= 2000 * (h + d + a) < 2 * (n * s) + 3 * n;
    MulMonotone(n, 1002, s);
    MulMonotone(n, s, 998);
  }

  lemma Distrib3(n: int, a: int, b: int, c: int)
    ensures n * (a + b + c) == n * a + n * b + n * c
  {
  }

  /** When every result code is `H`, `D` or `A`, the three printed result
      percentages add up to 100% within one printed decimal. */
  lemma ResultPercentagesNear100(ms: seq<FootballMatch>)
    requires |ms| > 0
    requires forall i :: 0 <= i < |ms| ==> ms[i].FTR == "H" || ms[i].FTR == "D" || ms[i].FTR == "A"
    ensures var r := AnalyzePatterns(ms);
            999 <= r.homeWinPercentage + r.drawPercentage + r.awayWinPercentage <= 1001
  {
    ResultsPartition(ms);
    NoOtherResult(ms);
    PercentagesAddUp(Count(ms, IsHomeWin), Count(ms, IsDraw), Count(ms, IsAwayWin), |ms|);
  }

  lemma {:induction false} NoOtherResult(ms: seq<FootballMatch>)
    requires forall i :: 0 <= i < |ms| ==> ms[i].FTR == "H" || ms[i].FTR == "D" || ms[i].FTR == "A"
    ensures Count(ms, IsOtherResult) == 0
    decreases |ms|
  {
    if ms != [] {
      NoOtherResult(ms[..|ms| - 1]);
    }
  }

  /** The result counts are exact: each is the number of positions whose
      code equals that letter. */
  lemma ResultCountsExact(ms: seq<FootballMatch>)
    requires |ms| > 0
    ensures AnalyzePatterns(ms).homeWins == |set i | 0 <= i < |ms| && ms[i].FTR == "H"|
    ensures AnalyzePatterns(ms).draws == |set i | 0 <= i < |ms| && ms[i].FTR == "D"|
    ensures AnalyzePatterns(ms).awayWins == |set i | 0 <= i < |ms| && ms[i].FTR == "A"|
  {
    CountIsIndexCount(ms, IsHomeWin);
    CountIsIndexCount(ms, IsDraw);
    CountIsIndexCount(ms, IsAwayWin);
    assert Indices(ms, IsHomeWin) == set i | 0 <= i < |ms| && ms[i].FTR == "H";
    assert Indices(ms, IsDraw) == set i | 0 <= i < |ms| && ms[i].FTR == "D";
    assert Indices(ms, IsAwayWin) == set i | 0 <= i < |ms| && ms[i].FTR == "A";
  }

  /** The over-2.5 percentage is that of the positions with three or more
      goals. */
  lemma Over25Exact(ms: seq<FootballMatch>)
    requires |ms| > 0
    ensures AnalyzePatterns(ms).over25Percentage
            == RoundPctTenths(|set i | 0 <= i < |ms| && ms[i].FTHG + ms[i].FTAG >= 3|, |ms|)
  {
    CountIsIndexCount(ms, IsOver25);
    assert Indices(ms, IsOver25) == set i | 0 <= i < |ms| && ms[i].FTHG + ms[i].FTAG >= 3;
  }

  /** The both-teams-scored percentage is that of the positions where both
      goal counts are positive. */
  lemma BothScoredExact(ms: seq<FootballMatch>)
    requires |ms| > 0
    ensures AnalyzePatterns(ms).btsPercentage
            == RoundPctTenths(|set i | 0 <= i < |ms| && ms[i].FTHG > 0 && ms[i].FTAG > 0|, |ms|)
  {
    CountIsIndexCount(ms, BothScored);
    assert Indices(ms, BothScored) == set i | 0 <= i < |ms| && ms[i].FTHG > 0 && ms[i].FTAG > 0;
  }
}
