/**
 * The home/away matchup analyser (src/components/MatchupAnalysis.tsx): the
 * home team's latest home matches and the away team's latest away matches
 * are each summarised by `analyzeTeam`, and a fixed list of rules turns the
 * two summaries into insights.
 */
module Matchup {
  import opened Wrappers
  import opened Csv
  import opened Seqs
  import opened Rounding

  // ------------------------------------------------------------- subsets

  /** `matches.filter(m => m.HomeTeam === homeTeam).slice(0, lastNGames)`. */
  function HomeSubset(ms: seq<FootballMatch>, team: string, lastNGames: int): seq<FootballMatch>
  {
    SliceTo(Filter(ms, HomeOf(team)), lastNGames)
  }

  /** `matches.filter(m => m.AwayTeam === awayTeam).slice(0, lastNGames)`. */
  function AwaySubset(ms: seq<FootballMatch>, team: string, lastNGames: int): seq<FootballMatch>
  {
    SliceTo(Filter(ms, AwayOf(team)), lastNGames)
  }

  /** The first matches, in input order, that satisfy `p`: every one of them
      is an input match satisfying `p`; together they are what the filter
      keeps of some leading part of the input; a non-negative bound keeps
      that many or all of them; and with a bound of at least one, none is
      kept only when no input match satisfies `p`. */
  lemma FirstMatches(ms: seq<FootballMatch>, p: FootballMatch -> bool, lastNGames: int)
    ensures var r := SliceTo(Filter(ms, p), lastNGames);
            && (forall m :: m in r ==> m in ms && p(m))
            && (exists j :: 0 <= j <= |ms| && r == Filter(ms[..j], p))
            && (lastNGames >= 0 ==>
                  |r| == if lastNGames < Count(ms, p) then lastNGames else Count(ms, p))
            && (lastNGames >= 1 ==> (r == [] <==> forall i :: 0 <= i < |ms| ==> !p(ms[i])))
  {
    var f := Filter(ms, p);
    var r := SliceTo(f, lastNGames);
    forall m | m in r ensures m in ms && p(m) {
      FilterMembers(ms, p, m);
    }
    FilterPrefix(ms, p, |r|);
    CountZero(ms, p);
  }

  // ------------------------------------------------------------ analyzeTeam

  /** The counters of `analyzeTeam`. */
  datatype Counts = Counts(
    wins: nat, draws: nat, losses: nat,
    goalsFor: int, goalsAgainst: int,
    homeWins: nat, awayWins: nat,
    homeGF: int, awayGF: int, homeGA: int, awayGA: int,
    cleanSheets: nat, failedToScore: nat, over25Games: nat, bothScoreGames: nat)

  const NoCounts: Counts := Counts(0, 0, 0, 0, 0, 0, 0, 0, 0, 0, 0, 0, 0, 0, 0)

  /** `isHome ? match.FTHG : match.FTAG`: the team is taken to be the away
      side whenever it is not the home side. */
  function GoalsFor(team: string, m: FootballMatch): int
  {
    if m.HomeTeam == team then m.FTHG else m.FTAG
  }

  function GoalsAgainst(team: string, m: FootballMatch): int
  {
    if m.HomeTeam == team then m.FTAG else m.FTHG
  }

  /** What one match adds to the counters. */
  function CountMatch(c: Counts, team: string, m: FootballMatch): Counts
  {
    var home := m.HomeTeam == team;
    var gf := GoalsFor(team, m);
    var ga := GoalsAgainst(team, m);
    Counts(
      if gf > ga then c.wins + 1 else c.wins,
      if gf == ga then c.draws + 1 else c.draws,
      if gf < ga then c.losses + 1 else c.losses,
      c.goalsFor + gf, c.goalsAgainst + ga,
      if gf > ga && home then c.homeWins + 1 else c.homeWins,
      if gf > ga && !home then c.awayWins + 1 else c.awayWins,
      if home then c.homeGF + gf else c.homeGF,
      if home then c.awayGF else c.awayGF + gf,
      if home then c.homeGA + ga else c.homeGA,
      if home then c.awayGA else c.awayGA + ga,
      if ga == 0 then c.cleanSheets + 1 else c.cleanSheets,
      if gf == 0 then c.failedToScore + 1 else c.failedToScore,
      if 2 * (gf + ga) > 5 then c.over25Games + 1 else c.over25Games,
      if gf > 0 && ga > 0 then c.bothScoreGames + 1 else c.bothScoreGames)
  }

  /** The counters after the `forEach` over `ms`. */
  function TeamCounts(team: string, ms: seq<FootballMatch>): Counts
    decreases |ms|
  {
    if ms == [] then NoCounts else CountMatch(TeamCounts(team, ms[..|ms| - 1]), team, ms[|ms| - 1])
  }

  /** What `analyzeTeam` returns, with every `toFixed(0)` rate as a whole
      percent and every `toFixed(2)` average in hundredths of a goal. */
  datatype TeamReport = TeamReport(
    wins: nat, draws: nat, losses: nat,
    winRate: nat, avgGoalsFor: int, avgGoalsAgainst: int,
    homeWinRate: nat, awayWinRate: nat,
    avgHomeGoalsFor: int, avgAwayGoalsFor: int,
    avgHomeGoalsAgainst: int, avgAwayGoalsAgainst: int,
    cleanSheetRate: nat, failedToScoreRate: nat, over25Rate: nat, bothScoreRate: nat,
    totalGames: nat)

  /** The record `analyzeTeam` builds from its counters; venue figures are
      0 when the team has no game at that venue. */
  function Report(team: string, ms: seq<FootballMatch>): TeamReport
    requires |ms| > 0
  {
    var c := TeamCounts(team, ms);
    var n := |ms|;
    var homeGames := Count(ms, HomeOf(team));
    var awayGames := Count(ms, AwayOf(team));
    TeamReport(
      c.wins, c.draws, c.losses,
      RoundPct(c.wins, n), AvgHundredths(c.goalsFor, n), AvgHundredths(c.goalsAgainst, n),
      RateOrZero(c.homeWins, homeGames), RateOrZero(c.awayWins, awayGames),
      AvgHundredths(c.homeGF, homeGames), AvgHundredths(c.awayGF, awayGames),
      AvgHundredths(c.homeGA, homeGames), AvgHundredths(c.awayGA, awayGames),
      RoundPct(c.cleanSheets, n), RoundPct(c.failedToScore, n),
      RoundPct(c.over25Games, n), RoundPct(c.bothScoreGames, n),
      n)
  }

  /** `analyzeTeam`: counters updated match by match, then the rates. The
      source only calls it on a non-empty list. */
  method AnalyzeTeam(team: string, teamMatches: seq<FootballMatch>) returns (r: TeamReport)
    requires |teamMatches| > 0
    ensures r == Report(team, teamMatches)
  {
    var c := NoCounts;
    for i := 0 to |teamMatches|
      invariant c == TeamCounts(team, teamMatches[..i])
    {
      assert teamMatches[..i + 1][..i] == teamMatches[..i];
      c := CountOne(c, team, teamMatches[i]);
    }
    assert teamMatches[..|teamMatches|] == teamMatches;
    var totalGames := |teamMatches|;
    var homeGames := |Filter(teamMatches, HomeOf(team))|;
    var awayGames := |Filter(teamMatches, AwayOf(team))|;
    r := TeamReport(
      c.wins, c.draws, c.losses,
      RoundPct(c.wins, totalGames),
      AvgHundredths(c.goalsFor, totalGames), AvgHundredths(c.goalsAgainst, totalGames),
      if homeGames > 0 then RoundPct(c.homeWins, homeGames) else 0,
      if awayGames > 0 then RoundPct(c.awayWins, awayGames) else 0,
      if homeGames > 0 then AvgHundredths(c.homeGF, homeGames) else 0,
      if awayGames > 0 then AvgHundredths(c.awayGF, awayGames) else 0,
      if homeGames > 0 then AvgHundredths(c.homeGA, homeGames) else 0,
      if awayGames > 0 then AvgHundredths(c.awayGA, awayGames) else 0,
      RoundPct(c.cleanSheets, totalGames), RoundPct(c.failedToScore, totalGames),
      RoundPct(c.over25Games, totalGames), RoundPct(c.bothScoreGames, totalGames),
      totalGames);
  }

  /** The `forEach` callback of `analyzeTeam`. */
  method CountOne(c0: Counts, team: string, m: FootballMatch) returns (c: Counts)
    ensures c == CountMatch(c0, team, m)
  {
    c := c0;
    var isHome := m.HomeTeam == team;
    var gf := if isHome then m.FTHG else m.FTAG;
    var ga := if isHome then m.FTAG else m.FTHG;
    c := c.(goalsFor := c.goalsFor + gf, goalsAgainst := c.goalsAgainst + ga);
    if isHome {
      c := c.(homeGF := c.homeGF + gf, homeGA := c.homeGA + ga);
    } else {
      c := c.(awayGF := c.awayGF + gf, awayGA := c.awayGA + ga);
    }
    if gf > ga {
      c := c.(wins := c.wins + 1);
      if isHome {
        c := c.(homeWins := c.homeWins + 1);
      } else {
        c := c.(awayWins := c.awayWins + 1);
      }
    } else if gf == ga {
      c := c.(draws := c.draws + 1);
    } else {
      c := c.(losses := c.losses + 1);
    }
    if ga == 0 {
      c := c.(cleanSheets := c.cleanSheets + 1);
    }
    if gf == 0 {
      c := c.(failedToScore := c.failedToScore + 1);
    }
    if 2 * (gf + ga) > 5 {
      c := c.(over25Games := c.over25Games + 1);
    }
    if gf > 0 && ga > 0 {
      c := c.(bothScoreGames := c.bothScoreGames + 1);
    }
  }

  // ------------------------------------------- the counters, one by one

  function Won(team: string): FootballMatch -> bool
  {
    (m: FootballMatch) => GoalsFor(team, m) > GoalsAgainst(team, m)
  }

  function Drew(team: string): FootballMatch -> bool
  {
    (m: FootballMatch) => GoalsFor(team, m) == GoalsAgainst(team, m)
  }

  function Lost(team: string): FootballMatch -> bool
  {
    (m: FootballMatch) => GoalsFor(team, m) < GoalsAgainst(team, m)
  }

  function WonAtHome(team: string): FootballMatch -> bool
  {
    (m: FootballMatch) => m.HomeTeam == team && GoalsFor(team, m) > GoalsAgainst(team, m)
  }

  function WonElsewhere(team: string): FootballMatch -> bool
  {
    (m: FootballMatch) => m.HomeTeam != team && GoalsFor(team, m) > GoalsAgainst(team, m)
  }

  function CleanSheet(team: string): FootballMatch -> bool
  {
    (m: FootballMatch) => GoalsAgainst(team, m) == 0
  }

  function FailedToScore(team: string): FootballMatch -> bool
  {
    (m: FootballMatch) => GoalsFor(team, m) == 0
  }

  function Over25(m: FootballMatch): bool
  {
    m.FTHG + m.FTAG >= 3
  }

  function BothScore(m: FootballMatch): bool
  {
    m.FTHG > 0 && m.FTAG > 0
  }

  /** Results are judged from the goals, not from `FTR`: every match is
      exactly one of a win, a draw and a loss. */
  lemma {:induction false} TeamCountsResults(team: string, ms: seq<FootballMatch>)
    ensures var c := TeamCounts(team, ms);
            && c.wins == Count(ms, Won(team))
            && c.draws == Count(ms, Drew(team))
            && c.losses == Count(ms, Lost(team))
            && c.wins + c.draws + c.losses == |ms|
    decreases |ms|
  {
    if ms != [] {
      TeamCountsResults(team, ms[..|ms| - 1]);
    }
  }

  /** Every win is credited to exactly one venue: home when the team is the
      home side, away otherwise. */
  lemma {:induction false} TeamCountsVenues(team: string, ms: seq<FootballMatch>)
    ensures var c := TeamCounts(team, ms);
            && c.homeWins == Count(ms, WonAtHome(team))
            && c.awayWins == Count(ms, WonElsewhere(team))
            && c.homeWins + c.awayWins == c.wins
            && c.homeGF + c.awayGF == c.goalsFor
            && c.homeGA + c.awayGA == c.goalsAgainst
    decreases |ms|
  {
    if ms != [] {
      TeamCountsVenues(team, ms[..|ms| - 1]);
    }
  }

  /** The clean-sheet, failed-to-score, over-2.5 and both-scored counters
      count exactly the matches with that property. */
  lemma {:induction false} TeamCountsGoals(team: string, ms: seq<FootballMatch>)
    ensures var c := TeamCounts(team, ms);
            && c.cleanSheets == Count(ms, CleanSheet(team))
            && c.failedToScore == Count(ms, FailedToScore(team))
            && c.over25Games == Count(ms, Over25)
            && c.bothScoreGames == Count(ms, BothScore)
    decreases |ms|
  {
    if ms != [] {
      TeamCountsGoals(team, ms[..|ms| - 1]);
    }
  }

  /** The record's results add up to its games, and every rate that is not
      split by venue is a percentage. */
  lemma ReportBounds(team: string, ms: seq<FootballMatch>)
    requires |ms| > 0
    ensures var r := Report(team, ms);
            && r.totalGames == |ms|
            && r.wins + r.draws + r.losses == r.totalGames
            && r.winRate <= 100 && r.cleanSheetRate <= 100 && r.failedToScoreRate <= 100
            && r.over25Rate <= 100 && r.bothScoreRate <= 100
  {
    TeamCountsResults(team, ms);
    TeamCountsGoals(team, ms);
  }

  /** When the team plays in every match, as in both subsets, the venue win
      rates are percentages too. */
  lemma VenueRatesBounded(team: string, ms: seq<FootballMatch>)
    requires |ms| > 0
    requires forall i :: 0 <= i < |ms| ==> ms[i].HomeTeam == team || ms[i].AwayTeam == team
    ensures Report(team, ms).homeWinRate <= 100 && Report(team, ms).awayWinRate <= 100
  {
    TeamCountsVenues(team, ms);
    CountMono(ms, WonAtHome(team), HomeOf(team));
    CountMono(ms, WonElsewhere(team), AwayOf(team));
  }

  /** Over matches the team plays at home, nothing is credited away. */
  lemma {:induction false} AllHomeCounts(team: string, ms: seq<FootballMatch>)
    requires forall i :: 0 <= i < |ms| ==> ms[i].HomeTeam == team
    ensures var c := TeamCounts(team, ms);
            && c.homeWins == c.wins && c.awayWins == 0
            && c.homeGF == c.goalsFor && c.awayGF == 0
            && c.homeGA == c.goalsAgainst && c.awayGA == 0
    decreases |ms|
  {
    if ms != [] {
      var n := |ms| - 1;
      assert forall i :: 0 <= i < n ==> ms[..n][i] == ms[i];
      AllHomeCounts(team, ms[..n]);
    }
  }

  /** For the home team's subset the home figures are the overall ones and
      the away figures are 0. */
  lemma HomeSubsetReport(team: string, ms: seq<FootballMatch>)
    requires |ms| > 0
    requires forall i :: 0 <= i < |ms| ==> ms[i].HomeTeam == team
    ensures var r := Report(team, ms);
            && r.homeWinRate == r.winRate
            && r.avgHomeGoalsFor == r.avgGoalsFor && r.avgHomeGoalsAgainst == r.avgGoalsAgainst
            && r.awayWinRate == 0 && r.avgAwayGoalsFor == 0 && r.avgAwayGoalsAgainst == 0
  {
    AllHomeCounts(team, ms);
    CountAll(ms, HomeOf(team));
  }

  // ------------------------------------------------------------- predictions

  /** "Alta" and "Média". */
  datatype Confidence = High | Medium

  /** The side an insight names: the home team or the away team. */
  datatype Side = HomeSide | AwaySide

  /** One entry of `predictions`, by its rule, without the text. */
  datatype Insight =
    | ManyGoals(confidence: Confidence)
    | BothToScore(confidence: Confidence)
    | Favourite(side: Side, confidence: Confidence)
    | Balanced(confidence: Confidence)
    | SolidDefence(side: Side, confidence: Confidence)

  /** The position of an insight's rule in the fixed order of the rules. */
  function Rank(x: Insight): nat
  {
    match x
    case ManyGoals(_) => 0
    case BothToScore(_) => 1
    case Favourite(_, _) => 2
    case Balanced(_) => 2
    case SolidDefence(_, _) => 3
  }

  /** `predictedGoals`, doubled and in hundredths: the sum of the home
      side's home averages and the away side's away averages. */
  function GoalsSum(h: TeamReport, a: TeamReport): int
  {
    h.avgHomeGoalsFor + a.avgAwayGoalsAgainst + a.avgAwayGoalsFor + h.avgHomeGoalsAgainst
  }

  function WinGap(h: TeamReport, a: TeamReport): nat
  {
    if h.homeWinRate >= a.awayWinRate then h.homeWinRate - a.awayWinRate
    else a.awayWinRate - h.homeWinRate
  }

  function Max(x: nat, y: nat): nat
  {
    if x >= y then x else y
  }

  /** The goals rule: `predictedGoals > 2.5`, always "Alta". */
  function GoalsRule(h: TeamReport, a: TeamReport): seq<Insight>
  {
    if GoalsSum(h, a) > 500 then [ManyGoals(High)] else []
  }

  /** The both-score rule: the mean of the two rates above 50, "Alta"
      above 65. */
  function BothRule(h: TeamReport, a: TeamReport): seq<Insight>
  {
    var sum := h.bothScoreRate + a.bothScoreRate;
    if sum > 100 then [BothToScore(if sum > 130 then High else Medium)] else []
  }

  /** The favourite rule, with the balanced game as its other branch. */
  function WinRule(h: TeamReport, a: TeamReport): Insight
  {
    var gap := WinGap(h, a);
    if gap > 20 then
      Favourite(if h.homeWinRate > a.awayWinRate then HomeSide else AwaySide,
                if gap > 30 then High else Medium)
    else Balanced(Medium)
  }

  /** The defence rule: either clean-sheet rate above 30. */
  function DefenceRule(h: TeamReport, a: TeamReport): seq<Insight>
  {
    if h.cleanSheetRate > 30 || a.cleanSheetRate > 30 then
      [SolidDefence(if h.cleanSheetRate > a.cleanSheetRate then HomeSide else AwaySide,
                    if Max(h.cleanSheetRate, a.cleanSheetRate) > 40 then High else Medium)]
    else []
  }

  /** The `predictions` list the rules build, in their order. */
  function Predictions(h: TeamReport, a: TeamReport): seq<Insight>
  {
    GoalsRule(h, a) + BothRule(h, a) + [WinRule(h, a)] + DefenceRule(h, a)
  }

  /** The rules, each stated on the two records as a condition for each
      insight it can emit, and the order they come in. */
  ghost predicate FollowsRules(h: TeamReport, a: TeamReport, ps: seq<Insight>)
  {
    var bts := h.bothScoreRate + a.bothScoreRate;
    && (forall i, j :: 0 <= i < j < |ps| ==> Rank(ps[i]) < Rank(ps[j]))
    && (forall c :: ManyGoals(c) in ps <==> GoalsSum(h, a) > 500 && c == High)
    && (forall c :: BothToScore(c) in ps <==> bts > 100 && (c == High <==> bts > 130))
    && (forall s, c :: Favourite(s, c) in ps <==>
          WinGap(h, a) > 20 && (s == HomeSide <==> h.homeWinRate > a.awayWinRate)
          && (c == High <==> WinGap(h, a) > 30))
    && (forall c :: Balanced(c) in ps <==> WinGap(h, a) <= 20 && c == Medium)
    && (forall s, c :: SolidDefence(s, c) in ps <==>
          (h.cleanSheetRate > 30 || a.cleanSheetRate > 30)
          && (s == HomeSide <==> h.cleanSheetRate > a.cleanSheetRate)
          && (c == High <==> Max(h.cleanSheetRate, a.cleanSheetRate) > 40))
  }

  /** An insight is in the list exactly when its own rule emits it. */
  lemma PredictionsMembers(h: TeamReport, a: TeamReport, x: Insight)
    ensures x in Predictions(h, a) <==>
            match x
            case ManyGoals(_) => x in GoalsRule(h, a)
            case BothToScore(_) => x in BothRule(h, a)
            case Favourite(_, _) => x == WinRule(h, a)
            case Balanced(_) => x == WinRule(h, a)
            case SolidDefence(_, _) => x in DefenceRule(h, a)
  {
    var g, b, w, d := GoalsRule(h, a), BothRule(h, a), WinRule(h, a), DefenceRule(h, a);
    assert x in g + b + [w] + d <==> x in g || x in b || x == w || x in d;
  }

  /** The rules are applied in their fixed order, and exactly one of the
      favourite and the balanced insights is always emitted. */
  lemma PredictionsOrdered(h: TeamReport, a: TeamReport)
    ensures var ps := Predictions(h, a);
            && 1 <= |ps| <= 4
            && (forall i, j :: 0 <= i < j < |ps| ==> Rank(ps[i]) < Rank(ps[j]))
            && (exists i :: 0 <= i < |ps| && Rank(ps[i]) == 2)
  {
    var g, b, w, d := GoalsRule(h, a), BothRule(h, a), WinRule(h, a), DefenceRule(h, a);
    var ps := g + b + [w] + d;
    var k := |g| + |b|;
    assert forall i :: 0 <= i < |ps| ==>
             Rank(ps[i]) == if i < |g| then 0 else if i < k then 1 else if i == k then 2 else 3;
    assert Rank(ps[k]) == 2;
  }

  /** The list the rules build follows them. */
  lemma PredictionsFollowRules(h: TeamReport, a: TeamReport)
    ensures FollowsRules(h, a, Predictions(h, a))
  {
    var ps := Predictions(h, a);
    PredictionsOrdered(h, a);
    forall c ensures ManyGoals(c) in ps <==> GoalsSum(h, a) > 500 && c == High {
      PredictionsMembers(h, a, ManyGoals(c));
    }
    var bts := h.bothScoreRate + a.bothScoreRate;
    forall c ensures BothToScore(c) in ps <==> bts > 100 && (c == High <==> bts > 130) {
      PredictionsMembers(h, a, BothToScore(c));
    }
    forall s, c ensures Favourite(s, c) in ps <==>
          WinGap(h, a) > 20 && (s == HomeSide <==> h.homeWinRate > a.awayWinRate)
          && (c == High <==> WinGap(h, a) > 30) {
      PredictionsMembers(h, a, Favourite(s, c));
    }
    forall c ensures Balanced(c) in ps <==> WinGap(h, a) <= 20 && c == Medium {
      PredictionsMembers(h, a, Balanced(c));
    }
    forall s, c ensures SolidDefence(s, c) in ps <==>
          (h.cleanSheetRate > 30 || a.cleanSheetRate > 30)
          && (s == HomeSide <==> h.cleanSheetRate > a.cleanSheetRate)
          && (c == High <==> Max(h.cleanSheetRate, a.cleanSheetRate) > 40) {
      PredictionsMembers(h, a, SolidDefence(s, c));
    }
  }

  /** The prediction rules, pushing onto `predictions` in order. */
  method Predict(h: TeamReport, a: TeamReport) returns (ps: seq<Insight>)
    ensures ps == Predictions(h, a)
  {
    ps := [];
    if GoalsSum(h, a) > 500 {
      ps := ps + [ManyGoals(High)];
    }
    assert ps == GoalsRule(h, a);
    var bothScoreSum := h.bothScoreRate + a.bothScoreRate;
    if bothScoreSum > 100 {
      ps := ps + [BothToScore(if bothScoreSum > 130 then High else Medium)];
    }
    assert ps == GoalsRule(h, a) + BothRule(h, a);
    var homeWinProb, awayWinProb := h.homeWinRate, a.awayWinRate;
    var gap := if homeWinProb >= awayWinProb then homeWinProb - awayWinProb else awayWinProb - homeWinProb;
    if gap > 20 {
      var favourite := if homeWinProb > awayWinProb then HomeSide else AwaySide;
      ps := ps + [Favourite(favourite, if gap > 30 then High else Medium)];
    } else {
      ps := ps + [Balanced(Medium)];
    }
    assert ps == GoalsRule(h, a) + BothRule(h, a) + [WinRule(h, a)];
    if h.cleanSheetRate > 30 || a.cleanSheetRate > 30 {
      var solid := if h.cleanSheetRate > a.cleanSheetRate then HomeSide else AwaySide;
      var solidRate := Max(h.cleanSheetRate, a.cleanSheetRate);
      ps := ps + [SolidDefence(solid, if solidRate > 40 then High else Medium)];
    }
  }

  /** The rules decide the list: two lists that both follow them are the
      same list, so the list built is the only one that follows them. */
  lemma RulesDetermine(h: TeamReport, a: TeamReport, ps: seq<Insight>, qs: seq<Insight>)
    requires FollowsRules(h, a, ps) && FollowsRules(h, a, qs)
    ensures ps == qs
  {
    forall x ensures x in ps <==> x in qs {
      match x
      case ManyGoals(c) =>
      case BothToScore(c) =>
      case Favourite(s, c) =>
      case Balanced(c) =>
      case SolidDefence(s, c) =>
    }
    RankedUnique(ps, qs);
  }

  predicate RankedIncreasing(ps: seq<Insight>)
  {
    forall i, j :: 0 <= i < j < |ps| ==> Rank(ps[i]) < Rank(ps[j])
  }

  /** Two lists ranked strictly increasingly with the same elements are
      equal. */
  lemma {:induction false} RankedUnique(ps: seq<Insight>, qs: seq<Insight>)
    requires RankedIncreasing(ps) && RankedIncreasing(qs)
    requires forall x :: x in ps <==> x in qs
    ensures ps == qs
    decreases |ps|
  {
    assert ps == [] <==> qs == [] by {
      if ps != [] {
        assert ps[0] in ps;
      }
      if qs != [] {
        assert qs[0] in qs;
      }
    }
    if ps != [] {
      assert qs[0] in qs && ps[0] in ps;
      var k :| 0 <= k < |ps| && ps[k] == qs[0];
      var l :| 0 <= l < |qs| && qs[l] == ps[0];
      assert Rank(ps[0]) <= Rank(ps[k]);
      assert Rank(qs[0]) <= Rank(qs[l]);
      assert k == 0;
      forall x ensures x in ps[1..] <==> x in qs[1..] {
        TailMember(ps, x);
        TailMember(qs, x);
      }
      RankedUnique(ps[1..], qs[1..]);
      assert ps == [ps[0]] + ps[1..];
      assert qs == [qs[0]] + qs[1..];
    }
  }

  /** In a strictly ranked list, the members after the head are the members
      other than the head. */
  lemma TailMember(ps: seq<Insight>, x: Insight)
    requires ps != [] && RankedIncreasing(ps)
    ensures x in ps[1..] <==> x in ps && x != ps[0]
  {
    if x in ps && x != ps[0] {
      var i :| 0 <= i < |ps| && ps[i] == x;
      assert ps[1..][i - 1] == x;
    }
    if x in ps[1..] {
      var i :| 0 <= i < |ps| - 1 && ps[1..][i] == x;
      assert Rank(ps[0]) < Rank(ps[i + 1]);
    }
  }

  /** A clean-sheet rate passes the defence threshold exactly when the team
      kept a clean sheet in at least 30.5% of its games. */
  lemma DefenceThreshold(team: string, ms: seq<FootballMatch>)
    requires |ms| > 0
    ensures Report(team, ms).cleanSheetRate > 30
            <==> 200 * Count(ms, CleanSheet(team)) >= 61 * |ms|
  {
    var k := TeamCounts(team, ms).cleanSheets;
    TeamCountsGoals(team, ms);
    RoundPctAbove(k, |ms|, 30);
    assert Report(team, ms).cleanSheetRate == RoundPct(k, |ms|);
    assert |ms| * (2 * 30 + 1) == 61 * |ms|;
  }

  // ------------------------------------------------------------- the analysis

  /** The figures the component shows for a matchup. */
  datatype Analysis = Analysis(home: TeamReport, away: TeamReport, predictions: seq<Insight>)

  /** The component's logic: `None` is the "insufficient data" card. */
  method AnalyzeMatchup(homeTeam: string, awayTeam: string, matches: seq<FootballMatch>, lastNGames: int)
    returns (r: Option<Analysis>)
    ensures r.None? <==> HomeSubset(matches, homeTeam, lastNGames) == []
                         || AwaySubset(matches, awayTeam, lastNGames) == []
    ensures lastNGames >= 1 ==>
              (r.None? <==> (forall i :: 0 <= i < |matches| ==> matches[i].HomeTeam != homeTeam)
                            || (forall i :: 0 <= i < |matches| ==> matches[i].AwayTeam != awayTeam))
    ensures r.Some? ==> r.value.home == Report(homeTeam, HomeSubset(matches, homeTeam, lastNGames))
    ensures r.Some? ==> r.value.away == Report(awayTeam, AwaySubset(matches, awayTeam, lastNGames))
    ensures r.Some? ==> r.value.predictions == Predictions(r.value.home, r.value.away)
  {
    FirstMatches(matches, HomeOf(homeTeam), lastNGames);
    FirstMatches(matches, AwayOf(awayTeam), lastNGames);
    var homeTeamHomeMatches := HomeSubset(matches, homeTeam, lastNGames);
    var awayTeamAwayMatches := AwaySubset(matches, awayTeam, lastNGames);
    if |homeTeamHomeMatches| == 0 || |awayTeamAwayMatches| == 0 {
      return None;
    }
    var homeTeamStats := AnalyzeTeam(homeTeam, homeTeamHomeMatches);
    var awayTeamStats := AnalyzeTeam(awayTeam, awayTeamAwayMatches);
    var predictions := Predict(homeTeamStats, awayTeamStats);
    return Some(Analysis(homeTeamStats, awayTeamStats, predictions));
  }
}
