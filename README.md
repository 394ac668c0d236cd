# Football match analysis: parser, league aggregates, leaderboard and matchup analyser

This project models the data logic of a football statistics dashboard and
proves properties of it in Dafny.

- **Parser** (`src/utils/csvParser.ts`, `parseCSV` without the download).
  Newline-separated CSV text becomes an ordered list of `FootballMatch` records.
  - Blank lines are dropped.
  - The first line names the columns. When a name repeats, the later column wins.
  - Cells are trimmed, and a short row reads `""`.
  - A row without a home or an away team is dropped.
  - Each goal cell is read with `parseInt(cell) || 0`.
  - The JavaScript primitives `trim`, `split` and `parseInt` are modelled as
    ECMAScript defines them (module `Text`).
- **League aggregates** (`analyzePatterns`):
  - counts of the result codes `H`, `D` and `A`;
  - total goals and average goals;
  - the share of matches with over 2.5 goals, and the share where both sides scored.
- **Leaderboard** (`getTeamStats`). A per-team dictionary of wins, draws,
  losses, goals for and goals against is filled in place, one match at a time.
  Its entries are then listed in insertion order, stably sorted by points
  (3 per win, 1 per draw) and cut to eight rows.
- **Matchup analyser** (`src/components/MatchupAnalysis.tsx`, the logic
  before the JSX):
  - It takes the home team's first `lastNGames` home matches and the away
    team's first `lastNGames` away matches.
  - If either list is empty, nothing is computed.
  - Otherwise `analyzeTeam` summarises each list. Results are judged from the
    goals, not from the `FTR` code.
  - A fixed sequence of rules then turns the two summaries into insights:
    many goals, both teams to score, favourite or balanced game, and solid defence.

Numbers that the source renders with `toFixed` are integers here:
- rates are whole percents;
- league percentages are in tenths of a percent;
- averages are in hundredths of a goal.

Each is the exact quotient rounded to the nearest unit, with halves rounded away
from zero (module `Rounding`).

Behaviour of the source that a reader may not expect, which the model keeps:
- Goal counts may be negative. `parseInt` accepts a sign, so a cell `-1` reads as -1.
- `parseInt` reads the longest numeric prefix, so `2.0` and `3 goals` read as 2 and 3.
- A cell starting `0x` is read as hexadecimal.
- The `FTR` code is trusted as written and may be any string. `getTeamStats`
  counts any code other than `H` or `D` as a home loss, and any code other than
  `A` or `D` as an away loss.
- `analyzePatterns` on an empty list divides by zero; it does not print 0.

Modules:
- `Wrappers` holds `Option`.
- `Text`: `trim`, `split`, `parseInt`, and the decimal rendering used to state
  round trips.
- `Seqs`: `filter`, `filter().length`, `slice(0, end)`.
- `Csv`: the record type and the parser.
- `Rounding`: `toFixed` as integer rounding.
- `League`: `analyzePatterns`.
- `Ranking`: the stable sort by points.
- `Leaderboard`: `getTeamStats`.
- `Matchup`: the matchup analyser.

Where the source loops and updates state, the model does the same with
methods. The loops of `parseCSV`, `getTeamStats` and `analyzeTeam`, and the
pushes onto `predictions`, are methods. Each is proved equal to a
specification function, and the properties are proved as lemmas about that function.

## Model

| member | source | states |
|---|---|---|
| Text.Trim | src/utils/csvParser.ts:19 | `s.trim()` is the part of `s` with only white space before and after it, and it neither starts nor ends with white space |
| Text.BlankIffAllSpace | src/utils/csvParser.ts:19 | a line's trim is empty (the line is dropped) exactly when every character is white space |
| Text.Split | src/utils/csvParser.ts:19 | `split` yields at least one piece and no piece contains the separator |
| Text.JoinSplit | src/utils/csvParser.ts:19 | joining the pieces of a split with the separator gives back the text: splitting loses nothing |
| Text.SplitJoin | src/utils/csvParser.ts:32 | splitting a join of separator-free cells gives back exactly those cells |
| Text.LeadingDigits | src/utils/csvParser.ts:45-48 | `parseInt` reads the longest run of digits: every character of the prefix is a digit and the next one is not |
| Text.ParseIntShowInt | src/utils/csvParser.ts:45-48 | `parseInt(String(n) + rest) == n` for every integer `n`, whenever `rest` does not continue the number, and the fallback to 0 keeps the value |
| Text.ParseIntShowNat | src/utils/csvParser.ts:45-48 | the same round trip for a non-negative number |
| Text.ParseInt | src/utils/csvParser.ts:45-48 | `parseInt(s)` without a radix: leading white space skipped, one sign, `0x`/`0X` switching to base 16, then the longest run of digits; `None` (NaN) without a digit. Its properties are stated by Text.LeadingDigits, Text.ParseIntShowInt and Text.NoDigitIsNaN |
| Text.ParseIntOrZero | src/utils/csvParser.ts:45-48 | `parseInt(s)` with NaN read as 0. Text.ParseIntShowInt states that it keeps every rendered integer, and Text.NoDigitIsNaN that a cell without a digit gives 0 |
| Text.NoDigitIsNaN | src/utils/csvParser.ts:45-48 | a string without any decimal digit is NaN to `parseInt`, so the goal reading falls back to 0 |
| Seqs.FilterMembers | src/components/MatchupAnalysis.tsx:15-21 | `filter` keeps exactly the elements that satisfy the predicate |
| Seqs.CountIsIndexCount | src/utils/csvParser.ts:67-69 | `filter(p).length` is the number of positions whose element satisfies `p` |
| Seqs.CountZero | src/components/MatchupAnalysis.tsx:23 | the filtered list is empty exactly when no element satisfies the predicate |
| Seqs.Positions | src/utils/csvParser.ts:19 | the positions of the elements that pass, each listed once, in increasing order |
| Seqs.FilterAtPositions | src/utils/csvParser.ts:19 | the `k`-th element a filter keeps is the element at the `k`-th position that passes, and there are as many kept elements as passing positions |
| Seqs.FilterPrefix | src/components/MatchupAnalysis.tsx:15-21 | the first `k` elements the filter keeps are what it keeps of some leading part of the input |
| Seqs.SliceTo | src/components/MatchupAnalysis.tsx:17 | `slice(0, end)` is a leading part of length `min(end, length)`, and for a negative `end` it drops that many elements from the end |
| Csv.Lines | src/utils/csvParser.ts:19 | a line is kept exactly when it is a piece of the text split at newlines and is not all white space |
| Csv.LinesInOrder | src/utils/csvParser.ts:19 | the `k`-th kept line is the piece at the `k`-th non-blank position, so the kept lines follow the text's order and keep its repeats |
| Csv.NonBlankPositions | src/utils/csvParser.ts:19 | the positions the filter keeps are exactly those whose piece is not all white space |
| Csv.HeaderNames | src/utils/csvParser.ts:26 | there is one header name per comma-separated piece of the first line, each name is that piece with the white space around it removed, and no name starts or ends with white space |
| Csv.Cell | src/utils/csvParser.ts:36 | a cell is `values[index]` with the white space around it removed, so it neither starts nor ends with white space, and past the end of a short row it is `""` |
| Csv.LastIndexOf | src/utils/csvParser.ts:35-37 | the last position of a header name, or -1 exactly when the name is absent |
| Csv.RowFields | src/utils/csvParser.ts:35-37 | the row object has a key for exactly the header names, each holding the trimmed cell under that name's last column, or `""` past the end of the row |
| Csv.FillFields | src/utils/csvParser.ts:35-37 | the column-by-column loop builds exactly that object |
| Csv.ParseRows | src/utils/csvParser.ts:31-51 | at most one record per data row, and no record has an empty home or away team |
| Csv.ParseCsv | src/utils/csvParser.ts:19-58 | fewer than two non-blank lines give no records; otherwise there are at most (non-blank lines − 1) records, none with an empty team |
| Csv.ParseCsvText | src/utils/csvParser.ts:19-58 | the parser's loop returns `ParseCsv` of the text |
| Csv.ReadRows | src/utils/csvParser.ts:31-51 | the loop over the data lines pushes the records of `lines[1..]` in row order |
| Csv.ParseRowsAppend | src/utils/csvParser.ts:31-51 | records come out in row order: the records of two blocks of rows are those of the first block followed by those of the second |
| Csv.ParseRowsMembers | src/utils/csvParser.ts:40-50 | a record is in the output exactly when some data row yields it |
| Csv.RowToMatchByPosition | src/utils/csvParser.ts:32-48 | every field of a record is the trimmed cell at the position of that header's last occurrence, or `""` when the row is short or the header lacks the column |
| Csv.MatchFrom | src/utils/csvParser.ts:40-48 | the record built from one row's cells, or none when a team cell is empty. Csv.RowKeptByTeams states when a row is kept, and Csv.GoalCellReadsNumber and Csv.GoalCellWithoutDigits state how each goal cell is read |
| Csv.FromFields | src/utils/csvParser.ts:40-48 | the record read off the object one row filled in. Csv.RowToMatchByPosition states that this equals reading the cells by position |
| Csv.RowKeptByTeams | src/utils/csvParser.ts:40-42 | a row is kept exactly when both team cells are non-empty; its goal cells never drop it |
| Csv.GoalCellReadsNumber | src/utils/csvParser.ts:45-48 | in any of the four goal columns (`FTHG`, `FTAG`, `HTHG`, `HTAG`), a cell holding a number, possibly followed by text that does not continue it, reads as that number |
| Csv.GoalCellWithoutDigits | src/utils/csvParser.ts:45-48 | in any of the four goal columns, a cell without a digit (empty, missing, text) reads as 0 |
| Rounding.RoundDiv | src/utils/csvParser.ts:72 | `toFixed` on an exact quotient, as an integer count of units. Rounding.RoundDivBounds states its meaning |
| Rounding.AvgHundredths | src/components/MatchupAnalysis.tsx:83-90 | an average printed with `toFixed(2)`, in hundredths, or 0 when there are no games. It is RoundDiv of 100 times the total, so Rounding.RoundDivBounds states its meaning |
| Rounding.RoundDivBounds | src/utils/csvParser.ts:72 | `toFixed` gives the nearest unit: within half a unit of the exact quotient, halves going away from zero |
| Rounding.RoundPct | src/components/MatchupAnalysis.tsx:82 | the rounded percentage of a share of at most one whole is at most 100 |
| Rounding.RoundPctTenths | src/utils/csvParser.ts:75 | a share of at most one whole prints as at most 100.0 |
| Rounding.RoundShareBound | src/utils/csvParser.ts:75 | a rounded scaled share is non-negative, and at most the scale when the share is at most one whole |
| Rounding.TenthsBounds | src/utils/csvParser.ts:88-90 | a percentage in tenths is within half a tenth of the exact share |
| Rounding.RoundPctAbove | src/components/MatchupAnalysis.tsx:149 | a rounded percentage exceeds the whole number `t` exactly when the exact share is at least `t + 1/2` percent |
| Rounding.RateOrZero | src/components/MatchupAnalysis.tsx:85-86 | a venue rate is 0 when there are no games at that venue, and at most 100 otherwise |
| League.IsOver25 | src/utils/csvParser.ts:74 | more than 2.5 goals means three or more |
| League.TotalGoals | src/utils/csvParser.ts:71 | the `reduce` over both goal counts of every match. Leaderboard.GoalsBalance states that it equals the goals for, and the goals against, summed over all teams |
| League.AnalyzePatterns | src/utils/csvParser.ts:65-92 | `totalMatches` is the number of matches; `homeWins + draws + awayWins <= totalMatches`; the three result percentages add up to at most 100.1; the other two percentages are at most 100.0 |
| League.ResultsPartition | src/utils/csvParser.ts:67-69 | every match has exactly one of the codes `H`, `D`, `A` or another, so the counts add up to the number of matches |
| League.PercentagesAddUp | src/utils/csvParser.ts:88-90 | three rounded shares of at most one whole print at most 100.1% together, and at least 99.9% when they make up the whole |
| League.ResultPercentagesNear100 | src/utils/csvParser.ts:88-90 | when every code is `H`, `D` or `A`, the printed result percentages add up to between 99.9 and 100.1 |
| League.ResultCountsExact | src/utils/csvParser.ts:67-69 | each result count is the number of positions whose code equals that letter exactly |
| League.Over25Exact | src/utils/csvParser.ts:74-75 | the over-2.5 percentage is that of the matches with at least three goals |
| League.BothScoredExact | src/utils/csvParser.ts:77-78 | the both-scored percentage is that of the matches where both goal counts are positive |
| Ranking.Insert | src/utils/csvParser.ts:128 | one step of the stable sort: the row goes behind every row with at least its points. Ranking.InsertPerm, Ranking.InsertSorted and Ranking.InsertStable state its properties |
| Ranking.InsertPerm | src/utils/csvParser.ts:128 | one insertion step adds its row and loses none |
| Ranking.InsertSorted | src/utils/csvParser.ts:128 | one insertion step keeps the rows in order of decreasing points |
| Ranking.SortByPoints | src/utils/csvParser.ts:128 | the sort yields rows in order of decreasing points, and they are a permutation of its input |
| Ranking.InsertStable | src/utils/csvParser.ts:128 | inserting a row puts it behind every row with the same points |
| Ranking.SortStable | src/utils/csvParser.ts:128 | the sort is stable: for every number of points, those rows keep their input order |
| Ranking.PrefixOnTop | src/utils/csvParser.ts:129 | the first rows of a sorted list are sorted, and no row cut off has more points than a row kept |
| Ranking.PrefixFilter | src/utils/csvParser.ts:129 | among rows with equal points, the cut keeps the first ones |
| Leaderboard.TallyAll | src/utils/csvParser.ts:97-117 | the dictionary after the `forEach`. Leaderboard.TallyAllDescribes, Leaderboard.LeagueTotals and Leaderboard.GoalsBalance state what it holds |
| Leaderboard.TeamRecord | src/utils/csvParser.ts:99-116 | one team's record computed on its own, without the dictionary. Leaderboard.TallyAllDescribes states that the dictionary's entry equals it, and Leaderboard.TeamRecordGames states what it counts |
| Leaderboard.TeamStats | src/utils/csvParser.ts:97-117 | the `forEach` over the matches, updating the dictionary in place, yields `TallyAll` of the matches |
| Leaderboard.RecordMatch | src/utils/csvParser.ts:97-117 | one callback is the home team's update followed by the away team's |
| Leaderboard.RecordHomeTeam | src/utils/csvParser.ts:99-106 | the home team is entered if new and credited with its goals and a win on `H`, a draw on `D`, otherwise a loss |
| Leaderboard.RecordAwayTeam | src/utils/csvParser.ts:109-116 | the away team is entered if new and credited with its goals and a win on `A`, a draw on `D`, otherwise a loss |
| Leaderboard.StepValid | src/utils/csvParser.ts:97-117 | each callback keeps the keys and their listing in step, and lists each key once |
| Leaderboard.TallyAllValid | src/utils/csvParser.ts:97-117 | after the loop, every key is listed exactly once |
| Leaderboard.TallyAllDescribes | src/utils/csvParser.ts:97-117 | the dictionary holds an entry for exactly the teams that play, each entry is that team's own record, and the keys are in order of first appearance; when two teams first appear in the same match, the home team is listed first |
| Leaderboard.TeamRecordGames | src/utils/csvParser.ts:99-116 | a team's wins + draws + losses equal its home plus away appearances; wins are its home `H` and away `A` codes; draws are its `D` codes |
| Leaderboard.CreditBoth | src/utils/csvParser.ts:99-116 | one match adds its goals to both sides, and its code adds a win and a loss, two draws, or two losses |
| Leaderboard.LeagueTotals | src/utils/csvParser.ts:97-117 | summed over all teams, the dictionary counts every match once per side |
| Leaderboard.GoalsBalance | src/utils/csvParser.ts:102-103 | summed over all teams, goals for equal goals against and equal all goals scored, and results number twice the matches |
| Leaderboard.RowsAreEntries | src/utils/csvParser.ts:119-127 | `Object.entries(...).map(...)` lists a row exactly when its name is a key and it holds that key's entry; the names follow the order the keys were entered, and no name is listed twice |
| Leaderboard.StandingsAreRecords | src/utils/csvParser.ts:119-127 | every listed row is a team that plays, with that team's own record |
| Leaderboard.TeamTable | src/utils/csvParser.ts:94-130 | the leaderboard has min(8, teams) rows in order of decreasing points; each row is a playing team's own record; the rows are drawn from the team rows, none more often than it occurs there; no team left out has more points than a team listed |
| Leaderboard.TeamTableStable | src/utils/csvParser.ts:128-129 | teams on equal points keep first-appearance order |
| Leaderboard.SingleDraw | src/utils/csvParser.ts:94-130 | a single draw between two teams lists the home team, then the away team, each with one draw and its goals |
| Matchup.HomeSubset | src/components/MatchupAnalysis.tsx:15-17 | the home team's matches at home, cut by `slice(0, lastNGames)`. Matchup.FirstMatches states its properties |
| Matchup.AwaySubset | src/components/MatchupAnalysis.tsx:19-21 | the away team's matches away, cut the same way. Matchup.FirstMatches states its properties |
| Matchup.FirstMatches | src/components/MatchupAnalysis.tsx:15-21 | each subset holds only input matches of that team at that venue, in input order, the first ones found; with a non-negative bound its length is min(bound, available); with a bound of at least one it is empty only when the team never plays at that venue |
| Matchup.AnalyzeMatchup | src/components/MatchupAnalysis.tsx:13-158 | the analyser returns no data exactly when either subset is empty (for a positive bound: the home team never plays at home, or the away team never plays away); otherwise it returns the reports of the two subsets and the rules' predictions |
| Matchup.AnalyzeTeam | src/components/MatchupAnalysis.tsx:36-97 | the counter loop returns the report of the team's matches |
| Matchup.CountOne | src/components/MatchupAnalysis.tsx:44-74 | one callback updates the counters as one match prescribes |
| Matchup.CountMatch | src/components/MatchupAnalysis.tsx:45-73 | what one match adds to the counters. Matchup.CountOne is its in-place form |
| Matchup.TeamCounts | src/components/MatchupAnalysis.tsx:44-74 | the counters after the loop. Matchup.TeamCountsResults, Matchup.TeamCountsVenues and Matchup.TeamCountsGoals state what each counter counts |
| Matchup.Report | src/components/MatchupAnalysis.tsx:76-96 | the record built from the counters. Matchup.ReportBounds, Matchup.VenueRatesBounded, Matchup.HomeSubsetReport and Matchup.DefenceThreshold state its properties |
| Matchup.TeamCountsResults | src/components/MatchupAnalysis.tsx:60-68 | wins, draws and losses count the matches with more, equal and fewer goals for than against, and add up to the number of matches |
| Matchup.TeamCountsVenues | src/components/MatchupAnalysis.tsx:45-63 | home wins count the wins as home side, away wins the rest, and they add up to the wins; venue goals add up to the totals |
| Matchup.TeamCountsGoals | src/components/MatchupAnalysis.tsx:70-73 | the clean-sheet, failed-to-score, over-2.5 and both-scored counters count exactly the matches with that property |
| Matchup.ReportBounds | src/components/MatchupAnalysis.tsx:76-96 | wins + draws + losses equal the games, and every rate over all games is at most 100 |
| Matchup.VenueRatesBounded | src/components/MatchupAnalysis.tsx:85-86 | when the team plays every match, the venue win rates are at most 100 |
| Matchup.HomeSubsetReport | src/components/MatchupAnalysis.tsx:76-90 | over home matches only, the home figures equal the overall ones and every away figure is 0 |
| Matchup.DefenceThreshold | src/components/MatchupAnalysis.tsx:149 | a clean-sheet rate passes the threshold of 30 exactly when the team kept clean sheets in at least 30.5% of its games |
| Matchup.GoalsRule | src/components/MatchupAnalysis.tsx:106-115 | the goals rule. Matchup.PredictionsFollowRules states its condition |
| Matchup.BothRule | src/components/MatchupAnalysis.tsx:118-125 | the both-score rule. Matchup.PredictionsFollowRules states its condition and confidence |
| Matchup.WinRule | src/components/MatchupAnalysis.tsx:128-146 | the favourite rule and its balanced branch. Matchup.PredictionsFollowRules states which is chosen, the side and the confidence |
| Matchup.DefenceRule | src/components/MatchupAnalysis.tsx:149-158 | the defence rule. Matchup.PredictionsFollowRules states its condition, side and confidence |
| Matchup.Predictions | src/components/MatchupAnalysis.tsx:103-158 | the list the rules build. Matchup.PredictionsOrdered, Matchup.PredictionsFollowRules and Matchup.RulesDetermine state its properties |
| Matchup.Predict | src/components/MatchupAnalysis.tsx:103-158 | the sequence of pushes builds the rules' list |
| Matchup.PredictionsMembers | src/components/MatchupAnalysis.tsx:103-158 | an insight is in the list exactly when its own rule emits it |
| Matchup.PredictionsOrdered | src/components/MatchupAnalysis.tsx:103-158 | the list has 1 to 4 insights in rule order (goals, both-score, favourite or balanced, defence), and a favourite or balanced insight is always present |
| Matchup.PredictionsFollowRules | src/components/MatchupAnalysis.tsx:106-158 | many goals (always high) iff predicted goals exceed 2.5; both-score iff the mean rate exceeds 50, high iff it exceeds 65; favourite iff the win rates differ by more than 20, the home side iff its rate is greater, high iff the gap exceeds 30, else balanced; defence iff either clean-sheet rate exceeds 30, the home side iff its rate is strictly greater, high iff the larger rate exceeds 40 |
| Matchup.RulesDetermine | src/components/MatchupAnalysis.tsx:103-158 | only one list follows the rules, so the list built is the one they describe |

## Left out

- Downloading the file (`fetch`, `async`), logging and the `try`/`catch` of
  `parseCSV` are not modelled; the model starts from the downloaded text. The
  `catch` turns any transport failure into an empty list.
- Floating point is not modelled. `toFixed` is exact-quotient rounding.
  `parseFloat` of a two-decimal average is that average in hundredths.
  `predictedGoals > 2.5` is compared exactly. Where binary floating point
  differs from exact arithmetic at a rounding tie, the model follows the
  exact arithmetic.
- `parseInt` beyond 2^53 is read as an exact integer; JavaScript loses
  precision there.
- League.AnalyzePatterns: requires a non-empty list. On an empty one the
  source divides 0 by 0 and prints `NaN`.
- Matchup.AnalyzeTeam: requires a non-empty list, as the no-data guard
  ensures for both calls.
- `Object.entries` lists keys in insertion order here. JavaScript lists
  integer-like keys (a team named `2024`) first, in numeric order.
- Team names that are names of `Object.prototype` members (`constructor`,
  `__proto__`) are treated as ordinary keys. The source would find them
  already present and skip creating the entry.
- CSV columns that are not fields of `FootballMatch` are not kept in the
  record. A field whose column is missing reads `""` instead of `undefined`.
  Every consumer treats the two alike: both are falsy, both compare unequal
  to a result code, and `parseInt` of either gives 0.
- The JSX, the emoji titles and the description strings are not modelled.
  Each insight is a tag with a confidence and, where the rule names a team,
  a side. The favourite's text gives the location ("em casa" or "fora") by
  the same comparison that picks the side. The defence text instead picks
  the location by comparing the team's name with the home team's name. So
  when the home and away team are the same, the defence text always says
  "em casa", even when the away side's rate is the higher. The tag records
  the side that the comparison of the rates picks.
- `lastNGames` is an integer here. The source's `number` may also be a
  fraction, which `slice` truncates, or NaN, which it reads as 0, or
  Infinity, which keeps every match.
- The fifteen counters of `analyzeTeam` are fields of one `Counts` record.
  Each callback (`forEach` body) is a helper method called from the loop.
