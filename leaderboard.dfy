/**
 * `getTeamStats` (src/utils/csvParser.ts): a dictionary of per-team tallies
 * filled in place, one match at a time, then listed in insertion order,
 * stably sorted by points (3 per win, 1 per draw) and cut to eight rows.
 */
module Leaderboard {
  import opened Csv
  import opened Seqs
  import opened League
  import opened Ranking

  /** One entry of the `teamStats` dictionary. */
  datatype Tally = Tally(wins: nat, draws: nat, losses: nat, goalsFor: int, goalsAgainst: int)

  const NoGames: Tally := Tally(0, 0, 0, 0, 0)

  /** One appearance: the goals go to `goalsFor` and `goalsAgainst`, and
      exactly one of `wins`, `draws`, `losses` goes up by one. */
  function Credit(t: Tally, gf: int, ga: int, won: bool, drew: bool): Tally
  {
    Tally(if won then t.wins + 1 else t.wins,
          if !won && drew then t.draws + 1 else t.draws,
          if !won && !drew then t.losses + 1 else t.losses,
          t.goalsFor + gf, t.goalsAgainst + ga)
  }

  /** The home side wins on `H`, draws on `D` and loses on any other code. */
  function CreditHome(t: Tally, m: FootballMatch): Tally
  {
    Credit(t, m.FTHG, m.FTAG, m.FTR == "H", m.FTR == "D")
  }

  /** The away side wins on `A`, draws on `D` and loses on any other code. */
  function CreditAway(t: Tally, m: FootballMatch): Tally
  {
    Credit(t, m.FTAG, m.FTHG, m.FTR == "A", m.FTR == "D")
  }

  /** The dictionary: its entries, and its keys in insertion order (the
      order `Object.entries` lists them in). */
  datatype Table = Table(stats: map<string, Tally>, order: seq<string>)

  ghost predicate Valid(t: Table) {
    && (forall name :: name in t.stats <==> name in t.order)
    && Distinct(t.order)
  }

  ghost predicate Distinct(names: seq<string>) {
    forall i, j :: 0 <= i < j < |names| ==> names[i] != names[j]
  }

  lemma DistinctAppend(names: seq<string>, k: string)
    requires Distinct(names) && k !in names
    ensures Distinct(names + [k])
  {
    var s := names + [k];
    forall i, j | 0 <= i < j < |s| ensures s[i] != s[j] {
      if j < |names| {
        assert s[i] == names[i] && s[j] == names[j];
      } else {
        assert s[i] == names[i];
      }
    }
  }

  /** `teamStats[name]`, with a missing entry read as no games. */
  function Entry(t: Table, name: string): Tally
  {
    if name in t.stats then t.stats[name] else NoGames
  }

  /** `if (!teamStats[name]) teamStats[name] = { wins: 0, ... }`. */
  function Enter(t: Table, name: string): Table
  {
    if name in t.stats then t else Table(t.stats[name := NoGames], t.order + [name])
  }

  function Put(t: Table, name: string, v: Tally): Table
  {
    Table(t.stats[name := v], t.order)
  }

  /** The home team's half of the `forEach` body. */
  function RecordHome(t: Table, m: FootballMatch): Table
  {
    var t1 := Enter(t, m.HomeTeam);
    Put(t1, m.HomeTeam, CreditHome(Entry(t1, m.HomeTeam), m))
  }

  /** The away team's half of the `forEach` body. */
  function RecordAway(t: Table, m: FootballMatch): Table
  {
    var t1 := Enter(t, m.AwayTeam);
    Put(t1, m.AwayTeam, CreditAway(Entry(t1, m.AwayTeam), m))
  }

  /** The body of the `forEach`: the home team, then the away team. */
  function Step(t: Table, m: FootballMatch): Table
  {
    RecordAway(RecordHome(t, m), m)
  }

  lemma EnterValid(t: Table, name: string)
    requires Valid(t)
    ensures Valid(Enter(t, name))
    ensures name in Enter(t, name).stats && name in Enter(t, name).order
  {
  }

  lemma PutValid(t: Table, name: string, v: Tally)
    requires Valid(t) && name in t.stats
    ensures Valid(Put(t, name, v))
  {
  }

  lemma StepValid(t: Table, m: FootballMatch)
    requires Valid(t)
    ensures Valid(Step(t, m))
  {
    EnterValid(t, m.HomeTeam);
    var t1 := Enter(t, m.HomeTeam);
    PutValid(t1, m.HomeTeam, CreditHome(Entry(t1, m.HomeTeam), m));
    var t2 := RecordHome(t, m);
    EnterValid(t2, m.AwayTeam);
    var t3 := Enter(t2, m.AwayTeam);
    PutValid(t3, m.AwayTeam, CreditAway(Entry(t3, m.AwayTeam), m));
  }

  /** The dictionary after the `forEach` over `ms`. */
  function TallyAll(ms: seq<FootballMatch>): Table
    decreases |ms|
  {
    if ms == [] then Table(map[], []) else Step(TallyAll(ms[..|ms| - 1]), ms[|ms| - 1])
  }

  /** Every key is listed once, and the listed names are the keys. */
  lemma {:induction false} TallyAllValid(ms: seq<FootballMatch>)
    ensures Valid(TallyAll(ms))
    decreases |ms|
  {
    if ms != [] {
      TallyAllValid(ms[..|ms| - 1]);
      StepValid(TallyAll(ms[..|ms| - 1]), ms[|ms| - 1]);
    }
  }

  /** `getTeamStats`'s loop, updating the dictionary in place. */
  method TeamStats(ms: seq<FootballMatch>) returns (stats: map<string, Tally>, order: seq<string>)
    ensures Table(stats, order) == TallyAll(ms)
  {
    stats, order := map[], [];
    for i := 0 to |ms|
      invariant Table(stats, order) == TallyAll(ms[..i])
    {
      TallyAllNext(ms, i);
      stats, order := RecordMatch(stats, order, ms[i]);
    }
    assert ms[..|ms|] == ms;
  }

  lemma TallyAllNext(ms: seq<FootballMatch>, i: nat)
    requires i < |ms|
    ensures TallyAll(ms[..i + 1]) == Step(TallyAll(ms[..i]), ms[i])
  {
    assert ms[..i + 1][..i] == ms[..i];
  }

  /** The `forEach` callback: enter both teams if new, then credit each. */
  method RecordMatch(stats0: map<string, Tally>, order0: seq<string>, m: FootballMatch)
    returns (stats: map<string, Tally>, order: seq<string>)
    ensures Table(stats, order) == Step(Table(stats0, order0), m)
  {
    stats, order := RecordHomeTeam(stats0, order0, m);
    stats, order := RecordAwayTeam(stats, order, m);
  }

  /** The home team's half of the callback. */
  method RecordHomeTeam(stats0: map<string, Tally>, order0: seq<string>, m: FootballMatch)
    returns (stats: map<string, Tally>, order: seq<string>)
    ensures Table(stats, order) == RecordHome(Table(stats0, order0), m)
  {
    stats, order := stats0, order0;
    if m.HomeTeam !in stats {
      stats := stats[m.HomeTeam := NoGames];
      order := order + [m.HomeTeam];
    }
    var h := stats[m.HomeTeam];
    h := h.(goalsFor := h.goalsFor + m.FTHG, goalsAgainst := h.goalsAgainst + m.FTAG);
    if m.FTR == "H" {
      h := h.(wins := h.wins + 1);
    } else if m.FTR == "D" {
      h := h.(draws := h.draws + 1);
    } else {
      h := h.(losses := h.losses + 1);
    }
    stats := stats[m.HomeTeam := h];
  }

  /** The away team's half of the callback. */
  method RecordAwayTeam(stats0: map<string, Tally>, order0: seq<string>, m: FootballMatch)
    returns (stats: map<string, Tally>, order: seq<string>)
    ensures Table(stats, order) == RecordAway(Table(stats0, order0), m)
  {
    stats, order := stats0, order0;
    if m.AwayTeam !in stats {
      stats := stats[m.AwayTeam := NoGames];
      order := order + [m.AwayTeam];
    }
    var a := stats[m.AwayTeam];
    a := a.(goalsFor := a.goalsFor + m.FTAG, goalsAgainst := a.goalsAgainst + m.FTHG);
    if m.FTR == "A" {
      a := a.(wins := a.wins + 1);
    } else if m.FTR == "D" {
      a := a.(draws := a.draws + 1);
    } else {
      a := a.(losses := a.losses + 1);
    }
    stats := stats[m.AwayTeam := a];
  }

  // -------------------------------------------------- one team at a time

  /** A team's record computed on its own, match by match, without the
      dictionary: the reference the dictionary is checked against. */
  function TeamRecord(ms: seq<FootballMatch>, team: string): Tally
    decreases |ms|
  {
    if ms == [] then NoGames
    else
      var m := ms[|ms| - 1];
      var t := TeamRecord(ms[..|ms| - 1], team);
      var t1 := if m.HomeTeam == team then CreditHome(t, m) else t;
      if m.AwayTeam == team then CreditAway(t1, m) else t1
  }

  function HomeWith(team: string, code: string): FootballMatch -> bool
  {
    (m: FootballMatch) => m.HomeTeam == team && m.FTR == code
  }

  function AwayWith(team: string, code: string): FootballMatch -> bool
  {
    (m: FootballMatch) => m.AwayTeam == team && m.FTR == code
  }

  /** The matches a team plays in, counting a match against itself twice
      (the source updates its entry once as home and once as away). */
  function Appearances(ms: seq<FootballMatch>, team: string): nat
  {
    Count(ms, HomeOf(team)) + Count(ms, AwayOf(team))
  }

  /** Every appearance adds to exactly one of wins, draws and losses: a team
      has as many results as appearances, wins are its home `H` and away `A`
      codes, draws its `D` codes at either venue. */
  lemma TeamRecordGames(ms: seq<FootballMatch>, team: string)
    ensures var r := TeamRecord(ms, team);
            && r.wins + r.draws + r.losses == Appearances(ms, team)
            && r.wins == Count(ms, HomeWith(team, "H")) + Count(ms, AwayWith(team, "A"))
            && r.draws == Count(ms, HomeWith(team, "D")) + Count(ms, AwayWith(team, "D"))
  {
    TeamRecordResults(ms, team);
    TeamRecordWins(ms, team);
    TeamRecordDraws(ms, team);
  }

  lemma {:induction false} TeamRecordResults(ms: seq<FootballMatch>, team: string)
    ensures var r := TeamRecord(ms, team);
            r.wins + r.draws + r.losses == Appearances(ms, team)
    decreases |ms|
  {
    if ms != [] {
      var n := |ms| - 1;
      TeamRecordResults(ms[..n], team);
      CreditedCounts(TeamRecord(ms[..n], team), ms[n], team);
    }
  }

  lemma {:induction false} TeamRecordWins(ms: seq<FootballMatch>, team: string)
    ensures TeamRecord(ms, team).wins == Count(ms, HomeWith(team, "H")) + Count(ms, AwayWith(team, "A"))
    decreases |ms|
  {
    if ms != [] {
      var n := |ms| - 1;
      TeamRecordWins(ms[..n], team);
      CreditedCounts(TeamRecord(ms[..n], team), ms[n], team);
    }
  }

  lemma {:induction false} TeamRecordDraws(ms: seq<FootballMatch>, team: string)
    ensures TeamRecord(ms, team).draws == Count(ms, HomeWith(team, "D")) + Count(ms, AwayWith(team, "D"))
    decreases |ms|
  {
    if ms != [] {
      var n := |ms| - 1;
      TeamRecordDraws(ms[..n], team);
      CreditedCounts(TeamRecord(ms[..n], team), ms[n], team);
    }
  }

  /** What one match adds to a team's result counts. */
  lemma CreditedCounts(e: Tally, m: FootballMatch, team: string)
    ensures var r := Credited(e, m, team);
            && r.wins + r.draws + r.losses == e.wins + e.draws + e.losses
               + (if HomeOf(team)(m) then 1 else 0) + (if AwayOf(team)(m) then 1 else 0)
            && r.wins == e.wins + (if HomeWith(team, "H")(m) then 1 else 0)
                         + (if AwayWith(team, "A")(m) then 1 else 0)
            && r.draws == e.draws + (if HomeWith(team, "D")(m) then 1 else 0)
                          + (if AwayWith(team, "D")(m) then 1 else 0)
  {
  }

  /** The position of the first match `team` plays in, or `|ms|`. */
  function FirstIndex(ms: seq<FootballMatch>, team: string): (r: nat)
    ensures r <= |ms|
    ensures forall i :: 0 <= i < r ==> ms[i].HomeTeam != team && ms[i].AwayTeam != team
    ensures r < |ms| ==> ms[r].HomeTeam == team || ms[r].AwayTeam == team
    decreases |ms|
  {
    if ms == [] then 0
    else if ms[0].HomeTeam == team || ms[0].AwayTeam == team then 0
    else 1 + FirstIndex(ms[1..], team)
  }

  lemma {:induction false} FirstIndexExtend(ms: seq<FootballMatch>, m: FootballMatch, team: string)
    ensures FirstIndex(ms, team) < |ms| ==> FirstIndex(ms + [m], team) == FirstIndex(ms, team)
    ensures FirstIndex(ms, team) == |ms| && (m.HomeTeam == team || m.AwayTeam == team)
            ==> FirstIndex(ms + [m], team) == |ms|
    ensures FirstIndex(ms, team) == |ms| && m.HomeTeam != team && m.AwayTeam != team
            ==> FirstIndex(ms + [m], team) == |ms| + 1
    decreases |ms|
  {
    if ms == [] {
      assert [m][1..] == [];
    } else {
      assert (ms + [m])[1..] == ms[1..] + [m];
      FirstIndexExtend(ms[1..], m, team);
    }
  }

  /** A team's entry after one more match, given its entry before. */
  function Credited(e: Tally, m: FootballMatch, team: string): Tally
  {
    var e1 := if m.HomeTeam == team then CreditHome(e, m) else e;
    if m.AwayTeam == team then CreditAway(e1, m) else e1
  }

  lemma EntryStep(t: Table, m: FootballMatch, name: string)
    ensures Entry(Step(t, m), name) == Credited(Entry(t, name), m, name)
  {
    var t1 := RecordHome(t, m);
    assert Entry(t1, name) == if name == m.HomeTeam then CreditHome(Entry(t, name), m) else Entry(t, name);
  }

  lemma KeysStep(t: Table, m: FootballMatch, name: string)
    ensures name in Step(t, m).stats <==> name in t.stats || name == m.HomeTeam || name == m.AwayTeam
  {
    var t1 := RecordHome(t, m);
    assert name in t1.stats <==> name in t.stats || name == m.HomeTeam;
  }

  /** The keys a match adds go at the end, and each is one of its teams not
      seen before. */
  lemma OrderStep(t: Table, m: FootballMatch)
    ensures |Step(t, m).order| >= |t.order|
    ensures Step(t, m).order[..|t.order|] == t.order
    ensures forall i :: |t.order| <= i < |Step(t, m).order| ==>
              Step(t, m).order[i] !in t.stats
              && (Step(t, m).order[i] == m.HomeTeam || Step(t, m).order[i] == m.AwayTeam)
    ensures |Step(t, m).order| <= |t.order| + 2
    ensures |Step(t, m).order| == |t.order| + 2 ==> Step(t, m).order[|t.order|] == m.HomeTeam
  {
    var t1 := RecordHome(t, m);
    assert t1.order == Enter(t, m.HomeTeam).order;
    assert Step(t, m).order == Enter(t1, m.AwayTeam).order;
  }

  lemma TeamRecordNext(ms: seq<FootballMatch>, m: FootballMatch, team: string)
    ensures TeamRecord(ms + [m], team) == Credited(TeamRecord(ms, team), m, team)
  {
    assert (ms + [m])[..|ms|] == ms;
  }

  /** The dictionary has a key for exactly the teams that play. */
  ghost predicate KeysAre(t: Table, ms: seq<FootballMatch>)
  {
    forall name :: name in t.stats <==> FirstIndex(ms, name) < |ms|
  }

  /** Each entry is that team's own record. */
  ghost predicate EntriesAre(t: Table, ms: seq<FootballMatch>)
  {
    forall name :: Entry(t, name) == TeamRecord(ms, name)
  }

  /** The keys are listed in order of the teams' first appearance. */
  ghost predicate OrderedByFirstAppearance(t: Table, ms: seq<FootballMatch>)
  {
    forall i, j :: 0 <= i < j < |t.order| ==> FirstIndex(ms, t.order[i]) <= FirstIndex(ms, t.order[j])
  }

  /** Two teams that first appear in the same match are listed home team
      first: the callback enters the home team before the away team. */
  ghost predicate HomeBeforeAway(t: Table, ms: seq<FootballMatch>)
  {
    forall i, j :: 0 <= i < j < |t.order|
      && FirstIndex(ms, t.order[i]) == FirstIndex(ms, t.order[j]) < |ms|
      ==> t.order[i] == ms[FirstIndex(ms, t.order[i])].HomeTeam
  }

  lemma KeysAreNext(t: Table, ms: seq<FootballMatch>, m: FootballMatch)
    requires KeysAre(t, ms)
    ensures KeysAre(Step(t, m), ms + [m])
  {
    forall name ensures name in Step(t, m).stats <==> FirstIndex(ms + [m], name) < |ms + [m]| {
      KeysStep(t, m, name);
      FirstIndexExtend(ms, m, name);
    }
  }

  lemma EntriesAreNext(t: Table, ms: seq<FootballMatch>, m: FootballMatch)
    requires EntriesAre(t, ms)
    ensures EntriesAre(Step(t, m), ms + [m])
  {
    forall name ensures Entry(Step(t, m), name) == TeamRecord(ms + [m], name) {
      EntryStep(t, m, name);
      TeamRecordNext(ms, m, name);
    }
  }

  lemma OrderNext(t: Table, ms: seq<FootballMatch>, m: FootballMatch)
    requires Valid(t) && KeysAre(t, ms) && OrderedByFirstAppearance(t, ms)
    ensures OrderedByFirstAppearance(Step(t, m), ms + [m])
  {
    var o := Step(t, m).order;
    var n := |t.order|;
    OrderStep(t, m);
    StepFirstIndex(t, ms, m);
    forall i, j | 0 <= i < j < |o| ensures FirstIndex(ms + [m], o[i]) <= FirstIndex(ms + [m], o[j]) {
      if j < n {
        assert o[i] == t.order[i] && o[j] == t.order[j];
        FirstIndexExtend(ms, m, o[i]);
        FirstIndexExtend(ms, m, o[j]);
      }
    }
  }

  /** After one more match, the keys listed before keep their first
      appearance, and the keys it adds first appear in it. */
  lemma StepFirstIndex(t: Table, ms: seq<FootballMatch>, m: FootballMatch)
    requires Valid(t) && KeysAre(t, ms)
    ensures forall i :: 0 <= i < |t.order| ==>
              FirstIndex(ms + [m], Step(t, m).order[i]) == FirstIndex(ms, Step(t, m).order[i]) < |ms|
    ensures forall i :: |t.order| <= i < |Step(t, m).order| ==>
              FirstIndex(ms + [m], Step(t, m).order[i]) == |ms|
  {
    var o := Step(t, m).order;
    OrderStep(t, m);
    forall i | 0 <= i < |o|
      ensures i < |t.order| ==> FirstIndex(ms + [m], o[i]) == FirstIndex(ms, o[i]) < |ms|
      ensures i >= |t.order| ==> FirstIndex(ms + [m], o[i]) == |ms|
    {
      FirstIndexExtend(ms, m, o[i]);
      if i < |t.order| {
        assert o[i] == t.order[i];
      }
    }
  }

  lemma HomeBeforeAwayNext(t: Table, ms: seq<FootballMatch>, m: FootballMatch)
    requires Valid(t) && KeysAre(t, ms) && HomeBeforeAway(t, ms)
    ensures HomeBeforeAway(Step(t, m), ms + [m])
  {
    var o := Step(t, m).order;
    var n := |t.order|;
    var ms' := ms + [m];
    OrderStep(t, m);
    StepFirstIndex(t, ms, m);
    forall i, j | 0 <= i < j < |o| && FirstIndex(ms', o[i]) == FirstIndex(ms', o[j]) < |ms'|
      ensures o[i] == ms'[FirstIndex(ms', o[i])].HomeTeam
    {
      if j < n {
        assert o[i] == t.order[i] && o[j] == t.order[j];
        assert ms'[FirstIndex(ms, o[i])] == ms[FirstIndex(ms, o[i])];
      } else {
        assert i == n && |o| == n + 2;
        assert ms'[|ms|] == m;
      }
    }
  }

  /** The dictionary holds an entry for exactly the teams that play, each
      entry is that team's own record, and the keys are in order of first
      appearance, the home team first when two teams first meet. */
  lemma TallyAllDescribes(ms: seq<FootballMatch>)
    ensures KeysAre(TallyAll(ms), ms)
    ensures EntriesAre(TallyAll(ms), ms)
    ensures OrderedByFirstAppearance(TallyAll(ms), ms)
    ensures HomeBeforeAway(TallyAll(ms), ms)
  {
    TallyAllKeys(ms);
    TallyAllEntries(ms);
    TallyAllOrder(ms);
    TallyAllHomeFirst(ms);
  }

  lemma {:induction false} TallyAllHomeFirst(ms: seq<FootballMatch>)
    ensures HomeBeforeAway(TallyAll(ms), ms)
    decreases |ms|
  {
    if ms != [] {
      var n := |ms| - 1;
      TallyAllHomeFirst(ms[..n]);
      TallyAllKeys(ms[..n]);
      TallyAllValid(ms[..n]);
      assert ms[..n] + [ms[n]] == ms;
      HomeBeforeAwayNext(TallyAll(ms[..n]), ms[..n], ms[n]);
    }
  }

  lemma {:induction false} TallyAllKeys(ms: seq<FootballMatch>)
    ensures KeysAre(TallyAll(ms), ms)
    decreases |ms|
  {
    if ms != [] {
      var n := |ms| - 1;
      TallyAllKeys(ms[..n]);
      assert ms[..n] + [ms[n]] == ms;
      KeysAreNext(TallyAll(ms[..n]), ms[..n], ms[n]);
    }
  }

  lemma {:induction false} TallyAllEntries(ms: seq<FootballMatch>)
    ensures EntriesAre(TallyAll(ms), ms)
    decreases |ms|
  {
    if ms != [] {
      var n := |ms| - 1;
      TallyAllEntries(ms[..n]);
      assert ms[..n] + [ms[n]] == ms;
      EntriesAreNext(TallyAll(ms[..n]), ms[..n], ms[n]);
    }
  }

  lemma {:induction false} TallyAllOrder(ms: seq<FootballMatch>)
    ensures OrderedByFirstAppearance(TallyAll(ms), ms)
    decreases |ms|
  {
    if ms != [] {
      var n := |ms| - 1;
      TallyAllOrder(ms[..n]);
      TallyAllKeys(ms[..n]);
      TallyAllValid(ms[..n]);
      assert ms[..n] + [ms[n]] == ms;
      OrderNext(TallyAll(ms[..n]), ms[..n], ms[n]);
    }
  }

  // -------------------------------------------------- league-wide totals

  function Add(a: Tally, b: Tally): Tally
  {
    Tally(a.wins + b.wins, a.draws + b.draws, a.losses + b.losses,
          a.goalsFor + b.goalsFor, a.goalsAgainst + b.goalsAgainst)
  }

  lemma AddNoGames(a: Tally)
    ensures Add(a, NoGames) == a
  {
  }

  /** The entries under `names`, added up field by field. */
  function Total(stats: map<string, Tally>, names: seq<string>): Tally
    decreases |names|
  {
    if names == [] then NoGames
    else
      var last := names[|names| - 1];
      Add(Total(stats, names[..|names| - 1]), if last in stats then stats[last] else NoGames)
  }

  lemma {:induction false} TotalFrame(stats: map<string, Tally>, names: seq<string>, k: string, v: Tally)
    requires k !in names
    ensures Total(stats[k := v], names) == Total(stats, names)
    decreases |names|
  {
    if names != [] {
      TotalFrame(stats, names[..|names| - 1], k, v);
    }
  }

  /** Crediting one entry credits the total in the same way. */
  lemma {:induction false} TotalCredit(stats: map<string, Tally>, names: seq<string>, k: string,
                                       gf: int, ga: int, won: bool, drew: bool)
    requires k in stats && k in names
    requires Distinct(names)
    ensures Total(stats[k := Credit(stats[k], gf, ga, won, drew)], names)
            == Credit(Total(stats, names), gf, ga, won, drew)
    decreases |names|
  {
    var n := |names| - 1;
    var init := names[..n];
    if names[n] == k {
      assert k !in init;
      TotalFrame(stats, init, k, Credit(stats[k], gf, ga, won, drew));
    } else {
      assert k in init;
      TotalCredit(stats, init, k, gf, ga, won, drew);
    }
  }

  lemma TotalEnter(t: Table, name: string)
    requires name !in t.stats ==> name !in t.order
    ensures Total(Enter(t, name).stats, Enter(t, name).order) == Total(t.stats, t.order)
  {
    if name !in t.stats {
      var order := t.order + [name];
      var stats := t.stats[name := NoGames];
      assert Enter(t, name) == Table(stats, order);
      assert order[..|order| - 1] == t.order;
      assert order[|order| - 1] == name;
      assert Total(stats, order) == Add(Total(stats, t.order), NoGames);
      TotalFrame(t.stats, t.order, name, NoGames);
      AddNoGames(Total(t.stats, t.order));
    }
  }

  function TotalOf(t: Table): Tally
  {
    Total(t.stats, t.order)
  }

  /** Entering a team if new and crediting it credits the total. */
  lemma TotalEnterCredit(t: Table, k: string, gf: int, ga: int, won: bool, drew: bool)
    requires k in t.stats <==> k in t.order
    requires Distinct(t.order)
    ensures var t1 := Enter(t, k);
            TotalOf(Put(t1, k, Credit(Entry(t1, k), gf, ga, won, drew))) == Credit(TotalOf(t), gf, ga, won, drew)
  {
    var t1 := Enter(t, k);
    TotalEnter(t, k);
    if k !in t.stats {
      DistinctAppend(t.order, k);
      assert t1.order[|t.order|] == k;
    }
    TotalCredit(t1.stats, t1.order, k, gf, ga, won, drew);
  }

  lemma RecordHomeValid(t: Table, m: FootballMatch)
    requires Valid(t)
    ensures Valid(RecordHome(t, m))
  {
    var t1 := Enter(t, m.HomeTeam);
    EnterValid(t, m.HomeTeam);
    PutValid(t1, m.HomeTeam, CreditHome(Entry(t1, m.HomeTeam), m));
  }

  /** What one match adds to the league-wide totals. */
  lemma CreditBoth(x: Tally, m: FootballMatch)
    ensures CreditAway(CreditHome(x, m), m) == Tally(
              x.wins + (if IsHomeWin(m) then 1 else 0) + (if IsAwayWin(m) then 1 else 0),
              x.draws + 2 * (if IsDraw(m) then 1 else 0),
              x.losses + (if IsHomeWin(m) then 1 else 0) + (if IsAwayWin(m) then 1 else 0)
                + 2 * (if IsOtherResult(m) then 1 else 0),
              x.goalsFor + m.FTHG + m.FTAG, x.goalsAgainst + m.FTAG + m.FTHG)
  {
    if IsHomeWin(m) {
      assert !IsAwayWin(m) && !IsDraw(m);
    } else if IsAwayWin(m) {
      assert !IsDraw(m);
    }
  }

  /** The league-wide totals implied by the result codes and goals alone:
      wins are the `H` and `A` codes, draws twice the `D` codes, losses the
      `H` and `A` codes plus twice every other code (both sides lose on an
      unknown code), and goals for and against are both all goals scored. */
  function TotalsFromCodes(ms: seq<FootballMatch>): Tally
  {
    Tally(Count(ms, IsHomeWin) + Count(ms, IsAwayWin),
          2 * Count(ms, IsDraw),
          Count(ms, IsHomeWin) + Count(ms, IsAwayWin) + 2 * Count(ms, IsOtherResult),
          TotalGoals(ms), TotalGoals(ms))
  }

  lemma TotalsFromCodesNext(ms: seq<FootballMatch>)
    requires ms != []
    ensures TotalsFromCodes(ms)
            == CreditAway(CreditHome(TotalsFromCodes(ms[..|ms| - 1]), ms[|ms| - 1]), ms[|ms| - 1])
  {
    CreditBoth(TotalsFromCodes(ms[..|ms| - 1]), ms[|ms| - 1]);
  }

  /** Added up over all teams, the dictionary holds each match twice, once
      per side. */
  lemma {:induction false} LeagueTotals(ms: seq<FootballMatch>)
    ensures TotalOf(TallyAll(ms)) == TotalsFromCodes(ms)
    decreases |ms|
  {
    if ms != [] {
      var n := |ms| - 1;
      var m := ms[n];
      var t := TallyAll(ms[..n]);
      LeagueTotals(ms[..n]);
      TallyAllValid(ms[..n]);
      assert TallyAll(ms) == RecordAway(RecordHome(t, m), m);
      assert TotalOf(TallyAll(ms)) == CreditAway(CreditHome(TotalOf(t), m), m) by {
        TotalEnterCredit(t, m.HomeTeam, m.FTHG, m.FTAG, m.FTR == "H", m.FTR == "D");
        RecordHomeValid(t, m);
        TotalEnterCredit(RecordHome(t, m), m.AwayTeam, m.FTAG, m.FTHG, m.FTR == "A", m.FTR == "D");
      }
      TotalsFromCodesNext(ms);
    }
  }

  /** Summed over all teams, goals for equal goals against. */
  lemma GoalsBalance(ms: seq<FootballMatch>)
    ensures TotalOf(TallyAll(ms)).goalsFor == TotalOf(TallyAll(ms)).goalsAgainst == TotalGoals(ms)
    ensures TotalOf(TallyAll(ms)).wins + TotalOf(TallyAll(ms)).draws + TotalOf(TallyAll(ms)).losses
            == 2 * |ms|
  {
    LeagueTotals(ms);
    ResultsPartition(ms);
  }

  function ToStanding(name: string, t: Tally): Standing
  {
    Standing(name, t.wins, t.draws, t.losses, t.goalsFor, t.goalsAgainst)
  }

  /** `Object.entries(teamStats).map(...)`: one row per key, in key order. */
  function Rows(t: Table): (r: seq<Standing>)
    ensures |r| == |t.order|
    ensures forall i :: 0 <= i < |r| ==> r[i] == ToStanding(t.order[i], Entry(t, t.order[i]))
  {
    seq(|t.order|, i requires 0 <= i < |t.order| => ToStanding(t.order[i], Entry(t, t.order[i])))
  }

  /** The rows are the dictionary's entries: a row is listed exactly when
      its name is a key and it holds that key's entry, the names come in the
      order the keys were entered, and no name is listed twice. */
  lemma RowsAreEntries(t: Table)
    requires Valid(t)
    ensures forall x :: x in Rows(t) <==> x.name in t.stats && x == ToStanding(x.name, t.stats[x.name])
    ensures forall i :: 0 <= i < |Rows(t)| ==> Rows(t)[i].name == t.order[i]
    ensures forall i, j :: 0 <= i < j < |Rows(t)| ==> Rows(t)[i].name != Rows(t)[j].name
  {
    var r := Rows(t);
    forall x ensures x in r <==> x.name in t.stats && x == ToStanding(x.name, t.stats[x.name]) {
      if x in r {
        var k :| 0 <= k < |r| && r[k] == x;
        assert t.order[k] in t.stats;
      }
      if x.name in t.stats && x == ToStanding(x.name, t.stats[x.name]) {
        var k :| 0 <= k < |t.order| && t.order[k] == x.name;
        assert r[k] == x;
      }
    }
  }

  /** Every team's row, in first-appearance order. */
  function Standings(ms: seq<FootballMatch>): seq<Standing>
  {
    Rows(TallyAll(ms))
  }

  lemma StandingIsRecord(ms: seq<FootballMatch>, k: nat)
    requires k < |Standings(ms)|
    ensures var x := Standings(ms)[k];
            FirstIndex(ms, x.name) < |ms| && x == ToStanding(x.name, TeamRecord(ms, x.name))
  {
    var t := TallyAll(ms);
    TallyAllValid(ms);
    TallyAllDescribes(ms);
    assert t.order[k] in t.stats;
  }

  /** Every row is a team that plays, with that team's own record. */
  lemma StandingsAreRecords(ms: seq<FootballMatch>)
    ensures forall x :: x in Standings(ms) ==>
              FirstIndex(ms, x.name) < |ms| && x == ToStanding(x.name, TeamRecord(ms, x.name))
  {
    forall x | x in Standings(ms)
      ensures FirstIndex(ms, x.name) < |ms| && x == ToStanding(x.name, TeamRecord(ms, x.name))
    {
      var k :| 0 <= k < |Standings(ms)| && Standings(ms)[k] == x;
      StandingIsRecord(ms, k);
    }
  }

  /** `getTeamStats(matches)`: the rows sorted by points and cut to eight. */
  function TeamTable(ms: seq<FootballMatch>): (r: seq<Standing>)
    ensures |r| == if |Standings(ms)| < 8 then |Standings(ms)| else 8
    ensures SortedByPoints(r)
    ensures forall x :: x in r ==>
              FirstIndex(ms, x.name) < |ms| && x == ToStanding(x.name, TeamRecord(ms, x.name))
    ensures forall x, y :: x in Standings(ms) && x !in r && y in r ==> Points(x) <= Points(y)
    ensures multiset(r) <= multiset(Standings(ms))
  {
    var all := Standings(ms);
    var sorted := SortByPoints(all);
    var r := SliceTo(sorted, 8);
    assert sorted == r + sorted[|r|..];
    PrefixOnTop(sorted, r);
    StandingsAreRecords(ms);
    forall x | x in r ensures x in all {
      assert x in multiset(sorted);
    }
    forall x | x in all ensures x in sorted {
      assert x in multiset(sorted);
    }
    r
  }

  /** Among teams on equal points, the leaderboard lists the first ones in
      first-appearance order. */
  lemma TeamTableStable(ms: seq<FootballMatch>, p: nat)
    ensures var f := Filter(TeamTable(ms), HasPoints(p));
            var g := Filter(Standings(ms), HasPoints(p));
            |f| <= |g| && f == g[..|f|]
  {
    PrefixFilter(SortByPoints(Standings(ms)), TeamTable(ms), p);
    SortStable(Standings(ms), p);
  }

  /** A single drawn match between two teams gives each a draw, the home
      side its goals for and the away side its goals against, and the home
      side first. */
  lemma SingleDraw(m: FootballMatch)
    requires m.HomeTeam != m.AwayTeam && m.FTR == "D"
    ensures TeamTable([m]) == [Standing(m.HomeTeam, 0, 1, 0, m.FTHG, m.FTAG),
                               Standing(m.AwayTeam, 0, 1, 0, m.FTAG, m.FTHG)]
  {
    var home := Standing(m.HomeTeam, 0, 1, 0, m.FTHG, m.FTAG);
    var away := Standing(m.AwayTeam, 0, 1, 0, m.FTAG, m.FTHG);
    SingleDrawRows(m);
    var rows := Standings([m]);
    assert rows[..1] == [home];
    assert SortByPoints([home]) == [home] by {
      assert [home][..0] == [];
    }
    assert Insert([home], away) == [home, away];
  }

  lemma SingleDrawRows(m: FootballMatch)
    requires m.HomeTeam != m.AwayTeam && m.FTR == "D"
    ensures Standings([m]) == [Standing(m.HomeTeam, 0, 1, 0, m.FTHG, m.FTAG),
                               Standing(m.AwayTeam, 0, 1, 0, m.FTAG, m.FTHG)]
  {
    assert m.FTR != "H" && m.FTR != "A" by {
      assert m.FTR[0] == 'D';
    }
    var t0 := Table(map[], []);
    var t1 := RecordHome(t0, m);
    assert t1 == Table(map[m.HomeTeam := Tally(0, 1, 0, m.FTHG, m.FTAG)], [m.HomeTeam]);
    var t := RecordAway(t1, m);
    assert t == Table(map[m.HomeTeam := Tally(0, 1, 0, m.FTHG, m.FTAG),
                          m.AwayTeam := Tally(0, 1, 0, m.FTAG, m.FTHG)],
                      [m.HomeTeam, m.AwayTeam]) by {
      assert m.AwayTeam !in t1.stats;
    }
    assert TallyAll([m]) == t by {
      assert [m][..0] == [];
    }
  }

}
