/**
 * Match records and the text-processing part of `parseCSV`
 * (src/utils/csvParser.ts): newline-separated text whose first non-blank
 * line names the columns becomes an ordered list of `FootballMatch` records.
 */
module Csv {
  import opened Wrappers
  import opened Text
  import opened Seqs

  /** One historical match, with the CSV's own column names. */
  datatype FootballMatch = FootballMatch(
    Div: string, Date: string, Time: string,
    HomeTeam: string, AwayTeam: string,
    FTHG: int, FTAG: int, FTR: string,
    HTHG: int, HTAG: int, HTR: string)

  /** `m => m.HomeTeam === team`. */
  function HomeOf(team: string): FootballMatch -> bool
  {
    (m: FootballMatch) => m.HomeTeam == team
  }

  /** `m => m.AwayTeam === team`. */
  function AwayOf(team: string): FootballMatch -> bool
  {
    (m: FootballMatch) => m.AwayTeam == team
  }

  predicate IsNonBlank(line: string) {
    Trim(line) != []
  }

  /** `text.split('\n').filter(line => line.trim())`: the non-blank lines, in
      order (see `LinesInOrder`). */
  function Lines(text: string): (r: seq<string>)
    ensures forall l :: l in r <==> l in Split(text, '\n') && !AllSpace(l)
  {
    var parts := Split(text, '\n');
    var r := Filter(parts, IsNonBlank);
    forall l ensures l in r <==> l in parts && !AllSpace(l) {
      BlankIffAllSpace(l);
      FilterMembers(parts, IsNonBlank, l);
    }
    r
  }

  /** The `k`-th line kept is the piece at the `k`-th position whose piece is
      non-blank, so the kept lines come in the text's order and a line that
      repeats is kept as often as it appears non-blank. */
  lemma LinesInOrder(text: string)
    ensures var ps := Positions(Split(text, '\n'), IsNonBlank);
      |Lines(text)| == |ps| && forall k :: 0 <= k < |ps| ==> 0 <= ps[k] < |Split(text, '\n')| && Lines(text)[k] == Split(text, '\n')[ps[k]]
  {
    FilterAtPositions(Split(text, '\n'), IsNonBlank);
  }

  /** A piece counts as non-blank for the filter exactly when it is not all
      white space, so the positions `Lines` keeps are those. */
  lemma NonBlankPositions(text: string)
    ensures forall i ::
      (i in Positions(Split(text, '\n'), IsNonBlank) <==> 0 <= i < |Split(text, '\n')| && !AllSpace(Split(text, '\n')[i]))
  {
    var parts := Split(text, '\n');
    forall i | 0 <= i < |parts| ensures IsNonBlank(parts[i]) <==> !AllSpace(parts[i]) {
      BlankIffAllSpace(parts[i]);
    }
  }

  /** `line.split(',').map(h => h.trim())`. */
  function HeaderNames(line: string): (r: seq<string>)
    ensures |r| == |Split(line, ',')|
    ensures forall k :: 0 <= k < |r| ==> IsTrimOf(Split(line, ',')[k], r[k])
    ensures forall i :: 0 <= i < |r| ==> r[i] == [] || (!IsJsSpace(r[i][0]) && !IsJsSpace(r[i][|r[i]| - 1]))
  {
    var parts := Split(line, ',');
    seq(|parts|, i requires 0 <= i < |parts| => Trim(parts[i]))
  }

  /** `values[index]?.trim() || ''`: the trimmed cell, or the empty string
      past the end of a short row. */
  function Cell(values: seq<string>, index: int): (r: string)
    requires index >= 0
    ensures index < |values| ==> IsTrimOf(values[index], r)
    ensures index >= |values| ==> r == ""
    ensures r == [] || (!IsJsSpace(r[0]) && !IsJsSpace(r[|r| - 1]))
  {
    if index < |values| then Trim(values[index]) else ""
  }

  /** The last position of `name` among the headers, or -1. */
  function LastIndexOf(headers: seq<string>, name: string): (r: int)
    ensures -1 <= r < |headers|
    ensures r == -1 <==> name !in headers
    ensures r >= 0 ==> headers[r] == name && forall j :: r < j < |headers| ==> headers[j] != name
    decreases |headers|
  {
    if headers == [] then -1
    else if headers[|headers| - 1] == name then |headers| - 1
    else LastIndexOf(headers[..|headers| - 1], name)
  }

  /** The object `headers.forEach((header, index) => match[header] = cell)`
      fills in, as a map from column name to cell: a name that repeats ends
      up holding the cell under its last occurrence. */
  function RowFields(headers: seq<string>, values: seq<string>): (r: map<string, string>)
    ensures forall k :: k in r <==> k in headers
    ensures forall k :: k in r ==> r[k] == Cell(values, LastIndexOf(headers, k))
    decreases |headers|
  {
    if headers == [] then map[]
    else
      var n := |headers| - 1;
      var r := RowFields(headers[..n], values)[headers[n] := Cell(values, n)];
      assert forall k :: k in headers <==> k in headers[..n] || k == headers[n];
      r
  }

  /** The value read for a column: what the object holds, or "" for a
      column the header does not name (JavaScript's `undefined`). */
  function Field(fields: map<string, string>, name: string): string
  {
    if name in fields then fields[name] else ""
  }

  /** The record made of a row's cells, or `None` when the home or the away
      team is empty: the string fields are kept verbatim and every goal is
      `parseInt(cell) || 0`. */
  function MatchFrom(div: string, date: string, time: string, home: string, away: string,
                     fthg: string, ftag: string, ftr: string,
                     hthg: string, htag: string, htr: string): Option<FootballMatch>
  {
    if home == "" || away == "" then None
    else Some(FootballMatch(div, date, time, home, away,
                            ParseIntOrZero(fthg), ParseIntOrZero(ftag), ftr,
                            ParseIntOrZero(hthg), ParseIntOrZero(htag), htr))
  }

  /** The record built from the object one row filled in. */
  function FromFields(fields: map<string, string>): Option<FootballMatch>
  {
    MatchFrom(Field(fields, "Div"), Field(fields, "Date"), Field(fields, "Time"),
              Field(fields, "HomeTeam"), Field(fields, "AwayTeam"),
              Field(fields, "FTHG"), Field(fields, "FTAG"), Field(fields, "FTR"),
              Field(fields, "HTHG"), Field(fields, "HTAG"), Field(fields, "HTR"))
  }

  function RowToMatch(headers: seq<string>, line: string): Option<FootballMatch>
  {
    FromFields(RowFields(headers, Split(line, ',')))
  }

  function RowReader(headers: seq<string>): string -> Option<FootballMatch>
  {
    line => RowToMatch(headers, line)
  }

  /** The records of the data rows, in row order. */
  function ParseRows(headers: seq<string>, rows: seq<string>): (r: seq<FootballMatch>)
    ensures |r| <= |rows|
    ensures forall i :: 0 <= i < |r| ==> r[i].HomeTeam != "" && r[i].AwayTeam != ""
  {
    var r := FilterMap(rows, RowReader(headers));
    forall i | 0 <= i < |r| ensures r[i].HomeTeam != "" && r[i].AwayTeam != "" {
      FilterMapMembers(rows, RowReader(headers), r[i]);
    }
    r
  }

  /** The text-processing part of `parseCSV`: fewer than two non-blank lines
      give no records; otherwise the first line is the header and every later
      line is a candidate record. */
  function ParseCsv(text: string): (r: seq<FootballMatch>)
    ensures |Lines(text)| < 2 ==> r == []
    ensures |Lines(text)| >= 2 ==> |r| <= |Lines(text)| - 1
    ensures forall i :: 0 <= i < |r| ==> r[i].HomeTeam != "" && r[i].AwayTeam != ""
  {
    var lines := Lines(text);
    if |lines| < 2 then [] else ParseRows(HeaderNames(lines[0]), lines[1..])
  }

  /** `parseCSV`'s loop: the header is read once, then each data line is split,
      its fields are filled in column by column, and the record is pushed
      unless a team is missing. */
  method ParseCsvText(text: string) returns (matches: seq<FootballMatch>)
    ensures matches == ParseCsv(text)
  {
    var lines := Lines(text);
    if |lines| < 2 {
      return [];
    }
    var headers := HeaderNames(lines[0]);
    matches := ReadRows(headers, lines);
  }

  /** The loop over the data lines `lines[1..]`. */
  method ReadRows(headers: seq<string>, lines: seq<string>) returns (matches: seq<FootballMatch>)
    requires |lines| >= 1
    ensures matches == ParseRows(headers, lines[1..])
  {
    matches := [];
    var i := 1;
    while i < |lines|
      invariant 1 <= i <= |lines|
      invariant matches == ParseRows(headers, lines[1..i])
    {
      var fields := FillFields(headers, Split(lines[i], ','));
      var m := FromFields(fields);
      ParseRowsNext(headers, lines, i);
      if m.Some? {
        matches := matches + [m.value];
      }
      i := i + 1;
    }
    assert lines[1..i] == lines[1..];
  }

  /** `headers.forEach((header, index) => { match[header] = cell })`. */
  method FillFields(headers: seq<string>, values: seq<string>) returns (fields: map<string, string>)
    ensures fields == RowFields(headers, values)
  {
    fields := map[];
    var j := 0;
    while j < |headers|
      invariant 0 <= j <= |headers|
      invariant fields == RowFields(headers[..j], values)
    {
      assert headers[..j + 1][..j] == headers[..j];
      fields := fields[headers[j] := Cell(values, j)];
      j := j + 1;
    }
    assert headers[..|headers|] == headers;
  }

  lemma ParseRowsStep(headers: seq<string>, rows: seq<string>, line: string)
    ensures ParseRows(headers, rows + [line])
            == ParseRows(headers, rows) + (match RowToMatch(headers, line) case Some(m) => [m] case None => [])
  {
    FilterMapAppend(rows, [line], RowReader(headers));
    assert [line][..0] == [];
  }

  lemma ParseRowsNext(headers: seq<string>, lines: seq<string>, i: nat)
    requires 1 <= i < |lines|
    ensures ParseRows(headers, lines[1..i + 1])
            == ParseRows(headers, lines[1..i])
               + (match RowToMatch(headers, lines[i]) case Some(m) => [m] case None => [])
  {
    SliceExtend(lines, 1, i);
    ParseRowsStep(headers, lines[1..i], lines[i]);
  }

  // ------------------------------------------------------------- properties

  /** Rows are processed in order: the records of two consecutive blocks of
      rows are the records of the first block followed by those of the second. */
  lemma ParseRowsAppend(headers: seq<string>, a: seq<string>, b: seq<string>)
    ensures ParseRows(headers, a + b) == ParseRows(headers, a) + ParseRows(headers, b)
  {
    FilterMapAppend(a, b, RowReader(headers));
  }

  /** A record is in the output exactly when some data row yields it. */
  lemma ParseRowsMembers(headers: seq<string>, rows: seq<string>, m: FootballMatch)
    ensures m in ParseRows(headers, rows) <==>
            exists j :: 0 <= j < |rows| && RowToMatch(headers, rows[j]) == Some(m)
  {
    FilterMapMembers(rows, RowReader(headers), m);
  }

  /** The cell a column gets in a row: the trimmed cell under the column's
      last occurrence in the header, "" past the end of a short row, and ""
      when the header does not name the column. */
  function CellOf(headers: seq<string>, values: seq<string>, name: string): string
  {
    if name in headers then Cell(values, LastIndexOf(headers, name)) else ""
  }

  /** The record read off a row by position. */
  function FromCells(headers: seq<string>, values: seq<string>): Option<FootballMatch>
  {
    MatchFrom(CellOf(headers, values, "Div"), CellOf(headers, values, "Date"),
              CellOf(headers, values, "Time"),
              CellOf(headers, values, "HomeTeam"), CellOf(headers, values, "AwayTeam"),
              CellOf(headers, values, "FTHG"), CellOf(headers, values, "FTAG"),
              CellOf(headers, values, "FTR"),
              CellOf(headers, values, "HTHG"), CellOf(headers, values, "HTAG"),
              CellOf(headers, values, "HTR"))
  }

  /** Filling an object column by column and then reading it gives the
      record read off the row by position: later columns of the same name
      win, short rows read "", and whether the row is kept depends on its
      team cells only, never on its goal cells. */
  lemma RowToMatchByPosition(headers: seq<string>, line: string)
    ensures RowToMatch(headers, line) == FromCells(headers, Split(line, ','))
  {
    var v := Split(line, ',');
    var f := RowFields(headers, v);
    FieldIsCell(headers, v, "Div");
    FieldIsCell(headers, v, "Date");
    FieldIsCell(headers, v, "Time");
    FieldIsCell(headers, v, "HomeTeam");
    FieldIsCell(headers, v, "AwayTeam");
    FieldIsCell(headers, v, "FTHG");
    FieldIsCell(headers, v, "FTAG");
    FieldIsCell(headers, v, "FTR");
    FieldIsCell(headers, v, "HTHG");
    FieldIsCell(headers, v, "HTAG");
    FieldIsCell(headers, v, "HTR");
  }

  /** Whether a row is kept depends on its team cells only: it is dropped
      exactly when the home or the away cell is empty, whatever its goal
      cells hold. */
  lemma RowKeptByTeams(headers: seq<string>, line: string)
    ensures var v := Split(line, ',');
            RowToMatch(headers, line).Some?
            <==> CellOf(headers, v, "HomeTeam") != "" && CellOf(headers, v, "AwayTeam") != ""
  {
    RowToMatchByPosition(headers, line);
  }

  /** The four goal columns, each read with `parseInt(cell) || 0`. */
  predicate IsGoalColumn(name: string) {
    name == "FTHG" || name == "FTAG" || name == "HTHG" || name == "HTAG"
  }

  /** The goal field of a record that a goal column fills. */
  function Goal(m: FootballMatch, name: string): int
    requires IsGoalColumn(name)
  {
    if name == "FTHG" then m.FTHG
    else if name == "FTAG" then m.FTAG
    else if name == "HTHG" then m.HTHG
    else m.HTAG
  }

  /** A goal cell without a digit (empty, missing, or text) reads as 0. */
  lemma GoalCellWithoutDigits(headers: seq<string>, line: string, name: string)
    requires IsGoalColumn(name)
    requires RowToMatch(headers, line).Some?
    requires NoDecimalDigit(CellOf(headers, Split(line, ','), name))
    ensures Goal(RowToMatch(headers, line).value, name) == 0
  {
    RowToMatchByPosition(headers, line);
    NoDigitIsNaN(CellOf(headers, Split(line, ','), name));
  }

  lemma FieldIsCell(headers: seq<string>, values: seq<string>, name: string)
    ensures Field(RowFields(headers, values), name) == CellOf(headers, values, name)
  {
  }

  /** A goal cell holding a decimal number, possibly followed by text that
      does not continue it (as in "2.0" or "3 "), is read as that number. */
  lemma GoalCellReadsNumber(headers: seq<string>, line: string, name: string, n: int, rest: string)
    requires IsGoalColumn(name)
    requires RowToMatch(headers, line).Some?
    requires CellOf(headers, Split(line, ','), name) == ShowInt(n) + rest
    requires rest == [] || !('0' <= rest[0] <= '9')
    requires n == 0 ==> rest == [] || (rest[0] != 'x' && rest[0] != 'X')
    ensures Goal(RowToMatch(headers, line).value, name) == n
  {
    RowToMatchByPosition(headers, line);
    ParseIntShowInt(n, rest);
  }
}
