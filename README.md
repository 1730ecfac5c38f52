# Football results aggregation — a Dafny model

`football.py` turns a CSV of match results (columns Season, HomeTeam,
AwayTeam, FTHG, FTAG, FTR) into a spreadsheet report. Most of the file is
spreadsheet plumbing. This project models its two aggregation passes:

- **Yearly analysis** (`create_yearly_analysis_sheet`). It finds the Season,
  FTHG, FTAG and FTR columns by header name. It folds the data rows into a
  dictionary `season -> (TotalGoals, HomeWins, AwayWins)`. Then it emits one
  row per season, in ascending order, with `WinDiff = HomeWins - AwayWins`.
- **Team analysis** (`create_team_analysis_sheet`). It finds HomeTeam,
  AwayTeam and FTR. It folds the rows into `team -> (HGP, HW, AGP, AW)`. Then
  it emits one row per team, in ascending order, with the home and away win
  rates (0 when no game was played).

The input is the header (`seq<string>`) and the data rows
(`seq<seq<string>>`), already split into fields. Each pass is a method:
`Yearly.YearlyAnalysis` and `TeamStats.TeamAnalysis`. Each one calls three
steps, as the source does inline: column resolution (`Columns.Resolve`, one
`list.index` per name), a `while` loop that updates a local `map` row by row
(the `defaultdict`), and a loop over the sorted keys that appends output
rows. The map loop is proved against a fold function (`YearlyFold`,
`TeamFold`). Lemmas then tie each fold to per-key reference counts that are
defined directly on the rows, with no dictionary.

`SortedKeys` picks keys in an arbitrary order while it builds its result,
but the result is still determined. `Ordering.AscendingUnique` shows that a
strictly ascending list is fixed by its elements. `YearlyEmittedUnique` and
`TeamEmittedUnique` then show that each emission's postcondition allows
exactly one table. So re-running either pass on the same input gives the
same rows.

Modules:

- `Wrappers`: `Option` and `Result`.
- `Columns`: `IndexOf` (Python's `list.index`) and `Resolve`.
- `PyInt`: `ParseInt`, a simplified Python `int()` on a string.
- `Ordering`: Python's `str` ordering (`Less`) and `SortedKeys` (`sorted` on dictionary keys).
- `Yearly` and `TeamStats`: the two passes.

What the code does, which is not the same as "bad rows are skipped":

- Yearly pass, line 88: `yearly_data[season]` is evaluated before the goals.
  A row with a season whose goal fields are missing or not integers still
  adds its season, with zero counters (`BadGoalsRow`).
- Yearly pass, lines 88-89: the goals are added before `row[ftr_idx]` is
  read. A row without an FTR field keeps its goals (`ShortRowKeepsGoals`).
- Team pass, lines 161-165: games played are counted before FTR is read,
  and only `IndexError` is caught. A row without FTR still counts as a game.
- Team pass: when HomeTeam equals AwayTeam, that one key gets both a home
  and an away game (`SelfMatch`).
- `int()` accepts a sign and surrounding whitespace, so negative goal
  counts are summed as written.
- Names are not filtered: an empty season or team field is a key like any
  other.

The comment at football.py:94 says such rows are skipped. In the cases
above the code does not skip them, and the model follows the code.

## Model

| member | source | states |
|---|---|---|
| `Columns.IndexOf` | football.py:72-75 | `header.index(name)`: None exactly when the name is absent; otherwise the position of its first occurrence |
| `Columns.Resolve` | football.py:71-78 | success exactly when every required name is present, with each name's first index; otherwise the error is the first missing name in lookup order (every earlier name is present) |
| `Yearly.ResolveYearly` | football.py:71-78 | Season, FTHG, FTAG, FTR resolve to their first indices iff all four are present; otherwise the first missing name is reported |
| `Yearly.Entry` | football.py:80 | definition: the `defaultdict` entry of a season, all zeros when the key is absent |
| `Yearly.RowGoals` | football.py:88 | definition: `int(row[fthg]) + int(row[ftag])`, or None when either field is missing (IndexError) or does not parse (ValueError) |
| `Yearly.YearlyStep` | football.py:86-95 | one row adds exactly its season as a key (none if it has no season field) and changes no other season's entry |
| `Yearly.YearlyFold` | football.py:85-95 | definition: the dictionary after the step has been applied to every row in order, starting from the empty one |
| `TeamStats.ResolveTeam` | football.py:142-148 | HomeTeam, AwayTeam, FTR resolve to their first indices iff all three are present; otherwise the first missing name is reported |
| `TeamStats.Entry` | football.py:150 | definition: the `defaultdict` entry of a team, all zeros when the key is absent |
| `TeamStats.TeamStep` | football.py:156-170 | a row with both team fields adds exactly its two teams as keys and changes no other team's entry; a shorter row adds nothing |
| `TeamStats.TeamFold` | football.py:155-170 | definition: the dictionary after the step has been applied to every row in order, starting from the empty one |
| `PyInt.ParseShowRoundTrip` | football.py:88 | the modelled `int()` reads back the decimal text of every integer, negative ones included |
| `PyInt.ShowNatValue` | football.py:88 | the digit string of a natural number has that number as its decimal value |
| `PyInt.ParseInt` | football.py:88 | definition: `int(s)` after stripping ASCII whitespace: an optional sign followed by one or more ASCII digits gives Some(value), anything else None (the ValueError case) |
| `Ordering.LessIrreflexive` | football.py:99 | no string sorts before itself in Python's code-point order |
| `Ordering.LessTransitive` | football.py:99 | Python's string order is transitive |
| `Ordering.LessTotal` | football.py:99 | any two different strings are ordered one way or the other |
| `Ordering.Less` | football.py:99 | definition: Python's `<` on `str`, comparing code points from the left, a proper prefix being smaller |
| `Ordering.LessAsymmetric` | football.py:99 | no two strings are each below the other |
| `Ordering.AscendingUnique` | football.py:99 | two strictly ascending lists with the same elements are equal, so `sorted(keys)` has exactly one result |
| `Ordering.Insert` | football.py:99 | inserting a new key into a strictly ascending list gives a strictly ascending list with one more element and exactly the old keys plus the new one |
| `Ordering.SortedKeys` | football.py:176 | `sorted(keys)`: strictly ascending, as many elements as keys, and exactly the keys |
| `Yearly.AddSeasonRow` | football.py:86-95 | one row's update of the dictionary equals the step function (season read first, entry created, goals added, then "H"/"A" counted) |
| `Yearly.AggregateSeasons` | football.py:80-95 | after the row loop the dictionary equals the left fold of the step over all rows |
| `Yearly.EmitSeasons` | football.py:99-104 | one output row per key, keys strictly ascending, each row carrying that key's counters and WinDiff = HomeWins − AwayWins |
| `Yearly.YearlyEmittedUnique` | football.py:99-104 | a dictionary has exactly one emitted table, so the yearly output is determined by the input |
| `Yearly.YearlyAnalysis` | football.py:70-104 | a missing column gives the first missing name and no rows; otherwise the title row and the emitted table of the folded dictionary |
| `Yearly.YearlyFoldCounts` | football.py:85-95 | the keys are exactly the season fields seen; each season's TotalGoals is the sum of goals over its rows whose two goal fields parse (with or without FTR), and HomeWins/AwayWins count those rows with FTR exactly "H"/"A" |
| `Yearly.WinsWithinRows` | football.py:89-92 | HomeWins + AwayWins of a season never exceed that season's row count |
| `Yearly.BadGoalsRow` | football.py:88 | a row with a season but missing or unparsable goals adds its season key and changes no counter |
| `Yearly.ShortRowKeepsGoals` | football.py:88-89 | a row with parsed goals but no FTR field adds its goals and no win |
| `Yearly.GoalsRegrouped` | football.py:88 | summing per-season goals over any duplicate-free list covering the seasons seen gives the goals of all contributing rows |
| `Yearly.YearlyReportMeaning` | football.py:85-104 | every output row states its season's reference counts; wins never exceed the season's rows; the output lists exactly the seasons seen; its TotalGoals column sums to all contributing goals |
| `Yearly.TwoMatchScenario` | football.py:85-92 | a 2-1 home win and a 0-0 draw in 2020 give TotalGoals 3, HomeWins 1, AwayWins 0 |
| `Yearly.TwoMatchReport` | football.py:99-104 | the emitted table of that example is the single row 2020, 3, 1, 0, WinDiff 1 |
| `TeamStats.AddTeamRow` | football.py:156-170 | one row's update of the dictionary equals the step function (both teams read, games counted, then "H"/"A" counted) |
| `TeamStats.AggregateTeams` | football.py:150-170 | after the row loop the dictionary equals the left fold of the step over all rows |
| `TeamStats.EmitTeams` | football.py:176-189 | one output row per key, keys strictly ascending, each row carrying that key's counters and both win rates |
| `TeamStats.TeamEmittedUnique` | football.py:176-189 | a dictionary has exactly one emitted table, so the team output is determined by the input |
| `TeamStats.TeamAnalysis` | football.py:142-189 | a missing column gives the first missing name and no rows; otherwise the title row and the emitted table of the folded dictionary |
| `TeamStats.TeamFoldCounts` | football.py:155-170 | the keys are exactly the teams of rows with both team fields; HGP/AGP count those rows with the team at home/away (FTR present or not), HW/AW count those with FTR exactly "H"/"A" |
| `TeamStats.WinsWithinGames` | football.py:165-168 | HW ≤ HGP and AW ≤ AGP for every team |
| `TeamStats.SelfMatch` | football.py:161-162 | a team facing itself gets one more home game and one more away game |
| `TeamStats.ShortRowIgnored` | football.py:157-158 | a row lacking either team field changes nothing |
| `TeamStats.WinRate` | football.py:183-184 | 0 when no games were played; otherwise rate × games = wins × 100; between 0 and 100 when wins ≤ games |
| `TeamStats.TeamReportMeaning` | football.py:155-189 | every output row states its team's reference counts, wins ≤ games, both rates lie in [0, 100] and are 0 when the games count is 0; the output lists exactly the teams seen |

## Left out

- `style_excel_sheet` (football.py:7-40): fills, fonts and column widths only.
- The bar and line charts (football.py:108-129): chart configuration with no data contract.
- `create_raw_data_sheet`, `open` and `csv.reader`: file I/O and CSV splitting. The model takes the header and the rows as already split. Re-reading the file for each pass is not modelled.
- An empty file: `next(csv.reader(f))` at football.py:59 raises StopIteration, which the generic handler at football.py:222-223 catches, so neither pass runs. The model always has a header.
- The `__main__` orchestration, workbook creation and saving, and every `print` (football.py:195-223). A missing column is returned as `Failure(name)`. The message text is not modelled, nor the empty sheet that the source has already created.
- `TeamStats.WinRate`: an exact `real` stands for the Python float, so it does not model float rounding. The two-decimal text `f"{rate:.2f}"` (football.py:187-188) is not modelled either.
- `PyInt.ParseInt`: handles only ASCII whitespace, one optional sign and ASCII digits. It does not model underscores between digits, non-ASCII digits or non-ASCII whitespace, which Python's `int()` also accepts. In the other direction, it accepts decimal strings of more than 4300 digits, which Python 3.11 and later reject with ValueError (the integer string-conversion length limit).
- `Ordering.SortedKeys`: builds the sorted key list by insertion. Python's sort algorithm is library code; only its result (ascending, every key once) is modelled.
