/**
 * The per-season aggregation of `create_yearly_analysis_sheet`: resolve the
 * Season, FTHG, FTAG and FTR columns, fold the data rows into a dictionary
 * season -> (total goals, home wins, away wins), then emit one row per season
 * in ascending order with the win difference.
 */
module Yearly {
  import opened Wrappers
  import opened Columns
  import opened PyInt
  import opened Ordering

  /** The header names looked up, in the order the source looks them up. */
  const YearlyNames: seq<string> := ["Season", "FTHG", "FTAG", "FTR"]

  /** The title row written above the data rows. */
  const YearlyTitles: seq<string> := ["Season", "Total Goals", "Home Wins", "Away Wins", "Win Difference"]

  datatype YearlyColumns = YearlyColumns(season: nat, fthg: nat, ftag: nat, ftr: nat)

  /** One dictionary entry; a fresh entry is all zeros. */
  datatype SeasonAgg = SeasonAgg(totalGoals: int, homeWins: nat, awayWins: nat)

  datatype YearlyRow = YearlyRow(season: string, totalGoals: int, homeWins: nat, awayWins: nat, winDiff: int)

  datatype YearlyReport = YearlyReport(titles: seq<string>, rows: seq<YearlyRow>)

  const Zero := SeasonAgg(0, 0, 0)

  /** The entry a `defaultdict` yields for `s`. */
  function Entry(m: map<string, SeasonAgg>, s: string): SeasonAgg {
    if s in m then m[s] else Zero
  }

  function ResolveYearly(header: seq<string>): (r: Result<YearlyColumns, string>)
    ensures r.Success? <==> "Season" in header && "FTHG" in header && "FTAG" in header && "FTR" in header
    ensures r.Success? ==>
              && IsFirstIndex(header, "Season", r.value.season)
              && IsFirstIndex(header, "FTHG", r.value.fthg)
              && IsFirstIndex(header, "FTAG", r.value.ftag)
              && IsFirstIndex(header, "FTR", r.value.ftr)
    ensures r.Failure? ==> Resolve(header, YearlyNames) == Failure(r.error)
  {
    match Resolve(header, YearlyNames)
    case Failure(e) => Failure(e)
    case Success(ix) =>
      assert YearlyNames[0] == "Season" && YearlyNames[1] == "FTHG";
      assert YearlyNames[2] == "FTAG" && YearlyNames[3] == "FTR";
      Success(YearlyColumns(ix[0], ix[1], ix[2], ix[3]))
  }

  /** `int(row[fthg]) + int(row[ftag])`, or None where that raises IndexError or ValueError. */
  function RowGoals(cols: YearlyColumns, row: seq<string>): Option<int> {
    if cols.fthg < |row| && cols.ftag < |row| then
      match (ParseInt(row[cols.fthg]), ParseInt(row[cols.ftag]))
      case (Some(h), Some(a)) => Some(h + a)
      case _ => None
    else None
  }

  /**
   * One pass of the loop body. Reading the season first can fail, which
   * skips the row. Otherwise the entry for the season is created before the
   * goals are evaluated, so it exists even if they fail. Goals are added
   * before the result column is read, so a missing result keeps them.
   */
  function YearlyStep(cols: YearlyColumns, m: map<string, SeasonAgg>, row: seq<string>): (r: map<string, SeasonAgg>)
    ensures r.Keys == m.Keys + (if cols.season < |row| then {row[cols.season]} else {})
    ensures forall s :: (cols.season >= |row| || s != row[cols.season]) ==> Entry(r, s) == Entry(m, s)
  {
    if cols.season >= |row| then m
    else
      var s := row[cols.season];
      var e := Entry(m, s);
      match RowGoals(cols, row)
      case None => m[s := e]
      case Some(g) =>
        var e' := e.(totalGoals := e.totalGoals + g);
        if cols.ftr < |row| && row[cols.ftr] == "H" then m[s := e'.(homeWins := e'.homeWins + 1)]
        else if cols.ftr < |row| && row[cols.ftr] == "A" then m[s := e'.(awayWins := e'.awayWins + 1)]
        else m[s := e']
  }

  /** The dictionary after the loop has consumed `rows`, in order. */
  function YearlyFold(cols: YearlyColumns, rows: seq<seq<string>>): map<string, SeasonAgg>
    decreases |rows|
  {
    if rows == [] then map[]
    else YearlyStep(cols, YearlyFold(cols, rows[..|rows| - 1]), rows[|rows| - 1])
  }

  // ---------------------------------------------------------------------
  // Per-season reference counts, defined row by row without the dictionary.

  predicate HasSeason(cols: YearlyColumns, row: seq<string>, s: string) {
    cols.season < |row| && row[cols.season] == s
  }

  /** The seasons of all rows long enough to have a season field. */
  function SeasonsSeen(cols: YearlyColumns, rows: seq<seq<string>>): set<string>
    decreases |rows|
  {
    if rows == [] then {}
    else
      var last := rows[|rows| - 1];
      SeasonsSeen(cols, rows[..|rows| - 1]) + (if cols.season < |last| then {last[cols.season]} else {})
  }

  /** Sum of the parsed goals over the rows of season `s` whose goals parse. */
  function SeasonGoals(cols: YearlyColumns, rows: seq<seq<string>>, s: string): int
    decreases |rows|
  {
    if rows == [] then 0
    else
      var last := rows[|rows| - 1];
      SeasonGoals(cols, rows[..|rows| - 1], s) +
        (if HasSeason(cols, last, s) && RowGoals(cols, last).Some? then RowGoals(cols, last).value else 0)
  }

  /** Number of rows of season `s` whose goals parse and whose result field is exactly `code`. */
  function SeasonResults(cols: YearlyColumns, rows: seq<seq<string>>, s: string, code: string): nat
    decreases |rows|
  {
    if rows == [] then 0
    else
      var last := rows[|rows| - 1];
      SeasonResults(cols, rows[..|rows| - 1], s, code) +
        (if HasSeason(cols, last, s) && RowGoals(cols, last).Some? && cols.ftr < |last| && last[cols.ftr] == code
         then 1 else 0)
  }

  /** Number of rows whose season field is `s`. */
  function SeasonRowCount(cols: YearlyColumns, rows: seq<seq<string>>, s: string): nat
    decreases |rows|
  {
    if rows == [] then 0
    else SeasonRowCount(cols, rows[..|rows| - 1], s) + (if HasSeason(cols, rows[|rows| - 1], s) then 1 else 0)
  }

  /** Sum of the parsed goals over all rows that have a season field and whose goals parse. */
  function AllGoals(cols: YearlyColumns, rows: seq<seq<string>>): int
    decreases |rows|
  {
    if rows == [] then 0
    else
      var last := rows[|rows| - 1];
      AllGoals(cols, rows[..|rows| - 1]) +
        (if cols.season < |last| && RowGoals(cols, last).Some? then RowGoals(cols, last).value else 0)
  }

  /**
   * The dictionary holds exactly the seasons seen, and each entry is the
   * reference count of its season: goals summed over rows whose goals parse
   * (whether or not the result field exists), and results "H" and "A" counted.
   */
  lemma {:induction false} YearlyFoldCounts(cols: YearlyColumns, rows: seq<seq<string>>)
    ensures YearlyFold(cols, rows).Keys == SeasonsSeen(cols, rows)
    ensures forall s ::
              Entry(YearlyFold(cols, rows), s)
              == SeasonAgg(SeasonGoals(cols, rows, s), SeasonResults(cols, rows, s, "H"), SeasonResults(cols, rows, s, "A"))
    decreases |rows|
  {
    if rows != [] {
      YearlyFoldCounts(cols, rows[..|rows| - 1]);
    }
  }

  /** Home and away wins of a season never exceed its number of rows. */
  lemma {:induction false} WinsWithinRows(cols: YearlyColumns, rows: seq<seq<string>>, s: string)
    ensures SeasonResults(cols, rows, s, "H") + SeasonResults(cols, rows, s, "A") <= SeasonRowCount(cols, rows, s)
    decreases |rows|
  {
    if rows != [] {
      WinsWithinRows(cols, rows[..|rows| - 1], s);
    }
  }

  /**
   * A row with a season field whose goals are missing or do not parse adds
   * its season as a key and changes no counter.
   */
  lemma BadGoalsRow(cols: YearlyColumns, m: map<string, SeasonAgg>, row: seq<string>)
    requires cols.season < |row| && RowGoals(cols, row).None?
    ensures YearlyStep(cols, m, row).Keys == m.Keys + {row[cols.season]}
    ensures forall s :: Entry(YearlyStep(cols, m, row), s) == Entry(m, s)
  {
  }

  /** A row without a result field still adds its parsed goals, and no win; no other season changes. */
  lemma ShortRowKeepsGoals(cols: YearlyColumns, m: map<string, SeasonAgg>, row: seq<string>)
    requires cols.season < |row| && RowGoals(cols, row).Some? && cols.ftr >= |row|
    ensures YearlyStep(cols, m, row).Keys == m.Keys + {row[cols.season]}
    ensures var s := row[cols.season];
      Entry(YearlyStep(cols, m, row), s) ==
        Entry(m, s).(totalGoals := Entry(m, s).totalGoals + RowGoals(cols, row).value)
    ensures forall s :: s != row[cols.season] ==> Entry(YearlyStep(cols, m, row), s) == Entry(m, s)
  {
  }

  // ---------------------------------------------------------------------
  // Emission.

  /** The season column of an emitted table. */
  function SeasonsOf(out: seq<YearlyRow>): (r: seq<string>)
    ensures |r| == |out| && forall i :: 0 <= i < |out| ==> r[i] == out[i].season
    decreases |out|
  {
    if out == [] then [] else SeasonsOf(out[..|out| - 1]) + [out[|out| - 1].season]
  }

  /** `out` is the emitted table of dictionary `m`: one row per key, ascending, with its counters. */
  ghost predicate YearlyEmitted(m: map<string, SeasonAgg>, out: seq<YearlyRow>) {
    && |out| == |m|
    && StrictlyAscending(SeasonsOf(out))
    && (forall s :: s in m <==> s in SeasonsOf(out))
    && forall i :: 0 <= i < |out| ==>
         && out[i].season in m
         && out[i].totalGoals == m[out[i].season].totalGoals
         && out[i].homeWins == m[out[i].season].homeWins
         && out[i].awayWins == m[out[i].season].awayWins
         && out[i].winDiff == out[i].homeWins - out[i].awayWins
  }

  /** The body of the `try` block for one row, updating the dictionary as the source does. */
  method AddSeasonRow(cols: YearlyColumns, yearly: map<string, SeasonAgg>, row: seq<string>)
    returns (updated: map<string, SeasonAgg>)
    ensures updated == YearlyStep(cols, yearly, row)
  {
    updated := yearly;
    if cols.season < |row| {
      var season := row[cols.season];
      var data := if season in updated then updated[season] else Zero;
      updated := updated[season := data];
      if cols.fthg < |row| && cols.ftag < |row| {
        var home := ParseInt(row[cols.fthg]);
        var away := ParseInt(row[cols.ftag]);
        if home.Some? && away.Some? {
          data := data.(totalGoals := data.totalGoals + (home.value + away.value));
          updated := updated[season := data];
          if cols.ftr < |row| {
            if row[cols.ftr] == "H" {
              updated := updated[season := data.(homeWins := data.homeWins + 1)];
            } else if row[cols.ftr] == "A" {
              updated := updated[season := data.(awayWins := data.awayWins + 1)];
            }
          }
        }
      }
    }
  }

  /** The `for row in reader` loop: fills the dictionary, one row at a time. */
  method AggregateSeasons(cols: YearlyColumns, rows: seq<seq<string>>) returns (yearly: map<string, SeasonAgg>)
    ensures yearly == YearlyFold(cols, rows)
  {
    yearly := map[];
    var i := 0;
    while i < |rows|
      invariant 0 <= i <= |rows|
      invariant yearly == YearlyFold(cols, rows[..i])
    {
      yearly := AddSeasonRow(cols, yearly, rows[i]);
      assert rows[..i + 1][..i] == rows[..i];
      i := i + 1;
    }
    assert rows[..|rows|] == rows;
  }

  /** The `for season in sorted_seasons` loop: one row per key, ascending, with the win difference. */
  method EmitSeasons(yearly: map<string, SeasonAgg>) returns (out: seq<YearlyRow>)
    ensures YearlyEmitted(yearly, out)
  {
    var seasons := SortedKeys(yearly.Keys);
    out := [];
    var j := 0;
    while j < |seasons|
      invariant 0 <= j <= |seasons|
      invariant |out| == j
      invariant forall k :: 0 <= k < j ==>
        var data := yearly[seasons[k]];
        out[k] == YearlyRow(seasons[k], data.totalGoals, data.homeWins, data.awayWins, data.homeWins - data.awayWins)
    {
      var data := yearly[seasons[j]];
      var winDiff := data.homeWins - data.awayWins;
      out := out + [YearlyRow(seasons[j], data.totalGoals, data.homeWins, data.awayWins, winDiff)];
      j := j + 1;
    }
    assert SeasonsOf(out) == seasons;
  }

  /** The emitted table of a dictionary is unique, so the emission's key order leaves no choice. */
  lemma YearlyEmittedUnique(m: map<string, SeasonAgg>, o1: seq<YearlyRow>, o2: seq<YearlyRow>)
    requires YearlyEmitted(m, o1) && YearlyEmitted(m, o2)
    ensures o1 == o2
  {
    AscendingUnique(SeasonsOf(o1), SeasonsOf(o2));
    forall i | 0 <= i < |o1| ensures o1[i] == o2[i] {
      assert o1[i].season == SeasonsOf(o1)[i] == SeasonsOf(o2)[i] == o2[i].season;
    }
  }

  /**
   * The whole sheet-building step. A missing column yields the name of the
   * first one missing and no data; otherwise the rows are aggregated and
   * emitted in ascending season order.
   */
  method YearlyAnalysis(header: seq<string>, rows: seq<seq<string>>) returns (r: Result<YearlyReport, string>)
    ensures ResolveYearly(header).Failure? ==> r == Failure(ResolveYearly(header).error)
    ensures ResolveYearly(header).Success? ==>
              && r.Success?
              && r.value.titles == YearlyTitles
              && YearlyEmitted(YearlyFold(ResolveYearly(header).value, rows), r.value.rows)
  {
    var resolved := ResolveYearly(header);
    if resolved.Failure? {
      return Failure(resolved.error);
    }
    var yearly := AggregateSeasons(resolved.value, rows);
    var out := EmitSeasons(yearly);
    r := Success(YearlyReport(YearlyTitles, out));
  }

  // ---------------------------------------------------------------------
  // What the emitted table means in terms of the input rows.

  /** Sum of the total-goals column. */
  function TotalGoalsOf(out: seq<YearlyRow>): int
    decreases |out|
  {
    if out == [] then 0 else TotalGoalsOf(out[..|out| - 1]) + out[|out| - 1].totalGoals
  }

  /** Sum of SeasonGoals over a list of seasons. */
  function GoalsOverSeasons(cols: YearlyColumns, rows: seq<seq<string>>, ks: seq<string>): int
    decreases |ks|
  {
    if ks == [] then 0
    else GoalsOverSeasons(cols, rows, ks[..|ks| - 1]) + SeasonGoals(cols, rows, ks[|ks| - 1])
  }

  /** Splitting off the last row: over distinct seasons, it contributes its goals once if its season is listed. */
  lemma {:induction false} GoalsOverSeasonsLastRow(cols: YearlyColumns, rows: seq<seq<string>>, ks: seq<string>)
    requires rows != []
    requires forall i, j :: 0 <= i < j < |ks| ==> ks[i] != ks[j]
    ensures var last := rows[|rows| - 1];
      GoalsOverSeasons(cols, rows, ks) ==
        GoalsOverSeasons(cols, rows[..|rows| - 1], ks) +
          (if cols.season < |last| && last[cols.season] in ks && RowGoals(cols, last).Some?
           then RowGoals(cols, last).value else 0)
    decreases |ks|
  {
    if ks != [] {
      var ks' := ks[..|ks| - 1];
      GoalsOverSeasonsLastRow(cols, rows, ks');
      var last := rows[|rows| - 1];
      if cols.season < |last| && last[cols.season] in ks {
        assert last[cols.season] in ks' <==> last[cols.season] != ks[|ks| - 1] by {
          if last[cols.season] in ks' {
            var i :| 0 <= i < |ks'| && ks'[i] == last[cols.season];
            assert ks[i] == ks'[i];
          }
        }
      }
      assert forall x :: x in ks' ==> x in ks;
    }
  }

  /** The goals of all rows, regrouped by season over any distinct list that covers the seasons seen. */
  lemma {:induction false} GoalsRegrouped(cols: YearlyColumns, rows: seq<seq<string>>, ks: seq<string>)
    requires forall i, j :: 0 <= i < j < |ks| ==> ks[i] != ks[j]
    requires forall s :: s in SeasonsSeen(cols, rows) ==> s in ks
    ensures GoalsOverSeasons(cols, rows, ks) == AllGoals(cols, rows)
    decreases |rows|
  {
    if rows == [] {
      GoalsOverSeasonsEmpty(cols, ks);
    } else {
      GoalsRegrouped(cols, rows[..|rows| - 1], ks);
      GoalsOverSeasonsLastRow(cols, rows, ks);
    }
  }

  lemma {:induction false} GoalsOverSeasonsEmpty(cols: YearlyColumns, ks: seq<string>)
    ensures GoalsOverSeasons(cols, [], ks) == 0
    decreases |ks|
  {
    if ks != [] {
      GoalsOverSeasonsEmpty(cols, ks[..|ks| - 1]);
    }
  }

  lemma {:induction false} TotalGoalsOfEmitted(cols: YearlyColumns, rows: seq<seq<string>>, out: seq<YearlyRow>)
    requires forall i :: 0 <= i < |out| ==> out[i].totalGoals == SeasonGoals(cols, rows, out[i].season)
    ensures TotalGoalsOf(out) == GoalsOverSeasons(cols, rows, SeasonsOf(out))
    decreases |out|
  {
    if out != [] {
      var out' := out[..|out| - 1];
      assert SeasonsOf(out)[..|out| - 1] == SeasonsOf(out');
      TotalGoalsOfEmitted(cols, rows, out');
    }
  }

  /**
   * Every emitted row states the reference counts of its season, the wins
   * of a season never exceed its rows, the table lists exactly the seasons
   * seen, and its total-goals column sums to the goals of all rows that
   * contributed.
   */
  lemma YearlyReportMeaning(cols: YearlyColumns, rows: seq<seq<string>>, out: seq<YearlyRow>)
    requires YearlyEmitted(YearlyFold(cols, rows), out)
    ensures forall s :: s in SeasonsOf(out) <==> s in SeasonsSeen(cols, rows)
    ensures forall i :: 0 <= i < |out| ==>
              && out[i].totalGoals == SeasonGoals(cols, rows, out[i].season)
              && out[i].homeWins == SeasonResults(cols, rows, out[i].season, "H")
              && out[i].awayWins == SeasonResults(cols, rows, out[i].season, "A")
              && out[i].homeWins + out[i].awayWins <= SeasonRowCount(cols, rows, out[i].season)
              && out[i].winDiff == out[i].homeWins - out[i].awayWins
    ensures TotalGoalsOf(out) == AllGoals(cols, rows)
  {
    var m := YearlyFold(cols, rows);
    YearlyFoldCounts(cols, rows);
    forall i | 0 <= i < |out|
      ensures out[i].homeWins + out[i].awayWins <= SeasonRowCount(cols, rows, out[i].season)
    {
      assert Entry(m, out[i].season) == m[out[i].season];
      WinsWithinRows(cols, rows, out[i].season);
    }
    forall i | 0 <= i < |out|
      ensures out[i].totalGoals == SeasonGoals(cols, rows, out[i].season)
    {
      assert Entry(m, out[i].season) == m[out[i].season];
    }
    AscendingDistinct(SeasonsOf(out));
    TotalGoalsOfEmitted(cols, rows, out);
    GoalsRegrouped(cols, rows, SeasonsOf(out));
  }

  /** The worked example: two rows of 2020, a 2-1 home win and a 0-0 draw. */
  lemma TwoMatchScenario()
    ensures var cols := YearlyColumns(0, 3, 4, 5);
      YearlyFold(cols, [["2020", "TeamA", "TeamB", "2", "1", "H"], ["2020", "TeamB", "TeamA", "0", "0", "D"]])
        == map["2020" := SeasonAgg(3, 1, 0)]
  {
  }

  /** The table emitted for the worked example: one row, 2020, with win difference 1. */
  lemma TwoMatchReport(out: seq<YearlyRow>)
    requires YearlyEmitted(YearlyFold(YearlyColumns(0, 3, 4, 5),
      [["2020", "TeamA", "TeamB", "2", "1", "H"], ["2020", "TeamB", "TeamA", "0", "0", "D"]]), out)
    ensures out == [YearlyRow("2020", 3, 1, 0, 1)]
  {
    TwoMatchScenario();
    assert |out| == 1;
    assert out[0].season == SeasonsOf(out)[0];
  }
}
