/**
 * The per-team aggregation of `create_team_analysis_sheet`: resolve the
 * HomeTeam, AwayTeam and FTR columns, fold the data rows into a dictionary
 * team -> (home games, home wins, away games, away wins), then emit one row per
 * team in ascending order with the home and away win rates.
 */
module TeamStats {
  import opened Wrappers
  import opened Columns
  import opened Ordering

  /** The header names looked up, in the order the source looks them up. */
  const TeamNames: seq<string> := ["HomeTeam", "AwayTeam", "FTR"]

  /** The title row written above the data rows. */
  const TeamTitles: seq<string> :=
    ["Team", "Home Games Played", "Home Wins", "Home Win Rate (%)", "Away Games Played", "Away Wins", "Away Win Rate (%)"]

  datatype TeamColumns = TeamColumns(home: nat, away: nat, ftr: nat)

  /** One dictionary entry (HGP, HW, AGP, AW); a fresh entry is all zeros. */
  datatype TeamAgg = TeamAgg(hgp: nat, hw: nat, agp: nat, aw: nat)

  datatype TeamRow = TeamRow(team: string, homeGames: nat, homeWins: nat, homeRate: real,
                             awayGames: nat, awayWins: nat, awayRate: real)

  datatype TeamReport = TeamReport(titles: seq<string>, rows: seq<TeamRow>)

  const Zero := TeamAgg(0, 0, 0, 0)

  /** The entry a `defaultdict` yields for `t`. */
  function Entry(m: map<string, TeamAgg>, t: string): TeamAgg {
    if t in m then m[t] else Zero
  }

  function ResolveTeam(header: seq<string>): (r: Result<TeamColumns, string>)
    ensures r.Success? <==> "HomeTeam" in header && "AwayTeam" in header && "FTR" in header
    ensures r.Success? ==>
              && IsFirstIndex(header, "HomeTeam", r.value.home)
              && IsFirstIndex(header, "AwayTeam", r.value.away)
              && IsFirstIndex(header, "FTR", r.value.ftr)
    ensures r.Failure? ==> Resolve(header, TeamNames) == Failure(r.error)
  {
    match Resolve(header, TeamNames)
    case Failure(e) => Failure(e)
    case Success(ix) =>
      assert TeamNames[0] == "HomeTeam" && TeamNames[1] == "AwayTeam" && TeamNames[2] == "FTR";
      Success(TeamColumns(ix[0], ix[1], ix[2]))
  }

  /** Both team fields are present, so the row is not skipped by IndexError. */
  predicate HasTeams(cols: TeamColumns, row: seq<string>) {
    cols.home < |row| && cols.away < |row|
  }

  /** The result field is present and is exactly `code`. */
  predicate ResultIs(cols: TeamColumns, row: seq<string>, code: string) {
    cols.ftr < |row| && row[cols.ftr] == code
  }

  /**
   * One pass of the loop body. A row lacking a team field is skipped. Games
   * played are counted before the result is read, so a row lacking only the
   * result still counts as played. When both sides name the same team, that
   * one entry receives both the home and the away game.
   */
  function TeamStep(cols: TeamColumns, m: map<string, TeamAgg>, row: seq<string>): (r: map<string, TeamAgg>)
    ensures r.Keys == m.Keys + (if HasTeams(cols, row) then {row[cols.home], row[cols.away]} else {})
    ensures forall t :: (!HasTeams(cols, row) || (t != row[cols.home] && t != row[cols.away])) ==>
              Entry(r, t) == Entry(m, t)
  {
    if !HasTeams(cols, row) then m
    else
      var h := row[cols.home];
      var a := row[cols.away];
      var m1 := m[h := Entry(m, h).(hgp := Entry(m, h).hgp + 1)];
      var m2 := m1[a := Entry(m1, a).(agp := Entry(m1, a).agp + 1)];
      if ResultIs(cols, row, "H") then m2[h := m2[h].(hw := m2[h].hw + 1)]
      else if ResultIs(cols, row, "A") then m2[a := m2[a].(aw := m2[a].aw + 1)]
      else m2
  }

  /** The dictionary after the loop has consumed `rows`, in order. */
  function TeamFold(cols: TeamColumns, rows: seq<seq<string>>): map<string, TeamAgg>
    decreases |rows|
  {
    if rows == [] then map[]
    else TeamStep(cols, TeamFold(cols, rows[..|rows| - 1]), rows[|rows| - 1])
  }

  // ---------------------------------------------------------------------
  // Per-team reference counts, defined row by row without the dictionary.

  /** The teams named on either side of rows that have both team fields. */
  function TeamsSeen(cols: TeamColumns, rows: seq<seq<string>>): set<string>
    decreases |rows|
  {
    if rows == [] then {}
    else
      var last := rows[|rows| - 1];
      TeamsSeen(cols, rows[..|rows| - 1]) +
        (if HasTeams(cols, last) then {last[cols.home], last[cols.away]} else {})
  }

  /** Rows with both team fields where `t` is the home side. */
  function HomeGames(cols: TeamColumns, rows: seq<seq<string>>, t: string): nat
    decreases |rows|
  {
    if rows == [] then 0
    else
      var last := rows[|rows| - 1];
      HomeGames(cols, rows[..|rows| - 1], t) + (if HasTeams(cols, last) && last[cols.home] == t then 1 else 0)
  }

  /** Rows with both team fields where `t` is the away side. */
  function AwayGames(cols: TeamColumns, rows: seq<seq<string>>, t: string): nat
    decreases |rows|
  {
    if rows == [] then 0
    else
      var last := rows[|rows| - 1];
      AwayGames(cols, rows[..|rows| - 1], t) + (if HasTeams(cols, last) && last[cols.away] == t then 1 else 0)
  }

  /** Home games of `t` whose result is exactly "H". */
  function HomeWinCount(cols: TeamColumns, rows: seq<seq<string>>, t: string): nat
    decreases |rows|
  {
    if rows == [] then 0
    else
      var last := rows[|rows| - 1];
      HomeWinCount(cols, rows[..|rows| - 1], t) +
        (if HasTeams(cols, last) && last[cols.home] == t && ResultIs(cols, last, "H") then 1 else 0)
  }

  /** Away games of `t` whose result is exactly "A". */
  function AwayWinCount(cols: TeamColumns, rows: seq<seq<string>>, t: string): nat
    decreases |rows|
  {
    if rows == [] then 0
    else
      var last := rows[|rows| - 1];
      AwayWinCount(cols, rows[..|rows| - 1], t) +
        (if HasTeams(cols, last) && last[cols.away] == t && ResultIs(cols, last, "A") then 1 else 0)
  }

  /** The dictionary holds exactly the teams seen, and each entry is the reference count of its team. */
  lemma {:induction false} TeamFoldCounts(cols: TeamColumns, rows: seq<seq<string>>)
    ensures TeamFold(cols, rows).Keys == TeamsSeen(cols, rows)
    ensures forall t ::
              Entry(TeamFold(cols, rows), t)
              == TeamAgg(HomeGames(cols, rows, t), HomeWinCount(cols, rows, t),
                         AwayGames(cols, rows, t), AwayWinCount(cols, rows, t))
    decreases |rows|
  {
    if rows != [] {
      TeamFoldCounts(cols, rows[..|rows| - 1]);
    }
  }

  /** A team never has more wins than games, at home or away. */
  lemma {:induction false} WinsWithinGames(cols: TeamColumns, rows: seq<seq<string>>, t: string)
    ensures HomeWinCount(cols, rows, t) <= HomeGames(cols, rows, t)
    ensures AwayWinCount(cols, rows, t) <= AwayGames(cols, rows, t)
    decreases |rows|
  {
    if rows != [] {
      WinsWithinGames(cols, rows[..|rows| - 1], t);
    }
  }

  /** A team facing itself gets one more home game and one more away game from the same row. */
  lemma SelfMatch(cols: TeamColumns, m: map<string, TeamAgg>, row: seq<string>)
    requires HasTeams(cols, row) && row[cols.home] == row[cols.away]
    ensures var t := row[cols.home];
      && Entry(TeamStep(cols, m, row), t).hgp == Entry(m, t).hgp + 1
      && Entry(TeamStep(cols, m, row), t).agp == Entry(m, t).agp + 1
  {
  }

  /** A row lacking a team field changes nothing. */
  lemma ShortRowIgnored(cols: TeamColumns, m: map<string, TeamAgg>, row: seq<string>)
    requires !HasTeams(cols, row)
    ensures TeamStep(cols, m, row) == m
  {
  }

  // ---------------------------------------------------------------------
  // Emission.

  /**
   * `wins / games * 100`, or 0 when no game was played: an exact
   * rational, standing for the float the source computes.
   */
  function WinRate(wins: nat, games: nat): (r: real)
    ensures games == 0 ==> r == 0.0
    ensures games > 0 ==> r * (games as real) == (wins as real) * 100.0
    ensures wins <= games ==> 0.0 <= r <= 100.0
  {
    if games > 0 then
      var q := (wins as real) / (games as real);
      assert q * (games as real) == wins as real;
      assert wins <= games ==> q <= 1.0;
      q * 100.0
    else 0.0
  }

  /** The team column of an emitted table. */
  function TeamsOf(out: seq<TeamRow>): (r: seq<string>)
    ensures |r| == |out| && forall i :: 0 <= i < |out| ==> r[i] == out[i].team
    decreases |out|
  {
    if out == [] then [] else TeamsOf(out[..|out| - 1]) + [out[|out| - 1].team]
  }

  /** `out` is the emitted table of dictionary `m`: one row per key, ascending, with its counters and rates. */
  ghost predicate TeamEmitted(m: map<string, TeamAgg>, out: seq<TeamRow>) {
    && |out| == |m|
    && StrictlyAscending(TeamsOf(out))
    && (forall t :: t in m <==> t in TeamsOf(out))
    && forall i :: 0 <= i < |out| ==>
         && out[i].team in m
         && out[i].homeGames == m[out[i].team].hgp
         && out[i].homeWins == m[out[i].team].hw
         && out[i].awayGames == m[out[i].team].agp
         && out[i].awayWins == m[out[i].team].aw
         && out[i].homeRate == WinRate(out[i].homeWins, out[i].homeGames)
         && out[i].awayRate == WinRate(out[i].awayWins, out[i].awayGames)
  }

  /** The body of the `try` block for one row, updating the dictionary as the source does. */
  method AddTeamRow(cols: TeamColumns, stats: map<string, TeamAgg>, row: seq<string>)
    returns (updated: map<string, TeamAgg>)
    ensures updated == TeamStep(cols, stats, row)
  {
    updated := stats;
    if cols.home < |row| && cols.away < |row| {
      var homeTeam := row[cols.home];
      var awayTeam := row[cols.away];
      var h := if homeTeam in updated then updated[homeTeam] else Zero;
      updated := updated[homeTeam := h.(hgp := h.hgp + 1)];
      var a := if awayTeam in updated then updated[awayTeam] else Zero;
      updated := updated[awayTeam := a.(agp := a.agp + 1)];
      if cols.ftr < |row| {
        if row[cols.ftr] == "H" {
          h := updated[homeTeam];
          updated := updated[homeTeam := h.(hw := h.hw + 1)];
        } else if row[cols.ftr] == "A" {
          a := updated[awayTeam];
          updated := updated[awayTeam := a.(aw := a.aw + 1)];
        }
      }
    }
  }

  /** The `for row in reader` loop: fills the dictionary, one row at a time. */
  method AggregateTeams(cols: TeamColumns, rows: seq<seq<string>>) returns (stats: map<string, TeamAgg>)
    ensures stats == TeamFold(cols, rows)
  {
    stats := map[];
    var i := 0;
    while i < |rows|
      invariant 0 <= i <= |rows|
      invariant stats == TeamFold(cols, rows[..i])
    {
      stats := AddTeamRow(cols, stats, rows[i]);
      assert rows[..i + 1][..i] == rows[..i];
      i := i + 1;
    }
    assert rows[..|rows|] == rows;
  }

  /** The `for team in sorted_teams` loop: one row per key, ascending, with the two rates. */
  method EmitTeams(stats: map<string, TeamAgg>) returns (out: seq<TeamRow>)
    ensures TeamEmitted(stats, out)
  {
    var teams := SortedKeys(stats.Keys);
    out := [];
    var j := 0;
    while j < |teams|
      invariant 0 <= j <= |teams|
      invariant |out| == j
      invariant forall k :: 0 <= k < j ==>
        var s := stats[teams[k]];
        out[k] == TeamRow(teams[k], s.hgp, s.hw, WinRate(s.hw, s.hgp), s.agp, s.aw, WinRate(s.aw, s.agp))
    {
      var s := stats[teams[j]];
      var homeRate := if s.hgp > 0 then (s.hw as real) / (s.hgp as real) * 100.0 else 0.0;
      var awayRate := if s.agp > 0 then (s.aw as real) / (s.agp as real) * 100.0 else 0.0;
      out := out + [TeamRow(teams[j], s.hgp, s.hw, homeRate, s.agp, s.aw, awayRate)];
      j := j + 1;
    }
    assert TeamsOf(out) == teams;
  }

  /** The emitted table of a dictionary is unique, so the emission's key order leaves no choice. */
  lemma TeamEmittedUnique(m: map<string, TeamAgg>, o1: seq<TeamRow>, o2: seq<TeamRow>)
    requires TeamEmitted(m, o1) && TeamEmitted(m, o2)
    ensures o1 == o2
  {
    AscendingUnique(TeamsOf(o1), TeamsOf(o2));
    forall i | 0 <= i < |o1| ensures o1[i] == o2[i] {
      assert o1[i].team == TeamsOf(o1)[i] == TeamsOf(o2)[i] == o2[i].team;
    }
  }

  /**
   * The whole sheet-building step. A missing column yields the name of the
   * first one missing and no data; otherwise the rows are aggregated and
   * emitted in ascending team order.
   */
  method TeamAnalysis(header: seq<string>, rows: seq<seq<string>>) returns (r: Result<TeamReport, string>)
    ensures ResolveTeam(header).Failure? ==> r == Failure(ResolveTeam(header).error)
    ensures ResolveTeam(header).Success? ==>
              && r.Success?
              && r.value.titles == TeamTitles
              && TeamEmitted(TeamFold(ResolveTeam(header).value, rows), r.value.rows)
  {
    var resolved := ResolveTeam(header);
    if resolved.Failure? {
      return Failure(resolved.error);
    }
    var stats := AggregateTeams(resolved.value, rows);
    var out := EmitTeams(stats);
    r := Success(TeamReport(TeamTitles, out));
  }

  /**
   * Every emitted row states the reference counts of its team, wins never
   * exceed games, each rate lies between 0 and 100 and is 0 when its team
   * played no such game, and the table lists exactly the teams seen.
   */
  lemma TeamReportMeaning(cols: TeamColumns, rows: seq<seq<string>>, out: seq<TeamRow>)
    requires TeamEmitted(TeamFold(cols, rows), out)
    ensures forall t :: t in TeamsOf(out) <==> t in TeamsSeen(cols, rows)
    ensures forall i :: 0 <= i < |out| ==>
              && out[i].homeGames == HomeGames(cols, rows, out[i].team)
              && out[i].homeWins == HomeWinCount(cols, rows, out[i].team)
              && out[i].awayGames == AwayGames(cols, rows, out[i].team)
              && out[i].awayWins == AwayWinCount(cols, rows, out[i].team)
              && out[i].homeWins <= out[i].homeGames
              && out[i].awayWins <= out[i].awayGames
              && 0.0 <= out[i].homeRate <= 100.0
              && 0.0 <= out[i].awayRate <= 100.0
              && (out[i].homeGames == 0 ==> out[i].homeRate == 0.0)
              && (out[i].awayGames == 0 ==> out[i].awayRate == 0.0)
  {
    var m := TeamFold(cols, rows);
    TeamFoldCounts(cols, rows);
    forall i | 0 <= i < |out|
      ensures out[i].homeGames == HomeGames(cols, rows, out[i].team)
      ensures out[i].homeWins == HomeWinCount(cols, rows, out[i].team)
      ensures out[i].awayGames == AwayGames(cols, rows, out[i].team)
      ensures out[i].awayWins == AwayWinCount(cols, rows, out[i].team)
      ensures out[i].homeWins <= out[i].homeGames && out[i].awayWins <= out[i].awayGames
    {
      assert Entry(m, out[i].team) == m[out[i].team];
      WinsWithinGames(cols, rows, out[i].team);
    }
  }
}
