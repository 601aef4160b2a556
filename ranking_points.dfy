/** Ranking points awarded when a scoring tournament finishes
    (`computeAndSaveTournamentRankingPoints`): every non-substitute team
    starts at the group-stage value, each finished playoff match overwrites
    its loser's entry (and, in the final, its winner's), and every team
    yields one points row per player. The database reads become input
    sequences, and the rows written back become the result. */
module RankingPoints {
  import opened Common
  import opened Collections

  datatype Tournament = Tournament(id: int, isPuntuable: bool, categoryId: Option<int>)

  datatype TeamRow = TeamRow(id: int, player1Id: int, player2Id: int, isSubstitute: bool)

  datatype PlayoffRow = PlayoffRow(round: string, matchId: int)

  datatype MatchRow = MatchRow(id: int, team1Id: Option<int>, team2Id: Option<int>,
                               team1Sets: Option<int>, team2Sets: Option<int>, status: string)

  /** What a team reached and the points that stage is worth. */
  datatype Entry = Entry(points: int, roundReached: string)

  /** One `CreatePlayerTournamentPointInput`. */
  datatype PointRow = PointRow(tournamentId: int, playerId: int, categoryId: int,
                               points: int, roundReached: string, year: int)

  /** The `{ saved }` result, together with the rows that replace the
      tournament's stored points (none are written when there are none). */
  datatype Saved = Saved(saved: nat, rows: seq<PointRow>)

  const NotFound := "Tournament not found"

  /** The `ROUND_POINTS` table. */
  function RoundPoints(round: string): Option<int>
  {
    match round
    case "16avos" => Some(20)
    case "octavos" => Some(20)
    case "cuartos" => Some(40)
    case "semifinal" => Some(60)
    case "final" => Some(80)
    case "champion" => Some(100)
    case "groups" => Some(10)
    case _ => None
  }

  /** `ROUND_POINTS[round] ?? 20`. */
  function PointsFor(round: string): int
  {
    match RoundPoints(round)
    case Some(p) => p
    case None => 20
  }

  /** The stored points grow with the stage reached, and a round the table
      does not know is worth as much as the round of 16. */
  lemma PointsGrowWithStage(round: string)
    ensures PointsFor("groups") < PointsFor("16avos") == PointsFor("octavos")
    ensures PointsFor("octavos") < PointsFor("cuartos") < PointsFor("semifinal")
    ensures PointsFor("semifinal") < PointsFor("final") < PointsFor("champion")
    ensures PointsFor("champion") == 100 && PointsFor("groups") == 10
    ensures RoundPoints(round).None? ==> PointsFor(round) == PointsFor("octavos")
  {
  }

  const Groups := Entry(10, "groups")
  const Champion := Entry(100, "champion")
  const Finalist := Entry(80, "final")

  /** The teams the computation counts: those that are not substitutes. */
  function Starters(teams: seq<TeamRow>): (r: seq<TeamRow>)
    ensures forall i :: 0 <= i < |r| ==> !r[i].isSubstitute
    ensures forall t :: t in teams && !t.isSubstitute ==> t in r
    ensures forall t :: t in r ==> t in teams
  {
    FilterMembership(teams, (t: TeamRow) => !t.isSubstitute);
    Filter(teams, (t: TeamRow) => !t.isSubstitute)
  }

  /** `new Set(teamList.map(t => t.id))`. */
  function TeamIds(teams: seq<TeamRow>): set<int>
  {
    set t | t in teams :: t.id
  }

  /** The map after the initialising loop over `teamList`. */
  function InitialPoints(teams: seq<TeamRow>): (r: map<int, Entry>)
    ensures r.Keys == TeamIds(teams)
    ensures forall id :: id in r ==> r[id] == Groups
  {
    if teams == [] then map[]
    else
      var init := teams[..|teams| - 1];
      assert teams == init + [teams[|teams| - 1]];
      InitialPoints(init)[teams[|teams| - 1].id := Groups]
  }

  /** `new Map(matches.map(m => [m.id, m]))`: a later match with the same id
      replaces an earlier one. */
  function MatchesById(matches: seq<MatchRow>): (r: map<int, MatchRow>)
    ensures r.Keys == set m | m in matches :: m.id
    ensures forall id :: id in r ==> r[id] in matches && r[id].id == id
  {
    if matches == [] then map[]
    else
      var init := matches[..|matches| - 1];
      var last := matches[|matches| - 1];
      assert matches == init + [last];
      MatchesById(init)[last.id := last]
  }

  /** The finished matches among those the playoff rows point to: every
      kept match is one of them, and every one of them is kept. */
  function FinishedMatches(matches: seq<MatchRow>, rows: seq<PlayoffRow>): (r: seq<MatchRow>)
    ensures forall i :: 0 <= i < |r| ==> r[i].status == "finished" && r[i] in matches
    ensures forall m, row :: m in matches && m.status == "finished" && row in rows && row.matchId == m.id ==> m in r
  {
    var ids := set row | row in rows :: row.matchId;
    FilterMembership(matches, (m: MatchRow) => m.status == "finished" && m.id in ids);
    Filter(matches, (m: MatchRow) => m.status == "finished" && m.id in ids)
  }

  function SetsOrZero(sets: Option<int>): int
  {
    match sets
    case Some(n) => n
    case None => 0
  }

  /** The winner and the loser of a match whose two teams are known. */
  function WinnerLoser(m: MatchRow): (r: (int, int))
    requires m.team1Id.Some? && m.team2Id.Some?
    ensures r == (m.team1Id.value, m.team2Id.value) || r == (m.team2Id.value, m.team1Id.value)
  {
    if SetsOrZero(m.team1Sets) > SetsOrZero(m.team2Sets) then (m.team1Id.value, m.team2Id.value)
    else (m.team2Id.value, m.team1Id.value)
  }

  /** Team 1 wins exactly when it took strictly more sets, a missing count
      being zero; a level score goes to team 2. */
  lemma WinnerRule(m: MatchRow)
    requires m.team1Id.Some? && m.team2Id.Some? && m.team1Id != m.team2Id
    ensures WinnerLoser(m).0 == m.team1Id.value <==> SetsOrZero(m.team1Sets) > SetsOrZero(m.team2Sets)
    ensures SetsOrZero(m.team1Sets) == SetsOrZero(m.team2Sets) ==> WinnerLoser(m) == (m.team2Id.value, m.team1Id.value)
  {
  }

  /** The match a playoff row scores, when there is one: present among the
      finished matches and with both teams set. */
  function Scored(byId: map<int, MatchRow>, row: PlayoffRow): (r: Option<MatchRow>)
    ensures r.Some? <==> row.matchId in byId && byId[row.matchId].team1Id.Some? && byId[row.matchId].team2Id.Some?
    ensures r.Some? ==> r.value == byId[row.matchId]
  {
    if row.matchId !in byId then None
    else
      var m := byId[row.matchId];
      if m.team1Id.None? || m.team2Id.None? then None else Some(m)
  }

  /** One iteration of the loop over the playoff rows. */
  function ApplyRow(points: map<int, Entry>, teamIds: set<int>, byId: map<int, MatchRow>, row: PlayoffRow): map<int, Entry>
  {
    match Scored(byId, row)
    case None => points
    case Some(m) =>
      var (winner, loser) := WinnerLoser(m);
      if row.round == "final" then
        var crowned := if winner in teamIds then points[winner := Champion] else points;
        if loser in teamIds then crowned[loser := Finalist] else crowned
      else if loser in teamIds then points[loser := Entry(PointsFor(row.round), row.round)]
      else points
  }

  /** The map after the loop has processed `rows`, in order. */
  function ApplyRows(points: map<int, Entry>, teamIds: set<int>, byId: map<int, MatchRow>, rows: seq<PlayoffRow>): map<int, Entry>
  {
    if rows == [] then points
    else
      var init := rows[..|rows| - 1];
      ApplyRow(ApplyRows(points, teamIds, byId, init), teamIds, byId, rows[|rows| - 1])
  }

  /** A row whose match is missing or lacks a team changes nothing. */
  lemma IgnoredRow(points: map<int, Entry>, teamIds: set<int>, byId: map<int, MatchRow>, row: PlayoffRow)
    requires row.matchId !in byId || byId[row.matchId].team1Id.None? || byId[row.matchId].team2Id.None?
    ensures ApplyRow(points, teamIds, byId, row) == points
  {
  }

  /** A scored final crowns its winner and marks its loser as finalist; any
      other scored round gives its loser that round's points and name. Only
      listed teams are written, and every other entry is kept. */
  lemma ScoredRow(points: map<int, Entry>, teamIds: set<int>, byId: map<int, MatchRow>, row: PlayoffRow, id: int)
    requires Scored(byId, row).Some?
    ensures var r := ApplyRow(points, teamIds, byId, row);
      var (winner, loser) := WinnerLoser(byId[row.matchId]);
      && (id in r <==> id in points || (id in teamIds && (id == loser || (row.round == "final" && id == winner))))
      && (id in r ==>
            r[id] == (if id !in teamIds then points[id]
                      else if id == loser then (if row.round == "final" then Finalist else Entry(PointsFor(row.round), row.round))
                      else if id == winner && row.round == "final" then Champion
                      else points[id]))
  {
  }

  /** Every stored entry carries the points of the stage it names. */
  ghost predicate Consistent(points: map<int, Entry>)
  {
    forall id :: id in points ==> points[id].points == PointsFor(points[id].roundReached)
  }

  /** Processing rows keeps every entry consistent, writes only listed
      teams and never removes a team. */
  lemma {:induction false} ApplyRowsKeeps(points: map<int, Entry>, teamIds: set<int>, byId: map<int, MatchRow>, rows: seq<PlayoffRow>)
    requires Consistent(points)
    ensures var r := ApplyRows(points, teamIds, byId, rows);
      Consistent(r) && points.Keys <= r.Keys <= points.Keys + teamIds
  {
    if rows != [] {
      var init := rows[..|rows| - 1];
      ApplyRowsKeeps(points, teamIds, byId, init);
      var before := ApplyRows(points, teamIds, byId, init);
      var row := rows[|rows| - 1];
      forall id | true
        ensures var r := ApplyRow(before, teamIds, byId, row);
          (id in r ==> id in before || id in teamIds) && (id in before ==> id in r)
          && (id in r ==> r[id].points == PointsFor(r[id].roundReached))
      {
        if Scored(byId, row).Some? {
          ScoredRow(before, teamIds, byId, row, id);
        }
      }
    }
  }

  /** Running the loop over `a + b` is running it over `a`, then over `b`. */
  lemma {:induction false} ApplyRowsAppend(points: map<int, Entry>, teamIds: set<int>, byId: map<int, MatchRow>, a: seq<PlayoffRow>, b: seq<PlayoffRow>)
    ensures ApplyRows(points, teamIds, byId, a + b) == ApplyRows(ApplyRows(points, teamIds, byId, a), teamIds, byId, b)
    decreases |b|
  {
    if b == [] {
      assert a + b == a;
    } else {
      var bi := b[..|b| - 1];
      assert (a + b)[..|a + b| - 1] == a + bi;
      ApplyRowsAppend(points, teamIds, byId, a, bi);
    }
  }

  /** Whether a row can write the entry of team `id`. */
  predicate Touches(byId: map<int, MatchRow>, row: PlayoffRow, id: int)
  {
    match Scored(byId, row)
    case None => false
    case Some(m) => id == m.team1Id.value || id == m.team2Id.value
  }

  /** A team that no row touches keeps its entry; with `ApplyRowsAppend`
      this says the last row touching a team decides its entry. */
  lemma {:induction false} UntouchedKept(points: map<int, Entry>, teamIds: set<int>, byId: map<int, MatchRow>, rows: seq<PlayoffRow>, id: int)
    requires id in points
    requires forall i :: 0 <= i < |rows| ==> !Touches(byId, rows[i], id)
    ensures var r := ApplyRows(points, teamIds, byId, rows);
      id in r && r[id] == points[id]
  {
    if rows != [] {
      var init := rows[..|rows| - 1];
      UntouchedKept(points, teamIds, byId, init, id);
      var row := rows[|rows| - 1];
      assert !Touches(byId, row, id);
      if Scored(byId, row).Some? {
        ScoredRow(ApplyRows(points, teamIds, byId, init), teamIds, byId, row, id);
      }
    }
  }

  /** The two rows of one team, or none when it has no entry. */
  function TeamRows(t: TeamRow, points: map<int, Entry>, tournamentId: int, categoryId: int, year: int): seq<PointRow>
  {
    if t.id !in points then []
    else
      var e := points[t.id];
      [PointRow(tournamentId, t.player1Id, categoryId, e.points, e.roundReached, year),
       PointRow(tournamentId, t.player2Id, categoryId, e.points, e.roundReached, year)]
  }

  /** The rows pushed by the loop over `teams`. */
  function PointRows(teams: seq<TeamRow>, points: map<int, Entry>, tournamentId: int, categoryId: int, year: int): seq<PointRow>
  {
    if teams == [] then []
    else
      var init := teams[..|teams| - 1];
      PointRows(init, points, tournamentId, categoryId, year) + TeamRows(teams[|teams| - 1], points, tournamentId, categoryId, year)
  }

  /** Team `i` of `teams` has an entry and yields rows `2i` (its first
      player) and `2i + 1` (its second), both carrying that entry. */
  ghost predicate TwoRowsPerTeam(r: seq<PointRow>, teams: seq<TeamRow>, points: map<int, Entry>, tournamentId: int, categoryId: int, year: int)
  {
    && |r| == 2 * |teams|
    && forall i :: 0 <= i < |teams| ==>
         && teams[i].id in points
         && r[2 * i] == PointRow(tournamentId, teams[i].player1Id, categoryId, points[teams[i].id].points, points[teams[i].id].roundReached, year)
         && r[2 * i + 1] == PointRow(tournamentId, teams[i].player2Id, categoryId, points[teams[i].id].points, points[teams[i].id].roundReached, year)
  }

  /** When every team has an entry, the loop pushes two rows per team, in
      team order. */
  lemma {:induction false} PointRowsShape(teams: seq<TeamRow>, points: map<int, Entry>, tournamentId: int, categoryId: int, year: int)
    requires forall i :: 0 <= i < |teams| ==> teams[i].id in points
    ensures TwoRowsPerTeam(PointRows(teams, points, tournamentId, categoryId, year), teams, points, tournamentId, categoryId, year)
  {
    if teams != [] {
      var n := |teams|;
      var init := teams[..n - 1];
      PointRowsShape(init, points, tournamentId, categoryId, year);
      var r0 := PointRows(init, points, tournamentId, categoryId, year);
      var last := TeamRows(teams[n - 1], points, tournamentId, categoryId, year);
      var r := r0 + last;
      assert |last| == 2;
      forall i | 0 <= i < n
        ensures r[2 * i] == PointRow(tournamentId, teams[i].player1Id, categoryId, points[teams[i].id].points, points[teams[i].id].roundReached, year)
        ensures r[2 * i + 1] == PointRow(tournamentId, teams[i].player2Id, categoryId, points[teams[i].id].points, points[teams[i].id].roundReached, year)
      {
        if i < n - 1 {
          assert init[i] == teams[i];
          assert r[2 * i] == r0[2 * i] && r[2 * i + 1] == r0[2 * i + 1];
        } else {
          assert r[2 * i] == last[0] && r[2 * i + 1] == last[1];
        }
      }
    }
  }

  /** `computeAndSaveTournamentRankingPoints` on the fetched rows: `teams`
      are the tournament's teams, `playoffs` its playoff rows, `matches`
      the match table and `year` the tournament year. */
  function TournamentRankingPoints(tournament: Option<Tournament>, teams: seq<TeamRow>, playoffs: seq<PlayoffRow>,
                                   matches: seq<MatchRow>, year: int): Result<Saved, string>
  {
    match tournament
    case None => Failure(NotFound)
    case Some(t) =>
      if !t.isPuntuable || t.categoryId.None? then Success(Saved(0, []))
      else
        var teamList := Starters(teams);
        var init := InitialPoints(teamList);
        var points :=
          if |playoffs| > 0 then ApplyRows(init, TeamIds(teamList), MatchesById(FinishedMatches(matches, playoffs)), playoffs)
          else init;
        var rows := PointRows(teamList, points, t.id, t.categoryId.value, year);
        if |rows| == 0 then Success(Saved(0, [])) else Success(Saved(|rows|, rows))
  }

  /** A missing tournament is an error; a tournament that does not score, or
      has no category, saves nothing. */
  lemma NothingToScore(tournament: Option<Tournament>, teams: seq<TeamRow>, playoffs: seq<PlayoffRow>, matches: seq<MatchRow>, year: int)
    ensures var r := TournamentRankingPoints(tournament, teams, playoffs, matches, year);
      && (tournament.None? <==> r == Failure(NotFound))
      && (tournament.Some? && (!tournament.value.isPuntuable || tournament.value.categoryId.None?) ==> r == Success(Saved(0, [])))
  {
  }

  /** The map the loop over the playoff rows ends with. */
  function FinalPoints(teams: seq<TeamRow>, playoffs: seq<PlayoffRow>, matches: seq<MatchRow>): map<int, Entry>
  {
    var teamList := Starters(teams);
    ApplyRows(InitialPoints(teamList), TeamIds(teamList), MatchesById(FinishedMatches(matches, playoffs)), playoffs)
  }

  /** Every starting team, and no other, ends with an entry, and that entry
      is one a team can reach: its points are those of the stage it names.
      A team that no scored match involves stays at the group stage. */
  lemma FinalPointsEntries(teams: seq<TeamRow>, playoffs: seq<PlayoffRow>, matches: seq<MatchRow>, id: int)
    ensures var points := FinalPoints(teams, playoffs, matches);
      && points.Keys == TeamIds(Starters(teams))
      && Consistent(points)
      && (id in points && (forall k :: 0 <= k < |playoffs| ==> !Touches(MatchesById(FinishedMatches(matches, playoffs)), playoffs[k], id))
          ==> points[id] == Groups)
  {
    var teamList := Starters(teams);
    var ids := TeamIds(teamList);
    var byId := MatchesById(FinishedMatches(matches, playoffs));
    var init := InitialPoints(teamList);
    assert init.Keys == ids && Consistent(init);
    ApplyRowsKeeps(init, ids, byId, playoffs);
    assert FinalPoints(teams, playoffs, matches) == ApplyRows(init, ids, byId, playoffs);
    if id in ids && forall k :: 0 <= k < |playoffs| ==> !Touches(byId, playoffs[k], id) {
      UntouchedKept(init, ids, byId, playoffs, id);
    }
  }

  /** For a scoring tournament every starting team gets exactly two rows,
      one per player, carrying the team's final entry, so the saved count is
      twice the number of starting teams. */
  lemma RankingPointsRows(t: Tournament, teams: seq<TeamRow>, playoffs: seq<PlayoffRow>, matches: seq<MatchRow>, year: int)
    requires t.isPuntuable && t.categoryId.Some?
    ensures var r := TournamentRankingPoints(Some(t), teams, playoffs, matches, year);
      && r.Success?
      && r.value.saved == 2 * |Starters(teams)|
      && TwoRowsPerTeam(r.value.rows, Starters(teams), FinalPoints(teams, playoffs, matches), t.id, t.categoryId.value, year)
  {
    var teamList := Starters(teams);
    var points := FinalPoints(teams, playoffs, matches);
    FinalPointsEntries(teams, playoffs, matches, 0);
    forall i | 0 <= i < |teamList|
      ensures teamList[i].id in points
    {
      assert teamList[i] in teamList;
    }
    PointRowsShape(teamList, points, t.id, t.categoryId.value, year);
  }

  /** Substitutes never score: a tournament whose teams are all substitutes
      saves nothing. */
  lemma NoStartersSaveNothing(t: Tournament, teams: seq<TeamRow>, playoffs: seq<PlayoffRow>, matches: seq<MatchRow>, year: int)
    requires forall i :: 0 <= i < |teams| ==> teams[i].isSubstitute
    ensures TournamentRankingPoints(Some(t), teams, playoffs, matches, year) == Success(Saved(0, []))
  {
    if t.isPuntuable && t.categoryId.Some? {
      RankingPointsRows(t, teams, playoffs, matches, year);
    }
  }

  /** The initialising loop. */
  method InitTeamPoints(teamList: seq<TeamRow>) returns (m: map<int, Entry>)
    ensures m == InitialPoints(teamList)
  {
    m := map[];
    for i := 0 to |teamList|
      invariant m == InitialPoints(teamList[..i])
    {
      assert teamList[..i + 1][..i] == teamList[..i];
      m := m[teamList[i].id := Groups];
    }
    assert teamList[..|teamList|] == teamList;
  }

  /** The loop over the playoff rows. */
  method ApplyPlayoffRows(init: map<int, Entry>, teamIds: set<int>, byId: map<int, MatchRow>, rows: seq<PlayoffRow>)
    returns (m: map<int, Entry>)
    ensures m == ApplyRows(init, teamIds, byId, rows)
  {
    m := init;
    for i := 0 to |rows|
      invariant m == ApplyRows(init, teamIds, byId, rows[..i])
    {
      assert rows[..i + 1][..i] == rows[..i];
      var row := rows[i];
      if row.matchId !in byId {
        continue;
      }
      var match_ := byId[row.matchId];
      if match_.team1Id.None? || match_.team2Id.None? {
        continue;
      }
      var pts := PointsFor(row.round);
      var team1Sets := SetsOrZero(match_.team1Sets);
      var team2Sets := SetsOrZero(match_.team2Sets);
      var winnerId := if team1Sets > team2Sets then match_.team1Id.value else match_.team2Id.value;
      var loserId := if team1Sets > team2Sets then match_.team2Id.value else match_.team1Id.value;
      if row.round == "final" {
        if winnerId in teamIds {
          m := m[winnerId := Champion];
        }
        if loserId in teamIds {
          m := m[loserId := Finalist];
        }
      } else {
        if loserId in teamIds {
          m := m[loserId := Entry(pts, row.round)];
        }
      }
    }
    assert rows[..|rows|] == rows;
  }

  /** The loop that pushes two rows per team with an entry. */
  method BuildPointRows(teamList: seq<TeamRow>, points: map<int, Entry>, tournamentId: int, categoryId: int, year: int)
    returns (rows: seq<PointRow>)
    ensures rows == PointRows(teamList, points, tournamentId, categoryId, year)
  {
    rows := [];
    for i := 0 to |teamList|
      invariant rows == PointRows(teamList[..i], points, tournamentId, categoryId, year)
    {
      assert teamList[..i + 1][..i] == teamList[..i];
      var t := teamList[i];
      if t.id !in points {
        continue;
      }
      var entry := points[t.id];
      rows := rows + [PointRow(tournamentId, t.player1Id, categoryId, entry.points, entry.roundReached, year)];
      rows := rows + [PointRow(tournamentId, t.player2Id, categoryId, entry.points, entry.roundReached, year)];
    }
    assert teamList[..|teamList|] == teamList;
  }

  /** `computeAndSaveTournamentRankingPoints`, its loops included. */
  method ComputeTournamentRankingPoints(tournament: Option<Tournament>, teams: seq<TeamRow>, playoffs: seq<PlayoffRow>,
                                        matches: seq<MatchRow>, year: int)
    returns (r: Result<Saved, string>)
    ensures r == TournamentRankingPoints(tournament, teams, playoffs, matches, year)
  {
    if tournament.None? {
      return Failure(NotFound);
    }
    var t := tournament.value;
    if !t.isPuntuable || t.categoryId.None? {
      return Success(Saved(0, []));
    }
    var categoryId := t.categoryId.value;
    var teamList := Starters(teams);
    var teamIds := TeamIds(teamList);
    var teamToPoints := InitTeamPoints(teamList);
    if |playoffs| > 0 {
      var matchById := MatchesById(FinishedMatches(matches, playoffs));
      teamToPoints := ApplyPlayoffRows(teamToPoints, teamIds, matchById, playoffs);
    }
    var rows := BuildPointRows(teamList, teamToPoints, t.id, categoryId, year);
    if |rows| == 0 {
      return Success(Saved(0, []));
    }
    return Success(Saved(|rows|, rows));
  }
}
