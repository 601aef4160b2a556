/** The whole playoff bracket (`generatePlayoffBracket`, `generatePlayoffs`):
    the first round, then placeholder rounds whose sides are the winners of
    consecutive matches of the round before, down to the final. */
module Bracket {
  import opened Common
  import opened Collections
  import opened Text
  import opened PlayoffTeams
  import opened RoundSizing
  import opened SeedOrder
  import opened ByeSeeding
  import opened FirstRoundPairing
  import opened NextRound

  const TooFewTeams := "Se necesitan al menos 2 equipos para generar playoffs"

  // ---------------------------------------------------------------------
  // Placeholder rounds

  /** Match `i + 1` of a round of winners: the winners of matches `2i + 1`
      and `2i + 2` of the round labelled `prevLabel`. */
  function WinnersRow(roundName: string, prevLabel: string, i: nat): PlayoffMatch
  {
    PlayoffMatch(roundName, i + 1, None, None, Some(WinnerOf(prevLabel, 2 * i + 1)), Some(WinnerOf(prevLabel, 2 * i + 2)))
  }

  /** The first `k` matches of a round of winners. */
  function WinnersRound(roundName: string, prevLabel: string, k: nat): (r: seq<PlayoffMatch>)
    ensures |r| == k
  {
    seq(k, i requires 0 <= i < k => WinnersRow(roundName, prevLabel, i))
  }

  /** The rounds after one of `size` matches named `name`: each halves the
      number of matches and is named after the teams it holds. */
  function LaterRounds(size: nat, name: string): seq<PlayoffMatch>
    decreases size
  {
    if size <= 1 then []
    else
      var nextName := RoundNameBySize(size);
      WinnersRound(nextName, Capitalize(name), size / 2) + LaterRounds(size / 2, nextName)
  }

  /** The `while (currentRoundSize > 1)` loop appending the placeholder rounds. */
  method AppendRemainingRounds(allMatches0: seq<PlayoffMatch>, roundSize: nat, roundName: string)
    returns (allMatches: seq<PlayoffMatch>)
    ensures allMatches == allMatches0 + LaterRounds(roundSize, roundName)
  {
    allMatches := allMatches0;
    var currentRoundSize, currentRoundName := roundSize, roundName;
    while currentRoundSize > 1
      invariant allMatches + LaterRounds(currentRoundSize, currentRoundName) == allMatches0 + LaterRounds(roundSize, roundName)
      decreases currentRoundSize
    {
      var nextRoundMatches := currentRoundSize / 2;
      var nextRoundName := RoundNameBySize(currentRoundSize);
      var rows := EmitWinnersRound(nextRoundName, Capitalize(currentRoundName), nextRoundMatches);
      assert allMatches + (rows + LaterRounds(nextRoundMatches, nextRoundName))
          == (allMatches + rows) + LaterRounds(nextRoundMatches, nextRoundName);
      allMatches := allMatches + rows;
      currentRoundSize, currentRoundName := nextRoundMatches, nextRoundName;
    }
  }

  /** The inner `for` loop: the matches of one round of winners. */
  method EmitWinnersRound(nextRoundName: string, prevRoundLabel: string, nextRoundMatches: nat) returns (rows: seq<PlayoffMatch>)
    ensures rows == WinnersRound(nextRoundName, prevRoundLabel, nextRoundMatches)
  {
    rows := [];
    for i := 0 to nextRoundMatches
      invariant rows == WinnersRound(nextRoundName, prevRoundLabel, i)
    {
      WinnersRoundSnoc(nextRoundName, prevRoundLabel, i);
      var row := PlayoffMatch(nextRoundName, i + 1, None, None,
                              Some("Ganador " + prevRoundLabel + IntToString(i * 2 + 1)),
                              Some("Ganador " + prevRoundLabel + IntToString(i * 2 + 2)));
      assert row == WinnersRow(nextRoundName, prevRoundLabel, i);
      rows := rows + [row];
    }
  }

  lemma WinnersRoundSnoc(roundName: string, prevLabel: string, k: nat)
    ensures WinnersRound(roundName, prevLabel, k + 1) == WinnersRound(roundName, prevLabel, k) + [WinnersRow(roundName, prevLabel, k)]
  {
    var a, b := WinnersRound(roundName, prevLabel, k + 1), WinnersRound(roundName, prevLabel, k) + [WinnersRow(roundName, prevLabel, k)];
    assert forall i :: 0 <= i < k + 1 ==> a[i] == b[i];
  }

  // ---------------------------------------------------------------------
  // The branches of the first round

  /** Branch with byes: one row per slot of the next round, holding the team
      the bye seeding put there, if any, and no opponent. */
  function SlotsRound(seeded: seq<Option<QualifiedTeam>>, roundName: string, k: nat): (r: seq<PlayoffMatch>)
    requires k <= |seeded|
    ensures |r| == k
  {
    if k == 0 then []
    else SlotsRound(seeded, roundName, k - 1) + [PlayoffMatch(roundName, k, SlotTeam(seeded, k - 1), None, None, None)]
  }

  /** `team?.team_id || null`: a placed team with a truthy id. */
  function TruthyTeam(seeded: seq<Option<QualifiedTeam>>, p: nat): Option<int>
    requires p < |seeded|
  {
    if seeded[p].Some? && seeded[p].value.teamId != 0 then Some(seeded[p].value.teamId) else None
  }

  /** Branch where every team has a bye: the pairs of seeded slots. */
  function ByePairsRound(seeded: seq<Option<QualifiedTeam>>, roundName: string, k: nat): (r: seq<PlayoffMatch>)
    requires 2 * k <= |seeded|
    ensures |r| == k
  {
    if k == 0 then []
    else
      var i := k - 1;
      ByePairsRound(seeded, roundName, k - 1) + [PlayoffMatch(roundName, k, TruthyTeam(seeded, 2 * i), TruthyTeam(seeded, 2 * i + 1), None, None)]
  }

  /** The bracket when some teams have a bye and others play: the slots of
      the byes over the whole ranking, the round they lead to, and the
      placeholder rounds after it. */
  function WithByes(ranked: seq<QualifiedTeam>, info: FirstRoundInfo): seq<PlayoffMatch>
    requires 0 <= info.teamsWithBye <= |ranked| && info.nextRoundSize >= 0
  {
    var nrs := info.nextRoundSize;
    var nextRoundName := RoundNameBySize(nrs);
    SlotsRound(SeedByes(ranked, nrs), info.firstRoundName, nrs)
      + NextRoundMatches(ranked[..info.teamsWithBye], [], ranked, nextRoundName, nrs)
      + LaterRounds(nrs / 2, nextRoundName)
  }

  /** The bracket when no team has a bye. */
  function WithoutByes(playing: seq<QualifiedTeam>, firstRoundName: string): seq<PlayoffMatch>
  {
    var firstRound := FirstRoundMatches(playing, firstRoundName);
    firstRound + LaterRounds(|firstRound|, firstRoundName)
  }

  /** The bracket when every team has a bye. */
  function AllByes(byes: seq<QualifiedTeam>, nextRoundSize: nat): seq<PlayoffMatch>
  {
    var nextRoundName := RoundNameBySize(nextRoundSize);
    ByePairsRound(SeedByes(byes, nextRoundSize), nextRoundName, nextRoundSize / 2)
      + LaterRounds(nextRoundSize / 2, nextRoundName)
  }

  /** `generatePlayoffBracket(rankedTeams)`: the error for fewer than two
      teams, else the rows of every round. */
  function PlayoffBracket(ranked: seq<QualifiedTeam>): Result<seq<PlayoffMatch>, string>
  {
    if |ranked| < 2 then Failure(TooFewTeams)
    else Success(BracketRows(ranked, FirstRound(|ranked|)))
  }

  /** The rows of every round once the first round is sized by `info`. */
  function BracketRows(ranked: seq<QualifiedTeam>, info: FirstRoundInfo): seq<PlayoffMatch>
    requires 0 <= info.teamsWithBye <= |ranked|
  {
    if info.teamsWithBye > 0 && info.teamsPlaying > 0 && info.nextRoundSize >= 0 then
      WithByes(ranked, info)
    else if info.teamsPlaying > 0 then
      WithoutByes(ranked[info.teamsWithBye..], info.firstRoundName)
    else
      AllByes(ranked[..info.teamsWithBye], if info.nextRoundSize >= 0 then info.nextRoundSize else 0)
  }

  /** `generatePlayoffs(qualifiedTeams, groupOrderMap)`. */
  function Playoffs(entries: seq<QualifiedEntry>, groupOrder: map<int, int>): Result<seq<PlayoffMatch>, string>
  {
    PlayoffBracket(BuildGlobalRanking(AttachGroupOrder(entries, groupOrder)))
  }

  // ---------------------------------------------------------------------
  // The method

  method GeneratePlayoffBracket(rankedTeams: seq<QualifiedTeam>) returns (result: Result<seq<PlayoffMatch>, string>)
    ensures result == PlayoffBracket(rankedTeams)
  {
    var n := |rankedTeams|;
    if n < 2 {
      return Failure(TooFewTeams);
    }
    var info := CalculateFirstRound(n);
    var teamsWithByeList := rankedTeams[..info.teamsWithBye];
    var teamsPlayingInFirstRound := rankedTeams[info.teamsWithBye..];
    var allMatches: seq<PlayoffMatch>;
    if info.teamsWithBye > 0 && info.teamsPlaying > 0 && info.nextRoundSize >= 0 {
      allMatches := GenerateWithByes(rankedTeams, info);
    } else if info.teamsPlaying > 0 {
      var firstRoundMatches := GenerateFirstRoundMatches(teamsPlayingInFirstRound, info.firstRoundName);
      allMatches := AppendRemainingRounds(firstRoundMatches, |firstRoundMatches|, info.firstRoundName);
      assert allMatches == WithoutByes(teamsPlayingInFirstRound, info.firstRoundName);
    } else {
      allMatches := GenerateAllByeRounds(teamsWithByeList, if info.nextRoundSize >= 0 then info.nextRoundSize else 0);
    }
    assert allMatches == BracketRows(rankedTeams, info);
    return Success(allMatches);
  }

  /** The branch where some teams have a bye and others play. */
  method GenerateWithByes(rankedTeams: seq<QualifiedTeam>, info: FirstRoundInfo) returns (allMatches: seq<PlayoffMatch>)
    requires 0 <= info.teamsWithBye <= |rankedTeams| && info.nextRoundSize >= 0
    ensures allMatches == WithByes(rankedTeams, info)
  {
    var nextRoundSize: nat := info.nextRoundSize;
    var nextRoundSeeded := SeedByeTeams(rankedTeams, nextRoundSize);
    allMatches := EmitSlots(nextRoundSeeded, info.firstRoundName, nextRoundSize);
    var nextRoundName := RoundNameBySize(nextRoundSize);
    var nextRoundMatches := GenerateNextRoundWithByes(rankedTeams[..info.teamsWithBye], [], rankedTeams, nextRoundName, nextRoundSize);
    allMatches := AppendRemainingRounds(allMatches + nextRoundMatches, nextRoundSize / 2, nextRoundName);
  }

  /** The loop giving each slot of the next round a row of the first round. */
  method EmitSlots(nextRoundSeeded: seq<Option<QualifiedTeam>>, firstRoundName: string, nextRoundSize: nat)
    returns (rows: seq<PlayoffMatch>)
    requires nextRoundSize <= |nextRoundSeeded|
    ensures rows == SlotsRound(nextRoundSeeded, firstRoundName, nextRoundSize)
  {
    rows := [];
    for i := 0 to nextRoundSize
      invariant rows == SlotsRound(nextRoundSeeded, firstRoundName, i)
    {
      var team1Id := if nextRoundSeeded[i].Some? then Some(nextRoundSeeded[i].value.teamId) else None;
      rows := rows + [PlayoffMatch(firstRoundName, i + 1, team1Id, None, None, None)];
    }
  }

  /** The branch where every team has a bye. */
  method GenerateAllByeRounds(teamsWithByeList: seq<QualifiedTeam>, nextRoundSize: nat) returns (allMatches: seq<PlayoffMatch>)
    ensures allMatches == AllByes(teamsWithByeList, nextRoundSize)
  {
    var nextRoundName := RoundNameBySize(nextRoundSize);
    var seededByes := SeedByeTeams(teamsWithByeList, nextRoundSize);
    var numMatches := nextRoundSize / 2;
    allMatches := EmitByePairs(seededByes, nextRoundName, numMatches);
    allMatches := AppendRemainingRounds(allMatches, numMatches, nextRoundName);
  }

  method EmitByePairs(seededByes: seq<Option<QualifiedTeam>>, nextRoundName: string, numMatches: nat)
    returns (rows: seq<PlayoffMatch>)
    requires 2 * numMatches <= |seededByes|
    ensures rows == ByePairsRound(seededByes, nextRoundName, numMatches)
  {
    rows := [];
    for i := 0 to numMatches
      invariant rows == ByePairsRound(seededByes, nextRoundName, i)
    {
      var team1, team2 := seededByes[i * 2], seededByes[i * 2 + 1];
      var team1Id := if team1.Some? && team1.value.teamId != 0 then Some(team1.value.teamId) else None;
      var team2Id := if team2.Some? && team2.value.teamId != 0 then Some(team2.value.teamId) else None;
      rows := rows + [PlayoffMatch(nextRoundName, i + 1, team1Id, team2Id, None, None)];
    }
  }

  method GeneratePlayoffs(qualifiedTeams: seq<QualifiedEntry>, groupOrderMap: map<int, int>)
    returns (result: Result<seq<PlayoffMatch>, string>)
    ensures result == Playoffs(qualifiedTeams, groupOrderMap)
  {
    var teamsWithOrder := AttachGroupOrder(qualifiedTeams, groupOrderMap);
    var rankedTeams := BuildGlobalRanking(teamsWithOrder);
    result := GeneratePlayoffBracket(rankedTeams);
  }

  // ---------------------------------------------------------------------
  // Properties

  /** After a round of `k >= 2` matches named `name`, match `i + 1` of the
      next round, named after its `k` teams, opposes the winners of matches
      `2i + 1` and `2i + 2` of round `name`, and has no team yet. */
  lemma LaterRoundsFirst(k: nat, name: string)
    requires k >= 2
    ensures forall i :: 0 <= i < k / 2 ==>
      LaterRounds(k, name)[i]
        == PlayoffMatch(RoundNameBySize(k), i + 1, None, None,
                        Some("Ganador " + Capitalize(name) + IntToString(2 * i + 1)),
                        Some("Ganador " + Capitalize(name) + IntToString(2 * i + 2)))
  {
  }

  /** The final between the winners of the two matches of round `prev`. */
  function FinalRow(prev: string): PlayoffMatch
  {
    PlayoffMatch("final", 1, None, None, Some(WinnerOf(Capitalize(prev), 1)), Some(WinnerOf(Capitalize(prev), 2)))
  }

  /** After a round of `k` matches, `k` a power of two, come `k - 1` more
      matches (each eliminates one of the `k` winners), the last of them the
      final between the two semifinal winners, or between the two matches
      of round `name` itself when `k` is 2. */
  lemma {:induction false} LaterRoundsShape(k: nat, name: string)
    requires IsPow2(k)
    ensures |LaterRounds(k, name)| == k - 1
    ensures k >= 2 ==> LaterRounds(k, name)[k - 2] == FinalRow(if k == 2 then name else "semifinal")
    decreases k
  {
    if k >= 2 {
      assert k % 2 == 0 && IsPow2(k / 2);
      var nextName := RoundNameBySize(k);
      var w := WinnersRound(nextName, Capitalize(name), k / 2);
      var rest := LaterRounds(k / 2, nextName);
      assert LaterRounds(k, name) == w + rest;
      LaterRoundsShape(k / 2, nextName);
      if k == 2 {
        assert (w + rest)[0] == w[0] == WinnersRow(nextName, Capitalize(name), 0);
      } else {
        assert (w + rest)[k - 2] == rest[k / 2 - 2];
      }
    }
  }

  /** The source throws exactly when there are fewer than two teams. */
  lemma BracketFailure(ranked: seq<QualifiedTeam>)
    ensures PlayoffBracket(ranked).Failure? <==> |ranked| < 2
    ensures PlayoffBracket(ranked).Failure? ==> PlayoffBracket(ranked).error == TooFewTeams
  {
  }

  /** The branch where every team has a bye is never taken: from two teams
      on, some teams always play the first round. */
  lemma SomeTeamsPlay(n: nat)
    requires n >= 2
    ensures FirstRound(n).teamsPlaying > 0
  {
    if n >= 3 {
      FirstRoundShape(n);
    }
  }

  /** The rows of a bracket without byes: the `n / 2` first-round matches,
      then the rounds of winners, `n - 1` rows in all, the last one the
      final. */
  ghost predicate NoByeBracketShape(r: seq<PlayoffMatch>, first: seq<PlayoffMatch>, n: nat)
  {
    && 2 <= n && |r| == n - 1 && |first| == n / 2
    && r[..n / 2] == first
    && r[n - 2].round == "final"
  }

  /** For a power of two from 2 to 1024 teams with distinct ids there is no
      bye: the bracket opens with the first round of all the teams. */
  lemma BracketWithoutByes(ranked: seq<QualifiedTeam>)
    requires IsPow2(|ranked|) && 2 <= |ranked| <= 1024 && DistinctIds(ranked)
    ensures var n, r := |ranked|, PlayoffBracket(ranked);
      && r.Success?
      && NoByeBracketShape(r.value, FirstRoundMatches(ranked, ThresholdRoundName(n / 2)), n)
  {
    var n := |ranked|;
    NoByesForPow2(n);
    BracketOfNoByes(ranked, FirstRound(n));
    WithoutByesShape(ranked);
  }

  lemma BracketOfNoByes(ranked: seq<QualifiedTeam>, info: FirstRoundInfo)
    requires |ranked| >= 2 && info == FirstRound(|ranked|) && info.teamsWithBye == 0 && info.teamsPlaying > 0
    ensures PlayoffBracket(ranked) == Success(WithoutByes(ranked, info.firstRoundName))
  {
    assert ranked[info.teamsWithBye..] == ranked;
    assert PlayoffBracket(ranked) == Success(BracketRows(ranked, info));
  }

  lemma WithoutByesShape(ranked: seq<QualifiedTeam>)
    requires IsPow2(|ranked|) && 2 <= |ranked| <= 1024 && DistinctIds(ranked)
    ensures var n := |ranked|;
      var name := ThresholdRoundName(n / 2);
      NoByeBracketShape(WithoutByes(ranked, name), FirstRoundMatches(ranked, name), n)
  {
    var n := |ranked|;
    var name := ThresholdRoundName(n / 2);
    var first := FirstRoundMatches(ranked, name);
    var later := LaterRounds(n / 2, name);
    FirstRoundEnd(ranked, name);
    assert WithoutByes(ranked, name) == first + later;
    assert IsPow2(n / 2);
    LaterRoundsEnd(n / 2, name);
    TwoRounds(first, later, n);
  }

  /** The first round of an even field has one match per pair, and for two
      teams that match is the final. */
  lemma FirstRoundEnd(ranked: seq<QualifiedTeam>, name: string)
    requires IsPow2(|ranked|) && 2 <= |ranked| <= 1024 && DistinctIds(ranked)
    requires name == ThresholdRoundName(|ranked| / 2)
    ensures |ranked| % 2 == 0 && |FirstRoundMatches(ranked, name)| == |ranked| / 2
    ensures |ranked| == 2 ==> FirstRoundMatches(ranked, name)[0].round == "final"
  {
    FirstRoundNumbering(ranked, name);
  }

  lemma TwoRounds(first: seq<PlayoffMatch>, later: seq<PlayoffMatch>, n: nat)
    requires 2 <= n && n % 2 == 0 && |first| == n / 2 && |later| == n / 2 - 1
    requires n == 2 ==> first[0].round == "final"
    requires n > 2 ==> later[n / 2 - 2].round == "final"
    ensures NoByeBracketShape(first + later, first, n)
  {
    assert (first + later)[..n / 2] == first;
    if n == 2 {
      assert (first + later)[0] == first[0];
    } else {
      assert (first + later)[n - 2] == later[n / 2 - 2];
    }
  }

  lemma NoByesForPow2(n: nat)
    requires IsPow2(n) && n >= 2
    ensures var info := FirstRound(n);
      info.teamsWithBye == 0 && info.teamsPlaying == n && info.firstRoundName == ThresholdRoundName(n / 2)
  {
    if n >= 3 {
      FirstRoundShape(n);
      assert (n + 1) / 2 == n / 2;
      CeilPow2OfPow2(n / 2);
    }
  }

  /** The rows of a bracket with byes: one slot per place of the next
      round, holding the team the bye seeding put there and no opponent;
      then the next round, in which no slot names the winner of an earlier
      match; `2 * nrs - 1` rows in all, the last one the final. */
  ghost predicate ByeBracketShape(r: seq<PlayoffMatch>, seeded: seq<Option<QualifiedTeam>>, firstName: string, nextName: string, nrs: nat)
  {
    && 2 <= nrs && |seeded| == nrs && |r| == 2 * nrs - 1
    && (forall i :: 0 <= i < nrs ==> r[i] == PlayoffMatch(firstName, i + 1, SlotTeam(seeded, i), None, None, None))
    && (forall i :: nrs <= i < nrs + nrs / 2 ==> r[i].round == nextName && r[i].sourceTeam1.None? && r[i].sourceTeam2.None?)
    && r[2 * nrs - 2].round == "final"
  }

  /** For three or more teams, not a power of two, the bracket opens with
      the slots of the next round filled by the bye seeding of the whole
      ranking, followed by that round, as `ByeBracketShape` says. */
  lemma BracketWithByes(ranked: seq<QualifiedTeam>)
    requires |ranked| >= 3 && !IsPow2(|ranked|)
    ensures var info := FirstRound(|ranked|);
      var nrs, r := info.nextRoundSize, PlayoffBracket(ranked);
      && r.Success? && nrs >= 0
      && ByeBracketShape(r.value, SeedByes(ranked, nrs), info.firstRoundName, RoundNameBySize(nrs), nrs)
  {
    var info := FirstRound(|ranked|);
    FirstRoundShape(|ranked|);
    BracketOfByes(ranked, info);
    WithByesShape(ranked, info);
  }

  lemma BracketOfByes(ranked: seq<QualifiedTeam>, info: FirstRoundInfo)
    requires |ranked| >= 2 && info == FirstRound(|ranked|) && info.teamsWithBye > 0 && info.teamsPlaying > 0 && info.nextRoundSize >= 0
    ensures PlayoffBracket(ranked) == Success(WithByes(ranked, info))
  {
    assert PlayoffBracket(ranked) == Success(BracketRows(ranked, info));
  }

  lemma WithByesShape(ranked: seq<QualifiedTeam>, info: FirstRoundInfo)
    requires 0 <= info.teamsWithBye <= |ranked| && IsPow2(info.nextRoundSize) && info.nextRoundSize >= 2
    ensures var nrs := info.nextRoundSize;
      ByeBracketShape(WithByes(ranked, info), SeedByes(ranked, nrs), info.firstRoundName, RoundNameBySize(nrs), nrs)
  {
    var nrs := info.nextRoundSize;
    var nextRoundName := RoundNameBySize(nrs);
    var seeded := SeedByes(ranked, nrs);
    var slots := SlotsRound(seeded, info.firstRoundName, nrs);
    var next := NextRoundMatches(ranked[..info.teamsWithBye], [], ranked, nextRoundName, nrs);
    var later := LaterRounds(nrs / 2, nextRoundName);
    assert WithByes(ranked, info) == slots + next + later;
    assert |seeded| == nrs && |slots| == nrs
        && forall i :: 0 <= i < nrs ==> slots[i] == PlayoffMatch(info.firstRoundName, i + 1, SlotTeam(seeded, i), None, None, None) by {
      SlotsRoundAt(seeded, info.firstRoundName, nrs);
    }
    assert |next| == nrs / 2
        && forall i :: 0 <= i < nrs / 2 ==> next[i].round == nextRoundName && next[i].sourceTeam1.None? && next[i].sourceTeam2.None? by {
      NextRoundShape(ranked[..info.teamsWithBye], [], ranked, nextRoundName, nrs);
      NextRoundWithoutFirstRound(ranked[..info.teamsWithBye], ranked, nextRoundName, nrs);
    }
    LaterRoundsAfterNext(nrs, nextRoundName);
    ThreeRounds(slots, next, later, seeded, info.firstRoundName, nextRoundName, nrs);
  }

  /** After a round of `nrs / 2` matches leading out of `nrs` slots come
      `nrs / 2 - 1` rows, the last the final; with two slots that round is
      itself the final. */
  lemma LaterRoundsAfterNext(nrs: nat, name: string)
    requires IsPow2(nrs) && nrs >= 2 && name == RoundNameBySize(nrs)
    ensures var later := LaterRounds(nrs / 2, name);
      && nrs % 2 == 0 && |later| == nrs / 2 - 1
      && (nrs == 2 ==> name == "final")
      && (nrs > 2 ==> later[nrs / 2 - 2].round == "final")
  {
    var k := nrs / 2;
    assert IsPow2(k) && nrs == 2 * k;
    LaterRoundsEnd(k, name);
  }

  /** The rounds after one of `k` matches end with the final. */
  lemma LaterRoundsEnd(k: nat, name: string)
    requires IsPow2(k)
    ensures |LaterRounds(k, name)| == k - 1
    ensures k >= 2 ==> LaterRounds(k, name)[k - 2].round == "final"
  {
    LaterRoundsShape(k, name);
    if k >= 2 {
      assert LaterRounds(k, name)[k - 2] == FinalRow(if k == 2 then name else "semifinal");
    }
  }

  lemma ThreeRounds(slots: seq<PlayoffMatch>, next: seq<PlayoffMatch>, later: seq<PlayoffMatch>,
                    seeded: seq<Option<QualifiedTeam>>, firstName: string, nextName: string, nrs: nat)
    requires nrs >= 2 && nrs % 2 == 0 && |seeded| == nrs
    requires |slots| == nrs && forall i :: 0 <= i < nrs ==> slots[i] == PlayoffMatch(firstName, i + 1, SlotTeam(seeded, i), None, None, None)
    requires |next| == nrs / 2 && forall i :: 0 <= i < nrs / 2 ==> next[i].round == nextName && next[i].sourceTeam1.None? && next[i].sourceTeam2.None?
    requires |later| == nrs / 2 - 1
    requires nrs == 2 ==> nextName == "final"
    requires nrs > 2 ==> later[nrs / 2 - 2].round == "final"
    ensures ByeBracketShape(slots + next + later, seeded, firstName, nextName, nrs)
  {
    ThreePartsAt(slots, next, later);
  }

  /** Indexing into `a + b + c`. */
  lemma ThreePartsAt<T>(a: seq<T>, b: seq<T>, c: seq<T>)
    ensures |a + b + c| == |a| + |b| + |c|
    ensures forall i :: 0 <= i < |a| ==> (a + b + c)[i] == a[i]
    ensures forall i :: |a| <= i < |a| + |b| ==> (a + b + c)[i] == b[i - |a|]
    ensures forall i :: |a| + |b| <= i < |a| + |b| + |c| ==> (a + b + c)[i] == c[i - |a| - |b|]
  {
  }

  lemma {:induction false} SlotsRoundAt(seeded: seq<Option<QualifiedTeam>>, roundName: string, k: nat)
    requires k <= |seeded|
    ensures forall i :: 0 <= i < k ==>
      SlotsRound(seeded, roundName, k)[i] == PlayoffMatch(roundName, i + 1, SlotTeam(seeded, i), None, None, None)
  {
    if k > 0 {
      SlotsRoundAt(seeded, roundName, k - 1);
    }
  }

  // ---------------------------------------------------------------------
  // Numbering of every round

  /** The sizes of the rounds from one of `k` matches on: each round has
      half the matches of the one before, down to a single match. */
  function HalvingSizes(k: nat): seq<nat>
    decreases k
  {
    if k <= 1 then [k] else [k] + HalvingSizes(k / 2)
  }

  /** The matches of one round numbered 1, 2, ... in order. */
  ghost predicate Numbered(rows: seq<PlayoffMatch>)
  {
    forall i :: 0 <= i < |rows| ==> rows[i].bracketPos == i + 1
  }

  /** `rows` splits into consecutive rounds of the given sizes, and within
      each round the bracket positions run 1..size with no gap. */
  ghost predicate RoundsNumbered(rows: seq<PlayoffMatch>, sizes: seq<nat>)
    decreases |sizes|
  {
    if sizes == [] then rows == []
    else
      && sizes[0] <= |rows|
      && Numbered(rows[..sizes[0]])
      && RoundsNumbered(rows[sizes[0]..], sizes[1..])
  }

  lemma NumberedBefore(a: seq<PlayoffMatch>, b: seq<PlayoffMatch>, sizes: seq<nat>)
    requires Numbered(a) && RoundsNumbered(b, sizes)
    ensures RoundsNumbered(a + b, [|a|] + sizes)
  {
    assert (a + b)[..|a|] == a;
    assert (a + b)[|a|..] == b;
    assert ([|a|] + sizes)[1..] == sizes;
  }

  lemma WinnersRoundNumbered(roundName: string, prevLabel: string, k: nat)
    ensures Numbered(WinnersRound(roundName, prevLabel, k))
  {
  }

  /** The placeholder rounds after a round of `k >= 2` matches are numbered
      round by round, halving down to the final. */
  lemma {:induction false} LaterRoundsNumbered(k: nat, name: string)
    requires k >= 2
    ensures RoundsNumbered(LaterRounds(k, name), HalvingSizes(k / 2))
    decreases k
  {
    var nextName := RoundNameBySize(k);
    var w := WinnersRound(nextName, Capitalize(name), k / 2);
    var rest := LaterRounds(k / 2, nextName);
    assert LaterRounds(k, name) == w + rest;
    WinnersRoundNumbered(nextName, Capitalize(name), k / 2);
    if k / 2 == 1 {
      assert rest == [] && w + rest == w;
      NumberedBefore(w, [], []);
    } else {
      LaterRoundsNumbered(k / 2, nextName);
      NumberedBefore(w, rest, HalvingSizes(k / 2 / 2));
    }
  }

  /** A first round of `k >= 1` numbered matches followed by the placeholder
      rounds it leads to. */
  lemma FirstThenLater(first: seq<PlayoffMatch>, name: string)
    requires |first| >= 1 && Numbered(first)
    ensures RoundsNumbered(first + LaterRounds(|first|, name), HalvingSizes(|first|))
  {
    var k := |first|;
    if k == 1 {
      assert LaterRounds(k, name) == [];
      NumberedBefore(first, [], []);
    } else {
      LaterRoundsNumbered(k, name);
      NumberedBefore(first, LaterRounds(k, name), HalvingSizes(k / 2));
    }
  }

  /** Every round of the bracket numbers its matches 1..k with no gap, and
      the rounds halve from the first one (n/2 matches without byes, one
      slot per next-round place with byes) down to the single final. */
  lemma BracketRoundsNumbered(ranked: seq<QualifiedTeam>)
    requires 2 <= |ranked| <= 1024 && DistinctIds(ranked)
    ensures var n, info := |ranked|, FirstRound(|ranked|);
      var k := if info.teamsWithBye == 0 then n / 2 else info.nextRoundSize;
      && IsPow2(k) && k >= 1
      && PlayoffBracket(ranked).Success?
      && RoundsNumbered(PlayoffBracket(ranked).value, HalvingSizes(k))
  {
    var n := |ranked|;
    if IsPow2(n) {
      NoByesForPow2(n);
      NoByeRoundsNumbered(ranked);
    } else {
      FirstRoundShape(n);
      ByeRoundsNumbered(ranked);
    }
  }

  lemma NoByeRoundsNumbered(ranked: seq<QualifiedTeam>)
    requires IsPow2(|ranked|) && 2 <= |ranked| <= 1024 && DistinctIds(ranked)
    ensures IsPow2(|ranked| / 2)
    ensures PlayoffBracket(ranked).Success? && RoundsNumbered(PlayoffBracket(ranked).value, HalvingSizes(|ranked| / 2))
  {
    var n, info := |ranked|, FirstRound(|ranked|);
    NoByesForPow2(n);
    BracketOfNoByes(ranked, info);
    WithoutByesNumbered(ranked, info.firstRoundName);
  }

  lemma WithoutByesNumbered(ranked: seq<QualifiedTeam>, name: string)
    requires IsPow2(|ranked|) && 2 <= |ranked| <= 1024 && DistinctIds(ranked)
    ensures IsPow2(|ranked| / 2)
    ensures RoundsNumbered(WithoutByes(ranked, name), HalvingSizes(|ranked| / 2))
  {
    var first := FirstRoundMatches(ranked, name);
    assert Numbered(first) && |first| == |ranked| / 2 by {
      FirstRoundNumbering(ranked, name);
    }
    FirstThenLater(first, name);
  }

  lemma ByeRoundsNumbered(ranked: seq<QualifiedTeam>)
    requires |ranked| >= 3 && !IsPow2(|ranked|)
    ensures var info := FirstRound(|ranked|);
      && PlayoffBracket(ranked).Success?
      && RoundsNumbered(PlayoffBracket(ranked).value, HalvingSizes(info.nextRoundSize))
  {
    var info := FirstRound(|ranked|);
    FirstRoundShape(|ranked|);
    BracketOfByes(ranked, info);
    WithByesNumbered(ranked, info);
  }

  lemma WithByesNumbered(ranked: seq<QualifiedTeam>, info: FirstRoundInfo)
    requires 0 <= info.teamsWithBye <= |ranked| && info.nextRoundSize >= 2
    ensures RoundsNumbered(WithByes(ranked, info), HalvingSizes(info.nextRoundSize))
  {
    var nrs := info.nextRoundSize;
    var nextRoundName := RoundNameBySize(nrs);
    var seeded := SeedByes(ranked, nrs);
    var slots := SlotsRound(seeded, info.firstRoundName, nrs);
    var next := NextRoundMatches(ranked[..info.teamsWithBye], [], ranked, nextRoundName, nrs);
    var later := LaterRounds(nrs / 2, nextRoundName);
    assert WithByes(ranked, info) == slots + next + later;
    SlotsNumbered(seeded, info.firstRoundName, nrs);
    NextNumbered(ranked[..info.teamsWithBye], ranked, nextRoundName, nrs);
    FirstThenLater(next, nextRoundName);
    SlotsThenRest(slots, next, later);
  }

  lemma SlotsNumbered(seeded: seq<Option<QualifiedTeam>>, roundName: string, k: nat)
    requires k <= |seeded|
    ensures Numbered(SlotsRound(seeded, roundName, k))
  {
    SlotsRoundAt(seeded, roundName, k);
  }

  lemma NextNumbered(teamsWithBye: seq<QualifiedTeam>, ranked: seq<QualifiedTeam>, roundName: string, nrs: nat)
    ensures var next := NextRoundMatches(teamsWithBye, [], ranked, roundName, nrs);
      Numbered(next) && |next| == nrs / 2
  {
    NextRoundShape(teamsWithBye, [], ranked, roundName, nrs);
  }

  lemma SlotsThenRest(slots: seq<PlayoffMatch>, next: seq<PlayoffMatch>, later: seq<PlayoffMatch>)
    requires |slots| >= 2 && Numbered(slots) && RoundsNumbered(next + later, HalvingSizes(|slots| / 2))
    ensures RoundsNumbered(slots + next + later, HalvingSizes(|slots|))
  {
    NumberedBefore(slots, next + later, HalvingSizes(|slots| / 2));
    HalvingStep(|slots|);
    assert slots + next + later == slots + (next + later);
  }

  lemma HalvingStep(k: nat)
    requires k >= 2
    ensures HalvingSizes(k) == [k] + HalvingSizes(k / 2)
  {
  }

  /** Two teams play a single final, the first-ranked as team 1. */
  lemma TwoTeamFinal(ranked: seq<QualifiedTeam>)
    requires |ranked| == 2 && ranked[0].teamId != ranked[1].teamId
    ensures PlayoffBracket(ranked) == Success([PlayoffMatch("final", 1, Some(ranked[0].teamId), Some(ranked[1].teamId), None, None)])
  {
    var info := FirstRound(|ranked|);
    assert info.teamsWithBye == 0 && info.teamsPlaying == 2 && info.firstRoundName == "final";
    BracketOfNoByes(ranked, info);
    FirstRoundOfTwo(ranked, "final");
    WithoutByesOfTwo(ranked);
  }

  lemma WithoutByesOfTwo(ranked: seq<QualifiedTeam>)
    requires |FirstRoundMatches(ranked, "final")| == 1
    ensures WithoutByes(ranked, "final") == FirstRoundMatches(ranked, "final")
  {
    assert LaterRounds(1, "final") == [];
  }

  /** `generatePlayoffs` fails exactly when fewer than two of the qualified
      teams finished first, second or third in their group. */
  lemma PlayoffsFailure(entries: seq<QualifiedEntry>, groupOrder: map<int, int>)
    ensures var teams := AttachGroupOrder(entries, groupOrder);
      Playoffs(entries, groupOrder).Failure? <==> |Filter(teams, InTopThree)| < 2
  {
    var teams := AttachGroupOrder(entries, groupOrder);
    GlobalRankingPermutation(teams);
    assert |multiset(BuildGlobalRanking(teams))| == |multiset(Filter(teams, InTopThree))|;
  }
}
