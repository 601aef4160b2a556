/** The round after a first round with byes (`generateNextRoundWithByes`):
    the teams with a bye are spread over the slots by the bye seeding, the
    first-round matches are ordered by the expected strength of their winner,
    and each empty slot is fed by one of them, the weaker winners going to
    the slots that face the better byes. */
module NextRound {
  import opened Common
  import opened Collections
  import opened Text
  import opened PlayoffTeams
  import opened ByeSeeding

  // ---------------------------------------------------------------------
  // Strength of a first-round match

  /** `!id`: a side without a team, or with the falsy id 0. */
  predicate NoTeam(id: Option<int>)
  {
    id.None? || id.value == 0
  }

  /** `calculateMatchStrength`: the better global seed (lower index in the
      ranking) of the two teams, or `None` (the source's `Infinity`) when a
      side is empty or a team is not in the ranking. */
  function MatchStrength(m: PlayoffMatch, ranked: seq<QualifiedTeam>): (r: Option<nat>)
    ensures r.Some? <==>
      && !NoTeam(m.team1Id) && !NoTeam(m.team2Id)
      && FindIndexById(ranked, m.team1Id.value) != -1 && FindIndexById(ranked, m.team2Id.value) != -1
    ensures r.Some? ==>
      && r.value < |ranked|
      && (ranked[r.value].teamId == m.team1Id.value || ranked[r.value].teamId == m.team2Id.value)
      && forall j :: 0 <= j < r.value ==> ranked[j].teamId != m.team1Id.value && ranked[j].teamId != m.team2Id.value
  {
    if NoTeam(m.team1Id) || NoTeam(m.team2Id) then None
    else
      var i1 := FindIndexById(ranked, m.team1Id.value);
      var i2 := FindIndexById(ranked, m.team2Id.value);
      if i1 == -1 || i2 == -1 then None
      else if i1 <= i2 then Some(i1) else Some(i2)
  }

  /** The sort key of a match: its strength, with `Infinity` standing above
      every index of the ranking. */
  function StrengthKey(ranked: seq<QualifiedTeam>, m: PlayoffMatch): (k: int)
    ensures 0 <= k <= |ranked|
    ensures k == |ranked| <==> MatchStrength(m, ranked).None?
  {
    match MatchStrength(m, ranked)
    case Some(s) => s
    case None => |ranked|
  }

  /** `sortedMatches`: the first-round matches ordered by ascending strength,
      that is from the strongest expected winner to the weakest. */
  function SortedMatches(firstRound: seq<PlayoffMatch>, ranked: seq<QualifiedTeam>): (r: seq<PlayoffMatch>)
    ensures |r| == |firstRound| && multiset(r) == multiset(firstRound)
    ensures forall i, j :: 0 <= i < j < |r| ==> StrengthKey(ranked, r[i]) <= StrengthKey(ranked, r[j])
  {
    SortByKey(firstRound, m => StrengthKey(ranked, m))
  }

  // ---------------------------------------------------------------------
  // The slots of the next round

  /** The other slot of the pair holding slot `p`: 0-1, 2-3, 4-5, ... */
  function Mate(p: nat): nat
  {
    if p % 2 == 0 then p + 1 else p - 1
  }

  /** `positionsNeedingWinners` before its sort: the empty slots among the
      first `k`, in increasing order. */
  function OpenPositions(seeded: seq<Option<QualifiedTeam>>, k: nat): (r: seq<int>)
    requires k <= |seeded|
    ensures forall j :: 0 <= j < |r| ==> 0 <= r[j] < k && seeded[r[j]].None?
    ensures forall p :: 0 <= p < k && seeded[p].None? ==> p in r
    ensures forall i, j :: 0 <= i < j < |r| ==> r[i] < r[j]
  {
    if k == 0 then []
    else
      var prev := OpenPositions(seeded, k - 1);
      if seeded[k - 1].None? then prev + [k - 1] else prev
  }

  /** `positionToByeSeed` after `k` steps: each occupied slot among the first
      `k` mapped to its team's index in the ranking (-1 when absent). */
  function ByeSeeds(seeded: seq<Option<QualifiedTeam>>, ranked: seq<QualifiedTeam>, k: nat): (r: map<int, int>)
    requires k <= |seeded|
    ensures forall p :: p in r <==> 0 <= p < k && seeded[p].Some?
    ensures forall p :: p in r ==> r[p] == FindIndexById(ranked, seeded[p].value.teamId)
  {
    if k == 0 then map[]
    else
      var prev := ByeSeeds(seeded, ranked, k - 1);
      if seeded[k - 1].Some? then prev[k - 1 := FindIndexById(ranked, seeded[k - 1].value.teamId)] else prev
  }

  /** Slot `p` is empty and its mate holds a team whose seed is recorded. */
  predicate FacesBye(seeded: seq<Option<QualifiedTeam>>, byeSeeds: map<int, int>, p: int)
  {
    0 <= p < |seeded| && seeded[p].None? && Mate(p) < |seeded| && seeded[Mate(p)].Some? && Mate(p) in byeSeeds
  }

  /** `positionToOpponentSeed` after `k` steps: each empty slot among the
      first `k` whose mate holds a bye, mapped to that bye's seed. */
  function OpponentSeeds(seeded: seq<Option<QualifiedTeam>>, byeSeeds: map<int, int>, k: nat): (r: map<int, int>)
    requires k <= |seeded|
    ensures forall p :: p in r <==> 0 <= p < k && FacesBye(seeded, byeSeeds, p)
    ensures forall p :: p in r ==> Mate(p) in byeSeeds && r[p] == byeSeeds[Mate(p)]
  {
    if k == 0 then map[]
    else
      var prev := OpponentSeeds(seeded, byeSeeds, k - 1);
      if FacesBye(seeded, byeSeeds, k - 1) then prev[k - 1 := byeSeeds[Mate(k - 1)]] else prev
  }

  /** The sort key of an open slot: the seed of the bye it faces, or the
      `Infinity` stand-in `top` when it faces none. */
  function OpponentKey(opponentSeeds: map<int, int>, top: int, p: int): int
  {
    if p in opponentSeeds then opponentSeeds[p] else top
  }

  /** `positionsNeedingWinners` after its sort: the open slots, those facing
      the best byes first. */
  function SortedOpenPositions(seeded: seq<Option<QualifiedTeam>>, ranked: seq<QualifiedTeam>): (r: seq<int>)
  {
    var opponentSeeds := OpponentSeeds(seeded, ByeSeeds(seeded, ranked, |seeded|), |seeded|);
    SortByKey(OpenPositions(seeded, |seeded|), p => OpponentKey(opponentSeeds, |ranked|, p))
  }

  /** `positionToMatch` after `k` steps: slot `sp[i]` is fed by the
      first-round match of rank `|sp| - 1 - i`, when there is one. */
  function Assignments(sp: seq<int>, sm: seq<PlayoffMatch>, k: nat): (r: map<int, int>)
    requires k <= |sp|
  {
    if k == 0 then map[]
    else
      var prev := Assignments(sp, sm, k - 1);
      var matchIndex := |sp| - 1 - (k - 1);
      if matchIndex < |sm| then prev[sp[k - 1] := sm[matchIndex].bracketPos] else prev
  }

  /** `prevRoundLabel`: the capitalised round name of the first match, or ""
      when the first round is empty. */
  function PrevRoundLabel(firstRound: seq<PlayoffMatch>): string
  {
    if firstRound == [] then "" else Capitalize(firstRound[0].round)
  }

  /** The text naming the winner of match `matchNum` of the round labelled `roundLabel`. */
  function WinnerOf(roundLabel: string, matchNum: int): string
  {
    "Ganador " + roundLabel + IntToString(matchNum)
  }

  /** The team of slot `p`: the bye placed there, if any. */
  function SlotTeam(seeded: seq<Option<QualifiedTeam>>, p: nat): Option<int>
    requires p < |seeded|
  {
    if seeded[p].Some? then Some(seeded[p].value.teamId) else None
  }

  /** The source of slot `p`: for an empty slot fed by a match with a truthy
      number, the winner of that match. */
  function SlotSource(seeded: seq<Option<QualifiedTeam>>, toMatch: map<int, int>, roundLabel: string, p: nat): Option<string>
    requires p < |seeded|
  {
    if seeded[p].None? && p in toMatch && toMatch[p] != 0 then Some(WinnerOf(roundLabel, toMatch[p])) else None
  }

  /** Match `i + 1` of the round: slot `2i` against slot `2i + 1`. */
  function SlotRow(seeded: seq<Option<QualifiedTeam>>, toMatch: map<int, int>, roundLabel: string,
                   roundName: string, i: nat): PlayoffMatch
    requires 2 * i + 1 < |seeded|
  {
    PlayoffMatch(roundName, i + 1, SlotTeam(seeded, 2 * i), SlotTeam(seeded, 2 * i + 1),
                 SlotSource(seeded, toMatch, roundLabel, 2 * i), SlotSource(seeded, toMatch, roundLabel, 2 * i + 1))
  }

  /** The rows of the matches numbered 1..k. */
  function RoundRows(seeded: seq<Option<QualifiedTeam>>, toMatch: map<int, int>, roundLabel: string,
                     roundName: string, k: nat): (r: seq<PlayoffMatch>)
    requires 2 * k <= |seeded|
    ensures |r| == k
  {
    if k == 0 then []
    else RoundRows(seeded, toMatch, roundLabel, roundName, k - 1) + [SlotRow(seeded, toMatch, roundLabel, roundName, k - 1)]
  }

  /** `generateNextRoundWithByes(teamsWithBye, firstRoundMatches, rankedTeams, roundName, nextRoundSize)`. */
  function NextRoundMatches(teamsWithBye: seq<QualifiedTeam>, firstRound: seq<PlayoffMatch>, ranked: seq<QualifiedTeam>,
                            roundName: string, nextRoundSize: nat): seq<PlayoffMatch>
  {
    var seeded := SeedByes(teamsWithBye, nextRoundSize);
    var sp := SortedOpenPositions(seeded, ranked);
    var toMatch := Assignments(sp, SortedMatches(firstRound, ranked), |sp|);
    RoundRows(seeded, toMatch, PrevRoundLabel(firstRound), roundName, nextRoundSize / 2)
  }

  // ---------------------------------------------------------------------
  // The method

  method GenerateNextRoundWithByes(teamsWithBye: seq<QualifiedTeam>, firstRoundMatches: seq<PlayoffMatch>,
                                   rankedTeams: seq<QualifiedTeam>, roundName: string, nextRoundSize: nat)
    returns (matches: seq<PlayoffMatch>)
    ensures matches == NextRoundMatches(teamsWithBye, firstRoundMatches, rankedTeams, roundName, nextRoundSize)
  {
    var numMatches := nextRoundSize / 2;
    var seededByes := SeedByeTeams(teamsWithBye, nextRoundSize);
    var sortedMatches := SortByKey(firstRoundMatches, m => StrengthKey(rankedTeams, m));
    var positionsNeedingWinners, positionToByeSeed := ClassifySlots(seededByes, rankedTeams);
    var positionToOpponentSeed := MapOpponentSeeds(seededByes, positionToByeSeed);
    positionsNeedingWinners := SortByKey(positionsNeedingWinners, p => OpponentKey(positionToOpponentSeed, |rankedTeams|, p));
    var positionToMatch := AssignMatches(positionsNeedingWinners, sortedMatches);
    var prevRoundLabel := if |firstRoundMatches| > 0 then Capitalize(firstRoundMatches[0].round) else "";
    matches := EmitRoundRows(seededByes, positionToMatch, prevRoundLabel, roundName, numMatches);
  }

  /** The first loop: the empty slots, and the seed of each bye. */
  method ClassifySlots(seededByes: seq<Option<QualifiedTeam>>, rankedTeams: seq<QualifiedTeam>)
    returns (positionsNeedingWinners: seq<int>, positionToByeSeed: map<int, int>)
    ensures positionsNeedingWinners == OpenPositions(seededByes, |seededByes|)
    ensures positionToByeSeed == ByeSeeds(seededByes, rankedTeams, |seededByes|)
  {
    positionsNeedingWinners, positionToByeSeed := [], map[];
    for i := 0 to |seededByes|
      invariant positionsNeedingWinners == OpenPositions(seededByes, i)
      invariant positionToByeSeed == ByeSeeds(seededByes, rankedTeams, i)
    {
      if seededByes[i].None? {
        positionsNeedingWinners := positionsNeedingWinners + [i];
      } else {
        var byeSeed := FindIndexById(rankedTeams, seededByes[i].value.teamId);
        positionToByeSeed := positionToByeSeed[i := byeSeed];
      }
    }
  }

  /** The second loop: the seed of the bye facing each empty slot. */
  method MapOpponentSeeds(seededByes: seq<Option<QualifiedTeam>>, positionToByeSeed: map<int, int>)
    returns (positionToOpponentSeed: map<int, int>)
    ensures positionToOpponentSeed == OpponentSeeds(seededByes, positionToByeSeed, |seededByes|)
  {
    positionToOpponentSeed := map[];
    for i := 0 to |seededByes|
      invariant positionToOpponentSeed == OpponentSeeds(seededByes, positionToByeSeed, i)
    {
      if seededByes[i].None? {
        var opponentPos := if i % 2 == 0 then i + 1 else i - 1;
        if opponentPos < |seededByes| && seededByes[opponentPos].Some? {
          if opponentPos in positionToByeSeed {
            positionToOpponentSeed := positionToOpponentSeed[i := positionToByeSeed[opponentPos]];
          }
        }
      }
    }
  }

  /** The third loop: slot `i` of the sorted list gets the match of rank
      `length - 1 - i`. */
  method AssignMatches(positionsNeedingWinners: seq<int>, sortedMatches: seq<PlayoffMatch>)
    returns (positionToMatch: map<int, int>)
    ensures positionToMatch == Assignments(positionsNeedingWinners, sortedMatches, |positionsNeedingWinners|)
  {
    positionToMatch := map[];
    for i := 0 to |positionsNeedingWinners|
      invariant positionToMatch == Assignments(positionsNeedingWinners, sortedMatches, i)
    {
      var position := positionsNeedingWinners[i];
      var matchIndex := |positionsNeedingWinners| - 1 - i;
      if matchIndex < |sortedMatches| {
        positionToMatch := positionToMatch[position := sortedMatches[matchIndex].bracketPos];
      }
    }
  }

  /** The last loop: one row per pair of slots. */
  method EmitRoundRows(seededByes: seq<Option<QualifiedTeam>>, positionToMatch: map<int, int>, prevRoundLabel: string,
                       roundName: string, numMatches: nat) returns (matches: seq<PlayoffMatch>)
    requires 2 * numMatches <= |seededByes|
    ensures matches == RoundRows(seededByes, positionToMatch, prevRoundLabel, roundName, numMatches)
  {
    matches := [];
    for i := 0 to numMatches
      invariant matches == RoundRows(seededByes, positionToMatch, prevRoundLabel, roundName, i)
    {
      var pos1, pos2 := i * 2, i * 2 + 1;
      var team1Id, team2Id: Option<int> := None, None;
      var source1, source2: Option<string> := None, None;
      if seededByes[pos1].Some? {
        team1Id := Some(seededByes[pos1].value.teamId);
      } else if pos1 in positionToMatch && positionToMatch[pos1] != 0 {
        source1 := Some("Ganador " + prevRoundLabel + IntToString(positionToMatch[pos1]));
      }
      if seededByes[pos2].Some? {
        team2Id := Some(seededByes[pos2].value.teamId);
      } else if pos2 in positionToMatch && positionToMatch[pos2] != 0 {
        source2 := Some("Ganador " + prevRoundLabel + IntToString(positionToMatch[pos2]));
      }
      matches := matches + [PlayoffMatch(roundName, i + 1, team1Id, team2Id, source1, source2)];
    }
  }

  // ---------------------------------------------------------------------
  // Properties

  lemma {:induction false} RoundRowsIndex(seeded: seq<Option<QualifiedTeam>>, toMatch: map<int, int>, roundLabel: string,
                                          roundName: string, k: nat)
    requires 2 * k <= |seeded|
    ensures forall i :: 0 <= i < k ==>
      RoundRows(seeded, toMatch, roundLabel, roundName, k)[i] == SlotRow(seeded, toMatch, roundLabel, roundName, i)
  {
    if k > 0 {
      RoundRowsIndex(seeded, toMatch, roundLabel, roundName, k - 1);
    }
  }

  /** Row `i` of a round is numbered `i + 1` and opposes slots `2i` and
      `2i + 1`: a slot holding a bye shows that team and no source, an empty
      slot shows no team, and it shows the winner of a first-round match
      exactly when the slot is fed by a match with a non-zero number. */
  lemma RoundRowsAt(seeded: seq<Option<QualifiedTeam>>, toMatch: map<int, int>, roundLabel: string,
                    roundName: string, k: nat)
    requires 2 * k <= |seeded|
    ensures var r := RoundRows(seeded, toMatch, roundLabel, roundName, k);
      forall i :: 0 <= i < k ==>
        && r[i].round == roundName && r[i].bracketPos == i + 1
        && (seeded[2 * i].Some? ==> r[i].team1Id == Some(seeded[2 * i].value.teamId) && r[i].sourceTeam1.None?)
        && (seeded[2 * i].None? ==> r[i].team1Id.None?)
        && (seeded[2 * i + 1].Some? ==> r[i].team2Id == Some(seeded[2 * i + 1].value.teamId) && r[i].sourceTeam2.None?)
        && (seeded[2 * i + 1].None? ==> r[i].team2Id.None?)
        && (r[i].sourceTeam1.Some? <==> seeded[2 * i].None? && 2 * i in toMatch && toMatch[2 * i] != 0)
        && (r[i].sourceTeam2.Some? <==> seeded[2 * i + 1].None? && 2 * i + 1 in toMatch && toMatch[2 * i + 1] != 0)
  {
    RoundRowsIndex(seeded, toMatch, roundLabel, roundName, k);
  }

  /** The next round has `nextRoundSize / 2` matches, numbered from 1; each
      bye placed by the bye seeding appears in its slot with no source, and
      every other slot waits for a winner. */
  lemma NextRoundShape(teamsWithBye: seq<QualifiedTeam>, firstRound: seq<PlayoffMatch>, ranked: seq<QualifiedTeam>,
                       roundName: string, nextRoundSize: nat)
    ensures var r, seeded := NextRoundMatches(teamsWithBye, firstRound, ranked, roundName, nextRoundSize),
                             SeedByes(teamsWithBye, nextRoundSize);
      && |r| == nextRoundSize / 2
      && forall i :: 0 <= i < nextRoundSize / 2 ==>
           && r[i].round == roundName && r[i].bracketPos == i + 1
           && (seeded[2 * i].Some? ==> r[i].team1Id == Some(seeded[2 * i].value.teamId) && r[i].sourceTeam1.None?)
           && (seeded[2 * i].None? ==> r[i].team1Id.None?)
           && (seeded[2 * i + 1].Some? ==> r[i].team2Id == Some(seeded[2 * i + 1].value.teamId) && r[i].sourceTeam2.None?)
           && (seeded[2 * i + 1].None? ==> r[i].team2Id.None?)
  {
    var seeded := SeedByes(teamsWithBye, nextRoundSize);
    var sp := SortedOpenPositions(seeded, ranked);
    var toMatch := Assignments(sp, SortedMatches(firstRound, ranked), |sp|);
    RoundRowsAt(seeded, toMatch, PrevRoundLabel(firstRound), roundName, nextRoundSize / 2);
  }

  lemma {:induction false} AssignmentsEmpty(sp: seq<int>, k: nat)
    requires k <= |sp|
    ensures Assignments(sp, [], k) == map[]
  {
    if k > 0 {
      AssignmentsEmpty(sp, k - 1);
    }
  }

  /** With no first-round matches no slot has a source: the round shows only
      the byes. */
  lemma NextRoundWithoutFirstRound(teamsWithBye: seq<QualifiedTeam>, ranked: seq<QualifiedTeam>,
                                   roundName: string, nextRoundSize: nat)
    ensures var r := NextRoundMatches(teamsWithBye, [], ranked, roundName, nextRoundSize);
      forall i :: 0 <= i < |r| ==> r[i].sourceTeam1.None? && r[i].sourceTeam2.None?
  {
    var seeded := SeedByes(teamsWithBye, nextRoundSize);
    var sp := SortedOpenPositions(seeded, ranked);
    assert SortedMatches([], ranked) == [];
    AssignmentsEmpty(sp, |sp|);
    RoundRowsAt(seeded, map[], "", roundName, nextRoundSize / 2);
  }

  /** For distinct slots, slot `sp[i]` is fed exactly by the match of rank
      `|sp| - 1 - i` when that rank exists, and by nothing otherwise; no
      other slot is fed. */
  lemma {:induction false} AssignmentsLookup(sp: seq<int>, sm: seq<PlayoffMatch>, k: nat)
    requires k <= |sp| && Distinct(sp)
    ensures forall p :: p in Assignments(sp, sm, k) ==> p in sp[..k]
    ensures forall i :: 0 <= i < k ==>
      if |sp| - 1 - i < |sm| then sp[i] in Assignments(sp, sm, k) && Assignments(sp, sm, k)[sp[i]] == sm[|sp| - 1 - i].bracketPos
      else sp[i] !in Assignments(sp, sm, k)
  {
    if k > 0 {
      AssignmentsLookup(sp, sm, k - 1);
      assert sp[..k] == sp[..k - 1] + [sp[k - 1]];
      forall i | 0 <= i < k - 1
        ensures sp[i] != sp[k - 1]
      {
      }
    }
  }

  /** The open slots are each listed once, sorted by the seed of the bye
      they face. */
  lemma SortedOpenPositionsDistinct(seeded: seq<Option<QualifiedTeam>>, ranked: seq<QualifiedTeam>)
    ensures Distinct(SortedOpenPositions(seeded, ranked))
    ensures forall p :: p in SortedOpenPositions(seeded, ranked) <==> 0 <= p < |seeded| && seeded[p].None?
  {
    var open := OpenPositions(seeded, |seeded|);
    var sp := SortedOpenPositions(seeded, ranked);
    assert Distinct(open);
    DistinctOfSameMultiset(sp, open);
    forall p
      ensures p in sp <==> p in open
    {
      assert p in sp <==> p in multiset(sp);
      assert p in open <==> p in multiset(open);
    }
  }

  /** The weaker winners face the better byes: if two open slots are both
      fed, the one facing the better-seeded bye (smaller key) is fed by a
      match whose expected winner is no stronger than the other's. */
  lemma WeakerWinnerFacesBetterBye(sp: seq<int>, sm: seq<PlayoffMatch>, okey: int -> int, skey: PlayoffMatch -> int, i: nat, j: nat)
    requires SortedByKey(sp, okey) && SortedByKey(sm, skey)
    requires i < |sp| && j < |sp| && |sp| - 1 - i < |sm| && |sp| - 1 - j < |sm|
    requires okey(sp[i]) < okey(sp[j])
    ensures skey(sm[|sp| - 1 - i]) >= skey(sm[|sp| - 1 - j])
  {
  }

  /** The assignment of the next round, for any layout `seeded` of the
      byes: for two open slots `sp[i]` and `sp[j]` that are both fed, slot
      `sp[i]` is fed by the match of rank `|sp| - 1 - i`, the two slots are
      different, and when `sp[i]` faces a better-seeded bye than `sp[j]` the
      match feeding it has an expected winner no stronger than the match
      feeding `sp[j]`. */
  lemma NextRoundAssignment(seeded: seq<Option<QualifiedTeam>>, firstRound: seq<PlayoffMatch>, ranked: seq<QualifiedTeam>,
                            i: nat, j: nat)
    requires var sp := SortedOpenPositions(seeded, ranked);
      i < |sp| && j < |sp| && |sp| - 1 - i < |firstRound| && |sp| - 1 - j < |firstRound|
    ensures var sp, sm := SortedOpenPositions(seeded, ranked), SortedMatches(firstRound, ranked);
      var opponentSeeds := OpponentSeeds(seeded, ByeSeeds(seeded, ranked, |seeded|), |seeded|);
      var toMatch := Assignments(sp, sm, |sp|);
      && sp[i] in toMatch && toMatch[sp[i]] == sm[|sp| - 1 - i].bracketPos
      && (i != j ==> sp[i] != sp[j])
      && (OpponentKey(opponentSeeds, |ranked|, sp[i]) < OpponentKey(opponentSeeds, |ranked|, sp[j]) ==>
            StrengthKey(ranked, sm[|sp| - 1 - i]) >= StrengthKey(ranked, sm[|sp| - 1 - j]))
  {
    var sp, sm := SortedOpenPositions(seeded, ranked), SortedMatches(firstRound, ranked);
    var opponentSeeds := OpponentSeeds(seeded, ByeSeeds(seeded, ranked, |seeded|), |seeded|);
    SortedOpenPositionsDistinct(seeded, ranked);
    AssignmentsLookup(sp, sm, |sp|);
    var okey := p => OpponentKey(opponentSeeds, |ranked|, p);
    var skey := m => StrengthKey(ranked, m);
    assert SortedByKey(sp, okey);
    if okey(sp[i]) < okey(sp[j]) {
      WeakerWinnerFacesBetterBye(sp, sm, okey, skey, i, j);
    }
  }
}
