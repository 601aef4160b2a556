/** The first round when no team has a bye (`generateFirstRoundMatches`):
    the best remaining seed meets the worst, with a substitute opponent when
    the two come from the same group, and the matches are then laid out in
    the standard seed order and numbered from the top of the bracket. */
module FirstRoundPairing {
  import opened Common
  import opened Collections
  import opened SeedOrder
  import opened PlayoffTeams

  /** `{ team1, team2 }` of `matchPairs`. */
  datatype Pair = Pair(team1: QualifiedTeam, team2: QualifiedTeam)

  // ---------------------------------------------------------------------
  // Pairing

  /** Index `j` may replace the default opponent of a team of group `g`:
      it is not used yet and its team comes from another group. */
  predicate Substitute(tp: seq<QualifiedTeam>, used: set<int>, g: int, j: int)
    requires 0 <= j < |tp|
  {
    j !in used && tp[j].fromGroupId != g
  }

  /** The largest index in `[lo, hi)` that may substitute, or -1. */
  function LastFree(tp: seq<QualifiedTeam>, used: set<int>, g: int, lo: int, hi: int): (k: int)
    requires 0 <= lo && hi <= |tp|
    ensures k == -1 || (lo <= k < hi && Substitute(tp, used, g, k))
    ensures k != -1 ==> forall j :: k < j < hi ==> !Substitute(tp, used, g, j)
    ensures k == -1 <==> forall j :: lo <= j < hi ==> !Substitute(tp, used, g, j)
    decreases hi - lo
  {
    if hi <= lo then -1
    else if Substitute(tp, used, g, hi - 1) then hi - 1
    else LastFree(tp, used, g, lo, hi - 1)
  }

  /** The smallest index in `[lo, hi)` that may substitute, or -1. */
  function FirstFree(tp: seq<QualifiedTeam>, used: set<int>, g: int, lo: int, hi: int): (k: int)
    requires 0 <= lo && hi <= |tp|
    ensures k == -1 || (lo <= k < hi && Substitute(tp, used, g, k))
    ensures k != -1 ==> forall j :: lo <= j < k ==> !Substitute(tp, used, g, j)
    ensures k == -1 <==> forall j :: lo <= j < hi ==> !Substitute(tp, used, g, j)
    decreases hi - lo
  {
    if hi <= lo then -1
    else if Substitute(tp, used, g, lo) then lo
    else FirstFree(tp, used, g, lo + 1, hi)
  }

  /** The second, ascending search of the source can never succeed where
      the descending one failed: both scan the same indices. */
  lemma AscendingSearchRedundant(tp: seq<QualifiedTeam>, used: set<int>, g: int, lo: int, hi: int)
    requires 0 <= lo && hi <= |tp|
    ensures LastFree(tp, used, g, lo, hi) == -1 <==> FirstFree(tp, used, g, lo, hi) == -1
  {
  }

  /** The set of indices listed in `s`. */
  function SetOf(s: seq<int>): set<int>
  {
    set k | 0 <= k < |s| :: s[k]
  }

  /** The opponent index chosen for team `i` once the indices in `used` are
      taken: the mirror index `|tp| - 1 - i`, unless its team is from the
      same group, in which case the last unused index of the lower half from
      another group, then the first such index, then the mirror after all. */
  function Opponent(tp: seq<QualifiedTeam>, used: set<int>, i: nat): (j: int)
    requires i < |tp| / 2
  {
    var numMatches := |tp| / 2;
    var mirror := |tp| - 1 - i;
    var g := tp[i].fromGroupId;
    if g != tp[mirror].fromGroupId then mirror
    else
      var down := LastFree(tp, used, g, numMatches, |tp|);
      if down != -1 then down
      else
        var up := FirstFree(tp, used, g, numMatches, |tp|);
        if up != -1 then up else mirror
  }

  /** The opponent indices of the first `m` teams, in order. */
  function Opponents(tp: seq<QualifiedTeam>, m: nat): (r: seq<int>)
    requires m <= |tp| / 2
    ensures |r| == m
  {
    if m == 0 then []
    else
      var prev := Opponents(tp, m - 1);
      prev + [Opponent(tp, SetOf(prev), m - 1)]
  }

  /** The chosen opponent lies in the lower half; it is the mirror index
      unless the mirror team comes from the same group, and a replacement is
      an unused index whose team is from another group. */
  lemma OpponentShape(tp: seq<QualifiedTeam>, used: set<int>, i: nat)
    requires i < |tp| / 2
    ensures var j, mirror := Opponent(tp, used, i), |tp| - 1 - i;
      && |tp| / 2 <= j < |tp|
      && (tp[i].fromGroupId != tp[mirror].fromGroupId ==> j == mirror)
      && (j != mirror ==> j !in used && tp[j].fromGroupId != tp[i].fromGroupId)
  {
  }

  lemma {:induction false} OpponentsPrefix(tp: seq<QualifiedTeam>, m: nat, i: nat)
    requires i <= m <= |tp| / 2
    ensures Opponents(tp, m)[..i] == Opponents(tp, i)
  {
    if i < m {
      OpponentsPrefix(tp, m - 1, i);
      assert Opponents(tp, m)[..m - 1] == Opponents(tp, m - 1);
    }
  }

  lemma OpponentAt(tp: seq<QualifiedTeam>, m: nat, i: nat)
    requires i < m <= |tp| / 2
    ensures Opponents(tp, m)[i] == Opponent(tp, SetOf(Opponents(tp, i)), i)
  {
    OpponentsPrefix(tp, m, i + 1);
    assert Opponents(tp, m)[i] == Opponents(tp, m)[..i + 1][i];
  }

  /** The same for the whole opponent list: each replacement index was not
      chosen for an earlier team. */
  lemma OpponentsShape(tp: seq<QualifiedTeam>, m: nat)
    requires m <= |tp| / 2
    ensures var opp, nm := Opponents(tp, m), |tp| / 2;
      forall i :: 0 <= i < m ==>
        && nm <= opp[i] < |tp|
        && (tp[i].fromGroupId != tp[|tp| - 1 - i].fromGroupId ==> opp[i] == |tp| - 1 - i)
        && (opp[i] != |tp| - 1 - i ==>
              opp[i] !in SetOf(opp[..i]) && tp[opp[i]].fromGroupId != tp[i].fromGroupId)
  {
    var opp := Opponents(tp, m);
    forall i | 0 <= i < m
      ensures |tp| / 2 <= opp[i] < |tp|
      ensures tp[i].fromGroupId != tp[|tp| - 1 - i].fromGroupId ==> opp[i] == |tp| - 1 - i
      ensures opp[i] != |tp| - 1 - i ==> opp[i] !in SetOf(opp[..i]) && tp[opp[i]].fromGroupId != tp[i].fromGroupId
    {
      OpponentAt(tp, m, i);
      OpponentsPrefix(tp, m, i);
      OpponentShape(tp, SetOf(Opponents(tp, i)), i);
    }
  }

  lemma SetOfSnoc(s: seq<int>, x: int)
    ensures SetOf(s + [x]) == SetOf(s) + {x}
  {
    var t := s + [x];
    assert t[|s|] == x;
    forall v | v in SetOf(s)
      ensures v in SetOf(t)
    {
      var k :| 0 <= k < |s| && s[k] == v;
      assert t[k] == v;
    }
  }

  /** The pairs for opponent list `opp`: team `i` against team `opp[i]`. */
  function PairsOf(tp: seq<QualifiedTeam>, opp: seq<int>): (r: seq<Pair>)
    requires |opp| <= |tp|
    requires forall i :: 0 <= i < |opp| ==> 0 <= opp[i] < |tp|
    ensures |r| == |opp|
  {
    seq(|opp|, i requires 0 <= i < |opp| => Pair(tp[i], tp[opp[i]]))
  }

  lemma OpponentsInRange(tp: seq<QualifiedTeam>, m: nat)
    requires m <= |tp| / 2
    ensures forall i :: 0 <= i < m ==> |tp| / 2 <= Opponents(tp, m)[i] < |tp|
  {
    OpponentsShape(tp, m);
  }

  /** `matchPairs` as the source builds it. */
  function Pairs(tp: seq<QualifiedTeam>): (r: seq<Pair>)
    ensures |r| == |tp| / 2
  {
    OpponentsInRange(tp, |tp| / 2);
    PairsOf(tp, Opponents(tp, |tp| / 2))
  }

  /** The descending search loop: `j` from `|tp| - 1` down to `numMatches`. */
  method SearchFromEnd(tp: seq<QualifiedTeam>, used: set<int>, g: int, numMatches: nat) returns (found: bool, index: int)
    requires numMatches <= |tp|
    ensures found <==> LastFree(tp, used, g, numMatches, |tp|) != -1
    ensures found ==> index == LastFree(tp, used, g, numMatches, |tp|)
  {
    var j := |tp| - 1;
    found, index := false, -1;
    while j >= numMatches
      invariant numMatches - 1 <= j < |tp|
      invariant LastFree(tp, used, g, numMatches, |tp|) == LastFree(tp, used, g, numMatches, j + 1)
      decreases j
    {
      if j !in used && tp[j].fromGroupId != g {
        return true, j;
      }
      j := j - 1;
    }
  }

  /** The ascending search loop: `j` from `numMatches` up to `|tp| - 1`. */
  method SearchFromStart(tp: seq<QualifiedTeam>, used: set<int>, g: int, numMatches: nat) returns (found: bool, index: int)
    requires numMatches <= |tp|
    ensures found <==> FirstFree(tp, used, g, numMatches, |tp|) != -1
    ensures found ==> index == FirstFree(tp, used, g, numMatches, |tp|)
  {
    var j := numMatches;
    found, index := false, -1;
    while j < |tp|
      invariant numMatches <= j <= |tp|
      invariant FirstFree(tp, used, g, numMatches, |tp|) == FirstFree(tp, used, g, j, |tp|)
    {
      if j !in used && tp[j].fromGroupId != g {
        return true, j;
      }
      j := j + 1;
    }
  }

  /** The pairing loop of `generateFirstRoundMatches`. */
  method PairTeams(teamsPlaying: seq<QualifiedTeam>) returns (matchPairs: seq<Pair>)
    ensures matchPairs == Pairs(teamsPlaying)
  {
    var numMatches := |teamsPlaying| / 2;
    matchPairs := [];
    var usedIndices: set<int> := {};
    ghost var opp: seq<int> := [];
    for i := 0 to numMatches
      invariant opp == Opponents(teamsPlaying, i)
      invariant usedIndices == SetOf(opp)
      invariant forall k :: 0 <= k < i ==> 0 <= opp[k] < |teamsPlaying|
      invariant matchPairs == PairsOf(teamsPlaying, opp)
    {
      var team1 := teamsPlaying[i];
      var team2Index := |teamsPlaying| - 1 - i;
      var team2 := teamsPlaying[team2Index];
      if team1.fromGroupId == team2.fromGroupId {
        var found, j := SearchFromEnd(teamsPlaying, usedIndices, team1.fromGroupId, numMatches);
        if !found {
          found, j := SearchFromStart(teamsPlaying, usedIndices, team1.fromGroupId, numMatches);
        }
        if found {
          team2Index := j;
          team2 := teamsPlaying[team2Index];
        }
      }
      assert team2Index == Opponent(teamsPlaying, usedIndices, i);
      OpponentShape(teamsPlaying, usedIndices, i);
      SetOfSnoc(opp, team2Index);
      ghost var opp' := opp + [team2Index];
      assert matchPairs + [Pair(team1, team2)] == PairsOf(teamsPlaying, opp') by {
        var r, r' := matchPairs + [Pair(team1, team2)], PairsOf(teamsPlaying, opp');
        assert |r| == |r'| == i + 1;
        forall k | 0 <= k <= i
          ensures r[k] == r'[k]
        {
          if k < i {
            assert opp'[k] == opp[k] && r[k] == matchPairs[k];
          }
        }
      }
      usedIndices := usedIndices + {team2Index};
      matchPairs := matchPairs + [Pair(team1, team2)];
      opp := opp';
    }
  }

  // ---------------------------------------------------------------------
  // Placement

  /** `teamsPlaying.findIndex(t => t.team_id === id) + 1`: the 1-based
      global seed of a team, 0 when it is absent. */
  function GlobalSeed(tp: seq<QualifiedTeam>, id: int): int
  {
    FindIndexById(tp, id) + 1
  }

  /** The position of a pair in the seed order: where the better of its
      two global seeds stands, or -1. */
  function PairPosition(tp: seq<QualifiedTeam>, so: seq<int>, pr: Pair): int
  {
    IndexOf(so, Min(GlobalSeed(tp, pr.team1.teamId), GlobalSeed(tp, pr.team2.teamId)))
  }

  /** `matchesByPosition` after the given pairs were laid out, later pairs
      overwriting earlier ones at the same position. */
  function ByPosition(tp: seq<QualifiedTeam>, so: seq<int>, pairs: seq<Pair>, n: nat): (r: seq<Option<Pair>>)
    ensures |r| == n
  {
    if pairs == [] then seq(n, _ => None)
    else
      var prev := ByPosition(tp, so, pairs[..|pairs| - 1], n);
      var pos := PairPosition(tp, so, pairs[|pairs| - 1]);
      if 0 <= pos < n then prev[pos := Some(pairs[|pairs| - 1])] else prev
  }

  /** `{ position, team1, team2 }` of `matchesWithPosition`. */
  datatype Placed = Placed(position: int, team1: QualifiedTeam, team2: QualifiedTeam)

  /** The occupied positions among the first `k`, in position order. */
  function Occupied(mbp: seq<Option<Pair>>, k: nat): (r: seq<Placed>)
    requires k <= |mbp|
    ensures |r| <= k
  {
    if k == 0 then []
    else
      Occupied(mbp, k - 1) + match mbp[k - 1] {
        case Some(pr) => [Placed(k - 1, pr.team1, pr.team2)]
        case None => []
      }
  }

  function PositionKey(p: Placed): int { p.position }

  /** `matchesWithPosition.find(m => m.position === pos)`. */
  function FindPlaced(wp: seq<Placed>, pos: int): (r: Option<Placed>)
    ensures r.Some? ==> r.value in wp && r.value.position == pos
    ensures r.None? <==> forall i :: 0 <= i < |wp| ==> wp[i].position != pos
  {
    if wp == [] then None
    else if wp[0].position == pos then Some(wp[0])
    else
      assert forall i :: 1 <= i < |wp| ==> wp[i] == wp[1..][i - 1];
      FindPlaced(wp[1..], pos)
  }

  /** `{ bracketPos, team1, team2 }` of `finalMatches`. */
  datatype Numbered = Numbered(bracketPos: int, team1: QualifiedTeam, team2: QualifiedTeam)

  /** The match of bracket slot `p`: the pair placed at position `2p`, else
      the one at `2p + 1`. */
  function SlotMatch(wp: seq<Placed>, p: int): Option<Placed>
  {
    var m1 := FindPlaced(wp, 2 * p);
    if m1.Some? then m1 else FindPlaced(wp, 2 * p + 1)
  }

  /** `finalMatches` for the first `k` bracket slots. */
  function FinalPairs(wp: seq<Placed>, k: nat): (r: seq<Numbered>)
    ensures |r| <= k
  {
    if k == 0 then []
    else
      FinalPairs(wp, k - 1) + match SlotMatch(wp, k - 1) {
        case Some(md) => [Numbered(k, md.team1, md.team2)]
        case None => []
      }
  }

  function NumberedRow(nb: Numbered, roundName: string): PlayoffMatch
  {
    PlayoffMatch(roundName, nb.bracketPos, Some(nb.team1.teamId), Some(nb.team2.teamId), None, None)
  }

  /** The `matches.push` loop over `finalMatches`. */
  function Rows(fp: seq<Numbered>, roundName: string): (r: seq<PlayoffMatch>)
    ensures |r| == |fp| && forall i :: 0 <= i < |fp| ==> r[i] == NumberedRow(fp[i], roundName)
  {
    seq(|fp|, i requires 0 <= i < |fp| => NumberedRow(fp[i], roundName))
  }

  function BracketPosKey(m: PlayoffMatch): int { m.bracketPos }

  /** The rows produced from the given pairs and seed order. */
  function PlaceMatches(tp: seq<QualifiedTeam>, so: seq<int>, pairs: seq<Pair>, roundName: string): seq<PlayoffMatch>
  {
    var n := |tp|;
    var mbp := ByPosition(tp, so, pairs, n);
    var wp := SortByKey(Occupied(mbp, n), PositionKey);
    var fp := FinalPairs(wp, n / 2);
    SortByKey(Rows(fp, roundName), BracketPosKey)
  }

  /** The result of `generateFirstRoundMatches(teamsPlaying, roundName)`. */
  function FirstRoundMatches(tp: seq<QualifiedTeam>, roundName: string): seq<PlayoffMatch>
  {
    PlaceMatches(tp, StandardSeedOrder(|tp|), Pairs(tp), roundName)
  }

  method GenerateFirstRoundMatches(teamsPlaying: seq<QualifiedTeam>, roundName: string) returns (matches: seq<PlayoffMatch>)
    ensures matches == FirstRoundMatches(teamsPlaying, roundName)
  {
    var numMatches := |teamsPlaying| / 2;
    var numPositions := |teamsPlaying|;
    var matchPairs := PairTeams(teamsPlaying);
    var seedOrder := GetStandardSeedOrder(numPositions);
    var matchesByPosition := LayOutPairs(teamsPlaying, seedOrder, matchPairs);
    var matchesWithPosition := ListOccupied(matchesByPosition);
    matchesWithPosition := SortByKey(matchesWithPosition, PositionKey);
    var finalMatches := NumberSlots(matchesWithPosition, numMatches);
    matches := EmitRows(finalMatches, roundName);
    matches := SortByKey(matches, BracketPosKey);
    assert matches == PlaceMatches(teamsPlaying, seedOrder, matchPairs, roundName);
  }

  /** The loop turning `finalMatches` into match rows. */
  method EmitRows(finalMatches: seq<Numbered>, roundName: string) returns (matches: seq<PlayoffMatch>)
    ensures matches == Rows(finalMatches, roundName)
  {
    matches := [];
    for i := 0 to |finalMatches|
      invariant |matches| == i
      invariant forall k :: 0 <= k < i ==> matches[k] == NumberedRow(finalMatches[k], roundName)
    {
      matches := matches + [NumberedRow(finalMatches[i], roundName)];
    }
  }

  /** The loop filling `matchesByPosition`. */
  method LayOutPairs(tp: seq<QualifiedTeam>, seedOrder: seq<int>, matchPairs: seq<Pair>) returns (r: seq<Option<Pair>>)
    requires seedOrder == StandardSeedOrder(|tp|) && |matchPairs| == |tp| / 2
    ensures r == ByPosition(tp, seedOrder, matchPairs, |tp|)
  {
    var matchesByPosition := new Option<Pair>[|tp|](_ => None);
    for i := 0 to |matchPairs|
      invariant matchesByPosition[..] == ByPosition(tp, seedOrder, matchPairs[..i], |tp|)
    {
      ByPositionSnoc(tp, seedOrder, matchPairs, i);
      ghost var before := matchesByPosition[..];
      var pr := matchPairs[i];
      var team1GlobalSeed := FindIndexById(tp, pr.team1.teamId) + 1;
      var team2GlobalSeed := FindIndexById(tp, pr.team2.teamId) + 1;
      var bestSeed := Min(team1GlobalSeed, team2GlobalSeed);
      var position := IndexOf(seedOrder, bestSeed);
      assert position == PairPosition(tp, seedOrder, pr);
      if position != -1 {
        matchesByPosition[position] := Some(pr);
        assert matchesByPosition[..] == before[position := Some(pr)];
      }
    }
    assert matchPairs[..|matchPairs|] == matchPairs;
    r := matchesByPosition[..];
  }

  lemma ByPositionSnoc(tp: seq<QualifiedTeam>, so: seq<int>, pairs: seq<Pair>, i: nat)
    requires i < |pairs|
    ensures var prev, pos := ByPosition(tp, so, pairs[..i], |tp|), PairPosition(tp, so, pairs[i]);
      ByPosition(tp, so, pairs[..i + 1], |tp|) == if 0 <= pos < |tp| then prev[pos := Some(pairs[i])] else prev
  {
    assert pairs[..i + 1][..i] == pairs[..i];
  }

  /** The loop collecting `matchesWithPosition`. */
  method ListOccupied(matchesByPosition: seq<Option<Pair>>) returns (r: seq<Placed>)
    ensures r == Occupied(matchesByPosition, |matchesByPosition|)
  {
    r := [];
    for pos := 0 to |matchesByPosition|
      invariant r == Occupied(matchesByPosition, pos)
    {
      if matchesByPosition[pos].Some? {
        r := r + [Placed(pos, matchesByPosition[pos].value.team1, matchesByPosition[pos].value.team2)];
      }
    }
  }

  /** The loop building `finalMatches`. */
  method NumberSlots(matchesWithPosition: seq<Placed>, numMatches: nat) returns (r: seq<Numbered>)
    ensures r == FinalPairs(matchesWithPosition, numMatches)
  {
    r := [];
    for pairIndex := 0 to numMatches
      invariant r == FinalPairs(matchesWithPosition, pairIndex)
    {
      var match1 := FindPlaced(matchesWithPosition, pairIndex * 2);
      var match2 := FindPlaced(matchesWithPosition, pairIndex * 2 + 1);
      var matchData := if match1.Some? then match1 else match2;
      if matchData.Some? {
        r := r + [Numbered(pairIndex + 1, matchData.value.team1, matchData.value.team2)];
      }
    }
  }

  // ---------------------------------------------------------------------
  // Layout of the first round

  /** Seed-order facts used below: a permutation of 1..L whose positions
      2p and 2p + 1 hold seeds adding up to L + 1, the better one first. */
  ghost predicate PairedOrder(so: seq<int>, L: nat)
  {
    && L % 2 == 0
    && IsSeedPermutation(so, L)
    && (forall p :: 0 <= p < L / 2 ==> so[2 * p] + so[2 * p + 1] == L + 1 && so[2 * p] <= L / 2)
  }

  lemma StandardOrderPaired(L: nat)
    requires L % 2 == 0 && 2 <= L <= 1024
    ensures PairedOrder(StandardSeedOrder(L), L)
  {
    SeedOrderIsPermutation(L);
    SeedOrderPairs(L);
  }

  /** Pair `i` puts team `i` of the upper half against a team of the lower half. */
  ghost predicate TopBottomPairs(tp: seq<QualifiedTeam>, pairs: seq<Pair>)
  {
    && |pairs| == |tp| / 2
    && forall i :: 0 <= i < |pairs| ==> pairs[i].team1 == tp[i] && |tp| / 2 < GlobalSeed(tp, pairs[i].team2.teamId)
  }

  lemma PairsTopBottom(tp: seq<QualifiedTeam>)
    requires DistinctIds(tp)
    ensures TopBottomPairs(tp, Pairs(tp))
  {
    var nm := |tp| / 2;
    var opp := Opponents(tp, nm);
    OpponentsInRange(tp, nm);
    forall i | 0 <= i < nm
      ensures nm < GlobalSeed(tp, Pairs(tp)[i].team2.teamId)
    {
      FindIndexOfMember(tp, opp[i]);
    }
  }

  lemma SeedPosition(so: seq<int>, L: nat, v: int)
    requires IsSeedPermutation(so, L) && 1 <= v <= L
    ensures 0 <= IndexOf(so, v) < L && so[IndexOf(so, v)] == v
    ensures forall q :: 0 <= q < L && so[q] == v ==> q == IndexOf(so, v)
  {
  }

  lemma PairPositionIs(tp: seq<QualifiedTeam>, so: seq<int>, pairs: seq<Pair>, i: nat)
    requires DistinctIds(tp) && TopBottomPairs(tp, pairs) && i < |pairs|
    ensures PairPosition(tp, so, pairs[i]) == IndexOf(so, i + 1)
  {
    FindIndexOfMember(tp, i);
  }

  /** With every pair going to the position of its seed, and every position
      holding the seed of at most one such pair, position `q` holds, after
      the first `j` pairs, the pair of seed `so[q]` when it is among them. */
  lemma {:induction false} ByPositionOfSeeds(tp: seq<QualifiedTeam>, so: seq<int>, pairs: seq<Pair>, j: nat)
    requires j <= |pairs| && |tp| <= |so|
    requires forall i :: 0 <= i < |pairs| ==> PairPosition(tp, so, pairs[i]) == IndexOf(so, i + 1)
    requires forall v :: 1 <= v <= |pairs| ==> 0 <= IndexOf(so, v) < |tp|
    requires forall q :: 0 <= q < |tp| ==> 1 <= so[q]
    requires forall q {:trigger IndexOf(so, so[q])} :: 0 <= q < |tp| && so[q] <= |pairs| ==> IndexOf(so, so[q]) == q
    ensures forall q :: 0 <= q < |tp| ==>
      ByPosition(tp, so, pairs[..j], |tp|)[q] == if so[q] <= j then Some(pairs[so[q] - 1]) else None
  {
    var L := |tp|;
    if j > 0 {
      ByPositionOfSeeds(tp, so, pairs, j - 1);
      var pos := IndexOf(so, j);
      assert PairPosition(tp, so, pairs[j - 1]) == pos && 0 <= pos < L;
      assert forall q :: 0 <= q < L && so[q] == j ==> q == pos;
      SeedPairPlaced(tp, so, pairs, j, pos);
    }
  }

  /** The step of `ByPositionOfSeeds`: the `j`-th pair goes to `pos`, the
      one slot of seed `j`. */
  lemma SeedPairPlaced(tp: seq<QualifiedTeam>, so: seq<int>, pairs: seq<Pair>, j: nat, pos: nat)
    requires 0 < j <= |pairs| && |tp| <= |so| && pos < |tp| && so[pos] == j
    requires PairPosition(tp, so, pairs[j - 1]) == pos
    requires forall q :: 0 <= q < |tp| ==> 1 <= so[q]
    requires forall q :: 0 <= q < |tp| && so[q] == j ==> q == pos
    requires forall q :: 0 <= q < |tp| ==>
      ByPosition(tp, so, pairs[..j - 1], |tp|)[q] == if so[q] <= j - 1 then Some(pairs[so[q] - 1]) else None
    ensures forall q :: 0 <= q < |tp| ==>
      ByPosition(tp, so, pairs[..j], |tp|)[q] == if so[q] <= j then Some(pairs[so[q] - 1]) else None
  {
    var L := |tp|;
    var prev, cur := ByPosition(tp, so, pairs[..j - 1], L), ByPosition(tp, so, pairs[..j], L);
    assert cur == prev[pos := Some(pairs[j - 1])] by {
      ByPositionSnoc(tp, so, pairs, j - 1);
    }
    SeedSlotsStep(prev, cur, so, L, pos, pairs, j);
  }

  /** Writing the pair of seed `j` at the one slot whose seed is `j` extends
      "slot `q` holds the pair of seed `so[q]` once that pair is laid out"
      from the first `j - 1` pairs to the first `j`. */
  lemma SeedSlotsStep(prev: seq<Option<Pair>>, cur: seq<Option<Pair>>, so: seq<int>, L: nat, pos: nat, pairs: seq<Pair>, j: nat)
    requires 0 < j <= |pairs| && |prev| == L <= |so| && pos < L && so[pos] == j
    requires forall q :: 0 <= q < L ==> 1 <= so[q]
    requires forall q :: 0 <= q < L && so[q] == j ==> q == pos
    requires cur == prev[pos := Some(pairs[j - 1])]
    requires forall q :: 0 <= q < L ==> prev[q] == if so[q] <= j - 1 then Some(pairs[so[q] - 1]) else None
    ensures forall q :: 0 <= q < L ==> cur[q] == if so[q] <= j then Some(pairs[so[q] - 1]) else None
  {
  }

  /** In a first round of distinct teams paired top against bottom, with a
      paired seed order, position `q` holds the pair of seed `so[q]` once the
      first `j` pairs are laid out, if that pair is among them. */
  lemma ByPositionSeeds(tp: seq<QualifiedTeam>, so: seq<int>, pairs: seq<Pair>, j: nat)
    requires DistinctIds(tp) && TopBottomPairs(tp, pairs) && PairedOrder(so, |tp|) && j <= |pairs|
    ensures forall q :: 0 <= q < |tp| ==>
      ByPosition(tp, so, pairs[..j], |tp|)[q] == if so[q] <= j then Some(pairs[so[q] - 1]) else None
  {
    var L := |tp|;
    forall i | 0 <= i < |pairs|
      ensures PairPosition(tp, so, pairs[i]) == IndexOf(so, i + 1)
    {
      PairPositionIs(tp, so, pairs, i);
    }
    forall v | 1 <= v <= |pairs|
      ensures 0 <= IndexOf(so, v) < L
    {
      SeedPosition(so, L, v);
    }
    forall q | 0 <= q < L && so[q] <= |pairs|
      ensures IndexOf(so, so[q]) == q
    {
      SeedPosition(so, L, so[q]);
    }
    ByPositionOfSeeds(tp, so, pairs, j);
  }

  lemma {:induction false} FindPlacedAppend(a: seq<Placed>, b: seq<Placed>, pos: int)
    ensures FindPlaced(a + b, pos) == if FindPlaced(a, pos).Some? then FindPlaced(a, pos) else FindPlaced(b, pos)
  {
    if a != [] {
      assert (a + b)[1..] == a[1..] + b;
      FindPlacedAppend(a[1..], b, pos);
    } else {
      assert a + b == b;
    }
  }

  /** In the occupied list, looking up a position finds exactly what the
      position holds. */
  lemma {:induction false} FindOccupied(mbp: seq<Option<Pair>>, k: nat, q: int)
    requires k <= |mbp|
    ensures FindPlaced(Occupied(mbp, k), q)
         == if 0 <= q < k && mbp[q].Some? then Some(Placed(q, mbp[q].value.team1, mbp[q].value.team2)) else None
  {
    if k > 0 {
      FindOccupied(mbp, k - 1, q);
      var tail := match mbp[k - 1] {
        case Some(pr) => [Placed(k - 1, pr.team1, pr.team2)]
        case None => []
      };
      FindPlacedAppend(Occupied(mbp, k - 1), tail, q);
    }
  }

  lemma {:induction false} OccupiedSorted(mbp: seq<Option<Pair>>, k: nat)
    requires k <= |mbp|
    ensures forall i :: 0 <= i < |Occupied(mbp, k)| ==> 0 <= Occupied(mbp, k)[i].position < k
    ensures SortedByKey(Occupied(mbp, k), PositionKey)
  {
    if k > 0 {
      OccupiedSorted(mbp, k - 1);
    }
  }

  /** Bracket slot `p` finds the pair of seed `so[2p]` at position `2p`. */
  ghost predicate SlotsFilled(wp: seq<Placed>, so: seq<int>, pairs: seq<Pair>, k: nat)
  {
    forall p :: 0 <= p < k ==>
      && 2 * p < |so| && 1 <= so[2 * p] <= |pairs|
      && SlotMatch(wp, p) == Some(Placed(2 * p, pairs[so[2 * p] - 1].team1, pairs[so[2 * p] - 1].team2))
  }

  lemma SlotMatchesAt(tp: seq<QualifiedTeam>, so: seq<int>, pairs: seq<Pair>, wp: seq<Placed>)
    requires PairedOrder(so, |tp|) && |pairs| == |tp| / 2
    requires forall q :: 0 <= q < |tp| ==>
      FindPlaced(wp, q) == if so[q] <= |pairs| then Some(Placed(q, pairs[so[q] - 1].team1, pairs[so[q] - 1].team2)) else None
    ensures SlotsFilled(wp, so, pairs, |tp| / 2)
  {
    forall p | 0 <= p < |tp| / 2
      ensures 1 <= so[2 * p] <= |pairs|
      ensures SlotMatch(wp, p) == Some(Placed(2 * p, pairs[so[2 * p] - 1].team1, pairs[so[2 * p] - 1].team2))
    {
      assert FindPlaced(wp, 2 * p).Some?;
    }
  }

  lemma {:induction false} FinalPairsLayout(so: seq<int>, pairs: seq<Pair>, wp: seq<Placed>, k: nat)
    requires SlotsFilled(wp, so, pairs, k)
    ensures |FinalPairs(wp, k)| == k
    ensures forall p :: 0 <= p < k ==>
      FinalPairs(wp, k)[p] == Numbered(p + 1, pairs[so[2 * p] - 1].team1, pairs[so[2 * p] - 1].team2)
  {
    if k > 0 {
      FinalPairsLayout(so, pairs, wp, k - 1);
      var p := k - 1;
      var md := Placed(2 * p, pairs[so[2 * p] - 1].team1, pairs[so[2 * p] - 1].team2);
      assert SlotMatch(wp, p) == Some(md);
      assert FinalPairs(wp, k) == FinalPairs(wp, k - 1) + [Numbered(k, md.team1, md.team2)];
    }
  }

  lemma PlaceMatchesLayout(tp: seq<QualifiedTeam>, so: seq<int>, pairs: seq<Pair>, roundName: string)
    requires DistinctIds(tp) && TopBottomPairs(tp, pairs) && PairedOrder(so, |tp|)
    ensures var r := PlaceMatches(tp, so, pairs, roundName);
      && |r| == |tp| / 2
      && forall p :: 0 <= p < |tp| / 2 ==>
           r[p] == NumberedRow(Numbered(p + 1, pairs[so[2 * p] - 1].team1, pairs[so[2 * p] - 1].team2), roundName)
  {
    var L := |tp|;
    var wp := SortByKey(Occupied(ByPosition(tp, so, pairs, L), L), PositionKey);
    PlacedLookup(tp, so, pairs);
    SlotMatchesAt(tp, so, pairs, wp);
    FinalPairsLayout(so, pairs, wp, L / 2);
    RowsInOrder(FinalPairs(wp, L / 2), roundName);
  }

  /** Rows already numbered 1, 2, ... are left alone by the final sort. */
  lemma RowsInOrder(fp: seq<Numbered>, roundName: string)
    requires forall p :: 0 <= p < |fp| ==> fp[p].bracketPos == p + 1
    ensures SortByKey(Rows(fp, roundName), BracketPosKey) == Rows(fp, roundName)
  {
    var rows := Rows(fp, roundName);
    assert SortedByKey(rows, BracketPosKey);
    SortByKeyOfSorted(rows, BracketPosKey);
  }

  /** After sorting, `matchesWithPosition` has at position `q` the pair of
      global seed `so[q]` when that seed is in the upper half, and nothing
      otherwise. */
  lemma PlacedLookup(tp: seq<QualifiedTeam>, so: seq<int>, pairs: seq<Pair>)
    requires DistinctIds(tp) && TopBottomPairs(tp, pairs) && PairedOrder(so, |tp|)
    ensures var wp := SortByKey(Occupied(ByPosition(tp, so, pairs, |tp|), |tp|), PositionKey);
      forall q :: 0 <= q < |tp| ==>
        FindPlaced(wp, q) == if so[q] <= |pairs| then Some(Placed(q, pairs[so[q] - 1].team1, pairs[so[q] - 1].team2)) else None
  {
    var L := |tp|;
    var mbp := ByPosition(tp, so, pairs, L);
    assert pairs[..|pairs|] == pairs;
    ByPositionSeeds(tp, so, pairs, |pairs|);
    OccupiedSorted(mbp, L);
    var occ := Occupied(mbp, L);
    SortByKeyOfSorted(occ, PositionKey);
    forall q | 0 <= q < L
      ensures FindPlaced(occ, q) == if so[q] <= |pairs| then Some(Placed(q, pairs[so[q] - 1].team1, pairs[so[q] - 1].team2)) else None
    {
      FindOccupied(mbp, L, q);
    }
  }

  /** Slot `p` of `r` is match `p + 1` of round `roundName`: the team of
      upper-half seed `so[2p]` against its opponent `opp[so[2p] - 1]`, with
      no sources. */
  ghost predicate LaidOut(r: seq<PlayoffMatch>, tp: seq<QualifiedTeam>, so: seq<int>, opp: seq<int>, roundName: string)
  {
    && |r| == |tp| / 2
    && forall p :: 0 <= p < |tp| / 2 ==>
         && 2 * p < |so| && 1 <= so[2 * p] <= |tp| / 2 && so[2 * p] - 1 < |opp|
         && |tp| / 2 <= opp[so[2 * p] - 1] < |tp|
         && r[p] == PlayoffMatch(roundName, p + 1, Some(tp[so[2 * p] - 1].teamId),
                                 Some(tp[opp[so[2 * p] - 1]].teamId), None, None)
  }

  /** Pair `i` is team `i` against its chosen opponent in the lower half. */
  lemma PairsEntries(tp: seq<QualifiedTeam>)
    ensures var opp, pairs := Opponents(tp, |tp| / 2), Pairs(tp);
      && |opp| == |pairs| == |tp| / 2
      && forall i :: 0 <= i < |tp| / 2 ==> |tp| / 2 <= opp[i] < |tp| && pairs[i] == Pair(tp[i], tp[opp[i]])
  {
    OpponentsInRange(tp, |tp| / 2);
  }

  /** For an even number `L` of teams from 2 to 1024 with distinct ids, the
      first round has `L / 2` matches numbered 1..L/2 from the top; slot
      `p` holds the pair of global seed `so[2p]` (a seed of the upper half)
      against the opponent chosen for it, and no match has a source. */
  lemma FirstRoundLayout(tp: seq<QualifiedTeam>, roundName: string)
    requires DistinctIds(tp) && |tp| % 2 == 0 && 2 <= |tp| <= 1024
    ensures LaidOut(FirstRoundMatches(tp, roundName), tp, StandardSeedOrder(|tp|), Opponents(tp, |tp| / 2), roundName)
  {
    var L := |tp|;
    var so, opp, pairs := StandardSeedOrder(L), Opponents(tp, L / 2), Pairs(tp);
    StandardOrderPaired(L);
    PairsTopBottom(tp);
    PairsEntries(tp);
    var r := PlaceMatches(tp, so, pairs, roundName);
    PlaceMatchesLayout(tp, so, pairs, roundName);
    LayoutByOpponents(tp, so, opp, pairs, r, roundName);
  }

  /** The first round has one match per pair of teams, numbered from 1,
      all in round `roundName`. */
  lemma FirstRoundNumbering(tp: seq<QualifiedTeam>, roundName: string)
    requires DistinctIds(tp) && |tp| % 2 == 0 && 2 <= |tp| <= 1024
    ensures var r := FirstRoundMatches(tp, roundName);
      && |r| == |tp| / 2
      && forall p :: 0 <= p < |r| ==> r[p].round == roundName && r[p].bracketPos == p + 1
  {
    FirstRoundLayout(tp, roundName);
  }

  /** Two teams meet in a single match, the first-ranked as team 1. */
  lemma FirstRoundOfTwo(tp: seq<QualifiedTeam>, roundName: string)
    requires |tp| == 2 && tp[0].teamId != tp[1].teamId
    ensures FirstRoundMatches(tp, roundName) == [PlayoffMatch(roundName, 1, Some(tp[0].teamId), Some(tp[1].teamId), None, None)]
  {
    FirstRoundLayout(tp, roundName);
    OpponentsInRange(tp, 1);
    LaidOutTwo(FirstRoundMatches(tp, roundName), tp, StandardSeedOrder(|tp|), Opponents(tp, 1), roundName);
  }

  lemma LaidOutTwo(r: seq<PlayoffMatch>, tp: seq<QualifiedTeam>, so: seq<int>, opp: seq<int>, roundName: string)
    requires |tp| == 2 && LaidOut(r, tp, so, opp, roundName) && |opp| == 1 && 1 <= opp[0] < 2
    ensures r == [PlayoffMatch(roundName, 1, Some(tp[0].teamId), Some(tp[1].teamId), None, None)]
  {
    assert r == [r[0]];
  }

  lemma LayoutByOpponents(tp: seq<QualifiedTeam>, so: seq<int>, opp: seq<int>, pairs: seq<Pair>,
                          r: seq<PlayoffMatch>, roundName: string)
    requires PairedOrder(so, |tp|) && |opp| == |pairs| == |tp| / 2
    requires forall i :: 0 <= i < |tp| / 2 ==> |tp| / 2 <= opp[i] < |tp| && pairs[i] == Pair(tp[i], tp[opp[i]])
    requires |r| == |tp| / 2
    requires forall p :: 0 <= p < |tp| / 2 ==>
      r[p] == NumberedRow(Numbered(p + 1, pairs[so[2 * p] - 1].team1, pairs[so[2 * p] - 1].team2), roundName)
    ensures LaidOut(r, tp, so, opp, roundName)
  {
    forall p | 0 <= p < |tp| / 2
      ensures 1 <= so[2 * p] <= |tp| / 2 && |tp| / 2 <= opp[so[2 * p] - 1] < |tp|
      ensures r[p] == PlayoffMatch(roundName, p + 1, Some(tp[so[2 * p] - 1].teamId),
                                   Some(tp[opp[so[2 * p] - 1]].teamId), None, None)
    {
      var sd := so[2 * p];
      assert pairs[sd - 1] == Pair(tp[sd - 1], tp[opp[sd - 1]]);
    }
  }

  /** The mirror opponent is taken without checking `usedIndices`: with
      winners A, B, C of groups 1, 2, 3 and the runner-up of group 1, team A
      is moved to C, and B then also gets its mirror C, so C plays twice and
      the runner-up not at all. */
  lemma DuplicateOpponentExample()
    ensures var tp := [QualifiedTeam(1, 1, 1, 0), QualifiedTeam(2, 2, 1, 0),
                       QualifiedTeam(3, 3, 1, 0), QualifiedTeam(4, 1, 2, 0)];
      && Opponents(tp, 2) == [2, 2]
      && Pairs(tp) == [Pair(tp[0], tp[2]), Pair(tp[1], tp[2])]
  {
    var tp := [QualifiedTeam(1, 1, 1, 0), QualifiedTeam(2, 2, 1, 0),
               QualifiedTeam(3, 3, 1, 0), QualifiedTeam(4, 1, 2, 0)];
    assert LastFree(tp, {}, 1, 2, 4) == 2 by {
      assert !Substitute(tp, {}, 1, 3);
      assert Substitute(tp, {}, 1, 2);
    }
    assert Opponent(tp, {}, 0) == 2;
    assert Opponents(tp, 1) == [2];
    assert Opponent(tp, {2}, 1) == 2;
    assert SetOf([2]) == {2} by {
      assert [2][0] == 2;
    }
    assert Opponents(tp, 2) == [2, 2];
  }
}
