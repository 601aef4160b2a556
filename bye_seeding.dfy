/** Placement of the teams that skip the first round into the positions of
    the next round (`seedByeTeams`). Group winners take the best positions
    in ranking order; then each still-empty head position (seed 1 or 2)
    takes the first runner-up, in 2E, 2D, ... order, that is not already
    placed and whose group winner sits in the other half. The later phases
    of the source (remaining runners-up, third-placed teams) are commented
    out there and are not part of the behaviour. */
module ByeSeeding {
  import opened Common
  import opened Collections
  import opened PlayoffTeams
  import opened RoundSizing
  import opened SeedOrder

  /** Sort key of `(a, b) => seedOrder[a] - seedOrder[b]`. */
  function SeedKey(order: seq<int>): int -> int
  {
    p => if 0 <= p < |order| then order[p] else 0
  }

  /** The bracket positions from the best seed to the worst. */
  function PositionsByQuality(n: nat): seq<int>
  {
    SortByKey(Range(n), SeedKey(StandardSeedOrder(n)))
  }

  /** `isTopHalf(pos) ? 0 : 1`. */
  function HalfOf(pos: int, n: nat): int
  {
    if pos < n / 2 then 0 else 1
  }

  lemma SortedPositionsSeeds(so: seq<int>, n: nat)
    requires IsSeedPermutation(so, n)
    ensures var pbq := SortByKey(Range(n), SeedKey(so));
      forall k :: 0 <= k < n ==> 0 <= pbq[k] < n && so[pbq[k]] == k + 1
  {
    var pbq := SortByKey(Range(n), SeedKey(so));
    var key := SeedKey(so);
    SortedPositionKeys(so, n);
    SortedDistinctKeysAt(pbq, key, n);
    PositionsRange(so, n);
  }

  lemma SortedPositionKeys(so: seq<int>, n: nat)
    requires IsSeedPermutation(so, n)
    ensures var pbq, key := SortByKey(Range(n), SeedKey(so)), SeedKey(so);
      && |pbq| == n
      && (forall a, b :: 0 <= a < b < n ==> key(pbq[a]) != key(pbq[b]))
      && (forall a :: 0 <= a < n ==> 1 <= key(pbq[a]) <= n)
  {
    var pbq := SortByKey(Range(n), SeedKey(so));
    var key := SeedKey(so);
    PositionsRange(so, n);
    forall a, b | 0 <= a < b < n
      ensures key(pbq[a]) != key(pbq[b])
    {
      assert key(pbq[a]) == so[pbq[a]] && key(pbq[b]) == so[pbq[b]];
    }
    forall a | 0 <= a < n
      ensures 1 <= key(pbq[a]) <= n
    {
      assert key(pbq[a]) == so[pbq[a]];
    }
  }

  lemma PositionsRange(so: seq<int>, n: nat)
    ensures var pbq := SortByKey(Range(n), SeedKey(so));
      |pbq| == n && Distinct(pbq) && forall k :: 0 <= k < n ==> 0 <= pbq[k] < n
  {
    var pbq, range := SortByKey(Range(n), SeedKey(so)), Range(n);
    assert Distinct(range);
    DistinctOfSameMultiset(pbq, range);
    forall k | 0 <= k < n
      ensures 0 <= pbq[k] < n
    {
      assert pbq[k] in multiset(pbq);
      assert pbq[k] in multiset(range);
      var j :| 0 <= j < n && range[j] == pbq[k];
    }
  }

  /** `pbq` lists the positions 0..n-1 once each, by seed: the position at
      index k holds seed k + 1, and the position holding seed v is at index
      v - 1. */
  ghost predicate PositionsBySeed(pbq: seq<int>, so: seq<int>, n: nat)
  {
    Distinct(pbq) && SeedIndexed(so, pbq, n)
  }

  lemma SortedPositionsInverse(so: seq<int>, n: nat)
    requires IsSeedPermutation(so, n)
    ensures PositionsBySeed(SortByKey(Range(n), SeedKey(so)), so, n)
  {
    var pbq := SortByKey(Range(n), SeedKey(so));
    PositionsRange(so, n);
    SortedPositionsSeeds(so, n);
    forall p | 0 <= p < n
      ensures pbq[so[p] - 1] == p
    {
      var q := pbq[so[p] - 1];
      assert so[q] == so[p];
    }
  }

  /** Position `PositionsByQuality(n)[k]` is the one holding seed `k + 1`,
      and the position holding seed `v` comes `v`-th in the list. */
  lemma PositionsByQualityInverse(n: nat)
    ensures PositionsBySeed(PositionsByQuality(n), StandardSeedOrder(n), n)
  {
    var so := StandardSeedOrder(n);
    if n >= 1 {
      SeedOrderIsPermutation(n);
      SortedPositionsInverse(so, n);
    } else {
      assert Range(n) == [];
      assert PositionsByQuality(n) == [];
    }
  }

  /** The positions not yet taken after `i` rounds of `pickBestPosition()`. */
  function Available(pbq: seq<int>, i: nat): set<int>
  {
    set k | i <= k < |pbq| :: pbq[k]
  }

  /** The index in `pbq` of the first position still in `available`, or -1. */
  function FirstAvailableIndex(pbq: seq<int>, available: set<int>): (k: int)
    ensures -1 <= k < |pbq|
    ensures k >= 0 ==> pbq[k] in available && forall j :: 0 <= j < k ==> pbq[j] !in available
    ensures k == -1 <==> forall j :: 0 <= j < |pbq| ==> pbq[j] !in available
  {
    if pbq == [] then -1
    else if pbq[0] in available then 0
    else
      var k := FirstAvailableIndex(pbq[1..], available);
      assert forall j :: 1 <= j < |pbq| ==> pbq[j] == pbq[1..][j - 1];
      if k == -1 then -1 else k + 1
  }

  /** `pickBestPosition()`: the best position still available, if any. */
  method PickBestPosition(positionsByQuality: seq<int>, available: set<int>) returns (pos: Option<int>)
    ensures var k := FirstAvailableIndex(positionsByQuality, available);
      pos == if k == -1 then None else Some(positionsByQuality[k])
  {
    var i := 0;
    while i < |positionsByQuality|
      invariant 0 <= i <= |positionsByQuality|
      invariant forall j :: 0 <= j < i ==> positionsByQuality[j] !in available
    {
      if positionsByQuality[i] in available {
        return Some(positionsByQuality[i]);
      }
      i := i + 1;
    }
    return None;
  }

  lemma AvailableAfter(pbq: seq<int>, i: nat)
    requires Distinct(pbq)
    ensures FirstAvailableIndex(pbq, Available(pbq, i)) == if i < |pbq| then i else -1
    ensures i < |pbq| ==> Available(pbq, i) - {pbq[i]} == Available(pbq, i + 1)
  {
    var av := Available(pbq, i);
    var k := FirstAvailableIndex(pbq, av);
    if i < |pbq| {
      assert pbq[i] in av;
    } else {
      assert av == {};
    }
  }

  /** The slots after the first `m` group winners took the best positions,
      winner `k` at position `pbq[k]`. */
  function FirstsPlaced(firsts: seq<QualifiedTeam>, pbq: seq<int>, n: nat, m: nat): (r: seq<Option<QualifiedTeam>>)
    ensures |r| == n
  {
    if m == 0 || m > |firsts| || m > |pbq| then seq(n, _ => None)
    else
      var prev := FirstsPlaced(firsts, pbq, n, m - 1);
      if 0 <= pbq[m - 1] < n then prev[pbq[m - 1] := Some(firsts[m - 1])] else prev
  }

  /** `groupHalf` after the first `m` winners: each winner's group order
      mapped to the half of its position, later winners overwriting. */
  function HalfMap(firsts: seq<QualifiedTeam>, pbq: seq<int>, n: nat, m: nat): map<int, int>
  {
    if m == 0 || m > |firsts| || m > |pbq| then map[]
    else HalfMap(firsts, pbq, n, m - 1)[firsts[m - 1].groupOrder := HalfOf(pbq[m - 1], n)]
  }

  ghost predicate DistinctGroupOrders(teams: seq<QualifiedTeam>)
  {
    forall i, j :: 0 <= i < j < |teams| ==> teams[i].groupOrder != teams[j].groupOrder
  }

  /** With one winner per group, `groupHalf` records the half of each
      placed winner and nothing else. */
  lemma {:induction false} HalfMapOfWinners(firsts: seq<QualifiedTeam>, pbq: seq<int>, n: nat, m: nat)
    requires m <= |firsts| && m <= |pbq| && DistinctGroupOrders(firsts)
    ensures var gh := HalfMap(firsts, pbq, n, m);
      forall k :: 0 <= k < m ==> firsts[k].groupOrder in gh && gh[firsts[k].groupOrder] == HalfOf(pbq[k], n)
  {
    if m > 0 {
      HalfMapOfWinners(firsts, pbq, n, m - 1);
    }
  }

  lemma HalfMapValues(firsts: seq<QualifiedTeam>, pbq: seq<int>, n: nat, m: nat)
    ensures var gh := HalfMap(firsts, pbq, n, m);
      forall g :: g in gh ==> gh[g] == 0 || gh[g] == 1
    decreases m
  {
    if !(m == 0 || m > |firsts| || m > |pbq|) {
      HalfMapValues(firsts, pbq, n, m - 1);
    }
  }

  /** A head position: a position whose seed is 1 or 2. */
  function IsHeadPosition(order: seq<int>): int -> bool
  {
    p => 0 <= p < |order| && order[p] <= 2
  }

  /** `oppositeHalfOfFirst === undefined || oppositeHalfOfFirst === half`:
      the runner-up's group has no placed winner, or the winner is in the
      other half. */
  predicate OppositeToWinner(t: QualifiedTeam, groupHalf: map<int, int>, half: int)
  {
    t.groupOrder !in groupHalf || (if groupHalf[t.groupOrder] == 0 then 1 else 0) == half
  }

  predicate EligibleSecond(t: QualifiedTeam, placed: set<int>, groupHalf: map<int, int>, half: int)
  {
    t.teamId !in placed && OppositeToWinner(t, groupHalf, half)
  }

  /** `seconds[k]` is the first runner-up eligible for a head in this half. */
  predicate FirstEligibleAt(seconds: seq<QualifiedTeam>, k: int, placed: set<int>, groupHalf: map<int, int>, half: int)
  {
    && 0 <= k < |seconds|
    && EligibleSecond(seconds[k], placed, groupHalf, half)
    && forall i :: 0 <= i < k ==> !EligibleSecond(seconds[i], placed, groupHalf, half)
  }

  /** `seconds.find(...)` for a head in the given half: the first runner-up
      not yet placed whose group winner is not in that half. */
  function FindSecond(seconds: seq<QualifiedTeam>, placed: set<int>, groupHalf: map<int, int>, half: int): (r: Option<QualifiedTeam>)
    ensures r.Some? ==> exists k :: FirstEligibleAt(seconds, k, placed, groupHalf, half) && seconds[k] == r.value
    ensures r.None? <==> forall i :: 0 <= i < |seconds| ==> !EligibleSecond(seconds[i], placed, groupHalf, half)
  {
    if seconds == [] then None
    else if EligibleSecond(seconds[0], placed, groupHalf, half) then Some(seconds[0])
    else
      assert forall i :: 1 <= i < |seconds| ==> seconds[i] == seconds[1..][i - 1];
      var r := FindSecond(seconds[1..], placed, groupHalf, half);
      assert r.Some? ==> exists k :: FirstEligibleAt(seconds, k, placed, groupHalf, half) && seconds[k] == r.value by {
        if r.Some? {
          var k :| FirstEligibleAt(seconds[1..], k, placed, groupHalf, half) && seconds[1..][k] == r.value;
          assert FirstEligibleAt(seconds, k + 1, placed, groupHalf, half);
        }
      }
      r
  }

  /** The state `seedByeTeams` threads through phase 2a. */
  datatype SeedState = SeedState(slots: seq<Option<QualifiedTeam>>, available: set<int>, placedSeconds: set<int>)

  /** One iteration of the head loop. */
  function PlaceHead(st: SeedState, pos: int, seconds: seq<QualifiedTeam>, groupHalf: map<int, int>, n: nat): (r: SeedState)
    ensures |r.slots| == |st.slots|
  {
    if pos !in st.available || !(0 <= pos < |st.slots|) then st
    else
      match FindSecond(seconds, st.placedSeconds, groupHalf, HalfOf(pos, n))
      case None => st
      case Some(t) => SeedState(st.slots[pos := Some(t)], st.available - {pos}, st.placedSeconds + {t.teamId})
  }

  function PlaceHeads(st: SeedState, heads: seq<int>, seconds: seq<QualifiedTeam>, groupHalf: map<int, int>, n: nat): (r: SeedState)
    ensures |r.slots| == |st.slots|
  {
    if heads == [] then st
    else PlaceHead(PlaceHeads(st, heads[..|heads| - 1], seconds, groupHalf, n), heads[|heads| - 1], seconds, groupHalf, n)
  }

  /** The result of `seedByeTeams(teams, n)`. */
  function SeedByes(teams: seq<QualifiedTeam>, n: nat): (r: seq<Option<QualifiedTeam>>)
    ensures |r| == n
  {
    if |teams| == 0 then seq(n, _ => None)
    else
      var pbq := PositionsByQuality(n);
      var firsts := Firsts(teams);
      var m := Min(|firsts|, n);
      var start := SeedState(FirstsPlaced(firsts, pbq, n, m), Available(pbq, m), {});
      var heads := Filter(pbq, IsHeadPosition(StandardSeedOrder(n)));
      PlaceHeads(start, heads, Seconds(teams), HalfMap(firsts, pbq, n, m), n).slots
  }

  method SeedByeTeams(teams: seq<QualifiedTeam>, numPositions: nat) returns (seeded: seq<Option<QualifiedTeam>>)
    ensures seeded == SeedByes(teams, numPositions)
  {
    var slots := new Option<QualifiedTeam>[numPositions](_ => None);
    if |teams| == 0 {
      seeded := slots[..];
    } else {
      var seedOrder := GetStandardSeedOrder(numPositions);
      var positionsByQuality := SortByKey(Range(numPositions), SeedKey(seedOrder));
      var firsts := Firsts(teams);
      var seconds := Seconds(teams);
      PositionsRange(seedOrder, numPositions);
      assert slots[..] == FirstsPlaced(firsts, positionsByQuality, numPositions, 0);
      // Phase 1: the winners take the best positions in order.
      var available, groupHalf := PlaceWinners(slots, positionsByQuality, firsts);
      // Phase 2a: empty head positions take an eligible runner-up.
      var heads := Filter(positionsByQuality, IsHeadPosition(seedOrder));
      PlaceHeadSeconds(slots, available, heads, seconds, groupHalf);
      seeded := slots[..];
    }
  }

  /** Phase 1 of `seedByeTeams`: each group winner in turn takes the best
      position still available, and its group's half is recorded. */
  method PlaceWinners(slots: array<Option<QualifiedTeam>>, positionsByQuality: seq<int>, firsts: seq<QualifiedTeam>)
      returns (available: set<int>, groupHalf: map<int, int>)
    requires |positionsByQuality| == slots.Length && Distinct(positionsByQuality)
    requires forall k :: 0 <= k < slots.Length ==> 0 <= positionsByQuality[k] < slots.Length
    requires slots[..] == FirstsPlaced(firsts, positionsByQuality, slots.Length, 0)
    modifies slots
    ensures var m := Min(|firsts|, slots.Length);
      && slots[..] == FirstsPlaced(firsts, positionsByQuality, slots.Length, m)
      && available == Available(positionsByQuality, m)
      && groupHalf == HalfMap(firsts, positionsByQuality, slots.Length, m)
  {
    var n := slots.Length;
    ghost var pbq := positionsByQuality;
    available := set k | 0 <= k < |positionsByQuality| :: positionsByQuality[k];
    var halfSize := n / 2;
    groupHalf := map[];
    var i := 0;
    while i < |firsts|
      invariant i <= |firsts| && i <= n
      invariant slots[..] == FirstsPlaced(firsts, pbq, n, i)
      invariant available == Available(pbq, i)
      invariant groupHalf == HalfMap(firsts, pbq, n, i)
    {
      AvailableAfter(pbq, i);
      var pos := PickBestPosition(positionsByQuality, available);
      if pos.None? {
        break;
      }
      WinnerStep(firsts, pbq, n, i);
      ghost var before := slots[..];
      slots[pos.value] := Some(firsts[i]);
      assert slots[..] == before[pbq[i] := Some(firsts[i])];
      available := available - {pos.value};
      groupHalf := groupHalf[firsts[i].groupOrder := if pos.value < halfSize then 0 else 1];
      i := i + 1;
    }
    AvailableAfter(pbq, i);
  }

  lemma WinnerStep(firsts: seq<QualifiedTeam>, pbq: seq<int>, n: nat, i: nat)
    requires |pbq| == n && Distinct(pbq) && forall k :: 0 <= k < n ==> 0 <= pbq[k] < n
    requires i < |firsts| && i < n
    ensures FirstsPlaced(firsts, pbq, n, i + 1) == FirstsPlaced(firsts, pbq, n, i)[pbq[i] := Some(firsts[i])]
    ensures HalfMap(firsts, pbq, n, i + 1) == HalfMap(firsts, pbq, n, i)[firsts[i].groupOrder := HalfOf(pbq[i], n)]
  {
  }

  /** Phase 2a of `seedByeTeams`: each head position still empty, best
      first, takes the first eligible runner-up. */
  method PlaceHeadSeconds(slots: array<Option<QualifiedTeam>>, available0: set<int>, heads: seq<int>,
                          seconds: seq<QualifiedTeam>, groupHalf: map<int, int>)
    modifies slots
    ensures slots[..] == PlaceHeads(SeedState(old(slots[..]), available0, {}), heads, seconds, groupHalf, slots.Length).slots
  {
    ghost var start := SeedState(slots[..], available0, {});
    var available := available0;
    var placedSecondIds: set<int> := {};
    var j := 0;
    while j < |heads|
      invariant 0 <= j <= |heads|
      invariant SeedState(slots[..], available, placedSecondIds)
             == PlaceHeads(start, heads[..j], seconds, groupHalf, slots.Length)
    {
      assert heads[..j + 1][..j] == heads[..j];
      var pos := heads[j];
      if pos in available && 0 <= pos < slots.Length {
        var team := FindSecond(seconds, placedSecondIds, groupHalf, HalfOf(pos, slots.Length));
        if team.Some? {
          slots[pos] := team;
          available := available - {pos};
          placedSecondIds := placedSecondIds + {team.value.teamId};
        }
      }
      j := j + 1;
    }
    assert heads[..j] == heads;
  }

  // Properties of the placement.

  /** Position-indexed facts relating a seed order to its positions by quality. */
  ghost predicate SeedIndexed(so: seq<int>, pbq: seq<int>, n: nat)
  {
    && |pbq| == n && |so| >= n
    && (forall k :: 0 <= k < n ==> 0 <= pbq[k] < n && so[pbq[k]] == k + 1)
    && (forall p :: 0 <= p < n ==> 1 <= so[p] <= n && pbq[so[p] - 1] == p)
  }

  lemma {:induction false} FirstsPlacedSeeds(firsts: seq<QualifiedTeam>, pbq: seq<int>, so: seq<int>, n: nat, m: nat)
    requires SeedIndexed(so, pbq, n) && m <= |firsts| && m <= n
    ensures forall p :: 0 <= p < n ==>
      FirstsPlaced(firsts, pbq, n, m)[p] == if so[p] <= m then Some(firsts[so[p] - 1]) else None
  {
    if m > 0 {
      FirstsPlacedSeeds(firsts, pbq, so, n, m - 1);
    }
  }

  lemma AvailableSeeds(pbq: seq<int>, so: seq<int>, n: nat, m: nat)
    requires SeedIndexed(so, pbq, n)
    ensures forall p :: p in Available(pbq, m) <==> 0 <= p < n && so[p] > m
  {
    forall p | 0 <= p < n && so[p] > m
      ensures p in Available(pbq, m)
    {
      assert pbq[so[p] - 1] == p;
    }
  }

  /** What holds of the slots throughout phase 2a: every position whose seed
      is within the first `m` holds that winner; any other filled position
      is a head holding a placed runner-up whose group winner is not in its
      half; no runner-up fills two heads; and a position is available exactly
      when it is empty. */
  ghost predicate GoodState(st: SeedState, so: seq<int>, firsts: seq<QualifiedTeam>, seconds: seq<QualifiedTeam>,
                            m: nat, gh: map<int, int>, n: nat)
  {
    && |st.slots| == n && |so| >= n
    && (forall p :: p in st.available <==> 0 <= p < n && st.slots[p].None?)
    && (forall p :: 0 <= p < n && so[p] <= m ==> 1 <= so[p] <= |firsts| && st.slots[p] == Some(firsts[so[p] - 1]))
    && (forall p :: 0 <= p < n && so[p] > m && st.slots[p].Some? ==>
          && so[p] <= 2 && st.slots[p].value in seconds
          && st.slots[p].value.teamId in st.placedSeconds
          && OppositeToWinner(st.slots[p].value, gh, HalfOf(p, n)))
    && (forall p, q :: 0 <= p < q < n && so[p] > m && so[q] > m && st.slots[p].Some? && st.slots[q].Some? ==>
          st.slots[p].value.teamId != st.slots[q].value.teamId)
  }

  lemma PlaceHeadGood(st: SeedState, pos: int, so: seq<int>, firsts: seq<QualifiedTeam>, seconds: seq<QualifiedTeam>,
                      m: nat, gh: map<int, int>, n: nat)
    requires GoodState(st, so, firsts, seconds, m, gh, n)
    requires 0 <= pos < n && so[pos] <= 2
    ensures GoodState(PlaceHead(st, pos, seconds, gh, n), so, firsts, seconds, m, gh, n)
  {
  }

  lemma {:induction false} PlaceHeadsGood(st: SeedState, heads: seq<int>, so: seq<int>, firsts: seq<QualifiedTeam>,
                                          seconds: seq<QualifiedTeam>, m: nat, gh: map<int, int>, n: nat)
    requires GoodState(st, so, firsts, seconds, m, gh, n)
    requires forall k :: 0 <= k < |heads| ==> IsHeadPosition(so)(heads[k])
    requires |so| == n
    ensures GoodState(PlaceHeads(st, heads, seconds, gh, n), so, firsts, seconds, m, gh, n)
  {
    if heads != [] {
      var init := heads[..|heads| - 1];
      PlaceHeadsGood(st, init, so, firsts, seconds, m, gh, n);
      PlaceHeadGood(PlaceHeads(st, init, seconds, gh, n), heads[|heads| - 1], so, firsts, seconds, m, gh, n);
    }
  }

  lemma StartGood(firsts: seq<QualifiedTeam>, seconds: seq<QualifiedTeam>, pbq: seq<int>, so: seq<int>, n: nat, m: nat, gh: map<int, int>)
    requires SeedIndexed(so, pbq, n) && m <= |firsts| && m <= n
    ensures GoodState(SeedState(FirstsPlaced(firsts, pbq, n, m), Available(pbq, m), {}), so, firsts, seconds, m, gh, n)
  {
    FirstsPlacedSeeds(firsts, pbq, so, n, m);
    AvailableSeeds(pbq, so, n, m);
  }

  /** `available` holds exactly the empty positions. */
  ghost predicate AvailableEmpty(st: SeedState)
  {
    forall p :: p in st.available <==> 0 <= p < |st.slots| && st.slots[p].None?
  }

  /** What phase 2a establishes about the heads it has visited: every
      recorded runner-up id sits in some slot, and a visited head still empty
      had no eligible runner-up left, given the runners-up placed so far. */
  ghost predicate HeadsSettled(st: SeedState, visited: seq<int>, seconds: seq<QualifiedTeam>, gh: map<int, int>, n: nat)
  {
    && (forall id :: id in st.placedSeconds ==>
          exists q :: 0 <= q < |st.slots| && st.slots[q].Some? && st.slots[q].value.teamId == id)
    && (forall p :: p in visited && 0 <= p < |st.slots| && st.slots[p].None? ==>
          forall i :: 0 <= i < |seconds| ==> !EligibleSecond(seconds[i], st.placedSeconds, gh, HalfOf(p, n)))
  }

  lemma PlaceHeadSettled(st: SeedState, visited: seq<int>, pos: int, seconds: seq<QualifiedTeam>, gh: map<int, int>, n: nat)
    requires AvailableEmpty(st) && HeadsSettled(st, visited, seconds, gh, n)
    ensures AvailableEmpty(PlaceHead(st, pos, seconds, gh, n))
    ensures HeadsSettled(PlaceHead(st, pos, seconds, gh, n), visited + [pos], seconds, gh, n)
  {
    var r := PlaceHead(st, pos, seconds, gh, n);
    if r != st {
      var t := r.slots[pos].value;
      forall id | id in r.placedSeconds
        ensures exists q :: 0 <= q < |r.slots| && r.slots[q].Some? && r.slots[q].value.teamId == id
      {
        if id == t.teamId {
          assert r.slots[pos].Some?;
        } else {
          var q :| 0 <= q < |st.slots| && st.slots[q].Some? && st.slots[q].value.teamId == id;
          assert r.slots[q] == st.slots[q];
        }
      }
    }
  }

  lemma {:induction false} PlaceHeadsSettled(st: SeedState, heads: seq<int>, seconds: seq<QualifiedTeam>, gh: map<int, int>, n: nat)
    requires AvailableEmpty(st) && st.placedSeconds == {}
    ensures AvailableEmpty(PlaceHeads(st, heads, seconds, gh, n))
    ensures HeadsSettled(PlaceHeads(st, heads, seconds, gh, n), heads, seconds, gh, n)
  {
    if heads != [] {
      var init := heads[..|heads| - 1];
      PlaceHeadsSettled(st, init, seconds, gh, n);
      PlaceHeadSettled(PlaceHeads(st, init, seconds, gh, n), init, heads[|heads| - 1], seconds, gh, n);
      assert init + [heads[|heads| - 1]] == heads;
    }
  }

  /** Phase 2a leaves a head empty only when no runner-up could fill it:
      every runner-up whose group winner is not in that half already sits
      in a slot. */
  ghost predicate HeadsExhausted(r: seq<Option<QualifiedTeam>>, so: seq<int>, seconds: seq<QualifiedTeam>, gh: map<int, int>, n: nat)
    requires |r| == n && |so| >= n
  {
    forall p :: 0 <= p < n && so[p] <= 2 && r[p].None? ==>
      forall i :: 0 <= i < |seconds| && OppositeToWinner(seconds[i], gh, HalfOf(p, n)) ==>
        exists q :: 0 <= q < n && r[q].Some? && r[q].value.teamId == seconds[i].teamId
  }

  lemma SettledExhausted(st: SeedState, pbq: seq<int>, so: seq<int>, seconds: seq<QualifiedTeam>, gh: map<int, int>, n: nat)
    requires SeedIndexed(so, pbq, n) && |st.slots| == n
    requires HeadsSettled(st, Filter(pbq, IsHeadPosition(so)), seconds, gh, n)
    ensures HeadsExhausted(st.slots, so, seconds, gh, n)
  {
    var heads := Filter(pbq, IsHeadPosition(so));
    FilterMembership(pbq, IsHeadPosition(so));
    forall p | 0 <= p < n && so[p] <= 2 && st.slots[p].None?
      ensures p in heads
    {
      assert pbq[so[p] - 1] == p;
    }
  }

  /** Every runner-up that an empty head could take is already placed. */
  lemma SeedByesHeadsExhausted(teams: seq<QualifiedTeam>, n: nat)
    ensures var firsts := Firsts(teams);
      var m := Min(|firsts|, n);
      n > 0 ==> HeadsExhausted(SeedByes(teams, n), StandardSeedOrder(n), Seconds(teams), HalfMap(firsts, PositionsByQuality(n), n, m), n)
  {
    if n > 0 {
      var pbq, so, firsts := PositionsByQuality(n), StandardSeedOrder(n), Firsts(teams);
      var m := Min(|firsts|, n);
      var gh := HalfMap(firsts, pbq, n, m);
      PositionsIndexed(n);
      if |teams| == 0 {
        assert Seconds(teams) == [];
      } else {
        var st := SeedByesSettled(pbq, so, firsts, Seconds(teams), n, m, gh);
        assert SeedByes(teams, n) == st.slots;
      }
    }
  }

  lemma SeedByesSettled(pbq: seq<int>, so: seq<int>, firsts: seq<QualifiedTeam>, seconds: seq<QualifiedTeam>,
                        n: nat, m: nat, gh: map<int, int>) returns (st: SeedState)
    requires SeedIndexed(so, pbq, n) && |so| == n && m <= |firsts| && m <= n
    ensures st == PlaceHeads(SeedState(FirstsPlaced(firsts, pbq, n, m), Available(pbq, m), {}),
                             Filter(pbq, IsHeadPosition(so)), seconds, gh, n)
    ensures HeadsExhausted(st.slots, so, seconds, gh, n)
  {
    StartGood(firsts, seconds, pbq, so, n, m, gh);
    var start := SeedState(FirstsPlaced(firsts, pbq, n, m), Available(pbq, m), {});
    var heads := Filter(pbq, IsHeadPosition(so));
    PlaceHeadsSettled(start, heads, seconds, gh, n);
    st := PlaceHeads(start, heads, seconds, gh, n);
    SettledExhausted(st, pbq, so, seconds, gh, n);
  }

  /** The placement made by `seedByeTeams`: with `m` the number of group
      winners placed (all of them, or one per position), the position of
      seed `k <= m` holds the `k`-th winner in ranking order; every other
      filled position is a head (seed 1 or 2) holding a distinct runner-up
      whose group winner was not placed in that half. */
  lemma SeedByesPlacement(teams: seq<QualifiedTeam>, n: nat)
    ensures var firsts := Firsts(teams);
      var m := Min(|firsts|, n);
      Placement(SeedByes(teams, n), StandardSeedOrder(n), firsts, Seconds(teams), m, HalfMap(firsts, PositionsByQuality(n), n, m), n)
  {
    var pbq, so, firsts := PositionsByQuality(n), StandardSeedOrder(n), Firsts(teams);
    var m := Min(|firsts|, n);
    var gh := HalfMap(firsts, pbq, n, m);
    if n == 0 {
      assert SeedByes(teams, n) == [];
    } else if |teams| == 0 {
      PositionsIndexed(n);
      assert firsts == [];
      EmptyPlacement(so, pbq, Seconds(teams), gh, n);
    } else {
      PositionsIndexed(n);
      var st := SeedByesState(pbq, so, firsts, Seconds(teams), n, m, gh);
      assert SeedByes(teams, n) == st.slots;
    }
  }

  lemma EmptyPlacement(so: seq<int>, pbq: seq<int>, seconds: seq<QualifiedTeam>, gh: map<int, int>, n: nat)
    requires SeedIndexed(so, pbq, n)
    ensures Placement(seq(n, _ => None), so, [], seconds, 0, gh, n)
  {
  }

  lemma PositionsIndexed(n: nat)
    requires n > 0
    ensures |StandardSeedOrder(n)| == n && SeedIndexed(StandardSeedOrder(n), PositionsByQuality(n), n)
  {
    PositionsByQualityInverse(n);
  }

  /** Slots `r` for `n` positions in seed order `so`, with `m` winners placed. */
  ghost predicate Placement(r: seq<Option<QualifiedTeam>>, so: seq<int>, firsts: seq<QualifiedTeam>, seconds: seq<QualifiedTeam>,
                            m: nat, gh: map<int, int>, n: nat)
  {
    && |r| == n && |so| >= n
    && (forall p :: 0 <= p < n && so[p] <= m ==> 1 <= so[p] <= |firsts| && r[p] == Some(firsts[so[p] - 1]))
    && (forall p :: 0 <= p < n && so[p] > m && r[p].Some? ==>
          so[p] <= 2 && r[p].value in seconds && OppositeToWinner(r[p].value, gh, HalfOf(p, n)))
    && (forall p, q :: 0 <= p < q < n && so[p] > m && so[q] > m && r[p].Some? && r[q].Some? ==>
          r[p].value.teamId != r[q].value.teamId)
  }

  /** Phase 2a run from the state phase 1 leaves keeps `GoodState`. */
  lemma SeedByesState(pbq: seq<int>, so: seq<int>, firsts: seq<QualifiedTeam>, seconds: seq<QualifiedTeam>,
                      n: nat, m: nat, gh: map<int, int>) returns (st: SeedState)
    requires SeedIndexed(so, pbq, n) && |so| == n && m <= |firsts| && m <= n
    ensures st == PlaceHeads(SeedState(FirstsPlaced(firsts, pbq, n, m), Available(pbq, m), {}),
                             Filter(pbq, IsHeadPosition(so)), seconds, gh, n)
    ensures GoodState(st, so, firsts, seconds, m, gh, n)
    ensures Placement(st.slots, so, firsts, seconds, m, gh, n)
  {
    StartGood(firsts, seconds, pbq, so, n, m, gh);
    var start := SeedState(FirstsPlaced(firsts, pbq, n, m), Available(pbq, m), {});
    var heads := Filter(pbq, IsHeadPosition(so));
    PlaceHeadsGood(start, heads, so, firsts, seconds, m, gh, n);
    st := PlaceHeads(start, heads, seconds, gh, n);
  }

  /** With one winner per group, a runner-up placed at a head is never in the
      same half as the placed winner of its own group. */
  lemma SeedByesRunnerUpOpposite(teams: seq<QualifiedTeam>, n: nat, p: nat, k: nat)
    requires DistinctGroupOrders(Firsts(teams))
    ensures var r, so, firsts := SeedByes(teams, n), StandardSeedOrder(n), Firsts(teams);
      var m := Min(|firsts|, n);
      (p < n && so[p] > m && r[p].Some? && k < m && firsts[k].groupOrder == r[p].value.groupOrder)
        ==> HalfOf(PositionsByQuality(n)[k], n) != HalfOf(p, n)
  {
    var r, so, firsts := SeedByes(teams, n), StandardSeedOrder(n), Firsts(teams);
    var m := Min(|firsts|, n);
    var pbq := PositionsByQuality(n);
    SeedByesPlacement(teams, n);
    if p < n && so[p] > m && r[p].Some? && k < m && firsts[k].groupOrder == r[p].value.groupOrder {
      PlacementOpposite(r, so, firsts, Seconds(teams), pbq, m, n, p, k);
    }
  }

  lemma PlacementOpposite(r: seq<Option<QualifiedTeam>>, so: seq<int>, firsts: seq<QualifiedTeam>, seconds: seq<QualifiedTeam>,
                          pbq: seq<int>, m: nat, n: nat, p: nat, k: nat)
    requires m <= |firsts| && m <= |pbq| && DistinctGroupOrders(firsts)
    requires Placement(r, so, firsts, seconds, m, HalfMap(firsts, pbq, n, m), n)
    requires p < n && so[p] > m && r[p].Some? && k < m && firsts[k].groupOrder == r[p].value.groupOrder
    ensures HalfOf(pbq[k], n) != HalfOf(p, n)
  {
    HalfMapOfWinners(firsts, pbq, n, m);
    HalfMapValues(firsts, pbq, n, m);
  }

  /** No teams: every position stays empty. */
  lemma SeedByesEmpty(n: nat)
    ensures SeedByes([], n) == seq(n, _ => None)
  {
  }

  /** In a power-of-two bracket with at least two group winners, the best
      winner opens the top half and the second best opens the bottom half. */
  lemma SeedByesTopWinners(teams: seq<QualifiedTeam>, n: nat)
    requires IsPow2(n) && 2 <= n <= 1024 && |Firsts(teams)| >= 2
    ensures SeedByes(teams, n)[0] == Some(Firsts(teams)[0])
    ensures SeedByes(teams, n)[n / 2] == Some(Firsts(teams)[1])
  {
    SeedByesPlacement(teams, n);
    TopSeedsInOppositeHalves(n);
  }
}
