/** The entities of playoff generation: qualified teams, bracket rows, and the
    fixed global ranking of the qualified teams (1sts in group order, 2nds in
    reverse group order, 3rds in group order). */
module PlayoffTeams {
  import opened Common
  import opened Collections

  /** A team qualified from a group: its id, its group, its finishing
      position in the group (1, 2 or 3) and the group's display order
      (1 = A, 2 = B, ...). */
  datatype QualifiedTeam = QualifiedTeam(teamId: int, fromGroupId: int, pos: int, groupOrder: int)

  /** A qualified team as the caller supplies it, before its group's display
      order is attached. */
  datatype QualifiedEntry = QualifiedEntry(teamId: int, fromGroupId: int, pos: int)

  /** A row of the bracket. A side is either a known team or a placeholder
      text such as "Ganador Cuartos1" naming the match whose winner fills it. */
  datatype PlayoffMatch = PlayoffMatch(
    round: string,
    bracketPos: int,
    team1Id: Option<int>,
    team2Id: Option<int>,
    sourceTeam1: Option<string>,
    sourceTeam2: Option<string>)

  function IsFirst(t: QualifiedTeam): bool { t.pos == 1 }
  function IsSecond(t: QualifiedTeam): bool { t.pos == 2 }
  function IsThird(t: QualifiedTeam): bool { t.pos == 3 }
  function InTopThree(t: QualifiedTeam): bool { 1 <= t.pos <= 3 }

  /** Sort key of `(a, b) => a.group_order - b.group_order`. */
  function GroupOrderKey(t: QualifiedTeam): int { t.groupOrder }

  /** Sort key of `(a, b) => b.group_order - a.group_order`. */
  function ReverseGroupOrderKey(t: QualifiedTeam): int { -t.groupOrder }

  /** The group winners, A first. */
  function Firsts(teams: seq<QualifiedTeam>): seq<QualifiedTeam>
  {
    SortByKey(Filter(teams, IsFirst), GroupOrderKey)
  }

  /** The runners-up, in reverse group order (E, D, ..., A). */
  function Seconds(teams: seq<QualifiedTeam>): seq<QualifiedTeam>
  {
    SortByKey(Filter(teams, IsSecond), ReverseGroupOrderKey)
  }

  /** The third-placed teams, A first. */
  function Thirds(teams: seq<QualifiedTeam>): seq<QualifiedTeam>
  {
    SortByKey(Filter(teams, IsThird), GroupOrderKey)
  }

  /** `buildGlobalRanking`: 1sts, then 2nds, then 3rds; teams placed
      anywhere else are dropped. */
  function BuildGlobalRanking(teams: seq<QualifiedTeam>): (r: seq<QualifiedTeam>)
    ensures |r| == |Filter(teams, IsFirst)| + |Filter(teams, IsSecond)| + |Filter(teams, IsThird)|
    ensures forall i :: 0 <= i < |r| ==> InTopThree(r[i])
  {
    SortByKeyAll(Filter(teams, IsFirst), GroupOrderKey, InTopThree);
    SortByKeyAll(Filter(teams, IsSecond), ReverseGroupOrderKey, InTopThree);
    SortByKeyAll(Filter(teams, IsThird), GroupOrderKey, InTopThree);
    Firsts(teams) + Seconds(teams) + Thirds(teams)
  }

  /** `a` may stand before `b` in the global ranking. */
  predicate RankedBefore(a: QualifiedTeam, b: QualifiedTeam)
  {
    a.pos < b.pos
    || (a.pos == b.pos && (if a.pos == 2 then a.groupOrder >= b.groupOrder else a.groupOrder <= b.groupOrder))
  }

  /** The ranking is ordered by position, then by group order (reversed for
      the 2nds). */
  lemma GlobalRankingOrdered(teams: seq<QualifiedTeam>)
    ensures var r := BuildGlobalRanking(teams);
      forall i, j :: 0 <= i < j < |r| ==> RankedBefore(r[i], r[j])
  {
    SortByKeyAll(Filter(teams, IsFirst), GroupOrderKey, IsFirst);
    SortByKeyAll(Filter(teams, IsSecond), ReverseGroupOrderKey, IsSecond);
    SortByKeyAll(Filter(teams, IsThird), GroupOrderKey, IsThird);
    BlocksRanked(Firsts(teams), Seconds(teams), Thirds(teams));
  }

  lemma BlocksRanked(f: seq<QualifiedTeam>, s: seq<QualifiedTeam>, t: seq<QualifiedTeam>)
    requires forall i :: 0 <= i < |f| ==> f[i].pos == 1
    requires forall i :: 0 <= i < |s| ==> s[i].pos == 2
    requires forall i :: 0 <= i < |t| ==> t[i].pos == 3
    requires SortedByKey(f, GroupOrderKey) && SortedByKey(s, ReverseGroupOrderKey) && SortedByKey(t, GroupOrderKey)
    ensures forall i, j :: 0 <= i < j < |f + s + t| ==> RankedBefore((f + s + t)[i], (f + s + t)[j])
  {
    var r := f + s + t;
    forall i, j | 0 <= i < j < |r|
      ensures RankedBefore(r[i], r[j])
    {
      var a, b := |f|, |f| + |s|;
      if j < a {
        assert r[i] == f[i] && r[j] == f[j];
        assert GroupOrderKey(f[i]) <= GroupOrderKey(f[j]);
      } else if a <= i && j < b {
        assert r[i] == s[i - a] && r[j] == s[j - a];
        assert ReverseGroupOrderKey(s[i - a]) <= ReverseGroupOrderKey(s[j - a]);
      } else if b <= i {
        assert r[i] == t[i - b] && r[j] == t[j - b];
        assert GroupOrderKey(t[i - b]) <= GroupOrderKey(t[j - b]);
      } else {
        assert r[i].pos < r[j].pos;
      }
    }
  }

  lemma {:induction false} FilterPositionsSplit(teams: seq<QualifiedTeam>)
    ensures multiset(Filter(teams, InTopThree))
         == multiset(Filter(teams, IsFirst)) + multiset(Filter(teams, IsSecond)) + multiset(Filter(teams, IsThird))
  {
    if teams != [] {
      FilterPositionsSplit(teams[1..]);
    }
  }

  /** The ranking holds exactly the teams placed 1st, 2nd or 3rd, each as
      often as it was given. */
  lemma GlobalRankingPermutation(teams: seq<QualifiedTeam>)
    ensures multiset(BuildGlobalRanking(teams)) == multiset(Filter(teams, InTopThree))
  {
    FilterPositionsSplit(teams);
  }

  /** Within one position, teams of equal group order keep their input order
      (the comparator sorts are stable). */
  lemma GlobalRankingStable(teams: seq<QualifiedTeam>, g: int, k: int)
    ensures WithKey(Firsts(teams), GroupOrderKey, g) == WithKey(Filter(teams, IsFirst), GroupOrderKey, g)
    ensures WithKey(Seconds(teams), ReverseGroupOrderKey, k) == WithKey(Filter(teams, IsSecond), ReverseGroupOrderKey, k)
    ensures WithKey(Thirds(teams), GroupOrderKey, g) == WithKey(Filter(teams, IsThird), GroupOrderKey, g)
  {
    SortByKeyStable(Filter(teams, IsFirst), GroupOrderKey, g);
    SortByKeyStable(Filter(teams, IsSecond), ReverseGroupOrderKey, k);
    SortByKeyStable(Filter(teams, IsThird), GroupOrderKey, g);
  }

  // The winners and runners-up of groups A and B and the winner of group C.
  const ExampleA1 := QualifiedTeam(1, 10, 1, 1)
  const ExampleB1 := QualifiedTeam(2, 20, 1, 2)
  const ExampleC1 := QualifiedTeam(3, 30, 1, 3)
  const ExampleA2 := QualifiedTeam(4, 10, 2, 1)
  const ExampleB2 := QualifiedTeam(5, 20, 2, 2)

  /** Given out of order, these rank as 1A, 1B, 1C, 2B, 2A. */
  lemma GlobalRankingExample()
    ensures BuildGlobalRanking([ExampleB2, ExampleC1, ExampleA1, ExampleA2, ExampleB1])
         == [ExampleA1, ExampleB1, ExampleC1, ExampleB2, ExampleA2]
  {
    var teams := [ExampleB2, ExampleC1, ExampleA1, ExampleA2, ExampleB1];
    ExampleFilters();
    ExampleFirstsSorted();
    ExampleSecondsSorted();
    assert Firsts(teams) == [ExampleA1, ExampleB1, ExampleC1];
    assert Seconds(teams) == [ExampleB2, ExampleA2];
    assert Thirds(teams) == [];
    ExampleConcat();
  }

  lemma ExampleConcat()
    ensures [ExampleA1, ExampleB1, ExampleC1] + [ExampleB2, ExampleA2] + []
         == [ExampleA1, ExampleB1, ExampleC1, ExampleB2, ExampleA2]
  {
  }

  lemma ExampleFilters()
    ensures var teams := [ExampleB2, ExampleC1, ExampleA1, ExampleA2, ExampleB1];
      Filter(teams, IsFirst) == [ExampleC1, ExampleA1, ExampleB1]
      && Filter(teams, IsSecond) == [ExampleB2, ExampleA2]
      && Filter(teams, IsThird) == []
  {
    var t0 := [ExampleB2, ExampleC1, ExampleA1, ExampleA2, ExampleB1];
    var t1, t2, t3, t4 := t0[1..], t0[2..], t0[3..], t0[4..];
    assert t1[1..] == t2 && t2[1..] == t3 && t3[1..] == t4 && t4[1..] == [];
    assert Filter(t4, IsFirst) == [ExampleB1];
    assert Filter(t3, IsFirst) == [ExampleB1];
    assert Filter(t2, IsFirst) == [ExampleA1, ExampleB1];
    assert Filter(t1, IsFirst) == [ExampleC1, ExampleA1, ExampleB1];
    assert Filter(t4, IsSecond) == [];
    assert Filter(t3, IsSecond) == [ExampleA2];
    assert Filter(t2, IsSecond) == [ExampleA2];
    assert Filter(t1, IsSecond) == [ExampleA2];
    assert Filter(t4, IsThird) == [];
    assert Filter(t3, IsThird) == [];
    assert Filter(t2, IsThird) == [];
    assert Filter(t1, IsThird) == [];
  }

  lemma ExampleFirstsSorted()
    ensures SortByKey([ExampleC1, ExampleA1, ExampleB1], GroupOrderKey) == [ExampleA1, ExampleB1, ExampleC1]
  {
    var s := [ExampleC1, ExampleA1, ExampleB1];
    assert s[..2] == [ExampleC1, ExampleA1];
    ExampleFirstTwoSorted();
    ExampleInsertB1();
  }

  lemma ExampleFirstTwoSorted()
    ensures SortByKey([ExampleC1, ExampleA1], GroupOrderKey) == [ExampleA1, ExampleC1]
  {
    var s := [ExampleC1, ExampleA1];
    assert s[..1] == [ExampleC1] && s[1] == ExampleA1;
    SortOfOne(ExampleC1, GroupOrderKey);
    ExampleInsertA1();
  }

  lemma ExampleInsertA1()
    ensures Insert(ExampleA1, [ExampleC1], GroupOrderKey) == [ExampleA1, ExampleC1]
  {
    assert InsertionPoint(ExampleA1, [ExampleC1], GroupOrderKey) == 0;
  }

  lemma ExampleInsertB1()
    ensures Insert(ExampleB1, [ExampleA1, ExampleC1], GroupOrderKey) == [ExampleA1, ExampleB1, ExampleC1]
  {
    var ac := [ExampleA1, ExampleC1];
    assert InsertionPoint(ExampleB1, ac, GroupOrderKey) == 1;
    assert ac[..1] == [ExampleA1] && ac[1..] == [ExampleC1];
  }

  lemma ExampleSecondsSorted()
    ensures SortByKey([ExampleB2, ExampleA2], ReverseGroupOrderKey) == [ExampleB2, ExampleA2]
  {
    var s := [ExampleB2, ExampleA2];
    assert s[..1] == [ExampleB2] && s[1] == ExampleA2;
    SortOfOne(ExampleB2, ReverseGroupOrderKey);
    ExampleInsertA2();
  }

  lemma ExampleInsertA2()
    ensures Insert(ExampleA2, [ExampleB2], ReverseGroupOrderKey) == [ExampleB2, ExampleA2]
  {
    var b := [ExampleB2];
    assert InsertionPoint(ExampleA2, b, ReverseGroupOrderKey) == 1 by {
      assert b[1..] == [];
    }
    assert b[..1] == b && b[1..] == [];
  }

  /** `teams.findIndex(t => t.team_id === id)`. */
  function FindIndexById(teams: seq<QualifiedTeam>, id: int): (i: int)
    ensures -1 <= i < |teams|
    ensures i >= 0 ==> teams[i].teamId == id && forall j :: 0 <= j < i ==> teams[j].teamId != id
    ensures i == -1 <==> forall j :: 0 <= j < |teams| ==> teams[j].teamId != id
  {
    if teams == [] then -1
    else if teams[0].teamId == id then 0
    else
      var k := FindIndexById(teams[1..], id);
      assert forall j :: 1 <= j < |teams| ==> teams[j] == teams[1..][j - 1];
      if k == -1 then -1 else k + 1
  }

  /** No two teams share an id. */
  ghost predicate DistinctIds(teams: seq<QualifiedTeam>)
  {
    forall i, j :: 0 <= i < j < |teams| ==> teams[i].teamId != teams[j].teamId
  }

  /** With distinct ids, looking up a team's id finds the team's own index. */
  lemma FindIndexOfMember(teams: seq<QualifiedTeam>, i: nat)
    requires DistinctIds(teams) && i < |teams|
    ensures FindIndexById(teams, teams[i].teamId) == i
  {
  }

  /** The group display order of a team: its group's entry in the map, or
      999 when the group has none. */
  function GroupOrderOf(groupOrder: map<int, int>, groupId: int): int
  {
    if groupId in groupOrder then groupOrder[groupId] else 999
  }

  /** `qualifiedTeams.map(t => ({ ...t, group_order: groupOrderMap.get(t.from_group_id) ?? 999 }))`. */
  function AttachGroupOrder(entries: seq<QualifiedEntry>, groupOrder: map<int, int>): (r: seq<QualifiedTeam>)
    ensures |r| == |entries|
    ensures forall i :: 0 <= i < |r| ==>
      r[i].teamId == entries[i].teamId && r[i].fromGroupId == entries[i].fromGroupId
      && r[i].pos == entries[i].pos
      && r[i].groupOrder == GroupOrderOf(groupOrder, entries[i].fromGroupId)
  {
    seq(|entries|, i requires 0 <= i < |entries| =>
      QualifiedTeam(entries[i].teamId, entries[i].fromGroupId, entries[i].pos,
                    GroupOrderOf(groupOrder, entries[i].fromGroupId)))
  }
}
