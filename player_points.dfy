/** The yearly ranking of a category (`getRankingByCategoryAndYear`): the
    stored points rows of that category and year are added up per player,
    in a map that remembers the order players first appear in, and the
    totals are listed from the highest down with a stable sort. The stored
    table becomes the input sequence `table`. */
module PlayerPoints {
  import opened Collections
  import opened RankingPoints

  /** The running `{ total, count }` of one player. */
  datatype Tally = Tally(total: int, count: nat)

  /** A `Map<number, { total, count }>` in its iteration order: `order`
      lists the keys of `byPlayer` in insertion order. */
  datatype Aggregate = Aggregate(order: seq<int>, byPlayer: map<int, Tally>)

  datatype Standing = Standing(playerId: int, totalPoints: int, tournamentsPlayed: nat)

  /** The rows the query selects. */
  function RowsOf(table: seq<PointRow>, categoryId: int, year: int): seq<PointRow>
  {
    Filter(table, (r: PointRow) => r.categoryId == categoryId && r.year == year)
  }

  /** The points of the rows of player `p`. */
  function PointsOf(rows: seq<PointRow>, p: int): int
  {
    if rows == [] then 0
    else PointsOf(rows[..|rows| - 1], p) + (if rows[|rows| - 1].playerId == p then rows[|rows| - 1].points else 0)
  }

  /** The number of rows of player `p`. */
  function CountOf(rows: seq<PointRow>, p: int): nat
  {
    if rows == [] then 0
    else CountOf(rows[..|rows| - 1], p) + (if rows[|rows| - 1].playerId == p then 1 else 0)
  }

  function PlayerIds(rows: seq<PointRow>): (r: seq<int>)
    ensures |r| == |rows| && forall i :: 0 <= i < |rows| ==> r[i] == rows[i].playerId
  {
    seq(|rows|, i requires 0 <= i < |rows| => rows[i].playerId)
  }

  /** A player has rows exactly when they appear among the rows' players. */
  lemma {:induction false} CountOfPositive(rows: seq<PointRow>, p: int)
    ensures CountOf(rows, p) > 0 <==> p in PlayerIds(rows)
  {
    if rows != [] {
      var init := rows[..|rows| - 1];
      CountOfPositive(init, p);
      assert PlayerIds(rows) == PlayerIds(init) + [rows[|rows| - 1].playerId];
    }
  }

  lemma {:induction false} NoRowsNoPoints(rows: seq<PointRow>, p: int)
    requires CountOf(rows, p) == 0
    ensures PointsOf(rows, p) == 0
  {
    if rows != [] {
      NoRowsNoPoints(rows[..|rows| - 1], p);
    }
  }

  /** One iteration of the loop: `byPlayer.get(id) ?? { total: 0, count: 0 }`
      grows by the row, and a new player goes to the end of the order. */
  function AddRow(a: Aggregate, row: PointRow): Aggregate
  {
    var current := if row.playerId in a.byPlayer then a.byPlayer[row.playerId] else Tally(0, 0);
    Aggregate(if row.playerId in a.byPlayer then a.order else a.order + [row.playerId],
              a.byPlayer[row.playerId := Tally(current.total + row.points, current.count + 1)])
  }

  /** The map after the loop over `rows`. */
  function Tallies(rows: seq<PointRow>): Aggregate
  {
    if rows == [] then Aggregate([], map[])
    else AddRow(Tallies(rows[..|rows| - 1]), rows[|rows| - 1])
  }

  /** The order lists each key once, and only keys. */
  ghost predicate WellFormed(a: Aggregate)
  {
    && Distinct(a.order)
    && forall p :: p in a.byPlayer <==> p in a.order
  }

  /** After the loop the map holds exactly the players with rows, each
      with the sum and the number of their rows, and lists each of them
      once. */
  lemma {:induction false} TalliesCorrect(rows: seq<PointRow>)
    ensures var a := Tallies(rows);
      && WellFormed(a)
      && (forall p :: p in a.byPlayer <==> CountOf(rows, p) > 0)
      && (forall p :: p in a.byPlayer ==> a.byPlayer[p] == Tally(PointsOf(rows, p), CountOf(rows, p)))
  {
    if rows != [] {
      var init, row := rows[..|rows| - 1], rows[|rows| - 1];
      TalliesCorrect(init);
      var a0 := Tallies(init);
      var a := AddRow(a0, row);
      if row.playerId !in a0.byPlayer {
        NoRowsNoPoints(init, row.playerId);
        assert forall i :: 0 <= i < |a0.order| ==> a.order[i] == a0.order[i];
        assert a.order[|a0.order|] == row.playerId;
      }
    }
  }

  /** The map lists the players in the order their first rows come in. */
  lemma {:induction false} TalliesInFirstAppearanceOrder(rows: seq<PointRow>)
    ensures var a := Tallies(rows);
      forall i, j :: 0 <= i < j < |a.order| ==>
        IndexOf(PlayerIds(rows), a.order[i]) < IndexOf(PlayerIds(rows), a.order[j])
  {
    if rows != [] {
      var init, row := rows[..|rows| - 1], rows[|rows| - 1];
      TalliesInFirstAppearanceOrder(init);
      TalliesCorrect(init);
      var a0 := Tallies(init);
      var a := AddRow(a0, row);
      var ids0, ids := PlayerIds(init), PlayerIds(rows);
      assert ids == ids0 + [row.playerId];
      forall i | 0 <= i < |a0.order|
        ensures IndexOf(ids, a0.order[i]) == IndexOf(ids0, a0.order[i]) < |ids0|
      {
        assert a0.order[i] in a0.order;
        CountOfPositive(init, a0.order[i]);
        IndexOfSnoc(ids0, row.playerId, a0.order[i]);
      }
      if row.playerId !in a0.byPlayer {
        CountOfPositive(init, row.playerId);
        IndexOfSnoc(ids0, row.playerId, row.playerId);
        forall i, j | 0 <= i < j < |a.order|
          ensures IndexOf(ids, a.order[i]) < IndexOf(ids, a.order[j])
        {
          assert a.order[i] == a0.order[i];
          if j < |a0.order| {
            assert a.order[j] == a0.order[j];
          } else {
            assert a.order[j] == row.playerId;
          }
        }
      }
    }
  }

  /** The tally of a key of the map. */
  function TallyOf(a: Aggregate, p: int): Tally
  {
    if p in a.byPlayer then a.byPlayer[p] else Tally(0, 0)
  }

  function StandingAt(a: Aggregate, p: int): Standing
  {
    Standing(p, TallyOf(a, p).total, TallyOf(a, p).count)
  }

  /** `Array.from(byPlayer.entries()).map(...)`: one standing per key, in
      iteration order. */
  function Entries(a: Aggregate): (r: seq<Standing>)
    ensures |r| == |a.order|
    ensures forall i :: 0 <= i < |r| ==> r[i] == StandingAt(a, a.order[i])
  {
    seq(|a.order|, i requires 0 <= i < |a.order| => StandingAt(a, a.order[i]))
  }

  /** The comparator `(a, b) => b.total_points - a.total_points`. */
  function Descending(s: Standing): int
  {
    -s.totalPoints
  }

  /** The entries of a map sorted by total, highest first. */
  function SortedEntries(a: Aggregate): seq<Standing>
  {
    SortByKey(Entries(a), Descending)
  }

  /** The ranking of the selected rows. */
  function Ranking(rows: seq<PointRow>): seq<Standing>
  {
    SortedEntries(Tallies(rows))
  }

  /** The standing of player `p`. */
  function StandingOf(rows: seq<PointRow>, p: int): Standing
  {
    Standing(p, PointsOf(rows, p), CountOf(rows, p))
  }

  /** `s` lists every player with rows exactly once, each with the sum and
      the number of their rows. */
  ghost predicate StandingsOf(s: seq<Standing>, rows: seq<PointRow>)
  {
    && (forall i :: 0 <= i < |s| ==> s[i] == StandingOf(rows, s[i].playerId) && s[i].tournamentsPlayed > 0)
    && (forall p :: CountOf(rows, p) > 0 ==> exists i :: 0 <= i < |s| && s[i].playerId == p)
    && (forall i, j :: 0 <= i < j < |s| ==> s[i].playerId != s[j].playerId)
  }

  /** Before sorting, the entries are the players' standings. */
  lemma EntriesAreStandings(rows: seq<PointRow>)
    ensures StandingsOf(Entries(Tallies(rows)), rows)
  {
    TalliesCorrect(rows);
    var a := Tallies(rows);
    var e := Entries(a);
    forall i | 0 <= i < |e|
      ensures e[i] == StandingOf(rows, e[i].playerId) && e[i].tournamentsPlayed > 0
    {
      assert a.order[i] in a.order;
    }
    forall p | CountOf(rows, p) > 0
      ensures exists i :: 0 <= i < |e| && e[i].playerId == p
    {
      var k := IndexOf(a.order, p);
      assert e[k].playerId == p;
    }
  }

  /** A reordering of the standings is the standings. */
  lemma StandingsPermuted(r: seq<Standing>, e: seq<Standing>, rows: seq<PointRow>)
    requires StandingsOf(e, rows) && multiset(r) == multiset(e)
    ensures StandingsOf(r, rows)
  {
    forall i | 0 <= i < |r|
      ensures r[i] in e
    {
      assert r[i] in multiset(e);
    }
    forall p | CountOf(rows, p) > 0
      ensures exists i :: 0 <= i < |r| && r[i].playerId == p
    {
      var k :| 0 <= k < |e| && e[k].playerId == p;
      assert e[k] in multiset(r);
      var i :| 0 <= i < |r| && r[i] == e[k];
    }
    assert Distinct(e) by {
      forall i, j | 0 <= i < j < |e|
        ensures e[i] != e[j]
      {
        assert e[i].playerId != e[j].playerId;
      }
    }
    DistinctOfSameMultiset(r, e);
    forall i, j | 0 <= i < j < |r|
      ensures r[i].playerId != r[j].playerId
    {
      assert r[i] in e && r[j] in e;
    }
  }

  /** Every player with rows appears exactly once, with the sum and the
      number of their rows, and the list runs from the highest total down. */
  lemma RankingCorrect(rows: seq<PointRow>)
    ensures StandingsOf(Ranking(rows), rows)
    ensures var r := Ranking(rows);
      forall i, j :: 0 <= i < j < |r| ==> r[i].totalPoints >= r[j].totalPoints
  {
    var e := Entries(Tallies(rows));
    EntriesAreStandings(rows);
    StandingsPermuted(Ranking(rows), e, rows);
    assert SortedByKey(Ranking(rows), Descending);
  }

  /** Totals and counts are conserved: the totals add up to all the points of
      the rows, and the counts to the number of rows. */
  lemma RankingConserves(rows: seq<PointRow>)
    ensures SumOf(Ranking(rows), (s: Standing) => s.totalPoints) == SumOf(rows, (r: PointRow) => r.points)
    ensures SumOf(Ranking(rows), (s: Standing) => s.tournamentsPlayed) == |rows|
  {
    TalliesCorrect(rows);
    var e := Entries(Tallies(rows));
    SumOfSortByKey(e, Descending, (s: Standing) => s.totalPoints);
    SumOfSortByKey(e, Descending, (s: Standing) => s.tournamentsPlayed);
    TalliesConserve(rows);
  }

  function SumTotals(a: Aggregate): int
  {
    SumOf(Entries(a), (s: Standing) => s.totalPoints)
  }

  function SumCounts(a: Aggregate): int
  {
    SumOf(Entries(a), (s: Standing) => s.tournamentsPlayed)
  }

  /** Each row adds its points to one player's total and one to that
      player's count. */
  lemma {:induction false} TalliesConserve(rows: seq<PointRow>)
    ensures SumTotals(Tallies(rows)) == SumOf(rows, (r: PointRow) => r.points)
    ensures SumCounts(Tallies(rows)) == |rows|
  {
    TalliesCorrect(rows);
    if rows != [] {
      var init, row := rows[..|rows| - 1], rows[|rows| - 1];
      TalliesConserve(init);
      TalliesCorrect(init);
      AddRowSums(Tallies(init), row);
    }
  }

  lemma AddRowSums(a: Aggregate, row: PointRow)
    requires WellFormed(a)
    ensures SumTotals(AddRow(a, row)) == SumTotals(a) + row.points
    ensures SumCounts(AddRow(a, row)) == SumCounts(a) + 1
  {
    var b := AddRow(a, row);
    var ea, eb := Entries(a), Entries(b);
    var total := (s: Standing) => s.totalPoints;
    var count := (s: Standing) => s.tournamentsPlayed;
    if row.playerId in a.byPlayer {
      var k := IndexOf(a.order, row.playerId);
      assert eb == ea[k := eb[k]];
      SumOfUpdate(ea, k, eb[k], total);
      SumOfUpdate(ea, k, eb[k], count);
    } else {
      assert eb == ea + [eb[|ea|]];
      assert eb[..|eb| - 1] == ea;
    }
  }

  /** Players with equal totals keep the order of their first rows. */
  lemma TiesKeepFirstAppearance(rows: seq<PointRow>, total: int)
    ensures WithKey(Ranking(rows), Descending, -total) == WithKey(Entries(Tallies(rows)), Descending, -total)
  {
    SortedEntriesStable(Tallies(rows), -total);
  }

  lemma SortedEntriesStable(a: Aggregate, k: int)
    ensures WithKey(SortedEntries(a), Descending, k) == WithKey(Entries(a), Descending, k)
  {
    SortByKeyStable(Entries(a), Descending, k);
  }

  /** The loop that fills the map. */
  method TallyRows(rows: seq<PointRow>) returns (byPlayer: Aggregate)
    ensures byPlayer == Tallies(rows)
  {
    byPlayer := Aggregate([], map[]);
    for i := 0 to |rows|
      invariant byPlayer == Tallies(rows[..i])
    {
      assert rows[..i + 1][..i] == rows[..i];
      var row := rows[i];
      var current := if row.playerId in byPlayer.byPlayer then byPlayer.byPlayer[row.playerId] else Tally(0, 0);
      var order := if row.playerId in byPlayer.byPlayer then byPlayer.order else byPlayer.order + [row.playerId];
      byPlayer := Aggregate(order, byPlayer.byPlayer[row.playerId := Tally(current.total + row.points, current.count + 1)]);
    }
    assert rows[..|rows|] == rows;
  }

  /** `getRankingByCategoryAndYear`. */
  method GetRankingByCategoryAndYear(table: seq<PointRow>, categoryId: int, year: int) returns (r: seq<Standing>)
    ensures r == Ranking(RowsOf(table, categoryId, year))
  {
    var rows := RowsOf(table, categoryId, year);
    var byPlayer := TallyRows(rows);
    r := SortByKey(Entries(byPlayer), Descending);
  }
}
