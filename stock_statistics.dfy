/** Stock statistics per product (`StockMovementsStatisticsService.getStatistics`):
    the aggregated movement rows are added up per product into purchases,
    sales and adjustments, with the current stock kept as purchases minus
    sales plus adjustments; an optional category keeps only that
    category's products, and the list is sorted by product name. The rows
    of the `stock_movement_statistics` database function become the input
    sequence `rows`. */
module StockStatistics {
  import opened Common
  import opened Collections

  /** One `StockMovementAggregationRow`. */
  datatype MovementRow = MovementRow(productId: int, movementType: string, totalQuantity: int, productName: string,
                                     usesStock: bool, categoryId: Option<int>, categoryName: Option<string>)

  /** One `StockStatisticsItem`. */
  datatype Item = Item(productId: int, productName: string, categoryId: Option<int>, categoryName: Option<string>,
                       totalPurchases: int, totalSales: int, totalAdjustments: int, currentStock: int)

  /** The `stats` map in its iteration order: `order` lists the keys of
      `byProduct` in insertion order. */
  datatype Stats = Stats(order: seq<int>, byProduct: map<int, Item>)

  /** The current stock agrees with the three totals. */
  predicate Balanced(item: Item)
  {
    item.currentStock == item.totalPurchases - item.totalSales + item.totalAdjustments
  }

  /** A row that takes part in the statistics. */
  predicate Counted(row: MovementRow)
  {
    row.usesStock
  }

  /** The entry a product's first counted row opens. */
  function Opening(row: MovementRow): (r: Item)
    ensures Balanced(r)
  {
    Item(row.productId, row.productName, row.categoryId, row.categoryName, 0, 0, 0, 0)
  }

  /** The entry after adding one row's quantity under its movement type; a
      movement type outside the three leaves the totals as they are. */
  function Add(item: Item, row: MovementRow): (r: Item)
    ensures Balanced(item) ==> Balanced(r)
    ensures r.productId == item.productId && r.productName == item.productName
    ensures r.categoryId == item.categoryId && r.categoryName == item.categoryName
  {
    var q := row.totalQuantity;
    if row.movementType == "purchase" then
      item.(totalPurchases := item.totalPurchases + q, currentStock := item.currentStock + q)
    else if row.movementType == "sale" then
      item.(totalSales := item.totalSales + q, currentStock := item.currentStock - q)
    else if row.movementType == "adjustment" then
      item.(totalAdjustments := item.totalAdjustments + q, currentStock := item.currentStock + q)
    else item
  }

  /** The order lists each key once, and only keys, and every entry is
      balanced and filed under its own product id. */
  ghost predicate WellFormed(st: Stats)
  {
    && Distinct(st.order)
    && (forall p :: p in st.byProduct <==> p in st.order)
    && (forall p :: p in st.byProduct ==> Balanced(st.byProduct[p]) && st.byProduct[p].productId == p)
  }

  /** One call of the `forEach` callback. */
  function AddMovement(st: Stats, row: MovementRow): Stats
  {
    if !Counted(row) then st
    else
      var existing := if row.productId in st.byProduct then st.byProduct[row.productId] else Opening(row);
      var updated := Add(existing, row);
      Stats(if row.productId in st.byProduct then st.order else st.order + [row.productId],
            st.byProduct[row.productId := updated])
  }

  /** The map after the `forEach` over `rows`. */
  function Aggregate(rows: seq<MovementRow>): Stats
  {
    if rows == [] then Stats([], map[])
    else AddMovement(Aggregate(rows[..|rows| - 1]), rows[|rows| - 1])
  }

  /** The first counted row of product `p`. */
  function FirstCounted(rows: seq<MovementRow>, p: int): (r: Option<MovementRow>)
    ensures r.Some? ==> r.value in rows && Counted(r.value) && r.value.productId == p
  {
    if rows == [] then None
    else
      var init, last := rows[..|rows| - 1], rows[|rows| - 1];
      match FirstCounted(init, p)
      case Some(row) => Some(row)
      case None => if Counted(last) && last.productId == p then Some(last) else None
  }

  /** The sum of the quantities of the counted rows of product `p` whose
      movement type is `kind`. */
  function Quantity(rows: seq<MovementRow>, p: int, kind: string): int
  {
    if rows == [] then 0
    else
      var last := rows[|rows| - 1];
      Quantity(rows[..|rows| - 1], p, kind)
        + (if Counted(last) && last.productId == p && last.movementType == kind then last.totalQuantity else 0)
  }

  /** The entry the statistics should hold for a product with counted rows:
      name and category of its first counted row, and each total the sum of
      its quantities of that type. */
  function Expected(rows: seq<MovementRow>, p: int): Item
    requires FirstCounted(rows, p).Some?
  {
    var first := FirstCounted(rows, p).value;
    var purchases, sales, adjustments := Quantity(rows, p, "purchase"), Quantity(rows, p, "sale"), Quantity(rows, p, "adjustment");
    Item(p, first.productName, first.categoryId, first.categoryName, purchases, sales, adjustments, purchases - sales + adjustments)
  }

  lemma {:induction false} NothingCountedNoQuantity(rows: seq<MovementRow>, p: int, kind: string)
    requires FirstCounted(rows, p).None?
    ensures Quantity(rows, p, kind) == 0
  {
    if rows != [] {
      NothingCountedNoQuantity(rows[..|rows| - 1], p, kind);
    }
  }

  /** After the `forEach` there is exactly one balanced entry per product
      with a counted row, and it is that product's expected entry. */
  lemma {:induction false} AggregateCorrect(rows: seq<MovementRow>)
    ensures Summarises(Aggregate(rows), rows)
  {
    if rows != [] {
      AggregateCorrect(rows[..|rows| - 1]);
      AggregateStep(rows);
    }
  }

  /** The product ids of the counted rows, in row order. */
  function CountedIds(rows: seq<MovementRow>): seq<int>
  {
    if rows == [] then []
    else
      var last := rows[|rows| - 1];
      CountedIds(rows[..|rows| - 1]) + (if Counted(last) then [last.productId] else [])
  }

  /** A product has a counted row exactly when its id is among the counted ids. */
  lemma {:induction false} CountedIdsMembers(rows: seq<MovementRow>, p: int)
    ensures p in CountedIds(rows) <==> FirstCounted(rows, p).Some?
  {
    if rows != [] {
      CountedIdsMembers(rows[..|rows| - 1], p);
    }
  }

  /** The map iterates its products in the order of their first counted
      row, since a `Map` iterates keys in insertion order. */
  lemma {:induction false} AggregateFirstAppearanceOrder(rows: seq<MovementRow>)
    ensures forall i :: 0 <= i < |Aggregate(rows).order| ==> Aggregate(rows).order[i] in CountedIds(rows)
    ensures forall i, j :: 0 <= i < j < |Aggregate(rows).order| ==>
      IndexOf(CountedIds(rows), Aggregate(rows).order[i]) < IndexOf(CountedIds(rows), Aggregate(rows).order[j])
  {
    if rows != [] {
      var init, row := rows[..|rows| - 1], rows[|rows| - 1];
      AggregateFirstAppearanceOrder(init);
      AggregateCorrect(init);
      var st0, st := Aggregate(init), Aggregate(rows);
      var ids0, ids := CountedIds(init), CountedIds(rows);
      if Counted(row) {
        assert ids == ids0 + [row.productId];
        forall i | 0 <= i < |st0.order|
          ensures IndexOf(ids, st0.order[i]) == IndexOf(ids0, st0.order[i]) < |ids0|
        {
          assert st0.order[i] in ids0;
          IndexOfSnoc(ids0, row.productId, st0.order[i]);
        }
        if row.productId !in st0.byProduct {
          CountedIdsMembers(init, row.productId);
          IndexOfSnoc(ids0, row.productId, row.productId);
          assert st.order == st0.order + [row.productId];
          forall i, j | 0 <= i < j < |st.order|
            ensures IndexOf(ids, st.order[i]) < IndexOf(ids, st.order[j])
          {
            assert st.order[i] == st0.order[i];
            if j < |st0.order| {
              assert st.order[j] == st0.order[j];
            }
          }
        }
      } else {
        assert ids == ids0 + [] == ids0;
        assert st == st0;
        forall i, j | 0 <= i < j < |st.order|
          ensures IndexOf(ids, st.order[i]) < IndexOf(ids, st.order[j])
        {
          assert IndexOf(ids0, st0.order[i]) < IndexOf(ids0, st0.order[j]);
        }
      }
    }
  }

  /** One call of the callback keeps the map a summary of the rows seen. */
  lemma AggregateStep(rows: seq<MovementRow>)
    requires rows != [] && Summarises(Aggregate(rows[..|rows| - 1]), rows[..|rows| - 1])
    ensures Summarises(Aggregate(rows), rows)
  {
    if Counted(rows[|rows| - 1]) {
      CountedStep(rows);
    } else {
      UncountedStep(rows);
    }
  }

  lemma UncountedStep(rows: seq<MovementRow>)
    requires rows != [] && !Counted(rows[|rows| - 1])
    requires Summarises(Aggregate(rows[..|rows| - 1]), rows[..|rows| - 1])
    ensures Summarises(Aggregate(rows), rows)
  {
    var init := rows[..|rows| - 1];
    assert Aggregate(rows) == Aggregate(init);
    forall p
      ensures FirstCounted(rows, p) == FirstCounted(init, p)
      ensures FirstCounted(init, p).Some? ==> Expected(rows, p) == Expected(init, p)
    {
      if FirstCounted(init, p).Some? {
        assert Expected(rows, p) == Expected(init, p);
      }
    }
  }

  lemma CountedStep(rows: seq<MovementRow>)
    requires rows != [] && Counted(rows[|rows| - 1])
    requires Summarises(Aggregate(rows[..|rows| - 1]), rows[..|rows| - 1])
    ensures Summarises(Aggregate(rows), rows)
  {
    var init, row := rows[..|rows| - 1], rows[|rows| - 1];
    var st0, st := Aggregate(init), Aggregate(rows);
    var p := row.productId;
    assert st == AddMovement(st0, row);
    AddMovementWellFormed(st0, row);
    AddExpected(rows);
    forall q
      ensures q in st.byProduct <==> FirstCounted(rows, q).Some?
      ensures q in st.byProduct ==> st.byProduct[q] == Expected(rows, q)
    {
      if q != p {
        OtherProduct(rows, q);
      }
    }
  }

  /** A counted row keeps the map well formed, files its product under its
      id and touches no other product. */
  lemma AddMovementWellFormed(st: Stats, row: MovementRow)
    requires WellFormed(st) && Counted(row)
    ensures var st', p := AddMovement(st, row), row.productId;
      && WellFormed(st')
      && st'.byProduct == st.byProduct[p := Add(if p in st.byProduct then st.byProduct[p] else Opening(row), row)]
  {
    var st', p := AddMovement(st, row), row.productId;
    if p !in st.byProduct {
      assert st'.order == st.order + [p];
      assert Distinct(st'.order) by {
        assert forall i :: 0 <= i < |st.order| ==> st'.order[i] == st.order[i];
        assert st'.order[|st.order|] == p;
      }
      assert forall q :: q in st'.order <==> q in st.order || q == p;
    }
  }

  /** A row of another product changes neither the first counted row nor
      the expected entry of `q`. */
  lemma OtherProduct(rows: seq<MovementRow>, q: int)
    requires rows != [] && rows[|rows| - 1].productId != q
    ensures var init := rows[..|rows| - 1];
      && FirstCounted(rows, q) == FirstCounted(init, q)
      && (FirstCounted(init, q).Some? ==> Expected(rows, q) == Expected(init, q))
  {
    var init := rows[..|rows| - 1];
    if FirstCounted(init, q).Some? {
      assert Expected(rows, q) == Expected(init, q);
    }
  }

  /** A counted row turns its product's expected entry for the rows before
      it, or the opening entry of a new product, into the expected entry
      for the rows up to it. */
  lemma AddExpected(rows: seq<MovementRow>)
    requires rows != [] && Counted(rows[|rows| - 1])
    ensures var init, row := rows[..|rows| - 1], rows[|rows| - 1];
      var p := row.productId;
      && FirstCounted(rows, p).Some?
      && Add(if FirstCounted(init, p).Some? then Expected(init, p) else Opening(row), row) == Expected(rows, p)
  {
    var init, row := rows[..|rows| - 1], rows[|rows| - 1];
    if FirstCounted(init, row.productId).None? {
      AddOpening(rows);
    } else {
      AddExisting(rows);
    }
  }

  /** The first counted row of a product adds to its opening entry. */
  lemma AddOpening(rows: seq<MovementRow>)
    requires rows != [] && Counted(rows[|rows| - 1])
    requires FirstCounted(rows[..|rows| - 1], rows[|rows| - 1].productId).None?
    ensures var row := rows[|rows| - 1];
      && FirstCounted(rows, row.productId) == Some(row)
      && Add(Opening(row), row) == Expected(rows, row.productId)
  {
    var init, row := rows[..|rows| - 1], rows[|rows| - 1];
    var p := row.productId;
    NothingCountedNoQuantity(init, p, "purchase");
    NothingCountedNoQuantity(init, p, "sale");
    NothingCountedNoQuantity(init, p, "adjustment");
    DistinctKinds();
    QuantityStep(rows, "purchase");
    QuantityStep(rows, "sale");
    QuantityStep(rows, "adjustment");
  }

  /** A later counted row adds to the product's entry for the rows before. */
  lemma AddExisting(rows: seq<MovementRow>)
    requires rows != [] && Counted(rows[|rows| - 1])
    requires FirstCounted(rows[..|rows| - 1], rows[|rows| - 1].productId).Some?
    ensures var init, row := rows[..|rows| - 1], rows[|rows| - 1];
      && FirstCounted(rows, row.productId) == FirstCounted(init, row.productId)
      && Add(Expected(init, row.productId), row) == Expected(rows, row.productId)
  {
    DistinctKinds();
    QuantityStep(rows, "purchase");
    QuantityStep(rows, "sale");
    QuantityStep(rows, "adjustment");
  }

  lemma DistinctKinds()
    ensures "purchase" != "sale" && "purchase" != "adjustment" && "sale" != "adjustment"
  {
    assert |"purchase"| == 8 && |"sale"| == 4 && |"adjustment"| == 10;
  }

  /** A counted last row adds its quantity to its own product's total of its
      own movement type. */
  lemma QuantityStep(rows: seq<MovementRow>, kind: string)
    requires rows != [] && Counted(rows[|rows| - 1])
    ensures var row := rows[|rows| - 1];
      Quantity(rows, row.productId, kind)
        == Quantity(rows[..|rows| - 1], row.productId, kind) + if row.movementType == kind then row.totalQuantity else 0
  {
  }

  /** Rows of products that do not use stock contribute nothing. */
  lemma {:induction false} UncountedRowsIgnored(rows: seq<MovementRow>)
    ensures Aggregate(rows) == Aggregate(Filter(rows, Counted))
  {
    if rows != [] {
      var init, row := rows[..|rows| - 1], rows[|rows| - 1];
      UncountedRowsIgnored(init);
      assert rows == init + [row];
      FilterAppend(init, [row], Counted);
      assert [row][1..] == [];
      var f := Filter(init, Counted);
      if Counted(row) {
        assert Filter(rows, Counted) == f + [row];
        assert (f + [row])[..|f|] == f;
      } else {
        assert Filter(rows, Counted) == f;
      }
    }
  }

  function EntryOf(st: Stats, p: int): Item
  {
    if p in st.byProduct then st.byProduct[p] else Item(p, "", None, None, 0, 0, 0, 0)
  }

  /** `Array.from(stats.values())`. */
  function Values(st: Stats): (r: seq<Item>)
    ensures |r| == |st.order|
    ensures forall i :: 0 <= i < |r| ==> r[i] == EntryOf(st, st.order[i])
  {
    seq(|st.order|, i requires 0 <= i < |st.order| => EntryOf(st, st.order[i]))
  }

  /** Whether the `categoryId` option filters at all: only a non-zero
      number does. */
  predicate Filters(categoryId: Option<int>)
  {
    categoryId.Some? && categoryId.value != 0
  }

  function InCategory(categoryId: Option<int>): Item -> bool
  {
    (item: Item) => item.categoryId == categoryId
  }

  /** Code-unit lexicographic order, standing for `localeCompare`. */
  predicate NameLeq(a: string, b: string)
  {
    a == [] || (b != [] && (a[0] < b[0] || (a[0] == b[0] && NameLeq(a[1..], b[1..]))))
  }

  lemma {:induction false} NameLeqTotal(a: string, b: string)
    ensures NameLeq(a, b) || NameLeq(b, a)
  {
    if a != [] && b != [] && a[0] == b[0] {
      NameLeqTotal(a[1..], b[1..]);
    }
  }

  lemma {:induction false} NameLeqTransitive(a: string, b: string, c: string)
    requires NameLeq(a, b) && NameLeq(b, c)
    ensures NameLeq(a, c)
  {
    if a != [] && b != [] && c != [] && a[0] == b[0] && b[0] == c[0] {
      NameLeqTransitive(a[1..], b[1..], c[1..]);
    }
  }

  ghost predicate SortedByName(s: seq<Item>)
  {
    forall i, j :: 0 <= i < j < |s| ==> NameLeq(s[i].productName, s[j].productName)
  }

  /** A stable insertion: `x` goes after every element whose name is not
      above its own. */
  function InsertByName(x: Item, s: seq<Item>): (r: seq<Item>)
    ensures |r| == |s| + 1
    ensures multiset(r) == multiset(s) + multiset{x}
  {
    if s == [] then [x]
    else if !NameLeq(s[0].productName, x.productName) then [x] + s
    else
      assert s == [s[0]] + s[1..];
      [s[0]] + InsertByName(x, s[1..])
  }

  lemma {:induction false} InsertByNameSorted(x: Item, s: seq<Item>)
    requires SortedByName(s)
    ensures SortedByName(InsertByName(x, s))
  {
    if s == [] {
    } else if !NameLeq(s[0].productName, x.productName) {
      assert forall j :: 0 <= j < |s| ==> NameLeq(x.productName, s[j].productName) by {
        NameLeqTotal(s[0].productName, x.productName);
        forall j | 0 <= j < |s|
          ensures NameLeq(x.productName, s[j].productName)
        {
          if j > 0 {
            NameLeqTransitive(x.productName, s[0].productName, s[j].productName);
          }
        }
      }
      ConsSorted(x, s);
    } else {
      var t := s[1..];
      assert SortedByName(t) by {
        forall i, j | 0 <= i < j < |t| ensures NameLeq(t[i].productName, t[j].productName) {
          assert t[i] == s[i + 1] && t[j] == s[j + 1];
        }
      }
      InsertByNameSorted(x, t);
      var r := InsertByName(x, t);
      assert forall k :: 0 <= k < |r| ==> NameLeq(s[0].productName, r[k].productName) by {
        forall k | 0 <= k < |r|
          ensures NameLeq(s[0].productName, r[k].productName)
        {
          assert r[k] in multiset(t) + multiset{x};
          if r[k] != x {
            assert r[k] in multiset(t);
            var j :| 0 <= j < |t| && t[j] == r[k];
            assert t[j] == s[j + 1];
          }
        }
      }
      ConsSorted(s[0], r);
    }
  }

  /** An item whose name is not above any name of a sorted list may head it. */
  lemma ConsSorted(a: Item, r: seq<Item>)
    requires SortedByName(r)
    requires forall k :: 0 <= k < |r| ==> NameLeq(a.productName, r[k].productName)
    ensures SortedByName([a] + r)
  {
    var s := [a] + r;
    forall i, j | 0 <= i < j < |s| ensures NameLeq(s[i].productName, s[j].productName) {
      assert s[j] == r[j - 1];
      if i > 0 {
        assert s[i] == r[i - 1];
      }
    }
  }

  /** `s.sort((a, b) => a.productName.localeCompare(b.productName))`. */
  function SortByName(s: seq<Item>): (r: seq<Item>)
    ensures |r| == |s|
    ensures multiset(r) == multiset(s)
    ensures SortedByName(r)
  {
    if s == [] then []
    else
      assert s == s[..|s| - 1] + [s[|s| - 1]];
      InsertByNameSorted(s[|s| - 1], SortByName(s[..|s| - 1]));
      InsertByName(s[|s| - 1], SortByName(s[..|s| - 1]))
  }

  /** The entries the category option keeps. */
  function Kept(values: seq<Item>, categoryId: Option<int>): seq<Item>
  {
    if Filters(categoryId) then Filter(values, InCategory(categoryId)) else values
  }

  /** The filtered and sorted list of the map's entries. */
  function Report(st: Stats, categoryId: Option<int>): seq<Item>
  {
    SortByName(Kept(Values(st), categoryId))
  }

  /** `getStatistics` on the rows of the database function. */
  function Statistics(rows: seq<MovementRow>, categoryId: Option<int>): seq<Item>
  {
    Report(Aggregate(rows), categoryId)
  }

  /** What `AggregateCorrect` establishes about the map built from `rows`. */
  ghost predicate Summarises(st: Stats, rows: seq<MovementRow>)
  {
    && WellFormed(st)
    && (forall p :: p in st.byProduct <==> FirstCounted(rows, p).Some?)
    && (forall p :: p in st.byProduct ==> st.byProduct[p] == Expected(rows, p))
  }

  /** The result lists, sorted by name, only products with a counted row
      that pass the category option, each once and with its expected,
      balanced entry. */
  lemma StatisticsCorrect(rows: seq<MovementRow>, categoryId: Option<int>)
    ensures var r := Statistics(rows, categoryId);
      && SortedByName(r)
      && (forall i :: 0 <= i < |r| ==>
            && FirstCounted(rows, r[i].productId).Some?
            && r[i] == Expected(rows, r[i].productId)
            && Balanced(r[i])
            && (Filters(categoryId) ==> r[i].categoryId == categoryId))
      && (forall i, j :: 0 <= i < j < |r| ==> r[i].productId != r[j].productId)
  {
    AggregateCorrect(rows);
    ReportCorrect(Aggregate(rows), rows, categoryId);
  }

  /** Each element of `s` is the expected, balanced entry of a product with
      a counted row, and no element occurs twice. */
  ghost predicate ExpectedEntries(s: seq<Item>, rows: seq<MovementRow>)
  {
    && Distinct(s)
    && forall i :: 0 <= i < |s| ==>
         && FirstCounted(rows, s[i].productId).Some?
         && s[i] == Expected(rows, s[i].productId)
         && Balanced(s[i])
  }

  lemma ValuesExpected(st: Stats, rows: seq<MovementRow>)
    requires Summarises(st, rows)
    ensures ExpectedEntries(Values(st), rows)
  {
    var values := Values(st);
    forall i | 0 <= i < |values|
      ensures values[i] == Expected(rows, values[i].productId) && FirstCounted(rows, values[i].productId).Some?
      ensures Balanced(values[i])
    {
      assert st.order[i] in st.order;
    }
    forall a, b | 0 <= a < b < |values|
      ensures values[a] != values[b]
    {
      assert st.order[a] in st.order && st.order[b] in st.order;
    }
  }

  /** Filtering or sorting a list of expected entries keeps it one. */
  lemma KeptExpected(values: seq<Item>, rows: seq<MovementRow>, categoryId: Option<int>)
    requires ExpectedEntries(values, rows)
    ensures ExpectedEntries(Kept(values, categoryId), rows)
    ensures Filters(categoryId) ==> forall i :: 0 <= i < |Kept(values, categoryId)| ==> Kept(values, categoryId)[i].categoryId == categoryId
  {
    var kept := Kept(values, categoryId);
    FilterMembership(values, InCategory(categoryId));
    if Filters(categoryId) {
      FilterDistinct(values, InCategory(categoryId));
      forall i | 0 <= i < |kept|
        ensures kept[i] in values
      {
        assert kept[i] in kept;
      }
    }
  }

  lemma SortedExpected(kept: seq<Item>, rows: seq<MovementRow>)
    requires ExpectedEntries(kept, rows)
    ensures ExpectedEntries(SortByName(kept), rows)
    ensures forall i :: 0 <= i < |SortByName(kept)| ==> SortByName(kept)[i] in kept
  {
    var r := SortByName(kept);
    forall i | 0 <= i < |r|
      ensures r[i] in kept
    {
      assert r[i] in multiset(kept);
    }
    DistinctOfSameMultiset(r, kept);
  }

  /** Expected entries of distinct products are distinct. */
  lemma ExpectedDistinctIds(s: seq<Item>, rows: seq<MovementRow>)
    requires ExpectedEntries(s, rows)
    ensures forall i, j :: 0 <= i < j < |s| ==> s[i].productId != s[j].productId
  {
  }

  lemma ReportCorrect(st: Stats, rows: seq<MovementRow>, categoryId: Option<int>)
    requires Summarises(st, rows)
    ensures var r := Report(st, categoryId);
      && SortedByName(r)
      && (forall i :: 0 <= i < |r| ==>
            && FirstCounted(rows, r[i].productId).Some?
            && r[i] == Expected(rows, r[i].productId)
            && Balanced(r[i])
            && (Filters(categoryId) ==> r[i].categoryId == categoryId))
      && (forall i, j :: 0 <= i < j < |r| ==> r[i].productId != r[j].productId)
  {
    var values := Values(st);
    var kept := Kept(values, categoryId);
    ValuesExpected(st, rows);
    KeptExpected(values, rows, categoryId);
    SortedExpected(kept, rows);
    ExpectedDistinctIds(SortByName(kept), rows);
  }

  /** Every product with a counted row that passes the category option is
      listed. */
  lemma StatisticsComplete(rows: seq<MovementRow>, categoryId: Option<int>, p: int)
    requires FirstCounted(rows, p).Some?
    requires Filters(categoryId) ==> FirstCounted(rows, p).value.categoryId == categoryId
    ensures exists i :: 0 <= i < |Statistics(rows, categoryId)| && Statistics(rows, categoryId)[i].productId == p
  {
    var st := Aggregate(rows);
    AggregateCorrect(rows);
    ReportComplete(st, rows, categoryId, p);
    var r := Report(st, categoryId);
    assert Statistics(rows, categoryId) == r;
    var i :| 0 <= i < |r| && r[i].productId == p;
  }

  lemma ReportComplete(st: Stats, rows: seq<MovementRow>, categoryId: Option<int>, p: int)
    requires Summarises(st, rows)
    requires FirstCounted(rows, p).Some?
    requires Filters(categoryId) ==> FirstCounted(rows, p).value.categoryId == categoryId
    ensures exists i :: 0 <= i < |Report(st, categoryId)| && Report(st, categoryId)[i].productId == p
  {
    var values := Values(st);
    var kept := Kept(values, categoryId);
    var k := IndexOf(st.order, p);
    var item := values[k];
    assert item == Expected(rows, p);
    FilterMembership(values, InCategory(categoryId));
    assert item in kept;
    var r := Report(st, categoryId);
    assert r == SortByName(kept);
    assert item in multiset(r);
    var i :| 0 <= i < |r| && r[i] == item;
    assert r[i].productId == p;
  }

  /** The `forEach` loop. */
  method AggregateMovements(rows: seq<MovementRow>) returns (stats: Stats)
    ensures stats == Aggregate(rows)
  {
    stats := Stats([], map[]);
    for i := 0 to |rows|
      invariant stats == Aggregate(rows[..i])
    {
      assert rows[..i + 1][..i] == rows[..i];
      var row := rows[i];
      if !row.usesStock {
        continue;
      }
      var existing := if row.productId in stats.byProduct then stats.byProduct[row.productId] else Opening(row);
      var quantity := row.totalQuantity;
      var updated := existing;
      if row.movementType == "purchase" {
        updated := existing.(totalPurchases := existing.totalPurchases + quantity, currentStock := existing.currentStock + quantity);
      } else if row.movementType == "sale" {
        updated := existing.(totalSales := existing.totalSales + quantity, currentStock := existing.currentStock - quantity);
      } else if row.movementType == "adjustment" {
        updated := existing.(totalAdjustments := existing.totalAdjustments + quantity, currentStock := existing.currentStock + quantity);
      }
      var order := if row.productId in stats.byProduct then stats.order else stats.order + [row.productId];
      stats := Stats(order, stats.byProduct[row.productId := updated]);
    }
    assert rows[..|rows|] == rows;
  }

  /** `getStatistics`. */
  method GetStatistics(rows: seq<MovementRow>, categoryId: Option<int>) returns (r: seq<Item>)
    ensures r == Statistics(rows, categoryId)
  {
    var stats := AggregateMovements(rows);
    var values := Values(stats);
    var filtered := Kept(values, categoryId);
    r := SortByName(filtered);
  }
}
