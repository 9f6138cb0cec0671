/** The `prices` route of temp.py: the crop/state index built from the
    price table for the page's dropdowns, and the case-insensitive state
    filter applied to the rows shown. The table is a sequence of records;
    fetching a commodity's live prices is the `fetch` parameter. */
module PriceIndex {
  import opened Wrappers
  import opened Scrape
  import Text
  import Ordering

  // ---------------------------------------------------------------------
  // The index (temp.py:176-189)
  // ---------------------------------------------------------------------

  /** Some row of the table has state `s` and commodity `c`. */
  ghost predicate Occurs(rows: seq<Record>, s: string, c: string) {
    exists i :: 0 <= i < |rows| && rows[i].state == s && rows[i].commodity == c
  }

  /** `m[k]` exists and lists `v`. */
  ghost predicate Lists(m: map<string, seq<string>>, k: string, v: string) {
    k in m && v in m[k]
  }

  /** The `state` column. */
  function StateColumn(rows: seq<Record>): (r: seq<string>)
    ensures |r| == |rows| && forall i :: 0 <= i < |rows| ==> r[i] == rows[i].state
  {
    seq(|rows|, i requires 0 <= i < |rows| => rows[i].state)
  }

  /** The `Commodity` column. */
  function CommodityColumn(rows: seq<Record>): (r: seq<string>)
    ensures |r| == |rows| && forall i :: 0 <= i < |rows| ==> r[i] == rows[i].commodity
  {
    seq(|rows|, i requires 0 <= i < |rows| => rows[i].commodity)
  }

  /** The commodities of the group of rows whose state is `s`. */
  function CommoditiesOf(rows: seq<Record>, s: string): (r: seq<string>)
    ensures forall c :: c in r <==> Occurs(rows, s, c)
  {
    if rows == [] then []
    else
      var init := rows[..|rows| - 1];
      var last := rows[|rows| - 1];
      var r := CommoditiesOf(init, s) + (if last.state == s then [last.commodity] else []);
      assert forall c :: Occurs(rows, s, c) <==> Occurs(init, s, c) || (last.state == s && last.commodity == c) by {
        forall c ensures Occurs(rows, s, c) ==> Occurs(init, s, c) || (last.state == s && last.commodity == c) {
          if Occurs(rows, s, c) {
            var i :| 0 <= i < |rows| && rows[i].state == s && rows[i].commodity == c;
            if i < |rows| - 1 { assert init[i] == rows[i]; }
          }
        }
        forall c ensures Occurs(init, s, c) ==> Occurs(rows, s, c) {
          if Occurs(init, s, c) {
            var i :| 0 <= i < |init| && init[i].state == s && init[i].commodity == c;
            assert rows[i] == init[i];
          }
        }
      }
      r
  }

  /** The states of the group of rows whose commodity is `c`. */
  function StatesOf(rows: seq<Record>, c: string): (r: seq<string>)
    ensures forall s :: s in r <==> Occurs(rows, s, c)
  {
    if rows == [] then []
    else
      var init := rows[..|rows| - 1];
      var last := rows[|rows| - 1];
      var r := StatesOf(init, c) + (if last.commodity == c then [last.state] else []);
      assert forall s :: Occurs(rows, s, c) <==> Occurs(init, s, c) || (last.state == s && last.commodity == c) by {
        forall s ensures Occurs(rows, s, c) ==> Occurs(init, s, c) || (last.state == s && last.commodity == c) {
          if Occurs(rows, s, c) {
            var i :| 0 <= i < |rows| && rows[i].state == s && rows[i].commodity == c;
            if i < |rows| - 1 { assert init[i] == rows[i]; }
          }
        }
        forall s ensures Occurs(init, s, c) ==> Occurs(rows, s, c) {
          if Occurs(init, s, c) {
            var i :| 0 <= i < |init| && init[i].state == s && init[i].commodity == c;
            assert rows[i] == init[i];
          }
        }
      }
      r
  }

  /** The four values the route derives from the table for the page. */
  datatype CommodityIndex = CommodityIndex(
    stateToCommodity: map<string, seq<string>>,
    commodityToState: map<string, seq<string>>,
    allStates: seq<string>,
    allCommodities: seq<string>)

  /** `groupby('state')['Commodity'].apply(lambda x: sorted(list(set(x))))` */
  function StateMap(rows: seq<Record>): (m: map<string, seq<string>>)
    ensures forall s :: s in m ==> Ordering.StrictlyAscending(m[s])
    ensures forall s, c :: Lists(m, s, c) ==> Occurs(rows, s, c)
  {
    var states := set i | 0 <= i < |rows| :: rows[i].state;
    map s | s in states :: Ordering.SortedDistinct(CommoditiesOf(rows, s))
  }

  /** `groupby('Commodity')['state'].apply(lambda x: sorted(list(set(x))))` */
  function CommodityMap(rows: seq<Record>): (m: map<string, seq<string>>)
    ensures forall c :: c in m ==> Ordering.StrictlyAscending(m[c])
    ensures forall s, c :: Lists(m, c, s) ==> Occurs(rows, s, c)
  {
    var commodities := set i | 0 <= i < |rows| :: rows[i].commodity;
    map c | c in commodities :: Ordering.SortedDistinct(StatesOf(rows, c))
  }

  /** temp.py:176-189: group the table both ways, each group's values
      sorted and without repetitions; an empty table gives empty maps and
      lists. */
  function BuildIndex(rows: seq<Record>): (idx: CommodityIndex)
    ensures rows == [] ==> idx == CommodityIndex(map[], map[], [], [])
    ensures Ordering.StrictlyAscending(idx.allStates) && Ordering.StrictlyAscending(idx.allCommodities)
  {
    if rows == [] then CommodityIndex(map[], map[], [], [])
    else
      CommodityIndex(StateMap(rows), CommodityMap(rows),
                     Ordering.SortedDistinct(StateColumn(rows)),
                     Ordering.SortedDistinct(CommodityColumn(rows)))
  }

  /** Every row's (state, commodity) pair is listed in both maps, and
      every listed pair comes from some row. */
  lemma IndexListsExactlyTheRows(rows: seq<Record>, s: string, c: string)
    ensures Lists(BuildIndex(rows).stateToCommodity, s, c) <==> Occurs(rows, s, c)
    ensures Lists(BuildIndex(rows).commodityToState, c, s) <==> Occurs(rows, s, c)
  {
    if rows != [] && Occurs(rows, s, c) {
      var i :| 0 <= i < |rows| && rows[i].state == s && rows[i].commodity == c;
      assert s in BuildIndex(rows).stateToCommodity;
      assert c in BuildIndex(rows).commodityToState;
    }
  }

  /** The keys of the two maps are exactly the states and the commodities
      of the table, and the two sorted lists enumerate those same keys. */
  lemma IndexKeysAreTheColumns(rows: seq<Record>)
    ensures forall s :: s in BuildIndex(rows).stateToCommodity <==> s in StateColumn(rows)
    ensures forall c :: c in BuildIndex(rows).commodityToState <==> c in CommodityColumn(rows)
    ensures forall s :: s in BuildIndex(rows).allStates <==> s in BuildIndex(rows).stateToCommodity
    ensures forall c :: c in BuildIndex(rows).allCommodities <==> c in BuildIndex(rows).commodityToState
  {
    var idx := BuildIndex(rows);
    forall s ensures s in idx.stateToCommodity <==> s in StateColumn(rows) {
      if s in StateColumn(rows) {
        var i :| 0 <= i < |rows| && StateColumn(rows)[i] == s;
        assert rows[i].state == s;
      }
    }
    forall c ensures c in idx.commodityToState <==> c in CommodityColumn(rows) {
      if c in CommodityColumn(rows) {
        var i :| 0 <= i < |rows| && CommodityColumn(rows)[i] == c;
        assert rows[i].commodity == c;
      }
    }
  }

  /** Every list the index holds is strictly ascending: sorted, with no
      value twice. */
  lemma IndexListsAscend(rows: seq<Record>)
    ensures forall s :: s in BuildIndex(rows).stateToCommodity ==>
              Ordering.StrictlyAscending(BuildIndex(rows).stateToCommodity[s])
    ensures forall c :: c in BuildIndex(rows).commodityToState ==>
              Ordering.StrictlyAscending(BuildIndex(rows).commodityToState[c])
    ensures Ordering.StrictlyAscending(BuildIndex(rows).allStates)
    ensures Ordering.StrictlyAscending(BuildIndex(rows).allCommodities)
  {
  }

  /** An empty table gives empty maps and empty lists. */
  lemma EmptyTableEmptyIndex()
    ensures BuildIndex([]) == CommodityIndex(map[], map[], [], [])
  {
  }

  /** A state is a key of the state map exactly when some pair has it. */
  lemma StateKeyHasPair(rows: seq<Record>, s: string)
    ensures s in StateMap(rows) <==> exists c :: Occurs(rows, s, c)
  {
    if s in StateMap(rows) {
      var i :| 0 <= i < |rows| && rows[i].state == s;
      assert Occurs(rows, s, rows[i].commodity);
    }
  }

  /** A commodity is a key of the commodity map exactly when some pair has it. */
  lemma CommodityKeyHasPair(rows: seq<Record>, c: string)
    ensures c in CommodityMap(rows) <==> exists s :: Occurs(rows, s, c)
  {
    if c in CommodityMap(rows) {
      var i :| 0 <= i < |rows| && rows[i].commodity == c;
      assert Occurs(rows, rows[i].state, c);
    }
  }

  lemma SameStateMaps(rows: seq<Record>, other: seq<Record>)
    requires forall s, c :: Occurs(rows, s, c) <==> Occurs(other, s, c)
    ensures StateMap(rows) == StateMap(other)
  {
    var a, b := StateMap(rows), StateMap(other);
    assert a.Keys == b.Keys by {
      forall s ensures s in a <==> s in b {
        StateKeyHasPair(rows, s);
        StateKeyHasPair(other, s);
      }
    }
    forall s | s in a ensures a[s] == b[s] {
      Ordering.SortedDistinctOfSameValues(CommoditiesOf(rows, s), CommoditiesOf(other, s));
    }
  }

  lemma SameCommodityMaps(rows: seq<Record>, other: seq<Record>)
    requires forall s, c :: Occurs(rows, s, c) <==> Occurs(other, s, c)
    ensures CommodityMap(rows) == CommodityMap(other)
  {
    var a, b := CommodityMap(rows), CommodityMap(other);
    assert a.Keys == b.Keys by {
      forall c ensures c in a <==> c in b {
        CommodityKeyHasPair(rows, c);
        CommodityKeyHasPair(other, c);
      }
    }
    forall c | c in a ensures a[c] == b[c] {
      Ordering.SortedDistinctOfSameValues(StatesOf(rows, c), StatesOf(other, c));
    }
  }

  /** The index depends only on which (state, commodity) pairs occur: two
      tables with the same pairs, in any order and multiplicity, give the
      same index. */
  lemma IndexDependsOnlyOnPairs(rows: seq<Record>, other: seq<Record>)
    requires forall s, c :: Occurs(rows, s, c) <==> Occurs(other, s, c)
    ensures BuildIndex(rows) == BuildIndex(other)
  {
    SameStateMaps(rows, other);
    SameCommodityMaps(rows, other);
    IndexKeysAreTheColumns(rows);
    IndexKeysAreTheColumns(other);
    IndexListsAscend(rows);
    IndexListsAscend(other);
    Ordering.AscendingUnique(BuildIndex(rows).allStates, BuildIndex(other).allStates);
    Ordering.AscendingUnique(BuildIndex(rows).allCommodities, BuildIndex(other).allCommodities);
  }

  // ---------------------------------------------------------------------
  // The state filter (temp.py:210-214)
  // ---------------------------------------------------------------------

  /** `row['state'].upper() == state_filter.upper()`, upper-casing ASCII only. */
  predicate StateMatches(row: Record, stateFilter: string) {
    Text.Upper(row.state) == Text.Upper(stateFilter)
  }

  /** The list comprehension: the rows whose state matches, in order. */
  function KeepState(rows: seq<Record>, stateFilter: string): (r: seq<Record>)
    ensures |r| <= |rows|
    ensures forall i :: 0 <= i < |r| ==> StateMatches(r[i], stateFilter)
  {
    if rows == [] then []
    else
      var last := rows[|rows| - 1];
      KeepState(rows[..|rows| - 1], stateFilter) + (if StateMatches(last, stateFilter) then [last] else [])
  }

  /** `if state_filter:` guards the comprehension: an empty filter keeps the list. */
  function StateFilter(rows: seq<Record>, stateFilter: string): (r: seq<Record>)
    ensures |r| <= |rows|
    ensures stateFilter == "" ==> r == rows
    ensures stateFilter != "" ==> forall i :: 0 <= i < |r| ==> StateMatches(r[i], stateFilter)
  {
    if stateFilter == "" then rows else KeepState(rows, stateFilter)
  }

  /** The filter commutes with concatenation: it selects an
      order-preserving subsequence. */
  lemma {:induction false} KeepStateAppend(xs: seq<Record>, ys: seq<Record>, stateFilter: string)
    ensures KeepState(xs + ys, stateFilter) == KeepState(xs, stateFilter) + KeepState(ys, stateFilter)
    decreases |ys|
  {
    if ys == [] {
      assert xs + ys == xs;
    } else {
      var zs := xs + ys;
      assert zs[..|zs| - 1] == xs + ys[..|ys| - 1];
      assert zs[|zs| - 1] == ys[|ys| - 1];
      KeepStateAppend(xs, ys[..|ys| - 1], stateFilter);
    }
  }

  /** A single row is kept exactly when its state matches. */
  lemma KeepStateOne(row: Record, stateFilter: string)
    ensures KeepState([row], stateFilter) == if StateMatches(row, stateFilter) then [row] else []
  {
    assert [row][..0] == [];
  }

  /** A row is shown exactly when it is in the list and either the filter
      is empty or the row's state equals the filter ignoring ASCII case. */
  lemma {:induction false} StateFilterKeepsExactly(rows: seq<Record>, stateFilter: string, row: Record)
    ensures row in StateFilter(rows, stateFilter) <==>
              row in rows && (stateFilter == "" || StateMatches(row, stateFilter))
  {
    if stateFilter != "" && rows != [] {
      var init := rows[..|rows| - 1];
      StateFilterKeepsExactly(init, stateFilter, row);
      assert rows == init + [rows[|rows| - 1]];
    }
  }

  /** Filtering twice by the same state is filtering once. */
  lemma {:induction false} StateFilterIdempotent(rows: seq<Record>, stateFilter: string)
    ensures StateFilter(StateFilter(rows, stateFilter), stateFilter) == StateFilter(rows, stateFilter)
  {
    if stateFilter != "" && rows != [] {
      var init := rows[..|rows| - 1];
      var last := rows[|rows| - 1];
      StateFilterIdempotent(init, stateFilter);
      var kept := if StateMatches(last, stateFilter) then [last] else [];
      KeepStateAppend(KeepState(init, stateFilter), kept, stateFilter);
    }
  }

  /** Two filters that differ only in ASCII case show the same rows. */
  lemma {:induction false} StateFilterIgnoresCase(rows: seq<Record>, f: string, g: string)
    requires Text.Upper(f) == Text.Upper(g)
    ensures StateFilter(rows, f) == StateFilter(rows, g)
  {
    assert f == "" <==> g == "" by { assert |f| == |Text.Upper(f)| && |g| == |Text.Upper(g)|; }
    if rows != [] {
      StateFilterIgnoresCase(rows[..|rows| - 1], f, g);
    }
  }

  // ---------------------------------------------------------------------
  // The route (temp.py:191-214, 234-236)
  // ---------------------------------------------------------------------

  /** A GET, or a POST of the form's `commodity` and `state` fields
      ('' when absent). */
  datatype PricesRequest = Get | Post(commodity: string, state: string)

  /** The values handed to the `prices.html` template. */
  datatype PricesPage = PricesPage(
    isCommodity: bool,
    index: CommodityIndex,
    prices: seq<Record>,
    commodityFilter: string,
    stateFilter: string)

  /** The `prices` route for a given table; `pageFor(c)` is the page the
      browser obtains for commodity `c` (`None` when it fails), which
      `extract_commodity_data` turns into records. */
  function Prices(table: seq<Record>, req: PricesRequest,
                  pageFor: string -> Option<seq<TBody>>): (page: PricesPage)
    ensures page.index == BuildIndex(table)
    ensures page.isCommodity <==> req.Post?
    ensures req.Get? ==> page.commodityFilter == "" && page.stateFilter == ""
    ensures req.Post? ==> page.commodityFilter == req.commodity && page.stateFilter == req.state
    ensures |page.prices| <= |if req.Post? && req.commodity != "" then Extracted(pageFor(req.commodity)) else table|
  {
    match req
    case Get => PricesPage(false, BuildIndex(table), table, "", "")
    case Post(commodity, state) =>
      var source := if commodity != "" then Extracted(pageFor(commodity)) else table;
      PricesPage(true, BuildIndex(table), StateFilter(source, state), commodity, state)
  }

  /** GET shows the whole table with `is_commodity` false; a POST without
      a commodity or state shows the whole table with `is_commodity` true;
      any POST shows exactly the rows of its source (the fetched
      commodity's records, or the table when no commodity was chosen)
      whose state matches the filter. */
  lemma PricesShowsSelectedRows(table: seq<Record>, req: PricesRequest,
                                pageFor: string -> Option<seq<TBody>>, row: Record)
    ensures req.Get? ==> Prices(table, req, pageFor).prices == table
    ensures req == Post("", "") ==> Prices(table, req, pageFor).prices == table
    ensures req.Post? ==>
              var source := if req.commodity != "" then Extracted(pageFor(req.commodity)) else table;
              (row in Prices(table, req, pageFor).prices <==>
                 row in source && (req.state == "" || StateMatches(row, req.state)))
  {
    if req.Post? {
      var source := if req.commodity != "" then Extracted(pageFor(req.commodity)) else table;
      StateFilterKeepsExactly(source, req.state, row);
    }
  }
}
