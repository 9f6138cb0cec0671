/** The table-shaping half of `extract_commodity_data` (app.py): the
    scraped price table, already located in the page, is turned into one
    record per market. The browser session that fetches the page is not
    modelled: it becomes the `page` parameter, `None` when it fails. */
module Scrape {
  import opened Wrappers
  import Text

  /** The raw texts of the `<td>` cells of one `<tr>`. */
  type RawRow = seq<string>

  /** One `<tbody>` whose class contains "tbodya": its rows in page order. */
  type TBody = seq<RawRow>

  const NumCols: nat := 6

  /** The column names given to the data frame, in order. */
  const Columns: seq<string> := ["state", "APMC", "Commodity", "Min_Price", "Modal_Price", "Max_Price"]

  /** One record of `to_dict(orient='records')`; prices stay text. */
  datatype Record = Record(state: string, apmc: string, commodity: string,
                           minPrice: string, modalPrice: string, maxPrice: string)

  // ---------------------------------------------------------------------
  // Collecting the rows (the nested append loop)
  // ---------------------------------------------------------------------

  /** `[col.text.strip() for col in row.find_all("td")]` */
  function StripCells(raw: RawRow): (cols: seq<string>)
    ensures |cols| == |raw|
    ensures forall i :: 0 <= i < |raw| ==> cols[i] == Text.Strip(raw[i])
  {
    seq(|raw|, i requires 0 <= i < |raw| => Text.Strip(raw[i]))
  }

  /** The stripped rows of `rows` that have at least one cell, in order. */
  function RowsWithCells(rows: seq<RawRow>): (r: seq<seq<string>>)
    ensures |r| <= |rows|
    ensures forall i :: 0 <= i < |r| ==> |r[i]| > 0
  {
    if rows == [] then []
    else
      var cols := StripCells(rows[|rows| - 1]);
      RowsWithCells(rows[..|rows| - 1]) + (if |cols| > 0 then [cols] else [])
  }

  /** What `data_list` holds after the loop over all tbodies: only rows
      with at least one cell. */
  function Collected(tables: seq<TBody>): (r: seq<seq<string>>)
    ensures forall i :: 0 <= i < |r| ==> |r[i]| > 0
  {
    if tables == [] then []
    else Collected(tables[..|tables| - 1]) + RowsWithCells(tables[|tables| - 1])
  }

  /** All rows of all tbodies in page order. */
  function Flatten(tables: seq<TBody>): seq<RawRow>
  {
    if tables == [] then [] else Flatten(tables[..|tables| - 1]) + tables[|tables| - 1]
  }

  /** The loop of app.py:96-102: `data_list` receives, in page order, the
      stripped cells of every row that has at least one cell. */
  method CollectRows(tables: seq<TBody>) returns (dataList: seq<seq<string>>)
    ensures dataList == Collected(tables)
  {
    dataList := [];
    var t := 0;
    while t < |tables|
      invariant 0 <= t <= |tables|
      invariant dataList == Collected(tables[..t])
    {
      dataList := CollectTBody(dataList, tables[t]);
      CollectedStep(tables, t);
      t := t + 1;
    }
    assert tables[..t] == tables;
  }

  /** The inner loop of app.py:99-102 over the rows of one tbody: the
      stripped cells of each row with at least one cell are appended. */
  method CollectTBody(dataList: seq<seq<string>>, rows: TBody) returns (out: seq<seq<string>>)
    ensures out == dataList + RowsWithCells(rows)
  {
    out := dataList;
    var r := 0;
    while r < |rows|
      invariant 0 <= r <= |rows|
      invariant out == dataList + RowsWithCells(rows[..r])
    {
      var cols := StripCells(rows[r]);
      if |cols| > 0 {
        out := out + [cols];
      }
      RowsWithCellsStep(rows, r);
      r := r + 1;
    }
    assert rows[..r] == rows;
  }

  /** One more row of a tbody adds that row when it has a cell. */
  lemma RowsWithCellsStep(rows: seq<RawRow>, r: nat)
    requires r < |rows|
    ensures RowsWithCells(rows[..r + 1]) == RowsWithCells(rows[..r])
              + (if |rows[r]| > 0 then [StripCells(rows[r])] else [])
  {
    assert rows[..r + 1][..r] == rows[..r];
  }

  /** One more tbody adds its rows with cells. */
  lemma CollectedStep(tables: seq<TBody>, t: nat)
    requires t < |tables|
    ensures Collected(tables[..t + 1]) == Collected(tables[..t]) + RowsWithCells(tables[t])
  {
    assert tables[..t + 1][..t] == tables[..t];
  }

  /** Keeping the rows with cells commutes with concatenation: it is an
      order-preserving selection. */
  lemma {:induction false} RowsWithCellsAppend(xs: seq<RawRow>, ys: seq<RawRow>)
    ensures RowsWithCells(xs + ys) == RowsWithCells(xs) + RowsWithCells(ys)
    decreases |ys|
  {
    if ys != [] {
      var last := ys[|ys| - 1];
      assert (xs + ys)[..|xs + ys| - 1] == xs + ys[..|ys| - 1];
      RowsWithCellsAppend(xs, ys[..|ys| - 1]);
    } else {
      assert xs + ys == xs;
    }
  }

  /** A single row is kept, stripped, exactly when it has a cell. */
  lemma RowsWithCellsOne(raw: RawRow)
    ensures RowsWithCells([raw]) == if |raw| > 0 then [StripCells(raw)] else []
  {
    assert [raw][..0] == [];
  }

  /** Collecting tbody by tbody equals collecting over all rows of the
      page in document order. */
  lemma {:induction false} CollectedInDocumentOrder(tables: seq<TBody>)
    ensures Collected(tables) == RowsWithCells(Flatten(tables))
  {
    if tables != [] {
      var init := tables[..|tables| - 1];
      CollectedInDocumentOrder(init);
      RowsWithCellsAppend(Flatten(init), tables[|tables| - 1]);
    }
  }

  // ---------------------------------------------------------------------
  // Header, padding and the records
  // ---------------------------------------------------------------------

  /** `data_list[1:]`: the first row is the header; an empty list stays empty. */
  function DropHeader(rows: seq<seq<string>>): (r: seq<seq<string>>)
    ensures |r| == if rows == [] then 0 else |rows| - 1
    ensures forall i :: 0 <= i < |r| ==> r[i] == rows[i + 1]
  {
    if rows == [] then [] else rows[1..]
  }

  /** Python's `[x] * n`, which is empty for `n <= 0`. */
  function Repeat(x: string, n: int): (r: seq<string>)
    ensures |r| == if n <= 0 then 0 else n
    ensures forall i :: 0 <= i < |r| ==> r[i] == x
    decreases n
  {
    if n <= 0 then [] else [x] + Repeat(x, n - 1)
  }

  /** `row if len(row) == num_cols else row + ['']*(num_cols-len(row))` */
  function Pad(row: seq<string>): (r: seq<string>)
    ensures |row| <= NumCols ==> |r| == NumCols && r[..|row|] == row
    ensures |row| <= NumCols ==> forall i :: |row| <= i < NumCols ==> r[i] == ""
    ensures |row| >= NumCols ==> r == row
  {
    if |row| == NumCols then row else row + Repeat("", NumCols - |row|)
  }

  /** The padding comprehension applied to every row. */
  function PadAll(rows: seq<seq<string>>): (r: seq<seq<string>>)
    ensures |r| == |rows|
    ensures forall i :: 0 <= i < |rows| ==> r[i] == Pad(rows[i])
    ensures forall i :: 0 <= i < |r| ==> |r[i]| >= NumCols
  {
    seq(|rows|, i requires 0 <= i < |rows| => Pad(rows[i]))
  }

  function ToRecord(row: seq<string>): Record
    requires |row| == NumCols
  {
    Record(row[0], row[1], row[2], row[3], row[4], row[5])
  }

  /** The record's values in column order. */
  function Cells(r: Record): seq<string>
  {
    [r.state, r.apmc, r.commodity, r.minPrice, r.modalPrice, r.maxPrice]
  }

  /** `record[column]` on a record dictionary; `None` for an unknown key. */
  function Field(r: Record, column: string): Option<string>
  {
    if column == "state" then Some(r.state)
    else if column == "APMC" then Some(r.apmc)
    else if column == "Commodity" then Some(r.commodity)
    else if column == "Min_Price" then Some(r.minPrice)
    else if column == "Modal_Price" then Some(r.modalPrice)
    else if column == "Max_Price" then Some(r.maxPrice)
    else None
  }

  /** A record pairs each column name with the row's cell at the same
      position, and has no other keys; reading its values back in column
      order gives the row. */
  lemma RecordZipsColumns(row: seq<string>, column: string)
    requires |row| == NumCols
    ensures Cells(ToRecord(row)) == row
    ensures forall i :: 0 <= i < NumCols ==> Field(ToRecord(row), Columns[i]) == Some(row[i])
    ensures column !in Columns ==> Field(ToRecord(row), column) == None
  {
  }

  datatype FrameError = ColumnCountMismatch(row: nat)

  /** `pd.DataFrame(rows, columns=Columns).to_dict(orient='records')` on
      padded rows: fails on rows wider than six cells, the only mismatch
      left after padding. */
  function Frame(rows: seq<seq<string>>): (r: Result<seq<Record>, FrameError>)
    requires forall i :: 0 <= i < |rows| ==> |rows[i]| >= NumCols
    ensures r.Success? <==> forall i :: 0 <= i < |rows| ==> |rows[i]| == NumCols
    ensures r.Success? ==> |r.value| == |rows|
    ensures r.Success? ==> forall i :: 0 <= i < |rows| ==> Cells(r.value[i]) == rows[i]
    ensures r.Failure? ==> r.error.row < |rows| && |rows[r.error.row]| > NumCols
  {
    if rows == [] then Success([])
    else if |rows[0]| > NumCols then Failure(ColumnCountMismatch(0))
    else
      match Frame(rows[1..])
      case Success(rest) => Success([ToRecord(rows[0])] + rest)
      case Failure(e) => Failure(ColumnCountMismatch(e.row + 1))
  }

  /** What `extract_commodity_data` returns for a fetched page (`None`:
      the browser step failed). */
  function Extracted(page: Option<seq<TBody>>): (r: seq<Record>)
    ensures page.None? ==> r == []
    ensures page.Some? ==> r == [] || |r| == |DropHeader(Collected(page.value))|
  {
    match page
    case None => []
    case Some(tables) =>
      match Frame(PadAll(DropHeader(Collected(tables))))
      case Success(records) => records
      case Failure(_) => []
  }

  /** app.py:67-114: collect the rows, drop the header, pad, build the
      records; any failure yields the empty list. */
  method ExtractCommodityData(page: Option<seq<TBody>>) returns (records: seq<Record>)
    ensures records == Extracted(page)
  {
    if page.None? {
      return [];
    }
    var dataList := CollectRows(page.value);
    var dataRows := DropHeader(dataList);
    dataRows := PadAll(dataRows);
    var frame := Frame(dataRows);
    if frame.Success? {
      records := frame.value;
    } else {
      records := [];
    }
  }

  /** When no data row is wider than six cells, there is one record per
      collected row after the header, in order, whose fields are that
      row's cells by position and '' where the row was short. */
  lemma ExtractedRecordsByPosition(tables: seq<TBody>)
    requires forall i :: 1 <= i < |Collected(tables)| ==> |Collected(tables)[i]| <= NumCols
    ensures var rows := Collected(tables);
            var records := Extracted(Some(tables));
            && |records| == (if rows == [] then 0 else |rows| - 1)
            && forall i, k :: 0 <= i < |records| && 0 <= k < NumCols ==>
                 Field(records[i], Columns[k]) == Some(if k < |rows[i + 1]| then rows[i + 1][k] else "")
  {
    var rows := Collected(tables);
    var padded := PadAll(DropHeader(rows));
    assert forall i :: 0 <= i < |padded| ==> |padded[i]| == NumCols;
    var records := Extracted(Some(tables));
    forall i, k | 0 <= i < |records| && 0 <= k < NumCols
      ensures Field(records[i], Columns[k]) == Some(if k < |rows[i + 1]| then rows[i + 1][k] else "")
    {
      assert Cells(records[i]) == Pad(rows[i + 1]);
      assert records[i] == ToRecord(Pad(rows[i + 1]));
      RecordZipsColumns(Pad(rows[i + 1]), Columns[k]);
      if k < |rows[i + 1]| {
        assert Pad(rows[i + 1])[..|rows[i + 1]|][k] == rows[i + 1][k];
      }
    }
  }

  /** A data row wider than six cells makes the data frame fail, and the
      failure is swallowed: the result is the empty list. */
  lemma ExtractedOverlongRowGivesNothing(tables: seq<TBody>, i: nat)
    requires 1 <= i < |Collected(tables)| && |Collected(tables)[i]| > NumCols
    ensures Extracted(Some(tables)) == []
  {
    var padded := PadAll(DropHeader(Collected(tables)));
    assert |padded[i - 1]| > NumCols;
  }
}
