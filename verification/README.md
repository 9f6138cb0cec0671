# Krishimitra price tables — a Dafny model

Krishimitra is a Flask site for farmers. Its market-price pages scrape the
eNAM live-price table, shape it into price records, and index those
records by state and commodity for the page's dropdowns. A transport
calculator turns quantity, price and transport cost into revenues. A
module-level `current_user` dictionary records who is logged in.

This project models those parts and proves what they promise:

- `Scrape` (app.py, `extract_commodity_data`). The nested loop that
  collects the stripped cells of every table row with at least one cell is
  a method, `CollectRows` (its inner loop is `CollectTBody`), proved
  against the function `Collected`. The
  header drop, the padding to six cells, and the zip with the six column
  names are functions. A page that could not be fetched and a data frame
  that cannot be built both yield the empty list.
- `PriceIndex` (temp.py, `prices` route). It builds the maps
  state → sorted distinct commodities and commodity → sorted distinct
  states, and the sorted lists of all states and all commodities. It also
  models the case-insensitive state filter and what the route shows for
  GET and POST.
- `Transport` (app.py, `transport_calculator`): gross revenue, net revenue
  and the echoed transport cost, with missing fields read as 0.
- `Session` (app.py, `current_user`, `login`, `logout`, `login_required`).
  This is a class whose fields the login and logout methods update in
  place. Its invariant `Valid` ties the flag to the stored user.
- `Text` and `Ordering` hold Python's `str.strip`, `str.upper` (ASCII
  letters only), Python's string order and `sorted(list(set(xs)))`.

The model follows the code as written:
- Prices stay text. No separators are stripped and nothing is parsed.
- The state is compared upper-cased only inside the filter; the index
  groups by the state exactly as written.
- The index is built from whatever table it is given.

## Model

| member | source | states |
|---|---|---|
| Text.SkipSpace | app.py:100 | the index returned ends the whitespace run starting at the given index: everything between is whitespace and the character there, if any, is not |
| Text.BackSpace | app.py:100 | the index returned starts the whitespace run ending at the given index, stopping at the lower bound: everything between is whitespace and the character before it, if above the bound, is not |
| Text.Strip | app.py:100 | the stripped cell is an infix of the raw text with only whitespace around it, and neither starts nor ends with whitespace |
| Text.Upper | temp.py:213 | upper-casing keeps the length, maps every ASCII lower-case letter to its capital and leaves every other character alone, so no ASCII lower-case letter is left |
| Ordering.Less | temp.py:177-184 | Python's `str` order: lexicographic by code point, never relating a string to itself; LessIrreflexive, LessTransitive and LessTotal prove it a strict total order, the order `sorted` needs |
| Ordering.Insert | temp.py:178 | inserting into a sorted, duplicate-free list keeps it so and adds exactly the new value |
| Ordering.SortedDistinct | temp.py:177-184 | `sorted(list(set(xs)))` is strictly ascending and holds exactly the values of `xs` |
| Ordering.AscendingUnique | temp.py:177-184 | two strictly ascending lists with the same values are equal, so each sorted list is determined by its set |
| Ordering.SortedDistinctOfSameValues | temp.py:177-184 | the sorted distinct list depends only on which values occur, not on their order or repetition |
| Scrape.StripCells | app.py:100 | every cell of a row is stripped, one output cell per `<td>` |
| Scrape.RowsWithCells | app.py:99-102 | only rows with at least one cell are kept, never more rows than given |
| Scrape.Collected | app.py:96-102 | every collected row has at least one cell; CollectedInDocumentOrder shows it selects, over all rows of the page in document order, exactly those with a cell |
| Scrape.CollectRows | app.py:96-102 | the loop leaves in `data_list` exactly `Collected(tables)` |
| Scrape.CollectTBody | app.py:99-102 | the inner loop appends to `data_list` exactly the stripped rows of one tbody that have a cell, in order |
| Scrape.RowsWithCellsStep | app.py:99-102 | one more row adds its stripped cells exactly when it has a cell |
| Scrape.CollectedStep | app.py:97-102 | one more tbody appends its rows that have cells |
| Scrape.RowsWithCellsAppend | app.py:97-102 | selecting rows with cells commutes with concatenation, so order is kept |
| Scrape.RowsWithCellsOne | app.py:101-102 | a single row is kept, stripped, exactly when it has a cell |
| Scrape.CollectedInDocumentOrder | app.py:97-102 | collecting tbody by tbody equals selecting over all rows of the page in document order |
| Scrape.DropHeader | app.py:104 | the first row is dropped, every later row kept at the index one lower; an empty list stays empty |
| Scrape.Repeat | app.py:106 | Python's `[x] * n`: `n` copies of `x`, none when `n <= 0` |
| Scrape.Pad | app.py:105-106 | a row of at most six cells becomes six cells, its own cells first, then `''`; a row of six or more is unchanged |
| Scrape.PadAll | app.py:106 | padding maps the rows one to one and leaves every row at least six cells wide |
| Scrape.RecordZipsColumns | app.py:108-111 | a record pairs each column name with the row's cell at the same position, has no other key, and gives the row back |
| Scrape.Frame | app.py:108-111 | on padded rows, the frame is built exactly when every row has six cells; then there is one record per row, in order, holding that row; otherwise it names a row wider than six |
| Scrape.Extracted | app.py:67-114 | a page that could not be fetched gives the empty list; otherwise either the empty list or one record per data row after the header; ExtractedRecordsByPosition and ExtractedOverlongRowGivesNothing say which and what each record holds |
| Scrape.ExtractCommodityData | app.py:67-114 | the method returns `Extracted(page)`: the empty list when the page fails, else the records of the shaped rows, or the empty list when they cannot be framed |
| Scrape.ExtractedRecordsByPosition | app.py:104-111 | without over-wide rows there is one record per row after the header, in order, each field being the cell at its column or `''` |
| Scrape.ExtractedOverlongRowGivesNothing | app.py:108-114 | a data row wider than six cells makes the whole result the empty list |
| PriceIndex.StateColumn | temp.py:183 | the `state` column, row by row |
| PriceIndex.CommodityColumn | temp.py:184 | the `Commodity` column, row by row |
| PriceIndex.CommoditiesOf | temp.py:177-179 | the group of a state holds exactly the commodities that occur with that state |
| PriceIndex.StatesOf | temp.py:180-182 | the group of a commodity holds exactly the states that occur with that commodity |
| PriceIndex.StateMap | temp.py:177-179 | every commodity list is strictly ascending and lists only commodities that occur with its state; StateKeyHasPair and IndexListsExactlyTheRows give the converse |
| PriceIndex.CommodityMap | temp.py:180-182 | every state list is strictly ascending and lists only states that occur with its commodity; CommodityKeyHasPair and IndexListsExactlyTheRows give the converse |
| PriceIndex.BuildIndex | temp.py:176-189 | an empty table gives the empty index and both key lists are strictly ascending; IndexListsExactlyTheRows, IndexKeysAreTheColumns and IndexListsAscend state the rest |
| PriceIndex.StateKeyHasPair | temp.py:177-179 | a state is a key exactly when some row has it |
| PriceIndex.CommodityKeyHasPair | temp.py:180-182 | a commodity is a key exactly when some row has it |
| PriceIndex.SameStateMaps | temp.py:177-179 | tables with the same pairs give the same state map |
| PriceIndex.SameCommodityMaps | temp.py:180-182 | tables with the same pairs give the same commodity map |
| PriceIndex.IndexListsExactlyTheRows | temp.py:177-182 | `c` is listed under `s` in the state map, and `s` under `c` in the commodity map, exactly when some row has state `s` and commodity `c` |
| PriceIndex.IndexKeysAreTheColumns | temp.py:177-184 | the map keys are exactly the states and the commodities of the table, and the two lists enumerate those keys |
| PriceIndex.IndexListsAscend | temp.py:177-184 | every value list and both key lists are strictly ascending: sorted, no repetitions |
| PriceIndex.EmptyTableEmptyIndex | temp.py:185-189 | an empty table gives empty maps and empty lists |
| PriceIndex.IndexDependsOnlyOnPairs | temp.py:176-189 | the index depends only on which (state, commodity) pairs occur, so rebuilding from the same table gives the same index |
| PriceIndex.KeepState | temp.py:211-214 | every kept row's state matches the filter, never more rows than given |
| PriceIndex.StateFilter | temp.py:210-214 | never more rows than given; the empty filter keeps every row; any other filter keeps only rows whose state matches it; StateFilterKeepsExactly gives the exact selection |
| PriceIndex.KeepStateAppend | temp.py:211-214 | the filter commutes with concatenation: an order-preserving subsequence |
| PriceIndex.KeepStateOne | temp.py:211-214 | a single row is kept exactly when its upper-cased state equals the upper-cased filter |
| PriceIndex.StateFilterKeepsExactly | temp.py:210-214 | a row is shown exactly when it is listed and the filter is empty or matches its state ignoring ASCII case |
| PriceIndex.StateFilterIdempotent | temp.py:210-214 | filtering twice by the same state equals filtering once |
| PriceIndex.StateFilterIgnoresCase | temp.py:210-213 | any two filters equal after ASCII upper-casing, the empty filter included, show the same rows |
| PriceIndex.Prices | temp.py:191-236 | the page carries the table's index; `is_commodity` holds exactly for POST; GET shows no filters, POST echoes them; no more rows than the source |
| PriceIndex.PricesShowsSelectedRows | temp.py:195-236 | GET and a POST with neither commodity nor state show the whole table; any POST shows exactly the source rows whose state matches |
| Transport.FieldOrZero | app.py:204-206 | a missing field counts as 0, a present one as its value |
| Transport.TransportCalculator | app.py:199-215 | GET gives no result; POST gives gross = quantity × price, echoes the transport cost, and net + transport cost = gross |
| Transport.EmptyFormGivesZero | app.py:204-215 | an all-missing form gives all-zero results |
| Session.CurrentUser.constructor | app.py:141 | the session starts with no user: name, id and details empty, flag false |
| Session.CurrentUser.Login | app.py:277-306 | logged in: to the dashboard, nothing changes; verified POST: user stored, flag set, home with a welcome; otherwise the login page, with an error after a POST, nothing changes |
| Session.CurrentUser.Logout | app.py:373-382 | all four entries go back to their initial values, home with a message |
| Session.CurrentUser.Guard | app.py:148-155 | the handler's response goes through exactly when the `is_authenticated` flag is set, and so exactly when a user is stored; otherwise a redirect to the login page with a warning |
| Session.CurrentUser.GuardFollowsLogin | app.py:148-155 | whoever was logged in before, after a verified login a guarded route is open, and after the next logout it is closed and the session is back to its initial empty state |

## Left out

- Selenium, BeautifulSoup and page navigation, waits and sleeps (app.py:34-95, temp.py:15-133) are left out because they are browser I/O. The model takes the cell texts of the `tbodya` rows as input, and `None` when the browser step fails.
- `extract_commodity_list` (app.py:34-65) is left out because it is browser I/O with a fixed fallback list.
- pandas is modelled as plain zip and group-by over sequences. When rows are wider than six cells, pandas raises; the model only keeps that this fails and is caught as `[]`, not pandas' error text.
- The record type: pandas returns dictionaries; the model uses a `Record` datatype and `Scrape.Field` for key lookup.
- Text.Upper: upper-cases ASCII letters only. Python's `str.upper` also maps other Unicode letters, some to several characters.
- Ordering.Less: compares characters by code point, as Python does for `str`. Python's surrogate handling is not modelled.
- The UPAg scraping, chart drawing and base64 encoding (temp.py:15-164, 216-233) are left out because they are file and browser I/O and plotting.
- Flask routing, `render_template`, `redirect`, `url_for` and request parsing are left out because they are web plumbing. Handlers are functions or methods from inputs to result values.
- Transport.TransportCalculator: works over `real`, not IEEE floats, so float rounding is not modelled. A field that `float()` cannot parse raises in the source; the model takes fields as already-parsed numbers.
- SQLAlchemy user lookup, password hashing, `login_user`, `last_login`, commits and rollbacks are left out because they are database I/O. Session.CurrentUser.Login takes the lookup-and-check outcome as the `verified` parameter.
- The routes `dashboard`, `profile` and `farmer_input` are left out because their bodies are database I/O or template rendering. Only their `login_required` guard is modelled (`Session.CurrentUser.Guard`).
- The route `register` (app.py:308-348) is left out entirely, because its body is database I/O. That includes its redirect of a logged-in user to the dashboard (app.py:310-311).
- PriceIndex.Prices: as written, the route in temp.py takes its table from `extract_commodity_list()`, which returns a list of commodity names (app.py:62, 65). `master_df.empty` at temp.py:176 then fails on every request. The model gives the route a table of records instead, the table the code evidently means.
- Scrape.Frame: takes only rows of at least six cells, which is all that `PadAll` passes on. pandas fills shorter rows with `None` when the widest row has exactly six cells, and raises otherwise; neither is modelled, since no such row reaches it.
- app.py's own `prices` route (app.py:167-195) is left out because the temp.py version replaces it. Its mock price table is not part of this model either.
- PriceIndex.StateMap and PriceIndex.CommodityMap: the dictionaries built by `groupby` list their keys in sorted order; a Dafny `map` has no key order, so the model keeps that order only in `allStates` and `allCommodities`, which enumerate the same keys in ascending order.
- Session.CurrentUser: the dictionary is shared by all requests with no locking. Concurrent requests are not modelled.
