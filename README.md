# ScientiFlow upload, axis selection and chart view, in Dafny

ScientiFlow lets a user upload a CSV or JSON file, pick an X column and a list of
Y entries from the uploaded columns, and see a Plotly chart of the data. This
project models three parts of it and proves properties of each:

- **The upload endpoint** (`backend/main.py`, module `Upload`). It dispatches on
  the lower-cased file name. A CSV file becomes its header row as `columns` plus
  one dict per later row of matching length, built with Python's
  `dict(zip(...))` semantics: a repeated header name keeps its first position
  and takes the later value. A JSON file is accepted as a non-empty list
  (`columns` are the keys of its first element, `data` is the list unchanged) or
  as an object (`data` is the one-element list holding it). Every other case
  fails with status 400 and the source's exact detail message. An empty CSV
  fails with "CSV parsing error: 400: Empty CSV": the generic handler re-wraps
  the inner exception, and `str()` of an `HTTPException` is
  "status: detail".
- **The session state of the front end** (`frontend/src/App.js`, class
  `App.Session`). It holds the column catalog, the rows, the optional X
  column, the ordered Y entries `{name, color, label}`, the chart type and the
  two axis labels. Its handlers add the first free column as a new Y entry,
  remove an entry by index, change one field of one entry, reset everything on
  a new upload, and list the columns offered to an entry. Two details of the
  source are kept:
  - `handleAddYAxis` tests the found column for truthiness, so a column named
    `""` is never added.
  - Dropping a column on X does not remove it from the Y entries.
- **The chart view** (`frontend/src/components/GraphViewer.js`, module
  `GraphViewer`). It shows a placeholder unless both axis names are truthy.
  Otherwise it shows a heading "x vs y", exactly one trace whose x and y values
  are the rows projected on the two columns in row order, chart-type-dependent
  styling, and a layout whose title is the capitalised chart type followed by
  " Chart".

Modules: `Wrappers` (Option, Result), `Json` (JSON values and member lookup),
`Upload`, `GraphViewer`, `App`.

## Model

| member | source | states |
|---|---|---|
| `Json.Lookup` | frontend/src/components/GraphViewer.js:9-10 | own-property access on an object: absent exactly when no member has the key, otherwise the value of a member with that key |
| `Upload.KindOf` | backend/main.py:17-48 | CSV handling exactly when the lower-cased name ends in ".csv"; JSON handling exactly when it ends in ".json"; anything else is unsupported |
| `Upload.KindIgnoresCase` | backend/main.py:17 | the extension's letter case never changes the branch taken |
| `Upload.Insert` | backend/main.py:28 | assigning a new key appends it; assigning an existing key keeps the key order |
| `Upload.InsertLookup` | backend/main.py:28 | after `d[k] = v`, `k` reads back `v` and every other key reads what it read before |
| `Upload.InsertKeepsDistinct` | backend/main.py:28 | assignment never creates a duplicate key |
| `Upload.ZipDict` | backend/main.py:28 | the keys of `dict(zip(columns, row))` are exactly the header names |
| `Upload.ZipDictDistinct` | backend/main.py:28 | each row dict has every key once, even with a repeated header name |
| `Upload.ZipDictLookup` | backend/main.py:28 | a header name with no later duplicate maps to the cell in its own position |
| `Upload.ZipDictOfDistinctHeader` | backend/main.py:28 | with distinct header names, the dict is exactly the pairs `(columns[j], row[j])` in header order |
| `Upload.ShapeRows` | backend/main.py:28 | at most one dict per row, and every entry is an object |
| `Upload.ShapeRowsAppend` | backend/main.py:28 | shaping keeps row order: the shape of `a + b` is the shape of `a` followed by the shape of `b` |
| `Upload.ShapeRowsSingle` | backend/main.py:28 | a row of the header's length contributes its dict; a row of any other length is dropped silently |
| `Upload.ShapeRowsAllMatching` | backend/main.py:28 | when every row matches the header, nothing is dropped and dict k comes from row k |
| `Upload.ShapeRowsKeys` | backend/main.py:28 | every shaped row has exactly the header names as keys, each once |
| `Upload.CsvUpload` | backend/main.py:21-31 | success exactly when the reader produced at least one row; then `columns` is the first row and `data` has at most one entry per later row; every failure is a 400 whose detail starts "CSV parsing error: "; a reader failure's detail is exactly that prefix followed by the reader's message |
| `Upload.JsonUpload` | backend/main.py:34-45 | success exactly for an object or a non-empty list; `columns` are the keys of the first data element; a list is returned unchanged and an object is wrapped in a one-element list; undecodable input gives 400 "Invalid JSON format" and any other value 400 "Invalid JSON structure" |
| `Upload.UploadFile` | backend/main.py:16-48 | every failure has status 400; a ".csv" name gets exactly the CSV branch's result, a ".json" name exactly the JSON branch's result, and any other name fails with "File must be CSV or JSON" |
| `Upload.UnsupportedDetailOnlyForUnsupported` | backend/main.py:47-48 | the "File must be CSV or JSON" rejection happens exactly for an unsupported name |
| `Upload.JsonSuccessHasData` | backend/main.py:35-42 | a successful upload with no data rows can only come from a CSV file; a JSON success always has at least one row |
| `Upload.EmptyCsvRejected` | backend/main.py:25-31 | a CSV with no rows fails with 400 "CSV parsing error: 400: Empty CSV" |
| `Upload.CsvUploadShape` | backend/main.py:27-29 | a CSV with rows succeeds with the header as columns, the shaped later rows as data (no more of them than later rows), and each data dict keyed by exactly the header names |
| `Upload.JsonUploadShape` | backend/main.py:33-45 | a ".json" upload: undecodable input fails with 400 "Invalid JSON format"; a non-empty list succeeds unchanged with its first object's keys as columns; an object succeeds wrapped in a one-element list with its keys as columns; an empty list or any other value fails with 400 "Invalid JSON structure" |
| `GraphViewer.ProjectAt` | frontend/src/components/GraphViewer.js:9-10 | the projection has one value per row, and position k holds row k's value for the column: no sorting, no dropping |
| `GraphViewer.ChartTitle` | frontend/src/components/GraphViewer.js:26 | the title is the chart type with its first character upper-cased, followed by " Chart" |
| `GraphViewer.ChartTitlesOfSelector` | frontend/src/components/GraphViewer.js:26 | the three selectable types give "Scatter Chart", "Bar Chart" and "Line Chart" |
| `GraphViewer.MakeTrace` | frontend/src/components/GraphViewer.js:6-22 | the trace's type is the chart type; mode "markers" and marker size 8 exactly for scatter, otherwise unset; marker colour #3b82f6 for scatter and #10b981 otherwise; line #3b82f6 with width 3; x and y are the row projections in row order |
| `GraphViewer.MakeLayout` | frontend/src/components/GraphViewer.js:24-44 | the layout title is the chart title, the axis titles are the bound column names, and the legend is hidden |
| `GraphViewer.Render` | frontend/src/components/GraphViewer.js:58-81 | placeholder exactly when the X or Y name is absent or empty; otherwise exactly one trace, the trace of `MakeTrace` on the rows and the two names (so its x/y values and styling are as stated there), the layout of `MakeLayout`, heading "x vs y", axis titles from the names, no legend |
| `App.WithField` | frontend/src/App.js:60 | the chosen field takes the new value and the other fields keep theirs |
| `App.DropIndexSpec` | frontend/src/App.js:54 | filtering by index removes exactly the entry at an in-range index, keeping the others in order, and changes nothing for any other index |
| `App.DropIndexAt` | frontend/src/App.js:54 | after the filter, position p holds the old entry p before the removed index and p+1 from it on |
| `App.NamesOfOthers` | frontend/src/App.js:66-70 | a name is in the set of the other entries' names exactly when some entry other than the current index has it |
| `App.FirstUnused` | frontend/src/App.js:41-42 | absent exactly when every catalog column is X or a used Y name; otherwise it is a free catalog column and no column before it is free |
| `App.AvailableMembers` | frontend/src/App.js:71 | a column is offered exactly when it is in the catalog, is not X and is not in the excluded names |
| `App.AvailableInCatalogOrder` | frontend/src/App.js:71 | the offered columns keep catalog order |
| `App.AvailableAppend` | frontend/src/App.js:71 | the filter of a concatenated catalog is the concatenation of the filters: order and every occurrence are kept |
| `App.AvailableSingle` | frontend/src/App.js:71 | a single column is kept exactly when it is free |
| `App.AvailableCounts` | frontend/src/App.js:71 | a free column is offered as many times as the catalog lists it, any other column never |
| `App.FirstUnusedIsFirstAvailable` | frontend/src/App.js:42-71 | the column add picks is the first of the columns the selector offers a new entry |
| `App.AppendFreeKeepsDistinct` | frontend/src/App.js:41-49 | appending an entry for a free column keeps Y names pairwise distinct and different from X |
| `App.RemoveKeepsDistinct` | frontend/src/App.js:53-55 | removing an entry keeps Y names pairwise distinct and different from X |
| `App.Session.constructor` | frontend/src/App.js:11-17 | empty catalog and rows, no X, no Y entries, scatter chart, empty axis labels |
| `App.Session.HandleFileUpload` | frontend/src/App.js:30-37 | the response replaces columns and rows wholesale; X is cleared, the Y list emptied and both axis labels reset to ""; the chart type is kept |
| `App.Session.HandleAddYAxis` | frontend/src/App.js:40-51 | appends exactly one entry `{name: c, color, label: c}` for the first free catalog column c when there is one and it is not ""; otherwise nothing changes; distinctness of Y names and X is preserved; no other field changes |
| `App.Session.HandleRemoveYAxis` | frontend/src/App.js:53-55 | drops exactly the entry at an in-range index, keeping the order of the rest; any other index leaves the list unchanged; distinctness is preserved; no other field changes |
| `App.Session.HandleYAxisChange` | frontend/src/App.js:57-63 | the list keeps its length; only the chosen field of the chosen entry changes; every other entry and every other field is unchanged |
| `App.Session.GetAvailableYAxisColumns` | frontend/src/App.js:65-72 | a column is offered exactly when it is in the catalog, is not X and no entry other than the current one has it (so the current entry's own column stays offered); catalog order is kept; an offered name appears as often as in the catalog; the result is the catalog filter over the other entries' names |
| `App.Session.SetXAxis` | frontend/src/components/DragDropZone.js:69-74 | dropping a column on X binds it and leaves the Y entries and everything else unchanged |
| `App.Session.SetGraphType` | frontend/src/components/GraphViewer.js:86-90 | the selector sets the chart type and nothing else |

## Left out

- Reading the upload, UTF-8 decoding, `splitlines`, `csv.reader` and `json.loads` are library calls. Their outcomes are inputs (`CsvReading`, `JsonReading`), and a CSV reader failure is carried as its message.
- `json.loads` decodes bytes in the encoding it detects from the first bytes: UTF-8 unless a byte-order mark or leading NUL bytes indicate UTF-16 or UTF-32. Bytes it cannot decode in that encoding raise `UnicodeDecodeError`. The handler catches only `JSONDecodeError`, so this is a 500. It is not modelled.
- Objects with a repeated key are outside the range of `json.loads` and `JSON.parse`, which keep only the last value. `Json.Json` can still express one; on such an object `Json.Lookup` would return the first value and `Upload.JsonUpload` would list the key twice in `columns`. No property is claimed for such objects.
- `Upload.UploadFile` requires that a non-empty JSON list starts with an object. The source crashes with a 500 otherwise.
- `str.lower()` and `toUpperCase()` are modelled on ASCII letters only. No other character lower-cases to a letter of ".csv" or ".json", so dispatch is unaffected. A non-ASCII first letter of a chart type would be capitalised differently.
- `App.Session.HandleYAxisChange` requires an in-range index. For an index equal to the length JavaScript would append an entry holding only the one field; a larger index would leave a hole; a negative or non-integer index would add a stray property. A sequence of `YAxis` can represent none of these. The field is one of `name`, `color` and `label`.
- The colour of a new Y entry comes from `Math.random`. It is a parameter.
- The upload's network request in `handleFileUpload` is not modelled. An error response, whose JSON has no `columns`, is not modelled either. The handler takes a successful `{columns, data}` response.
- `Json.Lookup` models own properties only. JavaScript's `d[key]` also reads properties inherited from `Object.prototype` (`constructor`, `toString`, `valueOf`, `hasOwnProperty`, `__proto__` and the rest), so a JSON-list row that lacks such a column name yields a function or an object where the model yields `undefined`. CSV rows always hold every header name, so only JSON uploads are affected.
- Field access on rows is modelled for object rows. For any other row it gives `undefined`. JavaScript would throw on a `null` row and index into a string or array row.
- React's state batching is not modelled. `handleAddYAxis` reads `yAxes` from its render while appending to the updater's `prev`; the model runs handlers one at a time, so the two are equal.
- The wiring between components is not modelled as one system. App passes `yAxes` where the drop zone and the chart view expect `yAxis`. The uploader calls `onUpload(result, name)` where App expects an event. Each component's own logic is modelled instead.
- PNG export (`handleExport`), Plotly rendering, the placeholder's and header's markup, CSS, drag gestures, the uploader's status messages and the application bootstrap are presentation or I/O and are left out. The export's fixed width 1200 and height 800 are not modelled.
- The marker opacity 0.8 and the layout colours, fonts and margins are carried as constants. No property is stated about them beyond their values.
