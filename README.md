# Contagem EAN/QTD — a verified model of the item store

The counting page keeps an in-memory list of `{ean, qtd}` items: a barcode
(EAN) typed or scanned into a field, and the quantity counted for it. Adding
an EAN that is already listed *sets* its quantity (it is never summed), the
trash button removes an item, "clear" empties the list after a confirmation,
and "export" writes a semicolon-delimited CSV whose header is `EAN;QTD;` and
whose rows are `ean;qtd;`, sorted by EAN. Every change is written to local
storage straight away.

This project models that core in Dafny:

- `options.dfy` — `Option` and `Result`.
- `inputs.dfy` (module `Inputs`) — `normalizeEAN` (trim, then remove every
  whitespace run) and `parseQtd` (reject negative or non-finite numbers,
  floor the rest).
- `items.dfy` (module `Items`) — the item record, `findIndex`, and what
  `upsertItem` and `removeItem` make of a list, as functions, with the
  lemmas about them: frame, last-write-wins, key uniqueness, order.
- `order.dfy` (module `EanOrder`) — the export order: a lexicographic order
  on EANs, proved total, antisymmetric and transitive, and the stable sort of
  the copy, proved sorted and a permutation. With unique keys the sorted
  copy depends only on which items the list holds.
- `csv.dfy` (module `Csv`) — the header, the row text, the decimal printing
  of quantities, `join("\n")`, and the inverses used to state round trips
  (reading a row back, splitting the text back into rows).
- `store.dfy` (module `Counting`) — class `Store`, holding the list (`items`)
  and what storage last received (`stored`). Its methods are the handlers'
  state changes, each proved to compute the function of `items.dfy` or
  `csv.dfy` that specifies it: `FindIndex` and `Export` with their loops,
  then `Upsert`, `Remove`, `Clear`, and `Add` with its validation gate.
  `Export` has no `modifies` clause, so exporting cannot change `items`.

## Model

| member | source | states |
|---|---|---|
| `Inputs.Trim` | app.js:41 | trim: the result is a stretch `s[a..b]` of the input with only whitespace before and after it, and it neither starts nor ends with whitespace, so exactly the leading and trailing whitespace is cut off |
| `Inputs.StripWhitespace` | app.js:41 | the replace of every whitespace run: the result holds no whitespace and is no longer than the input; `StripConcat`, `StripKeepsClean` and `StripEmptyIff` give its value |
| `Inputs.StripConcat` | app.js:41 | deleting whitespace works piecewise over a concatenation, so the kept characters keep their order |
| `Inputs.StripKeepsClean` | app.js:41 | a text without whitespace is left as it is |
| `Inputs.StripEmptyIff` | app.js:41 | nothing is left exactly when the text was whitespace only |
| `Inputs.NormalizeEan` | app.js:40-42 | the result contains no whitespace character and is no longer than the input |
| `Inputs.NormalizeIsStrip` | app.js:40-42 | normalizing removes exactly the whitespace characters and keeps every other character in order; the trim adds nothing |
| `Inputs.NormalizeIdempotent` | app.js:40-42 | normalizing a normalized EAN changes nothing |
| `Inputs.NormalizeEmptyIff` | app.js:40-42 | the normalized EAN is empty exactly when the input is whitespace only, the empty input included |
| `Inputs.ParseQtd` | app.js:43-47 | null exactly when the number is NaN, infinite or negative; otherwise the non-negative integer q with q <= n < q + 1 |
| `Inputs.ParseQtdFixesCounts` | app.js:43-47 | a quantity that parseQtd produced parses again to itself |
| `Items.IndexOf` | app.js:50 | -1 exactly when no item has the key; otherwise the first position holding the key |
| `Items.Removed` | app.js:61 | an item survives exactly when it was in the list and its key differs; the list never grows |
| `Items.Upserted` | app.js:49-55 | upsertItem on a list: when the key is present, the first item with it keeps its position and EAN and takes the new quantity, and every other item, later ones with the same key included, is unchanged and in place; the length grows by one exactly when the key was absent, and then the old list is kept and the new item is last |
| `Items.UpsertSetsOne` | app.js:49-55 | with unique keys before: keys stay unique, exactly one item has the key, and its quantity is the new one, replacing the old |
| `Items.UpsertLastWriteWins` | app.js:52 | upserting a key twice equals upserting the second quantity once, so quantities are never summed |
| `Items.RecountExample` | app.js:52 | upserting 5 and then 2 for 7891000100103 leaves one item with quantity 2 |
| `Items.RemoveAbsent` | app.js:61 | removing a key that is absent leaves the list unchanged |
| `Items.RemoveConcat` | app.js:61 | filtering works piecewise over a concatenation, so the kept items keep their relative order |
| `Items.RemoveCutsOne` | app.js:61 | with unique keys, removing a present key deletes exactly its one item and keeps the rest in order |
| `Items.RemoveKeepsUnique` | app.js:61 | removing keeps keys unique, and removing the same key again changes nothing |
| `EanOrder.EanLe` | app.js:138 | the comparator of the sort: a comes no later than b exactly when a is a prefix of b or, at the first position where they differ, a holds the smaller code point |
| `EanOrder.EanLeTotal` | app.js:138 | any two EANs are comparable |
| `EanOrder.EanLeAntisymmetric` | app.js:138 | two EANs that each sort before the other are equal |
| `EanOrder.EanLeTransitive` | app.js:138 | the order is transitive |
| `EanOrder.Insert` | app.js:138 | one step of the sort: the list with one more item; `InsertSorted` states that it keeps a sorted list sorted and adds exactly that item |
| `EanOrder.InsertSorted` | app.js:138 | inserting into an ascending list gives an ascending list holding exactly the old items plus the new one |
| `EanOrder.SortByEan` | app.js:138 | the sorted copy of the list: as many items as the list; `SortByEanSpec` and `SortIsStable` give its value |
| `EanOrder.SortIsStable` | app.js:138 | the sort is stable: for every EAN, the items holding it appear in the sorted copy in their storage order |
| `EanOrder.SortByEanSpec` | app.js:138 | the sorted copy is ascending by EAN and is a permutation of the list |
| `EanOrder.SortKeepsUnique` | app.js:138 | sorting keeps keys unique |
| `EanOrder.SortedDetermined` | app.js:138 | two ascending lists with the same items and unique keys are equal |
| `EanOrder.SortIgnoresStorageOrder` | app.js:138 | with unique keys, two lists holding the same items sort to the same copy |
| `Csv.Decimal` | app.js:140 | a quantity prints as one or more decimal digits with no leading zero; a text starting with `0` is exactly `0`, for quantity 0 |
| `Csv.DecimalRoundTrip` | app.js:140 | the printed digits denote the quantity |
| `Csv.RowRoundTrip` | app.js:140 | a row `ean;qtd;` whose EAN holds no `;` reads back as its item |
| `Csv.Row` | app.js:140 | a data row: it starts with the EAN followed by `;` and ends in `;`; `RowRoundTrip` shows the middle is the quantity |
| `Csv.ExportRows` | app.js:134-141 | the rows collected before the join: one more than the list has items, `EAN;QTD;` first; `ExportShape` gives the rest |
| `Csv.ExportShape` | app.js:134-141 | the export has one row more than the list has items; row 0 is `EAN;QTD;`; every row ends in `;`; row i+1 is the row of the i-th item of the sorted copy |
| `Csv.ExportIgnoresStorageOrder` | app.js:137-141 | with unique keys the export depends only on which items the list holds, not on their storage order |
| `Csv.ExportOneItem` | app.js:134-141 | the list `[{ean: "789", qtd: 3}]` exports as `EAN;QTD;` and `789;3;` |
| `Csv.ExportSortsEntries` | app.js:134-141 | EANs entered as 222, 111, 333 export in the order 111, 222, 333 |
| `Csv.Join` | app.js:143 | `join("\n")`: no rows give the empty text; otherwise the text starts with the first row and ends with the last; `SplitJoin` shows it can be undone |
| `Csv.SplitJoin` | app.js:143 | joining rows that hold no line break with "\n" can be undone by splitting at "\n" |
| `Csv.ExportTextSplits` | app.js:143 | when no EAN holds a line break, the CSV text splits back into exactly the exported rows |
| `Counting.Validate` | app.js:109-114 | refuses with the missing-EAN error exactly when the EAN field is whitespace only; otherwise refuses with the invalid-quantity error exactly when the number is NaN, infinite or negative; otherwise yields the whitespace-free non-empty EAN and the floor of the number |
| `Counting.AddKeepsWellFormed` | app.js:109-116 | an accepted add keeps every key non-empty, whitespace-free and unique |
| `Counting.WellFormedExportSplits` | app.js:140-143 | for a list built by the handlers (non-empty, whitespace-free, unique keys) the CSV text splits back into exactly the exported rows |
| `Counting.RemoveKeepsWellFormed` | app.js:60-61 | removing keeps every key non-empty, whitespace-free and unique |
| `Counting.Store.constructor` | app.js:24-33 | the list starts as the stored list, or empty when storage holds nothing readable |
| `Counting.Store.Save` | app.js:35-37 | storage afterwards holds the current list |
| `Counting.Store.FindIndex` | app.js:50 | returns -1 exactly when no item has the key, else a position holding it; the result is the first such position |
| `Counting.Store.Upsert` | app.js:49-57 | the new list is the upserted old list, storage holds it, and unique keys stay unique |
| `Counting.Store.Remove` | app.js:60-63 | the new list is the old one without the key's items, no item has the key, and storage holds the new list |
| `Counting.Store.Clear` | app.js:125-129 | once confirmed, the list and storage are empty whatever they held; if declined, nothing changes |
| `Counting.Store.Add` | app.js:109-116 | the outcome is the gate's verdict; a refusal changes neither the list nor storage; an acceptance upserts the validated item and saves; a well-formed list stays well-formed |
| `Counting.Store.Export` | app.js:133-143 | the rows are the header followed by the rows of the sorted copy; there is one more row than items; the text is the rows joined with "\n"; the list is not modified |

Notes on how the code behaves:

- `normalizeEAN` removes all whitespace, including inside the EAN; it does
  not collapse runs into a single space.
- Key uniqueness is not enforced on load. A list read from storage is taken
  as it is. The handlers only preserve uniqueness (`Upsert`, `Add`, `Remove`),
  and a list built through them from an empty one has unique keys.
- The quantity field goes through `Number(v)`, and `Number("")` is 0. An
  empty quantity field therefore passes the gate as quantity 0.
- `upsertItem` updates the first item with the key. With duplicate keys the
  later ones are untouched (`Upserted`); `removeItem` removes all of them.
- Rows are never escaped. `normalizeEAN` keeps `;`, and a scanned Code 128
  or QR payload (app.js:181) can contain one. Such a row does not read back
  as its item, which is why `Csv.RowRoundTrip` asks for an EAN without `;`.
  A line break cannot occur in a normalized EAN (`Counting.WellFormedExportSplits`).
- The delete and edit buttons carry the EAN in an HTML attribute written
  into the list's markup without escaping (app.js:85-86) and read back on
  click (app.js:94, 98). `normalizeEAN` keeps `"` and `&`, which a scanned
  Code 128 or QR payload can hold. For such an EAN the attribute is cut off
  or entity-decoded, so the trash button removes another key or nothing.
  The model's `Remove` takes the key as given.

## Left out

- Local storage and JSON: `saveItems` becomes recording the list in `stored`.
  `loadItems` becomes a constructor argument, with `None` for missing or
  unreadable storage. JSON text, and JSON that decodes to something other
  than a list of items, are not modelled.
- `Counting.Store.Save`: does not model a failing write. `localStorage.setItem`
  (app.js:36) throws when the storage quota is exceeded. The handler then stops after `items` has already
  changed, and storage keeps the old list. The model's `Save` always
  succeeds, so `Upsert`, `Remove`, `Clear` and `Add` promise that storage
  holds the new list, which is true only when the write succeeds.
- `render`, the list's DOM and its edit and delete buttons: UI. The edit
  button's lookup only fills the input fields. The delete button calls
  `removeItem`, which is modelled.
- `alert` and `confirm`: the add handler returns which alert it would show
  (`AddError`). The clear handler takes the user's answer as a parameter.
- The Blob, the object URL, the download anchor and the dated file name: browser I/O.
- Camera access, `BarcodeDetector`, the asynchronous `scanLoop` and
  `stopCamera`: foreign APIs and timing. The scanned text goes through the
  same `normalizeEAN`, which is modelled.
- Service-worker registration.
- `Number(v)` and floating point: `ParseQtd` takes the number already
  converted (`JsNumber`: a real, NaN or an infinity). Rounding of floats,
  `-0` and integers above 2^53 are not modelled.
- `EanOrder.EanLe`: `localeCompare` is replaced by plain lexicographic order
  on code points. Locale collation can order some strings differently, for
  example by case or accents.
- `Csv.Decimal`: prints every quantity as plain digits. JavaScript switches
  to exponent notation from 10^21 upwards.
- Item objects and aliasing: items are values. `items[idx].qtd = qtd`
  becomes replacing the item at `idx` with a copy.
