# Angren ATM map: the location data pipeline in Dafny

The application shows bank ATMs and branches of Angren on a map. This
project models the part of it that owns the data:

- **The store** (lib/storage.ts). It keeps a JSON data file of `Location`
  records. When that file is missing, `getLocations` seeds it from a
  `;`-separated text file. `addLocation` appends a record with a random id.
- **The HTTP route** (app/api/locations/route.ts). `GET` lists the store.
  `POST` validates a JSON body and adds a record built from it.
- **Two spreadsheet seeders.** manual_seed.js turns the rows of an Excel
  sheet into records and replaces the data file with them. debug_seed.js
  parses the same sheet more strictly, writes nothing, and prints a
  bounded diagnostic log.
- **The list view's derived list** (components/LocationList.tsx, the
  `sortedLocations` memo). It filters by a case-insensitive search on name
  or category. When the user's position is known, it then sorts by
  distance with the stable `Array.prototype.sort`.

Modules:

- `Text` models the JavaScript built-ins the code relies on: `trim`,
  `split`, `replace` of the first occurrence, `includes`, `toLowerCase`
  and `parseFloat`. `parseFloat` reads the longest decimal prefix, and NaN
  is `None`.
- `Rows` holds the "keep the rows that parsed" collection and the
  `seed-<index>` ids.
- `Storage` holds the record, the seed-file parser and the `Store` class.
  The class's fields are the data file, its existence and the seed file.
  `getLocations` and `addLocation` change them.
- `Route` holds the handlers.
- `Sheet` holds cells, truthiness and the record both seeders build.
- `ManualSeed` and `DebugSeed` model the two scripts. Their loops are
  methods proved against the functions `Seeded` and `Found`.
- `LocationList` holds the filter and the sort.

The remaining effects are inputs:

- File contents are fields or parameters.
- `Math.random` is the base-36 digits it would print (`fraction`).
- geolib's `getDistance` is a function parameter returning whole metres.

## Notes on the code

- The `Location` interface declares every field, `category` and `type`
  included, as a string (lib/storage.ts:7-22). Yet `POST` stores records
  without `category` and `type` (app/api/locations/route.ts:17-29), so
  the model's `Storage.Location` types both as optional.
- The Excel seeders write only id, lat, lng, name, bank and details
  (manual_seed.js:40-47). They read only columns 1, 2, 6, 9 and 10.
- debug_seed.js accepts only `;` in the coordinate cell
  (debug_seed.js:36), while manual_seed.js also accepts `,`
  (manual_seed.js:29-33).
- The random id is at most nine base-36 characters. It can be empty when
  `Math.random()` returns 0.
- `addLocation` checks nothing. The truthiness check on lat, lng and name
  is in the route (app/api/locations/route.ts:13).

## Model

| member | source | states |
|---|---|---|
| Text.Trim | lib/storage.ts:56 | the result is no longer than the input, starts and ends with a non-space character, and is empty exactly when the input is all white space |
| Text.TrimSlice | lib/storage.ts:56 | the trim is the slice of the input left after removing a white-space prefix and a white-space suffix |
| Text.Split | lib/storage.ts:59 | one more piece than separators, no piece holds the separator, and there are two or more pieces exactly when the separator occurs |
| Text.JoinSplit | lib/storage.ts:59 | joining the pieces of `split` with the separator gives back the input |
| Text.SplitJoin | manual_seed.js:30 | splitting separator-free pieces joined by the separator gives back the pieces |
| Text.SplitAtFirst | manual_seed.js:30 | the first piece of a split is the text before the first separator |
| Text.ReplaceFirst | lib/storage.ts:66 | only the first occurrence is replaced and everything around it is kept; with no occurrence the text is unchanged |
| Text.ContainsIff | components/LocationList.tsx:23 | `Text.Contains`, the model of `includes`, holds exactly when some position starts a copy of the search text |
| Text.LowerIdempotent | components/LocationList.tsx:23 | `Text.Lower`, the model of `toLowerCase`, applied twice is `Text.Lower` applied once |
| Text.NatToString | manual_seed.js:41 | `${n}` is a non-empty digit string without leading zeros that reads back as `n` |
| Text.NatToStringInjective | lib/storage.ts:74 | distinct indices print as distinct digit strings |
| Text.ParseFloatNeedsDigit | lib/storage.ts:69 | `Text.ParseFloat`, the model of `parseFloat`, gives NaN (`None`) on a text without a decimal digit |
| Text.ParseFloatEmpty | manual_seed.js:36-37 | `Text.ParseFloat` of the empty text is NaN |
| Text.ParseFloatOfDigits | lib/storage.ts:69 | `Text.ParseFloat` reads a string of digits as its decimal value |
| Text.ParseFloatDecimal | lib/storage.ts:69 | `Text.ParseFloat` reads `whole.fraction` as whole plus fraction over ten to the fraction's length |
| Rows.KeptSound | lib/storage.ts:73 | every kept record is the parse of some row |
| Rows.KeptComplete | lib/storage.ts:73 | every row that parses is kept |
| Rows.KeptIncreasing | lib/storage.ts:74 | kept records appear in row order, so a key that grows with the row index strictly increases along them |
| Rows.KeptSubseq | debug_seed.js:43-51 | when every stricter parse agrees with a looser one, the strictly kept rows are a subsequence of the loosely kept ones |
| Rows.SubseqLength | debug_seed.js:60 | a subsequence is no longer than the sequence |
| Rows.ParseAll | debug_seed.js:28 | the `forEach` pass gives one result per row, in row order, each computed from the row and its index |
| Rows.SeedId | lib/storage.ts:74 | `seed-<index>` reads back as its index, so distinct rows get distinct ids |
| Storage.WithId | lib/storage.ts:37 | the added record has the given id and otherwise exactly the draft's fields |
| Storage.ParseLine | lib/storage.ts:56-88 | blank lines are dropped; a kept line has at least eight fields, id `seed-<line index>`, a non-empty name and category, a type, and empty bank, branch, mfo, city, neighbourhood and address |
| Storage.ParseLineKeeps | lib/storage.ts:65-72 | a line is kept exactly when it is not blank, has at least eight fields and both coordinate fields parse; the coordinates are then the parsed numbers |
| Storage.ParseLineOfFields | lib/storage.ts:73-88 | a line of eight fields yields the record with name, category (with their defaults), type, status and model from fields 2, 1, 3, 5 and 4, and the rest empty |
| Storage.ParseLineRecord | lib/storage.ts:73-88 | a kept line's record has id `seed-<i>`; its name is field 2 trimmed, or "Unknown Location" when that field is blank; its category is field 1 trimmed, or "Unknown Category" when blank; type, model and status are fields 3, 4 and 5 trimmed; the rest are empty |
| Storage.ParseLineOfTrimmedFields | lib/storage.ts:56-88 | a line of eight already-trimmed fields yields those fields unchanged as name, category, type, status and model |
| Storage.ExampleLine | lib/storage.ts:55-88 | the line `2;Bank;Central;Main;;1;41.0123;70.1456` becomes the record named Central, of category Bank and type Main, with status 1, the two coordinates, and every other field empty |
| Storage.CsvSeedRecords | lib/storage.ts:55-91 | `Storage.CsvSeed`, the records `seedFromCsv` writes, holds exactly the records of the lines after the header that parse |
| Storage.CsvSeedIds | lib/storage.ts:74 | the ids in `Storage.CsvSeed` are pairwise distinct, never the header's, and in line order |
| Storage.CoordinateTextOfDecimal | lib/storage.ts:66-67 | a decimal comma in a coordinate field becomes a point |
| Storage.CoordinateOfDecimal | lib/storage.ts:66-70 | a coordinate written with a decimal point or a decimal comma reads as its decimal value |
| Storage.ExampleLatitude | lib/storage.ts:66-69 | `41,0123` reads as 41.0123 |
| Storage.ExampleLatitudeWithPoint | lib/storage.ts:66-69 | `41.0123` reads as 41.0123 |
| Storage.ExampleLongitude | lib/storage.ts:67-70 | `70.1456` reads as 70.1456 |
| Storage.RandomId | lib/storage.ts:37 | the id is the first nine random base-36 digits, or all of them when fewer |
| Storage.Store.SeedFromCsv | lib/storage.ts:43-98 | without a seed file nothing changes; otherwise the data file exists and holds exactly the seeded records |
| Storage.Store.GetLocations | lib/storage.ts:24-33 | returns what the state lists, and listing again gives the same records (seeding happens at most once); the seed file is never changed |
| Storage.Store.AddLocation | lib/storage.ts:35-41 | the new record is the draft with the random id, and the data file becomes the previously listed records followed by it |
| Route.OrEmpty | app/api/locations/route.ts:21 | an optional string defaults to empty: a present non-empty string is kept, anything else gives the empty string |
| Route.Accept | app/api/locations/route.ts:11-29 | a body is accepted exactly when lat, lng and name are truthy; the record then has those values, bank and address from `bank` and `details` or empty, status "1", the other strings empty, and no category or type |
| Route.AcceptIgnoresCategory | app/api/locations/route.ts:11 | the category and type in the body change nothing |
| Route.ZeroCoordinateRefused | app/api/locations/route.ts:13 | a latitude or longitude of 0 is refused like a missing one |
| Route.DialogBodyStoredWithoutCategory | components/AddLocationDialog.tsx:24 | what the add dialog posts is accepted and stored without its category and type |
| Route.Get | app/api/locations/route.ts:4-7 | answers with the listed records and leaves the listing unchanged |
| Route.Post | app/api/locations/route.ts:9-31 | a refused body answers 400 "Missing required fields" and leaves the store unchanged; an accepted one answers with the created record, which is appended to the listing |
| Sheet.CellAt | manual_seed.js:25 | a cell inside the row is that cell; a cell past the end of a row is missing |
| Sheet.OrCell | manual_seed.js:44-45 | `cell \|\| fallback` keeps a truthy cell and is the fallback string otherwise, so it is truthy when the fallback is non-empty |
| Sheet.OrText | manual_seed.js:46 | a truthy cell renders as its text and a falsy one as the fallback |
| Sheet.SkipBanner | manual_seed.js:21 | `slice(4)` drops the first four rows and keeps the rest in order |
| Sheet.RecordOf | manual_seed.js:40-47 | the record has id `seed-<row index>` and the coordinates; its name is column 6 when truthy and "Unknown Location" otherwise; its bank is column 1 when truthy and "Unknown Bank" otherwise; its details are columns 2 and 9, each blank when falsy, joined by " - " |
| ManualSeed.FirstTwo | manual_seed.js:30-35 | both trimmed coordinate texts, as `ManualSeed.CoordPieces` takes them, are present exactly when there are two pieces and neither is blank after trimming |
| ManualSeed.SemicolonPair | manual_seed.js:29-30 | in `ManualSeed.CoordPieces` a `;` decides the split, even with commas present |
| ManualSeed.CommaPair | manual_seed.js:31-32 | in `ManualSeed.CoordPieces`, without a `;`, a comma separates the coordinates |
| ManualSeed.NoSeparatorDropped | manual_seed.js:27-35 | `ManualSeed.CoordPieces` gives no coordinates when there is neither separator |
| ManualSeed.ParseRow | manual_seed.js:25-49 | a row yields a record exactly when column 10 is a string that splits into two pieces and both pieces parse; the record is built from those two numbers; a non-string column 10 yields nothing |
| ManualSeed.SeedFromExcel | manual_seed.js:8-58 | without a workbook nothing is written; otherwise `ManualSeed.Seeded` is written, the records of the rows after the banner that parse |
| ManualSeed.SeededRecords | manual_seed.js:24-51 | every record in `ManualSeed.Seeded` is the parse of a table row, and every row that parses is in it |
| ManualSeed.SeededIds | manual_seed.js:41 | the ids in `ManualSeed.Seeded` are pairwise distinct and follow row order |
| ManualSeed.SeededNamed | manual_seed.js:44-45 | every record in `ManualSeed.Seeded` has a truthy name and bank |
| DebugSeed.SemicolonCoords | debug_seed.js:37-41 | there are coordinates exactly when the trimmed pieces before and after the first `;` both parse, and they are those two numbers |
| DebugSeed.Handle | debug_seed.js:35-57 | a row is rejected as raw exactly when column 10 is not a string holding `;`; it is kept exactly when, in addition, both pieces parse, and then its record is built from those coordinates, with id `seed-<index>` and a truthy name and bank |
| DebugSeed.ParseRow | debug_seed.js:43-51 | a row yields a record exactly when it is handled as parsed, and that record is the one handling built |
| DebugSeed.AgreesWithManual | debug_seed.js:36-51 | on a `;` coordinate cell both scripts build the same record or both drop the row |
| DebugSeed.BlankPieceDropped | debug_seed.js:38-43 | a coordinate piece that is blank after trimming drops the row in both scripts |
| DebugSeed.FoundByManual | debug_seed.js:43-51 | every record in `DebugSeed.Found` is also written by manual_seed.js |
| DebugSeed.FoundSubseqOfSeeded | debug_seed.js:28-58 | `DebugSeed.Found`, the records this script finds, is a subsequence of `ManualSeed.Seeded`, so there are no more of them |
| DebugSeed.RowLog | debug_seed.js:30-57 | at most two lines per row, none from the eleventh row on, at most one from the fourth on, and only the dump for a kept row |
| DebugSeed.LogBounded | debug_seed.js:30-57 | `DebugSeed.Log`, the row lines printed, holds at most thirteen lines however long the sheet |
| DebugSeed.RejectionsLogged | debug_seed.js:52-57 | every rejected row among the first ten has its reason in `DebugSeed.Log` |
| DebugSeed.LogMentionsEarlyRows | debug_seed.js:30-57 | no line of `DebugSeed.Log` mentions a row from the eleventh on, and no kept row past the third is mentioned |
| DebugSeed.HandleRow | debug_seed.js:28-57 | the callback keeps the row's parsed record, if any, and logs exactly that row's lines |
| DebugSeed.HandleRows | debug_seed.js:28-58 | the pass keeps exactly the rows that parse, in order, and logs exactly `DebugSeed.Log` |
| DebugSeed.SeedFromExcel | debug_seed.js:7-65 | without a workbook there is no report; otherwise the report gives both row counts, the row log, the number of records found and the first record |
| LocationList.MatchesAsWritten | components/LocationList.tsx:22-25 | the filter callback throws exactly when the name does not match and the record has no category |
| LocationList.Filter | components/LocationList.tsx:22-25 | the filtered list is no longer than the input |
| LocationList.FilterAsWrittenAgrees | components/LocationList.tsx:22-25 | `LocationList.FilterAsWritten`, the filter as written, throws exactly when some record would make the callback throw, and otherwise equals the intended `LocationList.Filter` |
| LocationList.PostedRecordBreaksSearch | components/LocationList.tsx:24 | a record created by `POST` makes any search its name does not contain throw |
| LocationList.PostedAtmSearchedForBank | components/LocationList.tsx:24 | an ATM added from the map and a search for "bank" make the list throw |
| LocationList.FilterMembers | components/LocationList.tsx:22-25 | a location is listed exactly when it is in the input and its name or category contains the search text, ignoring case |
| LocationList.FilterSubseq | components/LocationList.tsx:22 | filtering keeps the input order |
| LocationList.FilterEmptySearch | components/LocationList.tsx:22-25 | an empty search lists everything, in order |
| LocationList.FilterIgnoresCase | components/LocationList.tsx:23-24 | lower-casing the search does not change the result |
| LocationList.Insert | components/LocationList.tsx:28 | inserting adds exactly the one element |
| LocationList.InsertSorted | components/LocationList.tsx:28-32 | inserting into a list sorted by distance keeps it sorted |
| LocationList.SortByKey | components/LocationList.tsx:28-32 | the sorted list is a permutation of the input, sorted by distance |
| LocationList.SortByKeyStable | components/LocationList.tsx:28-32 | locations at the same distance keep their input order |
| LocationList.FilterCount | components/LocationList.tsx:22-25 | the filter keeps each matching location as many times as it occurs in the input and drops every other |
| LocationList.SortedLocationsSpec | components/LocationList.tsx:21-36 | `LocationList.SortedLocations`, the model of the `sortedLocations` memo, holds exactly the matching locations, each as many times as it occurs in the input; without a position it is the filtered list, and with one it is sorted nearest first with ties in input order |

## Left out

- Reading and writing files and JSON text. The data file and the seed file are fields of `Storage.Store`. A data file whose JSON is not a list of records is not modelled.
- The data file holding records written by the Excel seeders. The store's model types its records as `Location`, so a data file in the seeders' shape is not modelled.
- The `try`/`catch` blocks of the three seeding routines. They only catch I/O and workbook-reading errors, which are not modelled.
- Console output, other than the row lines and the summary of debug_seed.js, which are modelled as values.
- Reading the workbook (`XLSX.readFile`, `sheet_to_json`). The sheet's rows are given as cells.
- How JavaScript renders a number as text. A number cell carries its rendered text.
- `parseFloat` exponents (`1e5`), `Infinity`, and the sign of zero. The model's `parseFloat` reads an optional sign, digits, a point and digits.
- `toLowerCase` beyond ASCII, Latin-1 and the basic Cyrillic letters.
- POST bodies whose `lat`, `lng`, `name`, `bank` or `details` are JSON values of another type, such as a string latitude or an object name.
- A POST body that is not JSON, or is JSON `null`. `request.json()` or the destructuring at app/api/locations/route.ts:10-11 throws, and `Route.Body` has no value for such a body.
- Route.Accept: coordinates and POST numbers are exact reals, not IEEE-754 doubles. A JSON latitude too small for a double, such as `1e-400`, reads as 0 in JavaScript and is refused as falsy at app/api/locations/route.ts:13, but `Route.Accept` accepts it as a non-zero real. Likewise `Text.ParseFloat` gives the exact decimal value where `parseFloat` gives the nearest double.
- Concurrent requests. Two interleaved `addLocation` calls can lose a record, and the model runs requests one at a time.
- `Math.random` and geolib's `getDistance`. Both are inputs: the random base-36 digits, and a distance function returning whole metres.
- Storage.ExampleLine: the example line is given as the `;`-join of its eight fields, not as one literal string, because comparing the literal text character by character is too costly for the prover.
- The rest of components/LocationList.tsx (rendering, scrolling, selection) and the other components. They are not part of this model.

## Findings

| source | as written | input that shows it | evidently intended | confidence | as-written member | corrected member |
|---|---|---|---|---|---|---|
| components/LocationList.tsx:24 | the filter calls `l.category.toLowerCase()` whenever the name does not match, but records created by `POST` (app/api/locations/route.ts:17-29) and by manual_seed.js have no `category`, so the call throws a TypeError | a record posted by the add dialog with name "ATM", then the search "bank" | a record without a category matches on its name only | high; not executed | LocationList.PostedAtmSearchedForBank | LocationList.FilterMembers |
