/**
 * What the two Excel seeders (manual_seed.js, debug_seed.js) share: the
 * rows `sheet_to_json(sheet, { header: 1 })` yields, JavaScript truthiness
 * and string conversion of a cell, and the record both seeders build.
 * Reading the workbook is not modelled: the rows are given.
 */
module Sheet {
  import opened Text
  import opened Rows

  /** A cell value. `Blank` is a missing cell (`undefined`, also past the
      end of a short row). A number carries the text JavaScript renders it
      as, since the rendering algorithm is not modelled. */
  datatype Cell = Blank | Str(s: string) | Num(value: real, shown: string) | Bool(b: bool)

  type Row = seq<Cell>

  /** `row[k]`. */
  function CellAt(row: Row, k: nat): (c: Cell)
    ensures k < |row| ==> c == row[k]
    ensures k >= |row| ==> c == Blank
  {
    if k < |row| then row[k] else Blank
  }

  /** JavaScript truthiness of a cell. */
  predicate Truthy(c: Cell) {
    match c
    case Blank => false
    case Str(s) => s != ""
    case Num(v, _) => v != 0.0
    case Bool(b) => b
  }

  /** `${c}` for a truthy cell. */
  function Shown(c: Cell): string
    requires Truthy(c)
  {
    match c
    case Str(s) => s
    case Num(_, shown) => shown
    case Bool(_) => "true"
  }

  /** `c || fallback`: the cell itself when truthy. */
  function OrCell(c: Cell, fallback: string): (r: Cell)
    ensures fallback != "" ==> Truthy(r)
    ensures Truthy(c) ==> r == c
    ensures !Truthy(c) ==> r == Str(fallback)
  {
    if Truthy(c) then c else Str(fallback)
  }

  /** `${c || fallback}`. */
  function OrText(c: Cell, fallback: string): (r: string)
    ensures Truthy(c) ==> r == Shown(c)
    ensures !Truthy(c) ==> r == fallback
  {
    if Truthy(c) then Shown(c) else fallback
  }

  /** The record the Excel seeders build. `name` and `bank` keep the cell
      value (a number stays a number in the JSON). */
  datatype SheetLocation = SheetLocation(
    id: string,
    lat: real,
    lng: real,
    name: Cell,
    bank: Cell,
    details: string)

  /** `data.slice(4)`: the banner rows above the table are skipped. */
  function SkipBanner(data: seq<Row>): (rows: seq<Row>)
    ensures |data| <= 4 ==> rows == []
    ensures |data| > 4 ==> |rows| == |data| - 4 && forall i :: 0 <= i < |rows| ==> rows[i] == data[i + 4]
  {
    if |data| <= 4 then [] else data[4..]
  }

  /** The record of row `index` (counted after the banner) once its
      coordinates are read: name from column 6, bank from column 1, details
      from columns 2 and 9. */
  function RecordOf(row: Row, index: nat, lat: real, lng: real): (r: SheetLocation)
    ensures SeedIndex(r.id) == index && r.lat == lat && r.lng == lng
    ensures Truthy(r.name) && Truthy(r.bank)
    ensures Truthy(CellAt(row, 6)) ==> r.name == CellAt(row, 6)
    ensures !Truthy(CellAt(row, 6)) ==> r.name == Str("Unknown Location")
    ensures Truthy(CellAt(row, 1)) ==> r.bank == CellAt(row, 1)
    ensures !Truthy(CellAt(row, 1)) ==> r.bank == Str("Unknown Bank")
    ensures r.details == OrText(CellAt(row, 2), "") + " - " + OrText(CellAt(row, 9), "")
  {
    SheetLocation(
      id := SeedId(index),
      lat := lat,
      lng := lng,
      name := OrCell(CellAt(row, 6), "Unknown Location"),
      bank := OrCell(CellAt(row, 1), "Unknown Bank"),
      details := OrText(CellAt(row, 2), "") + " - " + OrText(CellAt(row, 9), ""))
  }
}
