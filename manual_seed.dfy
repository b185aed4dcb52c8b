/**
 * manual_seed.js: every row below the banner whose column 10 holds a
 * coordinate text `lat;lng` (or `lat,lng`) becomes a record; the records
 * replace the data file.
 */
module ManualSeed {
  import opened Text
  import opened Rows
  import opened Sheet

  /** `[latStr, lngStr] = parts.map(s => s.trim())` followed by
      `if (latStr && lngStr)`: the first two pieces, trimmed, when both are
      non-empty. */
  function FirstTwo(parts: seq<string>): (r: Option<(string, string)>)
    ensures r.Some? <==> |parts| >= 2 && Trim(parts[0]) != "" && Trim(parts[1]) != ""
    ensures r.Some? ==> r.value == (Trim(parts[0]), Trim(parts[1]))
  {
    if |parts| >= 2 && Trim(parts[0]) != "" && Trim(parts[1]) != "" then Some((Trim(parts[0]), Trim(parts[1])))
    else None
  }

  /** The two coordinate texts of a column-10 string: split on `;` when it
      has one, otherwise on `,` when it has one, otherwise none. */
  function CoordPieces(raw: string): Option<(string, string)> {
    if ';' in raw then FirstTwo(Split(raw, ';'))
    else if ',' in raw then FirstTwo(Split(raw, ','))
    else None
  }

  /** A `;` decides the split even when commas are present, so decimal
      commas survive into the pieces. */
  lemma SemicolonPair(a: string, b: string)
    requires ';' !in a && ';' !in b && Trim(a) != "" && Trim(b) != ""
    ensures CoordPieces(a + [';'] + b) == Some((Trim(a), Trim(b)))
  {
    SplitAtFirst(a, ';', b);
    SplitNone(b, ';');
  }

  /** Without a `;`, a comma separates the two coordinates. */
  lemma CommaPair(a: string, b: string)
    requires ';' !in a && ';' !in b && ',' !in a && ',' !in b && Trim(a) != "" && Trim(b) != ""
    ensures CoordPieces(a + [','] + b) == Some((Trim(a), Trim(b)))
  {
    var raw := a + [','] + b;
    AbsentAround(a, ',', b, ';');
    assert raw[|a|] == ',';
    SplitAtFirst(a, ',', b);
    SplitNone(b, ',');
  }

  /** A character absent from both sides of another is absent from the
      whole. */
  lemma AbsentAround(a: string, c: char, b: string, x: char)
    requires x !in a && x !in b && x != c
    ensures x !in a + [c] + b
  {
    var s := a + [c] + b;
    forall i | 0 <= i < |s|
      ensures s[i] != x
    {
      if i < |a| {
        assert s[i] == a[i];
      } else if i > |a| {
        assert s[i] == b[i - |a| - 1];
      }
    }
  }

  /** A coordinate text with neither separator yields no record. */
  lemma NoSeparatorDropped(raw: string)
    requires ';' !in raw && ',' !in raw
    ensures CoordPieces(raw) == None
  {
  }

  /** Row `index` of the table: a record when column 10 is a string whose
      two pieces both parse as numbers. */
  function ParseRow(row: Row, index: nat): (r: Option<SheetLocation>)
    ensures r.Some? <==>
      && CellAt(row, 10).Str? && CoordPieces(CellAt(row, 10).s).Some?
      && ParseFloat(CoordPieces(CellAt(row, 10).s).value.0).Some?
      && ParseFloat(CoordPieces(CellAt(row, 10).s).value.1).Some?
    ensures r.Some? ==>
      var pieces := CoordPieces(CellAt(row, 10).s).value;
      && Some(r.value.lat) == ParseFloat(pieces.0) && Some(r.value.lng) == ParseFloat(pieces.1)
      && r.value == RecordOf(row, index, r.value.lat, r.value.lng)
    ensures !CellAt(row, 10).Str? ==> r.None?
  {
    match CellAt(row, 10)
    case Str(raw) =>
      (match CoordPieces(raw)
       case None => None
       case Some(pieces) =>
         var lat := ParseFloat(pieces.0);
         var lng := ParseFloat(pieces.1);
         if lat.None? || lng.None? then None
         else Some(RecordOf(row, index, lat.value, lng.value)))
    case _ => None
  }

  /** What the script writes for a sheet's rows. */
  function Seeded(data: seq<Row>): seq<SheetLocation> {
    Kept(ParseAll(SkipBanner(data), ParseRow))
  }

  /** `seedFromExcel`: `None` when the workbook is absent (nothing is
      written); otherwise the records written to the data file. */
  method SeedFromExcel(workbook: Option<seq<Row>>) returns (written: Option<seq<SheetLocation>>)
    ensures workbook.None? <==> written.None?
    ensures workbook.Some? ==> written.value == Seeded(workbook.value)
  {
    if workbook.None? {
      return None;
    }
    var rows := SkipBanner(workbook.value);
    var locations: seq<SheetLocation> := [];
    var index := 0;
    while index < |rows|
      invariant 0 <= index <= |rows|
      invariant locations == Kept(ParseAll(rows, ParseRow)[..index])
    {
      var parsed := ParseRow(rows[index], index);
      KeptSnoc(ParseAll(rows, ParseRow), index);
      if parsed.Some? {
        locations := locations + [parsed.value];
      }
      index := index + 1;
    }
    assert ParseAll(rows, ParseRow)[..|rows|] == ParseAll(rows, ParseRow);
    written := Some(locations);
  }

  /** Every written record comes from a table row whose parse it is, and
      every row that parses is written. */
  lemma SeededRecords(data: seq<Row>)
    ensures forall x :: x in Seeded(data) ==>
      exists i :: 0 <= i < |SkipBanner(data)| && ParseRow(SkipBanner(data)[i], i) == Some(x)
    ensures forall i :: 0 <= i < |SkipBanner(data)| && ParseRow(SkipBanner(data)[i], i).Some? ==>
      ParseRow(SkipBanner(data)[i], i).value in Seeded(data)
  {
    KeptSound(ParseAll(SkipBanner(data), ParseRow));
    KeptComplete(ParseAll(SkipBanner(data), ParseRow));
  }

  /** Ids are `seed-<row index>` with row indices strictly increasing along
      the output, so they are pairwise distinct. */
  lemma SeededIds(data: seq<Row>)
    ensures forall j :: 0 <= j < |Seeded(data)| ==> 0 <= SeedIndex(Seeded(data)[j].id) < |SkipBanner(data)|
    ensures forall j, k :: 0 <= j < k < |Seeded(data)| ==>
      SeedIndex(Seeded(data)[j].id) < SeedIndex(Seeded(data)[k].id)
    ensures forall j, k :: 0 <= j < k < |Seeded(data)| ==> Seeded(data)[j].id != Seeded(data)[k].id
  {
    var key := (l: SheetLocation) => SeedIndex(l.id);
    KeptIncreasing(ParseAll(SkipBanner(data), ParseRow), key, 0);
  }

  /** Every written record has a truthy name and bank. */
  lemma SeededNamed(data: seq<Row>)
    ensures forall x :: x in Seeded(data) ==> Truthy(x.name) && Truthy(x.bank)
  {
    KeptSound(ParseAll(SkipBanner(data), ParseRow));
  }
}
