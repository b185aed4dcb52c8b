/**
 * debug_seed.js: the diagnostic twin of manual_seed.js. It accepts only a
 * `;` in column 10, writes nothing, and reports what it found: the row
 * counts, the number of records, the first record, and a bounded log of
 * the first rows and of the early rows it rejected.
 */
module DebugSeed {
  import opened Text
  import opened Rows
  import opened Sheet
  import ManualSeed

  /** `parseFloat` of the trimmed pieces before and after the first `;`:
      `None` when either is NaN. */
  function SemicolonCoords(raw: string): (r: Option<(real, real)>)
    requires ';' in raw
    ensures r.Some? <==> ParseFloat(Trim(Split(raw, ';')[0])).Some? && ParseFloat(Trim(Split(raw, ';')[1])).Some?
    ensures r.Some? ==> Some(r.value.0) == ParseFloat(Trim(Split(raw, ';')[0]))
    ensures r.Some? ==> Some(r.value.1) == ParseFloat(Trim(Split(raw, ';')[1]))
  {
    var parts := Split(raw, ';');
    var lat := ParseFloat(Trim(parts[0]));
    var lng := ParseFloat(Trim(parts[1]));
    if lat.None? || lng.None? then None else Some((lat.value, lng.value))
  }

  /** How the script handles row `index`: a record, or rejected because
      the coordinates did not parse, or because column 10 is not a string
      holding a `;`. */
  datatype Outcome = Parsed(record: SheetLocation) | BadCoords | BadRaw

  function Handle(row: Row, index: nat): (o: Outcome)
    ensures o.BadRaw? <==> !(CellAt(row, 10).Str? && ';' in CellAt(row, 10).s)
    ensures o.Parsed? <==> CellAt(row, 10).Str? && ';' in CellAt(row, 10).s && SemicolonCoords(CellAt(row, 10).s).Some?
    ensures o.Parsed? ==>
      && SemicolonCoords(CellAt(row, 10).s) == Some((o.record.lat, o.record.lng))
      && o.record == RecordOf(row, index, o.record.lat, o.record.lng)
    ensures o.Parsed? ==> SeedIndex(o.record.id) == index && Truthy(o.record.name) && Truthy(o.record.bank)
  {
    var raw := CellAt(row, 10);
    if raw.Str? && ';' in raw.s then
      var coords := SemicolonCoords(raw.s);
      if coords.Some? then Parsed(RecordOf(row, index, coords.value.0, coords.value.1)) else BadCoords
    else BadRaw
  }

  /** The record of row `index`, if the script keeps one. */
  function ParseRow(row: Row, index: nat): (r: Option<SheetLocation>)
    ensures r.Some? <==> Handle(row, index).Parsed?
    ensures r.Some? ==> Handle(row, index) == Parsed(r.value)
  {
    match Handle(row, index)
    case Parsed(record) => Some(record)
    case _ => None
  }

  /** On a column-10 string with a `;` the two scripts build the same
      record or both drop the row: the missing `latStr && lngStr` check is
      made up by `parseFloat('')` being NaN. */
  lemma AgreesWithManual(row: Row, index: nat)
    requires CellAt(row, 10).Str? && ';' in CellAt(row, 10).s
    ensures ParseRow(row, index) == ManualSeed.ParseRow(row, index)
  {
    var raw := CellAt(row, 10).s;
    var parts := Split(raw, ';');
    if Trim(parts[0]) == "" || Trim(parts[1]) == "" {
      BlankPieceDropped(row, index);
    } else {
      PiecesAgree(row, index);
    }
  }

  /** With both pieces present the scripts read the same two texts. */
  lemma PiecesAgree(row: Row, index: nat)
    requires CellAt(row, 10).Str? && ';' in CellAt(row, 10).s
    requires var parts := Split(CellAt(row, 10).s, ';'); Trim(parts[0]) != "" && Trim(parts[1]) != ""
    ensures ParseRow(row, index) == ManualSeed.ParseRow(row, index)
  {
    var raw := CellAt(row, 10).s;
    var parts := Split(raw, ';');
    assert ManualSeed.CoordPieces(raw) == Some((Trim(parts[0]), Trim(parts[1])));
  }

  /** A blank piece drops the row in both scripts. */
  lemma BlankPieceDropped(row: Row, index: nat)
    requires CellAt(row, 10).Str? && ';' in CellAt(row, 10).s
    requires var parts := Split(CellAt(row, 10).s, ';'); Trim(parts[0]) == "" || Trim(parts[1]) == ""
    ensures ParseRow(row, index).None? && ManualSeed.ParseRow(row, index).None?
  {
    ParseFloatEmpty();
  }

  /** Every record this script finds, manual_seed.js writes too. */
  lemma FoundByManual(row: Row, index: nat)
    requires ParseRow(row, index).Some?
    ensures ManualSeed.ParseRow(row, index) == ParseRow(row, index)
  {
    AgreesWithManual(row, index);
  }

  /** The records the script collects. */
  function Found(data: seq<Row>): seq<SheetLocation> {
    Kept(ParseAll(SkipBanner(data), ParseRow))
  }

  /** The records found are the records manual_seed.js writes, minus the
      rows whose coordinates are separated by a comma, in the same order. */
  lemma FoundSubseqOfSeeded(data: seq<Row>)
    ensures IsSubseq(Found(data), ManualSeed.Seeded(data))
    ensures |Found(data)| <= |ManualSeed.Seeded(data)|
  {
    var rows := SkipBanner(data);
    var strict, loose := ParseAll(rows, ParseRow), ParseAll(rows, ManualSeed.ParseRow);
    forall i | 0 <= i < |strict| && strict[i].Some?
      ensures loose[i] == strict[i]
    {
      FoundByManual(rows[i], i);
    }
    KeptSubseq(strict, loose);
    SubseqLength(Found(data), ManualSeed.Seeded(data));
  }

  /** A console line about a row. */
  datatype Diagnostic =
    | RowDump(index: nat, row: Row)    // `Row ${index}: ${JSON.stringify(row)}`
    | InvalidParsed(index: nat)        // `Row ${index}: Invalid coords parsed: …`
    | InvalidRaw(index: nat)           // `Row ${index}: Invalid coords raw: …`

  /** The lines logged while handling row `index` with the given outcome:
      its dump for the first three rows, then, for the first ten rows, why
      it was rejected. */
  function RowLog(index: nat, row: Row, outcome: Outcome): (log: seq<Diagnostic>)
    ensures |log| <= 2
    ensures index >= 10 ==> log == []
    ensures index >= 3 ==> |log| <= 1
    ensures outcome.Parsed? ==> log == (if index < 3 then [RowDump(index, row)] else [])
  {
    var dump := if index < 3 then [RowDump(index, row)] else [];
    var verdict :=
      if index >= 10 then []
      else match outcome
        case Parsed(_) => []
        case BadCoords => [InvalidParsed(index)]
        case BadRaw => [InvalidRaw(index)];
    dump + verdict
  }

  /** The log of the first `n` rows. */
  function Log(rows: seq<Row>, outcomes: seq<Outcome>, n: nat): seq<Diagnostic>
    requires n <= |rows| == |outcomes|
  {
    if n == 0 then [] else Log(rows, outcomes, n - 1) + RowLog(n - 1, rows[n - 1], outcomes[n - 1])
  }

  /** However long the sheet, at most thirteen row lines are logged: three
      dumps and ten rejections. */
  lemma {:induction false} LogBounded(rows: seq<Row>, outcomes: seq<Outcome>, n: nat)
    requires n <= |rows| == |outcomes|
    ensures n <= 3 ==> |Log(rows, outcomes, n)| <= 2 * n
    ensures n <= 10 ==> |Log(rows, outcomes, n)| <= n + 3
    ensures |Log(rows, outcomes, n)| <= 13
  {
    if n > 0 {
      LogBounded(rows, outcomes, n - 1);
    }
  }

  /** Every rejected row among the first ten is logged with the reason it
      was rejected. */
  lemma RejectionsLogged(rows: seq<Row>, outcomes: seq<Outcome>, n: nat)
    requires n <= |rows| == |outcomes|
    ensures forall i :: 0 <= i < n && i < 10 && outcomes[i].BadCoords? ==> InvalidParsed(i) in Log(rows, outcomes, n)
    ensures forall i :: 0 <= i < n && i < 10 && outcomes[i].BadRaw? ==> InvalidRaw(i) in Log(rows, outcomes, n)
  {
    forall i | 0 <= i < n && i < 10 && !outcomes[i].Parsed?
      ensures Rejection(i, outcomes[i]) in Log(rows, outcomes, n)
    {
      RejectionLogged(rows, outcomes, n, i);
    }
  }

  /** The line that says why row `index` was rejected. */
  function Rejection(index: nat, outcome: Outcome): Diagnostic
    requires !outcome.Parsed?
  {
    if outcome.BadCoords? then InvalidParsed(index) else InvalidRaw(index)
  }

  lemma {:induction false} RejectionLogged(rows: seq<Row>, outcomes: seq<Outcome>, n: nat, i: nat)
    requires i < n <= |rows| == |outcomes| && i < 10 && !outcomes[i].Parsed?
    ensures Rejection(i, outcomes[i]) in Log(rows, outcomes, n)
  {
    var last := RowLog(n - 1, rows[n - 1], outcomes[n - 1]);
    assert Log(rows, outcomes, n) == Log(rows, outcomes, n - 1) + last;
    if i < n - 1 {
      RejectionLogged(rows, outcomes, n - 1, i);
    } else {
      assert last[|last| - 1] == Rejection(i, outcomes[i]);
    }
  }

  /** No line is logged about a row from the eleventh on, and a kept row
      past the third is never mentioned. */
  lemma {:induction false} LogMentionsEarlyRows(rows: seq<Row>, outcomes: seq<Outcome>, n: nat)
    requires n <= |rows| == |outcomes|
    ensures forall d :: d in Log(rows, outcomes, n) ==> d.index < 10 && d.index < n
    ensures forall d :: d in Log(rows, outcomes, n) && d.index >= 3 ==> !outcomes[d.index].Parsed?
  {
    if n > 0 {
      LogMentionsEarlyRows(rows, outcomes, n - 1);
    }
  }

  /** What the script prints after the row lines. */
  datatype Report = Report(
    totalRows: nat,
    rowsToProcess: nat,
    log: seq<Diagnostic>,
    seeded: nat,
    sample: Option<SheetLocation>)

  /** The `rows.forEach` callback on row `index`: the record it keeps,
      if any, and the lines it logs. */
  method HandleRow(row: Row, index: nat) returns (record: Option<SheetLocation>, lines: seq<Diagnostic>)
    ensures record == ParseRow(row, index)
    ensures lines == RowLog(index, row, Handle(row, index))
  {
    var dump: seq<Diagnostic> := if index < 3 then [RowDump(index, row)] else [];
    var verdict: seq<Diagnostic> := [];
    var outcome := Handle(row, index);
    record := None;
    if outcome.Parsed? {
      record := Some(outcome.record);
    } else if index < 10 {
      verdict := if outcome.BadCoords? then [InvalidParsed(index)] else [InvalidRaw(index)];
    }
    lines := dump + verdict;
  }

  /** The `rows.forEach` pass: the records kept, in row order, and the
      row lines logged. */
  method HandleRows(rows: seq<Row>) returns (locations: seq<SheetLocation>, log: seq<Diagnostic>)
    ensures locations == Kept(ParseAll(rows, ParseRow))
    ensures log == Log(rows, ParseAll(rows, Handle), |rows|)
  {
    locations := [];
    log := [];
    var index := 0;
    assert ParseAll(rows, ParseRow)[..0] == [];
    while index < |rows|
      invariant 0 <= index <= |rows|
      invariant locations == Kept(ParseAll(rows, ParseRow)[..index])
      invariant log == Log(rows, ParseAll(rows, Handle), index)
    {
      KeptSnoc(ParseAll(rows, ParseRow), index);
      var record, lines := HandleRow(rows[index], index);
      if record.Some? {
        locations := locations + [record.value];
      }
      log := log + lines;
      index := index + 1;
    }
    assert ParseAll(rows, ParseRow)[..|rows|] == ParseAll(rows, ParseRow);
  }

  /** `seedFromExcel` of debug_seed.js: `None` when the workbook is absent.
      Nothing is written anywhere. */
  method SeedFromExcel(workbook: Option<seq<Row>>) returns (report: Option<Report>)
    ensures workbook.None? <==> report.None?
    ensures workbook.Some? ==>
      var rows := SkipBanner(workbook.value);
      && report.value.totalRows == |workbook.value|
      && report.value.rowsToProcess == |rows|
      && report.value.log == Log(rows, ParseAll(rows, Handle), |rows|)
    ensures workbook.Some? ==>
      var found := Found(workbook.value);
      && report.value.seeded == |found|
      && report.value.sample == (if found == [] then None else Some(found[0]))
  {
    if workbook.None? {
      return None;
    }
    var rows := SkipBanner(workbook.value);
    var locations, log := HandleRows(rows);
    var sample := if locations == [] then None else Some(locations[0]);
    report := Some(Report(|workbook.value|, |rows|, log, |locations|, sample));
  }
}
