/**
 * The location store of lib/storage.ts: the canonical `Location` record,
 * seeding from the semicolon-separated seed file, `getLocations` and
 * `addLocation`. The data file and the seed file are fields of `Store`;
 * reading, writing and JSON (de)serialisation of them are not modelled.
 */
module Storage {
  import opened Text
  import opened Rows

  /** The canonical record. `kind` is the source's `type` field (`type` is a
      reserved word in Dafny). Coordinates are the numbers `parseFloat`
      produced, never NaN. `category` and `kind` are `None` when the stored
      object lacks the property: records created through the POST endpoint
      are written without them. */
  datatype Location = Location(
    id: string,
    lat: real,
    lng: real,
    name: string,
    category: Option<string>,
    kind: Option<string>,
    bank: string,
    branch: string,
    mfo: string,
    city: string,
    neighborhood: string,
    address: string,
    status: string,
    model: string)

  /** `Omit<Location, 'id'>`: what `addLocation` is given. */
  datatype Draft = Draft(
    lat: real,
    lng: real,
    name: string,
    category: Option<string>,
    kind: Option<string>,
    bank: string,
    branch: string,
    mfo: string,
    city: string,
    neighborhood: string,
    address: string,
    status: string,
    model: string)

  /** `{ ...location, id }`. */
  function WithId(d: Draft, id: string): (l: Location)
    ensures l.id == id
    ensures Draft(l.lat, l.lng, l.name, l.category, l.kind, l.bank, l.branch, l.mfo,
                  l.city, l.neighborhood, l.address, l.status, l.model) == d
  {
    Location(id, d.lat, d.lng, d.name, d.category, d.kind, d.bank, d.branch, d.mfo,
             d.city, d.neighborhood, d.address, d.status, d.model)
  }

  // ---------------------------------------------------------------------
  // Seeding from the delimited-text file
  // ---------------------------------------------------------------------

  /** `s || fallback` for a string. */
  function OrElse(s: string, fallback: string): string {
    if s != "" then s else fallback
  }

  /** A coordinate field as `parseFloat` sees it: the first decimal comma
      becomes a point, then the field is trimmed. */
  function CoordinateText(field: string): string {
    Trim(ReplaceFirst(field, ',', '.'))
  }

  /** The `;`-separated fields of a trimmed line. */
  function Fields(line: string): seq<string> {
    Split(Trim(line), ';')
  }

  /** One data line of the seed file, at index `i` of the file's lines:
      `None` when it is dropped. A kept line has at least seven separators,
      its record carries the id `seed-<i>`, a non-empty name and category,
      and the fields the seed file does not have are empty. */
  function ParseLine(line: string, i: nat): (r: Option<Location>)
    ensures AllSpace(line) ==> r.None?
    ensures r.Some? ==> Count(Trim(line), ';') >= 7
    ensures r.Some? ==> SeedIndex(r.value.id) == i
    ensures r.Some? ==> r.value.name != "" && r.value.category.Some? && r.value.category.value != ""
    ensures r.Some? ==> r.value.kind.Some?
    ensures r.Some? ==> r.value.bank == r.value.branch == r.value.mfo == r.value.city
                        == r.value.neighborhood == r.value.address == ""
  {
    var t := Trim(line);
    if t == "" then None
    else
      var parts := Split(t, ';');
      if |parts| < 8 then None
      else
        var lat := ParseFloat(CoordinateText(parts[6]));
        var lng := ParseFloat(CoordinateText(parts[7]));
        if lat.None? || lng.None? then None
        else
          Some(Location(
            id := SeedId(i),
            lat := lat.value,
            lng := lng.value,
            name := OrElse(Trim(parts[2]), "Unknown Location"),
            category := Some(OrElse(Trim(parts[1]), "Unknown Category")),
            kind := Some(Trim(parts[3])),
            bank := "",
            branch := "",
            mfo := "",
            city := "",
            neighborhood := "",
            address := "",
            status := Trim(parts[5]),
            model := Trim(parts[4])))
  }

  /** A line is kept exactly when it is not blank, has at least eight
      fields, and both coordinate fields parse as numbers; the coordinates
      are then those numbers. */
  lemma ParseLineKeeps(line: string, i: nat)
    ensures ParseLine(line, i).Some? <==>
      && !AllSpace(line)
      && Count(Trim(line), ';') >= 7
      && ParseFloat(CoordinateText(Fields(line)[6])).Some?
      && ParseFloat(CoordinateText(Fields(line)[7])).Some?
    ensures ParseLine(line, i).Some? ==>
      && Some(ParseLine(line, i).value.lat) == ParseFloat(CoordinateText(Fields(line)[6]))
      && Some(ParseLine(line, i).value.lng) == ParseFloat(CoordinateText(Fields(line)[7]))
  {}

  /** The parse of every line of the file; the header line (index 0) is
      skipped. */
  function ParsedLines(lines: seq<string>): (r: seq<Option<Location>>)
    ensures |r| == |lines|
    ensures forall i :: 0 <= i < |r| ==> r[i] == (if i == 0 then None else ParseLine(lines[i], i))
  {
    seq(|lines|, i requires 0 <= i < |lines| => if i == 0 then None else ParseLine(lines[i], i))
  }

  /** What seeding writes to the data file. */
  function CsvSeed(lines: seq<string>): seq<Location> {
    Kept(ParsedLines(lines))
  }

  /** The seeded records are exactly the records of the data lines (index
      1 onwards) that parse: the header never yields a record. */
  lemma CsvSeedRecords(lines: seq<string>)
    ensures forall x :: x in CsvSeed(lines) ==>
      exists i :: 1 <= i < |lines| && ParseLine(lines[i], i) == Some(x)
    ensures forall i :: 1 <= i < |lines| && ParseLine(lines[i], i).Some? ==>
      ParseLine(lines[i], i).value in CsvSeed(lines)
  {
    var parsed := ParsedLines(lines);
    KeptSound(parsed);
    KeptComplete(parsed);
    forall x | x in CsvSeed(lines)
      ensures exists i :: 1 <= i < |lines| && ParseLine(lines[i], i) == Some(x)
    {
      var i :| 0 <= i < |parsed| && parsed[i] == Some(x);
    }
  }

  /** Seeded ids are `seed-<line index>` with line indices strictly
      increasing along the output and never 0: seeded ids are pairwise
      distinct and the output follows line order. */
  lemma CsvSeedIds(lines: seq<string>)
    ensures forall j :: 0 <= j < |CsvSeed(lines)| ==> 1 <= SeedIndex(CsvSeed(lines)[j].id) < |lines|
    ensures forall j, k :: 0 <= j < k < |CsvSeed(lines)| ==>
      SeedIndex(CsvSeed(lines)[j].id) < SeedIndex(CsvSeed(lines)[k].id)
    ensures forall j, k :: 0 <= j < k < |CsvSeed(lines)| ==> CsvSeed(lines)[j].id != CsvSeed(lines)[k].id
  {
    var parsed := ParsedLines(lines);
    var key := (l: Location) => SeedIndex(l.id);
    KeptIncreasing(parsed, key, 0);
    KeptSound(parsed);
    forall j | 0 <= j < |CsvSeed(lines)|
      ensures 1 <= SeedIndex(CsvSeed(lines)[j].id)
    {
      var x := CsvSeed(lines)[j];
      assert x in Kept(parsed);
      var i :| 0 <= i < |parsed| && parsed[i] == Some(x);
    }
  }

  /** A line made of eight `;`-free fields, with no white space at either
      end and numeric coordinate fields, yields the record built from
      those fields. */
  lemma ParseLineOfFields(fields: seq<string>, i: nat, line: string)
    requires |fields| == 8 && forall k :: 0 <= k < 8 ==> ';' !in fields[k]
    requires line == Join(fields, ';') && line != [] && Trim(line) == line
    requires ParseFloat(CoordinateText(fields[6])).Some? && ParseFloat(CoordinateText(fields[7])).Some?
    ensures ParseLine(line, i) == Some(Location(SeedId(i),
      ParseFloat(CoordinateText(fields[6])).value, ParseFloat(CoordinateText(fields[7])).value,
      OrElse(Trim(fields[2]), "Unknown Location"), Some(OrElse(Trim(fields[1]), "Unknown Category")),
      Some(Trim(fields[3])), "", "", "", "", "", "", Trim(fields[5]), Trim(fields[4])))
  {
    SplitJoin(fields, ';');
    assert Fields(line) == fields;
    ParseLineKeeps(line, i);
    ParseLineRecord(line, i);
  }

  /** The text fields of a kept line's record, in terms of the line's
      fields. */
  lemma ParseLineRecord(line: string, i: nat)
    requires ParseLine(line, i).Some?
    ensures var r, f := ParseLine(line, i).value, Fields(line);
      && r.id == SeedId(i)
      && (AllSpace(f[2]) ==> r.name == "Unknown Location")
      && (!AllSpace(f[2]) ==> r.name == Trim(f[2]))
      && (AllSpace(f[1]) ==> r.category == Some("Unknown Category"))
      && (!AllSpace(f[1]) ==> r.category == Some(Trim(f[1])))
      && r.kind == Some(Trim(f[3])) && r.status == Trim(f[5]) && r.model == Trim(f[4])
      && r.bank == r.branch == r.mfo == r.city == r.neighborhood == r.address == ""
  {
  }

  /** A line of eight `;`-free fields whose text fields are already
      trimmed: the name, category, type, status and model are the fields
      themselves. */
  lemma ParseLineOfTrimmedFields(fields: seq<string>, i: nat, line: string, lat: real, lng: real)
    requires |fields| == 8 && forall k :: 0 <= k < 8 ==> ';' !in fields[k]
    requires line == Join(fields, ';') && line != [] && Trim(line) == line
    requires forall k :: 1 <= k < 6 ==> Trim(fields[k]) == fields[k]
    requires fields[1] != [] && fields[2] != []
    requires ParseFloat(CoordinateText(fields[6])) == Some(lat) && ParseFloat(CoordinateText(fields[7])) == Some(lng)
    ensures ParseLine(line, i) == Some(Location(SeedId(i), lat, lng, fields[2], Some(fields[1]), Some(fields[3]),
      "", "", "", "", "", "", fields[5], fields[4]))
  {
    ParseLineOfFields(fields, i, line);
  }

  /** A field written `whole.fraction` or `whole,fraction` normalises to
      `whole.fraction`. */
  lemma CoordinateTextOfDecimal(whole: string, sep: char, fraction: string)
    requires whole != [] && AllDigits(whole) && AllDigits(fraction)
    requires sep == '.' || sep == ','
    ensures CoordinateText(whole + [sep] + fraction) == whole + "." + fraction
  {
    DecimalCommaReplaced(whole, sep, fraction);
    DecimalTrimmed(whole, fraction);
  }

  /** Replacing the first comma turns either decimal separator into a point. */
  lemma DecimalCommaReplaced(whole: string, sep: char, fraction: string)
    requires AllDigits(whole) && AllDigits(fraction)
    requires sep == '.' || sep == ','
    ensures ReplaceFirst(whole + [sep] + fraction, ',', '.') == whole + "." + fraction
  {
    var s := whole + [sep] + fraction;
    assert NoneBefore(s, ',', |whole|) by {
      forall i | 0 <= i < |whole|
        ensures s[i] != ','
      {
        assert s[i] == whole[i];
      }
    }
    if sep == ',' {
      assert IndexOf(s, ',') == |whole|;
      assert s[..|whole|] == whole && s[|whole| + 1..] == fraction;
    } else {
      forall i | 0 <= i < |s|
        ensures s[i] != ','
      {
        if i > |whole| {
          assert s[i] == fraction[i - |whole| - 1];
        }
      }
      assert s == whole + "." + fraction;
    }
  }

  /** A decimal has no surrounding white space. */
  lemma DecimalTrimmed(whole: string, fraction: string)
    requires whole != [] && AllDigits(whole) && AllDigits(fraction)
    ensures Trim(whole + "." + fraction) == whole + "." + fraction
  {
    var t := whole + "." + fraction;
    assert t[0] == whole[0];
    if fraction == [] {
      assert t[|t| - 1] == '.';
    } else {
      assert t[|t| - 1] == fraction[|fraction| - 1];
    }
    TrimKeeps(t);
  }

  /** A coordinate field written `whole.fraction` or `whole,fraction` reads
      as the value of that decimal. */
  lemma CoordinateOfDecimal(whole: string, sep: char, fraction: string, text: string, value: real)
    requires whole != [] && AllDigits(whole) && AllDigits(fraction)
    requires sep == '.' || sep == ','
    requires text == whole + [sep] + fraction && value == Magnitude(whole, fraction)
    ensures ParseFloat(CoordinateText(text)) == Some(value)
  {
    CoordinateTextOfDecimal(whole, sep, fraction);
    ParseFloatDecimal(whole, fraction);
  }

  /** A latitude written with a decimal comma, as a spreadsheet export in a
      comma locale writes it. */
  lemma ExampleLatitude(text: string)
    requires text == "41,0123"
    ensures ParseFloat(CoordinateText(text)) == Some(41.0123)
  {
    var whole, fraction := "41", "0123";
    assert AllDigits(whole) && AllDigits(fraction) && text == whole + [','] + fraction;
    assert Magnitude(whole, fraction) == 41.0123 by {
      assert DigitsValue("41") == 41 by {
        assert "41"[..1] == "4";
        assert "4"[..0] == "";
      }
      assert DigitsValue("0123") == 123 by {
        assert "0123"[..3] == "012";
        assert "012"[..2] == "01";
        assert "01"[..1] == "0";
        assert "0"[..0] == "";
      }
      assert Pow10(4) == 10000;
    }
    CoordinateOfDecimal(whole, ',', fraction, text, 41.0123);
  }

  /** A longitude written with a decimal point. */
  lemma ExampleLongitude(text: string)
    requires text == "70.1456"
    ensures ParseFloat(CoordinateText(text)) == Some(70.1456)
  {
    var whole, fraction := "70", "1456";
    assert AllDigits(whole) && AllDigits(fraction) && text == whole + ['.'] + fraction;
    assert Magnitude(whole, fraction) == 70.1456 by {
      assert DigitsValue("70") == 70 by {
        assert "70"[..1] == "7";
        assert "7"[..0] == "";
      }
      assert DigitsValue("1456") == 1456 by {
        assert "1456"[..3] == "145";
        assert "145"[..2] == "14";
        assert "14"[..1] == "1";
        assert "1"[..0] == "";
      }
      assert Pow10(4) == 10000;
    }
    CoordinateOfDecimal(whole, '.', fraction, text, 70.1456);
  }

  /** A latitude written with a decimal point. */
  lemma ExampleLatitudeWithPoint(text: string)
    requires text == "41.0123"
    ensures ParseFloat(CoordinateText(text)) == Some(41.0123)
  {
    var whole, fraction := "41", "0123";
    assert AllDigits(whole) && AllDigits(fraction) && text == whole + ['.'] + fraction;
    assert Magnitude(whole, fraction) == 41.0123 by {
      assert DigitsValue("41") == 41 by {
        assert "41"[..1] == "4";
        assert "4"[..0] == "";
      }
      assert DigitsValue("0123") == 123 by {
        assert "0123"[..3] == "012";
        assert "012"[..2] == "01";
        assert "01"[..1] == "0";
        assert "0"[..0] == "";
      }
      assert Pow10(4) == 10000;
    }
    CoordinateOfDecimal(whole, '.', fraction, text, 41.0123);
  }

  /** The fields of the example line hold no separator. */
  lemma ExampleFieldsSeparated(fields: seq<string>)
    requires fields == ["2", "Bank", "Central", "Main", "", "1", "41.0123", "70.1456"]
    ensures forall k :: 0 <= k < 8 ==> ';' !in fields[k]
  {
    forall k | 0 <= k < 8
      ensures ';' !in fields[k]
    {
      var f := fields[k];
      forall j | 0 <= j < |f|
        ensures f[j] != ';'
      {
      }
    }
  }

  /** The text fields of the example line carry no surrounding white space. */
  lemma ExampleFieldsTrimmed(fields: seq<string>)
    requires fields == ["2", "Bank", "Central", "Main", "", "1", "41.0123", "70.1456"]
    ensures forall k :: 1 <= k < 6 ==> Trim(fields[k]) == fields[k]
  {
    forall k | 1 <= k < 6
      ensures Trim(fields[k]) == fields[k]
    {
      TrimKeeps(fields[k]);
    }
  }

  /** The line `2;Bank;Central;Main;;1;41.0123;70.1456` (the `;`-join of
      its eight fields) becomes the record named "Central", of category
      "Bank" and type "Main", with status "1", an empty model, the two
      coordinates, and every other field empty. */
  lemma ExampleLine(fields: seq<string>, line: string, i: nat)
    requires fields == ["2", "Bank", "Central", "Main", "", "1", "41.0123", "70.1456"]
    requires line == Join(fields, ';')
    ensures ParseLine(line, i) == Some(Location(SeedId(i), 41.0123, 70.1456, "Central", Some("Bank"), Some("Main"),
      "", "", "", "", "", "", "1", ""))
  {
    ExampleFieldsSeparated(fields);
    ExampleFieldsTrimmed(fields);
    JoinTrimmed(fields, ';');
    ExampleLongitude(fields[7]);
    ExampleLatitudeWithPoint(fields[6]);
    ParseLineOfTrimmedFields(fields, i, line, 41.0123, 70.1456);
  }

  // ---------------------------------------------------------------------
  // Identifiers for added records
  // ---------------------------------------------------------------------

  predicate IsBase36(s: string) {
    forall i :: 0 <= i < |s| ==> '0' <= s[i] <= '9' || 'a' <= s[i] <= 'z'
  }

  /** `Math.random().toString(36).substr(2, 9)`, where `fraction` is the
      random base-36 digits that follow "0.": at most nine of them, taken
      from the front. Nothing makes two such ids differ. */
  function RandomId(fraction: string): (id: string)
    requires IsBase36(fraction)
    ensures |id| <= 9 && |id| <= |fraction| && IsBase36(id)
    ensures |id| == |fraction| || |id| == 9
    ensures id == fraction[..|id|]
  {
    if |fraction| <= 9 then fraction else fraction[..9]
  }

  // ---------------------------------------------------------------------
  // The store
  // ---------------------------------------------------------------------

  /** The durable state: the data file (present or not, and its records)
      and the seed file (present or not, and its text). */
  class Store {
    /** The records in the data file; meaningful while `fileExists`. */
    var data: seq<Location>
    var fileExists: bool
    /** The text of the seed file, `None` when the file is absent. */
    var csv: Option<string>

    constructor (data: seq<Location>, fileExists: bool, csv: Option<string>)
      ensures this.data == data && this.fileExists == fileExists && this.csv == csv
    {
      this.data := data;
      this.fileExists := fileExists;
      this.csv := csv;
    }

    /** What `getLocations` returns in the current state. */
    function Listed(): seq<Location>
      reads this
    {
      if fileExists then data
      else if csv.Some? then CsvSeed(Split(csv.value, '\n'))
      else []
    }

    /** `seedFromCsv`: without a seed file nothing is written; otherwise
        the whole seeded collection is written, replacing the data file. */
    method SeedFromCsv()
      modifies this
      ensures csv == old(csv)
      ensures csv.None? ==> data == old(data) && fileExists == old(fileExists)
      ensures csv.Some? ==> fileExists && data == CsvSeed(Split(csv.value, '\n'))
    {
      if csv.None? {
        return;
      }
      var lines := Split(csv.value, '\n');
      var locations: seq<Location> := [];
      assert ParsedLines(lines)[..1] == [None];
      assert Kept<Location>([None]) == [];
      var i := 1;
      while i < |lines|
        invariant 1 <= i <= |lines|
        invariant locations == Kept(ParsedLines(lines)[..i])
        invariant csv == old(csv)
      {
        var parsed := ParseLine(lines[i], i);
        KeptSnoc(ParsedLines(lines), i);
        if parsed.Some? {
          locations := locations + [parsed.value];
        }
        i := i + 1;
      }
      assert ParsedLines(lines)[..|lines|] == ParsedLines(lines);
      data := locations;
      fileExists := true;
    }

    /** `getLocations`: seeds when the data file is absent, then returns the
        data file's records, or nothing when there is still no data file. */
    method GetLocations() returns (r: seq<Location>)
      modifies this
      ensures r == old(Listed()) && Listed() == old(Listed())
      ensures csv == old(csv)
      ensures fileExists == (old(fileExists) || csv.Some?)
      ensures old(fileExists) ==> data == old(data)
    {
      if !fileExists {
        SeedFromCsv();
      }
      if fileExists {
        r := data;
      } else {
        r := [];
      }
    }

    /** `addLocation`: the listed records, with one record appended that is
        the given draft plus a random id, are written back whole. */
    method AddLocation(location: Draft, fraction: string) returns (r: Location)
      requires IsBase36(fraction)
      modifies this
      ensures r == WithId(location, RandomId(fraction))
      ensures fileExists && data == old(Listed()) + [r]
      ensures Listed() == old(Listed()) + [r]
      ensures csv == old(csv)
    {
      var locations := GetLocations();
      r := WithId(location, RandomId(fraction));
      locations := locations + [r];
      data := locations;
      fileExists := true;
    }
  }
}
