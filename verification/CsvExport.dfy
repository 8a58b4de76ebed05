/** The export file writer, and a reader that gets the written CSV rows back. */
module CsvExport {
  import opened JsonValues
  import opened Text

  datatype Format = CsvFormat | JsonFormat

  // ---- Writing ----

  /** Cells as text: a missing or null one is empty. */
  function ExportText(values: Record, name: string): string {
    if name !in values then ""
    else
      match values[name]
      case Null => ""
      case Bool(flag) => if flag then "true" else "false"
      case Integer(n) => if n < 0 then "-" + Decimal(-n) else Decimal(n)
      case Real(negative, digits) => (if negative then "-" else "") + digits
      case Str(text) => text
      case Nested(json) => json
  }

  /** A number as text: its sign, if it is below zero, and digits that have its value. */
  ghost predicate SaysNumber(text: string, n: int) {
    if n < 0 then text != "" && text[0] == '-' && AllDigits(text[1..]) && ValueOf(text[1..]) == -n
    else AllDigits(text) && ValueOf(text) == n
  }

  /** What a cell is written as: nothing for null, words for flags, numbers by their value, texts as they are. */
  lemma CellIsWritten(values: Record, name: string)
    ensures
      var text := ExportText(values, name);
      && (name !in values || values[name] == Null ==> text == "")
      && (name in values && values[name] == Bool(true) ==> text == "true")
      && (name in values && values[name] == Bool(false) ==> text == "false")
      && (name in values && values[name].Integer? ==> SaysNumber(text, values[name].number))
      && (name in values && values[name].Real? ==>
            text == if values[name].negative then "-" + values[name].digits else values[name].digits)
      && (name in values && values[name].Str? ==> text == values[name].text)
      && (name in values && values[name].Nested? ==> text == values[name].json)
  {
    hide Decimal, ValueOf;
    if name in values && values[name].Integer? {
      var n := values[name].number;
      var digits := Decimal(if n < 0 then -n else n);
      DecimalValue(if n < 0 then -n else n);
      assert ("-" + digits)[1..] == digits;
    }
  }

  predicate IsSpecial(c: char) { c == ',' || c == '"' || c == '\n' || c == '\r' }

  predicate Clean(field: string) { forall c <- field :: !IsSpecial(c) }

  function EscapeCsvField(raw: string): string {
    if Clean(raw) then raw else "\"" + Doubled(raw, '"') + "\""
  }

  function Escaped(fields: seq<string>): seq<string> {
    if fields == [] then [] else [EscapeCsvField(fields[0])] + Escaped(fields[1..])
  }

  function CsvLine(fields: seq<string>): string { Join(fields, ",") + "\n" }

  function FieldsOf(names: seq<string>, values: Record): (fields: seq<string>)
    ensures |fields| == |names| && forall i :: 0 <= i < |names| ==> fields[i] == ExportText(values, names[i])
  {
    if names == [] then [] else [ExportText(values, names[0])] + FieldsOf(names[1..], values)
  }

  /** The lines of some records. */
  function RecordsText(records: seq<seq<string>>): string {
    if records == [] then "" else RecordsText(records[..|records| - 1]) + CsvLine(Escaped(records[|records| - 1]))
  }

  class ExportFileWriter {
    const format: Format
    const columnNames: seq<string>
    var file: string
    var firstJsonRow: bool

    constructor (format: Format, columnNames: seq<string>)
      ensures this.format == format && this.columnNames == columnNames && firstJsonRow
      ensures file == if format.CsvFormat? then CsvLine(columnNames) else "[\n"
    {
      this.format, this.columnNames := format, columnNames;
      file := if format.CsvFormat? then CsvLine(columnNames) else "[\n";
      firstJsonRow := true;
    }

    /** One more row; `jsonText` is the row's JSON text, made by the serialiser. */
    method WriteRow(values: Record, jsonText: string)
      modifies this`file, this`firstJsonRow
      ensures format.CsvFormat? ==>
        file == old(file) + CsvLine(Escaped(FieldsOf(columnNames, values))) && firstJsonRow == old(firstJsonRow)
      ensures format.JsonFormat? ==>
        file == old(file) + (if old(firstJsonRow) then "" else ",\n") + jsonText && !firstJsonRow
    {
      match format
      case CsvFormat =>
        file := file + CsvLine(Escaped(FieldsOf(columnNames, values)));
      case JsonFormat =>
        if !firstJsonRow {
          file := file + ",\n";
        }
        file := file + jsonText;
        firstJsonRow := false;
    }

    method Finish()
      modifies this`file
      ensures file == old(file) + if format.JsonFormat? then (if firstJsonRow then "]\n" else "\n]\n") else ""
    {
      if format.JsonFormat? {
        if !firstJsonRow {
          file := file + "\n";
        }
        file := file + "]\n";
      }
    }
  }

  /** The records of some rows. */
  function RecordsOf(names: seq<string>, rows: seq<Record>): (records: seq<seq<string>>)
    ensures |records| == |rows| && forall i :: 0 <= i < |rows| ==> records[i] == FieldsOf(names, rows[i])
  {
    if rows == [] then []
    else RecordsOf(names, rows[..|rows| - 1]) + [FieldsOf(names, rows[|rows| - 1])]
  }

  function ObjectsText(objects: seq<string>): string {
    if objects == [] then "[\n]\n" else "[\n" + Join(objects, ",\n") + "\n]\n"
  }

  lemma {:induction false} JoinLast(parts: seq<string>, last: string, separator: string)
    requires parts != []
    ensures Join(parts + [last], separator) == Join(parts, separator) + separator + last
  {
    if |parts| > 1 {
      JoinLast(parts[1..], last, separator);
      assert (parts + [last])[1..] == parts[1..] + [last];
      assert parts[0] + separator + (Join(parts[1..], separator) + separator + last)
          == Join(parts, separator) + separator + last;
    }
  }

  /** A whole export, row by row: a line for each record after the header, or one JSON array of the objects. */
  method Export(format: Format, names: seq<string>, rows: seq<Record>, objects: seq<string>) returns (file: string)
    requires |objects| == |rows|
    ensures format.CsvFormat? ==> file == CsvLine(names) + RecordsText(RecordsOf(names, rows))
    ensures format.JsonFormat? ==> file == ObjectsText(objects)
  {
    hide CsvLine, FieldsOf, Escaped, RecordsOf, RecordsText, Join, ObjectsText;
    var writer := new ExportFileWriter(format, names);
    NothingWritten(names);
    for k := 0 to |rows|
      invariant writer.format == format && writer.columnNames == names
      invariant format.CsvFormat? ==> writer.file == CsvLine(names) + RecordsText(RecordsOf(names, rows[..k]))
      invariant format.JsonFormat? ==>
        writer.firstJsonRow == (k == 0) && writer.file == "[\n" + Join(objects[..k], ",\n")
    {
      RowWritten(names, rows, k);
      ObjectWritten(objects, k);
      writer.WriteRow(rows[k], objects[k]);
    }
    writer.Finish();
    assert rows[..|rows|] == rows && objects[..|objects|] == objects;
    file := writer.file;
    ObjectsWritten(objects);
  }

  lemma ObjectsWritten(objects: seq<string>)
    ensures ObjectsText(objects)
         == "[\n" + Join(objects, ",\n") + if objects == [] then "]\n" else "\n]\n"
  {
    hide Join;
    assert Join([], ",\n") == "" by { NothingWritten([]); }
  }

  lemma NothingWritten(names: seq<string>)
    ensures RecordsText(RecordsOf(names, [])) == "" && Join([], ",\n") == ""
  {
  }

  lemma RowWritten(names: seq<string>, rows: seq<Record>, k: nat)
    requires k < |rows|
    ensures CsvLine(names) + RecordsText(RecordsOf(names, rows[..k + 1]))
         == CsvLine(names) + RecordsText(RecordsOf(names, rows[..k])) + CsvLine(Escaped(FieldsOf(names, rows[k])))
  {
    hide CsvLine, Escaped, FieldsOf;
    assert rows[..k + 1][..k] == rows[..k];
    var records := RecordsOf(names, rows[..k]);
    assert (records + [FieldsOf(names, rows[k])])[..|records|] == records;
  }

  lemma ObjectWritten(objects: seq<string>, k: nat)
    requires k < |objects|
    ensures "[\n" + Join(objects[..k + 1], ",\n")
         == "[\n" + Join(objects[..k], ",\n") + (if k == 0 then "" else ",\n") + objects[k]
  {
    assert objects[..k + 1] == objects[..k] + [objects[k]];
    if k > 0 { JoinLast(objects[..k], objects[k], ",\n"); }
  }

  // ---- Reading (section 2 of RFC 4180, with a line feed as line break) ----

  datatype Field = Field(text: string, rest: string)

  datatype Line = Line(fields: seq<string>, rest: string)

  /** A quoted field, after its opening quote. */
  function ReadQuoted(s: string): (r: Option<Field>)
    ensures r.Some? ==> |r.value.rest| < |s|
  {
    if s == "" then None
    else if s[0] == '"' && |s| > 1 && s[1] == '"' then
      match ReadQuoted(s[2..]) case None => None case Some(f) => Some(Field(['"'] + f.text, f.rest))
    else if s[0] == '"' then Some(Field("", s[1..]))
    else
      match ReadQuoted(s[1..]) case None => None case Some(f) => Some(Field([s[0]] + f.text, f.rest))
  }

  /** A bare field holds neither quote nor carriage return; a comma or line feed ends it. */
  function ReadBare(s: string): (r: Option<Field>)
    ensures r.Some? ==> |r.value.rest| <= |s|
    ensures r.Some? ==> r.value.rest == "" || r.value.rest[0] == ',' || r.value.rest[0] == '\n'
  {
    if s == "" || s[0] == ',' || s[0] == '\n' then Some(Field("", s))
    else if s[0] == '"' || s[0] == '\r' then None
    else
      match ReadBare(s[1..]) case None => None case Some(f) => Some(Field([s[0]] + f.text, f.rest))
  }

  function ReadField(s: string): (r: Option<Field>)
    ensures r.Some? ==> |r.value.rest| <= |s|
  {
    if s != "" && s[0] == '"' then ReadQuoted(s[1..]) else ReadBare(s)
  }

  function ReadLine(s: string): (r: Option<Line>)
    ensures r.Some? ==> |r.value.rest| <= |s| && (s != "" ==> |r.value.rest| < |s|)
    decreases |s|
  {
    match ReadField(s)
    case None => None
    case Some(f) =>
      if f.rest == "" then Some(Line([f.text], ""))
      else if f.rest[0] == '\n' then Some(Line([f.text], f.rest[1..]))
      else if f.rest[0] == ',' then
        match ReadLine(f.rest[1..])
        case None => None
        case Some(line) => Some(Line([f.text] + line.fields, line.rest))
      else None
  }

  function ReadCsv(s: string): Option<seq<seq<string>>>
    decreases |s|
  {
    if s == "" then Some([])
    else
      match ReadLine(s)
      case None => None
      case Some(line) =>
        match ReadCsv(line.rest) case None => None case Some(more) => Some([line.fields] + more)
  }

  // ---- Rows are read back ----

  lemma {:induction false} QuotedReadBack(field: string, rest: string)
    requires rest == "" || rest[0] != '"'
    ensures ReadQuoted(Doubled(field, '"') + "\"" + rest) == Some(Field(field, rest))
  {
    var s := Doubled(field, '"') + "\"" + rest;
    if field == "" {
      assert s == "\"" + rest;
    } else {
      QuotedReadBack(field[1..], rest);
      var tail := Doubled(field[1..], '"') + "\"" + rest;
      if field[0] == '"' {
        assert s == ['"', '"'] + tail;
        assert s[2..] == tail;
      } else {
        assert s == [field[0]] + tail;
        assert s[1..] == tail;
      }
      assert [field[0]] + field[1..] == field;
    }
  }

  predicate EndsField(rest: string) { rest == "" || rest[0] == ',' || rest[0] == '\n' }

  lemma {:induction false} BareReadBack(field: string, rest: string)
    requires Clean(field) && EndsField(rest)
    ensures ReadBare(field + rest) == Some(Field(field, rest))
  {
    if field == "" {
      assert field + rest == rest;
    } else {
      assert (field + rest)[1..] == field[1..] + rest;
      assert !IsSpecial(field[0]) by { assert field[0] in field; }
      BareReadBack(field[1..], rest);
      assert [field[0]] + field[1..] == field;
    }
  }

  lemma FieldReadBack(field: string, rest: string)
    requires EndsField(rest)
    ensures ReadField(EscapeCsvField(field) + rest) == Some(Field(field, rest))
  {
    hide ReadBare, ReadQuoted, Doubled;
    if Clean(field) {
      BareReadBack(field, rest);
      if field != "" { assert field[0] in field; }
    } else {
      var s := EscapeCsvField(field) + rest;
      assert s[1..] == Doubled(field, '"') + "\"" + rest;
      QuotedReadBack(field, rest);
    }
  }

  lemma LineEnds(s: string, f: Field)
    requires ReadField(s) == Some(f) && EndsField(f.rest) && f.rest != ""
    ensures f.rest[0] == '\n' ==> ReadLine(s) == Some(Line([f.text], f.rest[1..]))
    ensures f.rest[0] == ',' ==>
      ReadLine(s)
      == match ReadLine(f.rest[1..])
         case None => None
         case Some(line) => Some(Line([f.text] + line.fields, line.rest))
  {
    hide ReadField;
  }

  lemma {:induction false} LineReadBack(fields: seq<string>, rest: string)
    requires fields != []
    ensures ReadLine(CsvLine(Escaped(fields)) + rest) == Some(Line(fields, rest))
  {
    hide ReadLine, ReadField, EscapeCsvField;
    var s := CsvLine(Escaped(fields)) + rest;
    var first := EscapeCsvField(fields[0]);
    if |fields| == 1 {
      assert Escaped(fields) == [first];
      assert s == first + ("\n" + rest);
      FieldReadBack(fields[0], "\n" + rest);
      LineEnds(s, Field(fields[0], "\n" + rest));
      assert ("\n" + rest)[1..] == rest;
      assert [fields[0]] == fields;
    } else {
      var tail := CsvLine(Escaped(fields[1..])) + rest;
      LineReadBack(fields[1..], rest);
      assert Escaped(fields)[1..] == Escaped(fields[1..]);
      assert s == first + ("," + tail);
      FieldReadBack(fields[0], "," + tail);
      LineEnds(s, Field(fields[0], "," + tail));
      assert ("," + tail)[1..] == tail;
      assert [fields[0]] + fields[1..] == fields;
    }
  }

  /** The lines of some records, first one first. */
  function LinesText(records: seq<seq<string>>): string {
    if records == [] then "" else CsvLine(Escaped(records[0])) + LinesText(records[1..])
  }

  lemma {:induction false} LinesLast(records: seq<seq<string>>, last: seq<string>)
    ensures LinesText(records + [last]) == LinesText(records) + CsvLine(Escaped(last))
  {
    hide CsvLine, Escaped;
    if records == [] {
      assert records + [last] == [last];
      assert [last][1..] == [];
      assert CsvLine(Escaped(last)) + "" == CsvLine(Escaped(last));
    } else {
      assert (records + [last])[1..] == records[1..] + [last];
      LinesLast(records[1..], last);
      assert CsvLine(Escaped(records[0])) + (LinesText(records[1..]) + CsvLine(Escaped(last)))
          == LinesText(records) + CsvLine(Escaped(last));
    }
  }

  lemma {:induction false} SameLines(records: seq<seq<string>>)
    ensures RecordsText(records) == LinesText(records)
  {
    hide CsvLine, Escaped;
    if records != [] {
      var rest, last := records[..|records| - 1], records[|records| - 1];
      SameLines(rest);
      LinesLast(rest, last);
      assert records == rest + [last];
    }
  }

  lemma LineThenMore(s: string, line: Line, more: seq<seq<string>>)
    requires s != "" && ReadLine(s) == Some(line) && ReadCsv(line.rest) == Some(more)
    ensures ReadCsv(s) == Some([line.fields] + more)
  {
    hide ReadLine;
  }

  lemma LineIsNotEmpty(fields: seq<string>)
    ensures CsvLine(fields) != ""
  {
  }

  /** Written rows are read back as the lists of fields they were made from. */
  lemma {:induction false} RowsReadBack(records: seq<seq<string>>)
    requires forall record <- records :: record != []
    ensures ReadCsv(LinesText(records)) == Some(records)
  {
    hide ReadLine, ReadCsv, CsvLine, Escaped;
    if records == [] {
      assert ReadCsv("") == Some([]) by { NothingToRead(); }
    } else {
      var first, rest := records[0], records[1..];
      assert first in records && forall record <- rest :: record in records;
      RowsReadBack(rest);
      LineReadBack(first, LinesText(rest));
      LineIsNotEmpty(Escaped(first));
      LineThenMore(LinesText(records), Line(first, LinesText(rest)), rest);
      assert [first] + rest == records;
    }
  }

  /** The record that an empty record looks like once it is written. */
  function Visible(records: seq<seq<string>>): (r: seq<seq<string>>)
    ensures |r| == |records|
    ensures forall i :: 0 <= i < |records| ==> r[i] == if records[i] == [] then [""] else records[i]
  {
    if records == [] then []
    else [if records[0] == [] then [""] else records[0]] + Visible(records[1..])
  }

  lemma {:induction false} SameText(records: seq<seq<string>>)
    ensures LinesText(Visible(records)) == LinesText(records)
  {
    hide CsvLine, Escaped;
    if records != [] {
      SameText(records[1..]);
      assert Visible(records)[1..] == Visible(records[1..]);
      EmptyLine();
    }
  }

  lemma EmptyLine()
    ensures CsvLine(Escaped([])) == CsvLine(Escaped([""]))
  {
  }

  /** Written rows are read back exactly when each has a field; a row without one is read as a single blank field. */
  lemma RowsReadBackExactly(records: seq<seq<string>>)
    ensures ReadCsv(RecordsText(records)) == Some(Visible(records))
    ensures ReadCsv(RecordsText(records)) == Some(records) <==> forall record <- records :: record != []
  {
    hide ReadCsv, LinesText, RecordsText;
    VisibleAsTheyAre(records);
    SameLines(records);
    SameText(records);
    RowsReadBack(Visible(records));
    hide Visible;
  }

  lemma VisibleAsTheyAre(records: seq<seq<string>>)
    ensures Visible(records) == records <==> forall record <- records :: record != []
    ensures forall record <- Visible(records) :: record != []
  {
    if forall record <- records :: record != [] {
      assert forall i :: 0 <= i < |records| ==> records[i] in records;
    }
    if Visible(records) == records {
      forall i | 0 <= i < |records|
        ensures records[i] != []
      {
      }
    }
  }

  lemma NothingToRead()
    ensures ReadCsv("") == Some([])
  {
  }

  // ---- The header ----

  /** The least text that holds a field, a record and a list of records. */
  function LeastLength(fields: seq<string>): nat {
    if fields == [] then 0 else |EscapeCsvField(fields[0])| + 1 + LeastLength(fields[1..])
  }

  function LeastTotal(records: seq<seq<string>>): nat {
    if records == [] then 0 else LeastLength(records[0]) + LeastTotal(records[1..])
  }

  lemma {:induction false} QuotedLength(s: string)
    requires ReadQuoted(s).Some?
    ensures |s| - |ReadQuoted(s).value.rest| == |Doubled(ReadQuoted(s).value.text, '"')| + 1
  {
    var f := ReadQuoted(s).value;
    if s[0] == '"' && |s| > 1 && s[1] == '"' {
      QuotedLength(s[2..]);
      assert f.text[1..] == ReadQuoted(s[2..]).value.text;
    } else if s[0] != '"' {
      QuotedLength(s[1..]);
      assert f.text[1..] == ReadQuoted(s[1..]).value.text;
    }
  }

  lemma {:induction false} BareLength(s: string)
    requires ReadBare(s).Some?
    ensures |s| - |ReadBare(s).value.rest| == |ReadBare(s).value.text| && Clean(ReadBare(s).value.text)
  {
    if !(s == "" || s[0] == ',' || s[0] == '\n') {
      BareLength(s[1..]);
    }
  }

  lemma {:induction false} DoubledLength(s: string, c: char)
    ensures |Doubled(s, c)| >= |s|
  {
    if s != "" { DoubledLength(s[1..], c); }
  }

  /** A field takes at least the characters with which it is written. */
  lemma FieldLength(s: string)
    requires ReadField(s).Some?
    ensures |s| - |ReadField(s).value.rest| >= |EscapeCsvField(ReadField(s).value.text)|
  {
    if s != "" && s[0] == '"' {
      QuotedLength(s[1..]);
      DoubledLength(ReadField(s).value.text, '"');
    } else {
      BareLength(s);
    }
  }

  lemma {:induction false} LineLength(s: string)
    requires ReadLine(s).Some?
    ensures |s| + 1 - |ReadLine(s).value.rest| >= LeastLength(ReadLine(s).value.fields)
    ensures ReadLine(s).value.rest != "" ==>
      |s| - |ReadLine(s).value.rest| >= LeastLength(ReadLine(s).value.fields)
    decreases |s|
  {
    hide EscapeCsvField, ReadField;
    FieldLength(s);
    var f := ReadField(s).value;
    if f.rest != "" && f.rest[0] == ',' {
      LineLength(f.rest[1..]);
      var line := ReadLine(f.rest[1..]).value;
      assert ([f.text] + line.fields)[1..] == line.fields;
    } else {
      assert [f.text][1..] == [];
    }
  }

  /** No text is read as records that were written in more characters, but for a last line break. */
  lemma {:induction false} TotalLength(s: string)
    requires ReadCsv(s).Some?
    ensures |s| + 1 >= LeastTotal(ReadCsv(s).value)
    decreases |s|
  {
    hide ReadLine, LeastLength;
    if s != "" {
      LineLength(s);
      var line := ReadLine(s).value;
      TotalLength(line.rest);
      var more := ReadCsv(line.rest).value;
      assert ([line.fields] + more)[1..] == more;
    }
  }

  lemma {:induction false} WrittenLength(fields: seq<string>)
    requires fields != []
    ensures |CsvLine(Escaped(fields))| == LeastLength(fields)
  {
    hide EscapeCsvField;
    if |fields| == 1 {
      assert LeastLength(fields[1..]) == 0;
    } else {
      WrittenLength(fields[1..]);
      assert Escaped(fields)[1..] == Escaped(fields[1..]);
    }
  }

  lemma {:induction false} TotalWritten(records: seq<seq<string>>)
    requires forall record <- records :: record != []
    ensures |LinesText(records)| == LeastTotal(records)
  {
    hide CsvLine, Escaped, LeastLength;
    if records != [] {
      assert records[0] in records && forall record <- records[1..] :: record in records;
      WrittenLength(records[0]);
      TotalWritten(records[1..]);
    }
  }

  predicate AllClean(names: seq<string>) { forall name <- names :: Clean(name) }

  lemma {:induction false} CleanIsEscaped(names: seq<string>)
    requires AllClean(names)
    ensures Escaped(names) == names
  {
    if names != [] {
      assert names[0] in names;
      CleanIsEscaped(names[1..]);
    }
  }

  lemma {:induction false} UncleanIsLonger(names: seq<string>)
    requires names != []
    ensures |CsvLine(names)| <= LeastLength(names)
    ensures !AllClean(names) ==> |CsvLine(names)| + 2 <= LeastLength(names)
  {
    DoubledLength(names[0], '"');
    assert |EscapeCsvField(names[0])| >= |names[0]| + if Clean(names[0]) then 0 else 2;
    if |names| == 1 {
      assert LeastLength(names[1..]) == 0;
    } else {
      UncleanIsLonger(names[1..]);
      assert names == [names[0]] + names[1..];
    }
    hide EscapeCsvField;
  }

  /**
   * The header is written as it is. The whole file is read back as the header and the records exactly when no name
   * holds a comma, a quote or a line break: otherwise reading the name back would take more characters than there are.
   */
  lemma FileReadsBack(names: seq<string>, records: seq<seq<string>>)
    requires names != [] && forall record <- records :: record != []
    ensures ReadCsv(CsvLine(names) + RecordsText(records)) == Some([names] + records) <==> AllClean(names)
  {
    hide ReadCsv, CsvLine, Escaped, LeastLength, RecordsText, LinesText;
    var file := CsvLine(names) + RecordsText(records);
    SameLines(records);
    if AllClean(names) {
      CleanIsEscaped(names);
      FileIsLines(names, records);
      RowsReadBack([names] + records);
    } else {
      UncleanIsLonger(names);
      TotalWritten(records);
      assert ([names] + records)[1..] == records;
      assert LeastTotal([names] + records) == LeastLength(names) + LeastTotal(records);
      if ReadCsv(file) == Some([names] + records) {
        TotalLength(file);
      }
    }
  }

  lemma FileIsLines(names: seq<string>, records: seq<seq<string>>)
    requires Escaped(names) == names
    ensures CsvLine(names) + LinesText(records) == LinesText([names] + records)
  {
    hide CsvLine, Escaped;
    assert ([names] + records)[1..] == records;
  }
}
