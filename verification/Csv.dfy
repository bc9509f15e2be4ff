/**
 The CSV export and a reader that follows section 2 of RFC 4180: reading an export gives back the
 exported cells.
 */
module Csv {
  import opened Collections

  const CR: char := '\r'
  const LF: char := '\n'
  const QUOTE: char := '\"'
  const BOM: string := "\U{FEFF}"
  const BREAK: string := [CR, LF]

  /** The characters JavaScript uses to write a number. */
  const NUMBER_CHARS: string := "0123456789+-.eINaftiny"

  type NumberText = s: string | s != "" && forall k :: 0 <= k < |s| ==> s[k] in NUMBER_CHARS witness "0"

  datatype CsvValue = Null | Number(numeral: NumberText) | Boolean(flag: bool) | Text(text: string)

  // ---------------------------------------------------------------- printing

  predicate LooksLikeFormula(s: string) {
    s != "" && s[0] in "=+-@"
  }

  function Neutralized(s: string): string {
    if LooksLikeFormula(s) then "'" + s else s
  }

  /** Every quote written twice. */
  function Doubled(s: string): string {
    if s == "" then ""
    else (if s[0] == QUOTE then [QUOTE, QUOTE] else [s[0]]) + Doubled(s[1..])
  }

  function CsvCell(value: CsvValue): string {
    match value
    case Null => ""
    case Number(numeral) => numeral
    case Boolean(flag) => if flag then "true" else "false"
    case Text(text) => [QUOTE] + Doubled(Neutralized(text)) + [QUOTE]
  }

  function Join(parts: seq<string>, separator: string): string {
    if parts == [] then ""
    else if |parts| == 1 then parts[0]
    else parts[0] + separator + Join(parts[1..], separator)
  }

  function Line(row: seq<CsvValue>): string {
    Join(Map(CsvCell, row), ",")
  }

  /** The rows, one to a line. */
  function Body(rows: seq<seq<CsvValue>>): string {
    Join(Map(Line, rows), BREAK) + BREAK
  }

  function ToCsv(rows: seq<seq<CsvValue>>): string {
    BOM + Body(rows)
  }

  // ---------------------------------------------------------------- reading (RFC 4180, section 2)

  /** A field as it stood in the file. */
  datatype Field = Bare(text: string) | Quoted(text: string)

  datatype Read<T> = Ok(value: T, rest: string) | Malformed

  /** Rules 5 to 7: outside quotes none of these can stand. */
  predicate Special(c: char) {
    c == ',' || c == QUOTE || c == CR || c == LF
  }

  function ReadBare(s: string): (r: Read<string>)
    ensures r.Ok? && |r.rest| <= |s|
  {
    if s == "" || Special(s[0]) then Ok("", s)
    else
      var r := ReadBare(s[1..]);
      Ok([s[0]] + r.value, r.rest)
  }

  /** What follows an opening quote: anything up to a quote that is not doubled. */
  function ReadQuoted(s: string): (r: Read<string>)
    ensures r.Ok? ==> |r.rest| < |s|
  {
    if s == "" then Malformed
    else if s[0] != QUOTE then Prepend(s[0], ReadQuoted(s[1..]))
    else if |s| > 1 && s[1] == QUOTE then Prepend(QUOTE, ReadQuoted(s[2..]))
    else Ok("", s[1..])
  }

  function Prepend(c: char, r: Read<string>): Read<string> {
    match r
    case Ok(text, rest) => Ok([c] + text, rest)
    case Malformed => Malformed
  }

  function ReadField(s: string): (r: Read<Field>)
    ensures r.Ok? ==> |r.rest| <= |s|
  {
    if s != "" && s[0] == QUOTE then
      match ReadQuoted(s[1..])
      case Ok(text, rest) => Ok(Quoted(text), rest)
      case Malformed => Malformed
    else
      var r := ReadBare(s);
      Ok(Bare(r.value), r.rest)
  }

  /** Rules 1 and 4: fields between commas, up to a line break or the end. */
  function ReadRecord(s: string): (r: Read<seq<Field>>)
    ensures r.Ok? ==> r.rest == "" || |r.rest| < |s|
    decreases |s|
  {
    match ReadField(s)
    case Malformed => Malformed
    case Ok(field, rest) =>
      if rest == "" then Ok([field], "")
      else if BREAK <= rest then Ok([field], rest[2..])
      else if rest[0] != ',' then Malformed
      else
        match ReadRecord(rest[1..])
        case Ok(fields, rest') => Ok([field] + fields, rest')
        case Malformed => Malformed
  }

  /** Rule 2: the last record may end with a line break. */
  function ReadFile(s: string): Read<seq<seq<Field>>>
    decreases |s|
  {
    match ReadRecord(s)
    case Malformed => Malformed
    case Ok(record, rest) =>
      if rest == "" then Ok([record], "")
      else
        match ReadFile(rest)
        case Ok(records, rest') => Ok([record] + records, rest')
        case Malformed => Malformed
  }

  // ---------------------------------------------------------------- round trip

  /** The field a cell comes back as: only text is quoted, so null and "" differ. */
  function FieldOf(value: CsvValue): Field {
    match value
    case Null => Bare("")
    case Number(numeral) => Bare(numeral)
    case Boolean(flag) => Bare(if flag then "true" else "false")
    case Text(text) => Quoted(Neutralized(text))
  }

  function Record(row: seq<CsvValue>): seq<Field> {
    Map(FieldOf, row)
  }

  predicate StartsSpecial(s: string) {
    s == "" || Special(s[0])
  }

  lemma {:induction false} ReadBareOf(text: string, tail: string)
    requires forall k :: 0 <= k < |text| ==> !Special(text[k])
    requires StartsSpecial(tail)
    ensures ReadBare(text + tail) == Ok(text, tail)
  {
    if text == "" {
      assert text + tail == tail;
    } else {
      assert (text + tail)[1..] == text[1..] + tail;
      ReadBareOf(text[1..], tail);
      assert text == [text[0]] + text[1..];
    }
  }

  lemma ReadQuotedChar(c: char, rest: string)
    requires c != QUOTE
    ensures ReadQuoted([c] + rest) == Prepend(c, ReadQuoted(rest))
  {
    assert ([c] + rest)[1..] == rest;
  }

  lemma ReadQuotedDoubled(rest: string)
    ensures ReadQuoted([QUOTE, QUOTE] + rest) == Prepend(QUOTE, ReadQuoted(rest))
  {
    assert ([QUOTE, QUOTE] + rest)[2..] == rest;
  }

  lemma ReadQuotedEnd(tail: string)
    requires tail == "" || tail[0] != QUOTE
    ensures ReadQuoted([QUOTE] + tail) == Ok("", tail)
  {
    assert ([QUOTE] + tail)[1..] == tail;
  }

  /** A quoted text begins with its first character, doubled if it is a quote. */
  lemma DoubledSplits(text: string, tail: string)
    requires text != ""
    ensures Doubled(text) + [QUOTE] + tail
         == (if text[0] == QUOTE then [QUOTE, QUOTE] else [text[0]]) + (Doubled(text[1..]) + [QUOTE] + tail)
  {
  }

  lemma {:induction false} ReadQuotedOf(text: string, tail: string)
    requires tail == "" || tail[0] != QUOTE
    ensures ReadQuoted(Doubled(text) + [QUOTE] + tail) == Ok(text, tail)
  {
    if text == "" {
      ReadQuotedEnd(tail);
      assert Doubled(text) + [QUOTE] + tail == [QUOTE] + tail;
    } else {
      var rest := Doubled(text[1..]) + [QUOTE] + tail;
      ReadQuotedOf(text[1..], tail);
      DoubledSplits(text, tail);
      if text[0] == QUOTE {
        ReadQuotedDoubled(rest);
      } else {
        ReadQuotedChar(text[0], rest);
      }
      assert text == [text[0]] + text[1..];
    }
  }

  lemma NumbersArePlain(c: char)
    requires c in NUMBER_CHARS
    ensures !Special(c)
  {
  }

  lemma BareCellsArePlain(value: CsvValue, k: nat)
    requires !value.Text? && k < |CsvCell(value)|
    ensures !Special(CsvCell(value)[k])
  {
    if value.Number? {
      NumbersArePlain(value.numeral[k]);
    }
  }

  lemma ReadFieldOf(value: CsvValue, tail: string)
    requires StartsSpecial(tail) && (tail != "" ==> tail[0] != QUOTE)
    ensures ReadField(CsvCell(value) + tail) == Ok(FieldOf(value), tail)
  {
    var s := CsvCell(value) + tail;
    if value.Text? {
      ReadQuotedOf(Neutralized(value.text), tail);
      assert s[1..] == Doubled(Neutralized(value.text)) + [QUOTE] + tail;
    } else {
      forall k | 0 <= k < |CsvCell(value)| ensures !Special(CsvCell(value)[k]) {
        BareCellsArePlain(value, k);
      }
      ReadBareOf(CsvCell(value), tail);
    }
  }

  lemma ReadLastField(value: CsvValue, tail: string)
    ensures ReadRecord(CsvCell(value) + BREAK + tail) == Ok([FieldOf(value)], tail)
  {
    ReadFieldOf(value, BREAK + tail);
    assert CsvCell(value) + BREAK + tail == CsvCell(value) + (BREAK + tail);
    assert (BREAK + tail)[2..] == tail;
  }

  lemma ReadNextField(value: CsvValue, rest: string)
    requires ReadRecord(rest).Ok?
    ensures ReadRecord(CsvCell(value) + "," + rest) ==
        Ok([FieldOf(value)] + ReadRecord(rest).value, ReadRecord(rest).rest)
  {
    ReadFieldOf(value, "," + rest);
    assert CsvCell(value) + "," + rest == CsvCell(value) + ("," + rest);
    assert ("," + rest)[1..] == rest;
    assert !(BREAK <= "," + rest);
  }

  lemma LineOfOne(row: seq<CsvValue>)
    requires |row| == 1
    ensures Line(row) == CsvCell(row[0]) && Record(row) == [FieldOf(row[0])]
  {
  }

  /** The line of a longer row is its first cell and then the line of the others. */
  lemma LineSplits(row: seq<CsvValue>, tail: string)
    requires |row| > 1
    ensures Line(row) + BREAK + tail == CsvCell(row[0]) + "," + (Line(row[1..]) + BREAK + tail)
    ensures Record(row) == [FieldOf(row[0])] + Record(row[1..])
  {
    assert Map(CsvCell, row)[1..] == Map(CsvCell, row[1..]);
  }

  lemma {:induction false} ReadRecordOf(row: seq<CsvValue>, tail: string)
    requires row != []
    ensures ReadRecord(Line(row) + BREAK + tail) == Ok(Record(row), tail)
    decreases |row|
  {
    if |row| == 1 {
      LineOfOne(row);
      ReadLastField(row[0], tail);
    } else {
      ReadRecordOf(row[1..], tail);
      LineSplits(row, tail);
      ReadNextField(row[0], Line(row[1..]) + BREAK + tail);
    }
  }

  lemma BodySplits(rows: seq<seq<CsvValue>>)
    requires rows != []
    ensures Body(rows) == Line(rows[0]) + BREAK + (if |rows| == 1 then "" else Body(rows[1..]))
    ensures Map(Record, rows) == [Record(rows[0])] + Map(Record, rows[1..])
  {
    assert Map(Line, rows)[1..] == Map(Line, rows[1..]);
    if |rows| > 1 {
      var rest := Join(Map(Line, rows[1..]), BREAK);
      assert (Line(rows[0]) + BREAK + rest) + BREAK == Line(rows[0]) + BREAK + (rest + BREAK);
    }
  }

  lemma {:induction false} ReadFileOf(rows: seq<seq<CsvValue>>)
    requires rows != [] && forall k :: 0 <= k < |rows| ==> rows[k] != []
    ensures ReadFile(Body(rows)) == Ok(Map(Record, rows), "")
    decreases |rows|
  {
    BodySplits(rows);
    if |rows| == 1 {
      assert Body(rows) == Line(rows[0]) + BREAK + "" && Map(Record, rows) == [Record(rows[0])];
      ReadRecordOf(rows[0], "");
    } else {
      ReadFileOf(rows[1..]);
      ReadRecordOf(rows[0], Body(rows[1..]));
    }
  }

  function Filled(row: seq<CsvValue>): seq<CsvValue> {
    if row == [] then [Null] else row
  }

  /** What any row list is exported as: no rows reads as one row, an empty row as one null. */
  function FilledRows(rows: seq<seq<CsvValue>>): seq<seq<CsvValue>> {
    if rows == [] then [[Null]] else Map(Filled, rows)
  }

  lemma FillingIsInvisible(rows: seq<seq<CsvValue>>)
    ensures ToCsv(rows) == ToCsv(FilledRows(rows))
  {
    forall k | 0 <= k < |rows| ensures Line(rows[k]) == Line(Filled(rows[k])) {
      assert Map(CsvCell, [Null]) == [""];
    }
    if rows == [] {
      assert Map(CsvCell, [Null]) == [""];
      assert Map(Line, [[Null]]) == [""];
    } else {
      assert Map(Line, rows) == Map(Line, FilledRows(rows));
    }
  }

  /** Every export is a well-formed file, after its byte order mark. */
  lemma ExportReads(rows: seq<seq<CsvValue>>)
    ensures BOM <= ToCsv(rows)
    ensures ReadFile(ToCsv(rows)[|BOM|..]) == Ok(Map(Record, FilledRows(rows)), "")
  {
    FillingIsInvisible(rows);
    ReadFileOf(FilledRows(rows));
    assert ToCsv(rows)[|BOM|..] == Body(FilledRows(rows));
  }

  /** Reading returns the exported cells exactly when there is a row and no row is empty. */
  lemma RoundTripIff(rows: seq<seq<CsvValue>>)
    ensures ReadFile(ToCsv(rows)[|BOM|..]) == Ok(Map(Record, rows), "") <==> rows != [] && [] !in rows
  {
    ExportReads(rows);
    if rows != [] && [] !in rows {
      assert FilledRows(rows) == rows;
    } else if rows != [] {
      var k :| 0 <= k < |rows| && rows[k] == [];
      assert |Map(Record, FilledRows(rows))[k]| == 1;
      assert |Map(Record, rows)[k]| == 0;
    }
  }

  /** A file starts with the byte order mark and ends with a line break. */
  lemma FileFrame(rows: seq<seq<CsvValue>>)
    ensures |ToCsv(rows)| >= 3 && ToCsv(rows)[0] == '\U{FEFF}'
    ensures ToCsv(rows)[|ToCsv(rows)| - 2..] == "\r\n"
  {
    var file := ToCsv(rows);
    assert file == (BOM + Join(Map(Line, rows), BREAK)) + BREAK;
  }

  // ---------------------------------------------------------------- what an export determines

  /** A text that begins with one of the four characters is led by a single quote; any other is as it was. */
  lemma NeutralizedReads(s: string)
    ensures s != "" && (s[0] == '=' || s[0] == '+' || s[0] == '-' || s[0] == '@') ==>
              |Neutralized(s)| == |s| + 1 && Neutralized(s)[0] == '\'' && Neutralized(s)[1..] == s
    ensures s == "" || (s[0] != '=' && s[0] != '+' && s[0] != '-' && s[0] != '@') ==> Neutralized(s) == s
  {
  }

  /** Neutralising loses one bit: a text that already begins with the quote and the text after it. */
  lemma NeutralizedIff(a: string, b: string)
    ensures Neutralized(a) == Neutralized(b) <==>
      a == b || (LooksLikeFormula(a) && b == "'" + a) || (LooksLikeFormula(b) && a == "'" + b)
    ensures !LooksLikeFormula(Neutralized(a))
  {
    if LooksLikeFormula(a) && LooksLikeFormula(b) {
      assert ("'" + a)[1..] == a && ("'" + b)[1..] == b;
    }
  }

  predicate SameCell(a: CsvValue, b: CsvValue) {
    a == b || (a.Text? && b.Text? && Neutralized(a.text) == Neutralized(b.text))
  }

  lemma FieldDetermines(a: CsvValue, b: CsvValue)
    ensures FieldOf(a) == FieldOf(b) <==> SameCell(a, b)
  {
    if a.Number? && b.Boolean? { NumberIsNoBoolean(a.numeral, b.flag); }
    if b.Number? && a.Boolean? { NumberIsNoBoolean(b.numeral, a.flag); }
  }

  lemma NumberIsNoBoolean(text: NumberText, flag: bool)
    ensures text != CsvCell(Boolean(flag))
  {
    var other := CsvCell(Boolean(flag));
    assert other[if flag then 1 else 2] !in NUMBER_CHARS;
  }

  /** Equal files come from equal tables, cell by cell, up to neutralising. */
  lemma ExportDetermines(a: seq<seq<CsvValue>>, b: seq<seq<CsvValue>>)
    requires a != [] && [] !in a && b != [] && [] !in b
    ensures ToCsv(a) == ToCsv(b) ==> |a| == |b|
    ensures ToCsv(a) == ToCsv(b) ==> forall i :: 0 <= i < |a| ==> |a[i]| == |b[i]|
    ensures ToCsv(a) == ToCsv(b) ==> forall i, j :: 0 <= i < |a| && 0 <= j < |a[i]| ==> SameCell(a[i][j], b[i][j])
  {
    if ToCsv(a) == ToCsv(b) {
      RoundTripIff(a);
      RoundTripIff(b);
      assert Map(Record, a) == Map(Record, b);
      forall i | 0 <= i < |a| ensures Record(a[i]) == Record(b[i]) {
        assert Map(Record, a)[i] == Map(Record, b)[i];
      }
      forall i, j | 0 <= i < |a| && 0 <= j < |a[i]| ensures |a[i]| == |b[i]| && SameCell(a[i][j], b[i][j]) {
        assert Record(a[i])[j] == Record(b[i])[j];
        FieldDetermines(a[i][j], b[i][j]);
      }
      forall i | 0 <= i < |a| ensures |a[i]| == |b[i]| {
        assert |Record(a[i])| == |Record(b[i])|;
      }
    }
  }
}
