/**
 * What the three CSV exporters share: a row as an ordered list of keyed
 * values, the header-then-records content, and the RFC 4180 field
 * encoding with a reader for it. Records are separated by a line feed, as
 * the exporters write them, not by the CRLF of RFC 4180.
 */
module Csv {
  import opened Strings
  import opened NumberFormat

  /** A cell value: an integer, a string, or null/undefined. */
  datatype Value = Num(n: int) | Text(s: string) | Missing

  /** One property of a row object. */
  datatype Cell = Cell(key: string, value: Value)

  /**
   * A row object, its properties in insertion order. A JavaScript object
   * cannot repeat a key: there a repeated key keeps its first position and
   * takes the last value, while `Lookup` here takes the first. No exporter
   * builds a row with a repeated key.
   */
  type Row = seq<Cell>

  /** A file handed to the browser for download. */
  datatype Download = Download(fileName: string, content: string)

  /** The byte order mark put in front of every exported file so that spreadsheets read it as UTF-8. */
  const Bom: char := '\U{FEFF}'

  /** `Object.keys(row)`. */
  function Keys(row: Row): (r: seq<string>)
    ensures |r| == |row| && forall i :: 0 <= i < |row| ==> r[i] == row[i].key
  {
    seq(|row|, i requires 0 <= i < |row| => row[i].key)
  }

  /** `row[key]`: the value of the property with that key, or undefined. */
  function Lookup(row: Row, key: string): Value {
    if row == [] then Missing
    else if row[0].key == key then row[0].value
    else Lookup(row[1..], key)
  }

  /** A key no property has reads as undefined; otherwise the first property with the key wins. */
  lemma {:induction false} LookupFirst(row: Row, key: string, i: nat)
    requires i <= |row| && forall j :: 0 <= j < i ==> row[j].key != key
    ensures i == |row| ==> Lookup(row, key) == Missing
    ensures i < |row| && row[i].key == key ==> Lookup(row, key) == row[i].value
  {
    if i > 0 {
      assert row[0].key != key;
      LookupFirst(row[1..], key, i - 1);
    }
  }

  /** `String(value)`, and what `join` writes for a value: nothing for null/undefined. */
  function ValueText(v: Value): string {
    match v
    case Num(n) => IntToString(n)
    case Text(s) => s
    case Missing => ""
  }

  /** The header record (the keys of the first row), then one record per row, one field per header. */
  function Records(data: seq<Row>, fmt: Value -> string): (r: seq<seq<string>>)
    requires |data| > 0
    ensures |r| == |data| + 1 && r[0] == Keys(data[0])
    ensures forall i :: 1 <= i < |r| ==> |r[i]| == |data[0]|
  {
    var headers := Keys(data[0]);
    [headers] + seq(|data|, i requires 0 <= i < |data| =>
      seq(|headers|, j requires 0 <= j < |headers| => fmt(Lookup(data[i], headers[j]))))
  }

  /** The record of row `i` holds, under header `j`, the row's value for that header. */
  lemma RecordField(data: seq<Row>, fmt: Value -> string, i: nat, j: nat)
    requires i < |data| && j < |data[0]|
    ensures Records(data, fmt)[i + 1][j] == fmt(Lookup(data[i], data[0][j].key))
  {
  }

  /** Fields joined by ',', records joined by '\n'. */
  function Content(records: seq<seq<string>>): string {
    Join(seq(|records|, i requires 0 <= i < |records| => Join(records[i], ",")), "\n")
  }

  /** The exported text of `data`, each value rendered by `fmt`. */
  function Assemble(data: seq<Row>, fmt: Value -> string): string
    requires |data| > 0
  {
    Content(Records(data, fmt))
  }

  /** The quoting the two simpler exporters apply: strings holding ',' or '"' only. */
  function LooseCell(v: Value): (r: string)
    ensures v.Text? && (',' in v.s || '"' in v.s) ==> r == Quote(v.s)
    ensures !(v.Text? && (',' in v.s || '"' in v.s)) ==> r == ValueText(v)
  {
    match v
    case Text(s) => if ',' in s || '"' in s then Quote(s) else s
    case _ => ValueText(v)
  }

  /** The characters that force a field into double quotes. */
  predicate Special(c: char) {
    c == ',' || c == '"' || c == '\n'
  }

  /** A field needs the double quotes of section 2, rule 6 of RFC 4180. */
  predicate NeedsQuotes(s: string) {
    exists k :: 0 <= k < |s| && Special(s[k])
  }

  /** Every '"' doubled (section 2, rule 7 of RFC 4180). */
  function Escape(s: string): (r: string)
    ensures |r| >= |s|
  {
    if s == [] then [] else (if s[0] == '"' then "\"\"" else [s[0]]) + Escape(s[1..])
  }

  /** The field enclosed in double quotes, inner quotes doubled. */
  function Quote(s: string): string {
    "\"" + Escape(s) + "\""
  }

  /** Every '""' collapsed to '"', left to right. */
  function Collapse(s: string): string {
    if |s| >= 2 && s[0] == '"' && s[1] == '"' then "\"" + Collapse(s[2..])
    else if s == [] then []
    else [s[0]] + Collapse(s[1..])
  }

  /** Strip the enclosing quotes of a quoted field and collapse its doubled quotes. */
  function Unquote(s: string): string {
    if |s| >= 2 && s[0] == '"' && s[|s| - 1] == '"' then Collapse(s[1..|s| - 1]) else s
  }

  lemma {:induction false} CollapseEscape(s: string)
    ensures Collapse(Escape(s)) == s
  {
    if s != [] {
      CollapseEscape(s[1..]);
      if s[0] == '"' {
        assert Escape(s) == "\"\"" + Escape(s[1..]);
      } else {
        assert Escape(s) == [s[0]] + Escape(s[1..]);
      }
    }
  }

  /** Unquoting a quoted field gives back the original string. */
  lemma UnquoteQuote(s: string)
    ensures Unquote(Quote(s)) == s
  {
    var q := Quote(s);
    assert q[1..|q| - 1] == Escape(s);
    CollapseEscape(s);
  }

  /** The writer of RFC 4180: a field is quoted exactly when it needs to be. */
  function EncodeField(s: string): string {
    if NeedsQuotes(s) then Quote(s) else s
  }

  /** Every field of every record encoded. */
  function EncodeAll(records: seq<seq<string>>): (r: seq<seq<string>>)
    ensures |r| == |records|
    ensures forall i :: 0 <= i < |records| ==> |r[i]| == |records[i]|
    ensures forall i, j :: 0 <= i < |records| && 0 <= j < |records[i]| ==> r[i][j] == EncodeField(records[i][j])
  {
    seq(|records|, i requires 0 <= i < |records| =>
      seq(|records[i]|, j requires 0 <= j < |records[i]| => EncodeField(records[i][j])))
  }

  /** A parsed item and the text after it. */
  datatype Scan<T> = Scan(value: T, rest: string)

  /** The inside of a quoted field, up to and past its closing quote. */
  function ReadQuoted(s: string): (r: Scan<string>)
    ensures |r.rest| <= |s|
  {
    if s == [] then Scan([], [])
    else if s[0] == '"' then
      if |s| >= 2 && s[1] == '"' then
        var more := ReadQuoted(s[2..]);
        Scan("\"" + more.value, more.rest)
      else Scan([], s[1..])
    else
      var more := ReadQuoted(s[1..]);
      Scan([s[0]] + more.value, more.rest)
  }

  /** An unquoted field: everything up to the next ',' or line break. */
  function ReadPlain(s: string): (r: Scan<string>)
    ensures |r.rest| <= |s|
  {
    if s == [] || s[0] == ',' || s[0] == '\n' then Scan([], s)
    else
      var more := ReadPlain(s[1..]);
      Scan([s[0]] + more.value, more.rest)
  }

  /** One field, quoted or not. */
  function ReadField(s: string): (r: Scan<string>)
    ensures |r.rest| <= |s|
  {
    if |s| > 0 && s[0] == '"' then ReadQuoted(s[1..]) else ReadPlain(s)
  }

  /** The fields of one record, separated by ','. */
  function ReadRecord(s: string): (r: Scan<seq<string>>)
    ensures |r.rest| <= |s|
    decreases |s|
  {
    var f := ReadField(s);
    if |f.rest| > 0 && f.rest[0] == ',' then
      var more := ReadRecord(f.rest[1..]);
      Scan([f.value] + more.value, more.rest)
    else Scan([f.value], f.rest)
  }

  /** The records of a file, separated by line feeds. */
  function ReadRecords(s: string): seq<seq<string>>
    decreases |s|
  {
    var r := ReadRecord(s);
    if |r.rest| > 0 && r.rest[0] == '\n' then [r.value] + ReadRecords(r.rest[1..]) else [r.value]
  }

  lemma {:induction false} ReadQuotedEscaped(s: string, tail: string)
    requires tail == [] || tail[0] != '"'
    ensures ReadQuoted(Escape(s) + "\"" + tail) == Scan(s, tail)
  {
    if s == [] {
      assert Escape(s) + "\"" + tail == "\"" + tail;
    } else {
      var head := if s[0] == '"' then "\"\"" else [s[0]];
      var t := Escape(s) + "\"" + tail;
      var t' := Escape(s[1..]) + "\"" + tail;
      assert t == head + t';
      ReadQuotedEscaped(s[1..], tail);
      if s[0] == '"' {
        assert t[2..] == t';
      } else {
        assert t[1..] == t';
      }
      assert [s[0]] + s[1..] == s;
    }
  }

  lemma {:induction false} ReadPlainBare(s: string, tail: string)
    requires ',' !in s && '\n' !in s
    requires tail == [] || tail[0] == ',' || tail[0] == '\n'
    ensures ReadPlain(s + tail) == Scan(s, tail)
  {
    if s == [] {
      assert s + tail == tail;
    } else {
      assert s[0] in s;
      assert (s + tail)[1..] == s[1..] + tail;
      ReadPlainBare(s[1..], tail);
      assert [s[0]] + s[1..] == s;
    }
  }

  /** A written field reads back as itself, whatever follows it at a field or record boundary. */
  lemma ReadFieldEncoded(s: string, tail: string)
    requires tail == [] || tail[0] == ',' || tail[0] == '\n'
    ensures ReadField(EncodeField(s) + tail) == Scan(s, tail)
  {
    if NeedsQuotes(s) {
      var t := Quote(s) + tail;
      assert t == "\"" + (Escape(s) + "\"" + tail);
      assert t[1..] == Escape(s) + "\"" + tail;
      ReadQuotedEscaped(s, tail);
    } else {
      ReadPlainBare(s, tail);
      if s != [] {
        assert s[0] in s;
      }
    }
  }

  /** The fields of one encoded record, joined by ','. */
  function WriteRecord(fields: seq<string>): string {
    Join(seq(|fields|, j requires 0 <= j < |fields| => EncodeField(fields[j])), ",")
  }

  lemma WriteRecordCons(fields: seq<string>)
    requires |fields| >= 2
    ensures WriteRecord(fields) == EncodeField(fields[0]) + "," + WriteRecord(fields[1..])
  {
    var enc := seq(|fields|, j requires 0 <= j < |fields| => EncodeField(fields[j]));
    var rest := fields[1..];
    assert enc[1..] == seq(|rest|, j requires 0 <= j < |rest| => EncodeField(rest[j]));
  }

  lemma {:induction false} ReadRecordWritten(fields: seq<string>, tail: string)
    requires |fields| > 0
    requires tail == [] || tail[0] == '\n'
    ensures ReadRecord(WriteRecord(fields) + tail) == Scan(fields, tail)
  {
    if |fields| == 1 {
      assert WriteRecord(fields) == EncodeField(fields[0]);
      ReadFieldEncoded(fields[0], tail);
      assert [fields[0]] == fields;
    } else {
      var rest := fields[1..];
      var after := "," + (WriteRecord(rest) + tail);
      assert WriteRecord(fields) + tail == EncodeField(fields[0]) + after by {
        WriteRecordCons(fields);
      }
      ReadFieldEncoded(fields[0], after);
      assert after[1..] == WriteRecord(rest) + tail;
      ReadRecordWritten(rest, tail);
      assert [fields[0]] + rest == fields;
    }
  }

  /** The written text of some records. */
  function WriteRecords(records: seq<seq<string>>): string {
    Join(seq(|records|, i requires 0 <= i < |records| => WriteRecord(records[i])), "\n")
  }

  /** Reading what the writer of RFC 4180 wrote gives back every record and every field. */
  lemma {:induction false} ReadRecordsWritten(records: seq<seq<string>>)
    requires |records| > 0
    requires forall i :: 0 <= i < |records| ==> |records[i]| > 0
    ensures ReadRecords(WriteRecords(records)) == records
  {
    var lines := seq(|records|, i requires 0 <= i < |records| => WriteRecord(records[i]));
    if |records| == 1 {
      assert WriteRecords(records) == WriteRecord(records[0]);
      ReadRecordWritten(records[0], []);
      assert WriteRecord(records[0]) + [] == WriteRecord(records[0]);
    } else {
      var rest := records[1..];
      var restLines := seq(|rest|, i requires 0 <= i < |rest| => WriteRecord(rest[i]));
      assert lines[1..] == restLines;
      assert WriteRecords(records) == WriteRecord(records[0]) + "\n" + WriteRecords(rest);
      var after := "\n" + WriteRecords(rest);
      assert WriteRecords(records) == WriteRecord(records[0]) + after;
      ReadRecordWritten(records[0], after);
      assert after[1..] == WriteRecords(rest);
      ReadRecordsWritten(rest);
      assert [records[0]] + rest == records;
    }
  }

  /** Joining the encoded fields is writing the records. */
  lemma ContentOfEncoded(records: seq<seq<string>>)
    ensures Content(EncodeAll(records)) == WriteRecords(records)
  {
    var enc := EncodeAll(records);
    forall i | 0 <= i < |records|
      ensures enc[i] == seq(|records[i]|, j requires 0 <= j < |records[i]| => EncodeField(records[i][j]))
    {
    }
    assert seq(|enc|, i requires 0 <= i < |enc| => Join(enc[i], ",")) ==
           seq(|records|, i requires 0 <= i < |records| => WriteRecord(records[i]));
  }

  /** The headers of `data` need no quoting, so they are written as they are. */
  predicate PlainHeaders(data: seq<Row>) {
    |data| > 0 && |data[0]| > 0 && forall j :: 0 <= j < |data[0]| ==> !NeedsQuotes(data[0][j].key)
  }

  /** `fmt` writes every value the records hold as the writer of RFC 4180 would write its string form. */
  predicate EncodesAllValues(data: seq<Row>, fmt: Value -> string)
    requires |data| > 0
  {
    forall i, j :: 0 <= i < |data| && 0 <= j < |data[0]| ==>
      fmt(Lookup(data[i], data[0][j].key)) == EncodeField(ValueText(Lookup(data[i], data[0][j].key)))
  }

  /** With plain headers, the written records are the string forms of the values, each encoded. */
  lemma WrittenIsEncoded(data: seq<Row>, fmt: Value -> string)
    requires PlainHeaders(data) && EncodesAllValues(data, fmt)
    ensures Records(data, fmt) == EncodeAll(Records(data, ValueText))
  {
    var plain := Records(data, ValueText);
    var written := Records(data, fmt);
    var enc := EncodeAll(plain);
    forall i | 0 <= i < |written|
      ensures written[i] == enc[i]
    {
      assert |written[i]| == |enc[i]|;
      forall j | 0 <= j < |written[i]|
        ensures written[i][j] == enc[i][j]
      {
        if i == 0 {
          assert written[0][j] == data[0][j].key == plain[0][j];
        } else {
          RecordField(data, fmt, i - 1, j);
          RecordField(data, ValueText, i - 1, j);
        }
      }
    }
  }

  /**
   * A file assembled with such an `fmt` reads back as the header record and,
   * for every row, the string form of each value in header order.
   */
  lemma AssembledReadsBack(data: seq<Row>, fmt: Value -> string)
    requires PlainHeaders(data) && EncodesAllValues(data, fmt)
    ensures ReadRecords(Assemble(data, fmt)) == Records(data, ValueText)
  {
    var plain := Records(data, ValueText);
    WrittenIsEncoded(data, fmt);
    ContentOfEncoded(plain);
    ReadRecordsWritten(plain);
  }

  /** The string form of an integer holds only digits and perhaps a sign, so it is never quoted. */
  lemma IntTextPlain(n: int)
    ensures !NeedsQuotes(IntToString(n))
  {
    var t := IntToString(n);
    forall k | 0 <= k < |t| ensures !Special(t[k]) {
      if n < 0 {
        var d := NatToString(-n);
        assert t == "-" + d;
        if k > 0 {
          assert t[k] == d[k - 1];
        }
      }
    }
  }

  /**
   * The simpler exporters' quoting agrees with the writer of RFC 4180 on
   * every value whose string form holds no line break.
   */
  lemma LooseCellEncodes(v: Value)
    requires '\n' !in ValueText(v)
    ensures LooseCell(v) == EncodeField(ValueText(v))
  {
    match v
    case Num(n) => IntTextPlain(n);
    case Missing =>
    case Text(t) =>
      if NeedsQuotes(t) {
        var k :| 0 <= k < |t| && Special(t[k]);
        assert t[k] in t;
      }
  }

  /** No field of the records holds a line break. */
  predicate NoLineBreaks(recs: seq<seq<string>>) {
    forall i, j :: 0 <= i < |recs| && 0 <= j < |recs[i]| ==> '\n' !in recs[i][j]
  }

  /**
   * The simpler exporters' text reads back, by the RFC 4180-style reader (LF line breaks), as the
   * header record and every row's values in header order, provided no value's
   * string form holds a line break.
   */
  lemma LooseReadsBack(data: seq<Row>)
    requires PlainHeaders(data) && NoLineBreaks(Records(data, ValueText))
    ensures ReadRecords(Assemble(data, LooseCell)) == Records(data, ValueText)
  {
    var recs := Records(data, ValueText);
    forall i, j | 0 <= i < |data| && 0 <= j < |data[0]|
      ensures LooseCell(Lookup(data[i], data[0][j].key)) == EncodeField(ValueText(Lookup(data[i], data[0][j].key)))
    {
      RecordField(data, ValueText, i, j);
      assert '\n' !in recs[i + 1][j];
      LooseCellEncodes(Lookup(data[i], data[0][j].key));
    }
    AssembledReadsBack(data, LooseCell);
  }
}
