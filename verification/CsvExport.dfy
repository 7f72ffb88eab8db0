/**
 The CSV writer of the benchmark exporter, and a reader written from the grammar in section 2
 of RFC 4180 (with any character other than comma, quote, CR and LF taken as text).
 */
module CsvExport {
  import opened Common

  const CRLF := "\r\n"

  type Row = seq<string>

  predicate Special(c: char) { c == ',' || c == '"' || c == '\r' || c == '\n' }

  // ----- the writer -----

  predicate NeedsQuotes(value: string) { exists i | 0 <= i < |value| :: Special(value[i]) }

  function DoubleQuotes(value: string): string {
    if value == "" then ""
    else (if value[0] == '"' then "\"\"" else [value[0]]) + DoubleQuotes(value[1..])
  }

  function Escape(value: string): string {
    if !NeedsQuotes(value) then value else "\"" + DoubleQuotes(value) + "\""
  }

  function Joined(values: Row): string {
    if values == [] then ""
    else if |values| == 1 then Escape(values[0])
    else Escape(values[0]) + "," + Joined(values[1..])
  }

  function Printed(rows: seq<Row>): string {
    if rows == [] then "" else Joined(rows[0]) + CRLF + Printed(rows[1..])
  }

  /** `WriteRow`: appends the joined fields and a line break to the output. */
  method WriteRow(output: string, values: Row) returns (extended: string)
    ensures extended == output + Joined(values) + CRLF
  {
    var line := "";
    for k := 0 to |values|
      invariant k == 0 ==> line == ""
      invariant k > 0 ==> line + (if k < |values| then "," + Joined(values[k..]) else "") == Joined(values)
    {
      assert values[k..][1..] == values[k + 1..];
      assert values[0..] == values;
      if k > 0 {
        line := line + ",";
      }
      line := line + Escape(values[k]);
    }
    extended := output + line + CRLF;
  }

  method WriteRows(rows: seq<Row>) returns (output: string)
    ensures output == Printed(rows)
  {
    output := "";
    for k := 0 to |rows|
      invariant output + Printed(rows[k..]) == Printed(rows)
    {
      assert rows[k..][1..] == rows[k + 1..];
      output := WriteRow(output, rows[k]);
    }
  }

  // ----- the reader -----

  /** The rest of a quoted field, after its opening quote. */
  function ReadQuoted(text: string): (r: Option<(string, string)>)
    ensures r.Some? ==> |r.value.1| < |text|
  {
    if text == "" then None
    else if text[0] != '"' then
      var rest := ReadQuoted(text[1..]);
      if rest.None? then None else Some(([text[0]] + rest.value.0, rest.value.1))
    else if |text| > 1 && text[1] == '"' then
      var rest := ReadQuoted(text[2..]);
      if rest.None? then None else Some((['"'] + rest.value.0, rest.value.1))
    else Some(("", text[1..]))
  }

  function ReadPlain(text: string): (r: (string, string))
    ensures |r.1| <= |text|
  {
    if text == "" || Special(text[0]) then ("", text)
    else var rest := ReadPlain(text[1..]); ([text[0]] + rest.0, rest.1)
  }

  function ReadField(text: string): (r: Option<(string, string)>)
    ensures r.Some? ==> |r.value.1| <= |text|
  {
    if text != "" && text[0] == '"' then ReadQuoted(text[1..]) else Some(ReadPlain(text))
  }

  function ReadRecord(text: string): (r: Option<(Row, string)>)
    ensures r.Some? ==> |r.value.1| <= |text|
    decreases |text|
  {
    var field := ReadField(text);
    if field.None? then None
    else if field.value.1 != "" && field.value.1[0] == ',' then
      var rest := ReadRecord(field.value.1[1..]);
      if rest.None? then None else Some(([field.value.0] + rest.value.0, rest.value.1))
    else Some(([field.value.0], field.value.1))
  }

  function ReadFile(text: string): Option<seq<Row>>
    decreases |text|
  {
    if text == "" then Some([])
    else
      var record := ReadRecord(text);
      if record.None? then None
      else if record.value.1 == "" then Some([record.value.0])
      else if CRLF <= record.value.1 then
        var rest := ReadFile(record.value.1[2..]);
        if rest.None? then None else Some([record.value.0] + rest.value)
      else None
  }

  // ----- the round trip -----

  lemma {:induction false} QuotedRoundTrip(value: string, tail: string)
    requires tail == "" || tail[0] != '"'
    ensures ReadQuoted(DoubleQuotes(value) + "\"" + tail) == Some((value, tail))
  {
    var text := DoubleQuotes(value) + "\"" + tail;
    if value == "" {
      assert text == "\"" + tail;
    } else {
      QuotedRoundTrip(value[1..], tail);
      assert value == [value[0]] + value[1..];
      var rest := DoubleQuotes(value[1..]) + "\"" + tail;
      if value[0] == '"' {
        assert text[2..] == rest;
      } else {
        assert text[1..] == rest;
      }
    }
  }

  lemma {:induction false} PlainRoundTrip(value: string, tail: string)
    requires !NeedsQuotes(value) && (tail == "" || Special(tail[0]))
    ensures ReadPlain(value + tail) == (value, tail)
  {
    if value == "" {
      assert value + tail == tail;
    } else {
      assert (value + tail)[1..] == value[1..] + tail;
      PlainRoundTrip(value[1..], tail);
      assert value == [value[0]] + value[1..] && !Special(value[0]);
    }
  }

  lemma FieldRoundTrip(value: string, tail: string)
    requires tail != "" && (tail[0] == ',' || tail[0] == '\r')
    ensures ReadField(Escape(value) + tail) == Some((value, tail))
  {
    var text := Escape(value) + tail;
    if NeedsQuotes(value) {
      assert text[1..] == DoubleQuotes(value) + "\"" + tail;
      QuotedRoundTrip(value, tail);
    } else {
      PlainRoundTrip(value, tail);
      assert text[0] != '"';
    }
  }

  lemma {:induction false} RecordRoundTrip(values: Row, tail: string)
    requires values != [] && tail != "" && tail[0] == '\r'
    ensures ReadRecord(Joined(values) + tail) == Some((values, tail))
  {
    if |values| == 1 {
      FieldRoundTrip(values[0], tail);
      assert values == [values[0]];
    } else {
      var rest := Joined(values[1..]) + tail;
      assert Joined(values) + tail == Escape(values[0]) + ("," + rest);
      FieldRoundTrip(values[0], "," + rest);
      RecordRoundTrip(values[1..], tail);
      assert ("," + rest)[1..] == rest && values == [values[0]] + values[1..];
    }
  }

  lemma {:induction false} DoublingLengthens(value: string)
    ensures |DoubleQuotes(value)| >= |value|
  {
    if value != "" {
      DoublingLengthens(value[1..]);
    }
  }

  /** A value is written as it is exactly if it holds no comma, quote, CR or LF. */
  lemma QuotesOnlyWhereNeeded(value: string)
    ensures Escape(value) == value <==> forall c <- value :: c != ',' && c != '"' && c != '\r' && c != '\n'
  {
    DoublingLengthens(value);
    if forall c <- value :: c != ',' && c != '"' && c != '\r' && c != '\n' {
      assert forall i | 0 <= i < |value| :: value[i] in value;
    }
  }

  /** What a printed table reads back as: a row without fields looks like one empty field. */
  function Visible(rows: seq<Row>): seq<Row> {
    if rows == [] then [] else [if rows[0] == [] then [""] else rows[0]] + Visible(rows[1..])
  }

  lemma {:induction false} FileRoundTrip(rows: seq<Row>)
    ensures ReadFile(Printed(rows)) == Some(Visible(rows))
  {
    if rows != [] {
      var row := if rows[0] == [] then [""] else rows[0];
      assert Joined(row) == Joined(rows[0]);
      var tail := CRLF + Printed(rows[1..]);
      assert Printed(rows) == Joined(row) + tail;
      RecordRoundTrip(row, tail);
      assert tail[2..] == Printed(rows[1..]);
      FileRoundTrip(rows[1..]);
    }
  }

  /** Reading the output recovers the rows exactly when every row has at least one field. */
  lemma CsvRoundTrip(rows: seq<Row>)
    ensures ReadFile(Printed(rows)) == Some(rows) <==> forall i | 0 <= i < |rows| :: rows[i] != []
  {
    FileRoundTrip(rows);
    VisibleFixpoint(rows);
  }

  lemma {:induction false} VisibleFixpoint(rows: seq<Row>)
    ensures Visible(rows) == rows <==> forall i | 0 <= i < |rows| :: rows[i] != []
  {
    if rows != [] {
      VisibleFixpoint(rows[1..]);
      assert Visible(rows)[1..] == Visible(rows[1..]);
      assert Visible(rows) == rows <==> Visible(rows)[0] == rows[0] && Visible(rows)[1..] == rows[1..];
      assert forall i | 0 <= i < |rows[1..]| :: rows[1..][i] == rows[i + 1];
    }
  }
}
