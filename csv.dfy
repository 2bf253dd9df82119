/**
 * The dashboard's CSV export: each cell is either emitted as it is or
 * wrapped in double quotes with every '"' doubled, cells are joined by ','
 * and rows by '\n'. Beside the encoder sits an RFC 4180-style reader, so
 * that what the encoder writes can be read back: fields are separated by
 * commas and records by LF alone, and a field enclosed in double quotes may
 * hold commas, line breaks and doubled double quotes. Unlike section 2 of
 * RFC 4180 it does not treat CRLF as the record break, and it is lenient
 * after a closing quote, keeping whatever follows up to the next separator.
 */
module Csv {

  /* ---------- Writing ---------- */

  /** `c.replace(/"/g, '""')`: every double quote doubled. */
  function Escape(c: string): (e: string)
    ensures |e| >= |c|
  {
    if c == [] then [] else EscapedChar(c[0]) + Escape(c[1..])
  }

  /** `"${c.replace(/"/g, '""')}"` */
  function Quote(c: string): string
  {
    "\"" + Escape(c) + "\""
  }

  /**
   * One cell, quoted when `quote` says so and emitted unchanged otherwise.
   * `FieldRoundTrip` says when the reader gives the cell back.
   */
  function EncodeCell(c: string, quote: string -> bool): (e: string)
    ensures quote(c) ==> e == Quote(c)
    ensures !quote(c) ==> e == c
  {
    if quote(c) then Quote(c) else c
  }

  /** `xs.join(sep)`: the items in order with one `sep` between neighbours. */
  function Join(sep: char, xs: seq<string>): (r: string)
    ensures xs == [] ==> r == []
    ensures |xs| == 1 ==> r == xs[0]
  {
    if xs == [] then []
    else if |xs| == 1 then xs[0]
    else xs[0] + [sep] + Join(sep, xs[1..])
  }

  /**
   * Read from the other end, the join puts one `sep` before the last item:
   * it is the join of all the others, a `sep`, then the last item. What
   * makes the join invertible is `RecordRoundTrip`.
   */
  lemma {:induction false} JoinSnoc(sep: char, xs: seq<string>)
    requires |xs| >= 2
    ensures Join(sep, xs) == Join(sep, xs[..|xs| - 1]) + [sep] + xs[|xs| - 1]
  {
    var rest := xs[1..];
    if |rest| >= 2 {
      JoinSnoc(sep, rest);
      assert rest[..|rest| - 1] == xs[1..|xs| - 1];
      assert xs[..|xs| - 1][1..] == xs[1..|xs| - 1];
    }
  }

  function EncodeRow(row: seq<string>, quote: string -> bool): string
  {
    Join(',', seq(|row|, j requires 0 <= j < |row| => EncodeCell(row[j], quote)))
  }

  function Encode(rows: seq<seq<string>>, quote: string -> bool): string
  {
    Join('\n', seq(|rows|, i requires 0 <= i < |rows| => EncodeRow(rows[i], quote)))
  }

  /** The test the export applies: `typeof c === 'string' && c.includes(',')`. */
  predicate HasComma(c: string)
  {
    ',' in c
  }

  /** The export as written: only a cell holding a comma is quoted. */
  function CsvAsWritten(rows: seq<seq<string>>): string
  {
    Encode(rows, HasComma)
  }

  /** What RFC 4180 asks to be quoted: a comma, a double quote or a line break. */
  predicate NeedsQuoting(c: string)
  {
    ',' in c || '"' in c || '\n' in c || '\r' in c
  }

  /** The export with every cell quoted that RFC 4180 says must be. */
  function CsvQuoted(rows: seq<seq<string>>): string
  {
    Encode(rows, NeedsQuoting)
  }

  /* ---------- Reading ---------- */

  /** A field read from the front of the input, and the input after it. */
  datatype Field = Field(text: string, rest: string)

  /** A record read from the front of the input; `more` when a line break ended it. */
  datatype Record = Record(cells: seq<string>, rest: string, more: bool)

  /** What may follow a field: the end of the input, a comma or a line break. */
  predicate Separated(s: string)
  {
    s == [] || s[0] == ',' || s[0] == '\n'
  }

  /** An unquoted field: everything up to the next comma or line break. */
  function ParseRaw(s: string): (f: Field)
    ensures f.text + f.rest == s
    ensures Separated(f.rest)
    ensures ',' !in f.text && '\n' !in f.text
  {
    if Separated(s) then Field([], s)
    else
      var f := ParseRaw(s[1..]);
      Field([s[0]] + f.text, f.rest)
  }

  /**
   * The inside of a quoted field, after its opening quote: `""` stands for
   * one '"', and a lone '"' closes the field. An unterminated field runs to
   * the end of the input.
   */
  function ParseQuoted(s: string): (f: Field)
    ensures |f.rest| <= |s|
  {
    if s == [] then Field([], [])
    else if s[0] == '"' then
      if |s| > 1 && s[1] == '"' then
        var f := ParseQuoted(s[2..]);
        Field(['"'] + f.text, f.rest)
      else Field([], s[1..])
    else
      var f := ParseQuoted(s[1..]);
      Field([s[0]] + f.text, f.rest)
  }

  /** A field, quoted or not; text after a closing quote is kept up to the next separator. */
  function ParseField(s: string): (f: Field)
    ensures |f.rest| <= |s|
    ensures Separated(f.rest)
  {
    if s != [] && s[0] == '"' then
      var q := ParseQuoted(s[1..]);
      var r := ParseRaw(q.rest);
      Field(q.text + r.text, r.rest)
    else ParseRaw(s)
  }

  /** A record: fields separated by commas, up to a line break or the end of the input. */
  function ParseRecord(s: string): (r: Record)
    ensures |r.cells| >= 1
    ensures r.more ==> |r.rest| < |s|
    ensures !r.more ==> r.rest == []
    decreases |s|
  {
    var f := ParseField(s);
    if f.rest == [] then Record([f.text], [], false)
    else if f.rest[0] == '\n' then Record([f.text], f.rest[1..], true)
    else
      var r := ParseRecord(f.rest[1..]);
      Record([f.text] + r.cells, r.rest, r.more)
  }

  /** A whole file: one record per line; every record has at least one field. */
  function ParseCsv(s: string): (rows: seq<seq<string>>)
    ensures |rows| >= 1
    ensures forall i :: 0 <= i < |rows| ==> |rows[i]| >= 1
    decreases |s|
  {
    var r := ParseRecord(s);
    if r.more then [r.cells] + ParseCsv(r.rest) else [r.cells]
  }

  /* ---------- Round trips ---------- */

  /** A cell that reads back unchanged without quotes: no separator in it, and no opening quote. */
  predicate RawSafe(c: string)
  {
    ',' !in c && '\n' !in c && (c == [] || c[0] != '"')
  }

  /** Every cell is either quoted by `quote` or safe to leave bare. */
  predicate Readable(rows: seq<seq<string>>, quote: string -> bool)
  {
    forall i, j :: 0 <= i < |rows| && 0 <= j < |rows[i]| ==> quote(rows[i][j]) || RawSafe(rows[i][j])
  }

  /**
   * A table the format can hold: at least one row, and at least one cell in
   * every row (rows may differ in width). An empty row would be written as an
   * empty line, which reads back as one empty cell.
   */
  predicate NoEmptyRows(rows: seq<seq<string>>)
  {
    |rows| >= 1 && forall i :: 0 <= i < |rows| ==> |rows[i]| >= 1
  }

  /** Reading an escaped cell and its closing quote gives the cell back. */
  lemma {:induction false} QuotedRoundTrip(c: string, rest: string)
    requires rest == [] || rest[0] != '"'
    ensures ParseQuoted(Escape(c) + "\"" + rest) == Field(c, rest)
  {
    if c == [] {
      assert Escape(c) + "\"" + rest == "\"" + rest;
      QuotedClose(rest);
    } else {
      var head := EscapedChar(c[0]);
      var tail := Escape(c[1..]) + "\"" + rest;
      QuotedRoundTrip(c[1..], rest);
      assert Escape(c) == head + Escape(c[1..]);
      Regroup(head, Escape(c[1..]), "\"", rest);
      assert Escape(c) + "\"" + rest == head + tail;
      QuotedStep(c[0], tail);
      assert ParseQuoted(tail) == Field(c[1..], rest);
      assert [c[0]] + c[1..] == c;
    }
  }

  /** A closing quote not followed by another quote ends the field. */
  lemma QuotedClose(rest: string)
    requires rest == [] || rest[0] != '"'
    ensures ParseQuoted("\"" + rest) == Field([], rest)
  {
    assert ("\"" + rest)[1..] == rest;
  }

  function EscapedChar(x: char): string
  {
    if x == '"' then "\"\"" else [x]
  }

  /** One escaped character in front of the rest of a quoted field is read as that character. */
  lemma QuotedStep(x: char, tail: string)
    ensures ParseQuoted(EscapedChar(x) + tail) ==
            Field([x] + ParseQuoted(tail).text, ParseQuoted(tail).rest)
  {
    var s := EscapedChar(x) + tail;
    if x == '"' {
      assert s[0] == '"' && s[1] == '"' && s[2..] == tail;
    } else {
      assert s[0] == x && s[1..] == tail;
    }
  }

  /** Reading a bare cell without separators gives it back. */
  lemma {:induction false} RawRoundTrip(c: string, rest: string)
    requires ',' !in c && '\n' !in c
    requires Separated(rest)
    ensures ParseRaw(c + rest) == Field(c, rest)
  {
    if c == [] {
      assert c + rest == rest;
    } else {
      assert (c + rest)[1..] == c[1..] + rest;
      RawRoundTrip(c[1..], rest);
    }
  }

  /** Reading a quoted cell gives the cell back. */
  lemma QuotedFieldRoundTrip(c: string, rest: string)
    requires Separated(rest)
    ensures ParseField(Quote(c) + rest) == Field(c, rest)
  {
    var s := Quote(c) + rest;
    assert s[0] == '"' && s[1..] == Escape(c) + "\"" + rest;
    QuotedRoundTrip(c, rest);
    RawRoundTrip([], rest);
    assert [] + rest == rest && c + [] == c;
  }

  /** Reading an encoded cell gives the cell back. */
  lemma FieldRoundTrip(c: string, quote: string -> bool, rest: string)
    requires quote(c) || RawSafe(c)
    requires Separated(rest)
    ensures ParseField(EncodeCell(c, quote) + rest) == Field(c, rest)
  {
    if quote(c) {
      QuotedFieldRoundTrip(c, rest);
    } else {
      RawRoundTrip(c, rest);
    }
  }

  /** A row of two or more cells is its first cell, a comma, and the rest of the row. */
  lemma EncodeRowCons(row: seq<string>, quote: string -> bool)
    requires |row| >= 2
    ensures EncodeRow(row, quote) == EncodeCell(row[0], quote) + "," + EncodeRow(row[1..], quote)
  {
    var cells := seq(|row|, j requires 0 <= j < |row| => EncodeCell(row[j], quote));
    assert cells[1..] == seq(|row[1..]|, j requires 0 <= j < |row[1..]| => EncodeCell(row[1..][j], quote));
  }

  lemma EncodeRowConsWith(row: seq<string>, quote: string -> bool, tail: string)
    requires |row| >= 2
    ensures EncodeRow(row, quote) + tail == EncodeCell(row[0], quote) + ("," + (EncodeRow(row[1..], quote) + tail))
  {
    EncodeRowCons(row, quote);
    Regroup(EncodeCell(row[0], quote), ",", EncodeRow(row[1..], quote), tail);
  }

  lemma Regroup(a: string, b: string, c: string, d: string)
    ensures a + b + c + d == a + (b + (c + d))
  {
  }

  /** A table of two or more rows is its first row, a line break, and the rest of the table. */
  lemma EncodeCons(rows: seq<seq<string>>, quote: string -> bool)
    requires |rows| >= 2
    ensures Encode(rows, quote) == EncodeRow(rows[0], quote) + "\n" + Encode(rows[1..], quote)
  {
    var lines := seq(|rows|, i requires 0 <= i < |rows| => EncodeRow(rows[i], quote));
    assert lines[1..] == seq(|rows[1..]|, i requires 0 <= i < |rows[1..]| => EncodeRow(rows[1..][i], quote));
  }

  /** A field followed by a comma starts a record that goes on with the next field. */
  lemma RecordCons(s: string, c: string, more: string)
    requires ParseField(s) == Field(c, "," + more)
    ensures ParseRecord(s) == Record([c] + ParseRecord(more).cells, ParseRecord(more).rest, ParseRecord(more).more)
  {
    assert ("," + more)[1..] == more;
  }

  /** Reading an encoded row gives the row back, and says whether a line break followed it. */
  lemma {:induction false} RecordRoundTrip(row: seq<string>, quote: string -> bool, tail: string)
    requires |row| >= 1
    requires forall j :: 0 <= j < |row| ==> quote(row[j]) || RawSafe(row[j])
    requires tail == [] || tail[0] == '\n'
    ensures ParseRecord(EncodeRow(row, quote) + tail) == Record(row, if tail == [] then [] else tail[1..], tail != [])
  {
    if |row| == 1 {
      LastCellRoundTrip(row, quote, tail);
    } else {
      var rest := row[1..];
      var more := EncodeRow(rest, quote) + tail;
      var after := if tail == [] then [] else tail[1..];
      RowTailReadable(row, quote);
      RecordRoundTrip(rest, quote, tail);
      assert ParseRecord(more) == Record(rest, after, tail != []);
      FirstCellRoundTrip(row, quote, more);
      EncodeRowConsWith(row, quote, tail);
      assert ParseRecord(EncodeRow(row, quote) + tail) == Record([row[0]] + rest, after, tail != []);
      assert [row[0]] + rest == row;
    }
  }

  lemma RowTailReadable(row: seq<string>, quote: string -> bool)
    requires |row| >= 1
    requires forall j :: 0 <= j < |row| ==> quote(row[j]) || RawSafe(row[j])
    ensures forall j :: 0 <= j < |row[1..]| ==> quote(row[1..][j]) || RawSafe(row[1..][j])
  {
    assert forall j :: 0 <= j < |row[1..]| ==> row[1..][j] == row[j + 1];
  }

  /** The last cell of a row reads back, ended by the end of the input or a line break. */
  lemma LastCellRoundTrip(row: seq<string>, quote: string -> bool, tail: string)
    requires |row| == 1
    requires quote(row[0]) || RawSafe(row[0])
    requires tail == [] || tail[0] == '\n'
    ensures ParseRecord(EncodeRow(row, quote) + tail) == Record(row, if tail == [] then [] else tail[1..], tail != [])
  {
    assert EncodeRow(row, quote) == EncodeCell(row[0], quote);
    FieldRoundTrip(row[0], quote, tail);
    assert [row[0]] == row;
  }

  /** The first of several cells reads back, and the record goes on after its comma. */
  lemma FirstCellRoundTrip(row: seq<string>, quote: string -> bool, more: string)
    requires |row| >= 1
    requires quote(row[0]) || RawSafe(row[0])
    ensures var r := ParseRecord(more);
            ParseRecord(EncodeCell(row[0], quote) + ("," + more)) == Record([row[0]] + r.cells, r.rest, r.more)
  {
    FieldRoundTrip(row[0], quote, "," + more);
    RecordCons(EncodeCell(row[0], quote) + ("," + more), row[0], more);
  }

  /** A record ended by a line break is followed by the records after it. */
  lemma CsvCons(s: string)
    requires ParseRecord(s).more
    ensures ParseCsv(s) == [ParseRecord(s).cells] + ParseCsv(ParseRecord(s).rest)
  {
  }

  /** Reading an encoded table gives the table back, whenever every cell is quoted or safe bare. */
  lemma {:induction false} EncodeRoundTrip(rows: seq<seq<string>>, quote: string -> bool)
    requires NoEmptyRows(rows)
    requires Readable(rows, quote)
    ensures ParseCsv(Encode(rows, quote)) == rows
  {
    if |rows| == 1 {
      RecordRoundTrip(rows[0], quote, []);
      assert Encode(rows, quote) == EncodeRow(rows[0], quote) + [];
    } else {
      var more := Encode(rows[1..], quote);
      EncodeCons(rows, quote);
      assert Encode(rows, quote) == EncodeRow(rows[0], quote) + ("\n" + more);
      RecordRoundTrip(rows[0], quote, "\n" + more);
      assert ("\n" + more)[1..] == more;
      CsvCons(Encode(rows, quote));
      assert Readable(rows[1..], quote) by {
        forall i, j | 0 <= i < |rows[1..]| && 0 <= j < |rows[1..][i]|
          ensures quote(rows[1..][i][j]) || RawSafe(rows[1..][i][j])
        {
          assert rows[1..][i] == rows[i + 1];
        }
      }
      EncodeRoundTrip(rows[1..], quote);
      assert [rows[0]] + rows[1..] == rows;
    }
  }

  /** The RFC 4180 quoting reads back every table with at least one row and no empty row. */
  lemma CsvQuotedRoundTrip(rows: seq<seq<string>>)
    requires NoEmptyRows(rows)
    ensures ParseCsv(CsvQuoted(rows)) == rows
  {
    EncodeRoundTrip(rows, NeedsQuoting);
  }

  /** Why the round trips ask for `NoEmptyRows`: no rows and one empty row both read back as one empty cell. */
  lemma EmptyTablesReadAsOneCell()
    ensures ParseCsv(CsvQuoted([])) == [[""]]
    ensures ParseCsv(CsvQuoted([[]])) == [[""]]
  {
    assert CsvQuoted([]) == "";
    assert CsvQuoted([[]]) == "";
  }

  /** The export as written reads back when no bare cell holds a line break or opens with a quote. */
  lemma CsvAsWrittenRoundTrip(rows: seq<seq<string>>)
    requires NoEmptyRows(rows)
    requires Readable(rows, HasComma)
    ensures ParseCsv(CsvAsWritten(rows)) == rows
  {
    EncodeRoundTrip(rows, HasComma);
  }

  /** A cell holding a line break but no comma is left bare, and reads back as two rows. */
  lemma AsWrittenSplitsLineBreak()
    ensures CsvAsWritten([["a\nb"]]) == "a\nb"
    ensures ParseCsv(CsvAsWritten([["a\nb"]])) == [["a"], ["b"]]
  {
    var rows := [["a\nb"]];
    assert !HasComma(rows[0][0]);
    assert EncodeRow(rows[0], HasComma) == "a\nb";
    assert ParseRaw("b") == Field("b", []) by {
      assert "b"[1..] == [];
    }
    assert ParseRaw("a\nb") == Field("a", "\nb") by {
      assert "a\nb"[1..] == "\nb";
    }
    assert ParseRecord("a\nb") == Record(["a"], "b", true) by {
      assert "\nb"[1..] == "b";
    }
  }

  /** A cell wrapped in quotes but holding no comma is left bare, and reads back without its quotes. */
  lemma AsWrittenDropsQuotes()
    ensures CsvAsWritten([["\"x\""]]) == "\"x\""
    ensures ParseCsv(CsvAsWritten([["\"x\""]])) == [["x"]]
  {
    var rows := [["\"x\""]];
    assert !HasComma(rows[0][0]);
    assert EncodeRow(rows[0], HasComma) == "\"x\"";
    var s := "\"x\"";
    assert s[1..] == "x\"";
    assert ParseQuoted("x\"") == Field("x", []) by {
      assert "x\""[1..] == "\"";
      assert ParseQuoted("\"") == Field([], []) by {
        assert "\""[1..] == [];
      }
    }
    assert ParseRaw([]) == Field([], []);
    assert ParseField(s) == Field("x", []);
  }
}
