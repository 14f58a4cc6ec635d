/** The CSV exports of the reports and the CSV reader of the imports (section 2 of RFC 4180). */
module Csv {
  /** A value of an export row: a missing one, a number (already printed) or a text. */
  datatype Value = Missing | Number(text: string) | Text(text: string)

  datatype Row = Row(rowNo: nat, cells: seq<string>)

  datatype Matrix = Matrix(headers: seq<string>, rows: seq<Row>)

  const BOM: char := '\U{FEFF}'

  // ------------------------------------------------------------------ writing

  predicate Risky(c: char) {
    c in "=+-@\t\r"
  }

  /** The text a cell shows: a formula-like text gets an apostrophe, a number never does. */
  function Shown(v: Value): string {
    match v
    case Missing => ""
    case Number(s) => s
    case Text(s) => if s != "" && Risky(s[0]) then "'" + s else s
  }

  predicate NeedsQuotes(s: string) {
    '"' in s || ',' in s || '\n' in s
  }

  /** Every quote is written twice. */
  function Doubled(s: string): string {
    if s == "" then ""
    else if s[0] == '"' then "\"\"" + Doubled(s[1..])
    else [s[0]] + Doubled(s[1..])
  }

  function CsvCell(v: Value): string {
    var s := Shown(v);
    if NeedsQuotes(s) then "\"" + Doubled(s) + "\"" else s
  }

  /**
    No shown text can start a formula: it is the text itself, or the text behind an apostrophe when it starts
    like one. Numbers are shown as printed, also negative ones.
  */
  lemma ShownExactly(v: Value)
    ensures v.Missing? ==> Shown(v) == ""
    ensures v.Number? ==> Shown(v) == v.text
    ensures v.Text? ==>
      && (Shown(v) != "" ==> Shown(v)[0] !in ['=', '+', '-', '@', '\t', '\r'])
      && (Shown(v) == v.text ||
          (v.text != "" && v.text[0] in ['=', '+', '-', '@', '\t', '\r'] && Shown(v) == "'" + v.text))
  {
  }

  /** A cell is written without quotes exactly if its text holds no quote, comma or line feed. */
  lemma QuotedExactly(v: Value)
    ensures CsvCell(v) == Shown(v) <==> '"' !in Shown(v) && ',' !in Shown(v) && '\n' !in Shown(v)
    ensures CsvCell(v) != Shown(v) ==> CsvCell(v) == "\"" + Doubled(Shown(v)) + "\""
  {
    hide Shown;
    DoubledGrows(Shown(v));
  }

  lemma {:induction false} DoubledGrows(s: string)
    ensures |Doubled(s)| >= |s|
  {
    if s != "" { DoubledGrows(s[1..]); }
  }

  function RowText(row: seq<Value>): string {
    if row == [] then ""
    else if |row| == 1 then CsvCell(row[0])
    else CsvCell(row[0]) + "," + RowText(row[1..])
  }

  function JoinLines(lines: seq<string>): string {
    if lines == [] then ""
    else if |lines| == 1 then lines[0]
    else lines[0] + "\r\n" + JoinLines(lines[1..])
  }

  function Texts(table: seq<seq<Value>>): seq<string> {
    seq(|table|, i requires 0 <= i < |table| => RowText(table[i]))
  }

  function Export(table: seq<seq<Value>>): string {
    [BOM] + JoinLines(Texts(table))
  }

  /** The cells of a row are separated by commas. */
  lemma {:induction false} RowTextNext(row: seq<Value>, v: Value)
    ensures RowText([v]) == CsvCell(v)
    ensures row != [] ==> RowText(row + [v]) == RowText(row) + "," + CsvCell(v)
  {
    hide CsvCell;
    if |row| > 1 {
      RowTextNext(row[1..], v);
      assert (row + [v])[1..] == row[1..] + [v];
    } else if |row| == 1 {
      assert (row + [v])[1..] == [v];
    }
  }

  lemma {:induction false} JoinNext(lines: seq<string>, line: string)
    ensures JoinLines([line]) == line
    ensures lines != [] ==> JoinLines(lines + [line]) == JoinLines(lines) + "\r\n" + line
  {
    if |lines| > 1 {
      JoinNext(lines[1..], line);
      assert (lines + [line])[1..] == lines[1..] + [line];
    } else if |lines| == 1 {
      assert (lines + [line])[1..] == [line];
    }
  }

  /** An export is a byte order mark and the rows, with a carriage return and line feed between two of them. */
  lemma ExportNext(table: seq<seq<Value>>, row: seq<Value>)
    ensures Export([]) == "\U{FEFF}" && Export([row]) == "\U{FEFF}" + RowText(row)
    ensures table != [] ==> Export(table + [row]) == Export(table) + "\r\n" + RowText(row)
  {
    hide RowText, JoinLines;
    JoinNext(Texts(table), RowText(row));
    assert Texts(table + [row]) == Texts(table) + [RowText(row)] && Texts([row]) == [RowText(row)];
    assert Texts([]) == [] && JoinLines([]) == "" by { JoinNone(); }
  }

  lemma JoinNone()
    ensures JoinLines([]) == "" && Texts([]) == []
  {
  }

  // ------------------------------------------------------------ reading a line

  /** The fields of the rest of a line, given the field so far and whether it is inside quotes. */
  function Fields(s: string, cur: string, inQuotes: bool): (fields: seq<string>)
    ensures fields != []
    decreases |s|
  {
    if s == "" then [cur]
    else if inQuotes then
      if s[0] == '"' && |s| > 1 && s[1] == '"' then Fields(s[2..], cur + "\"", true)
      else if s[0] == '"' then Fields(s[1..], cur, false)
      else Fields(s[1..], cur + [s[0]], true)
    else if s[0] == '"' then Fields(s[1..], cur, true)
    else if s[0] == ',' then [cur] + Fields(s[1..], "", false)
    else Fields(s[1..], cur + [s[0]], false)
  }

  /** `splitCsvLine`: one pass over the characters. */
  method SplitCsvLine(line: string) returns (out: seq<string>)
    ensures out == Fields(line, "", false)
  {
    out := [];
    var cur, inQuotes, i := "", false, 0;
    while i < |line|
      invariant i <= |line|
      invariant out + Fields(line[i..], cur, inQuotes) == Fields(line, "", false)
    {
      var ch := line[i];
      assert line[i..][1..] == line[i + 1..];
      if inQuotes {
        if ch == '"' && i + 1 < |line| && line[i + 1] == '"' {
          assert line[i..][2..] == line[i + 2..];
          cur := cur + "\"";
          i := i + 1;
        } else if ch == '"' {
          inQuotes := false;
        } else {
          cur := cur + [ch];
        }
      } else if ch == '"' {
        inQuotes := true;
      } else if ch == ',' {
        assert out + ([cur] + Fields(line[i + 1..], "", false)) == out + [cur] + Fields(line[i + 1..], "", false);
        out := out + [cur];
        cur := "";
      } else {
        cur := cur + [ch];
      }
      i := i + 1;
    }
    out := out + [cur];
  }

  // ------------------------------------------------------- cells and rows survive

  lemma {:induction false} PlainRead(s: string, rest: string, cur: string)
    requires '"' !in s && ',' !in s
    ensures Fields(s + rest, cur, false) == Fields(rest, cur + s, false)
  {
    if s == "" {
      assert s + rest == rest && cur + s == cur;
    } else {
      assert (s + rest)[1..] == s[1..] + rest;
      assert cur + [s[0]] + s[1..] == cur + s;
      PlainRead(s[1..], rest, cur + [s[0]]);
    }
  }

  lemma {:induction false} QuotedRead(s: string, rest: string, cur: string)
    requires rest == "" || rest[0] == ','
    ensures Fields(Doubled(s) + "\"" + rest, cur, true) == Fields(rest, cur + s, false)
  {
    var text := Doubled(s) + "\"" + rest;
    if s == "" {
      assert text == "\"" + rest && text[1..] == rest && cur + s == cur;
    } else {
      assert cur + [s[0]] + s[1..] == cur + s;
      var tail := Doubled(s[1..]) + "\"" + rest;
      if s[0] == '"' {
        assert text == "\"\"" + tail && text[2..] == tail;
      } else {
        assert text == [s[0]] + tail && text[1..] == tail;
      }
      QuotedRead(s[1..], rest, cur + [s[0]]);
    }
  }

  lemma OpenQuote(s: string)
    ensures Fields("\"" + s, "", false) == Fields(s, "", true)
  {
    assert ("\"" + s)[1..] == s;
  }

  lemma NextField(s: string, cur: string)
    ensures Fields("," + s, cur, false) == [cur] + Fields(s, "", false)
  {
    assert ("," + s)[1..] == s;
  }

  /** A quote opens quotes wherever it stands, and quotes left open run to the end of the line. */
  lemma {:induction false} StrayQuote(s: string, rest: string, cur: string)
    requires '"' !in s && ',' !in s && '"' !in rest
    ensures Fields(s + "\"" + rest, cur, false) == [cur + s + rest]
  {
    PlainRead(s, "\"" + rest, cur);
    assert s + ("\"" + rest) == s + "\"" + rest && ("\"" + rest)[1..] == rest;
    OpenRead(rest, cur + s);
  }

  lemma {:induction false} OpenRead(s: string, cur: string)
    requires '"' !in s
    ensures Fields(s, cur, true) == [cur + s]
  {
    if s == "" {
      assert cur + s == cur;
    } else {
      assert cur + [s[0]] + s[1..] == cur + s;
      OpenRead(s[1..], cur + [s[0]]);
    }
  }

  /** What follows a closing quote, up to the comma, belongs to the same field. */
  lemma AfterQuote(s: string, rest: string, cur: string)
    requires '"' !in s && ',' !in s && s != ""
    ensures Fields("\"" + s + "," + rest, cur, true) == [cur + s] + Fields(rest, "", false)
  {
    var text := "\"" + s + "," + rest;
    assert text[1..] == s + ("," + rest) && text[1] == s[0];
    PlainRead(s, "," + rest, cur);
    NextField(rest, cur + s);
  }

  /** Whatever it contains, a written cell is read back as the text it shows. */
  lemma CellRead(v: Value, rest: string)
    requires rest == "" || rest[0] == ','
    ensures Fields(CsvCell(v) + rest, "", false) == Fields(rest, Shown(v), false)
  {
    hide Fields, Doubled, Shown;
    var s := Shown(v);
    assert "" + s == s;
    if NeedsQuotes(s) {
      assert CsvCell(v) + rest == "\"" + (Doubled(s) + "\"" + rest);
      OpenQuote(Doubled(s) + "\"" + rest);
      QuotedRead(s, rest, "");
    } else {
      PlainRead(s, rest, "");
    }
  }

  function ShownRow(row: seq<Value>): seq<string> {
    seq(|row|, i requires 0 <= i < |row| => Shown(row[i]))
  }

  /** The fields of a written row are the texts its cells show, with commas, quotes and line feeds inside. */
  lemma {:induction false} RowRead(row: seq<Value>)
    requires row != []
    ensures Fields(RowText(row), "", false) == ShownRow(row)
  {
    hide CsvCell, Shown;
    FieldsOfNothing(Shown(row[0]));
    hide Fields;
    if |row| == 1 {
      CellRead(row[0], "");
      assert CsvCell(row[0]) + "" == CsvCell(row[0]) && ShownRow(row) == [Shown(row[0])];
    } else {
      var tail := RowText(row[1..]);
      assert RowText(row) == CsvCell(row[0]) + ("," + tail);
      CellRead(row[0], "," + tail);
      NextField(tail, Shown(row[0]));
      RowRead(row[1..]);
      assert ShownRow(row) == [Shown(row[0])] + ShownRow(row[1..]);
    }
  }

  lemma FieldsOfNothing(cur: string)
    ensures Fields("", cur, false) == [cur]
  {
  }

  // ------------------------------------------------------------ reading a file

  /** The white space and line terminators that `trim` removes (section 22.1.3.32 of ECMA-262). */
  predicate IsSpace(c: char) {
    || c in "\t\n\U{B}\U{C}\r \U{A0}\U{1680}\U{2028}\U{2029}\U{202F}\U{205F}\U{3000}\U{FEFF}"
    || '\U{2000}' <= c <= '\U{200A}'
  }

  /** The same by code points. */
  lemma SpaceExactly(c: char)
    ensures var n := c as int;
      IsSpace(c) <==>
        n in {9, 10, 11, 12, 13, 32, 0xA0, 0x1680, 0x2028, 0x2029, 0x202F, 0x205F, 0x3000, 0xFEFF}
        || 0x2000 <= n <= 0x200A
  {
  }

  predicate Blank(s: string) {
    forall i :: 0 <= i < |s| ==> IsSpace(s[i])
  }

  function Trim(s: string): (r: string)
    ensures r == "" <==> Blank(s)
    ensures '\n' !in s ==> '\n' !in r
  {
    if s == "" then ""
    else if IsSpace(s[0]) then Trim(s[1..])
    else if IsSpace(s[|s| - 1]) then Trim(s[..|s| - 1])
    else s
  }

  lemma BlankJoin(a: string, b: string)
    requires Blank(a) && Blank(b)
    ensures Blank(a + b)
  {
  }

  lemma {:induction false} TrimEnds(s: string)
    ensures var r := Trim(s); r != "" ==> !IsSpace(r[0]) && !IsSpace(r[|r| - 1])
  {
    hide IsSpace;
    if s != "" {
      if IsSpace(s[0]) { TrimEnds(s[1..]); }
      else if IsSpace(s[|s| - 1]) { TrimEnds(s[..|s| - 1]); }
    }
  }

  /** The text is the trimmed one between white space. */
  ghost predicate Between(s: string, a: string, r: string, b: string) {
    Blank(a) && Blank(b) && s == a + r + b
  }

  lemma WiderLeft(s: string, a: string, r: string, b: string)
    requires s != "" && IsSpace(s[0]) && Between(s[1..], a, r, b)
    ensures Between(s, [s[0]] + a, r, b)
  {
    BlankJoin([s[0]], a);
    assert s == [s[0]] + s[1..];
  }

  lemma WiderRight(s: string, a: string, r: string, b: string)
    requires s != "" && IsSpace(s[|s| - 1]) && Between(s[..|s| - 1], a, r, b)
    ensures Between(s, a, r, b + [s[|s| - 1]])
  {
    BlankJoin(b, [s[|s| - 1]]);
    assert s == s[..|s| - 1] + [s[|s| - 1]];
  }

  lemma BetweenNothing(s: string)
    ensures Between(s, "", s, "")
  {
    assert "" + s + "" == s;
  }

  /** Trimming takes white space off both ends, all of it, and nothing else. */
  lemma {:induction false} TrimExactly(s: string)
    ensures exists a, b :: Between(s, a, Trim(s), b)
    ensures var r := Trim(s); r != "" ==> !IsSpace(r[0]) && !IsSpace(r[|r| - 1])
  {
    hide IsSpace, Blank;
    TrimEnds(s);
    BetweenNothing(s);
    hide Between;
    if s != "" {
      var n := |s| - 1;
      if IsSpace(s[0]) {
        TrimExactly(s[1..]);
        var a, b :| Between(s[1..], a, Trim(s[1..]), b);
        WiderLeft(s, a, Trim(s), b);
      } else if IsSpace(s[n]) {
        TrimExactly(s[..n]);
        var a, b :| Between(s[..n], a, Trim(s[..n]), b);
        WiderRight(s, a, Trim(s), b);
      }
    }
  }

  function TrimAll(fields: seq<string>): (trimmed: seq<string>)
    ensures |trimmed| == |fields|
    ensures forall i :: 0 <= i < |fields| ==> trimmed[i] == Trim(fields[i])
  {
    seq(|fields|, i requires 0 <= i < |fields| => Trim(fields[i]))
  }

  /** The text split at a line feed or a carriage return and line feed. */
  function SplitLines(s: string, cur: string): (lines: seq<string>)
    ensures lines != []
    ensures '\n' !in cur ==> forall i :: 0 <= i < |lines| ==> '\n' !in lines[i]
  {
    if s == "" then [cur]
    else if s[0] == '\r' && |s| > 1 && s[1] == '\n' then [cur] + SplitLines(s[2..], "")
    else if s[0] == '\n' then [cur] + SplitLines(s[1..], "")
    else SplitLines(s[1..], cur + [s[0]])
  }

  function NotBlank(lines: seq<string>): seq<string> {
    if lines == [] then []
    else
      var n := |lines| - 1;
      NotBlank(lines[..n]) + if Blank(lines[n]) then [] else [lines[n]]
  }

  predicate AllEmpty(cells: seq<string>) {
    forall i :: 0 <= i < |cells| ==> cells[i] == ""
  }

  function LineCells(line: string): seq<string> {
    TrimAll(Fields(line, "", false))
  }

  /** The data rows of the lines after the first, numbered by their place among the lines that are not blank. */
  function DataRows(lines: seq<string>): seq<Row> {
    if |lines| <= 1 then []
    else
      var n := |lines| - 1;
      var cells := LineCells(lines[n]);
      DataRows(lines[..n]) + if AllEmpty(cells) then [] else [Row(n + 1, cells)]
  }

  /** Some cell of the line is not empty. */
  ghost predicate SomeText(line: string) {
    exists c :: 0 <= c < |LineCells(line)| && LineCells(line)[c] != ""
  }

  ghost predicate HasRow(rows: seq<Row>, number: nat) {
    exists k :: 0 <= k < |rows| && rows[k].rowNo == number
  }

  /** The rows are those of the lines after the first that have some text: their cells, numbered from two. */
  ghost predicate RowsOf(rows: seq<Row>, lines: seq<string>) {
    && (forall k :: 0 <= k < |rows| ==>
          var i := rows[k].rowNo - 1;
          1 <= i < |lines| && rows[k].cells == LineCells(lines[i]) && SomeText(lines[i]))
    && (forall j, k :: 0 <= j < k < |rows| ==> rows[j].rowNo < rows[k].rowNo)
    && (forall i :: 1 <= i < |lines| && SomeText(lines[i]) ==> HasRow(rows, i + 1))
  }

  lemma MoreRows(rows: seq<Row>, row: Row, number: nat)
    ensures HasRow(rows + [row], number) <==> HasRow(rows, number) || row.rowNo == number
  {
    if k :| 0 <= k < |rows| && rows[k].rowNo == number { assert (rows + [row])[k].rowNo == number; }
    assert (rows + [row])[|rows|] == row;
  }

  lemma RowsOfNext(rows: seq<Row>, lines: seq<string>, line: string)
    requires lines != [] && RowsOf(rows, lines)
    ensures RowsOf(rows + if SomeText(line) then [Row(|lines| + 1, LineCells(line))] else [], lines + [line])
  {
    hide LineCells, SomeText, HasRow;
    if SomeText(line) {
      forall i: nat ensures HasRow(rows + [Row(|lines| + 1, LineCells(line))], i)
                            <==> HasRow(rows, i) || i == |lines| + 1 {
        MoreRows(rows, Row(|lines| + 1, LineCells(line)), i);
      }
    } else {
      assert rows + [] == rows;
    }
  }

  lemma NoRowsOf(lines: seq<string>)
    requires |lines| <= 1
    ensures RowsOf([], lines)
  {
  }

  lemma SomeTextExactly(line: string)
    ensures SomeText(line) <==> !AllEmpty(LineCells(line))
  {
  }

  /** `DataRows` gives exactly those rows. */
  lemma {:induction false} DataRowsExactly(lines: seq<string>)
    ensures RowsOf(DataRows(lines), lines)
  {
    hide LineCells, SomeText, AllEmpty, RowsOf;
    if |lines| <= 1 {
      NoRowsOf(lines);
    } else {
      var n := |lines| - 1;
      DataRowsExactly(lines[..n]);
      SomeTextExactly(lines[n]);
      RowsOfNext(DataRows(lines[..n]), lines[..n], lines[n]);
      assert lines == lines[..n] + [lines[n]];
    }
  }

  function WithoutBom(text: string): string {
    if text != "" && text[0] == BOM then text[1..] else text
  }

  function Parse(text: string): Matrix {
    var lines := NotBlank(SplitLines(WithoutBom(text), ""));
    if lines == [] then Matrix([], []) else Matrix(LineCells(lines[0]), DataRows(lines))
  }

  method CollectRows(lines: seq<string>) returns (rows: seq<Row>)
    requires lines != []
    ensures rows == DataRows(lines)
  {
    hide Fields, Trim;
    rows := [];
    for i := 1 to |lines|
      invariant rows == DataRows(lines[..i])
    {
      assert lines[..i + 1][..i] == lines[..i];
      var fields := SplitCsvLine(lines[i]);
      var cells := TrimAll(fields);
      if !AllEmpty(cells) { rows := rows + [Row(i + 1, cells)]; }
    }
    assert lines[..|lines|] == lines;
  }

  /** `parseCsv`: split, drop blank lines, then one row per line that has a non-empty cell. */
  method ParseCsv(text: string) returns (m: Matrix)
    ensures m == Parse(text)
  {
    hide Fields, SplitLines, DataRows, Blank;
    var all := SplitLines(WithoutBom(text), "");
    var lines: seq<string> := [];
    for i := 0 to |all|
      invariant lines == NotBlank(all[..i])
    {
      assert all[..i + 1][..i] == all[..i];
      if !Blank(all[i]) { lines := lines + [all[i]]; }
    }
    assert all[..|all|] == all;
    if |lines| == 0 { return Matrix([], []); }
    var header := SplitCsvLine(lines[0]);
    var rows := CollectRows(lines);
    m := Matrix(TrimAll(header), rows);
  }

  // -------------------------------------------------------------- files survive

  predicate NoLineFeed(row: seq<Value>) {
    forall i :: 0 <= i < |row| ==> '\n' !in Shown(row[i])
  }

  lemma {:induction false} DoubledNoLineFeed(s: string)
    requires '\n' !in s
    ensures '\n' !in Doubled(s)
  {
    if s != "" { DoubledNoLineFeed(s[1..]); }
  }

  lemma {:induction false} RowNoLineFeed(row: seq<Value>)
    requires NoLineFeed(row)
    ensures '\n' !in RowText(row)
  {
    if row != [] {
      hide Shown, Doubled;
      DoubledNoLineFeed(Shown(row[0]));
      assert '\n' !in CsvCell(row[0]);
      hide CsvCell;
      if |row| > 1 { RowNoLineFeed(row[1..]); }
    }
  }

  /** A line without a line feed is split off whole, also when it ends in a carriage return. */
  lemma {:induction false} LineSplit(line: string, rest: string, cur: string)
    requires '\n' !in line
    ensures SplitLines(line + "\r\n" + rest, cur) == [cur + line] + SplitLines(rest, "")
  {
    var text := line + "\r\n" + rest;
    if line == "" {
      assert text == "\r\n" + rest && text[2..] == rest && cur + line == cur;
    } else {
      assert text[1..] == line[1..] + "\r\n" + rest;
      assert cur + [line[0]] + line[1..] == cur + line;
      assert text[0] == line[0] && (|line| == 1 ==> text[1] == '\r') && (|line| > 1 ==> text[1] == line[1]);
      LineSplit(line[1..], rest, cur + [line[0]]);
    }
  }

  /** A lone line feed ends a line as well. */
  lemma {:induction false} LineFeedSplit(line: string, rest: string, cur: string)
    requires '\n' !in line && '\r' !in line
    ensures SplitLines(line + "\n" + rest, cur) == [cur + line] + SplitLines(rest, "")
  {
    var text := line + "\n" + rest;
    if line == "" {
      assert text == "\n" + rest && text[1..] == rest && cur + line == cur;
    } else {
      assert text[1..] == line[1..] + "\n" + rest;
      assert cur + [line[0]] + line[1..] == cur + line;
      LineFeedSplit(line[1..], rest, cur + [line[0]]);
    }
  }

  lemma {:induction false} LastLine(line: string, cur: string)
    requires '\n' !in line
    ensures SplitLines(line, cur) == [cur + line]
  {
    if line == "" {
      assert cur + line == cur;
    } else {
      assert cur + [line[0]] + line[1..] == cur + line;
      LastLine(line[1..], cur + [line[0]]);
    }
  }

  /** Lines without line feeds are exactly recovered from their joined text. */
  lemma {:induction false} LinesRead(lines: seq<string>)
    requires lines != [] && forall i :: 0 <= i < |lines| ==> '\n' !in lines[i]
    ensures SplitLines(JoinLines(lines), "") == lines
  {
    assert "" + lines[0] == lines[0];
    if |lines| == 1 {
      LastLine(lines[0], "");
    } else {
      LineSplit(lines[0], JoinLines(lines[1..]), "");
      LinesRead(lines[1..]);
    }
  }

  /** A row whose line is dropped as blank: its only cell shows nothing but white space. */
  predicate Dropped(row: seq<Value>) {
    |row| == 1 && Blank(Shown(row[0]))
  }

  lemma Visible(s: string)
    requires '"' in s || ',' in s
    ensures !Blank(s)
  {
    var i :| 0 <= i < |s| && (s[i] == '"' || s[i] == ',');
    assert !IsSpace(s[i]);
  }

  lemma BlankExactly(row: seq<Value>)
    requires row != [] && NoLineFeed(row)
    ensures Blank(RowText(row)) <==> Dropped(row)
  {
    hide Blank, Shown, Doubled;
    if |row| == 1 {
      var s := Shown(row[0]);
      if NeedsQuotes(s) {
        Visible(s);
        Visible(CsvCell(row[0]));
      }
    } else {
      Visible(RowText(row));
    }
  }

  /** The rows whose line is not dropped. */
  function Kept(table: seq<seq<Value>>): (kept: seq<seq<Value>>)
    ensures forall i :: 0 <= i < |kept| ==> kept[i] in table
  {
    if table == [] then []
    else
      var n := |table| - 1;
      Kept(table[..n]) + if Dropped(table[n]) then [] else [table[n]]
  }

  /** What reading an export should give: trimmed shown texts, without the rows that show nothing. */
  function ReadBack(kept: seq<seq<Value>>): seq<Row> {
    if |kept| <= 1 then []
    else
      var n := |kept| - 1;
      var cells := TrimAll(ShownRow(kept[n]));
      ReadBack(kept[..n]) + if AllEmpty(cells) then [] else [Row(n + 1, cells)]
  }

  function Expected(table: seq<seq<Value>>): Matrix {
    var kept := Kept(table);
    if kept == [] then Matrix([], []) else Matrix(TrimAll(ShownRow(kept[0])), ReadBack(kept))
  }

  ghost predicate Exportable(table: seq<seq<Value>>) {
    forall i :: 0 <= i < |table| ==> table[i] != [] && NoLineFeed(table[i])
  }

  lemma {:induction false} KeptLines(table: seq<seq<Value>>)
    requires Exportable(table)
    ensures NotBlank(Texts(table)) == Texts(Kept(table))
  {
    if table != [] {
      var n := |table| - 1;
      hide RowText, Blank, Dropped, NoLineFeed;
      KeptLines(table[..n]);
      BlankExactly(table[n]);
      assert Texts(table)[..n] == Texts(table[..n]);
    }
  }

  lemma {:induction false} RowsRead(kept: seq<seq<Value>>)
    requires forall i :: 0 <= i < |kept| ==> kept[i] != []
    ensures DataRows(Texts(kept)) == ReadBack(kept)
  {
    if |kept| > 1 {
      var n := |kept| - 1;
      RowRead(kept[n]);
      assert LineCells(RowText(kept[n])) == TrimAll(ShownRow(kept[n]));
      assert Texts(kept)[..n] == Texts(kept[..n]);
      hide RowText, LineCells, ShownRow, TrimAll, AllEmpty, Trim;
      RowsRead(kept[..n]);
    }
  }

  /**
    Reading an export back gives every cell as the text it showed, trimmed; rows showing nothing are left
    out, and the numbers count the lines of the file that are not blank.
  */
  lemma ExportRead(table: seq<seq<Value>>)
    requires table != [] && Exportable(table)
    ensures Parse(Export(table)) == Expected(table)
  {
    var kept := Kept(table);
    forall i | 0 <= i < |table| ensures '\n' !in RowText(table[i]) { RowNoLineFeed(table[i]); }
    assert Export(table)[1..] == JoinLines(Texts(table));
    hide RowText, Fields, NoLineFeed, JoinLines, SplitLines, NotBlank, DataRows, ReadBack, Trim, Kept, Dropped;
    LinesRead(Texts(table));
    KeptLines(table);
    RowsRead(kept);
    if kept != [] { RowRead(kept[0]); }
  }

  // -------------------------------------------------- line feeds do not survive

  predicate CellsOneLine(cells: seq<string>) {
    forall i :: 0 <= i < |cells| ==> '\n' !in cells[i]
  }

  lemma {:induction false} FieldsOneLine(s: string, cur: string, inQuotes: bool)
    requires '\n' !in s && '\n' !in cur
    ensures CellsOneLine(Fields(s, cur, inQuotes))
    decreases |s|
  {
    if s == "" {
    } else if inQuotes {
      if s[0] == '"' && |s| > 1 && s[1] == '"' { FieldsOneLine(s[2..], cur + "\"", true); }
      else if s[0] == '"' { FieldsOneLine(s[1..], cur, false); }
      else { FieldsOneLine(s[1..], cur + [s[0]], true); }
    } else if s[0] == '"' { FieldsOneLine(s[1..], cur, true); }
    else if s[0] == ',' { FieldsOneLine(s[1..], "", false); }
    else { FieldsOneLine(s[1..], cur + [s[0]], false); }
  }

  lemma {:induction false} RowsOneLine(lines: seq<string>)
    requires CellsOneLine(lines)
    ensures forall i :: 0 <= i < |DataRows(lines)| ==> CellsOneLine(DataRows(lines)[i].cells)
  {
    if |lines| > 1 {
      var n := |lines| - 1;
      RowsOneLine(lines[..n]);
      FieldsOneLine(lines[n], "", false);
    }
  }

  lemma {:induction false} NotBlankOneLine(lines: seq<string>)
    requires CellsOneLine(lines)
    ensures CellsOneLine(NotBlank(lines))
  {
    if lines != [] { NotBlankOneLine(lines[..|lines| - 1]); }
  }

  /** The reader splits lines before quotes: no cell it returns, from any file, contains a line feed. */
  lemma LineFeedsAreLost(text: string)
    ensures CellsOneLine(Parse(text).headers)
    ensures forall i :: 0 <= i < |Parse(text).rows| ==> CellsOneLine(Parse(text).rows[i].cells)
  {
    hide Blank, IsSpace;
    var lines := NotBlank(SplitLines(WithoutBom(text), ""));
    NotBlankOneLine(SplitLines(WithoutBom(text), ""));
    if lines != [] {
      FieldsOneLine(lines[0], "", false);
      RowsOneLine(lines);
    }
  }

  lemma {:induction false} DoubledLineFeed(s: string)
    ensures '\n' in Doubled(s) <==> '\n' in s
  {
    if s != "" {
      DoubledLineFeed(s[1..]);
      assert s == [s[0]] + s[1..];
    }
  }

  lemma {:induction false} RowLineFeed(row: seq<Value>)
    ensures '\n' in RowText(row) <==> !NoLineFeed(row)
  {
    if row != [] {
      DoubledLineFeed(Shown(row[0]));
      assert '\n' in CsvCell(row[0]) <==> '\n' in Shown(row[0]);
      hide Shown, Doubled, CsvCell;
      if |row| > 1 { RowLineFeed(row[1..]); }
      assert NoLineFeed(row) <==> '\n' !in Shown(row[0]) && NoLineFeed(row[1..]) by { RowSplit(row); }
    }
  }

  lemma RowSplit(row: seq<Value>)
    requires row != []
    ensures NoLineFeed(row) <==> '\n' !in Shown(row[0]) && NoLineFeed(row[1..])
  {
    hide Shown;
    assert forall i :: 1 <= i < |row| ==> row[i] == row[1..][i - 1];
  }

  /** The lines of an export are read back as its rows' lines if and only if no cell shows a line feed. */
  lemma ExportLinesExactly(table: seq<seq<Value>>)
    requires table != []
    ensures SplitLines(WithoutBom(Export(table)), "") == Texts(table) <==>
            forall i :: 0 <= i < |table| ==> NoLineFeed(table[i])
  {
    assert Export(table)[1..] == JoinLines(Texts(table));
    forall i | 0 <= i < |table| ensures '\n' in RowText(table[i]) <==> !NoLineFeed(table[i]) {
      RowLineFeed(table[i]);
    }
    hide RowText, NoLineFeed, JoinLines, SplitLines;
    var lines := SplitLines(WithoutBom(Export(table)), "");
    if forall i :: 0 <= i < |table| ==> NoLineFeed(table[i]) {
      LinesRead(Texts(table));
    } else {
      var i :| 0 <= i < |table| && !NoLineFeed(table[i]);
      assert '\n' in Texts(table)[i];
    }
  }

  lemma {:induction false} ReadBackHolds(kept: seq<seq<Value>>, i: nat)
    requires 0 < i < |kept| && !AllEmpty(TrimAll(ShownRow(kept[i])))
    ensures exists k :: 0 <= k < |ReadBack(kept)| && ReadBack(kept)[k].cells == TrimAll(ShownRow(kept[i]))
  {
    hide TrimAll, ShownRow, AllEmpty;
    var n := |kept| - 1;
    var before := ReadBack(kept[..n]);
    if i < n {
      ReadBackHolds(kept[..n], i);
      var k :| 0 <= k < |before| && before[k].cells == TrimAll(ShownRow(kept[i]));
      assert ReadBack(kept)[k] == before[k];
    } else {
      assert ReadBack(kept)[|before|].cells == TrimAll(ShownRow(kept[n]));
    }
  }

  lemma ExpectedLineFeed(table: seq<seq<Value>>, i: nat, j: nat)
    requires i < |Kept(table)| && j < |Kept(table)[i]| && '\n' in Trim(Shown(Kept(table)[i][j]))
    ensures var m := Expected(table);
      !CellsOneLine(m.headers) || exists k :: 0 <= k < |m.rows| && !CellsOneLine(m.rows[k].cells)
  {
    var kept, m := Kept(table), Expected(table);
    var cells := TrimAll(ShownRow(kept[i]));
    assert !CellsOneLine(cells) && !AllEmpty(cells) by { assert '\n' in cells[j]; }
    hide Kept, Trim, Shown, ShownRow, AllEmpty, CellsOneLine;
    if i > 0 {
      ReadBackHolds(kept, i);
      var k :| 0 <= k < |m.rows| && m.rows[k].cells == cells;
      assert !CellsOneLine(m.rows[k].cells);
    }
  }

  /** So an export whose kept rows show a line feed inside a cell is never read back as expected. */
  lemma LineFeedBreaksExport(table: seq<seq<Value>>, i: nat, j: nat)
    requires i < |Kept(table)| && j < |Kept(table)[i]| && '\n' in Trim(Shown(Kept(table)[i][j]))
    ensures Parse(Export(table)) != Expected(table)
  {
    hide Parse, Export, Expected, CellsOneLine;
    LineFeedsAreLost(Export(table));
    ExpectedLineFeed(table, i, j);
  }
}
