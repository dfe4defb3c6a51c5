/**
 * util/stats/StatisticsCSVExporter.java: export() writes a Statistics table
 * as text, one header line of quoted field names, then one line per row the
 * table's iterator yields, its values as they are. The join it calls comes
 * from a library that is not part of this model; it is taken to behave as
 * StringUtils.join, so an empty array makes it fail. Writing the text to a
 * file is not modelled.
 */
module Csv {
  import opened Wrappers
  import opened StringUtils
  import opened Stats

  function Quote(field: string): string {
    "\"" + field + "\""
  }

  /** The header array: every field between double quotes. */
  function Quoted(fields: seq<string>): (r: seq<string>)
    ensures |r| == |fields| && forall k :: 0 <= k < |fields| ==> r[k] == Quote(fields[k])
  {
    seq(|fields|, k requires 0 <= k < |fields| => Quote(fields[k]))
  }

  /** The header line; joining no fields fails. */
  function HeaderLine(fields: seq<string>): Result<string, StatsError> {
    if |fields| == 0 then Err(IndexOutOfRange) else Ok(Joined(Quoted(fields), ",") + "\n")
  }

  /** The line of one row: its values joined by commas, then a space and the end of the line. */
  function RowLine(row: seq<string>): Result<string, StatsError> {
    if |row| == 0 then Err(IndexOutOfRange) else Ok(Joined(row, ",") + " \n")
  }

  /** The lines of rows 0 to n - 1, or the failure of the first row that cannot be read or joined. */
  function RowsText(t: Table, plain: real -> string, n: nat): (r: Result<string, StatsError>)
    ensures r.Err? ==> r.error == IndexOutOfRange
  {
    if n == 0 then Ok("")
    else
      match RowsText(t, plain, n - 1)
      case Err(e) => Err(e)
      case Ok(prev) =>
        match RowOf(t, n - 1, plain)
        case Err(e) => Err(e)
        case Ok(row) =>
          match RowLine(row)
          case Err(e) => Err(e)
          case Ok(line) => Ok(prev + line)
  }

  /** What export() returns for a table: the header line, then the line of every row the iterator yields. */
  function CsvOf(t: Table, plain: real -> string): Result<string, StatsError>
    requires WellFormed(t)
  {
    match HeaderLine(Fields(t))
    case Err(e) => Err(e)
    case Ok(header) =>
      match RowsText(t, plain, RowCount(t))
      case Err(e) => Err(e)
      case Ok(body) => Ok(header + body)
  }

  /** Once a row fails, the export fails whatever follows. */
  lemma {:induction false} FailureSticks(t: Table, plain: real -> string, k: nat, m: nat)
    requires k <= m && RowsText(t, plain, k).Err?
    ensures RowsText(t, plain, m) == Err(IndexOutOfRange)
  {
    if k < m {
      FailureSticks(t, plain, k, m - 1);
    }
  }

  /** A row that cannot be read ends the text with its failure. */
  lemma FailedRowEnds(t: Table, plain: real -> string, k: nat, m: nat)
    requires k < m && RowsText(t, plain, k).Ok? && RowOf(t, k, plain).Err?
    ensures RowsText(t, plain, m) == Err(RowOf(t, k, plain).error)
  {
    assert RowsText(t, plain, k + 1).Err?;
    FailureSticks(t, plain, k + 1, m);
  }

  /** A row read and joined adds its line to the text of the rows before it. */
  lemma RowsTextStep(t: Table, plain: real -> string, k: nat, body: string, row: seq<string>)
    requires RowsText(t, plain, k) == Ok(body) && RowOf(t, k, plain) == Ok(row) && |row| > 0
    ensures RowsText(t, plain, k + 1) == Ok(body + (Joined(row, ",") + " \n"))
  {
  }

  /** A row within the row count has a cell, so joining it cannot fail. */
  lemma RowNotEmpty(t: Table, i: nat, plain: real -> string)
    requires WellFormed(t) && i < RowCount(t) && RowOf(t, i, plain).Ok?
    ensures |RowOf(t, i, plain).value| > 0
  {
    RowMatchesFields(t, i, plain);
  }

  /** The export of a table: its header line, then the rows' text after it. */
  function Appended(head: string, rows: Result<string, StatsError>): Result<string, StatsError> {
    match rows
    case Err(e) => Err(e)
    case Ok(body) => Ok(head + body)
  }

  lemma CsvOfParts(t: Table, plain: real -> string)
    requires WellFormed(t) && |Fields(t)| > 0
    ensures CsvOf(t, plain) == Appended(Joined(Quoted(Fields(t)), ",") + "\n", RowsText(t, plain, RowCount(t)))
  {
  }

  /** The header of export(): the array of quoted fields, filled by index, then joined. */
  method Header(fields: seq<string>) returns (h: Option<string>)
    ensures h == (match HeaderLine(fields) case Ok(line) => Some(line) case Err(_) => None)
  {
    var header := new string[|fields|];
    var i := 0;
    while i < |fields|
      invariant 0 <= i <= |fields|
      invariant forall k :: 0 <= k < i ==> header[k] == Quote(fields[k])
    {
      header[i] := Quote(fields[i]);
      i := i + 1;
    }
    assert header[..] == Quoted(fields);
    var joined := Join(header[..], ",");
    if joined.None? {
      return None;
    }
    h := Some(joined.value + "\n");
  }

  /** Reading row k either ends the text with the row's failure, or adds the row's line to it. */
  lemma RowsTextNext(t: Table, plain: real -> string, k: nat, text: string)
    requires WellFormed(t) && k < RowCount(t) && RowsText(t, plain, k) == Ok(text)
    ensures RowOf(t, k, plain).Err? ==> RowsText(t, plain, RowCount(t)) == Err(RowOf(t, k, plain).error)
    ensures RowOf(t, k, plain).Ok? ==>
      |RowOf(t, k, plain).value| > 0 &&
      RowsText(t, plain, k + 1) == Ok(text + (Joined(RowOf(t, k, plain).value, ",") + " \n"))
  {
    if RowOf(t, k, plain).Err? {
      FailedRowEnds(t, plain, k, RowCount(t));
    } else {
      RowNotEmpty(t, k, plain);
      RowsTextStep(t, plain, k, text, RowOf(t, k, plain).value);
    }
  }

  /** One turn of the rows loop: the text with the next row's line, or the error that ends the export. */
  method NextLine(it: RowIterator, plain: real -> string, ghost t: Table, text: string) returns (r: Result<string, StatsError>)
    requires it.stats.Valid() && it.stats.Snapshot() == t && it.rowIdx < RowCount(t)
    requires RowsText(t, plain, it.rowIdx) == Ok(text)
    modifies it
    ensures it.rowIdx == old(it.rowIdx) + 1
    ensures r.Ok? ==> RowsText(t, plain, it.rowIdx) == r
    ensures r.Err? ==> RowsText(t, plain, RowCount(t)) == r
  {
    RowsTextNext(t, plain, it.rowIdx, text);
    var row := it.Next(plain);
    if row.Err? {
      return Err(row.error);
    }
    var line := Join(row.value, ",");
    r := Ok(text + (line.value + " \n"));
  }

  /** The rows of export(): a line appended to the text for every row the iterator yields. */
  method RowLines(stat: Statistics, plain: real -> string) returns (r: Result<string, StatsError>)
    requires stat.Valid()
    ensures r == RowsText(stat.Snapshot(), plain, RowCount(stat.Snapshot()))
  {
    ghost var t := stat.Snapshot();
    var text := "";
    var it := new RowIterator(stat);
    assert RowsText(t, plain, 0) == Ok("");
    while it.HasNext()
      invariant it.stats == stat && stat.Snapshot() == t && stat.Valid()
      invariant it.rowIdx <= RowCount(t)
      invariant RowsText(t, plain, it.rowIdx) == Ok(text)
      decreases RowCount(t) - it.rowIdx
    {
      var next := NextLine(it, plain, t, text);
      if next.Err? {
        return next;
      }
      text := next.value;
    }
    assert it.rowIdx == RowCount(t);
    r := Ok(text);
  }

  /** export(): the header line, then a line per row; no field at all makes the join of the header fail. */
  method Export(stat: Statistics, plain: real -> string) returns (r: Result<string, StatsError>)
    requires stat.Valid()
    ensures r == CsvOf(stat.Snapshot(), plain)
  {
    var fields := stat.GetFields();
    var h := Header(fields);
    if h.None? {
      return Err(IndexOutOfRange);
    }
    CsvOfParts(stat.Snapshot(), plain);
    var rows := RowLines(stat, plain);
    r := Appended(h.value, rows);
  }

  // ---------------------------------------------------------------- lines

  /** The number of line ends in a text. */
  function Newlines(s: string): nat {
    if |s| == 0 then 0 else Newlines(s[..|s| - 1]) + (if s[|s| - 1] == '\n' then 1 else 0)
  }

  lemma {:induction false} NewlinesAppend(a: string, b: string)
    ensures Newlines(a + b) == Newlines(a) + Newlines(b)
  {
    if |b| > 0 {
      assert (a + b)[..|a + b| - 1] == a + b[..|b| - 1];
      assert (a + b)[|a + b| - 1] == b[|b| - 1];
      NewlinesAppend(a, b[..|b| - 1]);
    } else {
      assert a + b == a;
    }
  }

  lemma {:induction false} NoNewlines(s: string)
    requires '\n' !in s
    ensures Newlines(s) == 0
  {
    if |s| > 0 {
      assert s[|s| - 1] in s;
      assert forall c :: c in s[..|s| - 1] ==> c in s;
      NoNewlines(s[..|s| - 1]);
    }
  }

  lemma {:induction false} JoinedNoNewline(a: seq<string>, sep: string)
    requires |a| > 0 && '\n' !in sep && forall k :: 0 <= k < |a| ==> '\n' !in a[k]
    ensures '\n' !in Joined(a, sep)
  {
    if |a| > 1 {
      JoinedNoNewline(a[..|a| - 1], sep);
      assert a[|a| - 1] == a[|a| - 1];
    }
  }

  /** No value of a row has a line end in it: no string value has one and none is written with one. */
  ghost predicate SingleLineCells(t: Table, plain: real -> string) {
    (forall c, k :: c in t.stringValues && 0 <= k < |t.stringValues[c]| ==> '\n' !in t.stringValues[c][k]) &&
    (forall x :: '\n' !in plain(x))
  }

  lemma PlainSingleLine(t: Table, plain: real -> string, x: real)
    requires SingleLineCells(t, plain)
    ensures '\n' !in plain(x)
  {
  }

  lemma RowSingleLine(t: Table, i: int, plain: real -> string)
    requires SingleLineCells(t, plain) && RowOf(t, i, plain).Ok?
    ensures forall k :: 0 <= k < |RowOf(t, i, plain).value| ==> '\n' !in RowOf(t, i, plain).value[k]
  {
    RowMatchesFields(t, i, plain);
    var row := RowOf(t, i, plain).value;
    var n := |t.stringColumns|;
    forall k | 0 <= k < |row|
      ensures '\n' !in row[k]
    {
      if k < n {
        assert t.stringColumns[k] in t.stringValues && row[k] == t.stringValues[t.stringColumns[k]][i];
        assert '\n' !in t.stringValues[t.stringColumns[k]][i];
      } else {
        assert row[n + (k - n)] == row[k];
        assert row[k] == plain(t.numericValues[t.numericColumns[k - n]][i]);
        PlainSingleLine(t, plain, t.numericValues[t.numericColumns[k - n]][i]);
      }
    }
  }

  /** The text of n rows that were all read: the text of the first n - 1, then the line of the last. */
  lemma RowsTextLast(t: Table, plain: real -> string, n: nat)
    requires n > 0 && RowsText(t, plain, n).Ok?
    ensures RowsText(t, plain, n - 1).Ok? && RowOf(t, n - 1, plain).Ok? && |RowOf(t, n - 1, plain).value| > 0
    ensures RowsText(t, plain, n).value == RowsText(t, plain, n - 1).value + (Joined(RowOf(t, n - 1, plain).value, ",") + " \n")
  {
  }

  /** The line of a row whose values have no line end in them ends the only line. */
  lemma RowLineNewlines(row: seq<string>)
    requires |row| > 0 && forall k :: 0 <= k < |row| ==> '\n' !in row[k]
    ensures Newlines(Joined(row, ",") + " \n") == 1
  {
    JoinedNoNewline(row, ",");
    var j := Joined(row, ",");
    NoNewlines(j);
    NewlinesAppend(j, " \n");
    assert Newlines(" \n") == 1 by {
      assert " \n"[..1] == " " && " "[..0] == "";
    }
  }

  /** The line of a row read from a table without line ends in its values is one line. */
  lemma RowOfLineNewlines(t: Table, i: int, plain: real -> string)
    requires SingleLineCells(t, plain) && RowOf(t, i, plain).Ok? && |RowOf(t, i, plain).value| > 0
    ensures Newlines(Joined(RowOf(t, i, plain).value, ",") + " \n") == 1
  {
    RowSingleLine(t, i, plain);
    RowLineNewlines(RowOf(t, i, plain).value);
  }

  /** One more row read adds one line to the text. */
  lemma RowsTextNewlinesStep(t: Table, plain: real -> string, n: nat)
    requires n > 0 && SingleLineCells(t, plain) && RowsText(t, plain, n).Ok?
    requires RowsText(t, plain, n - 1).Ok? && Newlines(RowsText(t, plain, n - 1).value) == n - 1
    ensures Newlines(RowsText(t, plain, n).value) == n
  {
    RowsTextLast(t, plain, n);
    RowOfLineNewlines(t, n - 1, plain);
    NewlinesAppend(RowsText(t, plain, n - 1).value, Joined(RowOf(t, n - 1, plain).value, ",") + " \n");
  }

  lemma {:induction false} RowsTextNewlines(t: Table, plain: real -> string, n: nat)
    requires SingleLineCells(t, plain) && RowsText(t, plain, n).Ok?
    ensures Newlines(RowsText(t, plain, n).value) == n
  {
    if n > 0 {
      RowsTextLast(t, plain, n);
      RowsTextNewlines(t, plain, n - 1);
      RowsTextNewlinesStep(t, plain, n);
    }
  }

  /** A field list whose names have no line end in them. */
  predicate SingleLineFields(fields: seq<string>) {
    forall k :: 0 <= k < |fields| ==> '\n' !in fields[k]
  }

  /** The quoted header is a single line when no field name has a line end in it. */
  lemma HeaderSingleLine(fields: seq<string>)
    requires |fields| > 0 && SingleLineFields(fields)
    ensures '\n' !in Joined(Quoted(fields), ",")
  {
    var q := Quoted(fields);
    forall k | 0 <= k < |q|
      ensures '\n' !in q[k]
    {
      assert q[k] == "\"" + fields[k] + "\"";
    }
    JoinedNoNewline(q, ",");
  }

  /**
   * When no field and no value has a line end in it, an export has one line
   * for the header and one per row the iterator yields.
   */
  lemma ExportLines(t: Table, plain: real -> string)
    requires WellFormed(t) && CsvOf(t, plain).Ok?
    requires SingleLineFields(Fields(t)) && SingleLineCells(t, plain)
    ensures Newlines(CsvOf(t, plain).value) == 1 + RowCount(t)
  {
    HeaderSingleLine(Fields(t));
    var h := Joined(Quoted(Fields(t)), ",");
    NoNewlines(h);
    NewlinesAppend(h, "\n");
    assert Newlines("\n") == 1 by {
      assert "\n"[..0] == "";
    }
    RowsTextNewlines(t, plain, RowCount(t));
    NewlinesAppend(h + "\n", RowsText(t, plain, RowCount(t)).value);
  }

  /** The first line of an export is the quoted fields joined by commas. */
  lemma ExportFirstLine(t: Table, plain: real -> string)
    requires WellFormed(t) && CsvOf(t, plain).Ok? && SingleLineFields(Fields(t))
    ensures var text := CsvOf(t, plain).value; var k := Find(text, "\n");
      k < |text| && text[..k] == Joined(Quoted(Fields(t)), ",")
  {
    HeaderSingleLine(Fields(t));
    var h := Joined(Quoted(Fields(t)), ",");
    var body := RowsText(t, plain, RowCount(t)).value;
    assert CsvOf(t, plain).value == h + ['\n'] + body;
    FindAfterPrefix(h, '\n', body);
    assert (h + ['\n'] + body)[..|h|] == h;
  }

  lemma {:induction false} RectangularText(t: Table, n: nat, plain: real -> string, m: nat)
    requires WellFormed(t) && Rectangular(t, n) && |Fields(t)| > 0 && m <= n
    ensures RowsText(t, plain, m).Ok?
  {
    if m > 0 {
      RectangularText(t, n, plain, m - 1);
      RectangularRows(t, n, plain);
    }
  }

  /** A table with a field whose columns all hold n values exports without failure, with n row lines. */
  lemma RectangularExport(t: Table, n: nat, plain: real -> string)
    requires WellFormed(t) && Rectangular(t, n) && |Fields(t)| > 0
    ensures CsvOf(t, plain).Ok?
    ensures SingleLineFields(Fields(t)) && SingleLineCells(t, plain) ==> Newlines(CsvOf(t, plain).value) == 1 + n
  {
    RectangularRows(t, n, plain);
    RectangularText(t, n, plain, n);
    if SingleLineFields(Fields(t)) && SingleLineCells(t, plain) {
      ExportLines(t, plain);
    }
  }

  /** Values are written neither quoted nor escaped: a value with a comma reads as two values. */
  lemma CommaInValueIsAmbiguous()
    ensures RowLine(["a,b"]) == RowLine(["a", "b"])
  {
    assert ["a", "b"][..1] == ["a"];
    assert Joined(["a", "b"], ",") == "a" + "," + "b";
    assert "a" + "," + "b" == "a,b";
  }
}
