/** The CSV writer (analytics/export.service.ts) and, as its partner, a reader for the quoting rules of
    section 2 of RFC 4180 with LF as the record separator.
 */
module Csv {
  import opened Wrappers

  type Record = seq<string>

  // ---- the reader ----

  /** The cell being read, the record it belongs to, and the records already complete. */
  datatype Progress = Progress(records: seq<Record>, cells: Record, cell: string)

  function CloseCell(p: Progress): Progress {
    p.(cells := p.cells + [p.cell], cell := "")
  }

  function CloseRecord(p: Progress): Progress {
    Progress(p.records + [p.cells + [p.cell]], [], "")
  }

  /** At the start of a cell: it may be quoted. */
  function ReadCell(text: string, p: Progress): Option<seq<Record>>
    decreases |text|, 1
  {
    if text != "" && text[0] == '"' then ReadQuoted(text[1..], p) else ReadPlain(text, p)
  }

  /** Inside an unquoted cell, which may hold anything but a quote. */
  function ReadPlain(text: string, p: Progress): Option<seq<Record>>
    decreases |text|, 0
  {
    if text == "" then Some(CloseRecord(p).records)
    else if text[0] == ',' then ReadCell(text[1..], CloseCell(p))
    else if text[0] == '\n' then ReadCell(text[1..], CloseRecord(p))
    else if text[0] == '"' then None
    else ReadPlain(text[1..], p.(cell := p.cell + [text[0]]))
  }

  /** Inside a quoted cell: a doubled quote stands for one, a single one ends the cell. */
  function ReadQuoted(text: string, p: Progress): Option<seq<Record>>
    decreases |text|, 0
  {
    if text == "" then None
    else if text[0] != '"' then ReadQuoted(text[1..], p.(cell := p.cell + [text[0]]))
    else if |text| == 1 then Some(CloseRecord(p).records)
    else if text[1] == '"' then ReadQuoted(text[2..], p.(cell := p.cell + ['"']))
    else if text[1] == ',' then ReadCell(text[2..], CloseCell(p))
    else if text[1] == '\n' then ReadCell(text[2..], CloseRecord(p))
    else None
  }

  function Parse(text: string): Option<seq<Record>> {
    ReadCell(text, Progress([], [], ""))
  }

  // ---- the writer ----

  predicate NeedsQuotes(v: string) {
    '"' in v || ',' in v || '\n' in v
  }

  function DoubleQuotes(v: string): string {
    if v == "" then ""
    else (if v[0] == '"' then "\"\"" else [v[0]]) + DoubleQuotes(v[1..])
  }

  function CsvCell(v: string): string {
    if NeedsQuotes(v) then "\"" + DoubleQuotes(v) + "\"" else v
  }

  /** `strings.join(separator)` */
  function Join(strings: seq<string>, separator: char): string {
    if strings == [] then ""
    else if |strings| == 1 then strings[0]
    else strings[0] + [separator] + Join(strings[1..], separator)
  }

  function CsvCells(cells: seq<string>): seq<string> {
    if cells == [] then [] else [CsvCell(cells[0])] + CsvCells(cells[1..])
  }

  function CsvLine(cells: Record): string {
    Join(CsvCells(cells), ',')
  }

  function CsvLines(rows: seq<Record>): seq<string> {
    if rows == [] then [] else [CsvLine(rows[0])] + CsvLines(rows[1..])
  }

  // ---- reading back ----

  lemma {:induction false} PlainReadsBack(v: string, rest: string, p: Progress)
    requires !NeedsQuotes(v)
    ensures ReadPlain(v + rest, p) == ReadPlain(rest, p.(cell := p.cell + v))
  {
    if v == "" {
      assert v + rest == rest && p.cell + v == p.cell;
    } else {
      assert (v + rest)[0] == v[0] && (v + rest)[1..] == v[1..] + rest;
      assert v[0] in v;
      assert forall c | c in v[1..] :: c in v;
      PlainReadsBack(v[1..], rest, p.(cell := p.cell + [v[0]]));
      assert p.cell + [v[0]] + v[1..] == p.cell + v;
    }
  }

  lemma {:induction false} QuotedReadsBack(v: string, rest: string, p: Progress)
    requires rest != "" && rest[0] == '"' && (|rest| > 1 ==> rest[1] != '"')
    ensures ReadQuoted(DoubleQuotes(v) + rest, p) == ReadQuoted(rest, p.(cell := p.cell + v))
  {
    if v == "" {
      assert DoubleQuotes(v) + rest == rest && p.cell + v == p.cell;
    } else {
      var tail := DoubleQuotes(v[1..]) + rest;
      QuotedReadsBack(v[1..], rest, p.(cell := p.cell + [v[0]]));
      assert p.cell + [v[0]] + v[1..] == p.cell + v;
      FirstCharDoubled(v, rest);
      if v[0] == '"' {
        ReadsDoubledQuote(tail, p);
      } else {
        ReadsQuotedChar(v[0], tail, p);
      }
    }
  }

  lemma FirstCharDoubled(v: string, rest: string)
    requires v != ""
    ensures DoubleQuotes(v) + rest == (if v[0] == '"' then ['"', '"'] else [v[0]]) + (DoubleQuotes(v[1..]) + rest)
  {
  }

  lemma ReadsDoubledQuote(tail: string, p: Progress)
    ensures ReadQuoted(['"', '"'] + tail, p) == ReadQuoted(tail, p.(cell := p.cell + ['"']))
  {
  }

  lemma ReadsQuotedChar(c: char, tail: string, p: Progress)
    requires c != '"'
    ensures ReadQuoted([c] + tail, p) == ReadQuoted(tail, p.(cell := p.cell + [c]))
  {
  }

  /** What may follow a cell: a separator or the end of the file. */
  predicate EndsCell(rest: string) {
    rest == "" || rest[0] == ',' || rest[0] == '\n'
  }

  /** A written cell, whatever is in it, is read as that cell. */
  lemma CellReadsBack(v: string, rest: string, records: seq<Record>, cells: Record)
    requires EndsCell(rest)
    ensures ReadCell(CsvCell(v) + rest, Progress(records, cells, "")) == ReadPlain(rest, Progress(records, cells, v))
  {
    var p := Progress(records, cells, "");
    assert "" + v == v;
    if NeedsQuotes(v) {
      var text := CsvCell(v) + rest;
      assert text[1..] == DoubleQuotes(v) + ("\"" + rest);
      QuotedReadsBack(v, "\"" + rest, p);
      assert rest != "" ==> ("\"" + rest)[2..] == rest[1..];
    } else {
      if v != "" {
        assert v[0] in v && (v + rest)[0] == v[0];
      } else {
        assert v + rest == rest;
      }
      PlainReadsBack(v, rest, p);
    }
  }

  /** What may follow a record. */
  predicate EndsRecord(rest: string) {
    rest == "" || rest[0] == '\n'
  }

  lemma LineSplits(row: Record, rest: string)
    requires |row| > 1
    ensures CsvLine(row) + rest == CsvCell(row[0]) + ("," + (CsvLine(row[1..]) + rest))
    ensures ("," + (CsvLine(row[1..]) + rest))[1..] == CsvLine(row[1..]) + rest
  {
  }

  /** How reading goes on once a record has ended. */
  function AfterRecord(rest: string, records: seq<Record>): Option<seq<Record>> {
    if rest == "" then Some(records) else ReadCell(rest[1..], Progress(records, [], ""))
  }

  lemma MiddleCellReadsBack(v: string, more: string, records: seq<Record>, cells: Record)
    requires more != "" && more[0] == ','
    ensures ReadCell(CsvCell(v) + more, Progress(records, cells, "")) ==
      ReadCell(more[1..], Progress(records, cells + [v], ""))
  {
    CellReadsBack(v, more, records, cells);
  }

  lemma LastCellReadsBack(v: string, rest: string, records: seq<Record>, cells: Record)
    requires EndsRecord(rest)
    ensures ReadCell(CsvCell(v) + rest, Progress(records, cells, "")) == AfterRecord(rest, records + [cells + [v]])
  {
    CellReadsBack(v, rest, records, cells);
  }

  lemma FirstCellReadsBack(row: Record, rest: string, records: seq<Record>, cells: Record)
    requires |row| > 1
    ensures ReadCell(CsvLine(row) + rest, Progress(records, cells, "")) ==
      ReadCell(CsvLine(row[1..]) + rest, Progress(records, cells + [row[0]], ""))
  {
    LineSplits(row, rest);
    MiddleCellReadsBack(row[0], "," + (CsvLine(row[1..]) + rest), records, cells);
  }

  lemma FirstCellOf(cells: Record, row: Record)
    requires row != []
    ensures cells + [row[0]] + row[1..] == cells + row
    ensures |row| == 1 ==> cells + [row[0]] == cells + row
  {
  }

  lemma {:induction false} LineReadsBack(row: Record, rest: string, records: seq<Record>, cells: Record)
    requires row != [] && EndsRecord(rest)
    ensures ReadCell(CsvLine(row) + rest, Progress(records, cells, "")) == AfterRecord(rest, records + [cells + row])
    decreases |row|
  {
    if |row| == 1 {
      LineOfOne(row);
      LastCellReadsBack(row[0], rest, records, cells);
      FirstCellOf(cells, row);
    } else {
      FirstCellReadsBack(row, rest, records, cells);
      LineReadsBack(row[1..], rest, records, cells + [row[0]]);
      FirstCellOf(cells, row);
    }
  }

  lemma LineOfOne(row: Record)
    requires |row| == 1
    ensures CsvLine(row) == CsvCell(row[0])
  {
    assert CsvCells(row) == [CsvCell(row[0])];
  }

  lemma {:induction false} LinesReadBack(rows: seq<Record>, records: seq<Record>)
    requires rows != [] && forall row | row in rows :: row != []
    ensures ReadCell(Join(CsvLines(rows), '\n'), Progress(records, [], "")) == Some(records + rows)
    decreases |rows|
  {
    assert rows[0] in rows;
    if |rows| == 1 {
      assert CsvLine(rows[0]) + "" == CsvLine(rows[0]);
      LineReadsBack(rows[0], "", records, []);
      assert [] + rows[0] == rows[0];
      assert records + [rows[0]] == records + rows;
    } else {
      var more := "\n" + Join(CsvLines(rows[1..]), '\n');
      assert Join(CsvLines(rows), '\n') == CsvLine(rows[0]) + more;
      LineReadsBack(rows[0], more, records, []);
      assert more[1..] == Join(CsvLines(rows[1..]), '\n');
      assert forall row | row in rows[1..] :: row in rows;
      LinesReadBack(rows[1..], records + [rows[0]]);
      assert [] + rows[0] == rows[0];
      assert records + [rows[0]] + rows[1..] == records + rows;
    }
  }

  /** Round trip: any non-empty list of non-empty rows, of any strings, is recovered from its lines. */
  lemma CsvRoundTrip(rows: seq<Record>)
    requires rows != [] && forall row | row in rows :: row != []
    ensures Parse(Join(CsvLines(rows), '\n')) == Some(rows)
  {
    LinesReadBack(rows, []);
    assert [] + rows == rows;
  }

  // ---- text that the writer emits without quoting: the title, the headings and the dates ----

  predicate IsPrefix<T(==)>(a: seq<T>, b: seq<T>) {
    |a| <= |b| && b[..|a|] == a
  }

  /** Whatever has been read stays read: records, then cells, then the characters of the present cell. */
  predicate Continues(p: Progress, read: Option<seq<Record>>) {
    read.Some? ==>
      && |read.value| > |p.records| && IsPrefix(p.records, read.value)
      && |read.value[|p.records|]| > |p.cells| && IsPrefix(p.cells, read.value[|p.records|])
      && IsPrefix(p.cell, read.value[|p.records|][|p.cells|])
  }

  lemma ContinuesAfterChar(p: Progress, c: char, read: Option<seq<Record>>)
    requires Continues(p.(cell := p.cell + [c]), read)
    ensures Continues(p, read)
  {
  }

  /** Once a cell is closed its text is final. */
  lemma ContinuesAfterCell(p: Progress, read: Option<seq<Record>>)
    requires Continues(CloseCell(p), read) || Continues(CloseRecord(p), read)
    ensures Continues(p, read)
    ensures read.Some? ==> read.value[|p.records|][|p.cells|] == p.cell
  {
  }

  lemma {:induction false} ReadCellContinues(text: string, p: Progress)
    requires p.cell == ""
    ensures Continues(p, ReadCell(text, p))
    decreases |text|, 1
  {
    if text != "" && text[0] == '"' {
      ReadQuotedContinues(text[1..], p);
    } else {
      ReadPlainContinues(text, p);
    }
  }

  lemma {:induction false} ReadPlainContinues(text: string, p: Progress)
    ensures Continues(p, ReadPlain(text, p))
    decreases |text|, 0
  {
    if text == "" {
    } else if text[0] == ',' {
      ReadCellContinues(text[1..], CloseCell(p));
      ContinuesAfterCell(p, ReadPlain(text, p));
    } else if text[0] == '\n' {
      ReadCellContinues(text[1..], CloseRecord(p));
      ContinuesAfterCell(p, ReadPlain(text, p));
    } else if text[0] != '"' {
      ReadPlainContinues(text[1..], p.(cell := p.cell + [text[0]]));
      ContinuesAfterChar(p, text[0], ReadPlain(text, p));
    }
  }

  lemma {:induction false} ReadQuotedContinues(text: string, p: Progress)
    ensures Continues(p, ReadQuoted(text, p))
    decreases |text|, 0
  {
    if text == "" || text == "\"" {
    } else if text[0] != '"' {
      ReadQuotedContinues(text[1..], p.(cell := p.cell + [text[0]]));
      ContinuesAfterChar(p, text[0], ReadQuoted(text, p));
    } else if text[1] == '"' {
      ReadQuotedContinues(text[2..], p.(cell := p.cell + ['"']));
      ContinuesAfterChar(p, '"', ReadQuoted(text, p));
    } else if text[1] == ',' {
      ReadCellContinues(text[2..], CloseCell(p));
      ContinuesAfterCell(p, ReadQuoted(text, p));
    } else if text[1] == '\n' {
      ReadCellContinues(text[2..], CloseRecord(p));
      ContinuesAfterCell(p, ReadQuoted(text, p));
    }
  }

  /** Does the reading give back `f` as the cell it was at? */
  predicate Gives(p: Progress, read: Option<seq<Record>>, f: string) {
    && read.Some?
    && |read.value| > |p.records| && |read.value[|p.records|]| > |p.cells|
    && read.value[|p.records|][|p.cells|] == f
  }

  /** Text with a comma or a line break, unquoted, is cut short there; with a quote it is no CSV at all. */
  lemma {:induction false} PlainTextIsCut(f: string, rest: string, p: Progress)
    requires NeedsQuotes(f)
    ensures !Gives(p, ReadPlain(f + rest, p), p.cell + f)
  {
    var text := f + rest;
    assert f != "" && text[0] == f[0] && text[1..] == f[1..] + rest;
    if f[0] == ',' {
      ReadCellContinues(text[1..], CloseCell(p));
      ContinuesAfterCell(p, ReadPlain(text, p));
    } else if f[0] == '\n' {
      ReadCellContinues(text[1..], CloseRecord(p));
      ContinuesAfterCell(p, ReadPlain(text, p));
    } else if f[0] != '"' {
      assert forall c | c in f && c != f[0] :: c in f[1..];
      PlainTextIsCut(f[1..], rest, p.(cell := p.cell + [f[0]]));
      assert p.cell + [f[0]] + f[1..] == p.cell + f;
    }
  }

  /** `f` begins with at least `n` quotes. */
  predicate BeginsWithQuotes(f: string, n: nat) {
    n <= |f| && forall i | 0 <= i < n :: f[i] == '"'
  }

  /** Text that itself begins with n quotes, taken for a quoted cell, yields about half as many: never itself.
      Here k quotes have been read and exactly j are still to come. */
  lemma {:induction false} QuotesAreHalved(f: string, n: nat, text: string, k: nat, j: nat, p: Progress)
    requires BeginsWithQuotes(f, n) && 2 * k + 1 + j == n
    requires BeginsWithQuotes(p.cell, k) && |p.cell| == k
    requires BeginsWithQuotes(text, j) && (j < |text| ==> text[j] != '"')
    ensures !Gives(p, ReadQuoted(text, p), f)
    decreases j
  {
    if text == "" {
    } else if j == 0 {
      var longer := p.(cell := p.cell + [text[0]]);
      ReadQuotedContinues(text[1..], longer);
      if ReadQuoted(text, p).Some? {
        var got := ReadQuoted(text, p).value[|p.records|][|p.cells|];
        assert got[..k + 1][k] == longer.cell[k] == text[0];
      }
    } else if j == 1 {
      if |text| > 1 && text[1] == ',' {
        ReadCellContinues(text[2..], CloseCell(p));
        ContinuesAfterCell(p, ReadQuoted(text, p));
      } else if |text| > 1 && text[1] == '\n' {
        ReadCellContinues(text[2..], CloseRecord(p));
        ContinuesAfterCell(p, ReadQuoted(text, p));
      }
    } else {
      QuotesAreHalved(f, n, text[2..], k + 1, j - 2, p.(cell := p.cell + ['"']));
    }
  }

  function LeadingQuotes(f: string): (n: nat)
    ensures BeginsWithQuotes(f, n) && (n < |f| ==> f[n] != '"')
  {
    if f == "" || f[0] != '"' then 0 else 1 + LeadingQuotes(f[1..])
  }

  lemma RawCellIsLost(f: string, rest: string, records: seq<Record>, cells: Record)
    requires NeedsQuotes(f) && EndsCell(rest)
    ensures !Gives(Progress(records, cells, ""), ReadCell(f + rest, Progress(records, cells, "")), f)
  {
    var p := Progress(records, cells, "");
    var text := f + rest;
    assert f != "" && text[0] == f[0];
    if f[0] == '"' {
      var n := LeadingQuotes(f);
      assert text[1..] == f[1..] + rest;
      QuotesAreHalved(f, n, text[1..], 0, n - 1, p);
    } else {
      PlainTextIsCut(f, rest, p);
      assert "" + f == f;
    }
  }

  // ---- the whole file ----

  /** Table lines have their cells quoted where needed, raw lines do not. */
  datatype Line = Table(cells: Record) | Raw(cells: Record)

  function LineText(line: Line): string {
    if line.Table? then CsvLine(line.cells) else Join(line.cells, ',')
  }

  function Texts(lines: seq<Line>): seq<string> {
    if lines == [] then [] else [LineText(lines[0])] + Texts(lines[1..])
  }

  function Meant(lines: seq<Line>): seq<Record> {
    if lines == [] then [] else [lines[0].cells] + Meant(lines[1..])
  }

  predicate Clean(line: Line) {
    line.Raw? ==> forall f | f in line.cells :: !NeedsQuotes(f)
  }

  lemma {:induction false} CleanLineIsQuotedLine(cells: Record)
    requires forall f | f in cells :: !NeedsQuotes(f)
    ensures CsvCells(cells) == cells
  {
    if cells != [] {
      assert cells[0] in cells && forall f | f in cells[1..] :: f in cells;
      CleanLineIsQuotedLine(cells[1..]);
    }
  }

  lemma RawFieldsSplit(fields: Record, rest: string)
    requires |fields| > 1
    ensures Join(fields, ',') + rest == fields[0] + ("," + (Join(fields[1..], ',') + rest))
    ensures ("," + (Join(fields[1..], ',') + rest))[1..] == Join(fields[1..], ',') + rest
  {
  }

  lemma FirstRawFieldIsLost(fields: Record, more: string, records: seq<Record>, cells: Record)
    requires fields != [] && NeedsQuotes(fields[0]) && EndsCell(more)
    ensures var read := ReadCell(fields[0] + more, Progress(records, cells, ""));
      !(read.Some? && |read.value| > |records| && read.value[|records|] == cells + fields)
  {
    RawCellIsLost(fields[0], more, records, cells);
    assert (cells + fields)[|cells|] == fields[0];
  }

  lemma {:induction false} RawLineIsLost(fields: Record, rest: string, records: seq<Record>, cells: Record)
    requires !Clean(Raw(fields)) && EndsRecord(rest)
    ensures var read := ReadCell(Join(fields, ',') + rest, Progress(records, cells, ""));
      !(read.Some? && |read.value| > |records| && read.value[|records|] == cells + fields)
    decreases |fields|
  {
    if |fields| == 1 {
      assert Join(fields, ',') == fields[0] && fields == [fields[0]];
      FirstRawFieldIsLost(fields, rest, records, cells);
    } else {
      var more := "," + (Join(fields[1..], ',') + rest);
      RawFieldsSplit(fields, rest);
      if NeedsQuotes(fields[0]) {
        FirstRawFieldIsLost(fields, more, records, cells);
      } else {
        MiddleCellReadsBack(fields[0], more, records, cells);
        assert fields == [fields[0]] + fields[1..];
        RawLineIsLost(fields[1..], rest, records, cells + [fields[0]]);
        FirstCellOf(cells, fields);
      }
    }
  }

  ghost predicate AllClean(lines: seq<Line>) {
    forall l | l in lines :: Clean(l)
  }

  lemma ConcatenationIsClean(a: seq<Line>, b: seq<Line>)
    ensures AllClean(a + b) <==> AllClean(a) && AllClean(b)
  {
  }

  lemma CleanLineReadsBack(line: Line, rest: string, records: seq<Record>)
    requires Clean(line) && line.cells != [] && EndsRecord(rest)
    ensures ReadCell(LineText(line) + rest, Progress(records, [], "")) ==
      if rest == "" then Some(records + [line.cells])
      else ReadCell(rest[1..], Progress(records + [line.cells], [], ""))
  {
    if line.Raw? {
      CleanLineIsQuotedLine(line.cells);
    }
    LineReadsBack(line.cells, rest, records, []);
    assert [] + line.cells == line.cells;
  }

  lemma {:induction false} FileReadsBack(lines: seq<Line>, records: seq<Record>)
    requires lines != [] && forall l | l in lines :: l.cells != []
    ensures ReadCell(Join(Texts(lines), '\n'), Progress(records, [], "")) == Some(records + Meant(lines))
      <==> AllClean(lines)
    decreases |lines|
  {
    var l, more := lines[0], lines[1..];
    var rest := if more == [] then "" else "\n" + Join(Texts(more), '\n');
    assert l in lines && lines == [l] + more;
    assert Join(Texts(lines), '\n') == LineText(l) + rest;
    assert records + Meant(lines) == records + [l.cells] + Meant(more);
    ConcatenationIsClean([l], more);
    if !Clean(l) {
      RawLineIsLost(l.cells, rest, records, []);
      assert [] + l.cells == l.cells && (records + Meant(lines))[|records|] == l.cells;
      assert l in [l];
    } else {
      CleanLineReadsBack(l, rest, records);
      assert AllClean([l]);
      if more != [] {
        assert rest[1..] == Join(Texts(more), '\n');
        FileReadsBack(more, records + [l.cells]);
      } else {
        assert Meant(more) == [] && records + [l.cells] + [] == records + [l.cells];
      }
    }
  }

  datatype Section = Section(heading: string, columns: Record, rows: seq<Record>)

  datatype Report = Report(title: string, generatedAt: string, from: string, to: string, sections: seq<Section>)

  /** A row without cells comes out as an empty line, which is a record of one empty cell. */
  function Shown(row: Record): Record {
    if row == [] then [""] else row
  }

  lemma ShownText(row: Record)
    ensures LineText(Table(Shown(row))) == CsvLine(row)
  {
    if row == [] {
      assert CsvCells([""]) == [CsvCell("")] + CsvCells([]);
    }
  }

  function RowLines(rows: seq<Record>): seq<Line> {
    if rows == [] then [] else RowLines(rows[..|rows| - 1]) + [Table(Shown(rows[|rows| - 1]))]
  }

  function SectionLines(section: Section): seq<Line> {
    [Raw([section.heading]), Table(Shown(section.columns))] + RowLines(section.rows) + [Raw([""])]
  }

  function SectionsLines(sections: seq<Section>): seq<Line> {
    if sections == [] then []
    else SectionsLines(sections[..|sections| - 1]) + SectionLines(sections[|sections| - 1])
  }

  function FileLines(report: Report): seq<Line> {
    [Raw([report.title]), Raw(["Generated", report.generatedAt]), Raw(["Range", report.from, report.to]), Raw([""])]
    + SectionsLines(report.sections)
  }

  lemma {:induction false} TextsOfConcatenation(a: seq<Line>, b: seq<Line>)
    ensures Texts(a + b) == Texts(a) + Texts(b)
  {
    if a == [] {
      assert a + b == b;
    } else {
      assert (a + b)[1..] == a[1..] + b;
      TextsOfConcatenation(a[1..], b);
    }
  }

  lemma {:induction false} CsvLinesOfConcatenation(a: seq<Record>, b: seq<Record>)
    ensures CsvLines(a + b) == CsvLines(a) + CsvLines(b)
  {
    if a == [] {
      assert a + b == b;
    } else {
      assert (a + b)[1..] == a[1..] + b;
      CsvLinesOfConcatenation(a[1..], b);
    }
  }

  lemma {:induction false} RowTexts(rows: seq<Record>)
    ensures Texts(RowLines(rows)) == CsvLines(rows)
  {
    if rows != [] {
      var n := |rows| - 1;
      RowTexts(rows[..n]);
      ShownText(rows[n]);
      TextsOfConcatenation(RowLines(rows[..n]), [Table(Shown(rows[n]))]);
      assert Texts([Table(Shown(rows[n]))]) == [CsvLine(rows[n])];
      CsvLinesOfConcatenation(rows[..n], [rows[n]]);
      assert CsvLines([rows[n]]) == [CsvLine(rows[n])] && rows[..n] + [rows[n]] == rows;
    }
  }

  method PushRows(lines: seq<string>, rows: seq<Record>) returns (pushed: seq<string>)
    ensures pushed == lines + CsvLines(rows)
  {
    pushed := lines;
    for r := 0 to |rows|
      invariant pushed == lines + CsvLines(rows[..r])
    {
      pushed := pushed + [CsvLine(rows[r])];
      CsvLinesOfConcatenation(rows[..r], [rows[r]]);
      assert CsvLines([rows[r]]) == [CsvLine(rows[r])] && rows[..r] + [rows[r]] == rows[..r + 1];
    }
    assert rows[..|rows|] == rows;
  }

  lemma TextsOfSection(section: Section)
    ensures Texts(SectionLines(section)) ==
      [section.heading, CsvLine(section.columns)] + CsvLines(section.rows) + [""]
  {
    var begun := [Raw([section.heading]), Table(Shown(section.columns))];
    ShownText(section.columns);
    RowTexts(section.rows);
    assert Texts(begun[1..]) == [CsvLine(section.columns)];
    assert Texts(begun) == [section.heading, CsvLine(section.columns)];
    TextsOfConcatenation(begun, RowLines(section.rows));
    TextsOfConcatenation(begun + RowLines(section.rows), [Raw([""])]);
  }

  method PushSection(lines: seq<string>, section: Section) returns (pushed: seq<string>)
    ensures pushed == lines + ([section.heading, CsvLine(section.columns)] + CsvLines(section.rows) + [""])
  {
    pushed := lines + [section.heading];
    pushed := pushed + [CsvLine(section.columns)];
    pushed := PushRows(pushed, section.rows);
    pushed := pushed + [""];
  }

  lemma TextsOfHead(report: Report)
    ensures Texts(FileLines(report.(sections := []))) ==
      [report.title, "Generated," + report.generatedAt, "Range," + report.from + "," + report.to, ""]
  {
    var a, b := [Raw([report.title])], [Raw(["Generated", report.generatedAt])];
    var c, d := [Raw(["Range", report.from, report.to])], [Raw([""])];
    assert FileLines(report.(sections := [])) == a + b + c + d;
    TextsOfConcatenation(a + b + c, d);
    TextsOfConcatenation(a + b, c);
    TextsOfConcatenation(a, b);
    assert ["Range", report.from, report.to][1..] == [report.from, report.to];
    assert Join([report.from, report.to], ',') == report.from + "," + report.to;
    assert "Range" + "," == "Range,";
    assert "Range" + "," + (report.from + "," + report.to) == "Range," + report.from + "," + report.to;
    assert "Generated" + "," == "Generated,";
    assert ["Generated", report.generatedAt][1..] == [report.generatedAt];
    assert Join(["Generated", report.generatedAt], ',') == "Generated" + "," + report.generatedAt;
    assert LineText(b[0]) == "Generated," + report.generatedAt;
    assert LineText(c[0]) == "Range," + report.from + "," + report.to;
  }

  lemma OneMoreSection(sections: seq<Section>, s: nat)
    requires s < |sections|
    ensures var section := sections[s];
      Texts(SectionsLines(sections[..s + 1])) == Texts(SectionsLines(sections[..s])) +
        ([section.heading, CsvLine(section.columns)] + CsvLines(section.rows) + [""])
  {
    assert sections[..s + 1][..s] == sections[..s];
    TextsOfSection(sections[s]);
    TextsOfConcatenation(SectionsLines(sections[..s]), SectionLines(sections[s]));
  }

  lemma {:induction false} RowsAreClean(rows: seq<Record>)
    ensures forall l | l in RowLines(rows) :: Clean(l) && l.cells != []
  {
    if rows != [] {
      RowsAreClean(rows[..|rows| - 1]);
    }
  }

  lemma RawLineIsClean(f: string)
    ensures Clean(Raw([f])) <==> !NeedsQuotes(f)
    ensures AllClean([Raw([f])]) <==> !NeedsQuotes(f)
  {
  }

  lemma SectionIsClean(section: Section)
    ensures forall l | l in SectionLines(section) :: l.cells != []
    ensures AllClean(SectionLines(section)) <==> !NeedsQuotes(section.heading)
  {
    RowsAreClean(section.rows);
    var head, tail := [Raw([section.heading])], [Table(Shown(section.columns))] + RowLines(section.rows) + [Raw([""])];
    assert SectionLines(section) == head + tail;
    RawLineIsClean(section.heading);
    RawLineIsClean("");
    assert AllClean(tail);
    ConcatenationIsClean(head, tail);
  }

  lemma {:induction false} SectionsAreClean(sections: seq<Section>)
    ensures forall l | l in SectionsLines(sections) :: l.cells != []
    ensures AllClean(SectionsLines(sections)) <==> forall s | s in sections :: !NeedsQuotes(s.heading)
  {
    if sections != [] {
      var n := |sections| - 1;
      var last := sections[n];
      SectionsAreClean(sections[..n]);
      assert sections == sections[..n] + [last];
      SectionIsClean(last);
      ConcatenationIsClean(SectionsLines(sections[..n]), SectionLines(last));
    }
  }

  lemma HeadIsClean(report: Report)
    ensures var head := FileLines(report.(sections := []));
      && (forall l | l in head :: l.cells != [])
      && (AllClean(head) <==>
            && !NeedsQuotes(report.title) && !NeedsQuotes(report.generatedAt)
            && !NeedsQuotes(report.from) && !NeedsQuotes(report.to))
  {
    var title, dates := [Raw([report.title])], [Raw(["Generated", report.generatedAt])];
    var range, gap := [Raw(["Range", report.from, report.to])], [Raw([""])];
    assert FileLines(report.(sections := [])) == title + dates + range + gap;
    RawLineIsClean(report.title);
    RawLineIsClean("");
    DatesAreClean(report);
    ConcatenationIsClean(title + dates + range, gap);
    ConcatenationIsClean(title + dates, range);
    ConcatenationIsClean(title, dates);
  }

  lemma OneLineIsClean(line: Line)
    ensures AllClean([line]) <==> Clean(line)
  {
  }

  lemma FieldsAreClean(a: string, b: string, c: string)
    ensures Clean(Raw([a, b])) <==> !NeedsQuotes(a) && !NeedsQuotes(b)
    ensures Clean(Raw([a, b, c])) <==> !NeedsQuotes(a) && !NeedsQuotes(b) && !NeedsQuotes(c)
  {
  }

  lemma DatesAreClean(report: Report)
    ensures AllClean([Raw(["Generated", report.generatedAt])]) <==> !NeedsQuotes(report.generatedAt)
    ensures AllClean([Raw(["Range", report.from, report.to])]) <==> !NeedsQuotes(report.from) && !NeedsQuotes(report.to)
  {
    WordsNeedNoQuotes();
    FieldsAreClean("Generated", report.generatedAt, "");
    FieldsAreClean("Range", report.from, report.to);
    OneLineIsClean(Raw(["Generated", report.generatedAt]));
    OneLineIsClean(Raw(["Range", report.from, report.to]));
  }

  lemma WordsNeedNoQuotes()
    ensures !NeedsQuotes("Generated") && !NeedsQuotes("Range")
  {
  }

  lemma FileIsClean(report: Report)
    ensures forall l | l in FileLines(report) :: l.cells != []
    ensures AllClean(FileLines(report)) <==>
      && !NeedsQuotes(report.title) && !NeedsQuotes(report.generatedAt)
      && !NeedsQuotes(report.from) && !NeedsQuotes(report.to)
      && forall s | s in report.sections :: !NeedsQuotes(s.heading)
  {
    var head := FileLines(report.(sections := []));
    HeadIsClean(report);
    SectionsAreClean(report.sections);
    assert FileLines(report) == head + SectionsLines(report.sections);
    ConcatenationIsClean(head, SectionsLines(report.sections));
  }

  // ---- what a report says, as records ----

  function SectionContents(section: Section): (records: seq<Record>)
    ensures |records| == |section.rows| + 3
  {
    [[section.heading], Shown(section.columns)]
    + seq(|section.rows|, k requires 0 <= k < |section.rows| => Shown(section.rows[k]))
    + [[""]]
  }

  function SectionsContents(sections: seq<Section>): seq<Record> {
    if sections == [] then []
    else SectionsContents(sections[..|sections| - 1]) + SectionContents(sections[|sections| - 1])
  }

  function HeadContents(report: Report): (records: seq<Record>)
    ensures |records| == 4
  {
    [[report.title], ["Generated", report.generatedAt], ["Range", report.from, report.to], [""]]
  }

  function ReportContents(report: Report): seq<Record> {
    HeadContents(report) + SectionsContents(report.sections)
  }

  /** Where the records of section `s` begin. */
  function SectionStart(sections: seq<Section>, s: nat): nat
    requires s <= |sections|
  {
    if s == 0 then 4 else SectionStart(sections, s - 1) + |sections[s - 1].rows| + 3
  }

  lemma {:induction false} ContentsEnd(sections: seq<Section>, n: nat)
    requires n <= |sections|
    ensures 4 + |SectionsContents(sections[..n])| == SectionStart(sections, n)
  {
    if n > 0 {
      ContentsEnd(sections, n - 1);
      assert sections[..n][..n - 1] == sections[..n - 1];
    }
  }

  lemma {:induction false} ContentsOfMore(sections: seq<Section>, n: nat) returns (rest: seq<Record>)
    requires n <= |sections|
    ensures SectionsContents(sections) == SectionsContents(sections[..n]) + rest
    decreases |sections| - n
  {
    if n == |sections| {
      rest := [];
      assert sections[..n] == sections && SectionsContents(sections) + [] == SectionsContents(sections);
    } else {
      var more := ContentsOfMore(sections, n + 1);
      rest := SectionContents(sections[n]) + more;
      assert sections[..n + 1][..n] == sections[..n];
      assert SectionsContents(sections[..n + 1]) == SectionsContents(sections[..n]) + SectionContents(sections[n]);
    }
  }

  lemma InPlace(head: seq<Record>, before: seq<Record>, section: seq<Record>, rest: seq<Record>, all: seq<Record>)
    requires all == head + (before + section + rest)
    ensures var start := |head| + |before|;
      start + |section| <= |all| && all[start..start + |section|] == section
  {
    assert all == (head + before) + section + rest;
  }

  lemma ContentsOfThree(sections: seq<Section>, s: nat) returns (rest: seq<Record>)
    requires s < |sections|
    ensures SectionsContents(sections) == SectionsContents(sections[..s]) + SectionContents(sections[s]) + rest
  {
    rest := ContentsOfMore(sections, s + 1);
    assert sections[..s + 1][..s] == sections[..s];
  }

  lemma SectionIsInPlace(report: Report, s: nat)
    requires s < |report.sections|
    ensures var section, start := report.sections[s], SectionStart(report.sections, s);
      && start + |section.rows| + 3 <= |ReportContents(report)|
      && ReportContents(report)[start..start + |section.rows| + 3] == SectionContents(section)
  {
    var head, before := HeadContents(report), SectionsContents(report.sections[..s]);
    var section := SectionContents(report.sections[s]);
    var rest := ContentsOfThree(report.sections, s);
    ContentsEnd(report.sections, s);
    InPlace(head, before, section, rest, ReportContents(report));
  }

  /** The file begins with the title, the dates and a blank, and has nothing after its last section. */
  lemma HeadByPlace(report: Report)
    ensures var records := ReportContents(report);
      && |records| == SectionStart(report.sections, |report.sections|) && |records| >= 4
      && records[0] == [report.title] && records[1] == ["Generated", report.generatedAt]
      && records[2] == ["Range", report.from, report.to] && records[3] == [""]
  {
    ContentsEnd(report.sections, |report.sections|);
    assert report.sections[..|report.sections|] == report.sections;
    assert forall i | 0 <= i < 4 :: ReportContents(report)[i] == HeadContents(report)[i];
  }

  /** Each section starts four records in, plus the rows and three for every section before; there are its heading,
      its columns, its rows in order, and a blank. */
  lemma SectionByPlace(report: Report, s: nat, k: nat)
    requires s < |report.sections|
    ensures var records, section, start := ReportContents(report), report.sections[s], SectionStart(report.sections, s);
      && start + |section.rows| + 3 <= |records|
      && records[start] == [section.heading]
      && records[start + 1] == (if section.columns == [] then [""] else section.columns)
      && (k < |section.rows| ==> records[start + 2 + k] == if section.rows[k] == [] then [""] else section.rows[k])
      && records[start + 2 + |section.rows|] == [""]
  {
    SectionIsInPlace(report, s);
    RecordsOfSlice(ReportContents(report), SectionStart(report.sections, s), report.sections[s], k);
  }

  lemma RecordsOfSlice(records: seq<Record>, start: nat, section: Section, k: nat)
    requires start + |section.rows| + 3 <= |records|
    requires records[start..start + |section.rows| + 3] == SectionContents(section)
    ensures records[start] == [section.heading] && records[start + 1] == Shown(section.columns)
    ensures k < |section.rows| ==> records[start + 2 + k] == Shown(section.rows[k])
    ensures records[start + 2 + |section.rows|] == [""]
  {
    var slice := records[start..start + |section.rows| + 3];
    assert slice[0] == records[start] && slice[1] == records[start + 1];
    assert slice[2 + |section.rows|] == records[start + 2 + |section.rows|];
    if k < |section.rows| {
      assert slice[2 + k] == records[start + 2 + k];
    }
  }

  // ---- the lines mean that ----

  lemma {:induction false} MeantOfConcatenation(a: seq<Line>, b: seq<Line>)
    ensures Meant(a + b) == Meant(a) + Meant(b)
  {
    if a == [] {
      assert a + b == b;
    } else {
      assert (a + b)[1..] == a[1..] + b;
      MeantOfConcatenation(a[1..], b);
    }
  }

  lemma {:induction false} RowsMeanTheRows(rows: seq<Record>)
    ensures Meant(RowLines(rows)) == seq(|rows|, k requires 0 <= k < |rows| => Shown(rows[k]))
  {
    if rows != [] {
      var n := |rows| - 1;
      RowsMeanTheRows(rows[..n]);
      MeantOfConcatenation(RowLines(rows[..n]), [Table(Shown(rows[n]))]);
      assert Meant([Table(Shown(rows[n]))]) == [Shown(rows[n])];
    }
  }

  lemma SectionMeansItsContents(section: Section)
    ensures Meant(SectionLines(section)) == SectionContents(section)
  {
    var heading, columns := [Raw([section.heading])], [Table(Shown(section.columns))];
    var rows, gap := RowLines(section.rows), [Raw([""])];
    RowsMeanTheRows(section.rows);
    assert SectionLines(section) == heading + columns + rows + gap;
    MeantOfConcatenation(heading + columns + rows, gap);
    MeantOfConcatenation(heading + columns, rows);
    MeantOfConcatenation(heading, columns);
    assert Meant(heading) == [[section.heading]] && Meant(columns) == [Shown(section.columns)] && Meant(gap) == [[""]];
  }

  lemma {:induction false} SectionsMeanTheirContents(sections: seq<Section>)
    ensures Meant(SectionsLines(sections)) == SectionsContents(sections)
  {
    if sections != [] {
      var n := |sections| - 1;
      SectionsMeanTheirContents(sections[..n]);
      SectionMeansItsContents(sections[n]);
      MeantOfConcatenation(SectionsLines(sections[..n]), SectionLines(sections[n]));
    }
  }

  lemma HeadMeansTitleAndDates(report: Report)
    ensures Meant(FileLines(report.(sections := []))) == HeadContents(report)
  {
    var a, b := [Raw([report.title])], [Raw(["Generated", report.generatedAt])];
    var c, d := [Raw(["Range", report.from, report.to])], [Raw([""])];
    assert FileLines(report.(sections := [])) == a + b + c + d;
    MeantOfConcatenation(a + b + c, d);
    MeantOfConcatenation(a + b, c);
    MeantOfConcatenation(a, b);
    assert Meant(a) == [a[0].cells] && Meant(b) == [b[0].cells] && Meant(c) == [c[0].cells] && Meant(d) == [d[0].cells];
  }

  lemma FileMeansTheReport(report: Report)
    ensures Meant(FileLines(report)) == ReportContents(report)
  {
    var head := FileLines(report.(sections := []));
    HeadMeansTitleAndDates(report);
    SectionsMeanTheirContents(report.sections);
    assert FileLines(report) == head + SectionsLines(report.sections);
    MeantOfConcatenation(head, SectionsLines(report.sections));
  }

  /** What is written without quoting needs none. */
  predicate RawPartsAreClean(report: Report) {
    && !NeedsQuotes(report.title) && !NeedsQuotes(report.generatedAt)
    && !NeedsQuotes(report.from) && !NeedsQuotes(report.to)
    && forall s | s in report.sections :: !NeedsQuotes(s.heading)
  }

  predicate ReadsAs(text: string, report: Report) {
    Parse(text) == Some(ReportContents(report))
  }

  function CsvText(report: Report): string {
    Join(Texts(FileLines(report)), '\n')
  }

  /** The exported text reads back as the report exactly when the parts that are written without quoting need none;
      what is in the tables does not matter. */
  lemma ExportReadsBackExactlyWhen(report: Report)
    ensures ReadsAs(CsvText(report), report) <==> RawPartsAreClean(report)
  {
    FileIsClean(report);
    FileMeansTheReport(report);
    FileReadsBack(FileLines(report), []);
    assert [] + Meant(FileLines(report)) == Meant(FileLines(report));
  }

  lemma Associate(a: seq<string>, b: seq<string>, c: seq<string>)
    ensures a + b + c == a + (b + c)
  {
  }

  method PushSections(lines: seq<string>, sections: seq<Section>) returns (pushed: seq<string>)
    ensures pushed == lines + Texts(SectionsLines(sections))
  {
    pushed := lines;
    ghost var done: seq<string> := [];
    for s := 0 to |sections|
      invariant done == Texts(SectionsLines(sections[..s]))
      invariant pushed == lines + done
    {
      ghost var before := pushed;
      pushed := PushSection(pushed, sections[s]);
      ghost var more := pushed[|before|..];
      OneMoreSection(sections, s);
      Associate(lines, done, more);
      done := done + more;
    }
    assert sections[..|sections|] == sections;
  }

  lemma TextsOfFile(report: Report)
    ensures [report.title, "Generated," + report.generatedAt, "Range," + report.from + "," + report.to, ""]
      + Texts(SectionsLines(report.sections)) == Texts(FileLines(report))
  {
    var head := FileLines(report.(sections := []));
    TextsOfHead(report);
    assert FileLines(report) == head + SectionsLines(report.sections);
    TextsOfConcatenation(head, SectionsLines(report.sections));
  }

  method ToCsv(report: Report) returns (csv: string)
    ensures ReadsAs(csv, report) <==> RawPartsAreClean(report)
    ensures csv == CsvText(report)
  {
    var lines := [report.title, "Generated," + report.generatedAt, "Range," + report.from + "," + report.to, ""];
    lines := PushSections(lines, report.sections);
    TextsOfFile(report);
    csv := Join(lines, '\n');
    ExportReadsBackExactlyWhen(report);
  }
}
