/**
 * The CSV exporter of the agent (`export_to_csv` in src/agents/tools.py):
 * the file name is made safe, the non-blank lines of the data decide
 * between writing the data unchanged and structuring it as an Item/Value
 * table, and the answer names the file written. The file system is left
 * out: the model says which file would be written with which content.
 */
module CsvExport {
  import opened Text

  const EXPORT_DIR := "data/exports/"
  const NO_DATA := "Error: No data to export"
  const EXPORTED := "CSV exported successfully to: "
  /** The default of `filename`. */
  const DEFAULT_FILENAME := "export"

  /** The characters `[a-zA-Z0-9_-]` a file name keeps. */
  predicate IsNameChar(c: char) {
    IsAlpha(c) || IsDigit(c) || c == '_' || c == '-'
  }

  predicate SafeName(name: string) {
    forall i :: 0 <= i < |name| ==> IsNameChar(name[i])
  }

  /** `re.sub(r'[^a-zA-Z0-9_-]', '_', name)`: every other character becomes an underscore. */
  function SanitizeFilename(name: string): (r: string)
    ensures |r| == |name| && SafeName(r)
  {
    seq(|name|, i requires 0 <= i < |name| => if IsNameChar(name[i]) then name[i] else '_')
  }

  /** A safe name is kept as it is; each unsafe character becomes an underscore where it stood. */
  lemma SanitizeKeepsSafe(name: string)
    ensures SafeName(name) <==> SanitizeFilename(name) == name
    ensures forall i :: 0 <= i < |name| && !IsNameChar(name[i]) ==> SanitizeFilename(name)[i] == '_'
  {
    if SanitizeFilename(name) == name {
      assert SafeName(name);
    }
  }

  lemma SanitizeIdempotent(name: string)
    ensures SanitizeFilename(SanitizeFilename(name)) == SanitizeFilename(name)
  {
    SanitizeKeepsSafe(SanitizeFilename(name));
  }

  /** The path written: `data/exports/<name>.csv`. */
  function ExportPath(filename: string): string {
    EXPORT_DIR + SanitizeFilename(filename) + ".csv"
  }

  /** The name part of the path holds no separator and no dot, so the file stays inside the export directory. */
  lemma PathStaysInDirectory(filename: string)
    ensures var name := SanitizeFilename(filename);
      ExportPath(filename) == EXPORT_DIR + name + ".csv" && '/' !in name && '.' !in name
  {
    var name := SanitizeFilename(filename);
    assert !IsNameChar('/') && !IsNameChar('.');
  }

  function KeepLine(line: string): Option<string> {
    var t := Strip(line);
    if t == [] then None else Some(t)
  }

  /** `[line.strip() for line in data.split('\n') if line.strip()]` */
  function NonBlankLines(data: string): (lines: seq<string>)
    ensures forall k :: 0 <= k < |lines| ==> Trimmed(lines[k])
  {
    KeptLinesTrimmed(Split(data, '\n'));
    Collect(Split(data, '\n'), KeepLine)
  }

  /** Non-empty, and neither starting nor ending with whitespace. */
  predicate Trimmed(t: string) {
    t != [] && !IsSpace(t[0]) && !IsSpace(t[|t| - 1])
  }

  /** Every kept line is non-empty and stripped. */
  lemma KeptLinesTrimmed(parts: seq<string>)
    ensures forall k :: 0 <= k < |Collect(parts, KeepLine)| ==> Trimmed(Collect(parts, KeepLine)[k])
  {
    var kept := Collect(parts, KeepLine);
    forall k | 0 <= k < |kept| ensures Trimmed(kept[k]) {
      assert kept[k] in kept;
      NonBlankLinesMembers(parts, kept[k]);
    }
  }

  /**
   * The kept lines of the pieces (`NonBlankLines(data)` for the pieces of
   * `data`) are exactly the stripped non-blank pieces; none is blank or padded.
   */
  lemma NonBlankLinesMembers(parts: seq<string>, t: string)
    ensures t in Collect(parts, KeepLine) <==> exists k :: 0 <= k < |parts| && t == Strip(parts[k]) && t != []
    ensures t in Collect(parts, KeepLine) ==> !IsSpace(t[0]) && !IsSpace(t[|t| - 1])
  {
    CollectMembers(parts, KeepLine, t);
    if t in Collect(parts, KeepLine) {
      var k :| 0 <= k < |parts| && KeepLine(parts[k]) == Some(t);
      assert t == Strip(parts[k]) && t != [];
    }
    if exists k :: 0 <= k < |parts| && t == Strip(parts[k]) && t != [] {
      var k :| 0 <= k < |parts| && t == Strip(parts[k]) && t != [];
      assert KeepLine(parts[k]) == Some(t);
    }
  }

  /** One row of the structured table. */
  datatype Row = Row(item: string, value: string)

  /**
   * A line split at its first colon, else at its first dash, both parts
   * stripped; a line with neither becomes the item with an empty value.
   */
  function RowOf(line: string): (r: Row)
    ensures ':' !in line && '-' !in line ==> r == Row(line, "")
    ensures r.value != [] ==> ':' in line || '-' in line
  {
    match SplitFirst(line, ':')
    case Some((before, after)) => Row(Strip(before), Strip(after))
    case None =>
      match SplitFirst(line, '-')
      case Some((before, after)) => Row(Strip(before), Strip(after))
      case None => Row(line, "")
  }

  /**
   * The colon is preferred to the dash: the item never contains a colon,
   * and when the line has no colon it contains no dash either; a line with
   * no delimiter is kept whole.
   */
  lemma RowOfDelimiters(line: string)
    ensures ':' !in RowOf(line).item
    ensures ':' !in line ==> '-' !in RowOf(line).item
    ensures ':' !in line && '-' !in line ==> RowOf(line) == Row(line, "")
  {
    match SplitFirst(line, ':')
    case Some((before, after)) =>
      ContainsExcludes(before, Strip(before), ':');
    case None =>
      match SplitFirst(line, '-')
      case Some((before, after)) =>
        ContainsExcludes(before, Strip(before), '-');
        assert line == before + ['-'] + after;
        ContainsExcludes(before, Strip(before), ':');
      case None =>
  }

  /** The split is exact: item, delimiter and value are the line, up to the padding strip removes. */
  lemma RowOfParts(line: string)
    requires ':' in line || '-' in line
    ensures exists before, after, c ::
      && (c == ':' || c == '-')
      && line == before + [c] + after
      && RowOf(line) == Row(Strip(before), Strip(after))
  {
    match SplitFirst(line, ':')
    case Some((before, after)) =>
      assert line == before + [':'] + after && RowOf(line) == Row(Strip(before), Strip(after));
    case None =>
      match SplitFirst(line, '-')
      case Some((before, after)) =>
        assert line == before + ['-'] + after && RowOf(line) == Row(Strip(before), Strip(after));
  }

  /** The header row `writerow(["Item", "Value"])` puts above the table. */
  const TABLE_HEADER := Row("Item", "Value")

  /** What is written to the file: the data unchanged, or a header row and the Item/Value rows. */
  datatype CsvContent = Verbatim(text: string) | Table(header: Row, rows: seq<Row>)

  datatype ExportOutcome = NoData | Written(path: string, content: CsvContent)

  /** `export_to_csv(data, filename)` as the file it writes. */
  function Export(data: string, filename: string): (o: ExportOutcome)
    ensures o.Written? ==> o.path == ExportPath(filename)
    ensures o.Written? && o.content.Verbatim? ==> o.content.text == data
    ensures o.Written? && o.content.Table? ==>
      o.content.header == TABLE_HEADER && |o.content.rows| == |NonBlankLines(data)|
  {
    var lines := NonBlankLines(data);
    MapSeqPointwise(lines, RowOf);
    if lines == [] then NoData
    else if ',' in lines[0] then Written(ExportPath(filename), Verbatim(data))
    else Written(ExportPath(filename), Table(TABLE_HEADER, Rows(lines)))
  }

  /** The answer the tool gives for an outcome. */
  function Message(outcome: ExportOutcome): string {
    match outcome
    case NoData => NO_DATA
    case Written(path, _) => EXPORTED + path
  }

  /** The table rows, one per line, in order. */
  function Rows(lines: seq<string>): seq<Row> {
    MapSeq(lines, RowOf)
  }

  /** The loop writing one row per kept line. */
  method BuildRows(lines: seq<string>) returns (rows: seq<Row>)
    ensures rows == Rows(lines)
  {
    rows := [];
    var i := 0;
    while i < |lines|
      invariant i <= |lines|
      invariant rows == Rows(lines[..i])
    {
      assert lines[..i + 1][..i] == lines[..i];
      assert Rows(lines[..i + 1]) == Rows(lines[..i]) + [RowOf(lines[i])];
      rows := rows + [RowOf(lines[i])];
      i := i + 1;
    }
    assert lines[..i] == lines;
  }

  method ExportToCsv(data: string, filename: string) returns (outcome: ExportOutcome, message: string)
    ensures outcome == Export(data, filename) && message == Message(outcome)
  {
    var path := ExportPath(filename);
    var lines := NonBlankLines(data);
    if lines == [] {
      return NoData, NO_DATA;
    }
    if ',' in lines[0] {
      outcome := Written(path, Verbatim(data));
    } else {
      var rows := BuildRows(lines);
      outcome := Written(path, Table(TABLE_HEADER, rows));
    }
    message := EXPORTED + path;
  }

  /** Every piece strips to nothing. */
  predicate AllBlank(pieces: seq<string>) {
    forall k :: 0 <= k < |pieces| ==> Strip(pieces[k]) == []
  }

  /** Nothing is written exactly when every line of the data is blank. */
  lemma NoDataIff(data: string, filename: string)
    ensures Export(data, filename).NoData? <==> AllBlank(Split(data, '\n'))
  {
    var pieces := Split(data, '\n');
    var lines := Collect(pieces, KeepLine);
    assert Export(data, filename).NoData? <==> lines == [];
    if lines == [] {
      forall k | 0 <= k < |pieces| ensures Strip(pieces[k]) == [] {
        NonBlankLinesMembers(pieces, Strip(pieces[k]));
      }
    } else {
      NonBlankLinesMembers(pieces, lines[0]);
      assert lines[0] in lines;
    }
  }

  /**
   * When something is written the answer names the file; the data is copied
   * unchanged exactly when its first non-blank line holds a comma, and
   * otherwise every non-blank line gives one row, in order.
   */
  lemma WrittenContent(data: string, filename: string)
    requires Export(data, filename).Written?
    ensures Message(Export(data, filename)) == EXPORTED + ExportPath(filename)
    ensures var lines := NonBlankLines(data); var c := Export(data, filename).content;
      (c.Verbatim? <==> ',' in lines[0]) && (c.Verbatim? ==> c.text == data)
      && (c.Table? ==> c.header == TABLE_HEADER && |c.rows| == |lines| && forall k :: 0 <= k < |lines| ==> c.rows[k] == RowOf(lines[k]))
  {
    MapSeqPointwise(NonBlankLines(data), RowOf);
  }

  /** Every answer is either the no-data error or the success message. */
  lemma MessagesDiffer(outcome: ExportOutcome)
    ensures outcome.NoData? <==> Message(outcome)[0] == 'E'
  {
    if outcome.Written? {
      assert Message(outcome)[0] == EXPORTED[0] == 'C';
    }
  }
}
