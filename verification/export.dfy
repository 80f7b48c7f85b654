/**
 * The plain-text export: a header line, then one semicolon-separated line
 * per movement (date, title, description, amount), in ledger order. A
 * movement without a description gets an empty description field.
 *
 * The tracker only writes this format. `ParseExport` reads it back; it is a
 * definition for stating what the export preserves, not a feature of the
 * tracker.
 */
module Export {
  import opened Options
  import opened Text
  import opened Records

  /** The header line, without its line break. */
  const HeaderRow: string := "dia;titulo;descripcion;monto"

  /** The description as exported: empty when the movement has none. */
  function DescText(desc: Option<string>): string
  {
    match desc
    case None => ""
    case Some(s) => s
  }

  /** The exported line of one movement, without its line break. */
  function Row(m: Movement): string
  {
    m.date + ";" + (m.title + ";" + (DescText(m.desc) + ";" + IntToString(m.amount)))
  }

  /** The exported lines of a list of movements, each ended by a line break. */
  function Body(ms: seq<Movement>): string
  {
    if ms == [] then "" else Row(ms[0]) + "\n" + Body(ms[1..])
  }

  /** The whole export text. */
  function ExportText(ms: seq<Movement>): string
  {
    HeaderRow + "\n" + Body(ms)
  }

  lemma HeaderIsOneLine()
    ensures '\n' !in HeaderRow
  {
  }

  lemma {:induction false} BodyAppend(ms: seq<Movement>, m: Movement)
    ensures Body(ms + [m]) == Body(ms) + Row(m) + "\n"
  {
    if ms == [] {
      assert ms + [m] == [m];
    } else {
      assert (ms + [m])[1..] == ms[1..] + [m];
      BodyAppend(ms[1..], m);
    }
  }

  lemma ExportTextAppend(ms: seq<Movement>, m: Movement)
    ensures ExportText(ms + [m]) == ExportText(ms) + Row(m) + "\n"
  {
    BodyAppend(ms, m);
  }

  /** What one export line carries. */
  datatype ExportRecord = ExportRecord(date: string, title: string, desc: string, amount: int)

  function RecordOf(m: Movement): ExportRecord
  {
    ExportRecord(m.date, m.title, DescText(m.desc), m.amount)
  }

  function RecordsOf(ms: seq<Movement>): (rs: seq<ExportRecord>)
    ensures |rs| == |ms|
    ensures forall k :: 0 <= k < |ms| ==> rs[k] == RecordOf(ms[k])
  {
    if ms == [] then [] else [RecordOf(ms[0])] + RecordsOf(ms[1..])
  }

  /** Reads one export line: exactly four fields, the last a decimal integer. */
  function ParseRow(line: string): Option<ExportRecord>
  {
    var fields := Split(line, ';');
    if |fields| == 4 && ParseInt(fields[3]).Some? then
      Some(ExportRecord(fields[0], fields[1], fields[2], ParseInt(fields[3]).value))
    else
      None
  }

  function ParseRows(lines: seq<string>): Option<seq<ExportRecord>>
  {
    if lines == [] then Some([])
    else
      match (ParseRow(lines[0]), ParseRows(lines[1..]))
      case (Some(r), Some(rs)) => Some([r] + rs)
      case _ => None
  }

  /** Reads an export text: the header line, then one line per record, each ended by a line break. */
  function ParseExport(txt: string): Option<seq<ExportRecord>>
  {
    var lines := Split(txt, '\n');
    if |lines| >= 2 && lines[0] == HeaderRow && lines[|lines| - 1] == "" then
      ParseRows(lines[1..|lines| - 1])
    else
      None
  }

  /** A field that contains neither a field separator nor a line break. */
  predicate PlainField(s: string)
  {
    ';' !in s && '\n' !in s
  }

  /** A movement whose text fields survive the export unambiguously. */
  predicate Exportable(m: Movement)
  {
    PlainField(m.date) && PlainField(m.title) && PlainField(DescText(m.desc))
  }

  /** A movement whose text fields hold no line break, so that its export line is a single line. */
  predicate OneLine(m: Movement)
  {
    '\n' !in m.date && '\n' !in m.title && '\n' !in DescText(m.desc)
  }

  /** Digits and a minus sign are neither separators nor line breaks. */
  lemma AmountIsPlain(n: int)
    ensures PlainField(IntToString(n))
  {
    var s := IntToString(n);
    forall k | 0 <= k < |s| ensures s[k] != ';' && s[k] != '\n' {
      assert IsDigit(s[k]) || s[k] == '-';
    }
  }

  lemma SplitThree(b: string, c: string, d: string, sep: char)
    requires sep !in b && sep !in c && sep !in d
    ensures Split(b + [sep] + (c + [sep] + d), sep) == [b, c, d]
  {
    SplitNone(d, sep);
    SplitCons(c, sep, d);
    SplitCons(b, sep, c + [sep] + d);
  }

  lemma SplitFour(a: string, b: string, c: string, d: string, sep: char)
    requires sep !in a && sep !in b && sep !in c && sep !in d
    ensures Split(a + [sep] + (b + [sep] + (c + [sep] + d)), sep) == [a, b, c, d]
  {
    SplitThree(b, c, d, sep);
    SplitCons(a, sep, b + [sep] + (c + [sep] + d));
  }

  lemma RowOneLine(m: Movement)
    requires OneLine(m)
    ensures '\n' !in Row(m)
  {
    AmountIsPlain(m.amount);
  }

  lemma RowParses(m: Movement)
    requires Exportable(m)
    ensures '\n' !in Row(m)
    ensures ParseRow(Row(m)) == Some(RecordOf(m))
  {
    var amount := IntToString(m.amount);
    var desc := DescText(m.desc);
    AmountIsPlain(m.amount);
    SplitFour(m.date, m.title, desc, amount, ';');
    IntToStringRoundTrip(m.amount);
  }

  lemma {:induction false} BodySplits(ms: seq<Movement>)
    requires forall k :: 0 <= k < |ms| ==> Exportable(ms[k])
    ensures Split(Body(ms), '\n') == RowsOf(ms) + [""]
  {
    if ms == [] {
      SplitNone("", '\n');
    } else {
      RowParses(ms[0]);
      assert Body(ms) == Row(ms[0]) + ['\n'] + Body(ms[1..]);
      SplitCons(Row(ms[0]), '\n', Body(ms[1..]));
      BodySplits(ms[1..]);
    }
  }

  function RowsOf(ms: seq<Movement>): seq<string>
  {
    if ms == [] then [] else [Row(ms[0])] + RowsOf(ms[1..])
  }

  lemma {:induction false} RowsParse(ms: seq<Movement>)
    requires forall k :: 0 <= k < |ms| ==> Exportable(ms[k])
    ensures ParseRows(RowsOf(ms)) == Some(RecordsOf(ms))
  {
    if ms != [] {
      RowParses(ms[0]);
      assert RowsOf(ms)[1..] == RowsOf(ms[1..]);
      RowsParse(ms[1..]);
    }
  }

  /**
   * Reading the export back yields, in order, one record per movement with
   * its date, title, description (empty when missing) and amount, provided
   * no text field contains a separator or a line break.
   */
  lemma ExportRoundTrip(ms: seq<Movement>)
    requires forall k :: 0 <= k < |ms| ==> Exportable(ms[k])
    ensures ParseExport(ExportText(ms)) == Some(RecordsOf(ms))
  {
    HeaderIsOneLine();
    SplitCons(HeaderRow, '\n', Body(ms));
    BodySplits(ms);
    ParseExportLines(ExportText(ms), RowsOf(ms));
    RowsParse(ms);
  }

  lemma ParseExportLines(txt: string, rows: seq<string>)
    requires Split(txt, '\n') == [HeaderRow] + (rows + [""])
    ensures ParseExport(txt) == ParseRows(rows)
  {
    var lines := Split(txt, '\n');
    assert lines[1..|lines| - 1] == rows;
  }

  /** With no line break inside a field, the export has exactly one line per movement plus the header. */
  lemma ExportLineCount(ms: seq<Movement>)
    requires forall k :: 0 <= k < |ms| ==> OneLine(ms[k])
    ensures Count(ExportText(ms), '\n') == |ms| + 1
  {
    var body := Body(ms);
    HeaderIsOneLine();
    CountConcat(HeaderRow + "\n", body, '\n');
    CountConcat(HeaderRow, "\n", '\n');
    CountAbsent(HeaderRow, '\n');
    BodyLineCount(ms);
  }

  lemma {:induction false} BodyLineCount(ms: seq<Movement>)
    requires forall k :: 0 <= k < |ms| ==> OneLine(ms[k])
    ensures Count(Body(ms), '\n') == |ms|
  {
    if ms != [] {
      RowOneLine(ms[0]);
      CountConcat(Row(ms[0]), "\n" + Body(ms[1..]), '\n');
      assert Row(ms[0]) + "\n" + Body(ms[1..]) == Row(ms[0]) + ("\n" + Body(ms[1..]));
      CountConcat("\n", Body(ms[1..]), '\n');
      CountAbsent(Row(ms[0]), '\n');
      BodyLineCount(ms[1..]);
    }
  }
}
