/** Building, printing, reading and validating the asset manifest, one JSON object a line
    (app/ingestion/manifest_builder.py, manifest_validation.py).  JSON itself is abstract, and texts
    stand for their UTF-8 bytes. */
module ManifestFraming {
  import opened Basics
  import opened Domain
  import opened Text

  datatype Row = Row(modality: Modality, content: string)

  // ---------------------------------------------------------------------------------------------
  // Lines
  // ---------------------------------------------------------------------------------------------

  /** Where `str.splitlines` breaks a text. */
  predicate IsLineBreak(c: char) {
    '\n' <= c <= '\r' || '\U{1c}' <= c <= '\U{1e}' || c == '\U{85}' || c == '\U{2028}' || c == '\U{2029}'
  }

  /** Where a text stream opened with newline="" breaks a text. */
  predicate IsNewline(c: char) {
    c == '\n' || c == '\r'
  }

  /** The length of the first line. */
  function FirstBreak(s: string, breaks: char -> bool): (n: nat)
    ensures n <= |s| && (n < |s| ==> breaks(s[n])) && forall i | 0 <= i < n :: !breaks(s[i])
  {
    if s == "" || breaks(s[0]) then 0 else 1 + FirstBreak(s[1..], breaks)
  }

  /** The lines without their ends; a carriage return and the line feed after it are one end, and a
      text that ends with a line end has no further line. */
  function Lines(s: string, breaks: char -> bool): seq<string>
    decreases |s|
  {
    if s == "" then []
    else
      var n := FirstBreak(s, breaks);
      if n == |s| then [s] else [s[..n]] + Lines(s[LineEnd(s, n)..], breaks)
  }

  /** Where the next line starts. */
  function LineEnd(s: string, n: nat): (next: nat)
    requires n < |s|
    ensures n < next <= |s|
  {
    if s[n] == '\r' && n + 1 < |s| && s[n + 1] == '\n' then n + 2 else n + 1
  }

  predicate Blank(s: string) {
    forall i | 0 <= i < |s| :: IsSpace(s[i])
  }

  /** A line that no reader breaks and that is not skipped. */
  predicate IsOneLine(s: string) {
    !Blank(s) && forall i | 0 <= i < |s| :: !IsLineBreak(s[i])
  }

  lemma FirstBreakIs(s: string, breaks: char -> bool, n: nat)
    requires n < |s| && breaks(s[n]) && forall i | 0 <= i < n :: !breaks(s[i])
    ensures FirstBreak(s, breaks) == n
  {
  }

  lemma LinesCons(line: string, rest: string)
    requires forall i | 0 <= i < |line| :: !IsLineBreak(line[i])
    ensures Lines(line + ['\n'] + rest, IsLineBreak) == [line] + Lines(rest, IsLineBreak)
  {
    var s := line + ['\n'] + rest;
    FirstBreakIs(s, IsLineBreak, |line|);
    assert s[..|line|] == line && s[|line| + 1..] == rest;
  }

  /** What ends a line: a line feed, a carriage return, or both, and nothing else that the reader does
      not break at; a text without line ends is one line. */
  lemma LineEndsAre(line: string, rest: string, breaks: char -> bool)
    requires breaks('\n') && breaks('\r') && forall i | 0 <= i < |line| :: !breaks(line[i])
    ensures Lines(line + "\n" + rest, breaks) == [line] + Lines(rest, breaks)
    ensures Lines(line + "\r\n" + rest, breaks) == [line] + Lines(rest, breaks)
    ensures rest != "" && rest[0] != '\n' ==> Lines(line + "\r" + rest, breaks) == [line] + Lines(rest, breaks)
    ensures Lines(line + "\r", breaks) == [line]
    ensures line != "" ==> Lines(line, breaks) == [line]
  {
    FirstLineIs(line + "\n" + rest, line, rest, breaks);
    FirstLineIs(line + "\r\n" + rest, line, rest, breaks);
    if rest != "" && rest[0] != '\n' {
      FirstLineIs(line + "\r" + rest, line, rest, breaks);
    }
    FirstLineIs(line + "\r", line, "", breaks);
    if line != "" {
      assert FirstBreak(line, breaks) == |line|;
    }
  }

  lemma FirstLineIs(s: string, line: string, rest: string, breaks: char -> bool)
    requires |line| < |s| && s[..|line|] == line && breaks(s[|line|]) && forall i | 0 <= i < |line| :: !breaks(line[i])
    requires s[LineEnd(s, |line|)..] == rest
    ensures Lines(s, breaks) == [line] + Lines(rest, breaks)
  {
    assert forall i | 0 <= i < |line| :: s[i] == line[i];
    FirstBreakIs(s, breaks, |line|);
  }

  /** The manifest reader breaks lines at these characters, the archive reader at two of them. */
  lemma BreaksAre(c: char)
    ensures IsLineBreak(c) <==>
              c in {'\n', '\U{0b}', '\U{0c}', '\r', '\U{1c}', '\U{1d}', '\U{1e}', '\U{85}', '\U{2028}', '\U{2029}'}
    ensures IsNewline(c) <==> c in {'\n', '\r'}
  {
  }

  lemma RestIsNonBlank(s: string, n: nat)
    requires n < |s| && IsLineBreak(s[n]) && !Blank(s) && Blank(s[..n])
    ensures !Blank(s[LineEnd(s, n)..])
  {
    forall j | 0 <= j < n ensures IsSpace(s[j]) {
      assert s[..n][j] == s[j];
    }
    var i :| 0 <= i < |s| && !IsSpace(s[i]);
    var rest := s[LineEnd(s, n)..];
    assert rest[i - LineEnd(s, n)] == s[i];
  }

  /** A text with anything to read in it has a line with anything to read in it: line ends are white
      space themselves. */
  lemma {:induction false} NonBlankTextHasNonBlankLine(s: string) returns (k: nat)
    requires !Blank(s)
    ensures k < |Lines(s, IsLineBreak)| && !Blank(Lines(s, IsLineBreak)[k])
    decreases |s|
  {
    var n := FirstBreak(s, IsLineBreak);
    k := 0;
    if n < |s| && Blank(s[..n]) {
      RestIsNonBlank(s, n);
      var j := NonBlankTextHasNonBlankLine(s[LineEnd(s, n)..]);
      k := 1 + j;
    }
  }

  /** Printed alone, a row is read back as one line exactly when it contains no line break in the wide
      sense of `str.splitlines`, not just no newline. */
  lemma ReadBackAsOneLineIff(s: string)
    requires s != ""
    ensures Lines(s + ['\n'], IsLineBreak) == [s] <==> forall i | 0 <= i < |s| :: !IsLineBreak(s[i])
  {
    if forall i | 0 <= i < |s| :: !IsLineBreak(s[i]) {
      LinesCons(s, "");
      assert s + ['\n'] + "" == s + ['\n'];
    } else {
      var i :| 0 <= i < |s| && IsLineBreak(s[i]);
      var t := s + ['\n'];
      var n := FirstBreak(t, IsLineBreak);
      assert n <= i by {
        assert t[i] == s[i];
      }
      assert Lines(t, IsLineBreak)[0] == t[..n];
      assert |t[..n]| < |s|;
    }
  }

  // ---------------------------------------------------------------------------------------------
  // Printing and reading
  // ---------------------------------------------------------------------------------------------

  type Printer = Row -> string

  datatype RowError = InvalidJson | RowNotObject | SchemaViolation | ModelViolation

  /** Decode one line and check it against the row contract. */
  type Checker = string -> Result<Row, RowError>

  function Printed(rows: seq<Row>, printer: Printer): seq<string> {
    seq(|rows|, i requires 0 <= i < |rows| => printer(rows[i]))
  }

  function Serialize(rows: seq<Row>, printer: Printer): string {
    if rows == [] then "" else Join(Printed(rows, printer), '\n') + ['\n']
  }

  datatype ReadError = EmptyManifest | BadLine(number: nat, error: RowError)

  /** Every row is printed and followed by a line feed. */
  lemma SerializeSnoc(rows: seq<Row>, row: Row, printer: Printer)
    ensures Serialize([], printer) == ""
    ensures Serialize(rows + [row], printer) == Serialize(rows, printer) + printer(row) + "\n"
  {
    var lines := Printed(rows, printer);
    assert Printed(rows + [row], printer) == lines + [printer(row)];
    if rows != [] {
      JoinConcat(lines, [printer(row)], '\n');
    } else {
      assert [] + [printer(row)] == [printer(row)];
    }
  }

  function ReadLines(lines: seq<string>, check: Checker): Result<seq<Row>, ReadError> {
    if lines == [] then Ok([])
    else
      var before, line := ReadLines(lines[..|lines| - 1], check), lines[|lines| - 1];
      if before.Err? || Blank(line) then before
      else if check(line).Ok? then Ok(before.value + [check(line).value])
      else Err(BadLine(|lines|, check(line).error))
  }

  method ReadManifestRows(text: string, check: Checker) returns (r: Result<seq<Row>, ReadError>)
    ensures r == ReadLines(Lines(text, IsLineBreak), check)
  {
    var lines := Lines(text, IsLineBreak);
    var rows: seq<Row> := [];
    for i := 0 to |lines|
      invariant ReadLines(lines[..i], check) == Ok(rows)
    {
      assert lines[..i + 1][..i] == lines[..i];
      if Blank(lines[i]) {
        continue;
      }
      var row := check(lines[i]);
      if row.Err? {
        FirstErrorStands(lines, check, i + 1);
        return Err(BadLine(i + 1, row.error));
      }
      rows := rows + [row.value];
    }
    assert lines[..|lines|] == lines;
    return Ok(rows);
  }

  lemma {:induction false} FirstErrorStands(lines: seq<string>, check: Checker, n: nat)
    requires n <= |lines| && ReadLines(lines[..n], check).Err?
    ensures ReadLines(lines, check) == ReadLines(lines[..n], check)
    decreases |lines|
  {
    if n < |lines| {
      var front := lines[..|lines| - 1];
      assert front[..n] == lines[..n];
      FirstErrorStands(front, check, n);
    } else {
      assert lines[..n] == lines;
    }
  }

  lemma ReadOneMore(lines: seq<string>, check: Checker, i: nat)
    requires i < |lines| && ReadLines(lines[..i], check).Ok?
    ensures ReadLines(lines[..i + 1], check) ==
            if Blank(lines[i]) then ReadLines(lines[..i], check)
            else if check(lines[i]).Ok? then Ok(ReadLines(lines[..i], check).value + [check(lines[i]).value])
            else Err(BadLine(i + 1, check(lines[i]).error))
  {
    assert lines[..i + 1][..i] == lines[..i];
  }

  lemma {:induction false} NothingIsReadFromBlankLinesOnly(lines: seq<string>, check: Checker)
    requires ReadLines(lines, check) == Ok([])
    ensures forall j | 0 <= j < |lines| :: Blank(lines[j])
  {
    if lines != [] {
      NothingIsReadFromBlankLinesOnly(lines[..|lines| - 1], check);
    }
  }

  lemma SomethingIsRead(text: string, check: Checker)
    requires !Blank(text)
    ensures ReadLines(Lines(text, IsLineBreak), check) != Ok([])
  {
    var k := NonBlankTextHasNonBlankLine(text);
    if ReadLines(Lines(text, IsLineBreak), check) == Ok([]) {
      NothingIsReadFromBlankLinesOnly(Lines(text, IsLineBreak), check);
    }
  }

  function CountOf(rows: seq<Row>, m: Modality): nat {
    if rows == [] then 0 else CountOf(rows[..|rows| - 1], m) + (if rows[|rows| - 1].modality == m then 1 else 0)
  }

  lemma {:induction false} CountOfIs(rows: seq<Row>, m: Modality)
    ensures CountOf(rows, m) == |set i | 0 <= i < |rows| && rows[i].modality == m|
  {
    if rows != [] {
      var front, n := rows[..|rows| - 1], |rows| - 1;
      CountOfIs(front, m);
      var before := set i | 0 <= i < |front| && front[i].modality == m;
      var all := set i | 0 <= i < |rows| && rows[i].modality == m;
      assert forall i | 0 <= i < n :: front[i] == rows[i];
      if rows[n].modality == m {
        assert all == before + {n};
      } else {
        assert all == before;
      }
    }
  }

  /** A count dict that says how many rows there are of each modality, and lists no others. */
  ghost predicate Counts(counts: map<Modality, nat>, rows: seq<Row>) {
    forall m :: (m in counts <==> CountOf(rows, m) > 0) && (m in counts ==> counts[m] == CountOf(rows, m))
  }

  function Bump(counts: map<Modality, nat>, m: Modality): map<Modality, nat> {
    counts[m := (if m in counts then counts[m] else 0) + 1]
  }

  lemma CountsSnoc(counts: map<Modality, nat>, rows: seq<Row>, row: Row)
    requires Counts(counts, rows)
    ensures Counts(Bump(counts, row.modality), rows + [row])
  {
    assert (rows + [row])[..|rows|] == rows;
  }

  /** The counts of the seven modalities add up to the number of rows. */
  lemma {:induction false} CountsAddUp(rows: seq<Row>)
    ensures CountOf(rows, Tabular) + CountOf(rows, TextModality) + CountOf(rows, Image) + CountOf(rows, Video)
            + CountOf(rows, Audio) + CountOf(rows, DocumentOcr) + CountOf(rows, Multimodal) == |rows|
  {
    if rows != [] {
      CountsAddUp(rows[..|rows| - 1]);
    }
  }

  datatype Report = Report(rows: nat, byModality: map<Modality, nat>)

  /** Accepted exactly when the text is not blank and every line that is not blank passes; rejected at
      the first line that fails.  The later test for an empty count can never be what rejects. */
  method ValidateManifestJsonl(text: string, check: Checker) returns (r: Result<Report, ReadError>)
    ensures Blank(text) ==> r == Err(EmptyManifest)
    ensures !Blank(text) ==>
              match ReadLines(Lines(text, IsLineBreak), check)
              case Err(e) => r == Err(e)
              case Ok(rows) => r.Ok? && rows != [] && r.value.rows == |rows| && Counts(r.value.byModality, rows)
  {
    if Blank(text) {
      return Err(EmptyManifest);
    }
    var lines := Lines(text, IsLineBreak);
    ghost var rows: seq<Row> := [];
    var count, counts := 0, map[];
    for i := 0 to |lines|
      invariant ReadLines(lines[..i], check) == Ok(rows) && count == |rows| && Counts(counts, rows)
    {
      ReadOneMore(lines, check, i);
      if Blank(lines[i]) {
        continue;
      }
      var row := check(lines[i]);
      if row.Err? {
        FirstErrorStands(lines, check, i + 1);
        return Err(BadLine(i + 1, row.error));
      }
      CountsSnoc(counts, rows, row.value);
      rows := rows + [row.value];
      counts := Bump(counts, row.value.modality);
      count := count + 1;
    }
    assert lines[..|lines|] == lines;
    SomethingIsRead(text, check);
    if count == 0 {
      return Err(EmptyManifest);
    }
    return Ok(Report(count, counts));
  }

  // ---------------------------------------------------------------------------------------------
  // The round trip
  // ---------------------------------------------------------------------------------------------

  /** What JSON gives: a row prints as one line, because the encoder escapes everything that is not
      ASCII, and the line decodes to the row. */
  ghost predicate Faithful(rows: seq<Row>, printer: Printer, check: Checker) {
    forall i | 0 <= i < |rows| :: IsOneLine(printer(rows[i])) && check(printer(rows[i])) == Ok(rows[i])
  }

  lemma {:induction false} LinesOfSerialized(lines: seq<string>)
    requires lines != [] && forall i | 0 <= i < |lines| :: IsOneLine(lines[i])
    ensures Lines(Join(lines, '\n') + ['\n'], IsLineBreak) == lines
  {
    if |lines| == 1 {
      LinesCons(lines[0], "");
      assert lines[0] + ['\n'] + "" == lines[0] + ['\n'];
    } else {
      LinesOfSerialized(lines[1..]);
      LinesCons(lines[0], Join(lines[1..], '\n') + ['\n']);
      FirstLineOfMore(lines[0], Join(lines[1..], '\n'));
    }
  }

  lemma FirstLineOfMore(line: string, rest: string)
    ensures line + ['\n'] + rest + ['\n'] == line + ['\n'] + (rest + ['\n'])
  {
  }

  lemma {:induction false} ReadPrinted(rows: seq<Row>, printer: Printer, check: Checker)
    requires Faithful(rows, printer, check)
    ensures ReadLines(Printed(rows, printer), check) == Ok(rows)
  {
    if rows != [] {
      var front := rows[..|rows| - 1];
      ReadPrinted(front, printer, check);
      assert Printed(rows, printer)[..|rows| - 1] == Printed(front, printer);
      assert rows == front + [rows[|rows| - 1]];
    }
  }

  /** Reading back what was written gives the same rows in the same order.  An empty list of rows is
      written as an empty text, which reads as no rows but which validation rejects. */
  lemma RoundTrip(rows: seq<Row>, printer: Printer, check: Checker)
    requires Faithful(rows, printer, check)
    ensures ReadLines(Lines(Serialize(rows, printer), IsLineBreak), check) == Ok(rows)
    ensures Blank(Serialize(rows, printer)) <==> rows == []
  {
    if rows != [] {
      var lines := Printed(rows, printer);
      LinesOfSerialized(lines);
      ReadPrinted(rows, printer, check);
      var text := Serialize(rows, printer);
      var i :| 0 <= i < |lines[0]| && !IsSpace(lines[0][i]);
      JoinStarts(lines);
      assert text[i] == lines[0][i];
    }
  }

  lemma JoinStarts(lines: seq<string>)
    requires lines != []
    ensures lines[0] <= Join(lines, '\n')
  {
  }

  // ---------------------------------------------------------------------------------------------
  // The builder
  // ---------------------------------------------------------------------------------------------

  datatype Kind = Transactions | SupportMessages | OcrRecords | ImageManifest | Annotations | Predictions | Readme | Other

  /** An archive entry: its text and, for a table, its records. */
  datatype Entry = Entry(name: string, kind: Kind, size: nat, text: string, records: seq<string>)

  datatype Unsupported = Unsupported(name: string, kind: Kind, size: nat, line: Option<nat>, reason: Reason)

  datatype Reason = InvalidJsonl | JsonlRowNotObject | UnsupportedEntry

  datatype Content = Record(text: string) | NotJson | NotAnObject

  /** `read` decodes a line, which white space at its end does not affect; `content` is what a row holds
      besides its modality, made from the entry's name, the line number and the record. */
  datatype Maker = Maker(read: string -> Content, content: (string, nat, string) -> string)

  function ModalityOf(k: Kind): Modality {
    match k
    case Transactions => Tabular
    case SupportMessages => TextModality
    case OcrRecords => DocumentOcr
    case ImageManifest => Image
    case _ => Multimodal
  }

  /** What line n of an entry becomes: at most one row and at most one unsupported entry. */
  function RowsOfLine(e: Entry, n: nat, line: string, make: Maker): seq<Row> {
    if Blank(line) || !make.read(line).Record? then []
    else [Row(ModalityOf(e.kind), make.content(e.name, n, make.read(line).text))]
  }

  function UnsupportedOfLine(e: Entry, n: nat, line: string, make: Maker): seq<Unsupported> {
    if Blank(line) || make.read(line).Record? then []
    else [Unsupported(e.name, e.kind, e.size, Some(n), if make.read(line).NotJson? then InvalidJsonl else JsonlRowNotObject)]
  }

  function JsonlRows(e: Entry, lines: seq<string>, make: Maker): seq<Row> {
    if lines == [] then []
    else JsonlRows(e, lines[..|lines| - 1], make) + RowsOfLine(e, |lines|, lines[|lines| - 1], make)
  }

  function JsonlUnsupported(e: Entry, lines: seq<string>, make: Maker): seq<Unsupported> {
    if lines == [] then []
    else JsonlUnsupported(e, lines[..|lines| - 1], make) + UnsupportedOfLine(e, |lines|, lines[|lines| - 1], make)
  }

  function NonBlank(lines: seq<string>): nat {
    if lines == [] then 0 else NonBlank(lines[..|lines| - 1]) + (if Blank(lines[|lines| - 1]) then 0 else 1)
  }

  /** Every line that is not blank becomes one row or one unsupported entry, never both or neither. */
  lemma {:induction false} EveryLineCounts(e: Entry, lines: seq<string>, make: Maker)
    ensures |JsonlRows(e, lines, make)| + |JsonlUnsupported(e, lines, make)| == NonBlank(lines)
    ensures forall i | 0 <= i < |lines| ::
              Blank(lines[i]) || |RowsOfLine(e, i + 1, lines[i], make)| + |UnsupportedOfLine(e, i + 1, lines[i], make)| == 1
  {
    if lines != [] {
      EveryLineCounts(e, lines[..|lines| - 1], make);
    }
  }

  function TableRows(e: Entry, records: seq<string>, make: Maker): seq<Row> {
    if records == [] then []
    else TableRows(e, records[..|records| - 1], make) + [Row(Tabular, make.content(e.name, 0, records[|records| - 1]))]
  }

  function EntryRows(e: Entry, make: Maker): seq<Row> {
    match e.kind
    case Transactions => TableRows(e, e.records, make)
    case SupportMessages => JsonlRows(e, Lines(e.text, IsNewline), make)
    case OcrRecords => JsonlRows(e, Lines(e.text, IsNewline), make)
    case ImageManifest => JsonlRows(e, Lines(e.text, IsNewline), make)
    case Annotations => [Row(Multimodal, make.content(e.name, 0, ""))]
    case _ => []
  }

  function EntryUnsupported(e: Entry, make: Maker): seq<Unsupported> {
    match e.kind
    case SupportMessages => JsonlUnsupported(e, Lines(e.text, IsNewline), make)
    case OcrRecords => JsonlUnsupported(e, Lines(e.text, IsNewline), make)
    case ImageManifest => JsonlUnsupported(e, Lines(e.text, IsNewline), make)
    case Other => [Unsupported(e.name, e.kind, e.size, None, UnsupportedEntry)]
    case _ => []
  }

  function AllRows(entries: seq<Entry>, make: Maker): seq<Row> {
    if entries == [] then []
    else AllRows(entries[..|entries| - 1], make) + EntryRows(entries[|entries| - 1], make)
  }

  function AllUnsupported(entries: seq<Entry>, make: Maker): seq<Unsupported> {
    if entries == [] then []
    else AllUnsupported(entries[..|entries| - 1], make) + EntryUnsupported(entries[|entries| - 1], make)
  }

  /** The modality that the rows of an entry get. */
  ghost predicate Gets(k: Kind, m: Modality) {
    || (k == Transactions && m == Tabular) || (k == SupportMessages && m == TextModality) || (k == OcrRecords && m == DocumentOcr)
    || (k == ImageManifest && m == Image) || (k == Annotations && m == Multimodal)
  }

  lemma {:induction false} TableRowsAre(e: Entry, records: seq<string>, make: Maker)
    ensures |TableRows(e, records, make)| == |records|
    ensures forall i | 0 <= i < |records| :: TableRows(e, records, make)[i] == Row(Tabular, make.content(e.name, 0, records[i]))
  {
    if records != [] {
      TableRowsAre(e, records[..|records| - 1], make);
    }
  }

  /** Line i of a text holds a record, and this is its row. */
  ghost predicate MakesRow(e: Entry, lines: seq<string>, i: int, make: Maker, row: Row) {
    && 0 <= i < |lines| && !Blank(lines[i]) && make.read(lines[i]).Record?
    && Gets(e.kind, row.modality) && row.content == make.content(e.name, i + 1, make.read(lines[i]).text)
  }

  /** Line i of a text holds something else, and this is what is reported of it. */
  ghost predicate IsUnsupported(e: Entry, lines: seq<string>, i: int, make: Maker, u: Unsupported) {
    && 0 <= i < |lines| && !Blank(lines[i]) && !make.read(lines[i]).Record?
    && u == Unsupported(e.name, e.kind, e.size, Some(i + 1), if make.read(lines[i]) == NotJson then InvalidJsonl else JsonlRowNotObject)
  }

  ghost predicate SomeLineMakes(e: Entry, lines: seq<string>, make: Maker, row: Row) {
    exists i :: MakesRow(e, lines, i, make, row)
  }

  ghost predicate SomeLineIsUnsupported(e: Entry, lines: seq<string>, make: Maker, u: Unsupported) {
    exists i :: IsUnsupported(e, lines, i, make, u)
  }

  lemma {:induction false} JsonlRowsAre(e: Entry, lines: seq<string>, make: Maker, row: Row, u: Unsupported)
    requires e.kind in {SupportMessages, OcrRecords, ImageManifest}
    ensures row in JsonlRows(e, lines, make) <==> SomeLineMakes(e, lines, make, row)
    ensures u in JsonlUnsupported(e, lines, make) <==> SomeLineIsUnsupported(e, lines, make, u)
  {
    if lines != [] {
      var front, n := lines[..|lines| - 1], |lines| - 1;
      JsonlRowsAre(e, front, make, row, u);
      forall i ensures MakesRow(e, lines, i, make, row) <==> MakesRow(e, front, i, make, row) || (i == n && MakesRow(e, lines, n, make, row)) {
        assert 0 <= i < n ==> front[i] == lines[i];
      }
      forall i
        ensures IsUnsupported(e, lines, i, make, u) <==> IsUnsupported(e, front, i, make, u) || (i == n && IsUnsupported(e, lines, n, make, u))
      {
        assert 0 <= i < n ==> front[i] == lines[i];
      }
      assert row in RowsOfLine(e, |lines|, lines[n], make) <==> MakesRow(e, lines, n, make, row);
      assert u in UnsupportedOfLine(e, |lines|, lines[n], make) <==> IsUnsupported(e, lines, n, make, u);
    }
  }

  /** Later lines add behind what the earlier ones gave. */
  lemma {:induction false} JsonlRowsGrow(e: Entry, lines: seq<string>, make: Maker, i: nat)
    requires i <= |lines|
    ensures JsonlRows(e, lines[..i], make) <= JsonlRows(e, lines, make)
    ensures JsonlUnsupported(e, lines[..i], make) <= JsonlUnsupported(e, lines, make)
  {
    if i < |lines| {
      var front := lines[..|lines| - 1];
      assert front[..i] == lines[..i];
      JsonlRowsGrow(e, front, make, i);
    } else {
      assert lines[..i] == lines;
    }
  }

  /** What an entry contributes, by kind: a table its records in order, a text of records its lines, an
      annotation sample one row; predictions and readme nothing, and anything else is reported. */
  lemma EntryIs(e: Entry, make: Maker, row: Row, u: Unsupported)
    ensures row in EntryRows(e, make) ==> Gets(e.kind, row.modality)
    ensures e.kind == Transactions ==>
              && |EntryRows(e, make)| == |e.records| && EntryUnsupported(e, make) == []
              && forall i | 0 <= i < |e.records| :: EntryRows(e, make)[i] == Row(Tabular, make.content(e.name, 0, e.records[i]))
    ensures e.kind in {SupportMessages, OcrRecords, ImageManifest} ==>
              && (row in EntryRows(e, make) <==> SomeLineMakes(e, Lines(e.text, IsNewline), make, row))
              && (u in EntryUnsupported(e, make) <==> SomeLineIsUnsupported(e, Lines(e.text, IsNewline), make, u))
    ensures e.kind == Annotations ==>
              EntryRows(e, make) == [Row(Multimodal, make.content(e.name, 0, ""))] && EntryUnsupported(e, make) == []
    ensures e.kind in {Predictions, Readme, Other} ==> EntryRows(e, make) == []
    ensures e.kind in {Predictions, Readme} ==> EntryUnsupported(e, make) == []
    ensures e.kind == Other ==> EntryUnsupported(e, make) == [Unsupported(e.name, Other, e.size, None, UnsupportedEntry)]
  {
    TableRowsAre(e, e.records, make);
    if e.kind in {SupportMessages, OcrRecords, ImageManifest} {
      var lines := Lines(e.text, IsNewline);
      JsonlRowsAre(e, lines, make, row, u);
      assert EntryRows(e, make) == JsonlRows(e, lines, make) && EntryUnsupported(e, make) == JsonlUnsupported(e, lines, make);
    }
  }

  /** Entries follow one another. */
  lemma {:induction false} EntriesAppend(a: seq<Entry>, b: seq<Entry>, make: Maker)
    ensures AllRows(a + b, make) == AllRows(a, make) + AllRows(b, make)
    ensures AllUnsupported(a + b, make) == AllUnsupported(a, make) + AllUnsupported(b, make)
    ensures forall e :: AllRows([e], make) == EntryRows(e, make) && AllUnsupported([e], make) == EntryUnsupported(e, make)
  {
    forall e ensures AllRows([e], make) == EntryRows(e, make) && AllUnsupported([e], make) == EntryUnsupported(e, make) {
      assert [e][..0] == [];
      assert AllRows([], make) + EntryRows(e, make) == EntryRows(e, make);
    }
    if b == [] {
      assert a + b == a;
    } else {
      assert (a + b)[..|a + b| - 1] == a + b[..|b| - 1];
      EntriesAppend(a, b[..|b| - 1], make);
    }
  }

  method BuildJsonlRows(e: Entry, make: Maker, unsupported: seq<Unsupported>)
    returns (rows: seq<Row>, unsupported': seq<Unsupported>)
    ensures rows == JsonlRows(e, Lines(e.text, IsNewline), make)
    ensures unsupported' == unsupported + JsonlUnsupported(e, Lines(e.text, IsNewline), make)
  {
    var lines := Lines(e.text, IsNewline);
    rows, unsupported' := [], unsupported;
    for i := 0 to |lines|
      invariant rows == JsonlRows(e, lines[..i], make)
      invariant unsupported' == unsupported + JsonlUnsupported(e, lines[..i], make)
    {
      assert lines[..i + 1][..i] == lines[..i];
      if Blank(lines[i]) {
        continue;
      }
      match make.read(lines[i]) {
        case NotJson =>
          unsupported' := unsupported' + [Unsupported(e.name, e.kind, e.size, Some(i + 1), InvalidJsonl)];
        case NotAnObject =>
          unsupported' := unsupported' + [Unsupported(e.name, e.kind, e.size, Some(i + 1), JsonlRowNotObject)];
        case Record(text) =>
          rows := rows + [Row(ModalityOf(e.kind), make.content(e.name, i + 1, text))];
      }
    }
    assert lines[..|lines|] == lines;
  }

  /** The rows of an entry appended to the rows so far, and counted. */
  method Collect(rows: seq<Row>, counts: map<Modality, nat>, more: seq<Row>)
    returns (rows': seq<Row>, counts': map<Modality, nat>)
    requires Counts(counts, rows)
    ensures rows' == rows + more && Counts(counts', rows')
  {
    rows', counts' := rows, counts;
    for i := 0 to |more|
      invariant rows' == rows + more[..i] && Counts(counts', rows')
    {
      CountsSnoc(counts', rows', more[i]);
      rows', counts' := rows' + [more[i]], Bump(counts', more[i].modality);
    }
  }

  /** The manifest of an archive: all rows in order, counted by modality, printed; and every entry or
      line that made no row although it should have. */
  method BuildAssetManifest(entries: seq<Entry>, make: Maker, printer: Printer)
    returns (payload: string, total: nat, byModality: map<Modality, nat>, unsupported: seq<Unsupported>)
    ensures payload == Serialize(AllRows(entries, make), printer)
    ensures total == |AllRows(entries, make)| && Counts(byModality, AllRows(entries, make))
    ensures unsupported == AllUnsupported(entries, make)
  {
    var rows: seq<Row> := [];
    byModality, unsupported := map[], [];
    for i := 0 to |entries|
      invariant rows == AllRows(entries[..i], make) && Counts(byModality, rows)
      invariant unsupported == AllUnsupported(entries[..i], make)
    {
      var e := entries[i];
      assert entries[..i + 1][..i] == entries[..i];
      var made: seq<Row> := [];
      match e.kind {
        case Transactions => made := TableRows(e, e.records, make);
        case SupportMessages => made, unsupported := BuildJsonlRows(e, make, unsupported);
        case OcrRecords => made, unsupported := BuildJsonlRows(e, make, unsupported);
        case ImageManifest => made, unsupported := BuildJsonlRows(e, make, unsupported);
        case Annotations => made := [Row(Multimodal, make.content(e.name, 0, ""))];
        case Predictions =>
        case Readme =>
        case Other => unsupported := unsupported + [Unsupported(e.name, e.kind, e.size, None, UnsupportedEntry)];
      }
      rows, byModality := Collect(rows, byModality, made);
    }
    assert entries[..|entries|] == entries;
    return Serialize(rows, printer), |rows|, byModality, unsupported;
  }

  /** Build, then validate: the validator accepts exactly the manifests that have a row, and reports
      the builder's own counts. */
  method BuildThenValidate(entries: seq<Entry>, make: Maker, printer: Printer, check: Checker)
    returns (total: nat, byModality: map<Modality, nat>, r: Result<Report, ReadError>)
    requires Faithful(AllRows(entries, make), printer, check)
    ensures r == if total == 0 then Err(EmptyManifest) else Ok(Report(total, byModality))
  {
    var payload, unsupported;
    payload, total, byModality, unsupported := BuildAssetManifest(entries, make, printer);
    RoundTrip(AllRows(entries, make), printer, check);
    r := ValidateManifestJsonl(payload, check);
    if r.Ok? {
      assert r.value.byModality == byModality;
    }
  }
}
