/** The CSV exports (src/admin/csv.ts) and a strict reader of section 2 of RFC 4180 to read them with. */
module Csv {
  import opened Prelude
  import opened Text

  /** A cell as the exports build it: free text, or digits that must stay a number. */
  datatype Cell = TextCell(text: string) | NumberCell(text: string)

  const CRLF := "\r\n"

  /** The characters at which a spreadsheet takes a cell for a formula. */
  predicate IsTrigger(c: char) { c == '=' || c == '+' || c == '-' || c == '@' || c == '\t' || c == '\r' }

  predicate StartsDangerously(s: string) { s != "" && IsTrigger(s[0]) }

  predicate IsDangerous(text: string) { StartsDangerously(TrimStart(text)) || StartsDangerously(text) }

  function Guarded(text: string): string { if IsDangerous(text) then "'" + text else text }

  function Doubled(s: string): string {
    if s == "" then "" else (if s[0] == '"' then ['"', '"'] else [s[0]]) + Doubled(s[1..])
  }

  /** How many characters the first character, or the first line break, takes. */
  function HeadWidth(s: string): nat { if |s| > 1 && s[0] == '\r' && s[1] == '\n' then 2 else 1 }

  /** Each line break, with or without its carriage return, becomes one space. */
  function Flattened(s: string): string
    decreases |s|
  {
    if s == "" then ""
    else [if HeadWidth(s) == 2 || s[0] == '\n' then ' ' else s[0]] + Flattened(s[HeadWidth(s)..])
  }

  function CsvText(text: string): string { "\"" + Flattened(Doubled(Guarded(text))) + "\"" }

  /** What a text cell is meant to hold once decoded. */
  function Sanitised(text: string): string { Flattened(Guarded(text)) }

  predicate AllDigits(s: string) { forall i :: 0 <= i < |s| ==> IsDigit(s[i]) }

  predicate IsInteger(s: string) {
    if s != "" && s[0] == '-' then |s| > 1 && AllDigits(s[1..]) else s != "" && AllDigits(s)
  }

  function CsvNumber(text: string): Result<string, string> {
    if IsInteger(text) then Ok(text)
    else Err("csvNumber: not an integer: " + text[..if |text| < 20 then |text| else 20])
  }

  function PrintCell(c: Cell): Result<string, string> {
    match c
    case TextCell(text) => Ok(CsvText(text))
    case NumberCell(text) => CsvNumber(text)
  }

  function PrintCells(row: seq<Cell>): Result<seq<string>, string> {
    if row == [] then Ok([])
    else
      match PrintCell(row[0])
      case Err(e) => Err(e)
      case Ok(first) =>
        match PrintCells(row[1..])
        case Err(e) => Err(e)
        case Ok(rest) => Ok([first] + rest)
  }

  function JoinWith(parts: seq<string>, separator: string): string {
    if parts == [] then "" else if |parts| == 1 then parts[0]
    else parts[0] + separator + JoinWith(parts[1..], separator)
  }

  function CsvRow(cells: seq<string>): string { JoinWith(cells, ",") }

  function PrintRows(rows: seq<seq<Cell>>): Result<seq<string>, string> {
    if rows == [] then Ok([])
    else
      match PrintCells(rows[0])
      case Err(e) => Err(e)
      case Ok(first) =>
        match PrintRows(rows[1..])
        case Err(e) => Err(e)
        case Ok(rest) => Ok([CsvRow(first)] + rest)
  }

  /** A whole file: every row on its own line, the last one ended too. */
  function Export(rows: seq<seq<Cell>>): Result<string, string> {
    match PrintRows(rows)
    case Err(e) => Err(e)
    case Ok(lines) => Ok(JoinWith(lines, CRLF) + CRLF)
  }

  // ---- RFC 4180, section 2 -------------------------------------------------------------------------------

  datatype Field = Field(value: string, rest: string)

  datatype Record = Record(cells: seq<string>, after: string)

  /** What follows an opening quote, up to the quote that closes it. */
  function ReadQuoted(s: string): (r: Option<Field>)
    ensures r.Some? ==> |r.value.rest| < |s|
  {
    if s == "" then None
    else if s[0] == '"' then
      if |s| > 1 && s[1] == '"' then Prepend('"', ReadQuoted(s[2..])) else Some(Field("", s[1..]))
    else Prepend(s[0], ReadQuoted(s[1..]))
  }

  function Prepend(c: char, f: Option<Field>): Option<Field> {
    match f
    case None => None
    case Some(field) => Some(Field([c] + field.value, field.rest))
  }

  predicate EndsPlain(c: char) { c == ',' || c == '\r' || c == '\n' || c == '"' }

  function ReadPlain(s: string): (r: Field)
    ensures |r.rest| <= |s|
  {
    if s == "" || EndsPlain(s[0]) then Field("", s)
    else var tail := ReadPlain(s[1..]); Field([s[0]] + tail.value, tail.rest)
  }

  function ReadField(s: string): (r: Option<Field>)
    ensures r.Some? ==> |r.value.rest| <= |s|
  {
    if s != "" && s[0] == '"' then ReadQuoted(s[1..]) else Some(ReadPlain(s))
  }

  function ReadRecord(s: string): (r: Option<Record>)
    ensures r.Some? ==> |r.value.after| <= |s| && r.value.cells != []
    decreases |s|
  {
    match ReadField(s)
    case None => None
    case Some(Field(value, rest)) =>
      if rest == "" || rest[0] != ',' then Some(Record([value], rest))
      else
        match ReadRecord(rest[1..])
        case None => None
        case Some(Record(cells, after)) => Some(Record([value] + cells, after))
  }

  function ReadFile(s: string): (r: Option<seq<seq<string>>>)
    ensures r.Some? ==> forall k :: 0 <= k < |r.value| ==> r.value[k] != []
    decreases |s|
  {
    match ReadRecord(s)
    case None => None
    case Some(Record(cells, after)) =>
      if after == "" || after == CRLF then Some([cells])
      else if |after| < 2 || after[..2] != CRLF then None
      else
        match ReadFile(after[2..])
        case None => None
        case Some(records) => Some([cells] + records)
  }

  // ---- What an exported file says ------------------------------------------------------------------------

  function Decoded(c: Cell): string { if c.TextCell? then Sanitised(c.text) else c.text }

  function DecodedCells(row: seq<Cell>): (r: seq<string>)
    ensures |r| == |row|
  {
    if row == [] then [] else [Decoded(row[0])] + DecodedCells(row[1..])
  }

  /** A row without cells is an empty line, which reads as one empty cell. */
  function DecodedRow(row: seq<Cell>): (r: seq<string>)
    ensures r != []
  {
    if row == [] then [""] else DecodedCells(row)
  }

  function DecodedRows(rows: seq<seq<Cell>>): (r: seq<seq<string>>)
    ensures |r| == |rows|
  {
    if rows == [] then [] else [DecodedRow(rows[0])] + DecodedRows(rows[1..])
  }

  /** Doubling quotes and flattening line breaks do not get in each other's way. */
  lemma {:induction false} DoublingAndFlattening(s: string)
    ensures Flattened(Doubled(s)) == Doubled(Flattened(s))
    decreases |s|
  {
    if s != "" {
      DoublingAndFlattening(s[HeadWidth(s)..]);
      if s[0] == '"' {
        QuoteAtTheHead(s[1..]);
        assert s == ['"'] + s[1..];
      } else if HeadWidth(s) == 2 {
        BreakAtTheHead(s);
      } else {
        OtherAtTheHead(s);
      }
    }
  }

  lemma QuoteAtTheHead(tail: string)
    ensures Flattened(Doubled(['"'] + tail)) == ['"', '"'] + Flattened(Doubled(tail))
    ensures Doubled(Flattened(['"'] + tail)) == ['"', '"'] + Doubled(Flattened(tail))
  {
    DoubledCons('"', tail);
    QuotesFlatten(Doubled(tail));
    FlattenedCons('"', tail);
    DoubledCons('"', Flattened(tail));
  }

  lemma QuotesFlatten(tail: string)
    ensures Flattened(['"', '"'] + tail) == ['"', '"'] + Flattened(tail)
  {
    assert ['"', '"'] + tail == ['"'] + (['"'] + tail);
    FlattenedCons('"', ['"'] + tail);
    FlattenedCons('"', tail);
  }

  lemma BreakAtTheHead(s: string)
    requires s != "" && HeadWidth(s) == 2
    ensures Flattened(Doubled(s)) == [' '] + Flattened(Doubled(s[2..]))
    ensures Doubled(Flattened(s)) == [' '] + Doubled(Flattened(s[2..]))
  {
    DoubledCons('\n', s[2..]);
    DoubledCons('\r', ['\n'] + s[2..]);
    assert s == ['\r'] + (['\n'] + s[2..]);
    FlattenedBreak(Doubled(s[2..]));
    DoubledCons(' ', Flattened(s[2..]));
  }

  lemma FlattenedBreak(tail: string)
    ensures Flattened(['\r'] + (['\n'] + tail)) == [' '] + Flattened(tail)
  {
    assert (['\r'] + (['\n'] + tail))[2..] == tail;
  }

  lemma OtherAtTheHead(s: string)
    requires s != "" && HeadWidth(s) == 1 && s[0] != '"'
    ensures Flattened(Doubled(s)) == [if s[0] == '\n' then ' ' else s[0]] + Flattened(Doubled(s[1..]))
    ensures Doubled(Flattened(s)) == [if s[0] == '\n' then ' ' else s[0]] + Doubled(Flattened(s[1..]))
  {
    DoubledKeepsTheHead(s[1..]);
    FlattenedCons(s[0], Doubled(s[1..]));
    DoubledCons(if s[0] == '\n' then ' ' else s[0], Flattened(s[1..]));
  }

  lemma FlattenedCons(c: char, tail: string)
    requires c == '\r' ==> tail == "" || tail[0] != '\n'
    ensures Flattened([c] + tail) == [if c == '\n' then ' ' else c] + Flattened(tail)
  {
    assert ([c] + tail)[1..] == tail;
  }

  lemma DoubledCons(c: char, tail: string)
    ensures Doubled([c] + tail) == (if c == '"' then ['"', '"'] else [c]) + Doubled(tail)
  {
    assert ([c] + tail)[1..] == tail;
  }

  lemma DoubledKeepsTheHead(s: string)
    ensures s == "" <==> Doubled(s) == ""
    ensures s != "" ==> Doubled(s)[0] == s[0]
  {
  }

  lemma {:induction false} QuotedReads(value: string, rest: string)
    requires rest == "" || rest[0] != '"'
    ensures ReadQuoted(Doubled(value) + "\"" + rest) == Some(Field(value, rest))
  {
    var s := Doubled(value) + "\"" + rest;
    if value == "" {
      assert s == "\"" + rest && s[1..] == rest;
    } else {
      QuotedReads(value[1..], rest);
      var tail := Doubled(value[1..]) + "\"" + rest;
      if value[0] == '"' {
        assert s == "\"\"" + tail && s[2..] == tail;
      } else {
        assert s == [value[0]] + tail && s[1..] == tail;
      }
      assert [value[0]] + value[1..] == value;
    }
  }

  lemma {:induction false} PlainReads(value: string, rest: string)
    requires forall i :: 0 <= i < |value| ==> !EndsPlain(value[i])
    requires rest == "" || EndsPlain(rest[0])
    ensures ReadPlain(value + rest) == Field(value, rest)
  {
    if value == "" {
      assert value + rest == rest;
    } else {
      PlainReads(value[1..], rest);
      assert (value + rest)[1..] == value[1..] + rest;
      assert [value[0]] + value[1..] == value;
    }
  }

  predicate EndsCell(rest: string) { rest == "" || rest[0] == ',' || rest[0] == '\r' }

  /** Each printed cell reads back as the cell it stands for, whatever legal text follows. */
  lemma CellReads(c: Cell, rest: string)
    requires PrintCell(c).Ok? && EndsCell(rest)
    ensures ReadField(PrintCell(c).value + rest) == Some(Field(Decoded(c), rest))
  {
    if c.TextCell? {
      TextReads(c.text, rest);
    } else {
      IntegersArePlain(c.text);
      PlainReads(c.text, rest);
    }
  }

  lemma TextReads(text: string, rest: string)
    requires EndsCell(rest)
    ensures ReadField(CsvText(text) + rest) == Some(Field(Sanitised(text), rest))
  {
    var inside := Flattened(Doubled(Guarded(text)));
    DoublingAndFlattening(Guarded(text));
    QuotedReads(Sanitised(text), rest);
    assert (CsvText(text) + rest)[1..] == inside + "\"" + rest;
    assert (CsvText(text) + rest)[0] == '"';
  }

  lemma IntegersArePlain(s: string)
    requires IsInteger(s)
    ensures s != "" && forall i :: 0 <= i < |s| ==> !EndsPlain(s[i])
  {
    if s[0] == '-' {
      assert forall i :: 1 <= i < |s| ==> s[i] == s[1..][i - 1];
    }
  }

  lemma {:induction false} RowReads(row: seq<Cell>, rest: string)
    requires PrintCells(row).Ok? && (rest == "" || rest[0] == '\r')
    ensures ReadRecord(CsvRow(PrintCells(row).value) + rest) == Some(Record(DecodedRow(row), rest))
  {
    if row == [] {
      assert CsvRow([]) + rest == rest;
    } else if |row| == 1 {
      LastCellReads(row, rest);
    } else {
      RowReads(row[1..], rest);
      CellAndRowRead(row, rest);
    }
  }

  lemma LastCellReads(row: seq<Cell>, rest: string)
    requires |row| == 1 && PrintCells(row).Ok? && (rest == "" || rest[0] == '\r')
    ensures ReadRecord(CsvRow(PrintCells(row).value) + rest) == Some(Record(DecodedRow(row), rest))
  {
    assert DecodedRow(row) == [Decoded(row[0])];
    assert PrintCells(row).value == [PrintCell(row[0]).value];
    CellReads(row[0], rest);
  }

  lemma CellAndRowRead(row: seq<Cell>, rest: string)
    requires |row| > 1 && PrintCells(row).Ok?
    requires PrintCells(row[1..]).Ok?
      && ReadRecord(CsvRow(PrintCells(row[1..]).value) + rest) == Some(Record(DecodedRow(row[1..]), rest))
    ensures ReadRecord(CsvRow(PrintCells(row).value) + rest) == Some(Record(DecodedRow(row), rest))
  {
    RowUnfolds(row);
    var first, others := PrintCell(row[0]).value, CsvRow(PrintCells(row[1..]).value);
    assert first + ("," + others) + rest == first + ("," + (others + rest));
    CellReads(row[0], "," + (others + rest));
    assert ("," + (others + rest))[1..] == others + rest;
  }

  lemma RowUnfolds(row: seq<Cell>)
    requires |row| > 1 && PrintCells(row).Ok?
    ensures PrintCell(row[0]).Ok? && PrintCells(row[1..]).Ok?
    ensures CsvRow(PrintCells(row).value) == PrintCell(row[0]).value + ("," + CsvRow(PrintCells(row[1..]).value))
    ensures DecodedRow(row) == [Decoded(row[0])] + DecodedRow(row[1..])
  {
    PrintedOneForOne(row[1..]);
    JoinUnfolds(PrintCell(row[0]).value, PrintCells(row[1..]).value);
  }

  lemma JoinUnfolds(first: string, others: seq<string>)
    requires others != []
    ensures CsvRow([first] + others) == first + ("," + CsvRow(others))
  {
    assert ([first] + others)[1..] == others;
  }

  lemma {:induction false} PrintedOneForOne(row: seq<Cell>)
    requires PrintCells(row).Ok?
    ensures |PrintCells(row).value| == |row|
  {
    if row != [] { PrintedOneForOne(row[1..]); }
  }

  /** The whole exported file, read by the standard, is exactly the sanitised cells, row by row. */
  lemma {:induction false} ExportReads(rows: seq<seq<Cell>>)
    requires rows != [] && Export(rows).Ok?
    ensures ReadFile(Export(rows).value) == Some(DecodedRows(rows))
    decreases |rows|
  {
    var lines := PrintRows(rows).value;
    var file := Export(rows).value;
    var line := CsvRow(PrintCells(rows[0]).value);
    if |rows| == 1 {
      assert PrintRows(rows[1..]) == Ok([]);
      assert lines == [line];
      RowReads(rows[0], CRLF);
      assert DecodedRows(rows) == [DecodedRow(rows[0])];
    } else {
      assert lines[1..] == PrintRows(rows[1..]).value;
      LinesOneForOne(rows[1..]);
      var tail := Export(rows[1..]).value;
      assert file == line + (CRLF + tail);
      RowReads(rows[0], CRLF + tail);
      assert (CRLF + tail)[..2] == CRLF && (CRLF + tail)[2..] == tail;
      ExportReads(rows[1..]);
    }
  }

  lemma {:induction false} LinesOneForOne(rows: seq<seq<Cell>>)
    requires PrintRows(rows).Ok?
    ensures |PrintRows(rows).value| == |rows|
  {
    if rows != [] { LinesOneForOne(rows[1..]); }
  }

  /** An export fails exactly when some number cell is not an integer, and then nothing is written. */
  lemma {:induction false} ExportFailsExactlyWhen(rows: seq<seq<Cell>>)
    ensures Export(rows).Err? <==>
      exists r, c :: 0 <= r < |rows| && 0 <= c < |rows[r]| && rows[r][c].NumberCell? && !IsInteger(rows[r][c].text)
  {
    if rows != [] {
      RowFailsExactlyWhen(rows[0]);
      ExportFailsExactlyWhen(rows[1..]);
      var rest := rows[1..];
      assert forall r :: 1 <= r < |rows| ==> rows[r] == rest[r - 1];
      if exists r, c :: 0 <= r < |rest| && 0 <= c < |rest[r]| && rest[r][c].NumberCell? && !IsInteger(rest[r][c].text) {
        var r, c :| 0 <= r < |rest| && 0 <= c < |rest[r]| && rest[r][c].NumberCell? && !IsInteger(rest[r][c].text);
        assert rows[r + 1][c].NumberCell?;
      }
    }
  }

  lemma {:induction false} RowFailsExactlyWhen(row: seq<Cell>)
    ensures PrintCells(row).Err? <==> exists c :: 0 <= c < |row| && row[c].NumberCell? && !IsInteger(row[c].text)
  {
    if row != [] {
      RowFailsExactlyWhen(row[1..]);
      assert forall c :: 1 <= c < |row| ==> row[c] == row[1..][c - 1];
    }
  }

  // ---- No text cell is a formula -------------------------------------------------------------------------

  lemma {:induction false} FlatteningKeepsTheStart(s: string)
    ensures Flattened(TrimStart(s)) == TrimStart(Flattened(s))
    decreases |s|
  {
    if s != "" {
      FlattenedUnfolds(s);
      if IsSpace(s[0]) {
        TrimPastTheHead(s);
        FlatteningKeepsTheStart(s[HeadWidth(s)..]);
      }
    }
  }

  lemma FlattenedUnfolds(s: string)
    requires s != ""
    ensures Flattened(s) != "" && Flattened(s)[1..] == Flattened(s[HeadWidth(s)..])
    ensures IsSpace(Flattened(s)[0]) == IsSpace(s[0])
    ensures Flattened(s)[0] == s[0] || Flattened(s)[0] == ' '
  {
  }

  lemma TrimPastTheHead(s: string)
    requires s != "" && IsSpace(s[0])
    ensures TrimStart(s) == TrimStart(s[HeadWidth(s)..])
  {
    if HeadWidth(s) == 2 {
      assert s[1..][0] == '\n' && s[1..][1..] == s[2..];
    }
  }

  /** The texts a spreadsheet might calculate: they start with one of six characters. */
  predicate IsFormula(s: string) { s != "" && s[0] in {'=', '+', '-', '@', '\t', '\r'} }

  /** Once decoded, a text cell starts with no trigger, neither at its very start nor after leading white space. */
  lemma NoFormulaSurvives(text: string)
    ensures !IsFormula(Sanitised(text)) && !IsFormula(TrimStart(Sanitised(text)))
  {
    var guarded := Guarded(text);
    FlatteningKeepsTheStart(guarded);
    HarmlessHead(guarded);
    HarmlessHead(TrimStart(guarded));
    if IsDangerous(text) {
      assert TrimStart(guarded) == guarded;
    }
  }

  lemma HarmlessHead(s: string)
    requires !StartsDangerously(s)
    ensures !StartsDangerously(Flattened(s))
  {
    if s != "" { FlattenedUnfolds(s); }
  }
}
