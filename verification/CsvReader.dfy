/** The reader the catalogue import uses on files sellers send back (src/domain/bulkCatalog.ts). */
module CsvReader {
  import opened Prelude
  import opened Text
  import opened Csv

  /** What the reader's loop holds between two characters. */
  datatype Scanner = Scanner(rows: seq<seq<string>>, row: seq<string>, cell: string, quoted: bool)

  predicate IsBlank(row: seq<string>) { |row| == 1 && row[0] == "" }

  function Pushed(rows: seq<seq<string>>, row: seq<string>): seq<seq<string>> {
    if IsBlank(row) then rows else rows + [row]
  }

  function Width(s: string, st: Scanner): nat
    requires s != ""
    ensures 1 <= Width(s, st) <= |s|
  {
    if |s| > 1 && ((st.quoted && s[0] == '"' && s[1] == '"') || (!st.quoted && s[0] == '\r' && s[1] == '\n')) then 2
    else 1
  }

  function Moved(c: char, width: nat, st: Scanner): Scanner {
    if st.quoted then
      if c == '"' && width == 1 then st.(quoted := false) else st.(cell := st.cell + [c])
    else if c == '"' && st.cell == "" then st.(quoted := true)
    else if c == ',' then st.(row := st.row + [st.cell], cell := "")
    else if c == '\n' || c == '\r' then Scanner(Pushed(st.rows, st.row + [st.cell]), [], "", false)
    else st.(cell := st.cell + [c])
  }

  function Finished(st: Scanner): seq<seq<string>> {
    if st.cell != "" || st.row != [] then Pushed(st.rows, st.row + [st.cell]) else st.rows
  }

  function Scan(s: string, st: Scanner): seq<seq<string>>
    decreases |s|
  {
    if s == "" then Finished(st) else Scan(s[Width(s, st)..], Moved(s[0], Width(s, st), st))
  }

  const START := Scanner([], [], "", false)

  const BYTE_ORDER_MARK := 0xFEFF as char

  function WithoutMark(s: string): string { if s != "" && s[0] == BYTE_ORDER_MARK then s[1..] else s }

  /** The rows a file holds, as the loop below finds them. */
  function Parsed(text: string): seq<seq<string>> { Scan(WithoutMark(text), START) }

  /** The loop of the source: an index that sometimes skips a character, and four variables. */
  method ParseCsv(text: string) returns (rows: seq<seq<string>>)
    ensures rows == Parsed(text)
  {
    var src := if text != "" && text[0] == BYTE_ORDER_MARK then text[1..] else text;
    var row: seq<string>, cell, quoted := [], "", false;
    rows := [];
    var i := 0;
    while i < |src|
      invariant 0 <= i <= |src|
      invariant Scan(src[i..], Scanner(rows, row, cell, quoted)) == Parsed(text)
    {
      ghost var st, at := Scanner(rows, row, cell, quoted), i;
      ghost var width := Width(src[i..], st);
      OneMove(src, i, st);
      var c := src[i];
      if quoted {
        if c == '"' {
          if i + 1 < |src| && src[i + 1] == '"' { cell := cell + ['"']; i := i + 1; } else { quoted := false; }
        } else {
          cell := cell + [c];
        }
      } else if c == '"' && cell == "" {
        quoted := true;
      } else if c == ',' {
        row, cell := row + [cell], "";
      } else if c == '\n' || c == '\r' {
        if c == '\r' && i + 1 < |src| && src[i + 1] == '\n' { i := i + 1; }
        row, cell := row + [cell], "";
        if |row| > 1 || row[0] != "" { rows := rows + [row]; }
        row := [];
      } else {
        cell := cell + [c];
      }
      i := i + 1;
      assert i == at + width;
      assert Scanner(rows, row, cell, quoted) == Moved(c, width, st);
    }
    if cell != "" || row != [] {
      row := row + [cell];
      if |row| > 1 || row[0] != "" { rows := rows + [row]; }
    }
  }

  lemma OneMove(src: string, i: nat, st: Scanner)
    requires i < |src|
    ensures
      var w := Width(src[i..], st);
      && Scan(src[i..], st) == Scan(src[i + w..], Moved(src[i], w, st))
      && (w == 2 <==>
            i + 1 < |src| && ((st.quoted && src[i] == '"' && src[i + 1] == '"')
                              || (!st.quoted && src[i] == '\r' && src[i + 1] == '\n')))
  {
    var s := src[i..];
    assert src[i + Width(s, st)..] == s[Width(s, st)..];
    assert s[0] == src[i] && (i + 1 < |src| ==> s[1] == src[i + 1]);
  }

  /** A byte order mark in front of a file is no part of its first cell. */
  lemma MarkIsDropped(text: string)
    requires text == "" || text[0] as int != 0xFEFF
    ensures Parsed([0xFEFF as char] + text) == Parsed(text)
  {
    assert ([0xFEFF as char] + text)[1..] == text;
  }

  // ---- Agreement with the standard -----------------------------------------------------------------------

  /** The records of a file without those that are one empty field. */
  function WithoutBlanks(records: seq<seq<string>>): seq<seq<string>>
  {
    if records == [] then [] else (if IsBlank(records[0]) then [] else [records[0]]) + WithoutBlanks(records[1..])
  }

  lemma {:induction false} ScansPlain(s: string, st: Scanner)
    requires !st.quoted
    ensures Scan(s, st) == Scan(ReadPlain(s).rest, st.(cell := st.cell + ReadPlain(s).value))
  {
    if s == "" || EndsPlain(s[0]) {
      assert st.cell + "" == st.cell;
    } else {
      ScansPlain(s[1..], st.(cell := st.cell + [s[0]]));
      assert st.cell + [s[0]] + ReadPlain(s[1..]).value == st.cell + ReadPlain(s).value;
    }
  }

  lemma {:induction false} ScansQuoted(s: string, st: Scanner)
    requires st.quoted && ReadQuoted(s).Some?
    ensures Scan(s, st) == Scan(ReadQuoted(s).value.rest,
      st.(cell := st.cell + ReadQuoted(s).value.value, quoted := false))
    decreases |s|
  {
    if s[0] == '"' && !(|s| > 1 && s[1] == '"') {
      assert st.cell + "" == st.cell;
    } else {
      var tail := s[Width(s, st)..];
      ScansQuoted(tail, st.(cell := st.cell + [s[0]]));
      assert st.cell + [s[0]] + ReadQuoted(tail).value.value == st.cell + ReadQuoted(s).value.value;
    }
  }

  lemma ScansField(s: string, st: Scanner)
    requires !st.quoted && st.cell == "" && ReadField(s).Some?
    ensures Scan(s, st) == Scan(ReadField(s).value.rest, st.(cell := ReadField(s).value.value))
  {
    if s != "" && s[0] == '"' {
      ScansQuoted(s[1..], st.(quoted := true));
      assert st.cell + ReadField(s).value.value == ReadField(s).value.value;
    } else {
      ScansPlain(s, st);
      assert st.cell + ReadField(s).value.value == ReadField(s).value.value;
    }
  }

  /** After a record the scanner stands where the record ends, its last cell still open. */
  lemma {:induction false} ScansRecord(s: string, st: Scanner)
    requires !st.quoted && st.cell == "" && ReadRecord(s).Some?
    ensures
      var Record(cells, after) := ReadRecord(s).value;
      Scan(s, st) == Scan(after, st.(row := st.row + cells[..|cells| - 1], cell := cells[|cells| - 1]))
    decreases |s|
  {
    ScansField(s, st);
    var Field(value, rest) := ReadField(s).value;
    if rest == "" || rest[0] != ',' {
      assert st.row + [value][..0] == st.row;
    } else {
      ScansRecord(rest[1..], st.(row := st.row + [value]));
      CellsInFront(st.row, value, ReadRecord(rest[1..]).value.cells);
      assert Scan(rest, st.(cell := value)) == Scan(rest[1..], st.(row := st.row + [value], cell := ""));
    }
  }

  lemma CellsInFront(row: seq<string>, value: string, tail: seq<string>)
    requires tail != []
    ensures
      var cells := [value] + tail;
      row + [value] + tail[..|tail| - 1] == row + cells[..|cells| - 1] && tail[|tail| - 1] == cells[|cells| - 1]
  {
    var cells := [value] + tail;
    assert cells[..|cells| - 1] == [value] + tail[..|tail| - 1];
  }

  lemma {:induction false} ScansFile(s: string, rows: seq<seq<string>>)
    requires ReadFile(s).Some?
    ensures Scan(s, Scanner(rows, [], "", false)) == rows + WithoutBlanks(ReadFile(s).value)
    decreases |s|
  {
    var Record(cells, after) := ReadRecord(s).value;
    RecordIsPushed(s, rows);
    if after == "" || after == CRLF {
      PushedFirst(rows, cells, []);
    } else {
      ScansFile(after[2..], Pushed(rows, cells));
      PushedFirst(rows, cells, ReadFile(after[2..]).value);
    }
  }

  lemma RecordIsPushed(s: string, rows: seq<seq<string>>)
    requires ReadFile(s).Some?
    ensures
      var Record(cells, after) := ReadRecord(s).value;
      Scan(s, Scanner(rows, [], "", false)) ==
      if after == "" then Pushed(rows, cells) else Scan(after[2..], Scanner(Pushed(rows, cells), [], "", false))
  {
    ScansRecord(s, Scanner(rows, [], "", false));
    var Record(cells, after) := ReadRecord(s).value;
    var open := Scanner(rows, [] + cells[..|cells| - 1], cells[|cells| - 1], false);
    assert open.row + [open.cell] == cells;
    if after == "" {
      EndEndsRecord(open);
    } else {
      BreakEndsRecord(open, after);
    }
  }

  /** A line break puts the open record with the rows; so does the end of the file. */
  lemma BreakEndsRecord(open: Scanner, after: string)
    requires !open.quoted && |after| >= 2 && after[..2] == CRLF
    ensures Scan(after, open) == Scan(after[2..], Scanner(Pushed(open.rows, open.row + [open.cell]), [], "", false))
  {
    assert after[0] == after[..2][0] && after[1] == after[..2][1];
    assert Width(after, open) == 2;
  }

  lemma EndEndsRecord(open: Scanner)
    ensures Finished(open) == Pushed(open.rows, open.row + [open.cell])
  {
    if open.row == [] && open.cell == "" {
      assert open.row + [open.cell] == [""];
    }
  }

  lemma PushedFirst(rows: seq<seq<string>>, cells: seq<string>, rest: seq<seq<string>>)
    ensures rows + WithoutBlanks([cells] + rest) == Pushed(rows, cells) + WithoutBlanks(rest)
  {
    assert ([cells] + rest)[1..] == rest;
  }

  /** On every file that follows the standard, the seller's reader finds the same records, blank ones left out. */
  lemma AgreesWithTheStandard(text: string)
    requires ReadFile(WithoutMark(text)).Some?
    ensures Parsed(text) == WithoutBlanks(ReadFile(WithoutMark(text)).value)
  {
    ScansFile(WithoutMark(text), []);
  }

  /** An exported file comes back as its sanitised cells. */
  lemma ExportComesBack(rows: seq<seq<Cell>>)
    requires rows != [] && Export(rows).Ok?
    requires rows[0] != [] && rows[0][0].TextCell? // a header line comes first
    ensures Parsed(Export(rows).value) == WithoutBlanks(DecodedRows(rows))
  {
    ExportReads(rows);
    var file := Export(rows).value;
    assert file[0] == '"' by { StartsWithQuote(rows); }
    AgreesWithTheStandard(file);
  }

  lemma StartsWithQuote(rows: seq<seq<Cell>>)
    requires rows != [] && Export(rows).Ok? && rows[0] != [] && rows[0][0].TextCell?
    ensures Export(rows).value != "" && Export(rows).value[0] == '"'
  {
    var cells := PrintCells(rows[0]).value;
    assert cells[0][0] == '"';
    assert CsvRow(cells)[0] == '"';
    assert PrintRows(rows).value[0] == CsvRow(cells);
  }

  // ---- Does the seller get their own text back? ----------------------------------------------------------

  /** The import takes an export's apostrophe off again. */
  function Unquoted(v: string): string {
    if |v| > 1 && v[0] == '\'' && IsTrigger(v[1]) then v[1..] else v
  }

  /** What the import makes of a cell the export wrote for `text`. */
  function ReadBack(text: string): string { Unquoted(Trim(Sanitised(text))) }

  /** A plain column of the import: an empty cell leaves the value alone. */
  function PlainColumn(cell: string): Option<string> { if cell == "" then None else Some(cell) }

  datatype Edit = LeftAlone | Removed | Set(value: string)

  /** The word that asks for a value to be removed. */
  predicate IsClearWord(v: string) { Lower(v) == "clear" || Lower(v) == "(clear)" }

  /** A column that can be cleared: category, description and barcode. */
  function ClearableColumn(cell: string): Edit {
    match PlainColumn(cell)
    case None => LeftAlone
    case Some(v) => if IsClearWord(v) then Removed else Set(v)
  }

  /** Texts the guard cannot be undone on, or that only look guarded. */
  predicate GuardShows(text: string) {
    if IsDangerous(text) then IsSpace(text[0])
    else
      var v := Trim(Flattened(text));
      |v| > 1 && v[0] == '\'' && IsTrigger(v[1])
  }

  /**
   * The text comes back, up to white space at its ends and its line breaks, exactly when it neither hides a trigger
   * behind leading white space nor itself starts with an apostrophe and a trigger.
   */
  lemma ComesBackExactlyWhen(text: string)
    ensures ReadBack(text) == Trim(Flattened(text)) <==> !GuardShows(text)
  {
    if IsDangerous(text) {
      var f := Flattened(text);
      FlattenedCons('\'', text);
      FlattenedUnfolds(text);
      TrimmedGuard(f);
      if IsSpace(text[0]) {
        GuardedBehindSpace(f);
      } else {
        FlattenedHeadStays(text);
        EndKeepsHead(f);
      }
    }
  }

  /** A value left as it is: its own text, or nothing to say when there is none. */
  function AsItWas(text: string): Edit {
    var v := Trim(Flattened(text));
    if v == "" then LeftAlone else Set(v)
  }

  /** In a column that can be cleared the text must besides not be the word that clears it. */
  lemma ClearableComesBackExactlyWhen(text: string)
    ensures ClearableColumn(ReadBack(text)) == AsItWas(text) <==>
      !GuardShows(text) && !IsClearWord(Trim(Flattened(text)))
  {
    ComesBackExactlyWhen(text);
  }

  lemma PlainComesBackExactlyWhen(text: string)
    ensures PlainColumn(ReadBack(text)) == PlainColumn(Trim(Flattened(text))) <==> !GuardShows(text)
  {
    ComesBackExactlyWhen(text);
  }

  lemma ClearWordsArePlain(text: string)
    requires IsClearWord(text)
    ensures text != "" && !IsTrigger(text[0]) && text[0] != '\'' && forall i :: 0 <= i < |text| ==> !IsSpace(text[i])
  {
    var lower := Lower(text);
    forall i | 0 <= i < |text| ensures !IsSpace(text[i]) {
      assert lower[i] == LowerChar(text[i]);
      assert lower[i] in ['c', 'l', 'e', 'a', 'r', '(', ')'];
    }
    assert lower[0] == LowerChar(text[0]) && (lower[0] == 'c' || lower[0] == '(');
  }

  lemma {:induction false} UnbrokenIsFlat(s: string)
    requires forall i :: 0 <= i < |s| ==> !IsSpace(s[i])
    ensures Flattened(s) == s
  {
    if s != "" {
      assert HeadWidth(s) == 1 && s == [s[0]] + s[1..];
      UnbrokenIsFlat(s[1..]);
    }
  }

  /** A category the seller called "Clear", in any case, is removed by importing their own export. */
  lemma ClearIsRemoved(text: string)
    requires IsClearWord(text)
    ensures AsItWas(text) == Set(text) && ClearableColumn(ReadBack(text)) == Removed
  {
    ClearWordsArePlain(text);
    UnbrokenIsFlat(text);
    assert TrimStart(text) == text && Trim(text) == text;
    assert !GuardShows(text);
    ComesBackExactlyWhen(text);
  }

  /** A formula typed after a space comes back with an apostrophe the seller never wrote. */
  lemma HiddenTriggerGainsAnApostrophe(formula: string)
    requires formula != "" && IsTrigger(formula[0]) && !IsSpace(formula[0])
    ensures ReadBack(" " + formula) != Trim(Flattened(" " + formula))
  {
    SpaceThenWord(formula);
    ComesBackExactlyWhen(" " + formula);
  }

  lemma GuardedBehindSpace(f: string)
    requires f != "" && IsSpace(f[0])
    ensures Unquoted(['\''] + TrimEnd(f)) != Trim(f)
  {
    TrimmedIsNoLonger(f);
    if TrimEnd(f) != "" && IsTrigger(f[0]) {
      assert Unquoted(['\''] + TrimEnd(f)) == TrimEnd(f);
    }
  }

  lemma {:induction false} TrimmedIsNoLonger(f: string)
    ensures |Trim(f)| <= |TrimEnd(f)|
  {
    if f != "" && IsSpace(f[0]) {
      TrimmedIsNoLonger(f[1..]);
      EndOfTail(f);
    }
  }

  lemma {:induction false} EndOfTail(f: string)
    requires f != ""
    ensures |TrimEnd(f[1..])| <= |TrimEnd(f)|
    decreases |f|
  {
    if |f| > 1 && IsSpace(f[|f| - 1]) {
      var g := f[..|f| - 1];
      assert f[1..][..|f| - 2] == g[1..];
      EndOfTail(g);
    }
  }

  lemma FlattenedHeadStays(text: string)
    requires text != "" && !IsSpace(text[0])
    ensures Flattened(text)[0] == text[0]
  {
  }

  lemma TrimmedGuard(f: string)
    ensures Trim(['\''] + f) == ['\''] + TrimEnd(f)
    decreases |f|
  {
    var g := ['\''] + f;
    assert TrimStart(g) == g;
    EndOfGuard(f);
  }

  lemma {:induction false} EndOfGuard(f: string)
    ensures TrimEnd(['\''] + f) == ['\''] + TrimEnd(f)
    decreases |f|
  {
    var g := ['\''] + f;
    if f != "" && IsSpace(f[|f| - 1]) {
      assert g[|g| - 1] == f[|f| - 1] && g[..|g| - 1] == ['\''] + f[..|f| - 1];
      EndOfGuard(f[..|f| - 1]);
    } else {
      assert f != "" ==> g[|g| - 1] == f[|f| - 1];
    }
  }

  lemma {:induction false} EndKeepsHead(f: string)
    requires f != "" && !IsSpace(f[0])
    ensures TrimEnd(f) != "" && Trim(f) == TrimEnd(f)
    decreases |f|
  {
    if |f| > 1 && IsSpace(f[|f| - 1]) { EndKeepsHead(f[..|f| - 1]); }
  }
}
