/** Slash commands typed without the slash (src/commands/bareCommands.ts). */
module BareCommands {
  import opened Prelude
  import opened Text
  import opened EditDistance

  /** The slash commands a bare message can stand for. */
  datatype Command = Undo | Today | Stock | LowStock | Help | Debts | Remind(rest: string)

  datatype Entry = Entry(word: string, command: Command)

  const EXACT_ONLY: set<string> := {"undo"}

  const DEBT_PHRASES: set<string> := {"who owes me", "who owes"}

  const TYPO_TOLERANT: seq<Entry> := [
    Entry("today", Today),
    Entry("stock", Stock),
    Entry("lowstock", LowStock),
    Entry("help", Help),
    Entry("debts", Debts),
    Entry("debt", Debts),
    Entry("owing", Debts),
    Entry("debtors", Debts)
  ]

  function StripPunctuation(s: string): string {
    if s != [] && s[|s| - 1] in {'?', '!', '.'} then StripPunctuation(s[..|s| - 1]) else s
  }

  /** The message as it is compared: trimmed, lower case, closing punctuation dropped, trimmed again. */
  function Normalise(text: string): string {
    Trim(StripPunctuation(Lower(Trim(text))))
  }

  /** The two captures of "a word, white space, then the rest of one line". */
  function VerbAndRest(message: string): Option<(string, string)> {
    var n := FirstWordLength(message);
    var rest := TrimStart(message[n..]);
    if n == 0 || n == |message| || rest == [] || (exists c :: c in rest && IsLineEnd(c)) then None
    else Some((message[..n], rest))
  }

  predicate IsPlainWord(message: string) {
    message != [] && forall c :: c in message ==> IsLowerLetter(c)
  }

  predicate SameLetters(a: string, b: string) {
    multiset(a) == multiset(b)
  }

  /** Whether a typed word is close enough to a table word to run its command. */
  predicate StandsFor(message: string, word: string) {
    || message == word
    || (|word| >= 5 && |message| >= 4 && Distance(message, word) <= 1)
    || (|word| == 4 && 3 <= |message| <= 5 && Distance(message, word) <= 1
        && !(|message| == 4 && !SameLetters(message, word)))
  }

  predicate IsRemind(message: string) {
    var parts := VerbAndRest(message);
    parts.Some? && |parts.value.0| >= 5 && Distance(parts.value.0, "remind") <= 1
  }

  function DropFirstWord(s: string): string {
    var n := FirstWordLength(s);
    if n == 0 || n == |s| then s else TrimStart(s[n..])
  }

  predicate IsUndoTypo(text: string) {
    var message := Normalise(text);
    3 <= |message| <= 5 && IsPlainWord(message) && message != "undo" && Distance(message, "undo") <= 1
  }

  // ---- What counts as a slip.

  /**
   * A message stands for a word of five letters or more exactly if one slip at most lies between them, and for one of
   * four letters if that slip is not a letter put in another's place; shorter words only stand for themselves.
   */
  lemma StandsForExactlyWhen(m: string, w: string)
    ensures StandsFor(m, w) <==>
      if |w| >= 5 then Distance(m, w) <= 1
      else if |w| == 4 then Distance(m, w) <= 1 && (|m| == 4 ==> multiset(m) == multiset(w))
      else m == w
  {
    DistanceZero(m, w);
    DistanceCoversLengthGap(m, w);
  }

  /** Case, white space around the message and closing punctuation do not matter. */
  lemma TypedLoosely(before: string, typed: string, marks: string, after: string)
    requires AllSpace(before) && AllSpace(after) && IsPlainWord(Lower(typed))
    requires forall c :: c in marks ==> c == '?' || c == '!' || c == '.'
    ensures Normalise(before + (typed + marks + after)) == Lower(typed)
  {
    var body := typed + marks;
    MessageBody(typed, marks);
    TrimOver(before, body + after);
    TrimEndOver(body, after);
    MarksAreStripped(Lower(typed), marks);
    assert Lower(typed)[0] in Lower(typed) && Lower(typed)[|typed| - 1] in Lower(typed);
    NothingToTrim(Lower(typed));
  }

  lemma MessageBody(typed: string, marks: string)
    requires IsPlainWord(Lower(typed))
    requires forall c :: c in marks ==> c == '?' || c == '!' || c == '.'
    ensures Lower(typed + marks) == Lower(typed) + marks && typed != ""
    ensures forall i :: 0 <= i < |typed + marks| ==> !IsSpace((typed + marks)[i])
  {
    forall i | 0 <= i < |typed| ensures !IsSpace(typed[i]) { assert Lower(typed)[i] in Lower(typed); }
    forall i | 0 <= i < |marks| ensures LowerChar(marks[i]) == marks[i] && !IsSpace(marks[i]) {
      assert marks[i] in marks;
    }
  }

  lemma {:induction false} TrimEndOver(body: string, space: string)
    requires AllSpace(space) && body != "" && !IsSpace(body[|body| - 1])
    ensures TrimEnd(body + space) == body
  {
    if space == "" {
      assert body + space == body;
    } else {
      var front := space[..|space| - 1];
      assert (body + space)[..|body + space| - 1] == body + front;
      TrimEndOver(body, front);
    }
  }

  lemma {:induction false} MarksAreStripped(word: string, marks: string)
    requires IsPlainWord(word) && forall c :: c in marks ==> c == '?' || c == '!' || c == '.'
    ensures StripPunctuation(word + marks) == word
  {
    var all := word + marks;
    if marks == "" {
      assert all == word && word[|word| - 1] in word;
    } else {
      assert all[|all| - 1] == marks[|marks| - 1] && marks[|marks| - 1] in marks;
      assert all[..|all| - 1] == word + marks[..|marks| - 1];
      var front := marks[..|marks| - 1];
      forall c | c in front ensures c == '?' || c == '!' || c == '.' { assert c in marks; }
      MarksAreStripped(word, front);
    }
  }

  // ---- Why the table is unambiguous: one slip can lose at most one letter of a word.

  lemma {:induction false} OneSlipLosesOneLetter(m: string, w: string, c: char, d: char)
    requires Distance(m, w) <= 1
    requires c in w && d in w && c != d
    ensures c in m || d in m
    decreases |w|
  {
    if m == [] {
    } else if m[0] == w[0] {
      if c != w[0] && d != w[0] {
        SharedHeadIsFree(m, w);
        assert w == [w[0]] + w[1..] && m == [m[0]] + m[1..];
        OneSlipLosesOneLetter(m[1..], w[1..], c, d);
        assert forall e :: e in m[1..] ==> e in m;
      } else {
        assert m[0] in m;
      }
    } else {
      OneSlipAtHead(m, w);
      assert w == [w[0]] + w[1..] && m == [m[0]] + m[1..];
      if m[1..] == w[1..] || m == w[1..] {
        assert forall e :: e in w[1..] ==> e in m;
      } else if m[1..] == w {
        assert forall e :: e in w ==> e in m;
      } else {
        assert w == [w[0], w[1]] + w[2..] && m == [w[1], w[0]] + m[2..];
      }
    }
  }

  function Letters(w: string): set<char> { set c | c in w }

  /** Three letters of one alphabet that another does not have. */
  predicate ThreeExtra(v: set<char>, w: set<char>, c: char, d: char, e: char) {
    && c != d && d != e && c != e
    && c in v && d in v && e in v
    && c !in w && d !in w && e !in w
  }

  predicate Apart(v: set<char>, w: set<char>) {
    exists c, d, e | c in v + w && d in v + w && e in v + w :: ThreeExtra(v, w, c, d, e) || ThreeExtra(w, v, c, d, e)
  }

  lemma {:induction false} ThreeExtraLetters(m: string, v: string, w: string, c: char, d: char, e: char)
    requires ThreeExtra(Letters(v), Letters(w), c, d, e)
    ensures Distance(m, v) > 1 || Distance(m, w) > 1
  {
    DistanceSymmetric(m, w);
    if Distance(m, v) <= 1 {
      OneSlipLosesOneLetter(m, v, c, d);
      OneSlipLosesOneLetter(m, v, d, e);
      OneSlipLosesOneLetter(m, v, c, e);
      if Distance(m, w) <= 1 {
        if c !in m { OneSlipLosesOneLetter(w, m, d, e); }
        else if d !in m { OneSlipLosesOneLetter(w, m, c, e); }
        else { OneSlipLosesOneLetter(w, m, c, d); }
      }
    }
  }

  /** No message is one slip from two words when one has three letters the other lacks. */
  lemma {:induction false} NoSharedSlip(m: string, v: string, w: string)
    requires Apart(Letters(v), Letters(w))
    ensures Distance(m, v) > 1 || Distance(m, w) > 1
  {
    var c, d, e :| ThreeExtra(Letters(v), Letters(w), c, d, e) || ThreeExtra(Letters(w), Letters(v), c, d, e);
    if ThreeExtra(Letters(v), Letters(w), c, d,
        e) { ThreeExtraLetters(m, v, w, c, d, e); } else { ThreeExtraLetters(m, w, v, c, d, e); }
  }

  const TODAY := {'t', 'o', 'd', 'a', 'y'}
  const STOCK := {'s', 't', 'o', 'c', 'k'}
  const LOWSTOCK := {'l', 'o', 'w', 's', 't', 'c', 'k'}
  const HELP := {'h', 'e', 'l', 'p'}
  const DEBTS := {'d', 'e', 'b', 't', 's'}
  const DEBT := {'d', 'e', 'b', 't'}
  const OWING := {'o', 'w', 'i', 'n', 'g'}
  const DEBTORS := {'d', 'e', 'b', 't', 'o', 'r', 's'}
  const UNDO := {'u', 'n', 'd', 'o'}

  lemma Spelling(w: string)
    ensures w == "today" ==> Letters(w) == TODAY
    ensures w == "stock" ==> Letters(w) == STOCK
    ensures w == "lowstock" ==> Letters(w) == LOWSTOCK
    ensures w == "help" ==> Letters(w) == HELP
    ensures w == "debts" ==> Letters(w) == DEBTS
    ensures w == "debt" ==> Letters(w) == DEBT
    ensures w == "owing" ==> Letters(w) == OWING
    ensures w == "debtors" ==> Letters(w) == DEBTORS
    ensures w == "undo" ==> Letters(w) == UNDO
  {
  }

  lemma TodayIsApart()
    ensures Apart(TODAY, STOCK) && Apart(TODAY, LOWSTOCK) && Apart(TODAY, HELP) && Apart(TODAY, DEBTS)
    ensures Apart(TODAY, DEBT) && Apart(TODAY, OWING) && Apart(TODAY, DEBTORS) && Apart(TODAY, UNDO)
  {
    assert ThreeExtra(TODAY, STOCK, 'd', 'a', 'y');
    assert ThreeExtra(TODAY, LOWSTOCK, 'd', 'a', 'y');
    assert ThreeExtra(TODAY, HELP, 'o', 'a', 'y');
    assert ThreeExtra(TODAY, DEBTS, 'o', 'a', 'y');
    assert ThreeExtra(TODAY, DEBT, 'o', 'a', 'y');
    assert ThreeExtra(TODAY, OWING, 't', 'a', 'd');
    assert ThreeExtra(DEBTORS, TODAY, 'e', 'b', 'r');
    assert ThreeExtra(TODAY, UNDO, 't', 'a', 'y');
  }

  lemma HelpIsApart()
    ensures Apart(HELP, STOCK) && Apart(HELP, LOWSTOCK) && Apart(HELP, DEBTS) && Apart(HELP, DEBT)
    ensures Apart(HELP, OWING) && Apart(HELP, DEBTORS) && Apart(HELP, UNDO)
  {
    assert ThreeExtra(HELP, STOCK, 'h', 'e', 'p');
    assert ThreeExtra(HELP, LOWSTOCK, 'h', 'e', 'p');
    assert ThreeExtra(HELP, DEBTS, 'h', 'l', 'p');
    assert ThreeExtra(HELP, DEBT, 'h', 'l', 'p');
    assert ThreeExtra(HELP, OWING, 'h', 'e', 'p');
    assert ThreeExtra(HELP, DEBTORS, 'h', 'l', 'p');
    assert ThreeExtra(HELP, UNDO, 'h', 'e', 'p');
  }

  lemma DebtIsApart()
    ensures Apart(DEBTS, STOCK) && Apart(DEBT, STOCK) && Apart(OWING, STOCK) && Apart(DEBTORS, STOCK)
    ensures Apart(DEBTS, LOWSTOCK) && Apart(DEBT, LOWSTOCK) && Apart(OWING, LOWSTOCK) && Apart(DEBTORS, LOWSTOCK)
    ensures Apart(DEBTS, UNDO) && Apart(DEBT, UNDO) && Apart(OWING, UNDO) && Apart(STOCK, UNDO)
  {
    assert ThreeExtra(DEBTS, STOCK, 'd', 'e', 'b') && ThreeExtra(DEBTS, LOWSTOCK, 'd', 'e', 'b');
    assert ThreeExtra(DEBT, STOCK, 'd', 'e', 'b') && ThreeExtra(DEBT, LOWSTOCK, 'd', 'e', 'b');
    assert ThreeExtra(OWING, STOCK, 'i', 'n', 'g') && ThreeExtra(OWING, LOWSTOCK, 'i', 'n', 'g');
    assert ThreeExtra(DEBTORS, STOCK, 'd', 'e', 'b') && ThreeExtra(DEBTORS, LOWSTOCK, 'd', 'e', 'b');
    assert ThreeExtra(DEBTS, UNDO, 'e', 'b', 't') && ThreeExtra(DEBT, UNDO, 'e', 'b', 't');
    assert ThreeExtra(OWING, UNDO, 'w', 'i', 'g') && ThreeExtra(STOCK, UNDO, 's', 't', 'c');
  }

  predicate IsDebtWord(w: string) { w == "debts" || w == "debt" || w == "owing" || w == "debtors" }

  predicate IsStockWord(w: string) { w == "stock" || w == "lowstock" }

  /** Words of different commands are told apart by their letters (the two stock words by their lengths instead). */
  lemma WordsAreApart(v: string, w: string)
    requires || (v == "today" && (w == "help" || IsStockWord(w) || IsDebtWord(w) || w == "undo"))
             || (v == "help" && (IsStockWord(w) || IsDebtWord(w) || w == "undo"))
             || (IsDebtWord(v) && (IsStockWord(w) || (w == "undo" && v != "debtors")))
             || (v == "stock" && w == "undo")
    ensures Apart(Letters(v), Letters(w))
  {
    Spelling(v);
    Spelling(w);
    TodayIsApart();
    HelpIsApart();
    DebtIsApart();
  }

  lemma StandsForIsClose(m: string, w: string)
    requires StandsFor(m, w)
    ensures Distance(m, w) <= 1
    ensures |m| <= |w| + 1 && |w| <= |m| + 1
  {
    DistanceZero(m, w);
    DistanceCoversLengthGap(m, w);
  }

  lemma {:induction false} FarWordsNeverClash(m: string, v: string, w: string)
    requires || (v == "today" && (w == "help" || IsStockWord(w) || IsDebtWord(w)))
             || (v == "help" && (IsStockWord(w) || IsDebtWord(w)))
             || (IsDebtWord(v) && IsStockWord(w))
    ensures !StandsFor(m, v) || !StandsFor(m, w)
  {
    WordsAreApart(v, w);
    NoSharedSlip(m, v, w);
    if StandsFor(m, v) { StandsForIsClose(m, v); }
    if StandsFor(m, w) { StandsForIsClose(m, w); }
  }

  lemma {:induction false} StockWordsNeverClash(m: string, v: string, w: string)
    requires |v| + 2 < |w|
    ensures !StandsFor(m, v) || !StandsFor(m, w)
  {
    if StandsFor(m, v) { StandsForIsClose(m, v); }
    if StandsFor(m, w) { StandsForIsClose(m, w); }
  }

  lemma WordsOfCommands(e: Entry)
    requires e in TYPO_TOLERANT
    ensures e.word == "today" <==> e.command == Today
    ensures e.word == "stock" <==> e.command == Stock
    ensures e.word == "lowstock" <==> e.command == LowStock
    ensures e.word == "help" <==> e.command == Help
    ensures IsDebtWord(e.word) <==> e.command == Debts
    ensures e.word == "today" || e.word == "help" || IsStockWord(e.word) || IsDebtWord(e.word)
  {
  }

  /** No message stands for words of two different commands. */
  lemma {:induction false} CommandsNeverClash(m: string, e: Entry, f: Entry)
    requires e in TYPO_TOLERANT && f in TYPO_TOLERANT
    requires StandsFor(m, e.word) && StandsFor(m, f.word)
    ensures e.command == f.command
  {
    WordsOfCommands(e);
    WordsOfCommands(f);
    var v, w := e.word, f.word;
    if v != w {
      if v == "stock" && w == "lowstock" { StockWordsNeverClash(m, v, w); }
      else if v == "lowstock" && w == "stock" { StockWordsNeverClash(m, w, v); }
      else if v == "today" { FarWordsNeverClash(m, v, w); }
      else if w == "today" { FarWordsNeverClash(m, w, v); }
      else if v == "help" { FarWordsNeverClash(m, v, w); }
      else if w == "help" { FarWordsNeverClash(m, w, v); }
      else if IsDebtWord(v) && IsStockWord(w) { FarWordsNeverClash(m, v, w); }
      else if IsStockWord(v) && IsDebtWord(w) { FarWordsNeverClash(m, w, v); }
    }
  }

  /** A slip of "undo" is nobody else's slip: the longer words are ruled out by their length. */
  lemma {:induction false} UndoIsAlone(m: string, e: Entry, undo: string)
    requires e in TYPO_TOLERANT && undo == "undo" && Distance(m, undo) <= 1
    ensures !StandsFor(m, e.word)
  {
    WordsOfCommands(e);
    DistanceCoversLengthGap(m, undo);
    if StandsFor(m, e.word) {
      StandsForIsClose(m, e.word);
      if e.word != "lowstock" && e.word != "debtors" {
        WordsAreApart(e.word, undo);
        NoSharedSlip(m, e.word, undo);
      }
    }
  }

  /** Any other order or repetition of the same table entries reads every message alike. */
  function Lookup(table: seq<Entry>, message: string): Option<Command>
    decreases |table|
  {
    if table == [] then None
    else if StandsFor(message, table[0].word) then Some(table[0].command)
    else Lookup(table[1..], message)
  }

  lemma {:induction false} LookupFinds(table: seq<Entry>, message: string)
    ensures Lookup(table, message).None? <==> forall e :: e in table ==> !StandsFor(message, e.word)
    ensures Lookup(table, message).Some? ==>
      exists e :: e in table && StandsFor(message, e.word) && Lookup(table, message) == Some(e.command)
  {
    if table != [] {
      assert table == [table[0]] + table[1..];
      LookupFinds(table[1..], message);
      assert table[0] in table;
    }
  }

  lemma {:induction false} TableOrderNeverMatters(table: seq<Entry>, message: string)
    requires forall e :: e in table <==> e in TYPO_TOLERANT
    ensures Lookup(table, message) == Lookup(TYPO_TOLERANT, message)
  {
    LookupFinds(table, message);
    LookupFinds(TYPO_TOLERANT, message);
    if Lookup(table, message).Some? {
      var e :| e in table && StandsFor(message, e.word) && Lookup(table, message) == Some(e.command);
      var f :| f in TYPO_TOLERANT && StandsFor(message, f.word) && Lookup(TYPO_TOLERANT, message) == Some(f.command);
      CommandsNeverClash(message, e, f);
    }
  }

  lemma {:induction false} TableNeverUndoes(m: string, undo: string)
    requires undo == "undo" && Distance(m, undo) <= 1
    ensures TableCommand(m) == None
  {
    LookupFinds(TYPO_TOLERANT, m);
    forall e | e in TYPO_TOLERANT ensures !StandsFor(m, e.word) { UndoIsAlone(m, e, undo); }
  }

  /** What the table says of a plain word. */
  function TableCommand(message: string): Option<Command> {
    Lookup(TYPO_TOLERANT, message)
  }

  lemma TableNeverRunsUndo(message: string)
    ensures TableCommand(message) != Some(Undo)
  {
    LookupFinds(TYPO_TOLERANT, message);
  }

  lemma PlainWordIsNoRemind(m: string)
    requires IsPlainWord(m)
    ensures !IsRemind(m) && m !in DEBT_PHRASES
  {
    assert forall i :: 0 <= i < |m| ==> m[i] in m;
    assert "who owes"[3] == ' ' && "who owes me"[3] == ' ';
  }

  /** The loop over the table: the first word the message stands for wins. */
  method MatchTable(table: seq<Entry>, message: string) returns (command: Option<Command>)
    ensures command == Lookup(table, message)
  {
    var i := 0;
    while i < |table|
      invariant 0 <= i <= |table|
      invariant Lookup(table[i..], message) == Lookup(table, message)
    {
      var word := table[i].word;
      DistanceZero(message, word);
      if message == word { return Some(table[i].command); }
      var close := WithinOneEdit(message, word);
      if |word| >= 5 && |message| >= 4 && close { return Some(table[i].command); }
      if |word| == 4 && 3 <= |message| <= 5 && close && !(|message| == 4 && !SameLetters(message, word)) {
        return Some(table[i].command);
      }
      assert table[i..][1..] == table[i + 1..];
      i := i + 1;
    }
    return None;
  }

  /** The decision on a normalised message; `rest` is what a reminder would carry. */
  method MatchMessage(message: string, rest: string) returns (command: Option<Command>)
    ensures message == "undo" <==> command == Some(Undo)
    ensures message in DEBT_PHRASES ==> command == Some(Debts)
    ensures message !in DEBT_PHRASES && IsRemind(message) ==> command == Some(Remind(rest))
    ensures IsPlainWord(message) && message != "undo" ==> command == TableCommand(message)
    ensures !IsPlainWord(message) && message !in DEBT_PHRASES && !IsRemind(message) ==> command == None
  {
    if message == "undo" { PlainWordIsNoRemind(message); return Some(Undo); }
    if message == [] { return None; }
    if IsPlainWord(message) { PlainWordIsNoRemind(message); TableNeverRunsUndo(message); }
    if message in DEBT_PHRASES { return Some(Debts); }
    if IsRemind(message) { return Some(Remind(rest)); }
    if !IsPlainWord(message) || message in EXACT_ONLY { return None; }
    command := MatchTable(TYPO_TOLERANT, message);
  }

  /** Reads a message as a slash command; None when it is not one. */
  method MatchBareCommand(text: string) returns (command: Option<Command>)
    ensures Normalise(text) == "undo" <==> command == Some(Undo)
    ensures Normalise(text) in DEBT_PHRASES ==> command == Some(Debts)
    ensures Normalise(text) !in DEBT_PHRASES && IsRemind(Normalise(text)) ==>
      command == Some(Remind(DropFirstWord(Trim(text))))
    ensures IsPlainWord(Normalise(text)) && Normalise(text) != "undo" ==> command == TableCommand(Normalise(text))
    ensures !IsPlainWord(Normalise(text)) && Normalise(text) !in DEBT_PHRASES && !IsRemind(Normalise(text)) ==>
      command == None
    ensures IsUndoTypo(text) ==> command == None
  {
    command := MatchMessage(Normalise(text), DropFirstWord(Trim(text)));
    if IsUndoTypo(text) { TableNeverUndoes(Normalise(text), "undo"); }
  }
}
