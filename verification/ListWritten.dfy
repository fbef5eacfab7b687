/** A whole list, written in the plain shape and read back: headings, debts, payments, expenses and counted sales. */
module ListWritten {
  import opened Prelude
  import opened Text
  import opened Money
  import opened ListEntry
  import opened ListProofs
  import opened ListRoundTrip
  import opened ListMessage

  datatype Written =
    | Head(section: Section)
    | Plain(name: string, amount: nat)
    | Counted(name: string, quantity: nat, amount: nat)

  function HeadWord(section: Section): string {
    match section
    case Sale => "sale"
    case Debt => "debt"
    case Expense => "expense"
    case Payment => "payment"
  }

  function LineOf(w: Written, exp: nat): string {
    match w
    case Head(section) => HeadWord(section)
    case Plain(name, amount) => EntryLine(name, amount, exp)
    case Counted(name, quantity, amount) => EntryLine(name + (" " + Digits(quantity)), amount, exp)
  }

  function LinesFor(ws: seq<Written>, exp: nat): (lines: seq<string>)
    ensures |lines| == |ws| && forall k :: 0 <= k < |ws| ==> lines[k] == LineOf(ws[k], exp)
  {
    seq(|ws|, k requires 0 <= k < |ws| => LineOf(ws[k], exp))
  }

  /** Lines joined by line feeds, as they are sent. */
  function Message(lines: seq<string>): string {
    if lines == [] then "" else if |lines| == 1 then lines[0] else lines[0] + ("\n" + Message(lines[1..]))
  }

  function SectionBefore(ws: seq<Written>, k: nat): Section
    requires k <= |ws|
  {
    if k == 0 then Sale else if ws[k - 1].Head? then ws[k - 1].section else SectionBefore(ws, k - 1)
  }

  /** What a line may be in its section: sales have names without digits, and only they are counted. */
  predicate IsWritable(w: Written, section: Section) {
    match w
    case Head(_) => true
    case Plain(name, amount) =>
      IsCleanName(name) && name[0] != '/' && amount > 0 && (section == Sale ==> HasNoDigits(name))
    case Counted(name, quantity, amount) =>
      && section == Sale && IsCleanName(name) && name[0] != '/' && HasNoDigits(name) && Squeezed(name) == name
        && |name| <= 56
      && 0 < quantity < 1000 && amount > 0 && amount % quantity == 0
  }

  function MeantBy(w: Written, section: Section): seq<Entry> {
    match w
    case Head(_) => []
    case Plain(name, amount) => [Entry(section, name, 1, amount, amount)]
    case Counted(name, quantity, amount) =>
      if quantity == 0 then [] else [Entry(Sale, name, quantity, amount / quantity, amount)]
  }

  function Meant(ws: seq<Written>, k: nat): seq<Entry>
    requires k <= |ws|
  {
    if k == 0 then [] else Meant(ws, k - 1) + MeantBy(ws[k - 1], SectionBefore(ws, k - 1))
  }

  // ---------------------------------------------------------------- headings

  lemma {:induction false} NoDigitsNoDate(line: string, p: nat)
    requires p <= |line| && HasNoDigits(line)
    ensures FirstDate(line, p) == None
    decreases |line| - p
  {
    assert Run(line[p..], IsDigit) == 0 by { if p < |line| { assert line[p..][0] == line[p]; } }
    if p < |line| { NoDigitsNoDate(line, p + 1); }
  }

  lemma OneWord(word: string)
    requires IsWord(word)
    ensures Words(word) == [word]
  {
    FirstWordOf(word, "");
    assert word + "" == word;
  }

  lemma LowerStays(word: string)
    requires forall i :: 0 <= i < |word| ==> IsLowerLetter(word[i])
    ensures Lower(word) == word && IsWord(word) == (word != "") && HasNoDigits(word)
  {
  }

  /** No word before it in the table starts the line, and it does. */
  lemma {:induction false} SectionFound(line: string, words: seq<SectionWord>, k: nat)
    requires k < |words| && StartsWithWord(line, words[k].text)
    requires forall j :: 0 <= j < k ==> !StartsWithWord(line, words[j].text)
    ensures SectionOf(line, words) == Some(words[k].section)
    decreases k
  {
    if k > 0 {
      assert !StartsWithWord(line, words[0].text);
      SectionFound(line, words[1..], k - 1);
    }
  }

  lemma HeadWordStands(section: Section) returns (k: nat)
    ensures k < |SECTION_WORDS| && SECTION_WORDS[k] == SectionWord(HeadWord(section), section)
    ensures forall j :: 0 <= j < k ==>
      |SECTION_WORDS[j].text| > |HeadWord(section)| || SECTION_WORDS[j].text[0] != HeadWord(section)[0]
    ensures forall j :: 0 <= j < k ==> SECTION_WORDS[j].text != ""
  {
    match section
    case Sale => k := 1;
    case Debt => k := 4;
    case Expense => k := 13;
    case Payment => k := 17;
  }

  lemma HeadWordIsPlain(section: Section)
    ensures var w := HeadWord(section); w != "" && forall i :: 0 <= i < |w| ==> IsLowerLetter(w[i])
  {
  }

  lemma HeadSection(section: Section)
    ensures SectionOf(HeadWord(section), SECTION_WORDS) == Some(section)
  {
    var w := HeadWord(section);
    HeadWordIsPlain(section);
    LowerStays(w);
    var k := HeadWordStands(section);
    assert w[..|w|] == w;
    forall j | 0 <= j < k ensures !StartsWithWord(w, SECTION_WORDS[j].text) {
      var other := SECTION_WORDS[j].text;
      assert |other| <= |w| ==> Lower(w[..|other|])[0] == w[0];
    }
    SectionFound(w, SECTION_WORDS, k);
  }

  /** The words that open each section. */
  predicate Opens(word: string, section: Section) {
    match section
    case Sale => word == "sale" || word == "sales" || word == "sold"
    case Debt =>
      || word == "debt" || word == "debts" || word == "debtor" || word == "debtors" || word == "credit"
      || word == "credits" || word == "owe" || word == "owes" || word == "owing"
    case Expense => word == "expense" || word == "expenses" || word == "spent" || word == "spending"
    case Payment => word == "payment" || word == "payments" || word == "paid" || word == "received"
  }

  /** The first word of a line: its letters, digits and underscores up to anything else. */
  function FirstWord(line: string): string { Lower(line[..Run(line, IsWordChar)]) }

  lemma StartsWithItsFirstWord(line: string, word: string)
    requires word != "" && forall i :: 0 <= i < |word| ==> IsLowerLetter(word[i])
    ensures StartsWithWord(line, word) <==> FirstWord(line) == word
  {
    var n := Run(line, IsWordChar);
    if StartsWithWord(line, word) {
      forall i | 0 <= i < |word| ensures IsWordChar(line[i]) {
        assert Lower(line[..|word|])[i] == LowerChar(line[i]);
      }
      assert n == |word|;
    }
  }

  lemma {:induction false} LookedUp(line: string, words: seq<SectionWord>)
    ensures SectionOf(line, words).Some? ==>
      exists j :: 0 <= j < |words| && StartsWithWord(line, words[j].text)
                  && Some(words[j].section) == SectionOf(line, words)
    ensures SectionOf(line, words) == None ==> forall j :: 0 <= j < |words| ==> !StartsWithWord(line, words[j].text)
  {
    if words != [] && !StartsWithWord(line, words[0].text) { LookedUp(line, words[1..]); }
  }

  predicate IsPlainRow(w: SectionWord) {
    Opens(w.text, w.section) && w.text != "" && forall i :: 0 <= i < |w.text| ==> IsLowerLetter(w.text[i])
  }

  lemma FirstRowsOpen(j: nat)
    requires j < 6
    ensures IsPlainRow(SECTION_WORDS[j])
  {
  }

  lemma NextRowsOpen(j: nat)
    requires 6 <= j < 9
    ensures IsPlainRow(SECTION_WORDS[j])
  {
    if j == 6 {
      assert SECTION_WORDS[j].text == "debtor";
    } else if j == 7 {
      assert SECTION_WORDS[j].text == "credits";
    } else {
      assert SECTION_WORDS[j].text == "credit";
    }
  }

  lemma LaterRowsOpen(j: nat)
    requires 9 <= j < 12
    ensures IsPlainRow(SECTION_WORDS[j])
  {
  }

  lemma LastRowsOpen(j: nat)
    requires 12 <= j < 20
    ensures IsPlainRow(SECTION_WORDS[j])
  {
  }

  lemma TableOpens(j: nat)
    requires j < |SECTION_WORDS|
    ensures IsPlainRow(SECTION_WORDS[j])
  {
    if j < 6 {
      FirstRowsOpen(j);
    } else if j < 9 {
      NextRowsOpen(j);
    } else if j < 12 {
      LaterRowsOpen(j);
    } else {
      LastRowsOpen(j);
    }
  }

  lemma OpensInTable(word: string, section: Section) returns (j: nat)
    requires Opens(word, section)
    ensures j < |SECTION_WORDS| && SECTION_WORDS[j] == SectionWord(word, section)
  {
    match section
    case Sale => j := if word == "sales" then 0 else if word == "sale" then 1 else 2;
    case Debt =>
      j := if word == "debts" then 3 else if word == "debt" then 4 else if word == "debtors" then 5
           else if word == "debtor" then 6 else if word == "credits" then 7 else if word == "credit" then 8
           else if word == "owing" then 9 else if word == "owes" then 10 else 11;
    case Expense =>
      j := if word == "expenses" then 12 else if word == "expense" then 13 else if word == "spent" then 14 else 15;
    case Payment =>
      j := if word == "payments" then 16 else if word == "payment" then 17 else if word == "paid" then 18 else 19;
  }

  lemma OpensOne(word: string, a: Section, b: Section)
    requires Opens(word, a) && Opens(word, b)
    ensures a == b
  {
  }

  /** The section of a line is that of its whole first word, in small letters; the order of the table is no matter. */
  lemma SectionIsOfTheFirstWord(line: string, section: Section)
    ensures SectionOf(line, SECTION_WORDS) == Some(section) <==> Opens(FirstWord(line), section)
  {
    var found := SectionOf(line, SECTION_WORDS);
    LookedUp(line, SECTION_WORDS);
    if found.Some? {
      var j :| 0 <= j < |SECTION_WORDS| && StartsWithWord(line, SECTION_WORDS[j].text)
        && Some(SECTION_WORDS[j].section) == found;
      TableOpens(j);
      StartsWithItsFirstWord(line, SECTION_WORDS[j].text);
      if Opens(FirstWord(line), section) { OpensOne(FirstWord(line), section, found.value); }
    } else if Opens(FirstWord(line), section) {
      var j := OpensInTable(FirstWord(line), section);
      TableOpens(j);
      StartsWithItsFirstWord(line, FirstWord(line));
    }
  }

  /**
   * A line is a heading exactly if its first word opens a section, it has at most six words, no equals sign, and no
   * digit outside its first date.
   */
  lemma IsAHeadingExactlyWhen(line: string, h: Heading)
    ensures ReadHeading(line) == Some(h) <==>
      && Opens(FirstWord(line), h.section) && |Words(line)| <= 6 && '=' !in line && h.date == FirstDate(line, 0)
      && forall c :: c in (if h.date.Some? then ReplaceFirst(line, h.date.value, "") else line) ==> !IsDigit(c)
  {
    SectionIsOfTheFirstWord(line, h.section);
    var rest := if h.date.Some? then ReplaceFirst(line, h.date.value, "") else line;
    assert HasDigit(rest) <==> exists c :: c in rest && IsDigit(c);
    HeadingFrom(line, h);
  }

  lemma HeadingFrom(line: string, h: Heading)
    ensures ReadHeading(line) == Some(h) <==>
      && SectionOf(line, SECTION_WORDS) == Some(h.section) && |Words(line)| <= 6 && '=' !in line
      && h.date == FirstDate(line, 0)
      && !HasDigit(if h.date.Some? then ReplaceFirst(line, h.date.value, "") else line)
  {
  }

  lemma PlainHeadingIs(line: string, section: Section)
    requires '=' !in line && |Words(line)| <= 6 && SectionOf(line, SECTION_WORDS) == Some(section)
    requires FirstDate(line, 0) == None && !HasDigit(line)
    ensures ReadHeading(line) == Some(Heading(section, None))
  {
  }

  lemma WordIsBare(w: string)
    requires w != "" && forall i :: 0 <= i < |w| ==> IsLowerLetter(w[i])
    ensures '=' !in w && |Words(w)| == 1 && FirstDate(w, 0) == None && !HasDigit(w)
  {
    LowerStays(w);
    OneWord(w);
    NoDigitsNoDate(w, 0);
    assert forall i :: 0 <= i < |w| ==> w[i] != '=';
  }

  lemma HeadReads(section: Section)
    ensures ReadHeading(HeadWord(section)) == Some(Heading(section, None))
  {
    HeadWordIsPlain(section);
    HeadSection(section);
    WordIsBare(HeadWord(section));
    PlainHeadingIs(HeadWord(section), section);
  }

  // ---------------------------------------------------------------- a heading with a date

  /** Three numbers with slashes between them. */
  predicate IsDate(date: string, a: string, b: string, c: string) {
    && AllDigits(a) && 1 <= |a| <= 4 && AllDigits(b) && 1 <= |b| <= 2 && AllDigits(c) && 1 <= |c| <= 4
    && date == a + ("/" + (b + ("/" + c)))
  }

  lemma DateIsOne(date: string, a: string, b: string, c: string)
    requires IsDate(date, a, b, c)
    ensures |date| > 4 && IsDigit(date[0]) && forall i :: 0 <= i < |date| ==> IsDigit(date[i]) || date[i] == '/'
  {
    assert date[0] == a[0];
    forall i | 0 <= i < |date| ensures IsDigit(date[i]) || date[i] == '/' {
      if i < |a| { assert date[i] == a[i]; }
      else if |a| < i <= |a| + |b| { assert date[i] == b[i - |a| - 1]; }
      else if |a| + |b| + 1 < i { assert date[i] == c[i - |a| - |b| - 2]; }
    }
  }

  /** One number of a date, up to what ends it. */
  lemma NumberEnds(line: string, p: nat, number: string, rest: string)
    requires p <= |line| && line[p..] == number + rest && AllDigits(number) && (rest == "" || !IsDigit(rest[0]))
    ensures Run(line[p..], IsDigit) == |number| && line[p + |number|..] == rest
  {
    RunOver(number, rest, IsDigit);
  }

  /** Three numbers of `x`, `y` and `z` digits, with slashes between them, from `p` to the end of the line. */
  predicate DatePlace(line: string, p: nat, x: nat, y: nat, z: nat) {
    && 0 < p && p + x + y + z + 2 == |line| && 1 <= x <= 4 && 1 <= y <= 2 && 1 <= z <= 4
    && !IsWordChar(line[p - 1]) && Run(line[p..], IsDigit) == x && line[p + x] == '/'
    && Run(line[p + x + 1..], IsDigit) == y && line[p + x + 1 + y] == '/'
    && Run(line[p + x + y + 2..], IsDigit) == z
  }

  lemma DateAtIs(line: string, p: nat, x: nat, y: nat, z: nat)
    requires DatePlace(line, p, x, y, z)
    ensures DateAt(line, p) == Some(x + y + z + 2)
  {
    assert p + x + 1 + y + 1 == p + x + y + 2;
  }

  lemma DateParts(before: string, date: string, a: string, b: string, c: string)
    requires IsDate(date, a, b, c)
    ensures var line, p := before + date, |before|; var q := p + |a| + 1; var r := p + |a| + |b| + 2;
      && r + |c| == |line| && line[p + |a|] == '/' && line[p + |a| + 1 + |b|] == '/'
      && line[p..] == a + ("/" + (b + ("/" + c))) && line[q..] == b + ("/" + c) && line[r..] == c + ""
  {
  }

  lemma DateRuns(before: string, date: string, a: string, b: string, c: string)
    requires IsDate(date, a, b, c)
    ensures var line, p := before + date, |before|;
      && p + |a| + |b| + 2 <= |line| && Run(line[p..], IsDigit) == |a|
      && Run(line[p + |a| + 1..], IsDigit) == |b| && Run(line[p + |a| + |b| + 2..], IsDigit) == |c|
  {
    var line, p := before + date, |before|;
    DateParts(before, date, a, b, c);
    NumberEnds(line, p, a, "/" + (b + ("/" + c)));
    NumberEnds(line, p + |a| + 1, b, "/" + c);
    NumberEnds(line, p + |a| + |b| + 2, c, "");
  }

  lemma DateMarks(before: string, date: string, a: string, b: string, c: string)
    requires IsDate(date, a, b, c) && before != ""
    ensures var line, p := before + date, |before|;
      && p + |a| + |b| + |c| + 2 == |line| && |date| == |a| + |b| + |c| + 2 && line[p - 1] == before[p - 1]
      && line[p + |a|] == '/' && line[p + |a| + 1 + |b|] == '/'
  {
  }

  lemma DateIsPlaced(before: string, date: string, a: string, b: string, c: string)
    requires IsDate(date, a, b, c) && before != "" && !IsWordChar(before[|before| - 1])
    ensures DatePlace(before + date, |before|, |a|, |b|, |c|) && |date| == |a| + |b| + |c| + 2
  {
    DateMarks(before, date, a, b, c);
    DateRuns(before, date, a, b, c);
  }

  lemma DateIsSeen(before: string, date: string, a: string, b: string, c: string)
    requires IsDate(date, a, b, c) && before != "" && !IsWordChar(before[|before| - 1])
    ensures DateAt(before + date, |before|) == Some(|date|)
  {
    DateIsPlaced(before, date, a, b, c);
    DateAtIs(before + date, |before|, |a|, |b|, |c|);
  }

  lemma NoDateHere(line: string, p: nat)
    requires p < |line| && !IsDigit(line[p])
    ensures DateAt(line, p) == None
  {
    assert line[p..][0] == line[p];
  }

  lemma FirstDateGoesOn(line: string, p: nat)
    requires p < |line| && DateAt(line, p) == None
    ensures FirstDate(line, p) == FirstDate(line, p + 1)
  {
  }

  lemma {:induction false} DateIsFirst(line: string, p: nat, q: nat)
    requires p <= q < |line| && forall i :: p <= i < q ==> !IsDigit(line[i])
    ensures FirstDate(line, p) == FirstDate(line, q)
    decreases q - p
  {
    if p < q {
      NoDateHere(line, p);
      FirstDateGoesOn(line, p);
      DateIsFirst(line, p + 1, q);
    }
  }

  lemma FirstDateIs(line: string, p: nat, date: string)
    requires p + |date| <= |line| && line[p..p + |date|] == date && DateAt(line, p) == Some(|date|)
    ensures FirstDate(line, p) == Some(date)
  {
  }

  lemma DateIsTaken(word: string, date: string)
    requires HasNoDigits(word) && date != "" && IsDigit(date[0])
    ensures ReplaceFirst(word + date, date, "") == word
  {
    var line := word + date;
    var i := IndexOfText(line, date);
    assert line[|word|..] == date;
    assert forall k :: 0 <= k < |word| ==> line[k..][0] == word[k];
    assert i == |word|;
  }

  lemma LongerWordsDiffer(section: Section, k: nat)
    requires k < |SECTION_WORDS| && SECTION_WORDS[k] == SectionWord(HeadWord(section), section)
    ensures forall j :: 0 <= j < k && |SECTION_WORDS[j].text| > |HeadWord(section)| ==>
      SECTION_WORDS[j].text[|HeadWord(section)|] != ' '
  {
    match section
    case Sale =>
    case Debt =>
    case Expense =>
    case Payment =>
  }

  lemma HeadSectionBefore(section: Section, rest: string)
    ensures SectionOf(HeadWord(section) + (" " + rest), SECTION_WORDS) == Some(section)
  {
    var w := HeadWord(section);
    var line := w + (" " + rest);
    HeadWordIsPlain(section);
    LowerStays(w);
    var k := HeadWordStands(section);
    LongerWordsDiffer(section, k);
    assert line[..|w|] == w && line[|w|] == ' ';
    forall j | 0 <= j < k ensures !StartsWithWord(line, SECTION_WORDS[j].text) {
      var other := SECTION_WORDS[j].text;
      if |other| <= |line| {
        var front := Lower(line[..|other|]);
        if |other| > |w| { assert front[|w|] == ' '; } else { assert front[0] == w[0]; }
      }
    }
    SectionFound(line, SECTION_WORDS, k);
  }

  lemma RestIs(before: string, rest: string)
    ensures (before + rest)[|before|..|before| + |rest|] == rest
    ensures forall i :: 0 <= i < |before| ==> (before + rest)[i] == before[i]
  {
  }

  lemma SeenIsFirst(before: string, date: string, a: string, b: string, c: string)
    requires IsDate(date, a, b, c) && before != "" && !IsWordChar(before[|before| - 1])
    ensures FirstDate(before + date, |before|) == Some(date)
  {
    RestIs(before, date);
    DateIsSeen(before, date, a, b, c);
    FirstDateIs(before + date, |before|, date);
  }

  lemma NothingBefore(before: string, rest: string)
    requires HasNoDigits(before) && rest != ""
    ensures FirstDate(before + rest, 0) == FirstDate(before + rest, |before|)
  {
    RestIs(before, rest);
    DateIsFirst(before + rest, 0, |before|);
  }

  lemma DateStands(word: string, date: string, a: string, b: string, c: string)
    requires IsDate(date, a, b, c) && HasNoDigits(word)
    ensures FirstDate(word + " " + date, 0) == Some(date)
    ensures ReplaceFirst(word + " " + date, date, "") == word + " "
  {
    var before := word + " ";
    DateIsOne(date, a, b, c);
    SeenIsFirst(before, date, a, b, c);
    NothingBefore(before, date);
    DateIsTaken(before, date);
  }

  lemma NoEquals(word: string, date: string, a: string, b: string, c: string)
    requires IsDate(date, a, b, c) && forall i :: 0 <= i < |word| ==> IsLowerLetter(word[i])
    ensures '=' !in word + " " + date
  {
    DateIsOne(date, a, b, c);
    var line := word + " " + date;
    forall i | 0 <= i < |line| ensures line[i] != '=' {
      if i < |word| { assert line[i] == word[i]; }
      if i > |word| { assert line[i] == date[i - |word| - 1]; }
    }
  }

  lemma DatedLineIsBare(w: string, date: string, a: string, b: string, c: string)
    requires w != "" && (forall i :: 0 <= i < |w| ==> IsLowerLetter(w[i])) && IsDate(date, a, b, c)
    ensures var line := w + " " + date;
      && '=' !in line && |Words(line)| <= 6 && FirstDate(line, 0) == Some(date)
      && !HasDigit(ReplaceFirst(line, date, ""))
  {
    LowerStays(w);
    DateIsOne(date, a, b, c);
    assert w + " " + date == w + (" " + date);
    TwoWords(w, date);
    NoEquals(w, date, a, b, c);
    DateStands(w, date, a, b, c);
    assert !HasDigit(w + " ");
  }

  lemma DatedWordReads(w: string, section: Section, date: string, a: string, b: string, c: string)
    requires w != "" && (forall i :: 0 <= i < |w| ==> IsLowerLetter(w[i])) && IsDate(date, a, b, c)
    requires SectionOf(w + " " + date, SECTION_WORDS) == Some(section)
    ensures ReadHeading(w + " " + date) == Some(Heading(section, Some(date)))
  {
    DatedLineIsBare(w, date, a, b, c);
    HeadingIs(w + " " + date, section, date);
  }

  /** A section word with a date behind it opens its section and is dated. */
  lemma DatedHeadReads(section: Section, date: string, a: string, b: string, c: string)
    requires IsDate(date, a, b, c)
    ensures ReadHeading(HeadWord(section) + " " + date) == Some(Heading(section, Some(date)))
  {
    var w := HeadWord(section);
    assert w + " " + date == w + (" " + date);
    HeadWordIsPlain(section);
    HeadSectionBefore(section, date);
    DatedWordReads(w, section, date, a, b, c);
  }

  lemma HeadingIs(line: string, section: Section, date: string)
    requires '=' !in line && |Words(line)| <= 6 && SectionOf(line, SECTION_WORDS) == Some(section)
    requires FirstDate(line, 0) == Some(date) && !HasDigit(ReplaceFirst(line, date, ""))
    ensures ReadHeading(line) == Some(Heading(section, Some(date)))
  {
  }

  lemma TwoWords(w: string, date: string)
    requires IsWord(w) && IsWord(date)
    ensures |Words(w + (" " + date))| == 2
  {
    assert Join([w, date]) == w + (" " + date) by { assert [w, date][1..] == [date]; }
    WordsOfJoin([w, date]);
  }

  // ---------------------------------------------------------------- single lines

  lemma NoTokenWithoutDigits(s: string)
    requires HasNoDigits(s)
    ensures FirstToken(s, 0) == None
  {
    forall k | 0 <= k <= |s| ensures !IsTokenAt(s, k) {
      assert k < |s| ==> s[k..][0] == s[k];
    }
  }

  lemma PlainIsPriced(name: string, amount: nat, section: Section)
    requires section == Sale ==> HasNoDigits(name)
    ensures Priced(name, amount, section) == Entry(section, name, 1, amount, amount)
  {
    if section == Sale { NoTokenWithoutDigits(name); }
  }

  lemma PlainReads(name: string, amount: nat, section: Section, currency: Currency)
    requires IsWritable(Plain(name, amount), section) && currency.exp <= 2
    ensures ReadEntry(EntryLine(name, amount, currency.exp), section,
        currency) == Some(Entry(section, name, 1, amount, amount))
  {
    PrintedLineReads(name, amount, section, currency);
    PlainIsPriced(name, amount, section);
  }

  lemma EntryReads(w: Written, section: Section, currency: Currency)
    requires !w.Head? && IsWritable(w, section) && currency.exp <= 2
    ensures ReadHeading(LineOf(w, currency.exp)).None?
    ensures MeantBy(w, section) != []
      && ReadEntry(LineOf(w, currency.exp), section, currency) == Some(MeantBy(w, section)[0])
  {
    match w
    case Plain(name, amount) =>
      EntryLineIsNoHeading(name, amount, currency.exp);
      PlainReads(name, amount, section, currency);
    case Counted(name, quantity, amount) =>
      EntryLineIsNoHeading(name + (" " + Digits(quantity)), amount, currency.exp);
      SaleLineReadsBack(name, quantity, amount, currency);
  }

  /** A line as it must be to survive splitting and trimming. */
  predicate IsWholeLine(line: string) {
    && line != "" && !IsSpace(line[0]) && line[0] != '/' && !IsSpace(line[|line| - 1])
    && forall i :: 0 <= i < |line| ==> line[i] != '\n'
  }

  lemma EntryLineIsWhole(name: string, amount: nat, exp: nat)
    requires IsCleanName(name) && name[0] != '/'
    ensures IsWholeLine(EntryLine(name, amount, exp))
  {
    var printed := FormatUnsigned(amount, exp);
    var line := EntryLine(name, amount, exp);
    FormattedIsPlain(amount, exp);
    assert line[0] == name[0];
    assert line[|line| - 1] == printed[|printed| - 1] && printed[|printed| - 1] in printed;
    forall i | 0 <= i < |line| ensures line[i] != '\n' {
      if i < |name| { assert line[i] == name[i] && !IsLineEnd(name[i]); }
      if i >= |name| + 2 { assert line[i] == printed[i - |name| - 2] && line[i] in printed; }
    }
  }

  lemma LineIsWhole(w: Written, section: Section, exp: nat)
    requires IsWritable(w, section)
    ensures IsWholeLine(LineOf(w, exp))
  {
    match w
    case Head(s) => HeadWordIsPlain(s);
    case Plain(name, amount) => EntryLineIsWhole(name, amount, exp);
    case Counted(name, quantity, amount) =>
      CountedNameIsClean(name, quantity);
      EntryLineIsWhole(name + (" " + Digits(quantity)), amount, exp);
  }

  // ---------------------------------------------------------------- the whole message

  lemma {:induction false} BreakIsFound(line: string, rest: string)
    requires (forall i :: 0 <= i < |line| ==> line[i] != '\n') && (rest == "" || rest[0] == '\n')
    ensures IndexOf(line + rest, '\n') == |line|
  {
    if line == "" {
      assert line + rest == rest;
    } else {
      BreakIsFound(line[1..], rest);
      assert (line + rest)[1..] == line[1..] + rest;
    }
  }

  lemma SplitsAt(text: string, i: nat)
    requires i < |text| && IndexOf(text, '\n') == i
    ensures SplitLines(text) == [WithoutReturn(text[..i])] + SplitLines(text[i + 1..])
  {
  }

  lemma FirstLineSplits(line: string, rest: string)
    requires IsWholeLine(line)
    ensures SplitLines(line + ("\n" + rest)) == [line] + SplitLines(rest)
  {
    var text := line + ("\n" + rest);
    BreakIsFound(line, "\n" + rest);
    SplitsAt(text, |line|);
    assert text[..|line|] == line && text[|line| + 1..] == rest;
  }

  lemma OnlyLineSplits(line: string)
    requires IsWholeLine(line)
    ensures SplitLines(line) == [line]
  {
    BreakIsFound(line, "");
    assert line + "" == line;
  }

  lemma {:induction false} SplitBack(lines: seq<string>)
    requires lines != [] && forall k :: 0 <= k < |lines| ==> IsWholeLine(lines[k])
    ensures SplitLines(Message(lines)) == lines
    decreases |lines|
  {
    var line := lines[0];
    assert IsWholeLine(line);
    if |lines| == 1 {
      OnlyLineSplits(line);
      assert lines == [line];
    } else {
      FirstLineSplits(line, Message(lines[1..]));
      SplitBack(lines[1..]);
      assert lines == [line] + lines[1..];
    }
  }

  lemma {:induction false} TrimmedAlready(lines: seq<string>)
    requires forall k :: 0 <= k < |lines| ==> IsWholeLine(lines[k])
    ensures Trimmed(lines) == lines
  {
    if lines != [] {
      assert IsWholeLine(lines[0]);
      NothingToTrim(lines[0]);
      TrimmedAlready(lines[1..]);
      assert lines == [lines[0]] + lines[1..];
    }
  }

  ghost predicate AllWritable(ws: seq<Written>) {
    forall k :: 0 <= k < |ws| ==> IsWritable(ws[k], SectionBefore(ws, k))
  }

  /** The readers see each written line as what it was meant to be. */
  ghost predicate ReadsAsMeant(ws: seq<Written>, lines: seq<string>, r: Readers)
    requires |lines| == |ws|
  {
    forall k :: 0 <= k < |ws| ==>
      if ws[k].Head? then r.heading(lines[k]) == Some(Heading(ws[k].section, None))
      else r.heading(lines[k]).None? && MeantBy(ws[k], SectionBefore(ws, k)) != [] &&
           r.entry(lines[k], SectionBefore(ws, k)) == Some(MeantBy(ws[k], SectionBefore(ws, k))[0])
  }

  /** What one more line adds, as the reader sees it and as it was meant. */
  lemma OneLineReads(ws: seq<Written>, lines: seq<string>, r: Readers, k: nat)
    requires |lines| == |ws| && k < |ws| && ReadsAsMeant(ws, lines, r)
      && SectionAbove(lines, k, r) == SectionBefore(ws, k)
    ensures SectionAbove(lines, k + 1, r) == SectionBefore(ws, k + 1)
    ensures !KindAt(lines, k, r).Unreadable? && (r.heading(lines[k]).Some? ==> r.heading(lines[k]).value.date == None)
    ensures MeantBy(ws[k], SectionBefore(ws, k)) == match KindAt(lines, k, r) case Item(e) => [e] case _ => []
  {
    assert |MeantBy(ws[k], SectionBefore(ws, k))| <= 1;
  }

  lemma {:induction false} SectionsMatch(ws: seq<Written>, lines: seq<string>, r: Readers, k: nat)
    requires |lines| == |ws| && k <= |ws| && ReadsAsMeant(ws, lines, r)
    ensures SectionAbove(lines, k, r) == SectionBefore(ws, k)
  {
    if k > 0 { SectionsMatch(ws, lines, r, k - 1); }
  }

  predicate LineMatches(ws: seq<Written>, lines: seq<string>, r: Readers, k: nat)
    requires k < |lines| == |ws|
  {
    MeantBy(ws[k], SectionBefore(ws, k)) == match KindAt(lines, k, r) case Item(e) => [e] case _ => []
  }

  lemma {:induction false} MatchingLinesAddUp(ws: seq<Written>, lines: seq<string>, r: Readers, k: nat)
    requires k <= |lines| == |ws| && forall j :: 0 <= j < k ==> LineMatches(ws, lines, r, j)
    ensures EntriesAbove(lines, k, r) == Meant(ws, k)
  {
    if k > 0 {
      MatchingLinesAddUp(ws, lines, r, k - 1);
      assert LineMatches(ws, lines, r, k - 1);
    }
  }

  lemma EntriesMatch(ws: seq<Written>, lines: seq<string>, r: Readers, k: nat)
    requires |lines| == |ws| && k <= |ws| && ReadsAsMeant(ws, lines, r)
    ensures EntriesAbove(lines, k, r) == Meant(ws, k)
  {
    forall j | 0 <= j < k ensures LineMatches(ws, lines, r, j) {
      SectionsMatch(ws, lines, r, j);
      OneLineReads(ws, lines, r, j);
    }
    MatchingLinesAddUp(ws, lines, r, k);
  }

  lemma StaysReadable(lines: seq<string>, r: Readers, k: nat)
    requires k < |lines| && UnreadableAbove(lines, k, r) == [] && !KindAt(lines, k, r).Unreadable?
    ensures UnreadableAbove(lines, k + 1, r) == []
  {
  }

  lemma KindIsKnown(ws: seq<Written>, lines: seq<string>, r: Readers, k: nat)
    requires |lines| == |ws| && k < |ws| && ReadsAsMeant(ws, lines, r)
    ensures !KindAt(lines, k, r).Unreadable?
  {
    SectionsMatch(ws, lines, r, k);
    OneLineReads(ws, lines, r, k);
  }

  lemma {:induction false} AllReadable(lines: seq<string>, r: Readers, k: nat)
    requires k <= |lines| && forall j :: 0 <= j < k ==> !KindAt(lines, j, r).Unreadable?
    ensures UnreadableAbove(lines, k, r) == []
  {
    if k > 0 {
      AllReadable(lines, r, k - 1);
      StaysReadable(lines, r, k - 1);
    }
  }

  lemma {:induction false} NoneDated(ws: seq<Written>, lines: seq<string>, r: Readers, k: nat)
    requires |lines| == |ws| && k <= |ws| && ReadsAsMeant(ws, lines, r)
    ensures DateAbove(lines, k, r) == None
  {
    if k > 0 { NoneDated(ws, lines, r, k - 1); }
  }

  lemma LinesRead(ws: seq<Written>, lines: seq<string>, r: Readers)
    requires |lines| == |ws| >= 3 && ReadsAsMeant(ws, lines, r) && 2 <= |Meant(ws, |ws|)| <= MAX_LIST_ENTRIES
    requires forall k :: 0 <= k < |lines| ==> IsWholeLine(lines[k])
    ensures ReadLines(lines, r) == Some(ParsedList(Meant(ws, |ws|), [], None))
  {
    EntriesMatch(ws, lines, r, |ws|);
    forall k | 0 <= k < |lines| ensures !KindAt(lines, k, r).Unreadable? {
      KindIsKnown(ws, lines, r, k);
    }
    AllReadable(lines, r, |ws|);
    NoneDated(ws, lines, r, |ws|);
    forall k | 0 <= k < |lines| ensures !IsSlashed(lines[k]) {
      assert IsWholeLine(lines[k]);
    }
  }

  lemma WrittenReads(ws: seq<Written>, currency: Currency)
    requires AllWritable(ws) && currency.exp <= 2
    ensures ReadsAsMeant(ws, LinesFor(ws, currency.exp), ReadersFor(currency))
  {
    forall k | 0 <= k < |ws| ensures
      var line, r, section := LinesFor(ws, currency.exp)[k], ReadersFor(currency), SectionBefore(ws, k);
      if ws[k].Head? then r.heading(line) == Some(Heading(ws[k].section, None))
      else
        r.heading(line).None? && MeantBy(ws[k], section) != []
          && r.entry(line, section) == Some(MeantBy(ws[k], section)[0])
    {
      ReadersAre(LineOf(ws[k], currency.exp), SectionBefore(ws, k), currency);
      if ws[k].Head? { HeadReads(ws[k].section); } else { EntryReads(ws[k], SectionBefore(ws, k), currency); }
    }
  }

  lemma ReadersAre(line: string, section: Section, currency: Currency)
    ensures ReadersFor(currency).heading(line) == ReadHeading(line)
    ensures ReadersFor(currency).entry(line, section) == ReadEntry(line, section, currency)
  {
  }

  /**
   * A list of at least three lines with 2 to 40 entries, written in the plain shape under the four heading words, is
   * read as exactly the entries that were meant, in order and under their headings, with nothing unreadable.
   */
  lemma WrittenListReadsBack(ws: seq<Written>, currency: Currency)
    requires AllWritable(ws) && currency.exp <= 2 && |ws| >= 3 && 2 <= |Meant(ws, |ws|)| <= MAX_LIST_ENTRIES
    ensures ReadList(Message(LinesFor(ws, currency.exp)), currency) == Some(ParsedList(Meant(ws, |ws|), [], None))
  {
    var lines := LinesFor(ws, currency.exp);
    forall k | 0 <= k < |lines| ensures IsWholeLine(lines[k]) {
      LineIsWhole(ws[k], SectionBefore(ws, k), currency.exp);
    }
    SplitBack(lines);
    TrimmedAlready(lines);
    WrittenReads(ws, currency);
    LinesRead(ws, lines, ReadersFor(currency));
  }
}
