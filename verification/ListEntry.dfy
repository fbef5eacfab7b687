/** One line of a shop owner's list (src/ai/listEntry.ts): a heading, an entry, or neither. */
module ListEntry {
  import opened Prelude
  import opened Text
  import opened Money

  datatype Section = Sale | Debt | Expense | Payment

  datatype Entry = Entry(section: Section, name: string, quantity: nat, unitPrice: int, amount: int)

  datatype Heading = Heading(section: Section, date: Option<string>)

  /** A business's own currency: its code and its number of decimals. */
  datatype Currency = Currency(code: string, exp: nat)

  const EN_DASH := 0x2013 as char

  predicate IsSeparator(c: char) { c == '=' || c == ':' || c == '-' || c == EN_DASH }

  predicate IsDigitOrComma(c: char) { IsDigit(c) || c == ',' }

  predicate HasLetter(s: string) { exists i :: 0 <= i < |s| && IsLetter(s[i]) }

  predicate HasDigit(s: string) { exists i :: 0 <= i < |s| && IsDigit(s[i]) }

  /** How many leading characters satisfy a test. */
  function Run(s: string, test: char -> bool): (n: nat)
    ensures n <= |s| && (forall i :: 0 <= i < n ==> test(s[i])) && (n < |s| ==> !test(s[n]))
  {
    if s != "" && test(s[0]) then 1 + Run(s[1..], test) else 0
  }

  // ---------------------------------------------------------------- headings

  datatype SectionWord = SectionWord(text: string, section: Section)

  /** Every word the heading patterns accept, in the order they are tried. */
  const SECTION_WORDS := [
    SectionWord("sales", Sale), SectionWord("sale", Sale), SectionWord("sold", Sale),
    SectionWord("debts", Debt), SectionWord("debt", Debt), SectionWord("debtors", Debt), SectionWord("debtor", Debt),
    SectionWord("credits", Debt), SectionWord("credit", Debt), SectionWord("owing", Debt), SectionWord("owes", Debt),
    SectionWord("owe", Debt),
    SectionWord("expenses", Expense), SectionWord("expense", Expense), SectionWord("spent", Expense),
    SectionWord("spending", Expense),
    SectionWord("payments", Payment), SectionWord("payment", Payment), SectionWord("paid", Payment),
    SectionWord("received", Payment)]

  predicate StartsWithWord(line: string, word: string) {
    && |word| <= |line| && Lower(line[..|word|]) == word
    && (|word| == |line| || !IsWordChar(line[|word|]))
  }

  function SectionOf(line: string, words: seq<SectionWord>): Option<Section>
    decreases |words|
  {
    if words == [] then None
    else if StartsWithWord(line, words[0].text) then Some(words[0].section)
    else SectionOf(line, words[1..])
  }

  predicate IsDateMark(c: char) { c == '/' || c == '.' || c == '-' }

  /** The length of a date that starts at `p`, standing free of other word characters. */
  function DateAt(line: string, p: nat): Option<nat>
    requires p <= |line|
  {
    var a := Run(line[p..], IsDigit);
    if (p > 0 && IsWordChar(line[p - 1])) || !(1 <= a <= 4) || p + a >= |line| || !IsDateMark(line[p + a]) then None
    else
      var q := p + a + 1;
      var b := Run(line[q..], IsDigit);
      if !(1 <= b <= 2) || q + b >= |line| || !IsDateMark(line[q + b]) then None
      else
        var r := q + b + 1;
        var c := Run(line[r..], IsDigit);
        if !(1 <= c <= 4) || (r + c < |line| && IsWordChar(line[r + c])) then None else Some(r + c - p)
  }

  function FirstDate(line: string, p: nat): Option<string>
    requires p <= |line|
    decreases |line| - p
  {
    if DateAt(line, p).Some? && p + DateAt(line, p).value <= |line| then Some(line[p..p + DateAt(line, p).value])
    else if p == |line| then None
    else FirstDate(line, p + 1)
  }

  function IndexOfText(s: string, part: string): (i: nat)
    ensures i <= |s|
    ensures forall k :: 0 <= k < i ==> !(part <= s[k..])
    ensures i < |s| ==> part <= s[i..]
  {
    if s == "" || part <= s then 0
    else
      var i := IndexOfText(s[1..], part);
      assert forall k :: 1 <= k <= |s| ==> s[k..] == s[1..][k - 1..];
      1 + i
  }

  /** `replace` with a text for its pattern: only the first occurrence goes. */
  function ReplaceFirst(s: string, part: string, replacement: string): string {
    var i := IndexOfText(s, part);
    if i + |part| <= |s| && part <= s[i..] then s[..i] + replacement + s[i + |part|..] else s
  }

  /** A heading starts with a section word and carries no amount; a date is fine. */
  function ReadHeading(line: string): Option<Heading> {
    if '=' in line || |Words(line)| > 6 then None
    else
      match SectionOf(line, SECTION_WORDS)
      case None => None
      case Some(section) =>
        var date := FirstDate(line, 0);
        var withoutDate := if date.Some? then ReplaceFirst(line, date.value, "") else line;
        if HasDigit(withoutDate) then None else Some(Heading(section, date))
  }

  // ---------------------------------------------------------------- the end of an entry line

  /** What must follow the name: an amount and perhaps a currency. */
  datatype Tail = Tail(amount: string, currency: string)

  function AmountLength(s: string): (n: Option<nat>)
    ensures n.Some? ==> 1 <= n.value <= |s|
  {
    if s == "" || !IsDigit(s[0]) then None
    else
      var n := Run(s, IsDigitOrComma);
      if n < |s| && s[n] == '.' then
        var d := Run(s[n + 1..], IsDigit);
        if 1 <= d <= 2 then Some(n + 1 + d) else None
      else Some(n)
  }

  function AfterSeparator(s: string): string {
    var t := TrimStart(s);
    if t != "" && IsSeparator(t[0]) then TrimStart(t[1..]) else t
  }

  /** Reads the whole of `s` as an optional separator, an amount and up to four letters. */
  function TailOf(s: string): Option<Tail> {
    var t := AfterSeparator(s);
    match AmountLength(t)
    case None => None
    case Some(n) =>
      var u := TrimStart(t[n..]);
      var k := Run(u, IsLetter);
      if k <= 4 && TrimStart(u[k..]) == "" then Some(Tail(t[..n], u[..k])) else None
  }

  /** The shortest name that leaves a readable end, no name going past a line end. */
  function NameLength(line: string, n: nat): (r: Option<nat>)
    requires n <= |line|
    ensures r.Some? ==> n <= r.value <= |line| && TailOf(line[r.value..]).Some?
    ensures r.Some? ==> forall k :: n <= k < r.value ==> TailOf(line[k..]).None? && !IsLineEnd(line[k])
    ensures r.None? ==>
      forall k :: n <= k <= |line| && TailOf(line[k..]).Some? ==> exists j :: n <= j < k && IsLineEnd(line[j])
    decreases |line| - n
  {
    if TailOf(line[n..]).Some? then Some(n)
    else if n == |line| || IsLineEnd(line[n]) then None
    else NameLength(line, n + 1)
  }

  /** The pattern match of the source, as a search that lengthens the name by one character at a time. */
  method MatchEntry(line: string) returns (length: Option<nat>)
    ensures length == NameLength(line, 0)
  {
    var n := 0;
    while n < |line|
      invariant n <= |line| && NameLength(line, 0) == NameLength(line, n)
    {
      if TailOf(line[n..]).Some? { return Some(n); }
      if IsLineEnd(line[n]) { return None; }
      n := n + 1;
    }
    return if TailOf(line[n..]).Some? then Some(n) else None;
  }

  // ---------------------------------------------------------------- the name and the quantity

  function DropSeparators(s: string): (r: string)
    ensures r <= s
  {
    if s != "" && IsSeparator(s[|s| - 1]) then DropSeparators(s[..|s| - 1]) else s
  }

  function RawName(name: string): string { Trim(DropSeparators(Trim(name))) }

  function WithoutCommas(s: string): string {
    if s == "" then "" else (if s[0] == ',' then "" else [s[0]]) + WithoutCommas(s[1..])
  }

  /** A free-standing number of one to three digits starts at `p`. */
  predicate IsTokenAt(s: string, p: nat)
    requires p <= |s|
  {
    var d := Run(s[p..], IsDigit);
    && (p == 0 || IsSpace(s[p - 1]))
    && 1 <= d <= 3 && (p + d == |s| || IsSpace(s[p + d]))
  }

  function FirstToken(s: string, p: nat): (r: Option<nat>)
    requires p <= |s|
    ensures r.Some? ==>
      p <= r.value <= |s| && IsTokenAt(s, r.value) && forall k :: p <= k < r.value ==> !IsTokenAt(s, k)
    ensures r.None? ==> forall k :: p <= k <= |s| ==> !IsTokenAt(s, k)
    decreases |s| - p
  {
    if IsTokenAt(s, p) then Some(p) else if p == |s| then None else FirstToken(s, p + 1)
  }

  function TokenDigits(s: string, p: nat): string
    requires p <= |s|
  {
    s[p..p + Run(s[p..], IsDigit)]
  }

  /** The matched text: the digits with the white space before them, if there is any. */
  function TokenText(s: string, p: nat): string
    requires p <= |s|
  {
    if p == 0 then TokenDigits(s, 0) else s[p - 1..p + Run(s[p..], IsDigit)]
  }

  /** Runs of white space become single spaces. */
  function Squeezed(s: string): string
    decreases |s|
  {
    if s == "" then ""
    else if IsSpace(s[0]) then " " + Squeezed(TrimStart(s[1..]))
    else [s[0]] + Squeezed(s[1..])
  }

  function Tidied(s: string): string { Trim(Squeezed(s)) }

  function Stripped(rawName: string, p: nat): string
    requires p <= |rawName|
  {
    Tidied(ReplaceFirst(rawName, TokenText(rawName, p), " "))
  }

  datatype Named = Named(name: string, quantity: nat)

  /** "Sneakers 2 pair" is two of "Sneakers pair", but only when the total divides evenly. */
  function ReadQuantity(rawName: string, amount: nat): (r: Named)
    ensures r.quantity > 0 && amount % r.quantity == 0
    ensures HasLetter(rawName) ==> HasLetter(r.name)
  {
    match FirstToken(rawName, 0)
    case None => Named(rawName, 1)
    case Some(p) =>
      DigitsOfToken(rawName, p);
      var quantity := ValueOf(TokenDigits(rawName, p));
      if quantity > 0 && amount % quantity == 0 && HasLetter(Stripped(rawName, p)) then
        Named(Stripped(rawName, p), quantity)
      else Named(rawName, 1)
  }

  lemma DigitsOfToken(s: string, p: nat)
    requires p <= |s|
    ensures AllDigits(TokenDigits(s, p))
  {
    assert forall i :: 0 <= i < Run(s[p..], IsDigit) ==> TokenDigits(s, p)[i] == s[p..][i];
  }

  /** The entry for a name and the amount and currency behind it, if they make one. */
  function EntryFrom(rawName: string, tail: Tail, section: Section, currency: Currency): Option<Entry> {
    if |tail.currency| > 2 && Lower(tail.currency) != Lower(currency.code) then None
    else if !HasLetter(rawName) || |rawName| > 60 then None
    else
      match ParseAmount(WithoutCommas(tail.amount), currency.exp)
      case None => None
      case Some(amount) => if amount <= 0 then None else Some(Priced(rawName, amount, section))
  }

  function Priced(rawName: string, amount: nat, section: Section): Entry {
    if section != Sale then Entry(section, rawName, 1, amount, amount)
    else
      var named := ReadQuantity(rawName, amount);
      Entry(Sale, named.name, named.quantity, amount / named.quantity, amount)
  }

  lemma EvenSplit(amount: int, quantity: nat)
    requires quantity > 0 && amount % quantity == 0
    ensures quantity * (amount / quantity) == amount
  {
  }

  function ReadEntry(line: string, section: Section, currency: Currency): Option<Entry> {
    match NameLength(line, 0)
    case None => None
    case Some(n) => EntryFrom(RawName(line[..n]), TailOf(line[n..]).value, section, currency)
  }
}
