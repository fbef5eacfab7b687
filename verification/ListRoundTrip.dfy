/** Lines a shop owner can rely on: what is written in the plain shape is read back as it was meant. */
module ListRoundTrip {
  import opened Prelude
  import opened Text
  import opened Money
  import opened ListEntry
  import opened ListProofs

  /** A text that ends in itself, on one line. */
  predicate StandsAlone(name: string) {
    && name != ""
    && !IsSpace(name[0]) && !IsSpace(name[|name| - 1]) && !IsSeparator(name[|name| - 1])
    && forall i :: 0 <= i < |name| ==> !IsLineEnd(name[i])
  }

  /** Such a text of at most sixty characters with at least one letter. */
  predicate IsCleanName(name: string) { StandsAlone(name) && |name| <= 60 && HasLetter(name) }

  function EntryLine(name: string, amount: nat, exp: nat): string { name + (" =" + FormatUnsigned(amount, exp)) }

  // ---------------------------------------------------------------- finding the name

  lemma {:induction false} TrimmingKeepsEquals(s: string)
    requires '=' in s
    ensures '=' in TrimStart(s)
  {
    if IsSpace(s[0]) {
      assert '=' in s[1..] by { var i :| 0 <= i < |s| && s[i] == '='; assert s[1..][i - 1] == '='; }
      TrimmingKeepsEquals(s[1..]);
    }
  }

  lemma DroppingKeepsEquals(s: string, n: nat)
    requires '=' in s && n <= |s| && forall i :: 0 <= i < n ==> s[i] != '='
    ensures '=' in s[n..]
  {
    var i :| 0 <= i < |s| && s[i] == '=';
    assert s[n..][i - n] == '=';
  }

  /** With a plain character before an equals sign, the text cannot be the end of a line. */
  lemma NoTailAcross(s: string, i: nat, j: nat)
    requires i < j < |s| && s[j] == '=' && !IsSpace(s[i]) && !IsSeparator(s[i])
    ensures TailOf(s).None?
  {
    var t := AfterSeparator(s);
    EqualsStaysAfterSeparator(s, i, j);
    if AmountLength(t).Some? {
      var n := AmountLength(t).value;
      AmountIsSound(t);
      NoEqualsInAmount(t[..n]);
      assert forall k :: 0 <= k < n ==> t[k] == t[..n][k];
      DroppingKeepsEquals(t, n);
      TrimmingKeepsEquals(t[n..]);
      var u := TrimStart(t[n..]);
      DroppingKeepsEquals(u, Run(u, IsLetter));
      TrimmingKeepsEquals(u[Run(u, IsLetter)..]);
    }
  }

  lemma EqualsStaysAfterSeparator(s: string, i: nat, j: nat)
    requires i < j < |s| && s[j] == '=' && !IsSpace(s[i]) && !IsSeparator(s[i])
    ensures '=' in AfterSeparator(s)
  {
    var t := TrimStart(s);
    TrimStartSkips(s);
    var q := |s| - |t|;
    assert q <= i && t == s[q..];
    assert t[j - q] == '=';
    if IsSeparator(t[0]) {
      assert t[0] == s[q];
      assert t[1..][j - q - 1] == '=';
      TrimmingKeepsEquals(t[1..]);
    }
  }

  lemma NoEqualsInAmount(amount: string)
    requires IsAmount(amount)
    ensures forall i :: 0 <= i < |amount| ==> amount[i] != '='
  {
    var dot := IndexOf(amount, '.');
    forall i | 0 <= i < |amount| ensures amount[i] != '=' {
      if i < dot { assert IsDigitOrComma(amount[i]); }
      if i > dot { assert amount[i] == amount[dot + 1..][i - dot - 1]; }
    }
  }

  /** The shortest name that works is the whole of the clean name. */
  lemma NameIsFound(name: string, rest: string)
    requires StandsAlone(name) && |rest| > 1 && rest[1] == '=' && TailOf(rest).Some?
    ensures NameLength(name + rest, 0) == Some(|name|)
  {
    var line := name + rest;
    assert line[|name|..] == rest;
    forall k | 0 <= k < |name| ensures TailOf(line[k..]).None? && !IsLineEnd(line[k]) {
      NoShorterName(name, rest, k);
    }
  }

  lemma NoShorterName(name: string, rest: string, k: nat)
    requires StandsAlone(name) && |rest| > 1 && rest[1] == '=' && k < |name|
    ensures TailOf((name + rest)[k..]).None? && !IsLineEnd((name + rest)[k])
  {
    var s := (name + rest)[k..];
    assert s[|name| - 1 - k] == name[|name| - 1] && s[|name| + 1 - k] == '=';
    NoTailAcross(s, |name| - 1 - k, |name| + 1 - k);
    assert (name + rest)[k] == name[k];
  }

  lemma CleanNameStays(name: string)
    requires StandsAlone(name)
    ensures RawName(name) == name
  {
    NothingToTrim(name);
  }

  // ---------------------------------------------------------------- reading the amount

  lemma FormattedIsAmount(amount: nat, exp: nat)
    requires exp <= 2
    ensures IsAmount(FormatUnsigned(amount, exp))
  {
    var s := FormatUnsigned(amount, exp);
    if exp == 0 {
      NoDotInDigits(s, "");
      assert s + "" == s;
    } else {
      var whole, rest := Digits(Quotient(amount, Power10(exp))), Remainder(amount, Power10(exp));
      PaddedFraction(rest, exp);
      var fraction := Zeros(exp - |Digits(rest)|) + Digits(rest);
      assert |Digits(rest)| == exp ==> fraction == "" + Digits(rest);
      assert s == whole + ("." + fraction);
      NoDotInDigits(whole, "." + fraction);
      assert s[|whole| + 1..] == fraction;
      assert forall i :: 0 <= i < |whole| ==> s[i] == whole[i];
    }
  }

  lemma {:induction false} NoCommasToDrop(s: string)
    requires forall i :: 0 <= i < |s| ==> s[i] != ','
    ensures WithoutCommas(s) == s
  {
    if s != "" { NoCommasToDrop(s[1..]); }
  }

  lemma EqualsAndAmountRead(amount: string)
    requires IsAmount(amount)
    ensures TailOf(" =" + amount) == Some(Tail(amount, ""))
  {
    var p, t := Parts(" ", "=", "", "", ""), Tail(amount, "");
    assert p.after + (t.currency + p.end) == "";
    assert p.between + (amount + "") == amount;
    assert " " + ("=" + amount) == " =" + amount;
    assert Assembled(p, t) == " =" + amount;
    TailIsFound(p, t);
  }

  lemma PrintedAmountReads(amount: nat, exp: nat)
    ensures ParseAmount(WithoutCommas(FormatUnsigned(amount, exp)), exp) == Some(amount)
  {
    var s := FormatUnsigned(amount, exp);
    FormattedIsPlain(amount, exp);
    forall i | 0 <= i < |s| ensures s[i] != ',' { assert s[i] in s; }
    NoCommasToDrop(s);
    AmountComesBack(amount, exp);
    assert FormatMoney(amount, exp) == s;
  }

  // ---------------------------------------------------------------- whole lines

  lemma EntryLineIsNoHeading(name: string, amount: nat, exp: nat)
    ensures ReadHeading(EntryLine(name, amount, exp)).None?
  {
    assert EntryLine(name, amount, exp)[|name| + 1] == '=';
  }

  /**
   * A debt, payment or expense line written "<name> =<amount>" gives that name and that amount; a sale line gives the
   * amount, and the name and quantity its own words stand for.
   */
  lemma PrintedLineReads(raw: string, amount: nat, section: Section, currency: Currency)
    requires IsCleanName(raw) && amount > 0 && currency.exp <= 2
    ensures ReadEntry(EntryLine(raw, amount, currency.exp), section, currency) == Some(Priced(raw, amount, section))
  {
    var rest := " =" + FormatUnsigned(amount, currency.exp);
    FormattedIsAmount(amount, currency.exp);
    EqualsAndAmountRead(FormatUnsigned(amount, currency.exp));
    PrintedAmountReads(amount, currency.exp);
    NameIsFound(raw, rest);
    CleanNameStays(raw);
    assert (raw + rest)[..|raw|] == raw && (raw + rest)[|raw|..] == rest;
  }

  /** What follows the amount: nothing, or a space and some letters. */
  function Unit(letters: string): string { if letters == "" then "" else " " + letters }

  lemma UnitAssembles(amount: string, letters: string)
    ensures
      var p, t := Parts(" ", "=", "", if letters == "" then "" else " ", ""), Tail(amount, letters);
      Assembled(p, t) == " =" + (amount + Unit(letters))
  {
    var after := if letters == "" then "" else " ";
    assert after + (letters + "") == Unit(letters);
    var all := amount + Unit(letters);
    assert "" + all == all;
    assert " " + ("=" + all) == " =" + all;
  }

  lemma EqualsAmountAndUnitRead(amount: string, letters: string)
    requires IsAmount(amount) && |letters| <= 4 && forall i :: 0 <= i < |letters| ==> IsLetter(letters[i])
    ensures TailOf(" =" + (amount + Unit(letters))) == Some(Tail(amount, letters))
  {
    UnitAssembles(amount, letters);
    TailIsFound(Parts(" ", "=", "", if letters == "" then "" else " ", ""), Tail(amount, letters));
  }

  lemma LineIsEntry(name: string, amount: nat, letters: string, section: Section, currency: Currency)
    requires StandsAlone(name) && currency.exp <= 2
    requires |letters| <= 4 && forall i :: 0 <= i < |letters| ==> IsLetter(letters[i])
    ensures
      var text := FormatUnsigned(amount, currency.exp);
      ReadEntry(name + (" =" + (text + Unit(letters))), section, currency)
      == EntryFrom(name, Tail(text, letters), section, currency)
  {
    var rest := " =" + (FormatUnsigned(amount, currency.exp) + Unit(letters));
    FormattedIsAmount(amount, currency.exp);
    EqualsAmountAndUnitRead(FormatUnsigned(amount, currency.exp), letters);
    NameIsFound(name, rest);
    CleanNameStays(name);
    assert (name + rest)[..|name|] == name && (name + rest)[|name|..] == rest;
  }

  lemma PricedIsWorth(name: string, amount: nat, section: Section)
    ensures var e := Priced(name, amount, section);
      && e.section == section && e.amount == amount && e.quantity * e.unitPrice == amount
      && (section != Sale ==> e.name == name && e.quantity == 1)
  {
    EvenSplit(amount, ReadQuantity(name, amount).quantity);
  }

  lemma EntryIsMadeExactlyWhen(name: string, tail: Tail, section: Section, currency: Currency, amount: nat)
    requires ParseAmount(WithoutCommas(tail.amount), currency.exp) == Some(amount)
    ensures EntryFrom(name, tail, section, currency) ==
      if (exists i :: 0 <= i < |name| && IsLetter(name[i])) && |name| <= 60 && amount > 0
         && (|tail.currency| <= 2 || Lower(tail.currency) == Lower(currency.code))
      then Some(Priced(name, amount, section)) else None
  {
    assert HasLetter(name) <==> exists i :: 0 <= i < |name| && IsLetter(name[i]);
  }

  /**
   * A line "<name> =<amount> <letters>" is read exactly if the name has a letter and at most sixty characters, the
   * amount is positive, and the letters are at most two or are the business's own currency: an amount in another
   * currency is never saved as if it were in this one. What is read is worth the amount.
   */
  lemma LineIsReadExactlyWhen(name: string, amount: nat, letters: string, section: Section, currency: Currency)
    requires StandsAlone(name) && currency.exp <= 2
    requires |letters| <= 4 && forall i :: 0 <= i < |letters| ==> IsLetter(letters[i])
    ensures
      var r := ReadEntry(name + (" =" + (FormatUnsigned(amount, currency.exp) + Unit(letters))), section, currency);
      && (r.Some? <==>
            && (exists i :: 0 <= i < |name| && IsLetter(name[i])) && |name| <= 60 && amount > 0
            && (|letters| <= 2 || Lower(letters) == Lower(currency.code)))
      && (r.Some? ==>
            && r.value.section == section && r.value.amount == amount
            && r.value.quantity * r.value.unitPrice == amount
            && (section != Sale ==> r.value.name == name && r.value.quantity == 1))
  {
    var text := FormatUnsigned(amount, currency.exp);
    LineIsEntry(name, amount, letters, section, currency);
    PrintedAmountReads(amount, currency.exp);
    if amount > 0 { PricedIsWorth(name, amount, section); }
    EntryIsMadeExactlyWhen(name, Tail(text, letters), section, currency, amount);
  }

  predicate HasNoDigits(s: string) { forall i :: 0 <= i < |s| ==> !IsDigit(s[i]) }

  /** The only free-standing number of a counted name is its last word. */
  lemma CountIsTheToken(name: string, quantity: nat)
    requires name != "" && HasNoDigits(name) && 0 < quantity < 1000
    ensures FirstToken(name + (" " + Digits(quantity)), 0) == Some(|name| + 1)
  {
    var raw, p := name + (" " + Digits(quantity)), |name| + 1;
    DigitsFit(quantity, 3);
    assert raw[p..] == Digits(quantity) + "";
    RunOver(Digits(quantity), "", IsDigit);
    assert IsTokenAt(raw, p);
    forall k | 0 <= k < p ensures !IsTokenAt(raw, k) {
      assert raw[k..][0] == raw[k];
      assert k < |name| ==> raw[k] == name[k];
    }
  }

  lemma CountIsReplaced(name: string, quantity: nat)
    requires name != "" && HasNoDigits(name) && 0 < quantity < 1000
    ensures ReplaceFirst(name + (" " + Digits(quantity)), " " + Digits(quantity), " ") == name + " "
  {
    var part := " " + Digits(quantity);
    var raw := name + part;
    assert raw[|name|..] == part;
    forall k | 0 <= k < |name| ensures !(part <= raw[k..]) {
      assert raw[k..][1] == raw[k + 1] && IsDigit(part[1]);
      assert k + 1 < |name| ==> raw[k + 1] == name[k + 1];
    }
    assert IndexOfText(raw, part) == |name|;
    assert raw[..|name|] == name && raw[|name| + |part|..] == "";
  }

  lemma {:induction false} TrimStartBefore(s: string, tail: string)
    requires s != "" && !IsSpace(s[|s| - 1])
    ensures TrimStart(s + tail) == TrimStart(s) + tail && TrimStart(s) != ""
    ensures TrimStart(s)[|TrimStart(s)| - 1] == s[|s| - 1]
  {
    assert (s + tail)[1..] == s[1..] + tail;
    if IsSpace(s[0]) { TrimStartBefore(s[1..], tail); }
  }

  lemma {:induction false} SqueezedBeforeSpace(s: string)
    requires s != "" && !IsSpace(s[|s| - 1])
    ensures Squeezed(s + " ") == Squeezed(s) + " "
    decreases |s|
  {
    assert (s + " ")[1..] == s[1..] + " ";
    if IsSpace(s[0]) {
      TrimStartBefore(s[1..], " ");
      SqueezedBeforeSpace(TrimStart(s[1..]));
    } else if |s| == 1 {
      assert s[1..] + " " == " " && TrimStart(" "[1..]) == "";
      assert Squeezed(" ") == " ";
    } else {
      SqueezedBeforeSpace(s[1..]);
    }
  }

  /** A sale line written "<name> <quantity> =<amount>" gives that name, that quantity and the even unit price. */
  lemma SaleLineReadsBack(name: string, quantity: nat, amount: nat, currency: Currency)
    requires IsCleanName(name) && HasNoDigits(name) && Squeezed(name) == name && |name| <= 56
    requires 0 < quantity < 1000 && amount > 0 && amount % quantity == 0 && currency.exp <= 2
    ensures ReadEntry(EntryLine(name + (" " + Digits(quantity)), amount, currency.exp), Sale, currency)
      == Some(Entry(Sale, name, quantity, amount / quantity, amount))
  {
    CountedNameIsClean(name, quantity);
    PrintedLineReads(name + (" " + Digits(quantity)), amount, Sale, currency);
    QuantityReadsBack(name, quantity, amount);
  }

  lemma CountedNameIsClean(name: string, quantity: nat)
    requires IsCleanName(name) && |name| <= 56 && quantity < 1000
    ensures IsCleanName(name + (" " + Digits(quantity)))
  {
    var raw := name + (" " + Digits(quantity));
    DigitsFit(quantity, 3);
    DigitsAreNoSpace(Digits(quantity));
    var i :| 0 <= i < |name| && IsLetter(name[i]);
    assert raw[i] == name[i];
    assert raw[|raw| - 1] == Digits(quantity)[|Digits(quantity)| - 1];
    forall k | 0 <= k < |raw| ensures !IsLineEnd(raw[k]) {
      if k < |name| { assert raw[k] == name[k]; }
      if k > |name| { assert raw[k] == Digits(quantity)[k - |name| - 1]; }
    }
  }

  lemma QuantityReadsBack(name: string, quantity: nat, amount: nat)
    requires IsCleanName(name) && HasNoDigits(name) && Squeezed(name) == name
    requires 0 < quantity < 1000 && amount % quantity == 0
    ensures ReadQuantity(name + (" " + Digits(quantity)), amount) == Named(name, quantity)
  {
    var raw := name + (" " + Digits(quantity));
    CountIsTheToken(name, quantity);
    CountIsTheText(name, quantity);
    CountIsReplaced(name, quantity);
    ValueOfDigits(quantity);
    SqueezedBeforeSpace(name);
    TrimsOneSpace(name);
  }

  lemma CountIsTheText(name: string, quantity: nat)
    requires name != ""
    ensures
      var raw, p := name + (" " + Digits(quantity)), |name| + 1;
      TokenText(raw, p) == " " + Digits(quantity) && TokenDigits(raw, p) == Digits(quantity)
  {
    var raw, p := name + (" " + Digits(quantity)), |name| + 1;
    assert raw[p..] == Digits(quantity) + "";
    RunOver(Digits(quantity), "", IsDigit);
    assert raw[|name|..] == " " + Digits(quantity);
  }

  lemma TrimsOneSpace(name: string)
    requires IsCleanName(name)
    ensures Trim(name + " ") == name
  {
    var spaced := name + " ";
    assert TrimStart(spaced) == spaced;
    assert spaced[|spaced| - 1] == ' ' && spaced[..|spaced| - 1] == name;
    assert TrimEnd(name) == name;
  }
}
