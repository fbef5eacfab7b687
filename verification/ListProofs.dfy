/** What the line readers of a list do and do not get right. */
module ListProofs {
  import opened Prelude
  import opened Text
  import opened Money
  import opened ListEntry

  // ---------------------------------------------------------------- the end of a line has one reading

  predicate AllLetters(s: string) { forall i :: 0 <= i < |s| ==> IsLetter(s[i]) }

  /** Digits and commas after a first digit, then perhaps a point and one or two digits. */
  predicate IsAmount(s: string) {
    var dot := IndexOf(s, '.');
    && s != "" && IsDigit(s[0])
    && (forall i :: 0 <= i < dot ==> IsDigitOrComma(s[i]))
    && (dot == |s| || (1 <= |s| - dot - 1 <= 2 && AllDigits(s[dot + 1..])))
  }

  /** The pieces of a tail besides its amount and currency: white space and perhaps a separator. */
  datatype Parts = Parts(before: string, separator: string, between: string, after: string, end: string)

  function Assembled(p: Parts, t: Tail): string {
    p.before + (p.separator + (p.between + (t.amount + (p.after + (t.currency + p.end)))))
  }

  predicate IsTail(p: Parts, t: Tail) {
    && AllSpace(p.before) && AllSpace(p.between) && AllSpace(p.after) && AllSpace(p.end)
    && (p.separator == "" || (|p.separator| == 1 && IsSeparator(p.separator[0])))
    && IsAmount(t.amount) && AllLetters(t.currency) && |t.currency| <= 4
  }

  lemma {:induction false} RunOver(x: string, rest: string, test: char -> bool)
    requires (forall i :: 0 <= i < |x| ==> test(x[i])) && (rest == "" || !test(rest[0]))
    ensures Run(x + rest, test) == |x|
  {
    if x == "" {
      assert x + rest == rest;
    } else {
      RunOver(x[1..], rest, test);
      assert (x + rest)[1..] == x[1..] + rest;
    }
  }

  predicate EndsAmount(rest: string) { rest == "" || IsSpace(rest[0]) || IsLetter(rest[0]) }

  lemma AmountIsFound(amount: string, rest: string)
    requires IsAmount(amount) && EndsAmount(rest)
    ensures AmountLength(amount + rest) == Some(|amount|)
  {
    var dot := IndexOf(amount, '.');
    if dot == |amount| {
      RunOver(amount, rest, IsDigitOrComma);
    } else {
      var whole, fraction := amount[..dot], amount[dot + 1..];
      assert whole != "" && whole[0] == amount[0];
      assert forall i :: 0 <= i < |whole| ==> whole[i] == amount[i];
      FractionIsFound(whole, fraction, rest);
      assert amount + rest == whole + ("." + (fraction + rest));
    }
  }

  lemma FractionIsFound(whole: string, fraction: string, rest: string)
    requires whole != "" && IsDigit(whole[0]) && (forall i :: 0 <= i < |whole| ==> IsDigitOrComma(whole[i]))
    requires 1 <= |fraction| <= 2 && AllDigits(fraction) && EndsAmount(rest)
    ensures AmountLength(whole + ("." + (fraction + rest))) == Some(|whole| + 1 + |fraction|)
  {
    var s := whole + ("." + (fraction + rest));
    RunOver(whole, "." + (fraction + rest), IsDigitOrComma);
    assert s[|whole| + 1..] == fraction + rest;
    RunOver(fraction, rest, IsDigit);
  }

  lemma SeparatorIsSkipped(p: Parts, rest: string)
    requires AllSpace(p.before) && AllSpace(p.between)
    requires p.separator == "" || (|p.separator| == 1 && IsSeparator(p.separator[0]))
    requires rest != "" && IsDigit(rest[0])
    ensures AfterSeparator(p.before + (p.separator + (p.between + rest))) == rest
  {
    var inner := p.between + rest;
    if p.separator == "" {
      assert p.before + (p.separator + inner) == (p.before + p.between) + rest;
      TrimOver(p.before + p.between, rest);
    } else {
      TrimOver(p.before, p.separator + inner);
      assert (p.separator + inner)[1..] == inner;
      TrimOver(p.between, rest);
    }
  }

  lemma CurrencyIsFound(p: Parts, t: Tail)
    requires IsTail(p, t)
    ensures
      var u := TrimStart(p.after + (t.currency + p.end));
      Run(u, IsLetter) == |t.currency| && u[..|t.currency|] == t.currency && TrimStart(u[|t.currency|..]) == ""
  {
    assert p.end + "" == p.end;
    TrimOver(p.end, "");
    if t.currency == "" {
      assert p.after + (t.currency + p.end) == (p.after + p.end) + "";
      TrimOver(p.after + p.end, "");
    } else {
      assert IsLetter(t.currency[0]);
      TrimOver(p.after, t.currency + p.end);
      RunOver(t.currency, p.end, IsLetter);
      assert (t.currency + p.end)[|t.currency|..] == p.end;
    }
  }

  /** Whatever way a tail is put together, the reader finds its amount and its currency. */
  lemma TailIsFound(p: Parts, t: Tail)
    requires IsTail(p, t)
    ensures TailOf(Assembled(p, t)) == Some(t)
  {
    var rest := p.after + (t.currency + p.end);
    SeparatorIsSkipped(p, t.amount + rest);
    assert EndsAmount(rest) by {
      assert p.after == "" && t.currency == "" ==> rest == p.end;
      assert p.after == "" && t.currency != "" ==> rest[0] == t.currency[0];
    }
    AmountIsFound(t.amount, rest);
    assert (t.amount + rest)[|t.amount|..] == rest && (t.amount + rest)[..|t.amount|] == t.amount;
    CurrencyIsFound(p, t);
  }

  lemma AmountIsSound(s: string)
    requires AmountLength(s).Some?
    ensures IsAmount(s[..AmountLength(s).value])
  {
    var n := Run(s, IsDigitOrComma);
    var amount := s[..AmountLength(s).value];
    if n < |s| && s[n] == '.' {
      DotAt(amount, n);
      var fraction := amount[n + 1..];
      assert forall i :: 0 <= i < |fraction| ==> fraction[i] == s[n + 1..][i];
    } else {
      DotAt(amount, n);
    }
  }

  lemma {:induction false} DotAt(s: string, n: nat)
    requires n <= |s| && (forall i :: 0 <= i < n ==> s[i] != '.') && (n < |s| ==> s[n] == '.')
    ensures IndexOf(s, '.') == n
  {
    if n > 0 { DotAt(s[1..], n - 1); }
  }

  /** Whatever the reader accepts is such a tail. */
  lemma TailIsSound(s: string) returns (p: Parts)
    requires TailOf(s).Some?
    ensures IsTail(p, TailOf(s).value) && Assembled(p, TailOf(s).value) == s
  {
    var before, separator, between := SeparatorParts(s);
    var t := AfterSeparator(s);
    var n := AmountLength(t).value;
    AmountIsSound(t);
    var after, end := CurrencyParts(t[n..]);
    p := Parts(before, separator, between, after, end);
    assert t == t[..n] + t[n..];
  }

  lemma LeadingSpace(s: string) returns (space: string)
    ensures s == space + TrimStart(s) && AllSpace(space)
  {
    TrimStartSkips(s);
    space := s[..|s| - |TrimStart(s)|];
  }

  lemma SeparatorParts(s: string) returns (before: string, separator: string, between: string)
    ensures s == before + (separator + (between + AfterSeparator(s)))
    ensures AllSpace(before) && AllSpace(between)
    ensures separator == "" || (|separator| == 1 && IsSeparator(separator[0]))
  {
    var t := TrimStart(s);
    before := LeadingSpace(s);
    if t != "" && IsSeparator(t[0]) {
      separator := [t[0]];
      between := LeadingSpace(t[1..]);
      assert t == separator + t[1..];
    } else {
      separator, between := "", "";
      assert separator + (between + t) == t;
    }
  }

  lemma CurrencyParts(s: string) returns (after: string, end: string)
    requires
      var u := TrimStart(s);
      TrimStart(u[Run(u, IsLetter)..]) == ""
    ensures
      var u := TrimStart(s);
      s == after + (u[..Run(u, IsLetter)] + end) && AllSpace(after) && AllSpace(end)
  {
    var u := TrimStart(s);
    after := LeadingSpace(s);
    end := LeadingSpace(u[Run(u, IsLetter)..]);
    assert end == u[Run(u, IsLetter)..];
    assert u == u[..Run(u, IsLetter)] + end;
  }

  /** The reader accepts exactly the tails, and no text is a tail in two ways with different amounts or currencies. */
  lemma TailsHaveOneReading(s: string, t: Tail)
    ensures TailOf(s) == Some(t) <==> exists p :: IsTail(p, t) && Assembled(p, t) == s
  {
    if TailOf(s) == Some(t) {
      var p := TailIsSound(s);
    }
    forall p | IsTail(p, t) && Assembled(p, t) == s ensures TailOf(s) == Some(t) {
      TailIsFound(p, t);
    }
  }
}
