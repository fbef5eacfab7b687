/** Amounts as whole minor units (src/domain/money.ts): reading what a merchant typed, and printing it. */
module Money {
  import opened Prelude
  import opened Text

  predicate AllDigits(s: string) { forall i :: 0 <= i < |s| ==> IsDigit(s[i]) }

  function Power10(n: nat): (p: nat)
    ensures p >= 1
  {
    if n == 0 then 1 else 10 * Power10(n - 1)
  }

  /** The number a run of digits stands for; no digits stand for zero. */
  function ValueOf(digits: string): nat
    requires AllDigits(digits)
  {
    if digits == "" then 0
    else 10 * ValueOf(digits[..|digits| - 1]) + (digits[|digits| - 1] as int - '0' as int)
  }

  function DigitOf(n: nat): char
    requires n < 10
  {
    n as char + '0'
  }

  function Digits(n: nat): (s: string)
    ensures s != "" && AllDigits(s)
  {
    if n < 10 then [DigitOf(n)] else Digits(n / 10) + [DigitOf(n % 10)]
  }

  function Zeros(n: nat): (s: string)
    ensures |s| == n && AllDigits(s)
  {
    seq(n, i => '0')
  }

  function IndexOf(s: string, c: char): (i: nat)
    ensures i <= |s| && c !in s[..i] && (i < |s| ==> s[i] == c)
  {
    if s == "" || s[0] == c then 0 else 1 + IndexOf(s[1..], c)
  }

  function Scaled(whole: nat, exp: nat, rest: nat): nat { whole * Power10(exp) + rest }

  /** The exact number of minor units of an unsigned amount, or nothing: never rounded. */
  function ParseUnsigned(body: string, exp: nat): Option<nat> {
    var dot := IndexOf(body, '.');
    var whole, fraction := body[..dot], if dot < |body| then body[dot + 1..] else "";
    if whole == "" || !AllDigits(whole) || !AllDigits(fraction) || (dot < |body| && fraction == "") then None
    else if |fraction| > exp then None
    else
      DigitsThenZeros(fraction, exp - |fraction|);
      Some(Scaled(ValueOf(whole), exp, ValueOf(fraction + Zeros(exp - |fraction|))))
  }

  function Negated(amount: Option<nat>): Option<int> {
    match amount
    case None => None
    case Some(n) => var m: int := n; Some(-m)
  }

  function ParseAmount(text: string, exp: nat): Option<int> {
    var trimmed := Trim(text);
    if trimmed != "" && trimmed[0] == '-' then Negated(ParseUnsigned(trimmed[1..], exp))
    else ParseUnsigned(trimmed, exp)
  }

  function Quotient(a: nat, p: nat): nat
    requires p > 0
  {
    a / p
  }

  function Remainder(a: nat, p: nat): (r: nat)
    requires p > 0
    ensures r < p
  {
    a % p
  }

  function FormatUnsigned(absolute: nat, exp: nat): string {
    if exp == 0 then Digits(absolute)
    else
      var fraction := Digits(Remainder(absolute, Power10(exp)));
      var pad := if |fraction| < exp then Zeros(exp - |fraction|) else "";
      Digits(Quotient(absolute, Power10(exp))) + ("." + (pad + fraction))
  }

  function FormatMoney(amount: int, exp: nat): string {
    if amount < 0 then "-" + FormatUnsigned(-amount, exp) else FormatUnsigned(amount, exp)
  }

  lemma DigitsThenZeros(s: string, n: nat)
    requires AllDigits(s)
    ensures AllDigits(s + Zeros(n))
  {
  }

  // ---------------------------------------------------------------- digits

  lemma {:induction false} ValueOfDigits(n: nat)
    ensures ValueOf(Digits(n)) == n
    decreases n
  {
    if n >= 10 {
      ValueOfDigits(n / 10);
      var s := Digits(n);
      assert s[..|s| - 1] == Digits(n / 10);
    } else {
      assert [DigitOf(n)][..0] == "";
    }
  }

  lemma {:induction false} DigitsFit(n: nat, width: nat)
    requires n < Power10(width) && width > 0
    ensures |Digits(n)| <= width
    decreases width
  {
    if n >= 10 {
      assert width > 1;
      DigitsFit(n / 10, width - 1);
    }
  }

  lemma {:induction false} ZerosInFront(n: nat, s: string)
    requires AllDigits(s)
    ensures AllDigits(Zeros(n) + s) && ValueOf(Zeros(n) + s) == ValueOf(s)
    decreases |s|, n
  {
    var all := Zeros(n) + s;
    if s != "" {
      ZerosInFront(n, s[..|s| - 1]);
      assert all[..|all| - 1] == Zeros(n) + s[..|s| - 1];
    } else if n > 0 {
      ZerosInFront(n - 1, "");
      assert all[..n - 1] == Zeros(n - 1) + "";
      assert all[n - 1] == '0';
    }
  }

  lemma PaddedFraction(n: nat, exp: nat)
    requires exp > 0 && n < Power10(exp)
    ensures
      var digits := Digits(n);
      && |digits| <= exp
      && AllDigits(Zeros(exp - |digits|) + digits)
      && ValueOf(Zeros(exp - |digits|) + digits) == n
  {
    DigitsFit(n, exp);
    ValueOfDigits(n);
    ZerosInFront(exp - |Digits(n)|, Digits(n));
  }

  lemma {:induction false} NoDotInDigits(digits: string, rest: string)
    requires AllDigits(digits) && (rest == "" || rest[0] == '.')
    ensures IndexOf(digits + rest, '.') == |digits|
  {
    if digits == "" {
      assert digits + rest == rest;
    } else {
      assert AllDigits(digits[1..]) && IsDigit(digits[0]);
      NoDotInDigits(digits[1..], rest);
      assert (digits + rest)[1..] == digits[1..] + rest;
    }
  }

  lemma DigitsAreNoSpace(s: string)
    requires AllDigits(s)
    ensures forall i :: 0 <= i < |s| ==> !IsSpace(s[i]) && s[i] != '-'
  {
  }

  lemma ReadsAtTheDot(body: string, exp: nat, dot: nat)
    requires 0 < dot < |body| && IndexOf(body, '.') == dot && |body| - dot - 1 == exp > 0
    requires AllDigits(body[..dot]) && AllDigits(body[dot + 1..])
    ensures ParseUnsigned(body, exp) == Some(Scaled(ValueOf(body[..dot]), exp, ValueOf(body[dot + 1..])))
  {
    assert body[dot + 1..] + Zeros(0) == body[dot + 1..];
  }

  /** Reading a whole part and a fraction. */
  lemma ReadsFraction(whole: string, fraction: string, exp: nat)
    requires whole != "" && AllDigits(whole) && AllDigits(fraction) && |fraction| == exp > 0
    ensures ParseUnsigned(whole + ("." + fraction), exp) == Some(Scaled(ValueOf(whole), exp, ValueOf(fraction)))
  {
    var body := whole + ("." + fraction);
    NoDotInDigits(whole, "." + fraction);
    assert body[..|whole|] == whole && body[|whole| + 1..] == fraction;
    ReadsAtTheDot(body, exp, |whole|);
  }

  lemma ReadsWhole(whole: string)
    requires whole != "" && AllDigits(whole)
    ensures ParseUnsigned(whole, 0) == Some(Scaled(ValueOf(whole), 0, 0))
  {
    NoDotInDigits(whole, "");
    assert whole + "" == whole && whole[..|whole|] == whole && "" + Zeros(0) == "";
  }

  lemma QuotientAndRemainder(a: nat, exp: nat)
    ensures Scaled(Quotient(a, Power10(exp)), exp, Remainder(a, Power10(exp))) == a
  {
  }

  lemma FractionComesBack(absolute: nat, exp: nat)
    requires exp > 0
    ensures ParseUnsigned(FormatUnsigned(absolute, exp), exp) == Some(absolute)
  {
    QuotientAndRemainder(absolute, exp);
    var rest := Remainder(absolute, Power10(exp));
    var padded := Zeros(exp - |Digits(rest)|) + Digits(rest) by { DigitsFit(rest, exp); }
    PaddedFraction(rest, exp);
    ValueOfDigits(Quotient(absolute, Power10(exp)));
    assert |Digits(rest)| == exp ==> padded == "" + Digits(rest);
    ReadsFraction(Digits(Quotient(absolute, Power10(exp))), padded, exp);
  }

  lemma UnsignedComesBack(absolute: nat, exp: nat)
    ensures ParseUnsigned(FormatUnsigned(absolute, exp), exp) == Some(absolute)
  {
    if exp == 0 {
      QuotientAndRemainder(absolute, exp);
      ValueOfDigits(absolute);
      ReadsWhole(Digits(absolute));
    } else {
      FractionComesBack(absolute, exp);
    }
  }

  /** A printed amount starts with a digit and has no white space in it. */
  lemma FormattedIsPlain(absolute: nat, exp: nat)
    ensures FormatUnsigned(absolute, exp) != "" && IsDigit(FormatUnsigned(absolute, exp)[0])
    ensures forall c :: c in FormatUnsigned(absolute, exp) ==> IsDigit(c) || c == '.'
  {
  }

  /** Every amount printed with a currency's decimals reads back to the same minor units, negative ones too. */
  lemma AmountComesBack(amount: int, exp: nat)
    ensures ParseAmount(FormatMoney(amount, exp), exp) == Some(amount)
  {
    var absolute: nat := if amount < 0 then -amount else amount;
    var body, text := FormatUnsigned(absolute, exp), FormatMoney(amount, exp);
    UnsignedComesBack(absolute, exp);
    FormattedIsPlain(absolute, exp);
    assert text[|text| - 1] == body[|body| - 1] && body[|body| - 1] in body;
    NothingToTrim(text);
    assert amount < 0 ==> text[1..] == body;
  }
}
