/**
 * Taking the quantity out of a sale line's name (src/ai/listEntry.ts:94-101). The source replaces the first occurrence
 * of the matched text, which need not be the match: in "Pack 25kg 2" the text " 2" first occurs inside " 25kg".
 */
module ListNames {
  import opened Prelude
  import opened Text
  import opened Money
  import opened ListEntry
  import opened ListProofs
  import opened ListRoundTrip

  /** A name with `length` characters from `at` on replaced by a space, tidied up. */
  function Cut(raw: string, at: nat, length: nat): string
    requires at + length <= |raw|
  {
    Tidied(raw[..at] + " " + raw[at + length..])
  }

  function MatchStart(p: nat): nat { if p == 0 then 0 else p - 1 }

  /** The name with the quantity's own word taken out, wherever that word stands. */
  function WithoutToken(raw: string, p: nat): string
    requires p <= |raw|
  {
    Cut(raw, MatchStart(p), |TokenText(raw, p)|)
  }

  /** The matched text occurs before the match itself: some earlier word only begins with the quantity's digits. */
  predicate OccursEarlier(raw: string, p: nat)
    requires p <= |raw|
  {
    exists k :: 0 <= k && k + 1 < p && TokenText(raw, p) <= raw[k..]
  }

  // ---------------------------------------------------------------- how long a squeezed text is

  function Marks(s: string): nat {
    if s == "" then 0 else (if IsSpace(s[0]) then 0 else 1) + Marks(s[1..])
  }

  /** The words that start in `s`, when what stands before it is or is not white space. */
  function Starts(space: bool, s: string): nat
    decreases |s|
  {
    if s == "" then 0 else (if space && !IsSpace(s[0]) then 1 else 0) + Starts(IsSpace(s[0]), s[1..])
  }

  lemma {:induction false} MarksAdd(a: string, b: string)
    ensures Marks(a + b) == Marks(a) + Marks(b)
  {
    if a == "" {
      assert a + b == b;
    } else {
      MarksAdd(a[1..], b);
      assert (a + b)[1..] == a[1..] + b;
    }
  }

  predicate EndsInSpace(space: bool, s: string) { if s == "" then space else IsSpace(s[|s| - 1]) }

  lemma {:induction false} StartsAdd(space: bool, a: string, b: string)
    ensures Starts(space, a + b) == Starts(space, a) + Starts(EndsInSpace(space, a), b)
    decreases |a|
  {
    if a == "" {
      assert a + b == b;
    } else {
      StartsAdd(IsSpace(a[0]), a[1..], b);
      assert (a + b)[1..] == a[1..] + b;
    }
  }

  lemma {:induction false} TrimStartCounts(s: string)
    ensures Marks(TrimStart(s)) == Marks(s)
    ensures Starts(true, TrimStart(s)) == Starts(true, s)
  {
    if s != "" && IsSpace(s[0]) { TrimStartCounts(s[1..]); }
  }

  lemma {:induction false} TrimEndCons(x: char, s: string)
    requires !IsSpace(x)
    ensures TrimEnd([x] + s) == [x] + TrimEnd(s)
    decreases |s|
  {
    if s != "" && IsSpace(s[|s| - 1]) {
      assert ([x] + s)[..|s|] == [x] + s[..|s| - 1];
      TrimEndCons(x, s[..|s| - 1]);
    } else if s == "" {
      assert [x] + s == [x];
    }
  }

  lemma {:induction false} TrimEndSpaceCons(s: string)
    ensures TrimEnd(" " + s) == if TrimEnd(s) == "" then "" else " " + TrimEnd(s)
    decreases |s|
  {
    if s != "" && IsSpace(s[|s| - 1]) {
      assert (" " + s)[..|s|] == " " + s[..|s| - 1];
      TrimEndSpaceCons(s[..|s| - 1]);
    } else if s == "" {
      assert " " + s == " " && " "[..0] == "";
    }
  }

  /** A text that starts with no space is squeezed and trimmed to its marks and the single spaces between its words. */
  lemma {:induction false} SqueezedLength(s: string)
    requires s != "" && !IsSpace(s[0])
    ensures TrimEnd(Squeezed(s)) != "" && !IsSpace(TrimEnd(Squeezed(s))[0])
    ensures |TrimEnd(Squeezed(s))| + 1 == Marks(s) + Starts(true, s)
    decreases |s|
  {
    var rest := s[1..];
    TrimEndCons(s[0], Squeezed(rest));
    if rest != "" {
      if IsSpace(rest[0]) {
        var next := TrimStart(rest[1..]);
        TrimStartCounts(rest[1..]);
        TrimEndSpaceCons(Squeezed(next));
        if next != "" { SqueezedLength(next); }
      } else {
        SqueezedLength(rest);
      }
    }
  }

  lemma TrimmedLength(s: string)
    requires s != "" && !IsSpace(s[0])
    ensures |Tidied(s)| + 1 == Marks(s) + Starts(true, s)
  {
    SqueezedLength(s);
    assert Squeezed(s)[0] == s[0];
  }

  // ---------------------------------------------------------------- when the right word goes

  /** Two ways to drop the digits `d`: from the front of a longer word `b`, or as the word they are. */
  lemma WrongWordIsLonger(a: string, w: string, d: string, b: string, c: string)
    requires a != "" && !IsSpace(a[0])
    requires |w| == 1 && IsSpace(w[0])
    requires d != "" && forall i :: 0 <= i < |d| ==> !IsSpace(d[i])
    requires b != "" && !IsSpace(b[0])
    requires c == "" || IsSpace(c[0])
    ensures |Tidied(a + " " + (b + (w + (d + c))))| == |Tidied((a + (w + (d + b))) + " " + c)| + 1
  {
    var wrong, right := a + " " + (b + (w + (d + c))), (a + (w + (d + b))) + " " + c;
    TrimmedLength(wrong);
    TrimmedLength(right);
    MarksMatch(a, w, d, b, c);
    StartsDiffer(a, w, d, b, c);
  }

  lemma MarksMatch(a: string, w: string, d: string, b: string, c: string)
    ensures Marks(a + " " + (b + (w + (d + c)))) == Marks((a + (w + (d + b))) + " " + c)
  {
    MarksAdd(a + " ", b + (w + (d + c)));
    MarksAdd(a, " ");
    MarksAdd(b, w + (d + c));
    MarksAdd(w, d + c);
    MarksAdd(d, c);
    MarksAdd((a + (w + (d + b))) + " ", c);
    MarksAdd(a + (w + (d + b)), " ");
    MarksAdd(a, w + (d + b));
    MarksAdd(w, d + b);
    MarksAdd(d, b);
  }

  lemma {:induction false} OneWordStarts(d: string)
    requires d != "" && forall i :: 0 <= i < |d| ==> !IsSpace(d[i])
    ensures Starts(true, d) == 1
  {
    NoWordStarts(d[1..]);
  }

  lemma {:induction false} NoWordStarts(d: string)
    requires forall i :: 0 <= i < |d| ==> !IsSpace(d[i])
    ensures Starts(false, d) == 0
  {
    if d != "" { NoWordStarts(d[1..]); }
  }

  lemma StartsDiffer(a: string, w: string, d: string, b: string, c: string)
    requires |w| == 1 && IsSpace(w[0])
    requires d != "" && forall i :: 0 <= i < |d| ==> !IsSpace(d[i])
    requires b != "" && !IsSpace(b[0])
    requires c == "" || IsSpace(c[0])
    ensures Starts(true, a + " " + (b + (w + (d + c)))) == Starts(true, (a + (w + (d + b))) + " " + c) + 1
  {
    StartsOfWrong(a, w, d, b, c);
    StartsOfRight(a, w, d, b, c);
  }

  lemma StartsOfWrong(a: string, w: string, d: string, b: string, c: string)
    requires |w| == 1 && IsSpace(w[0])
    requires d != "" && forall i :: 0 <= i < |d| ==> !IsSpace(d[i])
    ensures Starts(true, a + " " + (b + (w + (d + c)))) == Starts(true, a) + Starts(true, b) + 1 + Starts(false, c)
  {
    StartsAdd(true, a + " ", b + (w + (d + c)));
    StartsAdd(true, a, " ");
    StartsAdd(true, b, w + (d + c));
    StartsAdd(EndsInSpace(true, b), w, d + c);
    StartsAdd(true, d, c);
    OneWordStarts(d);
    assert forall x :: Starts(x, w) == 0 by { assert w[1..] == ""; }
    assert forall x :: Starts(x, " ") == 0 by { assert " "[1..] == ""; }
  }

  lemma StartsOfRight(a: string, w: string, d: string, b: string, c: string)
    requires |w| == 1 && IsSpace(w[0])
    requires d != "" && forall i :: 0 <= i < |d| ==> !IsSpace(d[i])
    requires b != "" && !IsSpace(b[0])
    requires c == "" || IsSpace(c[0])
    ensures Starts(true, (a + (w + (d + b))) + " " + c) == Starts(true, a) + Starts(true, b) + Starts(false, c)
  {
    var ab := a + (w + (d + b));
    StartsAdd(true, ab + " ", c);
    StartsAdd(true, ab, " ");
    StartsAdd(true, a, w + (d + b));
    StartsAdd(EndsInSpace(true, a), w, d + b);
    StartsAdd(true, d, b);
    OneWordStarts(d);
    assert Starts(true, b) == 1 + Starts(false, b);
    assert forall x :: Starts(x, w) == 0 by { assert w[1..] == ""; }
    assert forall x :: Starts(x, " ") == 0 by { assert " "[1..] == ""; }
    assert Starts(true, c) == Starts(false, c);
  }

  /**
   * The quantity's own word, and nothing else, leaves the name, exactly when no earlier word begins with the same
   * digits behind the same white space.
   */
  lemma NameIsKeptExactlyWhen(raw: string, p: nat)
    requires raw != "" && !IsSpace(raw[0]) && FirstToken(raw, 0) == Some(p)
    ensures Stripped(raw, p) == WithoutToken(raw, p) <==> !OccursEarlier(raw, p)
  {
    var j := IndexOfText(raw, TokenText(raw, p));
    MatchStandsThere(raw, p);
    FirstOccurrence(raw, p, j);
    StrippedIsCut(raw, p, j);
    if j < MatchStart(p) {
      AnotherWordIsCut(raw, p, j);
    }
  }

  const PACK := "A 2b 2"

  lemma PackHasItsToken()
    ensures FirstToken(PACK, 0) == Some(5) && TokenText(PACK, 5) == " 2" && TokenDigits(PACK, 5) == "2"
  {
    assert PACK[5..] == ['2'] + "" && PACK[2..] == ['2'] + "b 2";
    RunOver(['2'], "", IsDigit);
    RunOver(['2'], "b 2", IsDigit);
    assert IsTokenAt(PACK, 5);
    forall k | 0 <= k < 5 ensures !IsTokenAt(PACK, k) {
      assert k != 2 ==> PACK[k..][0] == PACK[k] && !IsDigit(PACK[k]);
    }
  }

  lemma PackIsReplaced()
    ensures ReplaceFirst(PACK, " 2", " ") == "A b 2"
  {
    assert PACK[1..] == " 2" + "b 2" && PACK[0..][0] == PACK[0];
    assert IndexOfText(PACK, " 2") == 1;
    assert PACK[..1] + " " + PACK[3..] == "A b 2";
  }

  lemma PackIsTidy()
    ensures Tidied("A b 2") == "A b 2"
  {
    SqueezedPack();
    assert TrimStart("A b 2") == "A b 2" && TrimEnd("A b 2") == "A b 2";
  }

  lemma PackIsStripped()
    ensures Stripped(PACK, 5) == "A b 2"
  {
    PackHasItsToken();
    PackIsReplaced();
    PackIsTidy();
  }

  lemma SqueezedPack()
    ensures Squeezed("A b 2") == "A b 2"
  {
    assert "A b 2"[1..] == " b 2" && " b 2"[1..] == "b 2" && "b 2"[1..] == " 2" && " 2"[1..] == "2" && "2"[1..] == "";
    assert Squeezed("2") == "2";
    assert Squeezed(" 2") == " 2";
    assert Squeezed("b 2") == "b 2";
    assert Squeezed(" b 2") == " b 2";
  }

  lemma PackIsPriced(amount: nat)
    requires amount > 0 && amount % 2 == 0
    ensures Priced(PACK, amount, Sale) == Entry(Sale, "A b 2", 2, amount / 2, amount)
  {
    PackHasItsToken();
    PackIsStripped();
    assert ValueOf("2") == 2;
    assert IsLetter("A b 2"[0]);
  }

  /** A line that sells two of "A 2b" for an even amount is read as two of "A b 2", half the amount each. */
  lemma APackLosesItsDigit(amount: nat, currency: Currency)
    requires amount > 0 && amount % 2 == 0 && currency.exp <= 2
    ensures ReadEntry(EntryLine("A 2b 2", amount, currency.exp), Sale,
        currency) == Some(Entry(Sale, "A b 2", 2, amount / 2, amount))
  {
    assert IsLetter(PACK[0]);
    PrintedLineReads(PACK, amount, Sale, currency);
    PackIsPriced(amount);
  }

  lemma BothPlaces(raw: string, p: nat, j: nat)
    requires p <= |raw| && IsTokenAt(raw, p) && j < MatchStart(p) && TokenText(raw, p) <= raw[j..]
    ensures
      var n := |TokenDigits(raw, p)|;
      && 1 <= n <= 3 && |TokenText(raw, p)| == 1 + n && p + n <= |raw| && j + 1 + n <= |raw|
      && raw[j..j + 1 + n] == raw[p - 1..p + n] && MatchStart(p) == p - 1
  {
    TokenFacts(raw, p);
    SlicesAgree(raw, j, p - 1, TokenText(raw, p));
  }

  lemma AnotherWordIsCut(raw: string, p: nat, j: nat)
    requires raw != "" && !IsSpace(raw[0]) && p <= |raw| && IsTokenAt(raw, p)
    requires j < MatchStart(p) && TokenText(raw, p) <= raw[j..] && !IsTokenAt(raw, j + 1)
    ensures j + |TokenText(raw, p)| <= |raw| && MatchStart(p) + |TokenText(raw, p)| <= |raw|
    ensures Cut(raw, j, |TokenText(raw, p)|) != Cut(raw, MatchStart(p), |TokenText(raw, p)|)
  {
    var n := |TokenDigits(raw, p)|;
    BothPlaces(raw, p, j);
    DigitsStand(raw, p);
    EarlierEndsInsideAWord(raw, p, j, n);
    OtherWordIsCut(raw, p, j, n);
  }

  lemma DigitsStand(raw: string, p: nat)
    requires 0 < p <= |raw| && IsTokenAt(raw, p)
    ensures
      var n := |TokenDigits(raw, p)|;
      && p + n <= |raw| && IsSpace(raw[p - 1]) && AllDigits(raw[p..p + n]) && (p + n == |raw| || IsSpace(raw[p + n]))
  {
    TokenFacts(raw, p);
  }

  lemma MatchStandsThere(raw: string, p: nat)
    requires p <= |raw| && IsTokenAt(raw, p)
    ensures TokenText(raw, p) <= raw[MatchStart(p)..]
  {
  }

  lemma FirstOccurrence(raw: string, p: nat, j: nat)
    requires p <= |raw| && TokenText(raw, p) <= raw[MatchStart(p)..] && j == IndexOfText(raw, TokenText(raw, p))
    ensures j <= MatchStart(p) && TokenText(raw, p) <= raw[j..]
    ensures OccursEarlier(raw, p) <==> j < MatchStart(p)
  {
    if j < MatchStart(p) {
      assert 0 <= j && j + 1 < p && TokenText(raw, p) <= raw[j..];
    }
  }

  lemma StrippedIsCut(raw: string, p: nat, j: nat)
    requires p <= |raw| && TokenText(raw, p) <= raw[MatchStart(p)..] && j == IndexOfText(raw, TokenText(raw, p))
    ensures j + |TokenText(raw, p)| <= |raw| && Stripped(raw, p) == Cut(raw, j, |TokenText(raw, p)|)
  {
    CutAtFirst(raw, TokenText(raw, p), MatchStart(p));
  }

  lemma CutAtFirst(s: string, part: string, at: nat)
    requires at <= |s| && part <= s[at..]
    ensures
      var j := IndexOfText(s, part);
      j + |part| <= |s| && Tidied(ReplaceFirst(s, part, " ")) == Cut(s, j, |part|)
  {
    assert IndexOfText(s, part) <= at;
  }

  /** The matched token as plain facts: a space, one to three digits, and a space or the end. */
  lemma TokenFacts(raw: string, p: nat)
    requires 0 < p <= |raw| && IsTokenAt(raw, p)
    ensures
      var n := |TokenDigits(raw, p)|;
      && 1 <= n <= 3 && p + n <= |raw| && IsSpace(raw[p - 1]) && (p + n == |raw| || IsSpace(raw[p + n]))
      && TokenText(raw, p) == raw[p - 1..p + n] && AllDigits(raw[p..p + n])
  {
    DigitsOfToken(raw, p);
  }

  lemma SlicesAgree(raw: string, j: nat, i: nat, m: string)
    requires j <= |raw| && m <= raw[j..] && i + |m| <= |raw| && m == raw[i..i + |m|]
    ensures j + |m| <= |raw| && raw[j..j + |m|] == raw[i..i + |m|]
  {
    assert raw[j..][..|m|] == raw[j..j + |m|];
  }

  /** An earlier occurrence of the matched text ends inside a longer word. */
  lemma EarlierEndsInsideAWord(raw: string, p: nat, j: nat, n: nat)
    requires 1 <= n <= 3 && j + 1 < p && p + n <= |raw| && j + 1 + n <= |raw|
    requires IsSpace(raw[p - 1]) && AllDigits(raw[p..p + n]) && raw[j..j + 1 + n] == raw[p - 1..p + n]
    requires !IsTokenAt(raw, j + 1)
    ensures j + 1 + n < p - 1 && !IsSpace(raw[j + 1 + n])
  {
    assert raw[j] == raw[j..j + 1 + n][0] == raw[p - 1..p + n][0] == raw[p - 1];
    assert raw[j + 1..j + 1 + n] == raw[j..j + 1 + n][1..] == raw[p - 1..p + n][1..] == raw[p..p + n];
    EndsInsideAWord(raw, j + 1, n);
  }

  lemma EndsInsideAWord(raw: string, q: nat, n: nat)
    requires 0 < q && q + n <= |raw| && IsSpace(raw[q - 1]) && 1 <= n <= 3
    requires AllDigits(raw[q..q + n]) && !IsTokenAt(raw, q)
    ensures q + n < |raw| && !IsSpace(raw[q + n])
  {
    if q + n == |raw| || IsSpace(raw[q + n]) {
      assert raw[q..] == raw[q..q + n] + raw[q + n..];
      RunOver(raw[q..q + n], raw[q + n..], IsDigit);
    }
  }

  lemma OtherWordIsCut(raw: string, p: nat, j: nat, n: nat)
    requires raw != "" && !IsSpace(raw[0]) && 1 <= n && p + n <= |raw| && j + 1 + n < p - 1
    requires IsSpace(raw[p - 1]) && AllDigits(raw[p..p + n]) && raw[j..j + 1 + n] == raw[p - 1..p + n]
    requires !IsSpace(raw[j + 1 + n]) && (p + n == |raw| || IsSpace(raw[p + n]))
    ensures Cut(raw, j, 1 + n) != Cut(raw, p - 1, 1 + n)
  {
    var a, w, d, b, c := raw[..j], raw[p - 1..p], raw[p..p + n], raw[j + 1 + n..p - 1], raw[p + n..];
    PartsOfRaw(raw, p, j, n);
    DigitsAreNoSpace(d);
    assert raw[j] == raw[j..j + 1 + n][0] == raw[p - 1..p + n][0] == raw[p - 1];
    WrongWordIsLonger(a, w, d, b, c);
  }

  /** What the two cuts leave, in the pieces around the two occurrences. */
  lemma PartsOfRaw(raw: string, p: nat, j: nat, n: nat)
    requires 0 < p && j + 1 + n < p - 1 && p + n <= |raw|
    requires raw[j..j + 1 + n] == raw[p - 1..p + n]
    ensures
      var a, w, d, b, c := raw[..j], raw[p - 1..p], raw[p..p + n], raw[j + 1 + n..p - 1], raw[p + n..];
      raw[..p - 1] == a + (w + (d + b)) && raw[j + 1 + n..] == b + (w + (d + c))
  {
    var w, d := raw[p - 1..p], raw[p..p + n];
    assert raw[p - 1..p + n] == w + d;
    assert raw[..p - 1] == raw[..j] + raw[j..j + 1 + n] + raw[j + 1 + n..p - 1];
    assert raw[j + 1 + n..] == raw[j + 1 + n..p - 1] + raw[p - 1..p + n] + raw[p + n..];
  }
}
