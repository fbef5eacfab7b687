/** Two values print alike exactly when they mean the same, whatever the order of their keys. */
module CanonicalForm {
  import opened Prelude
  import opened CanonicalJson
  import JsonReader

  // ---------------------------------------------------------------- the key order

  lemma {:induction false} BelowIsTotal(a: Text, b: Text)
    ensures a == b || Below(a, b) || Below(b, a)
  {
    if a != [] && b != [] && a[0] == b[0] {
      BelowIsTotal(a[1..], b[1..]);
      assert a == [a[0]] + a[1..] && b == [b[0]] + b[1..];
    }
  }

  lemma {:induction false} BelowIsOneWay(a: Text, b: Text)
    ensures !(Below(a, b) && Below(b, a))
  {
    if a != [] && b != [] { BelowIsOneWay(a[1..], b[1..]); }
  }

  lemma {:induction false} BelowIsTransitive(a: Text, b: Text, c: Text)
    requires Below(a, b) && Below(b, c)
    ensures Below(a, c)
  {
    if a != [] && a[0] == b[0] == c[0] { BelowIsTransitive(a[1..], b[1..], c[1..]); }
  }

  /** Strictly ascending key lists. */
  predicate Ascending(ks: seq<Text>) {
    forall i, j :: 0 <= i < j < |ks| ==> Below(ks[i], ks[j])
  }

  lemma {:induction false} InsertKeepsAscending(k: Text, ks: seq<Text>)
    requires Ascending(ks) && k !in ks
    ensures Ascending(Insert(k, ks))
  {
    if ks != [] {
      if Below(ks[0], k) {
        var tail := Insert(k, ks[1..]);
        InsertKeepsAscending(k, ks[1..]);
        forall j | 0 <= j < |tail| ensures Below(ks[0], tail[j]) {
          assert tail[j] in multiset(tail);
          assert tail[j] == k || tail[j] in ks[1..];
        }
      } else {
        BelowIsTotal(k, ks[0]);
        forall j | 0 <= j < |ks| ensures Below(k, ks[j]) {
          if j > 0 { BelowIsTransitive(k, ks[0], ks[j]); }
        }
      }
    }
  }

  lemma {:induction false} SortIsAscending(ks: seq<Text>)
    requires Distinct(ks)
    ensures Ascending(Sort(ks))
  {
    if ks != [] {
      SortIsAscending(ks[1..]);
      assert ks[0] !in ks[1..];
      assert ks[0] !in multiset(Sort(ks[1..]));
      InsertKeepsAscending(ks[0], Sort(ks[1..]));
    }
  }

  /** An ascending list is determined by which keys it holds. */
  lemma {:induction false} AscendingIsUnique(a: seq<Text>, b: seq<Text>)
    requires Ascending(a) && Ascending(b)
    requires forall k :: k in a <==> k in b
    ensures a == b
  {
    if a == [] {
      assert forall i :: 0 <= i < |b| ==> b[i] in b;
    } else {
      assert a[0] in b;
      var j :| 0 <= j < |b| && b[j] == a[0];
      assert b[0] in a;
      var i :| 0 <= i < |a| && a[i] == b[0];
      BelowIsOneWay(a[0], b[0]);
      assert a[0] == b[0];
      BelowIsOneWay(a[0], a[0]);
      forall k ensures k in a[1..] <==> k in b[1..] {
        assert k in a[1..] <==> k in a && k != a[0] by { assert a == [a[0]] + a[1..]; }
        assert k in b[1..] <==> k in b && k != b[0] by { assert b == [b[0]] + b[1..]; }
      }
      AscendingIsUnique(a[1..], b[1..]);
      assert a == [a[0]] + a[1..] && b == [b[0]] + b[1..];
    }
  }

  lemma SameKeysSortAlike(f: seq<Field>, g: seq<Field>)
    requires Distinct(Keys(f)) && Distinct(Keys(g))
    requires forall k :: k in Keys(f) <==> k in Keys(g)
    ensures Sort(Keys(f)) == Sort(Keys(g))
  {
    SortIsAscending(Keys(f));
    SortIsAscending(Keys(g));
    SortKeepsKeys(f);
    SortKeepsKeys(g);
    AscendingIsUnique(Sort(Keys(f)), Sort(Keys(g)));
  }

  // ---------------------------------------------------------------- same meaning, same print

  lemma {:induction false} SameMeaningPrintsAlike(v: Json, w: Json)
    requires WellFormed(v) && WellFormed(w) && Meaning(v) == Meaning(w)
    ensures Print(v) == Print(w)
    decreases v, 0
  {
    match v
    case Array(items) => SameItemsPrintAlike(items, w.items);
    case Object(fields) =>
      var ms, ns := Meaning(v).members, Meaning(w).members;
      assert forall k :: k in Keys(fields) <==> k in ms;
      assert forall k :: k in Keys(w.fields) <==> k in ns;
      SameKeysSortAlike(fields, w.fields);
      SortKeepsKeys(fields);
      forall k | k in Keys(fields)
        ensures Meaning(fields[IndexOf(fields, k)].value) == Meaning(w.fields[IndexOf(w.fields, k)].value)
      {
        assert ms[k] == ns[k];
      }
      SameMembersPrintAlike(fields, w.fields, Sort(Keys(fields)));
    case _ =>
  }

  lemma {:induction false} SameItemsPrintAlike(a: seq<Json>, b: seq<Json>)
    requires forall x :: x in a ==> WellFormed(x)
    requires forall x :: x in b ==> WellFormed(x)
    requires Meaning(Array(a)) == Meaning(Array(b))
    ensures PrintItems(a) == PrintItems(b)
    decreases a, |a|
  {
    var va, vb := Meaning(Array(a)).items, Meaning(Array(b)).items;
    assert |va| == |a| && |vb| == |b|;
    if a != [] {
      assert va[0] == Meaning(a[0]) && vb[0] == Meaning(b[0]);
      SameMeaningPrintsAlike(a[0], b[0]);
      assert Meaning(Array(a[1..])).items == va[1..] && Meaning(Array(b[1..])).items == vb[1..];
      SameItemsPrintAlike(a[1..], b[1..]);
    }
  }

  lemma {:induction false} SameMembersPrintAlike(f: seq<Field>, g: seq<Field>, keys: seq<Text>)
    requires forall x :: x in f ==> WellFormed(x.value)
    requires forall x :: x in g ==> WellFormed(x.value)
    requires forall k :: k in Keys(f) <==> k in Keys(g)
    requires forall k :: k in Keys(f) ==> Meaning(f[IndexOf(f, k)].value) == Meaning(g[IndexOf(g, k)].value)
    requires forall k :: k in keys ==> k in Keys(f)
    ensures PrintMembers(f, keys) == PrintMembers(g, keys)
    decreases f, |keys|
  {
    if keys != [] {
      var k := keys[0];
      assert k in Keys(f);
      SameMeaningPrintsAlike(f[IndexOf(f, k)].value, g[IndexOf(g, k)].value);
      SameMembersPrintAlike(f, g, keys[1..]);
    }
  }

  // ---------------------------------------------------------------- main results

  /** Reading a print back recovers the value, and nothing is left over. */
  lemma PrintIsReadBack(v: Json)
    requires WellFormed(v)
    ensures JsonReader.ReadValue(Print(v)) == Some((Meaning(v), []))
  {
    JsonReader.PrintReads(v, []);
    assert Print(v) + [] == Print(v);
  }

  /** The canonical form: equal prints if and only if equal values, in whatever order the keys were given. */
  lemma PrintsAgreeExactly(v: Json, w: Json)
    requires WellFormed(v) && WellFormed(w)
    ensures Print(v) == Print(w) <==> Meaning(v) == Meaning(w)
  {
    PrintIsReadBack(v);
    PrintIsReadBack(w);
    if Meaning(v) == Meaning(w) { SameMeaningPrintsAlike(v, w); }
  }

  /**
   * A printed value is never a proper prefix of another: prints concatenate without ambiguity when no number follows.
   */
  lemma PrintsAreSelfDelimiting(v: Json, w: Json, rest: Text, other: Text)
    requires WellFormed(v) && WellFormed(w) && JsonReader.Stops(rest) && JsonReader.Stops(other)
    requires Print(v) + rest == Print(w) + other
    ensures Meaning(v) == Meaning(w) && rest == other
  {
    JsonReader.PrintReads(v, rest);
    JsonReader.PrintReads(w, other);
  }

  // ---------------------------------------------------------------- what the hash sees

  /** Every surrogate stands in a pair, so no code unit is lost when the text is turned into UTF-8 bytes for hashing. */
  predicate Paired(t: Text)
    decreases |t|
  {
    || t == []
    || (StartsWithPair(t) && Paired(t[2..]))
    || (!IsLead(t[0]) && !IsTrail(t[0]) && Paired(t[1..]))
  }

  lemma {:induction false} PairedConcat(a: Text, b: Text)
    requires Paired(a) && Paired(b)
    ensures Paired(a + b)
    decreases |a|
  {
    if a == [] {
      assert a + b == b;
    } else if StartsWithPair(a) {
      PairedConcat(a[2..], b);
      assert (a + b)[2..] == a[2..] + b;
    } else {
      PairedConcat(a[1..], b);
      assert (a + b)[1..] == a[1..] + b;
    }
  }

  lemma {:induction false} PlainIsPaired(t: Text)
    requires forall i :: 0 <= i < |t| ==> t[i] < 0xD800
    ensures Paired(t)
  {
    if t != [] { PlainIsPaired(t[1..]); }
  }

  lemma {:induction false} PrintedCharsArePaired(s: Text)
    ensures Paired(PrintChars(s))
    decreases |s|
  {
    if s != [] {
      PrintedCharsArePaired(s[Taken(s)..]);
      assert Paired(Piece(s)) by {
        if StartsWithPair(s) {
          assert s[..2][2..] == [];
        } else if IsLead(s[0]) || IsTrail(s[0]) || s[0] < 0x20 {
          PlainIsPaired(Piece(s));
        }
      }
      PairedConcat(Piece(s), PrintChars(s[Taken(s)..]));
    }
  }

  lemma {:induction false} BetweenIsPaired(open: Unit, body: Text, close: Unit)
    requires open < 0xD800 && close < 0xD800 && Paired(body)
    ensures Paired([open] + body + [close])
  {
    assert ([open] + body)[1..] == body;
    assert Paired([close]) by { PlainIsPaired([close]); }
    PairedConcat([open] + body, [close]);
  }

  lemma {:induction false} JoinedIsPaired(a: Text, u: Unit, b: Text)
    requires Paired(a) && Paired(b) && u < 0xD800
    ensures Paired(a + [u] + b)
  {
    assert ([u] + b)[1..] == b;
    PairedConcat(a, [u] + b);
    assert a + [u] + b == a + ([u] + b);
  }

  lemma {:induction false} DigitsArePlain(n: nat)
    ensures forall i :: 0 <= i < |Digits(n)| ==> Digits(n)[i] < 0xD800
  {
    assert forall i :: 0 <= i < |Digits(n)| ==> IsDigit(Digits(n)[i]);
  }

  /** No print holds a lone surrogate. */
  lemma {:induction false} PrintIsPaired(v: Json)
    ensures Paired(Print(v))
    decreases v, 0
  {
    match v
    case Null => PlainIsPaired(NULL_WORD);
    case Bool(b) => PlainIsPaired(TRUE_WORD); PlainIsPaired(FALSE_WORD);
    case Number(n) => DigitsArePlain(if n < 0 then -n else n); PlainIsPaired(PrintNumber(n));
    case String(s) => PrintedCharsArePaired(s); BetweenIsPaired(QUOTE, PrintChars(s), QUOTE);
    case Array(items) => ItemsArePaired(items); BetweenIsPaired(OPEN_ARRAY, PrintItems(items), CLOSE_ARRAY);
    case Object(fields) =>
      SortKeepsKeys(fields);
      MembersArePaired(fields, Sort(Keys(fields)));
      BetweenIsPaired(OPEN_OBJECT, PrintMembers(fields, Sort(Keys(fields))), CLOSE_OBJECT);
  }

  lemma {:induction false} ItemsArePaired(items: seq<Json>)
    ensures Paired(PrintItems(items))
    decreases items, |items|
  {
    if items != [] {
      PrintIsPaired(items[0]);
      ItemsArePaired(items[1..]);
      JoinedIsPaired(Print(items[0]), COMMA, PrintItems(items[1..]));
    }
  }

  lemma {:induction false} MembersArePaired(fields: seq<Field>, keys: seq<Text>)
    requires forall k :: k in keys ==> k in Keys(fields)
    ensures Paired(PrintMembers(fields, keys))
    decreases fields, |keys|
  {
    if keys != [] {
      var key := keys[0];
      assert key in Keys(fields);
      var v := fields[IndexOf(fields, key)].value;
      PrintedCharsArePaired(key);
      BetweenIsPaired(QUOTE, PrintChars(key), QUOTE);
      PrintIsPaired(v);
      JoinedIsPaired(PrintString(key), COLON, Print(v));
      MembersArePaired(fields, keys[1..]);
      JoinedIsPaired(PrintMember(fields, key), COMMA, PrintMembers(fields, keys[1..]));
    }
  }
}
