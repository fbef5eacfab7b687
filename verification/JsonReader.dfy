/** A reader of compact JSON (RFC 8259) for integers, and the proof that it undoes the canonical print. */
module JsonReader {
  import opened Prelude
  import opened CanonicalJson

  type Reading<T> = Option<(T, Text)>

  function HexValue(u: Unit): (v: Option<nat>)
    ensures v.Some? ==> v.value < 16
  {
    if IsDigit(u) then Some(u - ZERO)
    else if 0x61 <= u <= 0x66 then Some(u - 0x61 + 10)
    else if 0x41 <= u <= 0x46 then Some(u - 0x41 + 10)
    else None
  }

  /** The code unit after a backslash and a letter u. */
  function ReadHex(t: Text): (r: Reading<Unit>)
    ensures r.Some? ==> |r.value.1| < |t|
  {
    if |t| < 4 then None
    else
      var a, b, c, d := HexValue(t[0]), HexValue(t[1]), HexValue(t[2]), HexValue(t[3]);
      if a.None? || b.None? || c.None? || d.None? then None
      else
        var high := a.value * 16 + b.value;
        var low := c.value * 16 + d.value;
        Some((high * 0x100 + low, t[4..]))
  }

  /** The escape after a backslash (section 7 of RFC 8259). */
  function ReadEscape(t: Text): (r: Reading<Unit>)
    ensures r.Some? ==> |r.value.1| < |t|
  {
    if t == [] then None
    else if t[0] == LETTER_U then ReadHex(t[1..])
    else if t[0] == QUOTE || t[0] == BACKSLASH || t[0] == 0x2F then Some((t[0], t[1..]))
    else if t[0] == 0x62 then Some((8, t[1..]))
    else if t[0] == 0x66 then Some((12, t[1..]))
    else if t[0] == 0x6E then Some((10, t[1..]))
    else if t[0] == 0x72 then Some((13, t[1..]))
    else if t[0] == 0x74 then Some((9, t[1..]))
    else None
  }

  /** Reads the body of a string literal and its closing quote. */
  function ReadChars(t: Text): (r: Reading<Text>)
    ensures r.Some? ==> |r.value.1| < |t|
    decreases |t|
  {
    if t == [] || t[0] < 0x20 then None
    else if t[0] == QUOTE then Some(([], t[1..]))
    else
      var first := if t[0] == BACKSLASH then ReadEscape(t[1..]) else Some((t[0], t[1..]));
      if first.None? then None
      else
        var more := ReadChars(first.value.1);
        if more.None? then None else Some(([first.value.0] + more.value.0, more.value.1))
  }

  /** Value and rest of a run of digits, continuing from `sofar`. */
  function ReadDigits(t: Text, sofar: nat): (r: (nat, Text))
    ensures |r.1| <= |t|
  {
    if t != [] && IsDigit(t[0]) then ReadDigits(t[1..], sofar * 10 + (t[0] - ZERO)) else (sofar, t)
  }

  function ReadNatural(t: Text): (r: Reading<nat>)
    ensures r.Some? ==> |r.value.1| < |t|
  {
    if t == [] || !IsDigit(t[0]) then None
    else if t[0] == ZERO then (if |t| > 1 && IsDigit(t[1]) then None else Some((0, t[1..])))
    else Some(ReadDigits(t[1..], t[0] - ZERO))
  }

  function ReadNumber(t: Text): (r: Reading<int>)
    ensures r.Some? ==> |r.value.1| < |t|
  {
    if t != [] && t[0] == MINUS then
      var n := ReadNatural(t[1..]);
      if n.None? then None else
        var minus: int := 0 - n.value.0;
        Some((minus, n.value.1))
    else
      var n := ReadNatural(t);
      if n.None? then None else Some((n.value.0, n.value.1))
  }

  function ReadValue(t: Text): (r: Reading<Value>)
    ensures r.Some? ==> |r.value.1| < |t|
    decreases |t|, 0
  {
    if t == [] then None
    else if t[0] == QUOTE then
      var s := ReadChars(t[1..]);
      if s.None? then None else Some((VString(s.value.0), s.value.1))
    else if t[0] == OPEN_ARRAY then
      if |t| > 1 && t[1] == CLOSE_ARRAY then Some((VArray([]), t[2..]))
      else
        var items := ReadItems(t[1..]);
        if items.None? then None else Some((VArray(items.value.0), items.value.1))
    else if t[0] == OPEN_OBJECT then
      if |t| > 1 && t[1] == CLOSE_OBJECT then Some((VObject(map[]), t[2..]))
      else
        var members := ReadMembers(t[1..]);
        if members.None? then None else Some((VObject(members.value.0), members.value.1))
    else if NULL_WORD <= t then Some((VNull, t[4..]))
    else if TRUE_WORD <= t then Some((VBool(true), t[4..]))
    else if FALSE_WORD <= t then Some((VBool(false), t[5..]))
    else
      var n := ReadNumber(t);
      if n.None? then None else Some((VNumber(n.value.0), n.value.1))
  }

  /** One or more values and the closing bracket. */
  function ReadItems(t: Text): (r: Reading<seq<Value>>)
    ensures r.Some? ==> |r.value.1| < |t|
    decreases |t|, 1
  {
    var first := ReadValue(t);
    if first.None? || first.value.1 == [] then None
    else
      var (v, rest) := first.value;
      if rest[0] == CLOSE_ARRAY then Some(([v], rest[1..]))
      else if rest[0] != COMMA then None
      else
        var more := ReadItems(rest[1..]);
        if more.None? then None else Some(([v] + more.value.0, more.value.1))
  }

  /** One or more members and the closing brace; of equal names the last one counts. */
  function ReadMembers(t: Text): (r: Reading<map<Text, Value>>)
    ensures r.Some? ==> |r.value.1| < |t|
    decreases |t|, 1
  {
    if t == [] || t[0] != QUOTE then None
    else
      var key := ReadChars(t[1..]);
      if key.None? || key.value.1 == [] || key.value.1[0] != COLON then None
      else
        var first := ReadValue(key.value.1[1..]);
        if first.None? || first.value.1 == [] then None
        else
          var (v, rest) := first.value;
          if rest[0] == CLOSE_OBJECT then Some((map[key.value.0 := v], rest[1..]))
          else if rest[0] != COMMA then None
          else
            var more := ReadMembers(rest[1..]);
            if more.None? then None else Some((map[key.value.0 := v] + more.value.0, more.value.1))
  }

  // ---------------------------------------------------------------- strings

  lemma HexDigitReads(d: int)
    requires 0 <= d < 16
    ensures HexValue(HexDigit(d)) == Some(d)
  {
  }

  lemma HexPlaces(u: Unit)
    ensures u == (u / 0x1000 * 16 + u / 0x100 % 16) * 0x100 + (u / 0x10 % 16 * 16 + u % 16)
  {
    assert u / 0x1000 * 16 + u / 0x100 % 16 == u / 0x100;
    assert u / 0x10 % 16 * 16 + u % 16 == u % 0x100;
  }

  lemma UnicodeEscapeReads(u: Unit, rest: Text)
    ensures ReadEscape((UnicodeEscape(u) + rest)[1..]) == Some((u, rest))
  {
    HexDigitReads(u / 0x1000);
    HexDigitReads(u / 0x100 % 16);
    HexDigitReads(u / 0x10 % 16);
    HexDigitReads(u % 16);
    HexPlaces(u);
    var t := (UnicodeEscape(u) + rest)[1..];
    assert t == UnicodeEscape(u)[1..] + rest;
    assert t[1..][4..] == rest;
  }

  lemma PlainCharReads(u: Unit, tail: Text, s: Text, rest: Text)
    requires u >= 0x20 && u != QUOTE && u != BACKSLASH
    requires ReadChars(tail) == Some((s, rest))
    ensures ReadChars([u] + tail) == Some(([u] + s, rest))
  {
    assert ([u] + tail)[1..] == tail;
  }

  lemma EscapedCharReads(escape: Text, u: Unit, tail: Text, s: Text, rest: Text)
    requires escape != [] && escape[0] == BACKSLASH
    requires ReadEscape((escape + tail)[1..]) == Some((u, tail))
    requires ReadChars(tail) == Some((s, rest))
    ensures ReadChars(escape + tail) == Some(([u] + s, rest))
  {
  }

  lemma ShortEscapeReads(u: Unit, tail: Text)
    requires ShortEscape(u).Some?
    ensures ReadEscape(([BACKSLASH, ShortEscape(u).value] + tail)[1..]) == Some((u, tail))
  {
    var t := ([BACKSLASH, ShortEscape(u).value] + tail)[1..];
    assert t == [ShortEscape(u).value] + tail;
    assert t[1..] == tail;
  }

  lemma PieceReads(s: Text, tail: Text, more: Text, rest: Text)
    requires s != [] && ReadChars(tail) == Some((more, rest))
    ensures ReadChars(Piece(s) + tail) == Some((s[..Taken(s)] + more, rest))
  {
    if StartsWithPair(s) {
      PlainCharReads(s[1], tail, more, rest);
      PlainCharReads(s[0], [s[1]] + tail, [s[1]] + more, rest);
      assert Piece(s) + tail == [s[0]] + ([s[1]] + tail);
      assert s[..2] + more == [s[0]] + ([s[1]] + more);
    } else {
      assert s[..1] == [s[0]];
      if ShortEscape(s[0]).Some? {
        ShortEscapeReads(s[0], tail);
        EscapedCharReads(Piece(s), s[0], tail, more, rest);
      } else if s[0] < 0x20 || IsLead(s[0]) || IsTrail(s[0]) {
        UnicodeEscapeReads(s[0], tail);
        EscapedCharReads(Piece(s), s[0], tail, more, rest);
      } else {
        PlainCharReads(s[0], tail, more, rest);
      }
    }
  }

  lemma ClosingQuoteReads(rest: Text)
    ensures ReadChars(PrintChars([]) + ([QUOTE] + rest)) == Some(([], rest))
  {
    assert PrintChars([]) + ([QUOTE] + rest) == [QUOTE] + rest;
    assert ([QUOTE] + rest)[1..] == rest;
  }

  lemma FirstPiece(s: Text, close: Text)
    requires s != []
    ensures PrintChars(s) + close == Piece(s) + (PrintChars(s[Taken(s)..]) + close)
    ensures s == s[..Taken(s)] + s[Taken(s)..]
  {
    Associates(Piece(s), PrintChars(s[Taken(s)..]), close);
  }

  lemma Associates(a: Text, b: Text, c: Text)
    ensures (a + b) + c == a + (b + c)
  {
  }

  lemma {:induction false} StringReads(s: Text, rest: Text)
    ensures ReadChars(PrintChars(s) + ([QUOTE] + rest)) == Some((s, rest))
    decreases |s|
  {
    if s == [] {
      ClosingQuoteReads(rest);
    } else {
      var after := s[Taken(s)..];
      StringReads(after, rest);
      PieceReads(s, PrintChars(after) + ([QUOTE] + rest), after, rest);
      FirstPiece(s, [QUOTE] + rest);
    }
  }

  // ---------------------------------------------------------------- numbers

  /** What may follow a value: anything but another digit. */
  predicate Stops(rest: Text) { rest == [] || !IsDigit(rest[0]) }

  function Power10(n: nat): nat { if n == 0 then 1 else 10 * Power10(n - 1) }

  lemma OneMorePlace(a: nat, p: nat, q: nat, r: nat)
    ensures (a * p + q) * 10 + r == a * (10 * p) + (q * 10 + r)
  {
  }

  lemma {:induction false} DigitsThen(ds: Text, n: nat, sofar: nat, rest: Text)
    requires ds == Digits(n)
    ensures ReadDigits(ds + rest, sofar) == ReadDigits(rest, sofar * Power10(|ds|) + n)
    decreases n
  {
    if n < 10 {
      assert (ds + rest)[1..] == rest;
      assert Power10(1) == 10 * Power10(0);
    } else {
      var front, last := Digits(n / 10), [ZERO + n % 10];
      DigitsThen(front, n / 10, sofar, last + rest);
      assert ds + rest == front + (last + rest);
      assert (last + rest)[1..] == rest;
      OneMorePlace(sofar, Power10(|front|), n / 10, n % 10);
    }
  }

  lemma {:induction false} NaturalReads(n: nat, rest: Text)
    requires Stops(rest)
    ensures ReadNatural(Digits(n) + rest) == Some((n, rest))
  {
    var ds := Digits(n);
    var t := ds + rest;
    assert t[0] == ds[0] && IsDigit(t[0]);
    if n == 0 {
      assert t[1..] == rest;
    } else {
      DigitsThen(ds, n, 0, rest);
      assert ds[0] != ZERO;
      assert ReadDigits(t, 0) == ReadDigits(t[1..], t[0] - ZERO);
    }
  }

  lemma NegativeReads(n: int, rest: Text)
    requires Stops(rest) && n < 0
    ensures ReadNumber([MINUS] + (Digits(-n) + rest)) == Some((n, rest))
  {
    NaturalReads(-n, rest);
    assert ([MINUS] + (Digits(-n) + rest))[1..] == Digits(-n) + rest;
  }

  lemma PositiveReads(n: nat, rest: Text)
    requires Stops(rest)
    ensures ReadNumber(Digits(n) + rest) == Some((n, rest))
  {
    NaturalReads(n, rest);
    assert IsDigit(Digits(n)[0]) && (Digits(n) + rest)[0] == Digits(n)[0];
  }

  lemma NumberReads(n: int, rest: Text)
    requires Stops(rest)
    ensures ReadNumber(PrintNumber(n) + rest) == Some((n, rest))
  {
    if n < 0 {
      NegativeReads(n, rest);
      Associates([MINUS], Digits(-n), rest);
    } else {
      PositiveReads(n, rest);
    }
  }

  // ---------------------------------------------------------------- values

  lemma WordReads(v: Json, rest: Text)
    requires v.Null? || v.Bool?
    ensures ReadValue(Print(v) + rest) == Some((Meaning(v), rest))
  {
    var t := Print(v) + rest;
    assert t[|Print(v)|..] == rest;
  }

  lemma NumberValueReads(n: int, rest: Text)
    requires Stops(rest)
    ensures ReadValue(PrintNumber(n) + rest) == Some((VNumber(n), rest))
  {
    NumberReads(n, rest);
    var t := PrintNumber(n) + rest;
    assert t[0] == PrintNumber(n)[0];
    assert t[0] == MINUS || IsDigit(t[0]);
  }

  lemma StringValueReads(s: Text, rest: Text)
    ensures ReadValue(PrintString(s) + rest) == Some((VString(s), rest))
  {
    StringReads(s, rest);
    assert (PrintString(s) + rest)[1..] == PrintChars(s) + ([QUOTE] + rest);
  }

  /** Reading what was printed gives back the meaning and leaves the rest. */
  lemma {:induction false} PrintReads(v: Json, rest: Text)
    requires WellFormed(v) && Stops(rest)
    ensures ReadValue(Print(v) + rest) == Some((Meaning(v), rest))
    decreases v, 0
  {
    match v
    case Null => WordReads(v, rest);
    case Bool(_) => WordReads(v, rest);
    case Number(n) => NumberValueReads(n, rest);
    case String(s) => StringValueReads(s, rest);
    case Array(items) => ArrayReads(items, rest);
    case Object(fields) => ObjectReads(fields, rest);
  }

  /** No printed value starts like a closing bracket or brace. */
  lemma PrintStarts(v: Json)
    ensures Print(v) != [] && Print(v)[0] != CLOSE_ARRAY && Print(v)[0] != CLOSE_OBJECT
  {
  }

  function Meanings(items: seq<Json>): seq<Value> {
    seq(|items|, i requires 0 <= i < |items| => Meaning(items[i]))
  }

  lemma LastItemReads(t: Text, v: Value, rest: Text)
    requires ReadValue(t) == Some((v, [CLOSE_ARRAY] + rest))
    ensures ReadItems(t) == Some(([v], rest))
  {
    assert ([CLOSE_ARRAY] + rest)[1..] == rest;
  }

  lemma NextItemReads(t: Text, v: Value, more: Text, vs: seq<Value>, rest: Text)
    requires ReadValue(t) == Some((v, [COMMA] + more)) && ReadItems(more) == Some((vs, rest))
    ensures ReadItems(t) == Some(([v] + vs, rest))
  {
    assert ([COMMA] + more)[1..] == more;
  }

  lemma BracketedItemsRead(t: Text, vs: seq<Value>, rest: Text)
    requires t != [] && t[0] != CLOSE_ARRAY && ReadItems(t) == Some((vs, rest))
    ensures ReadValue([OPEN_ARRAY] + t) == Some((VArray(vs), rest))
  {
    assert ([OPEN_ARRAY] + t)[1..] == t;
  }

  lemma EmptyArrayReads(rest: Text)
    ensures ReadValue(Print(Array([])) + rest) == Some((Meaning(Array([])), rest))
  {
    var t := Print(Array([])) + rest;
    assert t == [OPEN_ARRAY, CLOSE_ARRAY] + rest;
    assert t[2..] == rest;
    assert Meaning(Array([])) == VArray([]);
  }

  lemma ArrayParts(items: seq<Json>, rest: Text)
    requires items != []
    ensures Print(Array(items)) + rest == [OPEN_ARRAY] + (PrintItems(items) + ([CLOSE_ARRAY] + rest))
    ensures PrintItems(items) != [] && PrintItems(items)[0] != CLOSE_ARRAY
  {
    PrintStarts(items[0]);
  }

  lemma {:induction false} ArrayReads(items: seq<Json>, rest: Text)
    requires WellFormed(Array(items))
    ensures ReadValue(Print(Array(items)) + rest) == Some((Meaning(Array(items)), rest))
    decreases items, |items| + 1
  {
    if items == [] {
      EmptyArrayReads(rest);
    } else {
      ItemsRead(items, rest);
      ArrayParts(items, rest);
      BracketedItemsRead(PrintItems(items) + ([CLOSE_ARRAY] + rest), Meanings(items), rest);
    }
  }

  lemma MeaningsUnfold(items: seq<Json>)
    requires items != []
    ensures Meanings(items) == [Meaning(items[0])] + Meanings(items[1..])
  {
  }

  lemma ItemsPart(items: seq<Json>, close: Text)
    requires |items| > 1
    ensures PrintItems(items) + close == Print(items[0]) + ([COMMA] + (PrintItems(items[1..]) + close))
  {
    Associates(Print(items[0]) + [COMMA], PrintItems(items[1..]), close);
    Associates(Print(items[0]), [COMMA], PrintItems(items[1..]) + close);
  }

  lemma {:induction false} ItemsRead(items: seq<Json>, rest: Text)
    requires items != [] && forall x :: x in items ==> WellFormed(x)
    ensures ReadItems(PrintItems(items) + ([CLOSE_ARRAY] + rest)) == Some((Meanings(items), rest))
    decreases items, |items|
  {
    var close := [CLOSE_ARRAY] + rest;
    if |items| == 1 {
      PrintReads(items[0], close);
      assert PrintItems(items) == Print(items[0]);
      LastItemReads(Print(items[0]) + close, Meaning(items[0]), rest);
      assert Meanings(items) == [Meaning(items[0])];
    } else {
      var more := PrintItems(items[1..]) + close;
      PrintReads(items[0], [COMMA] + more);
      ItemsRead(items[1..], rest);
      ItemsPart(items, close);
      NextItemReads(PrintItems(items) + close, Meaning(items[0]), more, Meanings(items[1..]), rest);
      MeaningsUnfold(items);
    }
  }

  function MeaningOf(fields: seq<Field>, key: Text): Value
    requires key in Keys(fields)
  {
    Meaning(fields[IndexOf(fields, key)].value)
  }

  function MeaningsOf(fields: seq<Field>, keys: seq<Text>): map<Text, Value>
    requires forall k :: k in keys ==> k in Keys(fields)
  {
    map k | k in keys :: k := MeaningOf(fields, k)
  }

  /** The name and colon in front of a member's value. */
  lemma NameReads(key: Text, after: Text)
    ensures ReadChars((PrintString(key) + ([COLON] + after))[1..]) == Some((key, [COLON] + after))
  {
    var colon := [COLON] + after;
    StringReads(key, colon);
    assert (PrintString(key) + colon)[1..] == PrintChars(key) + ([QUOTE] + colon);
  }

  lemma LastMemberReads(key: Text, t: Text, v: Value, rest: Text)
    requires ReadValue(t) == Some((v, [CLOSE_OBJECT] + rest))
    ensures ReadMembers(PrintString(key) + ([COLON] + t)) == Some((map[key := v], rest))
  {
    NameReads(key, t);
    assert ([COLON] + t)[1..] == t;
    assert ([CLOSE_OBJECT] + rest)[1..] == rest;
  }

  lemma NextMemberReads(key: Text, t: Text, v: Value, more: Text, vs: map<Text, Value>, rest: Text)
    requires ReadValue(t) == Some((v, [COMMA] + more)) && ReadMembers(more) == Some((vs, rest))
    ensures ReadMembers(PrintString(key) + ([COLON] + t)) == Some((map[key := v] + vs, rest))
  {
    NameReads(key, t);
    assert ([COLON] + t)[1..] == t;
    assert ([COMMA] + more)[1..] == more;
  }

  lemma BracedMembersRead(t: Text, vs: map<Text, Value>, rest: Text)
    requires t != [] && t[0] != CLOSE_OBJECT && ReadMembers(t) == Some((vs, rest))
    ensures ReadValue([OPEN_OBJECT] + t) == Some((VObject(vs), rest))
  {
    assert ([OPEN_OBJECT] + t)[1..] == t;
  }

  lemma EmptyObjectReads(rest: Text)
    ensures ReadValue(Print(Object([])) + rest) == Some((Meaning(Object([])), rest))
  {
    var t := Print(Object([])) + rest;
    assert Sort(Keys([])) == [];
    assert t == [OPEN_OBJECT, CLOSE_OBJECT] + rest;
    assert t[2..] == rest;
    assert Meaning(Object([])).members == map[];
  }

  lemma SortedKeys(fields: seq<Field>)
    requires fields != []
    ensures var keys := Sort(Keys(fields));
      && keys != [] && (forall k :: k in keys <==> k in Keys(fields))
      && MeaningsOf(fields, keys) == Meaning(Object(fields)).members
  {
    var keys := Sort(Keys(fields));
    SortKeepsKeys(fields);
    assert |keys| == |multiset(keys)| == |multiset(Keys(fields))| == |fields|;
  }

  lemma MembersStart(fields: seq<Field>, keys: seq<Text>)
    requires keys != [] && forall k :: k in keys ==> k in Keys(fields)
    ensures PrintMembers(fields, keys) != [] && PrintMembers(fields, keys)[0] == QUOTE
  {
    assert keys[0] in keys;
    assert PrintMember(fields, keys[0])[0] == QUOTE;
  }

  lemma ObjectParts(fields: seq<Field>, rest: Text)
    requires fields != []
    ensures var keys := Sort(Keys(fields));
      && keys != [] && (forall k :: k in keys <==> k in Keys(fields))
      && Print(Object(fields)) + rest == [OPEN_OBJECT] + (PrintMembers(fields, keys) + ([CLOSE_OBJECT] + rest))
      && PrintMembers(fields, keys) != [] && PrintMembers(fields, keys)[0] == QUOTE
      && MeaningsOf(fields, keys) == Meaning(Object(fields)).members
  {
    var keys := Sort(Keys(fields));
    SortedKeys(fields);
    MembersStart(fields, keys);
    Associates([OPEN_OBJECT] + PrintMembers(fields, keys), [CLOSE_OBJECT], rest);
    Associates([OPEN_OBJECT], PrintMembers(fields, keys), [CLOSE_OBJECT] + rest);
  }

  lemma {:induction false} ObjectReads(fields: seq<Field>, rest: Text)
    requires WellFormed(Object(fields))
    ensures ReadValue(Print(Object(fields)) + rest) == Some((Meaning(Object(fields)), rest))
    decreases fields, |fields| + 2
  {
    if fields == [] {
      EmptyObjectReads(rest);
    } else {
      ObjectParts(fields, rest);
      var keys := Sort(Keys(fields));
      assert |keys| == |multiset(keys)| == |multiset(Keys(fields))| == |fields|;
      MembersRead(fields, keys, rest);
      BracedMembersRead(PrintMembers(fields, keys) + ([CLOSE_OBJECT] + rest), MeaningsOf(fields, keys), rest);
    }
  }

  lemma Regroup(name: Text, colon: Text, value: Text, comma: Text, more: Text, close: Text)
    ensures (name + colon + value) + close == name + (colon + (value + close))
    ensures (name + colon + value) + comma + more + close == name + (colon + (value + (comma + (more + close))))
  {
  }

  lemma LastMemberPart(fields: seq<Field>, key: Text, close: Text)
    requires key in Keys(fields)
    ensures PrintMembers(fields, [key]) + close ==
      PrintString(key) + ([COLON] + (Print(fields[IndexOf(fields, key)].value) + close))
  {
    Regroup(PrintString(key), [COLON], Print(fields[IndexOf(fields, key)].value), [], [], close);
  }

  lemma FirstMemberPart(fields: seq<Field>, keys: seq<Text>, close: Text)
    requires |keys| > 1 && forall k :: k in keys ==> k in Keys(fields)
    ensures keys[0] in Keys(fields)
    ensures PrintMembers(fields, keys) + close
         == PrintString(keys[0]) + ([COLON] + (Print(fields[IndexOf(fields,
             keys[0])].value) + ([COMMA] + (PrintMembers(fields, keys[1..]) + close))))
  {
    assert keys[0] in keys;
    var value := Print(fields[IndexOf(fields, keys[0])].value);
    Regroup(PrintString(keys[0]), [COLON], value, [COMMA], PrintMembers(fields, keys[1..]), close);
  }

  lemma MeaningsSplit(fields: seq<Field>, keys: seq<Text>)
    requires keys != [] && forall k :: k in keys ==> k in Keys(fields)
    ensures keys[0] in Keys(fields)
    ensures MeaningsOf(fields, keys) == map[keys[0] := MeaningOf(fields, keys[0])] + MeaningsOf(fields, keys[1..])
  {
    assert keys[0] in keys;
  }

  lemma {:induction false} MembersRead(fields: seq<Field>, keys: seq<Text>, rest: Text)
    requires keys != [] && forall k :: k in keys ==> k in Keys(fields)
    requires forall f :: f in fields ==> WellFormed(f.value)
    ensures ReadMembers(PrintMembers(fields, keys) + ([CLOSE_OBJECT] + rest)) == Some((MeaningsOf(fields, keys), rest))
    decreases fields, |keys|
  {
    var key := keys[0];
    assert key in Keys(fields);
    var v := fields[IndexOf(fields, key)].value;
    var close := [CLOSE_OBJECT] + rest;
    MeaningsSplit(fields, keys);
    if |keys| == 1 {
      assert keys == [key];
      assert MeaningsOf(fields, keys) == map[key := Meaning(v)];
      LastMemberPart(fields, key, close);
      PrintReads(v, close);
      LastMemberReads(key, Print(v) + close, Meaning(v), rest);
    } else {
      FirstMemberPart(fields, keys, close);
      var more := PrintMembers(fields, keys[1..]) + close;
      PrintReads(v, [COMMA] + more);
      MembersRead(fields, keys[1..], rest);
      NextMemberReads(key, Print(v) + ([COMMA] + more), Meaning(v), more, MeaningsOf(fields, keys[1..]), rest);
    }
  }
}
