/** The canonical print that refund approvals are hashed over (src/admin/refundRequests.ts). */
module CanonicalJson {
  import opened Prelude

  /** A UTF-16 code unit: what the source's strings are made of and what its key sort compares. */
  type Unit = n: int | 0 <= n < 0x10000

  type Text = seq<Unit>

  /** JSON values as the program holds them: an object's fields in insertion order. */
  datatype Json =
    | Null
    | Bool(b: bool)
    | Number(n: int)
    | String(s: Text)
    | Array(items: seq<Json>)
    | Object(fields: seq<Field>)

  datatype Field = Field(key: Text, value: Json)

  /** JSON values up to the order of an object's keys. */
  datatype Value =
    | VNull
    | VBool(b: bool)
    | VNumber(n: int)
    | VString(s: Text)
    | VArray(items: seq<Value>)
    | VObject(members: map<Text, Value>)

  // ---------------------------------------------------------------- objects

  /** Where the field named `key` is. */
  function IndexOf(fields: seq<Field>, key: Text): (i: nat)
    requires exists f :: f in fields && f.key == key
    ensures i < |fields| && fields[i].key == key
  {
    if fields[0].key == key then 0 else
      assert forall f :: f in fields && f != fields[0] ==> f in fields[1..];
      1 + IndexOf(fields[1..], key)
  }

  function Keys(fields: seq<Field>): (ks: seq<Text>)
    ensures |ks| == |fields| && forall i :: 0 <= i < |ks| ==> ks[i] == fields[i].key
  {
    seq(|fields|, i requires 0 <= i < |fields| => fields[i].key)
  }

  predicate Distinct<T(==)>(ks: seq<T>) {
    forall i, j :: 0 <= i < j < |ks| ==> ks[i] != ks[j]
  }

  /** No object, at any depth, has two fields of one name. */
  predicate WellFormed(v: Json) {
    match v
    case Array(items) => forall x :: x in items ==> WellFormed(x)
    case Object(fields) => Distinct(Keys(fields)) && forall f :: f in fields ==> WellFormed(f.value)
    case _ => true
  }

  /** What a value means: objects become maps. */
  function Meaning(v: Json): Value {
    match v
    case Null => VNull
    case Bool(b) => VBool(b)
    case Number(n) => VNumber(n)
    case String(s) => VString(s)
    case Array(items) => VArray(seq(|items|, i requires 0 <= i < |items| => Meaning(items[i])))
    case Object(fields) => VObject(map k | k in Keys(fields) :: k := Meaning(fields[IndexOf(fields, k)].value))
  }

  // ---------------------------------------------------------------- key order

  /** Comparison by code units, as the default array sort does it. */
  predicate Below(a: Text, b: Text) {
    if a == [] then b != []
    else b != [] && (a[0] < b[0] || (a[0] == b[0] && Below(a[1..], b[1..])))
  }

  function Insert(k: Text, sorted: seq<Text>): (r: seq<Text>)
    ensures multiset(r) == multiset(sorted) + multiset{k}
  {
    if sorted == [] || !Below(sorted[0], k) then
      [k] + sorted
    else
      assert sorted == [sorted[0]] + sorted[1..];
      [sorted[0]] + Insert(k, sorted[1..])
  }

  function Sort(ks: seq<Text>): (r: seq<Text>)
    ensures multiset(r) == multiset(ks)
  {
    if ks == [] then [] else
      assert ks == [ks[0]] + ks[1..];
      Insert(ks[0], Sort(ks[1..]))
  }

  // ---------------------------------------------------------------- printing

  const QUOTE: Unit := 0x22
  const BACKSLASH: Unit := 0x5C
  const COMMA: Unit := 0x2C
  const COLON: Unit := 0x3A
  const MINUS: Unit := 0x2D
  const ZERO: Unit := 0x30
  const LETTER_U: Unit := 0x75
  const OPEN_ARRAY: Unit := 0x5B
  const CLOSE_ARRAY: Unit := 0x5D
  const OPEN_OBJECT: Unit := 0x7B
  const CLOSE_OBJECT: Unit := 0x7D
  const NULL_WORD: Text := [0x6E, 0x75, 0x6C, 0x6C]
  const TRUE_WORD: Text := [0x74, 0x72, 0x75, 0x65]
  const FALSE_WORD: Text := [0x66, 0x61, 0x6C, 0x73, 0x65]

  predicate IsDigit(u: Unit) { ZERO <= u <= ZERO + 9 }

  function Digits(n: nat): (ds: Text)
    ensures ds != [] && forall i :: 0 <= i < |ds| ==> IsDigit(ds[i])
    ensures |ds| > 1 ==> ds[0] != ZERO
    ensures n == 0 <==> ds == [ZERO]
  {
    if n < 10 then [ZERO + n] else Digits(n / 10) + [ZERO + n % 10]
  }

  function PrintNumber(n: int): Text {
    if n < 0 then [MINUS] + Digits(-n) else Digits(n)
  }

  predicate IsLead(u: Unit) { 0xD800 <= u < 0xDC00 }

  predicate IsTrail(u: Unit) { 0xDC00 <= u < 0xE000 }

  function HexDigit(d: int): Unit
    requires 0 <= d < 16
  {
    if d < 10 then ZERO + d else 0x61 + d - 10
  }

  function UnicodeEscape(u: Unit): Text {
    [BACKSLASH, LETTER_U, HexDigit(u / 0x1000), HexDigit(u / 0x100 % 16), HexDigit(u / 0x10 % 16), HexDigit(u % 16)]
  }

  /** The single-letter escapes of section 7 of RFC 8259 that the printer uses. */
  function ShortEscape(u: Unit): Option<Unit> {
    if u == QUOTE || u == BACKSLASH then Some(u)
    else if u == 8 then Some(0x62)
    else if u == 12 then Some(0x66)
    else if u == 10 then Some(0x6E)
    else if u == 13 then Some(0x72)
    else if u == 9 then Some(0x74)
    else None
  }

  predicate StartsWithPair(s: Text) { |s| > 1 && IsLead(s[0]) && IsTrail(s[1]) }

  /** How many code units of a non-empty string its first printed piece stands for. */
  function Taken(s: Text): (n: nat)
    requires s != []
    ensures 1 <= n <= |s|
  {
    if StartsWithPair(s) then 2 else 1
  }

  /** The first printed piece: a surrogate pair stays, a lone surrogate or control character is escaped. */
  function Piece(s: Text): Text
    requires s != []
  {
    if StartsWithPair(s) then s[..2]
    else if ShortEscape(s[0]).Some? then [BACKSLASH, ShortEscape(s[0]).value]
    else if s[0] < 0x20 || IsLead(s[0]) || IsTrail(s[0]) then UnicodeEscape(s[0])
    else [s[0]]
  }

  function PrintChars(s: Text): Text {
    if s == [] then [] else Piece(s) + PrintChars(s[Taken(s)..])
  }

  function PrintString(s: Text): Text {
    [QUOTE] + PrintChars(s) + [QUOTE]
  }

  /** Keys sorted at every level. */
  function Print(v: Json): Text
    decreases v, 0
  {
    match v
    case Null => NULL_WORD
    case Bool(b) => if b then TRUE_WORD else FALSE_WORD
    case Number(n) => PrintNumber(n)
    case String(s) => PrintString(s)
    case Array(items) => [OPEN_ARRAY] + PrintItems(items) + [CLOSE_ARRAY]
    case Object(fields) =>
      SortKeepsKeys(fields);
      [OPEN_OBJECT] + PrintMembers(fields, Sort(Keys(fields))) + [CLOSE_OBJECT]
  }

  function PrintItems(items: seq<Json>): Text
    decreases items, |items|
  {
    if items == [] then []
    else if |items| == 1 then Print(items[0])
    else Print(items[0]) + [COMMA] + PrintItems(items[1..])
  }

  function PrintMember(fields: seq<Field>, key: Text): Text
    requires key in Keys(fields)
    decreases fields, 0
  {
    PrintString(key) + [COLON] + Print(fields[IndexOf(fields, key)].value)
  }

  function PrintMembers(fields: seq<Field>, keys: seq<Text>): Text
    requires forall k :: k in keys ==> k in Keys(fields)
    decreases fields, |keys| + 1
  {
    if keys == [] then []
    else if |keys| == 1 then PrintMember(fields, keys[0])
    else PrintMember(fields, keys[0]) + [COMMA] + PrintMembers(fields, keys[1..])
  }

  lemma SortKeepsKeys(fields: seq<Field>)
    ensures forall k :: k in Sort(Keys(fields)) <==> k in Keys(fields)
  {
    forall k ensures k in Sort(Keys(fields)) <==> k in Keys(fields) {
      assert k in Sort(Keys(fields)) <==> k in multiset(Sort(Keys(fields)));
    }
  }
}
