/**
 * The words of a courier booking, "via manual name Gokada ref GK-1 rider Tunde 0803 111 2222"
 * (src/commands/storeCommands.ts).
 */
module DispatchWords {
  import opened Prelude
  import opened Text

  datatype Key = Via | Name | Ref | Url | Rider

  datatype Booking = Booking(
    via: Option<string>, name: Option<string>, ref: Option<string>, url: Option<string>,
    riderName: Option<string>, riderPhone: Option<string>)

  function Keyword(k: Key): string {
    match k
    case Via => "via"
    case Name => "name"
    case Ref => "ref"
    case Url => "url"
    case Rider => "rider"
  }

  function KeyOf(word: string): Option<Key> {
    var w := Lower(word);
    if w == Keyword(Via) then Some(Via)
    else if w == Keyword(Name) then Some(Name)
    else if w == Keyword(Ref) then Some(Ref)
    else if w == Keyword(Url) then Some(Url)
    else if w == Keyword(Rider) then Some(Rider)
    else None
  }

  /** One more word behind those a key has already. */
  function Longer(value: string, word: string): string { (if value == "" then "" else value + " ") + word }

  /** The texts the keys have collected once the words are read. */
  function Collected(words: seq<string>, found: map<Key, string>, key: Option<Key>): map<Key, string>
    requires key.Some? ==> key.value in found
  {
    if words == [] then found
    else
      match KeyOf(words[0])
      case Some(k) => Collected(words[1..], found[k := ""], Some(k))
      case None =>
        if key.None? then Collected(words[1..], found, key)
        else Collected(words[1..], found[key.value := Longer(found[key.value], words[0])], key)
  }

  function FirstWord(value: string): string { value[..FirstWordLength(value)] }

  predicate IsNumberLike(word: string) {
    var body := if word != "" && word[0] == '+' then word[1..] else word;
    body != "" && forall i :: 0 <= i < |body| ==> IsDigit(body[i]) || body[i] == '-'
  }

  function DigitCount(s: string): nat { if s == "" then 0 else (if IsDigit(s[0]) then 1 else 0) + DigitCount(s[1..]) }

  function DigitsIn(words: seq<string>): nat { if words == [] then 0 else DigitCount(words[0]) + DigitsIn(words[1..]) }

  /** Where the trailing run of number-like words begins. */
  function PhoneStart(parts: seq<string>, i: nat): (r: nat)
    requires i <= |parts|
    ensures r <= i && (forall j :: r <= j < i ==> IsNumberLike(parts[j])) && (r > 0 ==> !IsNumberLike(parts[r - 1]))
  {
    if i > 0 && IsNumberLike(parts[i - 1]) then PhoneStart(parts, i - 1) else i
  }

  datatype RiderParts = RiderParts(name: Option<string>, phone: Option<string>)

  function NonEmpty(s: string): Option<string> { if s == "" then None else Some(s) }

  function ReadRider(value: string): RiderParts { SplitRider(Words(value), value) }

  /** The trailing run of number-like words is the phone when it has 8 to 15 digits; otherwise all is the name. */
  function SplitRider(parts: seq<string>, value: string): RiderParts {
    var i := PhoneStart(parts, |parts|);
    if i < |parts| && 8 <= DigitsIn(parts[i..]) <= 15 then
      RiderParts(NonEmpty(Join(parts[..i])), Some(Join(parts[i..])))
    else RiderParts(Some(value), None)
  }

  function Given(found: map<Key, string>, k: Key): Option<string> { if k in found then NonEmpty(found[k]) else None }

  function FirstOf(value: Option<string>): Option<string> {
    match value
    case None => None
    case Some(v) => Some(FirstWord(v))
  }

  function BookingOf(found: map<Key, string>): Booking {
    var rider := match Given(found, Rider) case None => RiderParts(None, None) case Some(v) => ReadRider(v);
    Booking(FirstOf(Given(found, Via)), Given(found, Name), Given(found, Ref), FirstOf(Given(found, Url)), rider.name,
      rider.phone)
  }

  /** Nothing when the text does not begin with a keyword: it is then a plain delivery reference. */
  function ReadBooking(words: seq<string>): Option<Booking> {
    if words == [] || KeyOf(words[0]).None? then None else Some(BookingOf(Collected(words, map[], None)))
  }

  /** The loops of the source: one fills the record under a current key, the other scans back over the rider's words. */
  method ParseDispatchWords(words: seq<string>) returns (booking: Option<Booking>)
    ensures booking == ReadBooking(words)
  {
    if words == [] || KeyOf(words[0]).None? { return None; }
    var found: map<Key, string>, key: Option<Key> := map[], None;
    var n := 0;
    while n < |words|
      invariant 0 <= n <= |words| && (key.Some? ==> key.value in found)
      invariant Collected(words[n..], found, key) == Collected(words, map[], None)
    {
      var w := words[n];
      assert words[n..][0] == w && words[n..][1..] == words[n + 1..];
      if KeyOf(w).Some? {
        key := KeyOf(w);
        found := found[key.value := ""];
      } else if key.Some? {
        found := found[key.value := (if found[key.value] == "" then "" else found[key.value] + " ") + w];
      }
      n := n + 1;
    }
    assert words[n..] == [];
    var rider := RiderParts(None, None);
    if Given(found, Rider).Some? {
      rider := ParseRider(Given(found, Rider).value);
    }
    return Some(Booking(FirstOf(Given(found, Via)), Given(found, Name), Given(found, Ref), FirstOf(Given(found, Url)),
      rider.name, rider.phone));
  }

  method ParseRider(value: string) returns (rider: RiderParts)
    ensures rider == ReadRider(value)
  {
    var parts := Words(value);
    var i := |parts|;
    while i > 0 && IsNumberLike(parts[i - 1])
      invariant 0 <= i <= |parts| && PhoneStart(parts, i) == PhoneStart(parts, |parts|)
    {
      i := i - 1;
    }
    var digits := DigitsIn(parts[i..]);
    if i < |parts| && 8 <= digits && digits <= 15 {
      var name := Join(parts[..i]);
      return RiderParts(if name == "" then None else Some(name), Some(Join(parts[i..])));
    }
    return RiderParts(Some(value), None);
  }

  // ---------------------------------------------------------------- printing and reading back

  predicate IsPlain(word: string) { IsWord(word) && KeyOf(word).None? }

  /** Words for each field to print, none of them a keyword. */
  predicate IsPrintable(values: map<Key, seq<string>>) {
    forall k :: k in values ==> values[k] != [] && forall i :: 0 <= i < |values[k]| ==> IsPlain(values[k][i])
  }

  /** The fields as keyword words, in the order given. */
  function Printed(values: map<Key, seq<string>>, order: seq<Key>): seq<string>
    requires forall k :: k in order ==> k in values
  {
    if order == [] then [] else [Keyword(order[0])] + values[order[0]] + Printed(values, order[1..])
  }

  /** The five keywords, in any case; every other word is a plain one. */
  lemma KeywordsAre(word: string)
    ensures KeyOf(word) ==
      if Lower(word) == "via" then Some(Via) else if Lower(word) == "name" then Some(Name)
      else if Lower(word) == "ref" then Some(Ref) else if Lower(word) == "url" then Some(Url)
      else if Lower(word) == "rider" then Some(Rider) else None
  {
  }

  lemma KeywordsRead(k: Key)
    ensures KeyOf(Keyword(k)) == Some(k)
  {
    assert Lower(Keyword(k)) == Keyword(k);
  }

  lemma {:induction false} JoinOneMore(ws: seq<string>, w: string)
    requires ws != []
    ensures Join(ws + [w]) == Join(ws) + " " + w
  {
    if |ws| == 1 {
      assert (ws + [w])[1..] == [w];
    } else {
      JoinOneMore(ws[1..], w);
      assert (ws + [w])[1..] == ws[1..] + [w];
      assert ws[0] + " " + (Join(ws[1..]) + " " + w) == ws[0] + " " + Join(ws[1..]) + " " + w;
    }
  }

  lemma JoinIsSomething(ws: seq<string>)
    requires ws != [] && forall i :: 0 <= i < |ws| ==> IsPlain(ws[i])
    ensures Join(ws) != ""
  {
    assert IsPlain(ws[0]);
  }

  /** Plain words after a keyword all go to its text, joined by single spaces. */
  lemma {:induction false} WordsCollect(
      done: seq<string>, ws: seq<string>, rest: seq<string>, found: map<Key, string>, k: Key)
    requires (forall i :: 0 <= i < |ws| ==> IsPlain(ws[i])) && (forall i :: 0 <= i < |done| ==> IsPlain(done[i]))
    requires k in found && found[k] == Join(done)
    ensures Collected(ws + rest, found, Some(k)) == Collected(rest, found[k := Join(done + ws)], Some(k))
    decreases |ws|
  {
    if ws == [] {
      assert ws + rest == rest && done + ws == done;
      assert found[k := Join(done)] == found;
    } else {
      var w := ws[0];
      assert IsPlain(w) && (ws + rest)[1..] == ws[1..] + rest;
      LongerJoins(done, w);
      var next := found[k := Join(done + [w])];
      WordsCollect(done + [w], ws[1..], rest, next, k);
      assert done + [w] + ws[1..] == done + ws;
      assert next[k := Join(done + ws)] == found[k := Join(done + ws)];
    }
  }

  lemma LongerJoins(done: seq<string>, w: string)
    requires forall i :: 0 <= i < |done| ==> IsPlain(done[i])
    ensures Longer(Join(done), w) == Join(done + [w])
  {
    if done == [] {
      assert done + [w] == [w];
    } else {
      JoinIsSomething(done);
      JoinOneMore(done, w);
    }
  }

  function Joined(values: map<Key, seq<string>>, order: seq<Key>, found: map<Key, string>): map<Key, string>
    requires forall k :: k in order ==> k in values
  {
    if order == [] then found else Joined(values, order[1..], found[order[0] := Join(values[order[0]])])
  }

  lemma {:induction false} PrintedCollects(
      values: map<Key, seq<string>>, order: seq<Key>, found: map<Key, string>, key: Option<Key>)
    requires IsPrintable(values) && (forall k :: k in order ==> k in values) && (key.Some? ==> key.value in found)
    ensures Collected(Printed(values, order), found, key) == Joined(values, order, found)
    decreases |order|
  {
    if order != [] {
      var k := order[0];
      var rest := Printed(values, order[1..]);
      var words := Printed(values, order);
      assert words[0] == Keyword(k) && words[1..] == values[k] + rest;
      KeywordsRead(k);
      WordsCollect([], values[k], rest, found[k := ""], k);
      assert [] + values[k] == values[k];
      assert found[k := ""][k := Join(values[k])] == found[k := Join(values[k])];
      PrintedCollects(values, order[1..], found[k := Join(values[k])], Some(k));
    }
  }

  lemma {:induction false} JoinedHolds(values: map<Key, seq<string>>, order: seq<Key>, found: map<Key, string>)
    requires forall k :: k in order ==> k in values
    ensures forall k :: k in Joined(values, order, found) <==> k in order || k in found
    ensures forall k :: k in order ==> Joined(values, order, found)[k] == Join(values[k])
    ensures forall k :: k in found && k !in order ==> Joined(values, order, found)[k] == found[k]
    decreases |order|
  {
    if order != [] {
      JoinedHolds(values, order[1..], found[order[0] := Join(values[order[0]])]);
    }
  }

  function TextOf(values: map<Key, seq<string>>, k: Key): Option<string> {
    if k in values then Some(Join(values[k])) else None
  }

  /** A courier and a link are one word each: whatever follows it is dropped. */
  function FirstOfWords(values: map<Key, seq<string>>, k: Key): Option<string>
    requires IsPrintable(values)
  {
    if k in values then Some(values[k][0]) else None
  }

  lemma FirstOfJoin(ws: seq<string>)
    requires ws != [] && IsWord(ws[0])
    ensures FirstWord(Join(ws)) == ws[0]
  {
    var rest := if |ws| == 1 then "" else " " + Join(ws[1..]);
    assert Join(ws) == ws[0] + rest;
    FirstWordOf(ws[0], rest);
  }

  /**
   * Courier, name, reference and link, printed as keyword words in any order, each once, read back as they were, the
   * courier and the link by their first word; so do the rider's words, which are then split by `ReadRider`.
   */
  lemma BookingReadsBack(values: map<Key, seq<string>>, order: seq<Key>)
    requires IsPrintable(values) && order != [] && forall k :: k in order <==> k in values
    ensures
      var rider := if Rider in values then ReadRider(Join(values[Rider])) else RiderParts(None, None);
      ReadBooking(Printed(values, order)) ==
      Some(Booking(FirstOfWords(values, Via), TextOf(values, Name), TextOf(values, Ref), FirstOfWords(values, Url),
        rider.name, rider.phone))
  {
    var words := Printed(values, order);
    KeywordsRead(order[0]);
    assert words[0] == Keyword(order[0]);
    PrintedCollects(values, order, map[], None);
    JoinedHolds(values, order, map[]);
    forall k | k in values ensures Join(values[k]) != "" && FirstWord(Join(values[k])) == values[k][0] {
      JoinIsSomething(values[k]);
      assert IsPlain(values[k][0]);
      FirstOfJoin(values[k]);
    }
    var found := Joined(values, order, map[]);
    forall k ensures Given(found, k) == TextOf(values, k) {
      assert k in found <==> k in order;
    }
  }

  // ---------------------------------------------------------------- the rider's name and phone

  lemma {:induction false} JoinGrows(a: seq<string>, b: seq<string>)
    requires a != [] && b != [] && forall i :: 0 <= i < |a| ==> IsWord(a[i])
    ensures |Join(a + b)| > |Join(b)|
    decreases |a|
  {
    if |a| == 1 {
      assert (a + b)[1..] == b;
    } else {
      JoinGrows(a[1..], b);
      assert (a + b)[1..] == a[1..] + b;
    }
  }

  lemma {:induction false} PhoneStartsAfter(parts: seq<string>, n: nat, i: nat)
    requires n <= i <= |parts| && forall j :: n <= j < i ==> IsNumberLike(parts[j])
    ensures PhoneStart(parts, i) == PhoneStart(parts, n)
  {
    if i > n { PhoneStartsAfter(parts, n, i - 1); }
  }

  /**
   * A rider written as a name and a phone of 8 to 15 digits is read as that name and that phone exactly when the
   * name's last word does not itself look like a number.
   */
  lemma RiderReadsBackExactlyWhen(name: seq<string>, phone: seq<string>)
    requires name != [] && phone != [] && (forall w :: w in name + phone ==> IsWord(w))
    requires (forall i :: 0 <= i < |phone| ==> IsNumberLike(phone[i])) && 8 <= DigitsIn(phone) <= 15
    ensures ReadRider(Join(name + phone)) == RiderParts(Some(Join(name)), Some(Join(phone))) <==>
      !IsNumberLike(name[|name| - 1])
  {
    WordsOfJoin(name + phone);
    JoinStartsWithWord(name);
    SplitPoint(name, phone);
    SplitReads(name, phone, Join(name + phone));
  }

  lemma SplitPoint(name: seq<string>, phone: seq<string>)
    requires name != [] && forall i :: 0 <= i < |phone| ==> IsNumberLike(phone[i])
    ensures
      var i := PhoneStart(name + phone, |name + phone|);
      i <= |name| && (i == |name| <==> !IsNumberLike(name[|name| - 1]))
  {
    var parts, n := name + phone, |name|;
    assert forall j :: n <= j < |parts| ==> parts[j] == phone[j - n];
    PhoneStartsAfter(parts, n, |parts|);
    assert parts[n - 1] == name[n - 1];
  }

  lemma SplitReads(name: seq<string>, phone: seq<string>, value: string)
    requires name != [] && phone != [] && (forall w :: w in name ==> IsWord(w)) && 8 <= DigitsIn(phone) <= 15
      && Join(name) != ""
    requires PhoneStart(name + phone, |name + phone|) <= |name|
    ensures SplitRider(name + phone, value) == RiderParts(Some(Join(name)), Some(Join(phone))) <==>
      PhoneStart(name + phone, |name + phone|) == |name|
  {
    var i := PhoneStart(name + phone, |name + phone|);
    if i == |name| {
      assert (name + phone)[i..] == phone && (name + phone)[..i] == name;
    } else {
      LongerPhone(name, phone, i);
    }
  }

  lemma LongerPhone(name: seq<string>, phone: seq<string>, i: nat)
    requires i < |name| && phone != [] && forall w :: w in name ==> IsWord(w)
    ensures Join((name + phone)[i..]) != Join(phone)
  {
    var front := name[i..];
    assert (name + phone)[i..] == front + phone;
    forall j | 0 <= j < |front| ensures IsWord(front[j]) { assert front[j] in name; }
    JoinGrows(front, phone);
  }

  /** A rider's name alone, its last word no number, is all name; a phone alone is all phone. */
  lemma NameOrPhoneAlone(words: seq<string>)
    requires words != [] && forall w :: w in words ==> IsWord(w)
    ensures !IsNumberLike(words[|words| - 1]) ==> ReadRider(Join(words)) == RiderParts(Some(Join(words)), None)
    ensures (forall i :: 0 <= i < |words| ==> IsNumberLike(words[i])) && 8 <= DigitsIn(words) <= 15 ==>
      ReadRider(Join(words)) == RiderParts(None, Some(Join(words)))
  {
    WordsOfJoin(words);
    JoinStartsWithWord(words);
    if forall i :: 0 <= i < |words| ==> IsNumberLike(words[i]) {
      PhoneStartsAfter(words, 0, |words|);
      assert words[0..] == words && words[..0] == [];
    }
  }

  // ---------------------------------------------------------------- the whole booking

  /** A rider to print: a name, a phone of 8 to 15 digits, or both. */
  predicate IsRider(name: seq<string>, phone: seq<string>) {
    && name + phone != []
    && (phone != [] ==> (forall i :: 0 <= i < |phone| ==> IsNumberLike(phone[i])) && 8 <= DigitsIn(phone) <= 15)
  }

  /** The name does not end in a word that would be taken for the phone, or for part of it. */
  predicate NameStopsBefore(name: seq<string>, phone: seq<string>) {
    name != [] && IsNumberLike(name[|name| - 1]) ==>
      phone == [] && !(8 <= DigitsIn(name[PhoneStart(name, |name|)..]) <= 15)
  }

  function TextOfAll(ws: seq<string>): Option<string> { if ws == [] then None else Some(Join(ws)) }

  lemma NameAlone(words: seq<string>)
    requires words != [] && forall w :: w in words ==> IsWord(w)
    ensures ReadRider(Join(words)) == RiderParts(Some(Join(words)), None) <==> NameStopsBefore(words, [])
  {
    WordsOfJoin(words);
    JoinStartsWithWord(words);
  }

  lemma RiderReadsBack(name: seq<string>, phone: seq<string>)
    requires IsRider(name, phone) && forall w :: w in name + phone ==> IsWord(w)
    ensures ReadRider(Join(name + phone)) == RiderParts(TextOfAll(name), TextOfAll(phone)) <==>
      NameStopsBefore(name, phone)
  {
    if phone == [] {
      assert name + phone == name;
      NameAlone(name);
    } else if name == [] {
      assert name + phone == phone;
      NameOrPhoneAlone(phone);
    } else {
      RiderReadsBackExactlyWhen(name, phone);
    }
  }

  /**
   * Courier, name, reference, link, and a rider with a name, a phone or both, printed as keyword words in any order,
   * are read back field by field as they were exactly when the rider's name does not end in a word that would be taken
   * for the phone.
   */
  lemma WholeBookingReadsBackExactlyWhen(
      values: map<Key, seq<string>>, order: seq<Key>, name: seq<string>, phone: seq<string>)
    requires IsPrintable(values) && order != [] && forall k :: k in order <==> k in values
    requires Rider in values && values[Rider] == name + phone && IsRider(name, phone)
    ensures
      ReadBooking(Printed(values, order)) ==
      Some(Booking(FirstOfWords(values, Via), TextOf(values, Name), TextOf(values, Ref), FirstOfWords(values, Url),
                   TextOfAll(name), TextOfAll(phone)))
      <==> NameStopsBefore(name, phone)
  {
    BookingReadsBack(values, order);
    forall w | w in name + phone ensures IsWord(w) {
      var i :| 0 <= i < |values[Rider]| && values[Rider][i] == w;
      assert IsPlain(values[Rider][i]);
    }
    RiderReadsBack(name, phone);
  }
}
