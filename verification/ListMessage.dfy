/** A whole list message (src/ai/listEntry.ts): its lines sorted into headings, entries and the rest. */
module ListMessage {
  import opened Prelude
  import opened Text
  import opened Money
  import opened ListEntry

  const MAX_LIST_ENTRIES := 40

  datatype ParsedList = ParsedList(entries: seq<Entry>, unreadable: seq<string>, headingDate: Option<string>)

  /** The two line readers the loop goes by. */
  datatype Readers = Readers(heading: string -> Option<Heading>, entry: (string, Section) -> Option<Entry>)

  function ReadersFor(currency: Currency): Readers {
    Readers(line => ReadHeading(line), (line, section) => ReadEntry(line, section, currency))
  }

  function WithoutReturn(s: string): string { if s != "" && s[|s| - 1] == '\r' then s[..|s| - 1] else s }

  function SplitLines(text: string): seq<string>
    decreases |text|
  {
    var i := IndexOf(text, '\n');
    if i == |text| then [text] else [WithoutReturn(text[..i])] + SplitLines(text[i + 1..])
  }

  function Trimmed(lines: seq<string>): seq<string> {
    if lines == [] then [] else (if Trim(lines[0]) == "" then [] else [Trim(lines[0])]) + Trimmed(lines[1..])
  }

  /** The lines of a message that hold anything. */
  function LinesOf(text: string): seq<string> { Trimmed(SplitLines(text)) }

  /** The section of the nearest heading above line `k`; sales when there is none. */
  function SectionAbove(lines: seq<string>, k: nat, r: Readers): Section
    requires k <= |lines|
  {
    if k == 0 then Sale
    else if r.heading(lines[k - 1]).Some? then r.heading(lines[k - 1]).value.section
    else SectionAbove(lines, k - 1, r)
  }

  datatype Kind = Headline(heading: Heading) | Item(entry: Entry) | Unreadable

  function KindAt(lines: seq<string>, k: nat, r: Readers): Kind
    requires k < |lines|
  {
    var heading := r.heading(lines[k]);
    var entry := r.entry(lines[k], SectionAbove(lines, k, r));
    if heading.Some? then Headline(heading.value) else if entry.Some? then Item(entry.value) else Unreadable
  }

  function EntriesAbove(lines: seq<string>, k: nat, r: Readers): seq<Entry>
    requires k <= |lines|
  {
    if k == 0 then []
    else EntriesAbove(lines, k - 1, r) + match KindAt(lines, k - 1, r) case Item(e) => [e] case _ => []
  }

  function UnreadableAbove(lines: seq<string>, k: nat, r: Readers): seq<string>
    requires k <= |lines|
  {
    if k == 0 then []
    else UnreadableAbove(lines, k - 1, r) + if KindAt(lines, k - 1, r).Unreadable? then [lines[k - 1]] else []
  }

  function DateAbove(lines: seq<string>, k: nat, r: Readers): Option<string>
    requires k <= |lines|
  {
    if k == 0 then None
    else if DateAbove(lines, k - 1, r).Some? then DateAbove(lines, k - 1, r)
    else match r.heading(lines[k - 1]) case Some(h) => h.date case None => None
  }

  predicate IsSlashed(line: string) { line != "" && line[0] == '/' }

  function ReadLines(lines: seq<string>, r: Readers): Option<ParsedList> {
    if |lines| < 3 || (exists k :: 0 <= k < |lines| && IsSlashed(lines[k])) then None
    else
      var entries := EntriesAbove(lines, |lines|, r);
      if |entries| < 2 || |entries| > MAX_LIST_ENTRIES then None
      else Some(ParsedList(entries, UnreadableAbove(lines, |lines|, r), DateAbove(lines, |lines|, r)))
  }

  function ReadList(text: string, currency: Currency): Option<ParsedList> {
    ReadLines(LinesOf(text), ReadersFor(currency))
  }

  /** The loop of the source: a current section, and two lists that grow. */
  method ParseLines(lines: seq<string>, r: Readers) returns (list: Option<ParsedList>)
    ensures list == ReadLines(lines, r)
  {
    if |lines| < 3 { return None; }
    var i := 0;
    while i < |lines|
      invariant 0 <= i <= |lines|
      invariant forall k :: 0 <= k < i ==> !IsSlashed(lines[k])
    {
      if IsSlashed(lines[i]) { return None; }
      i := i + 1;
    }
    var section, headingDate: Option<string> := Sale, None;
    var entries: seq<Entry>, unreadable: seq<string> := [], [];
    i := 0;
    while i < |lines|
      invariant 0 <= i <= |lines|
      invariant section == SectionAbove(lines, i, r) && headingDate == DateAbove(lines, i, r)
      invariant entries == EntriesAbove(lines, i, r) && unreadable == UnreadableAbove(lines, i, r)
    {
      var line := lines[i];
      var heading := r.heading(line);
      var entry := r.entry(line, section);
      i := i + 1;
      if heading.Some? {
        section := heading.value.section;
        if headingDate.None? { headingDate := heading.value.date; }
      } else if entry.Some? {
        entries := entries + [entry.value];
      } else {
        unreadable := unreadable + [line];
      }
    }
    if |entries| < 2 || |entries| > MAX_LIST_ENTRIES { return None; }
    return Some(ParsedList(entries, unreadable, headingDate));
  }

  method ParseListMessage(text: string, currency: Currency) returns (list: Option<ParsedList>)
    ensures list == ReadList(text, currency)
  {
    list := ParseLines(LinesOf(text), ReadersFor(currency));
  }

  // ---------------------------------------------------------------- nothing lost, nothing twice, in order

  lemma {:induction false} AboveOnlyGrows(lines: seq<string>, i: nat, k: nat, r: Readers)
    requires i <= k <= |lines|
    ensures EntriesAbove(lines, i, r) <= EntriesAbove(lines, k, r)
    ensures UnreadableAbove(lines, i, r) <= UnreadableAbove(lines, k, r)
    decreases k
  {
    if i < k { AboveOnlyGrows(lines, i, k - 1, r); }
  }

  function HeadingsAbove(lines: seq<string>, k: nat, r: Readers): nat
    requires k <= |lines|
  {
    if k == 0 then 0
    else HeadingsAbove(lines, k - 1, r) + if KindAt(lines, k - 1, r).Headline? then 1 else 0
  }

  lemma {:induction false} EveryLineCounted(lines: seq<string>, k: nat, r: Readers)
    requires k <= |lines|
    ensures HeadingsAbove(lines, k, r) + |EntriesAbove(lines, k, r)| + |UnreadableAbove(lines, k, r)| == k
  {
    if k > 0 { EveryLineCounted(lines, k - 1, r); }
  }

  /**
   * Headings, entries and unreadable lines partition the lines of a list, in order: together they are as many as the
   * lines, and line `k`, unless it is a heading, sits in its list right behind what the lines above it put there.
   */
  lemma LinesArePartitioned(lines: seq<string>, r: Readers, k: nat)
    requires ReadLines(lines, r).Some? && k < |lines|
    ensures
      var list := ReadLines(lines, r).value;
      && HeadingsAbove(lines, |lines|, r) + |list.entries| + |list.unreadable| == |lines|
      && (match KindAt(lines, k, r)
          case Headline(h) => r.heading(lines[k]) == Some(h)
          case Item(e) =>
            var at := |EntriesAbove(lines, k, r)|;
            && r.heading(lines[k]) == None && r.entry(lines[k], SectionAbove(lines, k, r)) == Some(e)
            && at < |list.entries| && list.entries[at] == e
          case Unreadable =>
            var at := |UnreadableAbove(lines, k, r)|;
            && r.heading(lines[k]) == None && r.entry(lines[k], SectionAbove(lines, k, r)) == None
            && at < |list.unreadable| && list.unreadable[at] == lines[k])
  {
    EveryLineCounted(lines, |lines|, r);
    AboveOnlyGrows(lines, k + 1, |lines|, r);
  }

  function ItemsAmong(lines: seq<string>, k: nat, r: Readers): set<nat>
    requires k <= |lines|
  {
    set i | 0 <= i < k && KindAt(lines, i, r).Item?
  }

  lemma {:induction false} EntriesAreItems(lines: seq<string>, k: nat, r: Readers)
    requires k <= |lines|
    ensures |EntriesAbove(lines, k, r)| == |ItemsAmong(lines, k, r)|
  {
    if k == 0 {
      assert ItemsAmong(lines, k, r) == {};
    } else {
      EntriesAreItems(lines, k - 1, r);
      assert ItemsAmong(lines, k, r) ==
        ItemsAmong(lines, k - 1, r) + if KindAt(lines, k - 1, r).Item? then {k - 1} else {};
    }
  }

  /** A message is a list exactly with three lines or more, two to forty of them entries, and no command among them. */
  lemma IsAListExactlyWhen(lines: seq<string>, r: Readers)
    ensures ReadLines(lines, r).Some? <==>
      && |lines| >= 3 && (forall k :: 0 <= k < |lines| ==> lines[k] == "" || lines[k][0] != '/')
      && 2 <= |ItemsAmong(lines, |lines|, r)| <= 40
  {
    EntriesAreItems(lines, |lines|, r);
    assert forall k :: 0 <= k < |lines| ==> (IsSlashed(lines[k]) <==> lines[k] != "" && lines[k][0] == '/');
  }

  predicate IsDated(lines: seq<string>, k: nat, r: Readers)
    requires k < |lines|
  {
    r.heading(lines[k]).Some? && r.heading(lines[k]).value.date.Some?
  }

  lemma {:induction false} FirstDateAbove(lines: seq<string>, k: nat, r: Readers)
    requires k <= |lines|
    ensures DateAbove(lines, k, r) == None <==> forall j :: 0 <= j < k ==> !IsDated(lines, j, r)
    ensures DateAbove(lines, k, r).Some? ==>
      exists i :: 0 <= i < k && IsDated(lines, i, r) && (forall j :: 0 <= j < i ==> !IsDated(lines, j, r))
                  && r.heading(lines[i]).value.date == DateAbove(lines, k, r)
  {
    if k > 0 {
      FirstDateAbove(lines, k - 1, r);
      if DateAbove(lines, k - 1, r) == None && IsDated(lines, k - 1, r) {
        assert r.heading(lines[k - 1]).value.date == DateAbove(lines, k, r);
      } else {
        assert DateAbove(lines, k, r) == DateAbove(lines, k - 1, r);
      }
    }
  }

  /** The date of a list is that of its first dated heading, and none if no heading has one. */
  lemma DateIsTheFirst(lines: seq<string>, r: Readers)
    requires ReadLines(lines, r).Some?
    ensures
      var date := ReadLines(lines, r).value.headingDate;
      if exists i :: 0 <= i < |lines| && IsDated(lines, i, r) then
        exists i :: 0 <= i < |lines| && IsDated(lines, i, r) && (forall j :: 0 <= j < i ==> !IsDated(lines, j, r))
                    && date == r.heading(lines[i]).value.date
      else date == None
  {
    FirstDateAbove(lines, |lines|, r);
  }

  /** The section above a line is that of the last heading before it, and sales when no heading comes before. */
  lemma {:induction false} NearestHeadingRules(lines: seq<string>, k: nat, r: Readers)
    requires k <= |lines|
    ensures
      || (SectionAbove(lines, k, r) == Sale && forall j :: 0 <= j < k ==> r.heading(lines[j]).None?)
      || (exists i :: 0 <= i < k && r.heading(lines[i]).Some?
                      && SectionAbove(lines, k, r) == r.heading(lines[i]).value.section
                      && forall j :: i < j < k ==> r.heading(lines[j]).None?)
  {
    if k > 0 && r.heading(lines[k - 1]).None? {
      NearestHeadingRules(lines, k - 1, r);
    }
  }

  // ---------------------------------------------------------------- what every entry is worth

  predicate IsSound(e: Entry) {
    && e.amount > 0 && e.quantity > 0 && e.quantity * e.unitPrice == e.amount
    && HasLetter(e.name)
    && (e.section != Sale ==> e.quantity == 1 && e.unitPrice == e.amount)
  }

  lemma EntryIsSound(line: string, section: Section, currency: Currency)
    ensures ReadEntry(line, section, currency).Some? ==>
      IsSound(ReadEntry(line, section, currency).value) && ReadEntry(line, section, currency).value.section == section
  {
    var entry := ReadEntry(line, section, currency);
    if entry.Some? {
      EvenSplit(entry.value.amount, entry.value.quantity);
    }
  }

  lemma {:induction false} EntriesAboveAreSound(lines: seq<string>, k: nat, r: Readers)
    requires k <= |lines|
    requires forall line, section :: r.entry(line, section).Some? ==> IsSound(r.entry(line, section).value)
    ensures forall e :: e in EntriesAbove(lines, k, r) ==> IsSound(e)
  {
    if k > 0 { EntriesAboveAreSound(lines, k - 1, r); }
  }

  /** In every list read, quantity times unit price is exactly the positive amount of the line. */
  lemma EveryEntryIsSound(text: string, currency: Currency)
    ensures ReadList(text, currency).Some? ==>
      2 <= |ReadList(text, currency).value.entries| <= MAX_LIST_ENTRIES &&
      forall e :: e in ReadList(text, currency).value.entries ==> IsSound(e)
  {
    forall line, section ensures
      var e := ReadersFor(currency).entry(line, section);
      e.Some? ==> IsSound(e.value)
    {
      EntryIsSound(line, section, currency);
    }
    EntriesAboveAreSound(LinesOf(text), |LinesOf(text)|, ReadersFor(currency));
  }
}
