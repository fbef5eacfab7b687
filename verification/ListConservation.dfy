/** No line of a posted list is lost, posted twice, or worth something else. */
module ListConservation {
  import opened Prelude
  import opened ListEntry
  import opened ListMessage
  import opened ListPosting

  /** The jobs among the skipped, with or without the note that more was paid than owed. */
  function SkippedJobs(skipped: seq<Skip>): seq<Job> {
    if skipped == [] then []
    else
      var last := skipped[|skipped| - 1];
      SkippedJobs(skipped[..|skipped| - 1]) + if last.Unread? then [] else [last.job]
  }

  lemma SkippedPlusOne(skipped: seq<Skip>, one: Skip)
    ensures SkippedJobs(skipped + [one]) == SkippedJobs(skipped) + if one.Unread? then [] else [one.job]
  {
    assert (skipped + [one])[..|skipped|] == skipped;
  }

  lemma {:induction false} UnreadsAreNoJobs(lines: seq<string>)
    ensures SkippedJobs(Unreads(lines)) == []
  {
    if lines != [] {
      UnreadsAreNoJobs(lines[..|lines| - 1]);
      assert Unreads(lines)[..|lines| - 1] == Unreads(lines[..|lines| - 1]);
    }
  }

  function Handled(p: Progress): multiset<Job> { multiset(p.posted) + multiset(SkippedJobs(p.skipped)) }

  lemma HandledByPosting(p: Progress, job: Job)
    ensures Handled(p.(posted := p.posted + [job])) == Handled(p) + multiset{job}
  {
  }

  lemma HandledBySkipping(p: Progress, one: Skip)
    requires !one.Unread?
    ensures Handled(p.(skipped := p.skipped + [one])) == Handled(p) + multiset{one.job}
  {
    SkippedPlusOne(p.skipped, one);
  }

  lemma HandledOnce(p: Progress, job: Job, w: World, outcome: Outcome)
    requires !Tried(p, job, w, outcome).broken
    ensures Handled(Tried(p, job, w, outcome)) == Handled(p) + multiset{job}
  {
    if p.stoppedBy.Some? || outcome.QuotaStop? {
      HandledBySkipping(p, NotPosted(job));
    } else if outcome.Applied? {
      HandledByPosting(p, job);
    } else {
      HandledBySkipping(p, OwesLess(job));
    }
  }

  lemma OneMoreJob(jobs: seq<Job>, n: nat)
    requires 0 < n <= |jobs|
    ensures multiset(jobs[..n]) == multiset(jobs[..n - 1]) + multiset{jobs[n - 1]}
  {
    assert jobs[..n] == jobs[..n - 1] + [jobs[n - 1]];
  }

  /** Unless something breaks, each job tried so far is posted or skipped, each exactly as often as it occurs. */
  lemma {:induction false} EachJobOnce(unreadable: seq<string>, jobs: seq<Job>, w: World, n: nat)
    requires n <= |jobs| && !After(unreadable, jobs, w, n).broken
    ensures Handled(After(unreadable, jobs, w, n)) == multiset(jobs[..n])
  {
    if n == 0 {
      UnreadsAreNoJobs(unreadable);
    } else {
      EachJobOnce(unreadable, jobs, w, n - 1);
      HandledOnce(After(unreadable, jobs, w, n - 1), jobs[n - 1], w, w.answers(n - 1));
      OneMoreJob(jobs, n);
    }
  }

  function NotPostedAll(jobs: seq<Job>): (r: seq<Skip>)
    ensures |r| == |jobs| && forall i :: 0 <= i < |r| ==> r[i] == NotPosted(jobs[i])
  {
    seq(|jobs|, i requires 0 <= i < |jobs| => NotPosted(jobs[i]))
  }

  /**
   * The first quota stop ends the posting: nothing is posted or recorded from that job on, each job from it on is named
   * among the skipped, in order, and the merchant is told the quota's own message. The first unexpected error leaves
   * everything as it was.
   */
  lemma {:induction false} NothingAfterAStop(unreadable: seq<string>, jobs: seq<Job>, w: World, i: nat, n: nat)
    requires i < n <= |jobs| && (w.answers(i).QuotaStop? || w.answers(i).Broken?)
    requires After(unreadable, jobs, w, i).stoppedBy == None && !After(unreadable, jobs, w, i).broken
    ensures
      var p, q := After(unreadable, jobs, w, i), After(unreadable, jobs, w, n);
      q == if w.answers(i).Broken? then p.(broken := true)
           else p.(skipped := p.skipped + NotPostedAll(jobs[i..n]), stoppedBy := Some(w.answers(i).message))
    decreases n
  {
    if i + 1 < n {
      NothingAfterAStop(unreadable, jobs, w, i, n - 1);
      assert NotPostedAll(jobs[i..n]) == NotPostedAll(jobs[i..n - 1]) + [NotPosted(jobs[n - 1])];
    } else {
      assert NotPostedAll(jobs[i..n]) == [NotPosted(jobs[i])];
    }
  }

  /** The first `n` jobs that were accepted, in order. */
  function AcceptedOf(jobs: seq<Job>, w: World, n: nat): seq<Job>
    requires n <= |jobs|
  {
    if n == 0 then [] else AcceptedOf(jobs, w, n - 1) + if w.answers(n - 1) == Applied then [jobs[n - 1]] else []
  }

  function TooMuchOf(jobs: seq<Job>, w: World, n: nat): seq<Skip>
    requires n <= |jobs|
  {
    if n == 0 then []
    else TooMuchOf(jobs, w, n - 1) + if w.answers(n - 1) == Overpaid then [OwesLess(jobs[n - 1])] else []
  }

  /**
   * As long as nothing stops it, the posting takes exactly the jobs that are accepted, in order, names exactly those
   * refused as more than is owed, and goes on.
   */
  lemma {:induction false} PostedUntilAStop(unreadable: seq<string>, jobs: seq<Job>, w: World, n: nat)
    requires n <= |jobs| && forall i :: 0 <= i < n ==> w.answers(i) in {Applied, Overpaid}
    ensures
      var p := After(unreadable, jobs, w, n);
      && p.posted == AcceptedOf(jobs, w, n) && p.skipped == Unreads(unreadable) + TooMuchOf(jobs, w, n)
      && p.stoppedBy == None && !p.broken
  {
    if n > 0 {
      PostedUntilAStop(unreadable, jobs, w, n - 1);
      assert w.answers(n - 1) in {Applied, Overpaid};
    }
  }

  // ---------------------------------------------------------------- every entry in one job

  function EntriesIn(jobs: seq<Job>): seq<Entry> {
    if jobs == [] then [] else (if jobs[0].SaleOf? then jobs[0].items else [jobs[0].entry]) + EntriesIn(jobs[1..])
  }

  lemma FirstJobFirst(jobs: seq<Job>)
    requires jobs != []
    ensures EntriesIn(jobs) == EntriesIn([jobs[0]]) + EntriesIn(jobs[1..])
  {
    assert [jobs[0]][1..] == [];
  }

  lemma {:induction false} EntriesInAdd(a: seq<Job>, b: seq<Job>)
    ensures EntriesIn(a + b) == EntriesIn(a) + EntriesIn(b)
  {
    if a == [] {
      assert a + b == b;
    } else {
      EntriesInAdd(a[1..], b);
      assert (a + b)[1..] == a[1..] + b && (a + b)[0] == a[0];
      var first := EntriesIn([a[0]]);
      FirstJobFirst(a);
      FirstJobFirst(a + b);
      assert first + (EntriesIn(a[1..]) + EntriesIn(b)) == (first + EntriesIn(a[1..])) + EntriesIn(b);
    }
  }

  lemma {:induction false} EntriesInLines(entries: seq<Entry>)
    ensures EntriesIn(Lines(entries)) == entries
  {
    if entries != [] {
      EntriesInLines(entries[1..]);
      assert Lines(entries)[1..] == Lines(entries[1..]);
    }
  }

  function Picked(entries: seq<Entry>, section: Section): multiset<Entry> { multiset(InSection(entries, section)) }

  lemma PickedFirst(entries: seq<Entry>, section: Section)
    requires entries != []
    ensures Picked(entries, section) ==
      Picked(entries[1..], section) + if entries[0].section == section then multiset{entries[0]} else multiset{}
  {
    if entries[0].section == section {
      assert InSection(entries, section) == [entries[0]] + InSection(entries[1..], section);
    } else {
      assert InSection(entries, section) == InSection(entries[1..], section);
    }
  }

  lemma OneMoreOfFour(
      a: multiset<Entry>, b: multiset<Entry>, c: multiset<Entry>, d: multiset<Entry>, x: multiset<Entry>)
    ensures a + x + b + c + d == a + b + c + d + x
    ensures a + (b + x) + c + d == a + b + c + d + x
    ensures a + b + (c + x) + d == a + b + c + d + x
    ensures a + b + c + (d + x) == a + b + c + d + x
  {
  }

  function AllPicked(entries: seq<Entry>): multiset<Entry> {
    Picked(entries, Sale) + Picked(entries, Debt) + Picked(entries, Payment) + Picked(entries, Expense)
  }

  lemma FirstIsPicked(entries: seq<Entry>)
    requires entries != []
    ensures AllPicked(entries) == AllPicked(entries[1..]) + multiset{entries[0]}
  {
    PickedFirst(entries, Sale);
    PickedFirst(entries, Debt);
    PickedFirst(entries, Payment);
    PickedFirst(entries, Expense);
    OneMoreOfFour(Picked(entries[1..], Sale), Picked(entries[1..], Debt), Picked(entries[1..], Payment),
      Picked(entries[1..], Expense), multiset{entries[0]});
  }

  lemma FirstOfAll(entries: seq<Entry>)
    requires entries != []
    ensures multiset(entries) == multiset(entries[1..]) + multiset{entries[0]}
  {
    assert entries == [entries[0]] + entries[1..];
  }

  lemma {:induction false} SectionsCoverTheEntries(entries: seq<Entry>)
    ensures AllPicked(entries) == multiset(entries)
  {
    if entries != [] {
      SectionsCoverTheEntries(entries[1..]);
      FirstIsPicked(entries);
      FirstOfAll(entries);
    }
  }

  /** Every entry of a list is in exactly one job, as often as it occurs. */
  lemma JobsHoldTheEntries(entries: seq<Entry>)
    ensures multiset(EntriesIn(Jobs(entries))) == multiset(entries)
  {
    var sale, debts := SaleJobs(entries), InSection(entries, Debt);
    var payments, expenses := InSection(entries, Payment), InSection(entries, Expense);
    EntriesInAdd(sale + Lines(debts) + Lines(payments), Lines(expenses));
    EntriesInAdd(sale + Lines(debts), Lines(payments));
    EntriesInAdd(sale, Lines(debts));
    EntriesInLines(debts);
    EntriesInLines(payments);
    EntriesInLines(expenses);
    SectionsCoverTheEntries(entries);
    assert EntriesIn(sale) == InSection(entries, Sale) by {
      if sale != [] { assert sale[1..] == []; }
    }
  }

  function Rank(job: Job): nat {
    match job
    case SaleOf(_, _) => 0
    case Line(e) => match e.section case Sale => 0 case Debt => 1 case Payment => 2 case Expense => 3
  }

  lemma LinesOfOneSection(entries: seq<Entry>, section: Section)
    ensures forall job :: job in Lines(InSection(entries, section)) ==> job.Line? && job.entry.section == section
  {
    InSectionPicks(entries, section);
    forall job | job in Lines(InSection(entries, section)) ensures job.Line? && job.entry.section == section {
      var i :| 0 <= i < |InSection(entries, section)| && Lines(InSection(entries, section))[i] == job;
      assert InSection(entries, section)[i] in InSection(entries, section);
    }
  }

  lemma RanksOfFour(a: seq<Job>, b: seq<Job>, c: seq<Job>, d: seq<Job>, i: nat, j: nat)
    requires forall x :: x in a ==> Rank(x) == 0
    requires forall x :: x in b ==> Rank(x) == 1
    requires forall x :: x in c ==> Rank(x) == 2
    requires forall x :: x in d ==> Rank(x) == 3
    requires i < j < |a + b + c + d|
    ensures Rank((a + b + c + d)[i]) <= Rank((a + b + c + d)[j])
  {
    var all := a + b + c + d;
    assert forall k :: 0 <= k < |a| ==> all[k] == a[k];
    assert forall k :: 0 <= k < |b| ==> all[|a| + k] == b[k];
    assert forall k :: 0 <= k < |c| ==> all[|a| + |b| + k] == c[k];
    assert forall k :: 0 <= k < |d| ==> all[|a| + |b| + |c| + k] == d[k];
  }

  /** The sale comes first, then the debts, then the payments, then the expenses. */
  lemma SectionsAreInOrder(entries: seq<Entry>, i: nat, j: nat)
    requires i < j < |Jobs(entries)|
    ensures Rank(Jobs(entries)[i]) <= Rank(Jobs(entries)[j])
  {
    LinesOfOneSection(entries, Debt);
    LinesOfOneSection(entries, Payment);
    LinesOfOneSection(entries, Expense);
    RanksOfFour(SaleJobs(entries), Lines(InSection(entries, Debt)), Lines(InSection(entries, Payment)),
      Lines(InSection(entries, Expense)), i, j);
  }

  // ---------------------------------------------------------------- what the jobs are worth

  function WorthOf(job: Job): int { if job.SaleOf? then job.total else job.entry.amount }

  function Worth(jobs: seq<Job>): int {
    if jobs == [] then 0 else Worth(jobs[..|jobs| - 1]) + WorthOf(jobs[|jobs| - 1])
  }

  lemma WorthPlusOne(jobs: seq<Job>, one: Job)
    ensures Worth(jobs + [one]) == Worth(jobs) + WorthOf(one)
  {
    assert (jobs + [one])[..|jobs|] == jobs;
  }

  lemma {:induction false} WorthAdds(a: seq<Job>, b: seq<Job>)
    ensures Worth(a + b) == Worth(a) + Worth(b)
  {
    if b == [] {
      assert a + b == a;
    } else {
      var front := b[..|b| - 1];
      WorthAdds(a, front);
      WorthPlusOne(a + front, b[|b| - 1]);
      assert a + b == (a + front) + [b[|b| - 1]];
    }
  }

  function WorthHandled(p: Progress): int { Worth(p.posted) + Worth(SkippedJobs(p.skipped)) }

  lemma WorthByPosting(p: Progress, job: Job)
    ensures WorthHandled(p.(posted := p.posted + [job])) == WorthHandled(p) + WorthOf(job)
  {
    WorthPlusOne(p.posted, job);
  }

  lemma WorthBySkipping(p: Progress, one: Skip)
    requires !one.Unread?
    ensures WorthHandled(p.(skipped := p.skipped + [one])) == WorthHandled(p) + WorthOf(one.job)
  {
    SkippedPlusOne(p.skipped, one);
    WorthPlusOne(SkippedJobs(p.skipped), one.job);
  }

  lemma WorthOnce(p: Progress, job: Job, w: World, outcome: Outcome)
    requires !Tried(p, job, w, outcome).broken
    ensures WorthHandled(Tried(p, job, w, outcome)) == WorthHandled(p) + WorthOf(job)
  {
    if p.stoppedBy.Some? || outcome.QuotaStop? {
      WorthBySkipping(p, NotPosted(job));
    } else if outcome.Applied? {
      WorthByPosting(p, job);
    } else {
      WorthBySkipping(p, OwesLess(job));
    }
  }

  lemma {:induction false} WorthKept(unreadable: seq<string>, jobs: seq<Job>, w: World, n: nat)
    requires n <= |jobs| && !After(unreadable, jobs, w, n).broken
    ensures WorthHandled(After(unreadable, jobs, w, n)) == Worth(jobs[..n])
  {
    if n == 0 {
      UnreadsAreNoJobs(unreadable);
    } else {
      WorthKept(unreadable, jobs, w, n - 1);
      WorthOnce(After(unreadable, jobs, w, n - 1), jobs[n - 1], w, w.answers(n - 1));
      assert jobs[..n] == jobs[..n - 1] + [jobs[n - 1]];
      WorthPlusOne(jobs[..n - 1], jobs[n - 1]);
    }
  }

  lemma {:induction false} WorthOfLines(entries: seq<Entry>)
    ensures Worth(Lines(entries)) == Sum(entries)
  {
    if entries == [] {
      assert Lines(entries) == [];
    } else {
      WorthOfLines(entries[1..]);
      assert Lines(entries) == [Line(entries[0])] + Lines(entries[1..]);
      WorthAdds([Line(entries[0])], Lines(entries[1..]));
      assert Worth([Line(entries[0])]) == entries[0].amount by {
        WorthPlusOne([], Line(entries[0]));
        assert [] + [Line(entries[0])] == [Line(entries[0])];
      }
    }
  }

  lemma SumOfFirst(entries: seq<Entry>, section: Section)
    requires entries != []
    ensures Sum(InSection(entries, section)) ==
      (if entries[0].section == section then entries[0].amount else 0) + Sum(InSection(entries[1..], section))
  {
    if entries[0].section == section {
      assert InSection(entries, section)[1..] == InSection(entries[1..], section);
    } else {
      assert InSection(entries, section) == InSection(entries[1..], section);
    }
  }

  lemma {:induction false} SectionsCoverTheSum(entries: seq<Entry>)
    ensures
      Sum(InSection(entries, Sale)) + Sum(InSection(entries, Debt)) + Sum(InSection(entries, Payment))
        + Sum(InSection(entries, Expense))
      == Sum(entries)
  {
    if entries != [] {
      SectionsCoverTheSum(entries[1..]);
      SumOfFirst(entries, Sale);
      SumOfFirst(entries, Debt);
      SumOfFirst(entries, Payment);
      SumOfFirst(entries, Expense);
    }
  }

  lemma WorthOfFour(a: seq<Job>, b: seq<Job>, c: seq<Job>, d: seq<Job>)
    ensures Worth(a + b + c + d) == Worth(a) + Worth(b) + Worth(c) + Worth(d)
  {
    WorthAdds(a + b + c, d);
    WorthAdds(a + b, c);
    WorthAdds(a, b);
  }

  lemma WorthOfTheSale(entries: seq<Entry>)
    ensures Worth(SaleJobs(entries)) == Sum(InSection(entries, Sale))
  {
    var sales := InSection(entries, Sale);
    if sales != [] {
      assert [] + [SaleOf(sales, Sum(sales))] == [SaleOf(sales, Sum(sales))];
      WorthPlusOne([], SaleOf(sales, Sum(sales)));
    }
  }

  lemma JobsAreWorthTheList(entries: seq<Entry>)
    ensures Worth(Jobs(entries)) == Sum(entries)
  {
    WorthOfFour(SaleJobs(entries), Lines(InSection(entries, Debt)), Lines(InSection(entries, Payment)),
      Lines(InSection(entries, Expense)));
    WorthOfTheSale(entries);
    WorthOfLines(InSection(entries, Debt));
    WorthOfLines(InSection(entries, Payment));
    WorthOfLines(InSection(entries, Expense));
    SectionsCoverTheSum(entries);
  }

  /** What is posted and what is skipped are together worth exactly what the list says. */
  lemma MoneyIsConserved(list: ParsedList, w: World)
    requires !After(list.unreadable, Jobs(list.entries), w, |Jobs(list.entries)|).broken
    ensures
      var p := After(list.unreadable, Jobs(list.entries), w, |Jobs(list.entries)|);
      Worth(p.posted) + Worth(SkippedJobs(p.skipped)) == Sum(list.entries)
  {
    var jobs := Jobs(list.entries);
    WorthKept(list.unreadable, jobs, w, |jobs|);
    assert jobs[..|jobs|] == jobs;
    JobsAreWorthTheList(list.entries);
  }

  // ---------------------------------------------------------------- the one sale

  function ItemsWorth(items: seq<Entry>): int {
    if items == [] then 0 else items[0].quantity * items[0].unitPrice + ItemsWorth(items[1..])
  }

  lemma {:induction false} SoundItemsAddUp(items: seq<Entry>)
    requires forall e :: e in items ==> IsSound(e)
    ensures Sum(items) == ItemsWorth(items)
  {
    if items != [] {
      assert IsSound(items[0]);
      SoundItemsAddUp(items[1..]);
    }
  }

  /** There is at most one sale; over the sound entries of a list that was read, it is worth the sum of its items. */
  lemma TheSaleAddsUp(entries: seq<Entry>, k: nat)
    requires forall e :: e in entries ==> IsSound(e)
    requires k < |Jobs(entries)| && Jobs(entries)[k].SaleOf?
    ensures
      var job := Jobs(entries)[k];
      k == 0 && job.total == ItemsWorth(job.items) && forall e :: e in job.items <==> e in entries && e.section == Sale
  {
    InSectionPicks(entries, Sale);
    SoundItemsAddUp(InSection(entries, Sale));
    OnlyTheFirstIsASale(entries, k);
  }

  lemma OnlyTheFirstIsASale(entries: seq<Entry>, k: nat)
    requires k < |Jobs(entries)| && Jobs(entries)[k].SaleOf?
    ensures k == 0 && SaleJobs(entries) != [] && Jobs(entries)[k] == SaleJobs(entries)[0]
  {
    var others := Lines(InSection(entries, Debt)) + Lines(InSection(entries, Payment))
      + Lines(InSection(entries, Expense));
    assert Jobs(entries) == SaleJobs(entries) + others;
    assert forall i :: 0 <= i < |others| ==> others[i].Line?;
  }

  // ---------------------------------------------------------------- is the summary true?

  /** Job `i` is given to the ledger. */
  predicate IsTaken(unreadable: seq<string>, jobs: seq<Job>, w: World, i: nat)
    requires i < |jobs|
  {
    var p := After(unreadable, jobs, w, i);
    !p.broken && p.stoppedBy.None? && w.answers(i).Applied?
  }

  lemma {:induction false} RecordedAtMost(unreadable: seq<string>, jobs: seq<Job>, w: World, n: nat)
    requires n <= |jobs|
    ensures |After(unreadable, jobs, w, n).recorded| <= |After(unreadable, jobs, w, n).posted|
  {
    if n > 0 { RecordedAtMost(unreadable, jobs, w, n - 1); }
  }

  /** Job `i`, if the ledger gets it, is no payment of more than is owed by then. */
  predicate IsFine(unreadable: seq<string>, jobs: seq<Job>, w: World, i: nat)
    requires i < |jobs|
  {
    var job, book := jobs[i], After(unreadable, jobs, w, i).book;
    IsTaken(unreadable, jobs, w, i) && job.Line? && job.entry.section == Payment ==>
      var c := w.customer(job.entry.name); job.entry.amount <= if c in book then book[c] else 0
  }

  predicate AllFine(unreadable: seq<string>, jobs: seq<Job>, w: World, n: nat)
    requires n <= |jobs|
  {
    forall i :: 0 <= i < n ==> IsFine(unreadable, jobs, w, i)
  }

  /**
   * What the summary names was all recorded exactly when no payment line given to the ledger was for more than its
   * customer owed by then, the list's own debts included: such a payment is answered in words the handler never reads.
   */
  lemma {:induction false} SummaryIsTrueExactlyWhen(unreadable: seq<string>, jobs: seq<Job>, w: World, n: nat)
    requires n <= |jobs|
    ensures
      var p := After(unreadable, jobs, w, n);
      p.recorded == p.posted <==> AllFine(unreadable, jobs, w, n)
  {
    if n > 0 {
      SummaryIsTrueExactlyWhen(unreadable, jobs, w, n - 1);
      RecordedAtMost(unreadable, jobs, w, n - 1);
      OneMoreTaken(unreadable, jobs, w, n);
    }
  }

  lemma {:induction false} OneMoreTaken(unreadable: seq<string>, jobs: seq<Job>, w: World, n: nat)
    requires 0 < n <= |jobs|
    requires |After(unreadable, jobs, w, n - 1).recorded| <= |After(unreadable, jobs, w, n - 1).posted|
    ensures
      var p, q := After(unreadable, jobs, w, n - 1), After(unreadable, jobs, w, n);
      q.recorded == q.posted <==>
        p.recorded == p.posted && IsFine(unreadable, jobs, w, n - 1)
  {
    var p, q := After(unreadable, jobs, w, n - 1), After(unreadable, jobs, w, n);
    var job := jobs[n - 1];
    if IsTaken(unreadable, jobs, w, n - 1) && IsCovered(p.book, w, job) && q.recorded == q.posted {
      assert q.recorded[..|q.recorded| - 1] == p.recorded && q.posted[..|q.posted| - 1] == p.posted;
    }
  }

  /** What one recorded job does to a customer's debt. */
  function DebtOf(job: Job, w: World, c: Customer): int {
    if !job.Line? || w.customer(job.entry.name) != c then 0
    else if job.entry.section == Debt then job.entry.amount
    else if job.entry.section == Payment then -job.entry.amount
    else 0
  }

  function NetDebt(recorded: seq<Job>, w: World, c: Customer): int {
    if recorded == [] then 0
    else NetDebt(recorded[..|recorded| - 1], w, c) + DebtOf(recorded[|recorded| - 1], w, c)
  }

  lemma NetPlusOne(recorded: seq<Job>, one: Job, w: World, c: Customer)
    ensures NetDebt(recorded + [one], w, c) == NetDebt(recorded, w, c) + DebtOf(one, w, c)
  {
    assert (recorded + [one])[..|recorded|] == recorded;
  }

  lemma TakenAddsUp(p: Progress, job: Job, w: World, c: Customer)
    requires job.Line? ==> job.entry.amount >= 0
    requires Owed(p.book, c) >= 0
    ensures
      var q := Took(p, job, w);
      && Owed(q.book, c) - Owed(p.book, c) == NetDebt(q.recorded, w, c) - NetDebt(p.recorded, w, c)
      && Owed(q.book, c) >= 0
  {
    NetPlusOne(p.recorded, job, w, c);
  }

  /**
   * Everyone owes what they owed before, and the debts recorded, less the payments recorded; and nobody ever owes less
   * than nothing.
   */
  lemma {:induction false} DebtsAddUp(unreadable: seq<string>, jobs: seq<Job>, w: World, n: nat, c: Customer)
    requires n <= |jobs| && Owed(w.owed, c) >= 0
    requires forall i :: 0 <= i < |jobs| && jobs[i].Line? ==> jobs[i].entry.amount >= 0
    ensures
      var p := After(unreadable, jobs, w, n);
      Owed(p.book, c) == Owed(w.owed, c) + NetDebt(p.recorded, w, c) && Owed(p.book, c) >= 0
  {
    if n > 0 {
      DebtsAddUp(unreadable, jobs, w, n - 1, c);
      TakenAddsUp(After(unreadable, jobs, w, n - 1), jobs[n - 1], w, c);
    }
  }

  /** A payment by someone who owes nothing is named as saved, and nothing was recorded. */
  lemma UnowedPaymentIsNamed(entry: Entry, w: World)
    requires entry.section == Payment && entry.amount > 0 && w.owed == map[] && w.answers(0).Applied?
    ensures
      var p := After([], [Line(entry)], w, 1);
      p.posted == [Line(entry)] && p.recorded == [] && p.book == map[]
  {
    assert After([], [Line(entry)], w, 0) == Progress([], [], None, false, w.owed, []);
  }
}
