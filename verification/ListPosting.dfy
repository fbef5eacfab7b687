/**
 * Posting a list message (src/messageDispatcher.ts): one sale for all sale lines, then each debt, payment and expense
 * line on its own. What the quota check and the ledger answer to each is the world's choice.
 */
module ListPosting {
  import opened Prelude
  import opened ListEntry
  import opened ListMessage

  /** One thing to post: the sale of a list, or one of its other lines. */
  datatype Job = SaleOf(items: seq<Entry>, total: int) | Line(entry: Entry)

  /** What comes of trying a job: the quota, the ledger's own refusal, or any other error, which leaves the message. */
  datatype Outcome =
    | Applied // taken, and recorded unless it is a payment of more than the customer owes
    | QuotaStop(message: string)
    | Overpaid
    | Broken

  type Customer = nat

  /** What each job meets, who the names of a list stand for, and what everyone owes at first. */
  datatype World = World(answers: nat -> Outcome, customer: string -> Customer, owed: map<Customer, int>)

  datatype Skip = Unread(line: string) | NotPosted(job: Job) | OwesLess(job: Job)

  datatype SummaryLine = SaleSummary(count: nat, total: int) | GroupSummary(section: Section, saved: seq<Entry>)

  /** Beside what the handler keeps, the debts as they stand and the jobs the ledger really recorded. */
  datatype Progress = Progress(
    posted: seq<Job>, skipped: seq<Skip>, stoppedBy: Option<string>, broken: bool,
    book: map<Customer, int>, recorded: seq<Job>)

  function InSection(entries: seq<Entry>, section: Section): seq<Entry> {
    if entries == [] then []
    else (if entries[0].section == section then [entries[0]] else []) + InSection(entries[1..], section)
  }

  lemma {:induction false} InSectionPicks(entries: seq<Entry>, section: Section)
    ensures forall e :: e in InSection(entries, section) <==> e in entries && e.section == section
  {
    if entries != [] { InSectionPicks(entries[1..], section); }
  }

  function Sum(entries: seq<Entry>): int { if entries == [] then 0 else entries[0].amount + Sum(entries[1..]) }

  function Lines(entries: seq<Entry>): (jobs: seq<Job>)
    ensures |jobs| == |entries| && forall i :: 0 <= i < |jobs| ==> jobs[i] == Line(entries[i])
  {
    seq(|entries|, i requires 0 <= i < |entries| => Line(entries[i]))
  }

  lemma LinesPlusOne(entries: seq<Entry>, one: Entry)
    ensures Lines(entries + [one]) == Lines(entries) + [Line(one)]
  {
  }

  function SaleJobs(entries: seq<Entry>): seq<Job> {
    var sales := InSection(entries, Sale);
    if sales == [] then [] else [SaleOf(sales, Sum(sales))]
  }

  /** Everything to post, in the order it is tried. */
  function Jobs(entries: seq<Entry>): seq<Job> {
    SaleJobs(entries) + Lines(InSection(entries, Debt)) + Lines(InSection(entries, Payment))
      + Lines(InSection(entries, Expense))
  }

  function Owed(book: map<Customer, int>, c: Customer): int { if c in book then book[c] else 0 }

  predicate IsPayment(job: Job) { job.Line? && job.entry.section == Payment }

  /** A payment of more than the customer owes is answered in words, and nothing is recorded. */
  predicate IsCovered(book: map<Customer, int>, w: World, job: Job) {
    IsPayment(job) ==> job.entry.amount <= Owed(book, w.customer(job.entry.name))
  }

  /** The debts after a job the ledger records. */
  function Booked(book: map<Customer, int>, w: World, job: Job): map<Customer, int> {
    if !job.Line? || (job.entry.section != Debt && job.entry.section != Payment) then book
    else
      var c := w.customer(job.entry.name);
      book[c := Owed(book, c) + if job.entry.section == Debt then job.entry.amount else -job.entry.amount]
  }

  function Took(p: Progress, job: Job, w: World): Progress {
    var t := p.(posted := p.posted + [job]);
    if IsCovered(p.book, w, job) then t.(book := Booked(p.book, w, job), recorded := p.recorded + [job]) else t
  }

  function Tried(p: Progress, job: Job, w: World, outcome: Outcome): Progress {
    if p.broken then p
    else if p.stoppedBy.Some? then p.(skipped := p.skipped + [NotPosted(job)])
    else
      match outcome
      case Applied => Took(p, job, w)
      case QuotaStop(message) => p.(skipped := p.skipped + [NotPosted(job)], stoppedBy := Some(message))
      case Overpaid => p.(skipped := p.skipped + [OwesLess(job)])
      case Broken => p.(broken := true)
  }

  function Unreads(lines: seq<string>): (r: seq<Skip>)
    ensures |r| == |lines| && forall i :: 0 <= i < |r| ==> r[i] == Unread(lines[i])
  {
    seq(|lines|, i requires 0 <= i < |lines| => Unread(lines[i]))
  }

  /** Where the posting stands after the first `n` jobs. */
  function After(unreadable: seq<string>, jobs: seq<Job>, w: World, n: nat): Progress
    requires n <= |jobs|
  {
    if n == 0 then Progress([], Unreads(unreadable), None, false, w.owed, [])
    else Tried(After(unreadable, jobs, w, n - 1), jobs[n - 1], w, w.answers(n - 1))
  }

  // ---------------------------------------------------------------- the loops of the source

  class Poster {
    var posted: seq<Job>
    var skipped: seq<Skip>
    var stoppedBy: Option<string>
    var broken: bool
    var book: map<Customer, int>
    var recorded: seq<Job>
    var tried: nat

    ghost function Now(): Progress
      reads this
    {
      Progress(posted, skipped, stoppedBy, broken, book, recorded)
    }

    constructor (unreadable: seq<string>, owed: map<Customer, int>)
      ensures Now() == Progress([], Unreads(unreadable), None, false, owed, []) && tried == 0
    {
      posted, skipped, stoppedBy, broken, tried := [], Unreads(unreadable), None, false, 0;
      book, recorded := owed, [];
    }

    /** Checks the quota and posts one job; after a quota stop it only notes what was not posted. */
    method Apply(job: Job, w: World) returns (done: bool)
      requires !broken
      modifies this
      ensures Now() == Tried(old(Now()), job, w, w.answers(old(tried))) && tried == old(tried) + 1
      ensures done <==> posted == old(posted) + [job]
      ensures !done ==> posted == old(posted)
    {
      done := false;
      if stoppedBy.Some? {
        skipped := skipped + [NotPosted(job)];
      } else {
        match w.answers(tried)
        case Applied =>
          ApplyToLedger(job, w);
          posted := posted + [job];
          done := true;
        case QuotaStop(message) =>
          stoppedBy := Some(message);
          skipped := skipped + [NotPosted(job)];
        case Overpaid =>
          skipped := skipped + [OwesLess(job)];
        case Broken =>
          broken := true;
      }
      tried := tried + 1;
    }

    /** The ledger's part; a payment of more than is owed only gets a reply, which its caller takes for success. */
    method ApplyToLedger(job: Job, w: World)
      modifies this`book, this`recorded
      ensures if IsCovered(old(book), w, job)
              then book == Booked(old(book), w, job) && recorded == old(recorded) + [job]
              else book == old(book) && recorded == old(recorded)
    {
      if job.Line? && (job.entry.section == Debt || job.entry.section == Payment) {
        var c := w.customer(job.entry.name);
        var owed := Owed(book, c);
        if job.entry.section == Debt {
          book := book[c := owed + job.entry.amount];
        } else if job.entry.amount > owed {
          return;
        } else {
          book := book[c := owed - job.entry.amount];
        }
      }
      recorded := recorded + [job];
    }

    method ApplyNext(entry: Entry, w: World, ghost unreadable: seq<string>, ghost jobs: seq<Job>) returns (done: bool)
      requires !broken && tried < |jobs| && jobs[tried] == Line(entry) && Now() == After(unreadable, jobs, w, tried)
      modifies this
      ensures tried == old(tried) + 1 && Now() == After(unreadable, jobs, w, tried)
      ensures posted == if done then old(posted) + [Line(entry)] else old(posted)
    {
      done := Apply(Line(entry), w);
    }

    /** Posts the lines of one section, one by one, and returns those that were saved. */
    method ApplyGroup(entries: seq<Entry>, w: World, ghost unreadable: seq<string>, ghost jobs: seq<Job>)
      returns (saved: seq<Entry>)
      requires !broken && tried + |entries| <= |jobs| && Now() == After(unreadable, jobs, w, tried)
      requires jobs[tried..tried + |entries|] == Lines(entries)
      modifies this
      ensures posted == old(posted) + Lines(saved) && forall e :: e in saved ==> e in entries
      ensures tried <= |jobs| && Now() == After(unreadable, jobs, w, tried)
      ensures old(tried) <= tried && (broken || tried == old(tried) + |entries|)
    {
      saved := [];
      var i := 0;
      while i < |entries| && !broken
        invariant 0 <= i <= |entries| && tried == old(tried) + i
        invariant Now() == After(unreadable, jobs, w, tried)
        invariant posted == old(posted) + Lines(saved) && forall e :: e in saved ==> e in entries
      {
        assert jobs[tried] == Line(entries[i]) by {
          assert jobs[tried] == jobs[old(tried)..old(tried) + |entries|][i];
        }
        var done := ApplyNext(entries[i], w, unreadable, jobs);
        if done {
          LinesPlusOne(saved, entries[i]);
          saved := saved + [entries[i]];
        }
        i := i + 1;
      }
    }
  }

  predicate AllIn(entries: seq<Entry>, section: Section) { forall e :: e in entries ==> e.section == section }

  /** The summary a merchant is sent for what was posted. */
  function Summary(posted: seq<Job>, debts: seq<Entry>, payments: seq<Entry>, expenses: seq<Entry>): seq<SummaryLine> {
    (if posted != [] && posted[0].SaleOf? then [SaleSummary(|posted[0].items|, posted[0].total)] else []) +
    (GroupLine(Debt, debts) + GroupLine(Payment, payments) + GroupLine(Expense, expenses))
  }

  function GroupLine(section: Section, saved: seq<Entry>): seq<SummaryLine> {
    if saved == [] then [] else [GroupSummary(section, saved)]
  }

  /**
   * The whole handler for a message not posted before. Unless an unexpected error breaks it off, it has tried every
   * job, and the summary names exactly what was posted: one sale, and the saved lines of each section.
   */
  method HandleList(list: ParsedList, w: World)
    returns (poster: Poster, summary: seq<SummaryLine>, ghost saved: seq<seq<Entry>>)
    ensures fresh(poster) && poster.tried <= |Jobs(list.entries)|
    ensures poster.Now() == After(list.unreadable, Jobs(list.entries), w, poster.tried)
    ensures !poster.broken ==>
      && poster.tried == |Jobs(list.entries)| && |saved| == 3
      && AllIn(saved[0], Debt) && AllIn(saved[1], Payment) && AllIn(saved[2], Expense)
      && summary == Summary(poster.posted, saved[0], saved[1], saved[2])
      && exists sale :: (sale == [] || sale == SaleJobs(list.entries)) &&
           poster.posted == sale + Lines(saved[0]) + Lines(saved[1]) + Lines(saved[2])
  {
    ghost var jobs := Jobs(list.entries);
    poster := new Poster(list.unreadable, w.owed);
    summary, saved := [], [];
    ghost var sale: seq<Job>;
    summary, sale := PostSale(poster, list, w);
    if poster.broken { return; }
    var groups;
    GroupsFollow(list.entries);
    groups, saved := PostGroups(poster, list.entries, w, list.unreadable, jobs);
    summary := summary + groups;
    if !poster.broken {
      FirstIsTheSale(list.entries, sale, saved[0], saved[1], saved[2]);
    }
  }

  method PostSale(poster: Poster, list: ParsedList, w: World) returns (summary: seq<SummaryLine>, ghost sale: seq<Job>)
    requires poster.Now() == After(list.unreadable, Jobs(list.entries), w, 0) && poster.tried == 0
    modifies poster
    ensures poster.tried == |SaleJobs(list.entries)|
    ensures poster.Now() == After(list.unreadable, Jobs(list.entries), w, poster.tried)
    ensures sale == [] || sale == SaleJobs(list.entries)
    ensures poster.posted == sale
    ensures summary == if sale == [] then [] else [SaleSummary(|sale[0].items|, sale[0].total)]
  {
    summary, sale := [], [];
    var sales := InSection(list.entries, Sale);
    if sales != [] {
      assert Jobs(list.entries)[0] == SaleJobs(list.entries)[0];
      var done := poster.Apply(SaleOf(sales, Sum(sales)), w);
      if done {
        summary := [SaleSummary(|sales|, Sum(sales))];
        sale := SaleJobs(list.entries);
      }
    }
  }

  /** Where the lines of the three sections stand among the jobs, from a place on. */
  predicate StandFrom(jobs: seq<Job>, d: nat, debts: seq<Entry>, payments: seq<Entry>, expenses: seq<Entry>) {
    var p := d + |debts|;
    var e := p + |payments|;
    && |jobs| == e + |expenses|
    && jobs[d..p] == Lines(debts) && jobs[p..e] == Lines(payments) && jobs[e..e + |expenses|] == Lines(expenses)
  }

  /** The three sections after the sales, in their fixed order. */
  method PostGroups(poster: Poster, entries: seq<Entry>, w: World, ghost unreadable: seq<string>, ghost jobs: seq<Job>)
    returns (summary: seq<SummaryLine>, ghost saved: seq<seq<Entry>>)
    requires StandFrom(
      jobs, poster.tried, InSection(entries, Debt), InSection(entries, Payment), InSection(entries, Expense))
    requires !poster.broken && poster.Now() == After(unreadable, jobs, w, poster.tried)
    modifies poster
    ensures poster.tried <= |jobs| && poster.Now() == After(unreadable, jobs, w, poster.tried)
    ensures !poster.broken ==>
      && poster.tried == |jobs| && |saved| == 3
      && AllIn(saved[0], Debt) && AllIn(saved[1], Payment) && AllIn(saved[2], Expense)
      && summary == GroupLine(Debt, saved[0]) + GroupLine(Payment, saved[1]) + GroupLine(Expense, saved[2])
      && poster.posted == old(poster.posted) + Lines(saved[0]) + Lines(saved[1]) + Lines(saved[2])
  {
    summary, saved := [], [];
    var debts := poster.ApplyGroup(InSection(entries, Debt), w, unreadable, jobs);
    if poster.broken { return; }
    var payments := poster.ApplyGroup(InSection(entries, Payment), w, unreadable, jobs);
    if poster.broken { return; }
    var expenses := poster.ApplyGroup(InSection(entries, Expense), w, unreadable, jobs);
    saved := [debts, payments, expenses];
    InSectionPicks(entries, Debt);
    InSectionPicks(entries, Payment);
    InSectionPicks(entries, Expense);
    summary := GroupLine(Debt, debts) + GroupLine(Payment, payments) + GroupLine(Expense, expenses);
  }

  lemma GroupsFollow(entries: seq<Entry>)
    ensures StandFrom(Jobs(entries), |SaleJobs(entries)|,
      InSection(entries, Debt), InSection(entries, Payment), InSection(entries, Expense))
  {
    SlicesOfFour(SaleJobs(entries), Lines(InSection(entries, Debt)), Lines(InSection(entries, Payment)),
      Lines(InSection(entries, Expense)));
  }

  lemma SlicesOfFour(a: seq<Job>, b: seq<Job>, c: seq<Job>, d: seq<Job>)
    ensures
      var all := a + b + c + d;
      && all[|a|..|a| + |b|] == b && all[|a| + |b|..|a| + |b| + |c|] == c
      && all[|a| + |b| + |c|..|a| + |b| + |c| + |d|] == d
  {
  }

  lemma FirstIsTheSale(
      entries: seq<Entry>, sale: seq<Job>, debts: seq<Entry>, payments: seq<Entry>, expenses: seq<Entry>)
    requires sale == [] || sale == SaleJobs(entries)
    ensures
      var posted := sale + Lines(debts) + Lines(payments) + Lines(expenses);
      && ((posted != [] && posted[0].SaleOf?) <==> sale != [])
      && (sale != [] ==> posted[0] == sale[0])
  {
    var others := Lines(debts) + Lines(payments) + Lines(expenses);
    assert sale + Lines(debts) + Lines(payments) + Lines(expenses) == sale + others;
    assert forall i :: 0 <= i < |others| ==> others[i].Line?;
  }
}
