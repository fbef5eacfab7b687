/** How many codes, and so how many guesses, any stretch of time can hold. */
module WhatsappCaps {
  import opened WhatsappCodes
  import opened WhatsappSafety

  /** The sending caps: an account's two, and that of a number being proved. */
  predicate IsCap(who: Counted, window: Time, cap: nat) {
    || (who.Account? && window == TEN_MINUTES && cap == SENDS_PER_ACCOUNT_10_MIN)
    || (who.Account? && window == DAY && cap == SENDS_PER_ACCOUNT_DAY)
    || (who.Number? && window == HOUR && cap == SENDS_PER_NUMBER_HOUR)
  }

  predicate IsIn(c: Challenge, who: Counted, lo: Time, hi: Time) { IsFor(c, who) && lo <= c.createdAt < hi }

  /** Codes ever made for an account or number from `lo` up to but not including `hi`, removed ones among them. */
  function IssuedWithin(rows: seq<Challenge>, who: Counted, lo: Time, hi: Time): nat {
    if rows == [] then 0
    else (if IsIn(rows[0], who, lo, hi) then 1 else 0) + IssuedWithin(rows[1..], who, lo, hi)
  }

  /** Those of them that are still stored, which is all the caps can see. */
  function StoredWithin(rows: seq<Challenge>, who: Counted, lo: Time, hi: Time): nat {
    if rows == [] then 0
    else (if !rows[0].removed && IsIn(rows[0], who, lo, hi) then 1 else 0) + StoredWithin(rows[1..], who, lo, hi)
  }

  /** Codes in the window that starts at `lo`. */
  function InWindow(rows: seq<Challenge>, who: Counted, lo: Time, window: Time): nat {
    IssuedWithin(rows, who, lo, lo + window)
  }

  /** Guesses ever compared with the codes of that stretch. */
  function GuessesWithin(rows: seq<Challenge>, compared: seq<nat>, who: Counted, lo: Time, hi: Time): nat
    requires |rows| == |compared|
  {
    if rows == [] then 0
    else (if IsIn(rows[0], who, lo, hi) then compared[0] else 0) + GuessesWithin(rows[1..], compared[1..], who, lo, hi)
  }

  // ---------------------------------------------------------------- one step

  lemma {:induction false} CountsIgnoreProgress(
      rows: seq<Challenge>, later: seq<Challenge>, who: Counted, lo: Time, hi: Time)
    requires |rows| == |later| && forall i :: 0 <= i < |rows| ==> Later(rows[i], later[i])
    ensures IssuedWithin(later, who, lo, hi) == IssuedWithin(rows, who, lo, hi)
    ensures StoredWithin(later, who, lo, hi) <= StoredWithin(rows, who, lo, hi)
    ensures (forall i :: 0 <= i < |rows| && IsIn(rows[i], who, lo, hi) ==> later[i].removed == rows[i].removed) ==>
      StoredWithin(later, who, lo, hi) == StoredWithin(rows, who, lo, hi)
  {
    if rows != [] {
      assert Later(rows[0], later[0]);
      forall i | 0 <= i < |rows[1..]|
        ensures rows[1..][i] == rows[i + 1] && later[1..][i] == later[i + 1] && Later(rows[1..][i], later[1..][i])
      {
        assert Later(rows[i + 1], later[i + 1]);
      }
      CountsIgnoreProgress(rows[1..], later[1..], who, lo, hi);
    }
  }

  lemma {:induction false} CountsAppend(rows: seq<Challenge>, c: Challenge, who: Counted, lo: Time, hi: Time)
    ensures IssuedWithin(rows + [c], who, lo, hi) ==
      IssuedWithin(rows, who, lo, hi) + if IsIn(c, who, lo, hi) then 1 else 0
    ensures StoredWithin(rows + [c], who, lo, hi)
      == StoredWithin(rows, who, lo, hi) + if !c.removed && IsIn(c, who, lo, hi) then 1 else 0
  {
    if rows == [] {
      assert rows + [c] == [c] && [c][1..] == [];
    } else {
      assert (rows + [c])[1..] == rows[1..] + [c];
      CountsAppend(rows[1..], c, who, lo, hi);
    }
  }

  /** The step makes a code of this stretch of time. */
  predicate Makes(s: State, step: Step, who: Counted, lo: Time, hi: Time) {
    var rows := Next(s, step).state.rows;
    |rows| > |s.rows| && IsIn(rows[|s.rows|], who, lo, hi)
  }

  /** The step deletes a stored code of this stretch of time, with its owner's number. */
  predicate Forgets(s: State, step: Step, who: Counted, lo: Time, hi: Time) {
    step.Remove? && exists r :: r in s.rows && !r.removed && r.admin == step.admin && IsIn(r, who, lo, hi)
  }

  lemma {:induction false} IssueCounts(s: State, step: Step, who: Counted, lo: Time, hi: Time)
    requires Inv(s) && step.Issue? && IssueCode(s, step).reply.Done?
    ensures var t := Next(s, step).state; var more := if Makes(s, step, who, lo, hi) then 1 else 0;
      && IssuedWithin(t.rows, who, lo, hi) == IssuedWithin(s.rows, who, lo, hi) + more
      && StoredWithin(t.rows, who, lo, hi) == StoredWithin(s.rows, who, lo, hi) + more
  {
    var t := Next(s, step).state;
    var retired := Retire(s.rows, step.admin, step.session, step.at);
    assert t.rows == retired + [t.rows[|s.rows|]];
    CountsIgnoreProgress(s.rows, retired, who, lo, hi);
    CountsAppend(retired, t.rows[|s.rows|], who, lo, hi);
  }

  lemma {:induction false} OnlyRemovalsForget(s: State, step: Step, who: Counted, lo: Time, hi: Time, i: nat)
    requires Inv(s) && !Forgets(s, step, who, lo, hi) && i < |s.rows| && IsIn(s.rows[i], who, lo, hi)
    ensures var rows := Next(s, step).state.rows; i < |rows| && rows[i].removed == s.rows[i].removed
  {
    assert s.rows[i] in s.rows;
  }

  lemma {:induction false} OtherStepsCount(s: State, step: Step, who: Counted, lo: Time, hi: Time)
    requires Inv(s) && |Next(s, step).state.rows| == |s.rows|
    ensures var rows := Next(s, step).state.rows;
      && IssuedWithin(rows, who, lo, hi) == IssuedWithin(s.rows, who, lo, hi)
      && StoredWithin(rows, who, lo, hi) <= StoredWithin(s.rows, who, lo, hi)
      && (!Forgets(s, step, who, lo, hi) ==> StoredWithin(rows, who, lo, hi) == StoredWithin(s.rows, who, lo, hi))
  {
    var rows := Next(s, step).state.rows;
    StepExtends(s, step);
    CountsIgnoreProgress(s.rows, rows, who, lo, hi);
    if !Forgets(s, step, who, lo, hi) {
      forall i | 0 <= i < |s.rows| && IsIn(s.rows[i], who, lo, hi) ensures rows[i].removed == s.rows[i].removed {
        OnlyRemovalsForget(s, step, who, lo, hi, i);
      }
    }
  }

  /** Only a new code adds to the count, and only a removal takes from what is stored. */
  lemma {:induction false} StepCounts(s: State, step: Step, who: Counted, lo: Time, hi: Time)
    requires Inv(s)
    ensures var t := Next(s, step).state; var more := if Makes(s, step, who, lo, hi) then 1 else 0;
      && IssuedWithin(t.rows, who, lo, hi) == IssuedWithin(s.rows, who, lo, hi) + more
      && StoredWithin(t.rows, who, lo, hi) <= StoredWithin(s.rows, who, lo, hi) + more
      && (!Forgets(s, step, who, lo, hi) ==>
            StoredWithin(t.rows, who, lo, hi) == StoredWithin(s.rows, who, lo, hi) + more)
  {
    if step.Issue? && IssueCode(s, step).reply.Done? {
      IssueCounts(s, step, who, lo, hi);
    } else {
      assert |Next(s, step).state.rows| == |s.rows|;
      OtherStepsCount(s, step, who, lo, hi);
    }
  }

  /** The count taken when a code is asked for covers every window the new code falls into. */
  lemma {:induction false} CountCoversWindow(rows: seq<Challenge>, who: Counted, at: Time, lo: Time, window: Time)
    requires lo <= at < lo + window
    ensures StoredWithin(rows, who, lo, lo + window) <= CountSince(rows, who, at - window)
  {
    if rows != [] { CountCoversWindow(rows[1..], who, at, lo, window); }
  }

  lemma {:induction false} StepKeepsStoredCapped(s: State, step: Step, who: Counted, window: Time, cap: nat, lo: Time)
    requires Inv(s) && IsCap(who, window, cap) && StoredWithin(s.rows, who, lo, lo + window) <= cap
    ensures StoredWithin(Next(s, step).state.rows, who, lo, lo + window) <= cap
  {
    StepCounts(s, step, who, lo, lo + window);
    if Makes(s, step, who, lo, lo + window) { CountCoversWindow(s.rows, who, step.at, lo, window); }
  }

  // ---------------------------------------------------------------- runs

  /** What a step does to the codes of a stretch of time. */
  datatype Mark = Made | Forgot | Nothing

  function MarkOf(s: State, step: Step, who: Counted, lo: Time, hi: Time): Mark {
    if Forgets(s, step, who, lo, hi) then Forgot else if Makes(s, step, who, lo, hi) then Made else Nothing
  }

  function Marks(steps: seq<Step>, who: Counted, lo: Time, hi: Time): (r: seq<Mark>)
    ensures |r| == |steps|
  {
    if steps == [] then []
    else
      var front := steps[..|steps| - 1];
      Marks(front, who, lo, hi) + [MarkOf(After(INITIAL, front), steps[|steps| - 1], who, lo, hi)]
  }

  /** Codes made since codes of this stretch of time were last deleted. */
  function SinceForgot(marks: seq<Mark>): nat {
    if marks == [] then 0
    else
      match marks[|marks| - 1]
      case Made => SinceForgot(marks[..|marks| - 1]) + 1
      case Forgot => 0
      case Nothing => SinceForgot(marks[..|marks| - 1])
  }

  /** How often a code is the first: the first at all, or the first made after a removal has deleted some of them. */
  function Stretches(marks: seq<Mark>): nat {
    if marks == [] then 0
    else
      var front := marks[..|marks| - 1];
      Stretches(front) + if marks[|marks| - 1].Made? && SinceForgot(front) == 0 then 1 else 0
  }

  /** The stretches of a run that share the window from `lo` on. */
  function StretchesOf(steps: seq<Step>, who: Counted, window: Time, lo: Time): nat {
    Stretches(Marks(steps, who, lo, lo + window))
  }

  lemma {:induction false} AfterLast(steps: seq<Step>)
    requires steps != []
    ensures After(INITIAL, steps) == Next(After(INITIAL, steps[..|steps| - 1]), steps[|steps| - 1]).state
  {
    var front, last := steps[..|steps| - 1], steps[|steps| - 1];
    assert steps == front + [last];
    AfterJoined(INITIAL, front, [last]);
    AfterOne(After(INITIAL, front), last);
  }

  function Times(cap: nat, n: nat): nat { if n == 0 then 0 else Times(cap, n - 1) + cap }

  /** What the present stretch has not used of its share. */
  function Room(cap: nat, made: nat): int { if made > 0 then cap - made else 0 }

  /** A count of codes that fits the marks seen so far. */
  predicate Fits(marks: seq<Mark>, made: nat, stored: nat, cap: nat) {
    SinceForgot(marks) <= stored <= cap && made + Room(cap, SinceForgot(marks)) <= Times(cap, Stretches(marks))
  }

  lemma MarkFits(marks: seq<Mark>, made: nat, stored: nat, cap: nat, mark: Mark, madeThen: nat, storedThen: nat)
    requires Fits(marks, made, stored, cap) && storedThen <= cap
    requires madeThen == made + if mark.Made? then 1 else 0
    requires !mark.Forgot? ==> storedThen == stored + if mark.Made? then 1 else 0
    ensures Fits(marks + [mark], madeThen, storedThen, cap)
  {
    assert (marks + [mark])[..|marks|] == marks;
  }

  lemma {:induction false} StepMarks(s: State, step: Step, who: Counted, window: Time, cap: nat, lo: Time)
    requires Inv(s) && IsCap(who, window, cap) && StoredWithin(s.rows, who, lo, lo + window) <= cap
    ensures var t, mark := Next(s, step).state, MarkOf(s, step, who, lo, lo + window);
      && StoredWithin(t.rows, who, lo, lo + window) <= cap
      && InWindow(t.rows, who, lo, window) == InWindow(s.rows, who, lo, window) + (if mark.Made? then 1 else 0)
      && (!mark.Forgot? ==> StoredWithin(t.rows, who, lo, lo + window)
                                == StoredWithin(s.rows, who, lo, lo + window) + if mark.Made? then 1 else 0)
  {
    StepCounts(s, step, who, lo, lo + window);
    StepKeepsStoredCapped(s, step, who, window, cap, lo);
    if step.Remove? { assert !Makes(s, step, who, lo, lo + window); }
  }

  lemma {:induction false} RunFits(steps: seq<Step>, who: Counted, window: Time, cap: nat, lo: Time)
    requires IsCap(who, window, cap)
    ensures var rows := After(INITIAL, steps).rows;
      Fits(Marks(steps, who, lo, lo + window), InWindow(rows, who, lo, window),
          StoredWithin(rows, who, lo, lo + window), cap)
  {
    if steps != [] {
      var front, last := steps[..|steps| - 1], steps[|steps| - 1];
      var s := After(INITIAL, front);
      RunFits(front, who, window, cap, lo);
      RunKeepsInv(INITIAL, front);
      StepMarks(s, last, who, window, cap, lo);
      AfterLast(steps);
      MarkFits(Marks(front, who, lo, lo + window),
        InWindow(s.rows, who, lo, window), StoredWithin(s.rows, who, lo, lo + window), cap,
        MarkOf(s, last, who, lo, lo + window),
        InWindow(After(INITIAL, steps).rows, who, lo, window), StoredWithin(After(INITIAL, steps).rows, who, lo,
          lo + window));
    }
  }

  /**
   * In every run a window holds at most the cap per stretch: three codes of an account in ten minutes, ten in a day,
   * and three enrolment codes to one number in an hour, counted anew when a removal has deleted codes of the window.
   */
  lemma SendingIsCapped(steps: seq<Step>, who: Counted, window: Time, cap: nat, lo: Time)
    requires IsCap(who, window, cap)
    ensures InWindow(After(INITIAL, steps).rows, who, lo, window) <= Times(cap, StretchesOf(steps, who, window, lo))
  {
    RunFits(steps, who, window, cap, lo);
  }

  /** No one whose codes went to this account or number removes theirs; what others remove does not matter. */
  predicate Kept(steps: seq<Step>, who: Counted) {
    forall r :: r in After(INITIAL, steps).rows && IsFor(r, who) ==> Remove(r.admin) !in steps
  }

  lemma {:induction false} KeptBefore(steps: seq<Step>, who: Counted)
    requires steps != [] && Kept(steps, who)
    ensures Kept(steps[..|steps| - 1], who)
  {
    var front := steps[..|steps| - 1];
    var s, t := After(INITIAL, front), After(INITIAL, steps);
    RunKeepsInv(INITIAL, front);
    AfterLast(steps);
    StepExtends(s, steps[|steps| - 1]);
    forall r | r in s.rows && IsFor(r, who) ensures Remove(r.admin) !in front {
      var id :| 0 <= id < |s.rows| && s.rows[id] == r;
      assert Later(r, t.rows[id]) && t.rows[id] in t.rows;
    }
  }

  lemma {:induction false} KeptForgetsNothing(steps: seq<Step>, who: Counted, lo: Time, hi: Time)
    requires steps != [] && Kept(steps, who)
    ensures !Forgets(After(INITIAL, steps[..|steps| - 1]), steps[|steps| - 1], who, lo, hi)
  {
    var s, t := After(INITIAL, steps[..|steps| - 1]), After(INITIAL, steps);
    RunKeepsInv(INITIAL, steps[..|steps| - 1]);
    AfterLast(steps);
    StepExtends(s, steps[|steps| - 1]);
    forall r | r in s.rows && IsIn(r, who, lo, hi) ensures Remove(r.admin) != steps[|steps| - 1] {
      var id :| 0 <= id < |s.rows| && s.rows[id] == r;
      assert Later(r, t.rows[id]) && t.rows[id] in t.rows;
    }
  }

  lemma {:induction false} KeptIsOneStretch(steps: seq<Step>, who: Counted, lo: Time, hi: Time)
    requires Kept(steps, who)
    ensures var marks := Marks(steps, who, lo, hi);
      Stretches(marks) <= 1 && (Stretches(marks) == 1 ==> SinceForgot(marks) > 0)
  {
    if steps != [] {
      KeptBefore(steps, who);
      KeptIsOneStretch(steps[..|steps| - 1], who, lo, hi);
      KeptForgetsNothing(steps, who, lo, hi);
      var marks := Marks(steps, who, lo, hi);
      assert marks[..|marks| - 1] == Marks(steps[..|steps| - 1], who, lo, hi);
    }
  }

  /** The caps hold in every run in which nobody removes a number whose codes they count. */
  lemma CapHoldsWhileKept(steps: seq<Step>, who: Counted, window: Time, cap: nat, lo: Time)
    requires IsCap(who, window, cap) && Kept(steps, who)
    ensures InWindow(After(INITIAL, steps).rows, who, lo, window) <= cap
  {
    SendingIsCapped(steps, who, window, cap, lo);
    KeptIsOneStretch(steps, who, lo, lo + window);
  }

  // ---------------------------------------------------------------- guesses

  lemma {:induction false} GuessesPerCode(rows: seq<Challenge>, compared: seq<nat>, who: Counted, lo: Time, hi: Time)
    requires |rows| == |compared| && forall i :: 0 <= i < |compared| ==> compared[i] <= MAX_GUESSES
    ensures GuessesWithin(rows, compared, who, lo, hi) <= MAX_GUESSES * IssuedWithin(rows, who, lo, hi)
  {
    if rows != [] { GuessesPerCode(rows[1..], compared[1..], who, lo, hi); }
  }

  lemma {:induction false} TenTimes(n: nat)
    ensures Times(10, n) == 10 * n
  {
    if n > 0 { TenTimes(n - 1); }
  }

  /**
   * So at most fifty guesses per stretch are ever compared with the codes of any one day, and fifty in all when the
   * account's number is not removed.
   */
  lemma AtMostFiftyGuessesADay(steps: seq<Step>, admin: Person, lo: Time)
    ensures var s := After(INITIAL, steps);
      && |s.rows| == |s.compared|
      && GuessesWithin(s.rows, s.compared, Account(admin), lo, lo + DAY)
           <= 50 * StretchesOf(steps, Account(admin), DAY, lo)
      && (Remove(admin) !in steps ==> GuessesWithin(s.rows, s.compared, Account(admin), lo, lo + DAY) <= 50)
  {
    var s := After(INITIAL, steps);
    RunKeepsInv(INITIAL, steps);
    forall i | 0 <= i < |s.compared| ensures s.compared[i] <= MAX_GUESSES { assert GuessesOk(s, i); }
    SendingIsCapped(steps, Account(admin), DAY, SENDS_PER_ACCOUNT_DAY, lo);
    TenTimes(StretchesOf(steps, Account(admin), DAY, lo));
    GuessesPerCode(s.rows, s.compared, Account(admin), lo, lo + DAY);
    if Remove(admin) !in steps { CapHoldsWhileKept(steps, Account(admin), DAY, SENDS_PER_ACCOUNT_DAY, lo); }
  }

  // ---------------------------------------------------------------- a removal between two codes breaks the cap

  function Owner(who: Counted): Person { if who.Account? then who.admin else 0 }

  /** The `n`th enrolment code for this account, each to a number of its own, or for this number. */
  function Code(who: Counted, n: nat, at: Time): Step {
    match who
    case Account(admin) => Issue(admin, 0, Enrol, n, Template, 0, false, at)
    case Number(phone) => Issue(0, 0, Enrol, phone, Template, 0, false, at)
  }

  function Standing(rows: seq<Challenge>): nat {
    if rows == [] then 0 else (if rows[0].removed then 0 else 1) + Standing(rows[1..])
  }

  /** A run so far: `total` codes for `who`, all made from `lo` to `last`, `standing` of them still stored. */
  predicate Reached(s: State, who: Counted, lo: Time, last: Time, total: nat, standing: nat) {
    && |s.rows| == total && Standing(s.rows) == standing
    && forall i :: 0 <= i < |s.rows| ==>
         && s.rows[i].admin == Owner(who) && IsFor(s.rows[i], who) && lo <= s.rows[i].createdAt <= last
         && (who.Account? ==> s.rows[i].phone == i)
  }

  lemma {:induction false} StandingCovers(rows: seq<Challenge>, who: Counted, after: Time)
    ensures CountSince(rows, who, after) <= Standing(rows)
    ensures (forall i :: 0 <= i < |rows| ==> rows[i].createdAt <= after) ==> CountSince(rows, who, after) == 0
    ensures (forall i :: 0 <= i < |rows| ==> !IsFor(rows[i], who)) ==> CountSince(rows, who, after) == 0
  {
    if rows != [] {
      assert forall i :: 0 <= i < |rows[1..]| ==> rows[1..][i] == rows[i + 1];
      StandingCovers(rows[1..], who, after);
    }
  }

  lemma {:induction false} StandingAppends(rows: seq<Challenge>, c: Challenge)
    ensures Standing(rows + [c]) == Standing(rows) + if c.removed then 0 else 1
  {
    if rows == [] {
      assert rows + [c] == [c] && [c][1..] == [];
    } else {
      assert (rows + [c])[1..] == rows[1..] + [c];
      StandingAppends(rows[1..], c);
    }
  }

  lemma {:induction false} StandingIgnores(rows: seq<Challenge>, later: seq<Challenge>)
    requires |rows| == |later| && forall i :: 0 <= i < |rows| ==> later[i].removed == rows[i].removed
    ensures Standing(later) == Standing(rows)
  {
    if rows != [] {
      assert forall i :: 0 <= i < |rows[1..]| ==> rows[1..][i] == rows[i + 1] && later[1..][i] == later[i + 1];
      StandingIgnores(rows[1..], later[1..]);
    }
  }

  lemma {:induction false} SomeStands(rows: seq<Challenge>)
    ensures Standing(rows) > 0 <==> exists i :: 0 <= i < |rows| && !rows[i].removed
  {
    if rows != [] {
      SomeStands(rows[1..]);
      if Standing(rows[1..]) > 0 {
        var i :| 0 <= i < |rows[1..]| && !rows[1..][i].removed;
        assert !rows[i + 1].removed;
      }
      if i :| 0 < i < |rows| && !rows[i].removed { assert rows[1..][i - 1] == rows[i]; }
    }
  }

  /** No cap stands against one more code. */
  predicate HasRoom(s: State, who: Counted, at: Time) {
    || Standing(s.rows) < 3
    || (who.Account? && Standing(s.rows) < 10
        && forall i :: 0 <= i < |s.rows| ==> s.rows[i].createdAt <= at - TEN_MINUTES)
  }

  lemma {:induction false} AllIn(rows: seq<Challenge>, who: Counted, lo: Time, hi: Time)
    requires forall i :: 0 <= i < |rows| ==> IsIn(rows[i], who, lo, hi)
    ensures IssuedWithin(rows, who, lo, hi) == |rows|
  {
    if rows != [] {
      assert forall i :: 0 <= i < |rows[1..]| ==> rows[1..][i] == rows[i + 1];
      AllIn(rows[1..], who, lo, hi);
    }
  }

  lemma {:induction false} RoomIsNotCapped(
      s: State, who: Counted, lo: Time, last: Time, at: Time, total: nat, standing: nat)
    requires Reached(s, who, lo, last, total, standing) && HasRoom(s, who, at)
    ensures var step := Code(who, total, at); !OverCap(s.rows, step.admin, step.purpose, step.phone, at)
  {
    var step := Code(who, total, at);
    StandingCovers(s.rows, Account(step.admin), at - TEN_MINUTES);
    StandingCovers(s.rows, Account(step.admin), at - DAY);
    StandingCovers(s.rows, Number(step.phone), at - HOUR);
  }

  lemma {:induction false} CodeIsMade(
      s: State, who: Counted, lo: Time, last: Time, at: Time, hi: Time, total: nat, standing: nat)
    requires Reached(s, who, lo, last, total, standing) && lo <= last <= at < hi && HasRoom(s, who, at)
    ensures Reached(Next(s, Code(who, total, at)).state, who, lo, at, total + 1, standing + 1)
    ensures MarkOf(s, Code(who, total, at), who, lo, hi) == Made
  {
    var step := Code(who, total, at);
    RoomIsNotCapped(s, who, lo, last, at, total, standing);
    var t := IssueCode(s, step).state;
    var retired := Retire(s.rows, step.admin, step.session, step.at);
    assert t.rows == retired + [t.rows[|s.rows|]];
    StandingIgnores(s.rows, retired);
    StandingAppends(retired, t.rows[|s.rows|]);
  }

  lemma {:induction false} AllRemoved(s: State, who: Counted, lo: Time, last: Time, hi: Time, total: nat, standing: nat)
    requires Reached(s, who, lo, last, total, standing) && last < hi && standing > 0
    ensures Reached(Next(s, Remove(Owner(who))).state, who, lo, last, total, 0)
    ensures MarkOf(s, Remove(Owner(who)), who, lo, hi) == Forgot
  {
    var t := Next(s, Remove(Owner(who))).state;
    SomeStands(s.rows);
    SomeStands(t.rows);
    var i :| 0 <= i < |s.rows| && !s.rows[i].removed;
    assert s.rows[i] in s.rows && IsIn(s.rows[i], who, lo, hi);
  }

  /** Only enrolment codes are asked for, which no number already set up stands against, and removals in between. */
  predicate OnlyEnrols(steps: seq<Step>, who: Counted) {
    forall step :: step in steps ==>
      step == Remove(Owner(who)) || (step.Issue? && step.admin == Owner(who) && step.purpose == Enrol)
  }

  /** What such a run has come to: its codes, those still stored, which make the present stretch, and its stretches. */
  predicate ComesTo(
      steps: seq<Step>, who: Counted, lo: Time, last: Time, hi: Time, total: nat, standing: nat, stretches: nat)
  {
    && OnlyEnrols(steps, who)
    && Reached(After(INITIAL, steps), who, lo, last, total, standing) && lo <= last < hi
    && Stretches(Marks(steps, who, lo, hi)) == stretches && SinceForgot(Marks(steps, who, lo, hi)) == standing
  }

  lemma {:induction false} LastMark(steps: seq<Step>, step: Step, who: Counted, lo: Time, hi: Time)
    ensures After(INITIAL, steps + [step]) == Next(After(INITIAL, steps), step).state
    ensures Marks(steps + [step], who, lo, hi) ==
      Marks(steps, who, lo, hi) + [MarkOf(After(INITIAL, steps), step, who, lo, hi)]
  {
    AfterLast(steps + [step]);
    assert (steps + [step])[..|steps|] == steps;
  }

  lemma MarkCounts(marks: seq<Mark>, mark: Mark)
    requires !mark.Nothing?
    ensures Stretches(marks + [mark]) == Stretches(marks) + if mark.Made? && SinceForgot(marks) == 0 then 1 else 0
    ensures SinceForgot(marks + [mark]) == if mark.Made? then SinceForgot(marks) + 1 else 0
  {
    assert (marks + [mark])[..|marks|] == marks;
  }

  lemma {:induction false} OneCodeMore(
      front: seq<Step>, who: Counted, lo: Time, last: Time, at: Time, hi: Time, total: nat, standing: nat,
      stretches: nat)
    returns (steps: seq<Step>)
    requires ComesTo(front, who, lo, last, hi, total, standing, stretches)
    requires last <= at < hi && HasRoom(After(INITIAL, front), who, at)
    ensures ComesTo(steps, who, lo, at, hi, total + 1, standing + 1, stretches + if standing == 0 then 1 else 0)
  {
    steps := front + [Code(who, total, at)];
    CodeIsMade(After(INITIAL, front), who, lo, last, at, hi, total, standing);
    LastMark(front, Code(who, total, at), who, lo, hi);
    MarkCounts(Marks(front, who, lo, hi), Made);
  }

  lemma {:induction false} OneRemoval(
      front: seq<Step>, who: Counted, lo: Time, last: Time, hi: Time, total: nat, standing: nat, stretches: nat)
    returns (steps: seq<Step>)
    requires ComesTo(front, who, lo, last, hi, total, standing, stretches) && standing > 0
    ensures ComesTo(steps, who, lo, last, hi, total, 0, stretches)
  {
    steps := front + [Remove(Owner(who))];
    AllRemoved(After(INITIAL, front), who, lo, last, hi, total, standing);
    LastMark(front, Remove(Owner(who)), who, lo, hi);
    MarkCounts(Marks(front, who, lo, hi), Forgot);
  }

  /** The number removed, and three codes asked for anew. */
  lemma {:induction false} ThreeMore(
      front: seq<Step>, who: Counted, lo: Time, at: Time, hi: Time, total: nat, standing: nat, stretches: nat)
    returns (steps: seq<Step>)
    requires ComesTo(front, who, lo, at, hi, total, standing, stretches) && standing > 0
    ensures ComesTo(steps, who, lo, at, hi, total + 3, 3, stretches + 1)
  {
    steps := OneRemoval(front, who, lo, at, hi, total, standing, stretches);
    steps := OneCodeMore(steps, who, lo, at, at, hi, total, 0, stretches);
    steps := OneCodeMore(steps, who, lo, at, at, hi, total + 1, 1, stretches + 1);
    steps := OneCodeMore(steps, who, lo, at, at, hi, total + 2, 2, stretches + 1);
  }

  lemma {:induction false} NothingYet(who: Counted, lo: Time, hi: Time)
    requires lo < hi
    ensures ComesTo([], who, lo, lo, hi, 0, 0, 0) && HasRoom(After(INITIAL, []), who, lo)
  {
  }

  lemma {:induction false} FirstCode(who: Counted, lo: Time, hi: Time) returns (steps: seq<Step>)
    requires lo < hi
    ensures ComesTo(steps, who, lo, lo, hi, 1, 1, 1)
  {
    NothingYet(who, lo, hi);
    steps := OneCodeMore([], who, lo, lo, lo, hi, 0, 0, 0);
  }

  /** Codes asked for in a day come ten minutes apart; those of a shorter window all at once. */
  function Gap(cap: nat): Time { if cap == SENDS_PER_ACCOUNT_DAY then TEN_MINUTES else 0 }

  lemma {:induction false} NextFits(
      front: seq<Step>, who: Counted, cap: nat, lo: Time, last: Time, hi: Time, k: nat)
    returns (steps: seq<Step>)
    requires ComesTo(front, who, lo, last, hi, k, k, 1) && 0 < k < cap && last + Gap(cap) < hi
    requires cap == 3 || (cap == 10 && who.Account?)
    ensures ComesTo(steps, who, lo, last + Gap(cap), hi, k + 1, k + 1, 1)
  {
    steps := OneCodeMore(front, who, lo, last, last + Gap(cap), hi, k, k, 1);
  }

  /** How long `k` codes take. */
  function Span(cap: nat, k: nat): Time { if k <= 1 then 0 else Span(cap, k - 1) + Gap(cap) }

  lemma {:induction false} SpanIs(cap: nat, k: nat)
    requires k > 0
    ensures Span(cap, k) == if cap == SENDS_PER_ACCOUNT_DAY then (k - 1) * TEN_MINUTES else 0
  {
    if k > 1 { SpanIs(cap, k - 1); }
  }

  /** A window filled with `k` codes, none of them removed. */
  lemma {:induction false} FillingFits(who: Counted, cap: nat, lo: Time, hi: Time, k: nat) returns (steps: seq<Step>)
    requires cap == 3 || (cap == 10 && who.Account?)
    requires 0 < k <= cap && lo + Span(cap, k) < hi
    ensures ComesTo(steps, who, lo, lo + Span(cap, k), hi, k, k, 1)
    decreases k
  {
    if k == 1 {
      steps := FirstCode(who, lo, hi);
    } else {
      steps := FillingFits(who, cap, lo, hi, k - 1);
      steps := NextFits(steps, who, cap, lo, lo + Span(cap, k - 1), hi, k - 1);
    }
  }

  function Left(standing: nat, n: nat): nat { if n == 0 then standing else 3 }

  /** `n` times the number removed and three codes asked for anew. */
  lemma {:induction false} Refills(
      front: seq<Step>, who: Counted, lo: Time, at: Time, hi: Time, total: nat, standing: nat, stretches: nat, n: nat)
    returns (steps: seq<Step>)
    requires ComesTo(front, who, lo, at, hi, total, standing, stretches) && standing > 0
    ensures ComesTo(steps, who, lo, at, hi, total + 3 * n, Left(standing, n), stretches + n)
    decreases n
  {
    if n == 0 {
      steps := front;
    } else {
      steps := ThreeMore(front, who, lo, at, hi, total, standing, stretches);
      steps := Refills(steps, who, lo, at, hi, total + 3, 3, stretches + 1, n - 1);
      assert total + 3 + 3 * (n - 1) == total + 3 * n && stretches + 1 + (n - 1) == stretches + n;
    }
  }

  lemma {:induction false} FillAndRefill(who: Counted, cap: nat, lo: Time, hi: Time, n: nat) returns (steps: seq<Step>)
    requires (cap == 3 || (cap == 10 && who.Account?)) && lo + Span(cap, cap) < hi
    ensures ComesTo(steps, who, lo, lo + Span(cap, cap), hi, cap + 3 * n, Left(cap, n), 1 + n)
  {
    steps := FillingFits(who, cap, lo, hi, cap);
    steps := Refills(steps, who, lo, lo + Span(cap, cap), hi, cap, cap, 1, n);
  }

  lemma {:induction false} AllCounted(
      steps: seq<Step>, who: Counted, lo: Time, last: Time, window: Time, total: nat, standing: nat, stretches: nat)
    requires ComesTo(steps, who, lo, last, lo + window, total, standing, stretches)
    ensures OnlyEnrols(steps, who) && StretchesOf(steps, who, window, lo) == stretches
    ensures InWindow(After(INITIAL, steps).rows, who, lo, window) == total
  {
    AllIn(After(INITIAL, steps).rows, who, lo, lo + window);
  }

  /**
   * After the cap is used up, every removal of the number lets three more enrolment codes through within the same
   * window: as long as none is entered, codes may be asked for again and again.
   */
  lemma {:induction false} RemovalForgets(who: Counted, window: Time, cap: nat, lo: Time, n: nat)
    returns (steps: seq<Step>)
    requires IsCap(who, window, cap)
    ensures OnlyEnrols(steps, who) && StretchesOf(steps, who, window, lo) == 1 + n
    ensures InWindow(After(INITIAL, steps).rows, who, lo, window) == cap + 3 * n
  {
    SpanIs(cap, cap);
    steps := FillAndRefill(who, cap, lo, lo + window, n);
    AllCounted(steps, who, lo, lo + Span(cap, cap), window, cap + 3 * n, Left(cap, n), 1 + n);
  }

  predicate KeepsTo(steps: seq<Step>, who: Counted, window: Time, cap: nat, lo: Time) {
    InWindow(After(INITIAL, steps).rows, who, lo, window) <= cap
  }

  lemma OneStretchFits(steps: seq<Step>, who: Counted, window: Time, cap: nat, lo: Time)
    requires IsCap(who, window, cap) && StretchesOf(steps, who, window, lo) <= 1
    ensures KeepsTo(steps, who, window, cap, lo)
  {
    SendingIsCapped(steps, who, window, cap, lo);
  }

  lemma MoreStretchesDoNot(who: Counted, window: Time, cap: nat, lo: Time, stretches: nat) returns (steps: seq<Step>)
    requires IsCap(who, window, cap) && stretches > 1
    ensures StretchesOf(steps, who, window, lo) == stretches && !KeepsTo(steps, who, window, cap, lo)
  {
    steps := RemovalForgets(who, window, cap, lo, stretches - 1);
  }

  /** Every run with so many stretches keeps to the cap of the window. */
  ghost predicate CapHoldsFor(who: Counted, window: Time, cap: nat, lo: Time, stretches: nat) {
    forall steps :: StretchesOf(steps, who, window, lo) == stretches ==> KeepsTo(steps, who, window, cap, lo)
  }

  /** A cap holds exactly as long as no removal deletes codes of a window and another is made in it afterwards. */
  lemma CapHoldsExactlyWhen(who: Counted, window: Time, cap: nat, lo: Time, stretches: nat)
    requires IsCap(who, window, cap)
    ensures CapHoldsFor(who, window, cap, lo, stretches) <==> stretches <= 1
  {
    if stretches <= 1 {
      forall steps | StretchesOf(steps, who, window, lo) == stretches ensures KeepsTo(steps, who, window, cap, lo) {
        OneStretchFits(steps, who, window, cap, lo);
      }
    } else {
      var steps := MoreStretchesDoNot(who, window, cap, lo, stretches);
    }
  }
}
