/** A ledger and a trial balance that disagree. */
module ReportExamples {
  import opened Basics
  import opened Model
  import opened Turnovers
  import opened Journal
  import opened AccountResolution
  import opened ClosingSupport
  import opened Exercises
  import opened Balances
  import opened ReportQueries
  import opened ClosingPlan
  import opened ClosingExecution
  import opened ClosingTheorems
  import opened Runs
  import opened ClosingExamples
  import opened ReportAgreement
  import opened History
  import Ledger
  import TrialBalance

  lemma {:induction false} NoMoreBoundaries(entries: seq<Entry>, more: seq<Entry>)
    requires forall e :: e in more ==> !e.source.Boundary()
    ensures Boundaries(entries + more) == Boundaries(entries)
  {
    if more == [] {
      assert entries + more == entries;
    } else {
      var n := |more| - 1;
      assert more == more[..n] + [more[n]];
      NoMoreBoundaries(entries, more[..n]);
      NoNewBoundary(entries + more[..n], more[n]);
      SplitLast(entries, more);
    }
  }

  lemma NoBoundaryPosted(entries: seq<Entry>, support: Index, drafts: seq<Draft>, last: nat)
    requires forall d :: d in drafts ==> !d.source.Boundary()
    ensures Boundaries(entries + Posted(support, drafts, last)) == Boundaries(entries)
  {
    forall e | e in Posted(support, drafts, last) ensures !e.source.Boundary() {
      var d := PostedEntry(support, drafts, last, e);
    }
    NoMoreBoundaries(entries, Posted(support, drafts, last));
  }

  lemma EarlyBoundaries(b: Books, req: Request, support: Index, plan: Plan, after: Books)
    requires Closes(b, req, support, plan, after)
    ensures Boundaries(MidwayEntries(b.entries, plan, support)) == Boundaries(b.entries)
  {
    hide Closes;
    EarlyPostable(b, req, support, plan, after);
    NoBoundaryPosted(b.entries, support, Early(plan), LastNumber(b.entries));
  }

  /** A closing adds its two boundaries to those of the journal. */
  lemma ClosedBoundaries(b: Books, req: Request, support: Index, plan: Plan, after: Books)
    requires Closes(b, req, support, plan, after)
    ensures Boundaries(after.entries)
         == Boundaries(b.entries) + [ClosingEntry(b.entries, plan, support), ReopeningEntry(b.entries, plan, support)]
    ensures ClosingEntry(b.entries, plan, support).date == req.closing
    ensures ReopeningEntry(b.entries, plan, support).date == req.reopening
  {
    EarlyBoundaries(b, req, support, plan, after);
    AfterEntries(b.entries, support, plan);
    TwoMoreBoundaries(MidwayEntries(b.entries, plan, support), ClosingEntry(b.entries, plan, support),
                      ReopeningEntry(b.entries, plan, support));
  }

  lemma LaterDraftsHidden(entries: seq<Entry>, support: Index, drafts: seq<Draft>, last: nat, w: Window, closing: Date)
    requires forall d :: d in drafts ==> d.date >= closing
    requires forall d :: w.Has(d) ==> d < closing
    ensures LinesIn(entries + Posted(support, drafts, last), w) == LinesIn(entries, w)
  {
    var more := Posted(support, drafts, last);
    forall e | e in more ensures !w.Has(e.date) {
      var d := PostedEntry(support, drafts, last, e);
    }
    LinesInConcat(entries, more, w);
    NoLines(more, w);
  }

  lemma AfterIs(b: Books, req: Request, support: Index, plan: Plan, after: Books)
    requires Closes(b, req, support, plan, after)
    ensures b.accounts <= after.accounts
    ensures after.entries == b.entries + Posted(support, plan.Drafts(), LastNumber(b.entries))
  {
  }

  /** A closing posts nothing in a window before it. */
  lemma EarlierLinesKept(b: Books, req: Request, support: Index, plan: Plan, after: Books, w: Window)
    requires Closes(b, req, support, plan, after) && forall d :: w.Has(d) ==> d < req.closing
    ensures LinesIn(after.entries, w) == LinesIn(b.entries, w)
  {
    hide Closes;
    AfterIs(b, req, support, plan, after);
    DraftDates(b, req, support, plan, after);
    LaterDraftsHidden(b.entries, support, plan.Drafts(), LastNumber(b.entries), w, req.closing);
  }

  /** Two exercises of which only the first meets a range that starts after its end. */
  lemma FutureRange(xs: seq<Exercise>, date: Date)
    requires TwoExercises(xs, date)
    ensures ResolveContext(xs, Some(date + 3), date + 1)
         == Context(Some(xs[0]), [], Some(date + 3), Some(date), date + 1)
  {
    assert xs[..1] == [xs[0]] && [xs[0]][..0] == [];
    assert Intersected(xs[..1], date + 3, date + 1) == [xs[0]];
    assert Intersected(xs, date + 3, date + 1) == [xs[0]];
  }

  lemma LossBoundaries(names: Names, date: Date)
    ensures Boundaries(LossBooks(names, date).entries) == [Inventory(date)]
  {
    FirstBoundary(Inventory(date));
    NoNewBoundary([Inventory(date)], Sale(date + 2));
  }

  /** The books of the loss year, closed five days after they opened, although today is the day after they opened. */
  function ClosedAhead(names: Names, date: Date): Books
    requires Execute(LossBooks(names, date), Closing(date + 5)).Ok?
  {
    Execute(LossBooks(names, date), Closing(date + 5)).value
  }

  /** An exercise that ends five days after it starts, and the one that starts the day after. */
  predicate TwoExercises(xs: seq<Exercise>, date: Date) {
    |xs| == 2 && xs[0].start == date && xs[0].closing == Some(date + 5) && xs[1].start == date + 6
  }

  lemma TwoExercisesOf(bs: seq<Entry>, snapshots: seq<Snapshot>, date: Date)
    requires |bs| == 3 && bs[0].date == date && bs[1].date == date + 5 && bs[2].date == date + 6
    ensures TwoExercises(ExercisesOf(bs, snapshots), date)
  {
    var xs := ExercisesOf(bs, snapshots);
    assert xs[0] == ExerciseAt(bs, snapshots, 0) && xs[1] == ExerciseAt(bs, snapshots, 1);
  }

  lemma ClosedAheadBoundaries(names: Names, date: Date)
    requires Execute(LossBooks(names, date), Closing(date + 5)).Ok?
    ensures var bs := Boundaries(ClosedAhead(names, date).entries);
            |bs| == 3 && bs[0].date == date && bs[1].date == date + 5 && bs[2].date == date + 6
    ensures Inv(ClosedAhead(names, date))
  {
    var b, after := LossBooks(names, date), ClosedAhead(names, date);
    LossBooksSound(names, date);
    var support, plan := ExecuteCloses(b, Closing(date + 5));
    hide Inv, Closes, Execute;
    ClosedKeeps(b, Closing(date + 5), support, plan, after);
    ClosedBoundaries(b, Closing(date + 5), support, plan, after);
    LossBoundaries(names, date);
  }

  lemma ClosedAheadExercises(names: Names, date: Date)
    requires Execute(LossBooks(names, date), Closing(date + 5)).Ok?
    ensures LogicalExercises(ClosedAhead(names, date)).Ok?
    ensures TwoExercises(LogicalExercises(ClosedAhead(names, date)).value, date)
  {
    ClosedAheadBoundaries(names, date);
    var after := ClosedAhead(names, date);
    hide ClosedAhead;
    ExercisesOfSoundBooks(after);
    hide Inv, LogicalExercises;
    TwoExercisesOf(Boundaries(after.entries), after.snapshots, date);
  }

  lemma SpentTomorrow(names: Names, date: Date)
    ensures Net(LinesIn(LossBooks(names, date).entries, Turnovers.Between(date + 2, date + 2)), Only(0)) == -300
  {
    LossNet(names, date, Turnovers.Between(date + 2, date + 2), Only(0));
  }

  lemma TillFirst(names: Names, date: Date, after: Books)
    requires LossBooks(names, date).accounts <= after.accounts
    ensures |after.accounts| > 0 && after.accounts[0].parent == CASH
  {
    assert after.accounts[0] == LossBooks(names, date).accounts[0];
  }

  lemma DayBeforeClosing(date: Date, w: Window)
    requires w == Turnovers.Between(date + 2, date + 2)
    ensures forall d :: w.Has(d) ==> d < Closing(date + 5).closing
  {
  }

  lemma ClosedAheadIs(names: Names, date: Date)
    requires Execute(LossBooks(names, date), Closing(date + 5)).Ok?
    ensures ClosedAhead(names, date) == Execute(LossBooks(names, date), Closing(date + 5)).value
  {
  }

  lemma ClosedAheadExcess(names: Names, date: Date)
    requires Execute(LossBooks(names, date), Closing(date + 5)).Ok?
    ensures var after := ClosedAhead(names, date);
            && |after.accounts| > 0 && after.accounts[0].parent == CASH
            && Net(LinesIn(after.entries, Turnovers.Between(date + 2, date + 2)), Only(0)) == -300
  {
    hide *;
    LossJournal(names, date);
    var support, plan := ExecuteCloses(LossBooks(names, date), Closing(date + 5));
    ClosedAheadIs(names, date);
    DayBeforeClosing(date, Turnovers.Between(date + 2, date + 2));
    AfterIs(LossBooks(names, date), Closing(date + 5), support, plan, ClosedAhead(names, date));
    EarlierLinesKept(LossBooks(names, date), Closing(date + 5), support, plan, ClosedAhead(names, date),
                     Turnovers.Between(date + 2, date + 2));
    SpentTomorrow(names, date);
    TillFirst(names, date, ClosedAhead(names, date));
  }

  /** Instance: 300 are spent tomorrow, and the exercise is closed at a date after that. Asked today for what is dated
      from the day after tomorrow on, the ledger closes the till 300 below the trial balance. */
  lemma ReportsDisagree(names: Names, date: Date)
    ensures Execute(LossBooks(names, date), Closing(date + 5)).Ok? && LogicalExercises(ClosedAhead(names, date)).Ok?
    ensures var after := ClosedAhead(names, date);
            var c := ResolveContext(LogicalExercises(after).value, Some(date + 3), date + 1);
            && |after.accounts| > 0
            && Ledger.CardOf(after, c, 0).closing == SignedNet(after, Computed(c), 0) - 300
  {
    LossYearCloses(names, date, date + 5);
    ClosedAheadExercises(names, date);
    ClosedAheadExcess(names, date);
    var after := ClosedAhead(names, date);
    var c := ResolveContext(LogicalExercises(after).value, Some(date + 3), date + 1);
    FutureRange(LogicalExercises(after).value, date);
    hide ClosedAhead, LogicalExercises, ResolveContext;
    LedgerExcess(after, c, 0);
    assert ReportAgreement.Excess(c) == Turnovers.Between(date + 2, date + 2);
  }

  // Loaded balances and a trial balance that differ.

  function Gapped(date: Date): Request { Request(date, date + 3, None, None) }

  const LATE := [Line(0, Debit, 5), Line(1, Credit, 5)]

  /** The opened company, closed on its first day and reopened three days later. */
  function Reopened(names: Names, date: Date): Books
    requires Execute(OpenedBooks(names, date), Gapped(date)).Ok?
  {
    Execute(OpenedBooks(names, date), Gapped(date)).value
  }

  /** And with 5 posted to the till in between. */
  function PostedBetween(names: Names, date: Date): Result<Books>
    requires Execute(OpenedBooks(names, date), Gapped(date)).Ok?
  {
    Post(Reopened(names, date), date + 1, Manual, LATE)
  }

  lemma LatePostable(names: Names, accounts: seq<Account>)
    requires Table(names) <= accounts
    ensures Postable(accounts, LATE)
  {
    var e := Entry(1, 0, Manual, LATE, None);
    EntryNet(e, LATE[0], LATE[1], Everything());
    assert LATE[0] in LATE && LATE[1] in LATE;
    assert accounts[0] == Table(names)[0] && accounts[1] == Table(names)[1];
  }

  lemma ReopenedFacts(names: Names, date: Date)
    ensures Execute(OpenedBooks(names, date), Gapped(date)).Ok?
    ensures var after := Reopened(names, date);
            && Inv(after) && Table(names) <= after.accounts && after.closedUntil == Some(date) && after.entries != []
            && |Boundaries(after.entries)| == 3 && Boundaries(after.entries)[1].date == date
            && Boundaries(after.entries)[2].date == date + 3
            && LinesIn(after.entries, Gap(date, date + 3)) == []
  {
    var b, req := OpenedBooks(names, date), Gapped(date);
    OpenedBooksClose(names, req);
    OpenedBooksSound(names, date);
    var support, plan := ExecuteCloses(b, req);
    FirstBoundary(Inventory(date));
    GapIsEmpty(b, req, support, plan, Reopened(names, date));
    ReopenedBooks(names, date, support, plan);
  }

  lemma ReopenedBooks(names: Names, date: Date, support: Index, plan: Plan)
    requires Execute(OpenedBooks(names, date), Gapped(date)).Ok? && Inv(OpenedBooks(names, date))
    requires Closes(OpenedBooks(names, date), Gapped(date), support, plan, Reopened(names, date))
    requires Boundaries([Inventory(date)]) == [Inventory(date)]
    ensures var after := Reopened(names, date);
            && Inv(after) && Table(names) <= after.accounts && after.closedUntil == Some(date) && after.entries != []
            && |Boundaries(after.entries)| == 3 && Boundaries(after.entries)[1].date == date
            && Boundaries(after.entries)[2].date == date + 3
  {
    hide Execute, Inv;
    ClosedKeeps(OpenedBooks(names, date), Gapped(date), support, plan, Reopened(names, date));
    ClosedBoundaries(OpenedBooks(names, date), Gapped(date), support, plan, Reopened(names, date));
    AfterIs(OpenedBooks(names, date), Gapped(date), support, plan, Reopened(names, date));
  }

  lemma DraftsOutsideGap(b: Books, req: Request, support: Index, plan: Plan, after: Books)
    requires Closes(b, req, support, plan, after)
    ensures forall d :: d in plan.Drafts() ==> d.date == req.closing || d.date == req.reopening
  {
    EarlyPostable(b, req, support, plan, after);
    DraftsAre(plan);
    SealingDates(b, req, support, plan, after);
  }

  lemma NothingIn(entries: seq<Entry>, support: Index, drafts: seq<Draft>, last: nat, w: Window)
    requires forall e :: e in entries ==> !w.Has(e.date)
    requires forall d :: d in drafts ==> !w.Has(d.date)
    ensures LinesIn(entries + Posted(support, drafts, last), w) == []
  {
    forall e | e in entries + Posted(support, drafts, last) ensures !w.Has(e.date) {
      if e !in entries {
        var d := PostedEntry(support, drafts, last, e);
      }
    }
    NoLines(entries + Posted(support, drafts, last), w);
  }

  lemma EntriesBefore(b: Books, req: Request, support: Index, plan: Plan, after: Books)
    requires Closes(b, req, support, plan, after)
    ensures forall e :: e in b.entries ==> e.date <= req.closing
  {
  }

  /** A closing posts nothing between its two dates, and there was nothing there before. */
  lemma GapIsEmpty(b: Books, req: Request, support: Index, plan: Plan, after: Books)
    requires Closes(b, req, support, plan, after)
    ensures LinesIn(after.entries, Gap(req.closing, req.reopening)) == []
  {
    hide Closes;
    AfterIs(b, req, support, plan, after);
    DraftsOutsideGap(b, req, support, plan, after);
    EntriesBefore(b, req, support, plan, after);
    NothingIn(b.entries, support, plan.Drafts(), LastNumber(b.entries), Gap(req.closing, req.reopening));
  }

  lemma LateShape(b: Books, date: Date)
    requires Inv(b) && b.entries != [] && !Closed(b.closedUntil, date) && Postable(b.accounts, LATE)
    ensures Post(b, date, Manual, LATE).Ok? && Inv(Post(b, date, Manual, LATE).value)
    ensures Post(b, date, Manual, LATE).value
         == b.(entries := b.entries + [Entry(|b.entries| + 1, date, Manual, LATE, None)])
    ensures Boundaries(Post(b, date, Manual, LATE).value.entries) == Boundaries(b.entries)
  {
    OpenedIff(b.entries);
    PostIff(b, date, Manual, LATE);
    PostKeeps(b, date, Manual, LATE);
    PostShape(b, date, Manual, LATE);
    NoNewBoundary(b.entries, Entry(|b.entries| + 1, date, Manual, LATE, None));
  }

  lemma LateNet(entries: seq<Entry>, e: Entry, w: Window)
    requires e.lines == LATE && w.Has(e.date) && LinesIn(entries, w) == []
    ensures Net(LinesIn(entries + [e], w), Only(0)) == 5
  {
    LinesInConcat(entries, [e], w);
    OneEntryNet(e, w, Only(0));
    EntryNet(e, LATE[0], LATE[1], Only(0));
    assert [] + LinesIn([e], w) == LinesIn([e], w);
  }

  /** The exercise a reopening starts is active on its first day, and does not report what is dated before it. */
  lemma ReopenedContext(b: Books, date: Date)
    requires Inv(b) && |Boundaries(b.entries)| == 3
    requires Boundaries(b.entries)[1].date == date && Boundaries(b.entries)[2].date == date + 3
    ensures LogicalExercises(b).Ok? && ContextIn(b, Some(date + 3), date + 3).active.Some?
    ensures Unreported(LogicalExercises(b).value, ContextIn(b, Some(date + 3), date + 3).active.value) == Gap(date, date + 3)
  {
    var bs := Boundaries(b.entries);
    ExercisesOfSoundBooks(b);
    hide Inv, LogicalExercises;
    var xs := ExercisesOf(bs, b.snapshots);
    assert xs[0] == ExerciseAt(bs, b.snapshots, 0) && xs[1] == ExerciseAt(bs, b.snapshots, 1);
    assert xs[..1] == [xs[0]] && [xs[0]][..0] == [];
    assert Intersected(xs[..1], date + 3, date + 3) == [];
    assert Intersected(xs, date + 3, date + 3) == [xs[1]];
    UnreportedIs(bs, b.snapshots, 1);
  }

  /** Instance: 5 are posted to the till after a closing and before its reopening. On the day of the reopening the
      balances that a closing would load have 5 more in the till than the trial balance. */
  lemma LoadedExceedsTrial(names: Names, date: Date)
    ensures Execute(OpenedBooks(names, date), Gapped(date)).Ok?
    ensures PostedBetween(names, date).Ok? && Inv(PostedBetween(names, date).value)
    ensures var b := PostedBetween(names, date).value;
            && LogicalExercises(b).Ok?
            && SumNet(LoadNodes(b, date + 3), OfAccount(0))
               == SumNet(TrialBalance.RowsOf(b, ContextIn(b, Some(date + 3), date + 3)), OfAccount(0)) + 5
  {
    ReopenedFacts(names, date);
    var after := Reopened(names, date);
    LatePostable(names, after.accounts);
    assert PostedBetween(names, date) == Post(after, date + 1, Manual, LATE);
    assert !Closed(after.closedUntil, date + 1);
    hide Execute, Inv, Post, Postable, Reopened, OpenedBooks, Closed;
    LateShape(after, date + 1);
    var b := PostedBetween(names, date).value;
    LateNet(after.entries, Entry(|after.entries| + 1, date + 1, Manual, LATE, None), Gap(date, date + 3));
    ReopenedContext(b, date);
    LoadedMeetsTrial(b, Some(date + 3), date + 3, 0);
  }
}
