/** What holds over whole runs: frozen history, nets since the latest closing, reversals, exercises. */
module History {
  import opened Basics
  import opened Sorting
  import opened Model
  import opened Turnovers
  import opened Journal
  import opened AccountResolution
  import opened Exercises
  import opened OpeningEntry
  import opened ClosingSupport
  import opened Balances
  import opened ClosingPlan
  import opened ClosingExecution
  import opened ClosingTheorems
  import opened Runs
  import opened ReportQueries
  import TrialBalance

  /** In any run from a fresh company the boundaries sorted by date and number are in posting order, the scan never
      raises, exercises do not overlap and have their snapshots, and an opened company has exactly one open
      exercise, the last. */
  lemma ReachableExercises(start: Books, steps: seq<Step>)
    requires Fresh(start)
    ensures var b := Run(start, steps);
            && Scanned(b.entries) == Boundaries(b.entries)
            && LogicalExercises(b).Ok? && SoundExercises(LogicalExercises(b).value)
            && (LogicalExercises(b).value == [] <==> b.entries == [])
  {
    FreshInv(start);
    RunKeeps(start, steps);
    ScannedIsPosted(Run(start, steps).entries);
    ExercisesOfSoundBooks(Run(start, steps));
  }

  // Nets since a closing.

  lemma NetSinceZero(entries: seq<Entry>, closing: Entry, until: Date, sel: AccountId -> bool)
    requires Zeroed(entries) && closing in entries && closing.source == PatrimonialClosing && closing.date <= until
    ensures Net(LinesIn(entries, UpTo(until)), sel) == Net(LinesIn(entries, After(closing.date, until)), sel)
  {
    NetSplit(entries, UpTo(until), UpTo(closing.date), After(closing.date, until), sel);
    assert Net(LinesIn(entries, UpTo(closing.date)), sel) == 0;
  }

  /** Nothing before a closing weighs on the nets after it: over all history up to a date, any selection of accounts
      nets to what it nets over the lines dated after any closing up to that date, in particular the latest. */
  lemma NetSinceClosing(b: Books, closing: Entry, until: Date, sel: AccountId -> bool)
    requires Inv(b) && closing in b.entries && closing.source == PatrimonialClosing && closing.date <= until
    ensures Net(LinesIn(b.entries, UpTo(until)), sel) == Net(LinesIn(b.entries, After(closing.date, until)), sel)
  {
    NetSinceZero(b.entries, closing, until, sel);
  }

  /** The dates strictly between a closing and its reopening. */
  function Gap(closing: Date, reopening: Date): Window { Window(Some(closing + 1), Some(reopening - 1)) }

  lemma ClosingAndReopening(entries: seq<Entry>, i: nat)
    requires Chained(Boundaries(entries)) && 2 * i + 2 < |Boundaries(entries)|
    ensures var closing := Boundaries(entries)[2 * i + 1];
            closing in entries && closing.source == PatrimonialClosing
            && closing.date < Boundaries(entries)[2 * i + 2].date
  {
    BoundariesAre(entries);
    assert Boundaries(entries)[2 * i + 1] in Boundaries(entries);
  }

  lemma NetSinceGap(entries: seq<Entry>, closing: Entry, reopening: Date, until: Date, sel: AccountId -> bool)
    requires Zeroed(entries) && closing in entries && closing.source == PatrimonialClosing
    requires closing.date < reopening <= until
    ensures Net(LinesIn(entries, UpTo(until)), sel)
         == Net(LinesIn(entries, Turnovers.Between(reopening, until)), sel)
            + Net(LinesIn(entries, Gap(closing.date, reopening)), sel)
  {
    NetSinceZero(entries, closing, until, sel);
    NetSplit(entries, After(closing.date, until), Gap(closing.date, reopening),
             Turnovers.Between(reopening, until), sel);
  }

  // Loaded balances against the trial balance.

  /** The dates before an exercise that no closing has taken to zero: those since the closing before it, or for the first
      exercise all of them. */
  function Unreported(xs: seq<Exercise>, active: Exercise): Window {
    var since := if 2 <= active.index <= |xs| + 1 then xs[active.index - 2].closing else None;
    Window(if since.Some? then Some(since.value + 1) else None, Some(active.start - 1))
  }

  /** The context of a report over the exercises of some books. */
  function ContextIn(b: Books, from: Option<Date>, until: Date): Context
    requires LogicalExercises(b).Ok?
  {
    ResolveContext(LogicalExercises(b).value, from, until)
  }

  /** What the k-th exercise leaves out. */
  lemma UnreportedIs(bs: seq<Entry>, snapshots: seq<Snapshot>, k: nat)
    requires 2 * k < |bs|
    ensures var xs := ExercisesOf(bs, snapshots);
            Unreported(xs, xs[k]) == BeforeStart(bs, k)
  {
    var xs := ExercisesOf(bs, snapshots);
    assert xs[k] == ExerciseAt(bs, snapshots, k);
    if k > 0 {
      assert xs[k - 1] == ExerciseAt(bs, snapshots, k - 1);
    }
  }

  lemma ActiveExercise(xs: seq<Exercise>, from: Option<Date>, until: Date) returns (k: nat)
    requires InOrder(xs) && ResolveContext(xs, from, until).active.Some?
    ensures k < |xs| && ResolveContext(xs, from, until).active == Some(xs[k]) && xs[k].start <= until
    ensures Computed(ResolveContext(xs, from, until)) == Turnovers.Between(xs[k].start, until)
  {
    var lo, hi := ActiveIsLatest(xs, from, until);
    k := hi - 1;
    assert Intersects(xs[k], Requested(xs, from), until);
  }

  /** An active exercise, and the closing before it, among the boundaries of the journal. */
  lemma ActiveBoundaries(b: Books, from: Option<Date>, until: Date) returns (k: nat)
    requires Inv(b) && LogicalExercises(b).Ok? && ContextIn(b, from, until).active.Some?
    ensures 2 * k < |Boundaries(b.entries)| && Boundaries(b.entries)[2 * k].date <= until
    ensures Computed(ContextIn(b, from, until)) == Turnovers.Between(Boundaries(b.entries)[2 * k].date, until)
    ensures Unreported(LogicalExercises(b).value, ContextIn(b, from, until).active.value)
         == BeforeStart(Boundaries(b.entries), k)
  {
    ExercisesOfSoundBooks(b);
    hide Inv, Unreported, ResolveContext, Computed;
    k := ActiveExercise(LogicalExercises(b).value, from, until);
    assert ExercisesOf(Boundaries(b.entries), b.snapshots)[k] == ExerciseAt(Boundaries(b.entries), b.snapshots, k);
    UnreportedIs(Boundaries(b.entries), b.snapshots, k);
  }

  /** The dates before the k-th exercise of some boundaries that no closing has taken to zero. */
  function BeforeStart(bs: seq<Entry>, k: nat): Window
    requires 2 * k < |bs|
  {
    if k == 0 then UpTo(bs[0].date - 1) else Gap(bs[2 * k - 1].date, bs[2 * k].date)
  }

  lemma NetFromOpening(entries: seq<Entry>, start: Date, until: Date, sel: AccountId -> bool)
    requires start <= until
    ensures Net(LinesIn(entries, UpTo(until)), sel)
         == Net(LinesIn(entries, Turnovers.Between(start, until)), sel) + Net(LinesIn(entries, UpTo(start - 1)), sel)
  {
    NetSplit(entries, UpTo(until), UpTo(start - 1), Turnovers.Between(start, until), sel);
  }

  lemma NetSinceReopening(entries: seq<Entry>, k: nat, until: Date, sel: AccountId -> bool)
    requires Zeroed(entries) && Chained(Boundaries(entries)) && 0 < k && 2 * k < |Boundaries(entries)|
    requires Boundaries(entries)[2 * k].date <= until
    ensures Net(LinesIn(entries, UpTo(until)), sel)
         == Net(LinesIn(entries, Turnovers.Between(Boundaries(entries)[2 * k].date, until)), sel)
            + Net(LinesIn(entries, Gap(Boundaries(entries)[2 * k - 1].date, Boundaries(entries)[2 * k].date)), sel)
  {
    ClosingAndReopening(entries, k - 1);
    hide Zeroed, Chained, Boundaries, Net, LinesIn;
    NetSinceGap(entries, Boundaries(entries)[2 * k - 1], Boundaries(entries)[2 * k].date, until, sel);
  }

  lemma NetSinceStart(entries: seq<Entry>, k: nat, until: Date, sel: AccountId -> bool)
    requires Zeroed(entries) && Chained(Boundaries(entries)) && 2 * k < |Boundaries(entries)|
    requires Boundaries(entries)[2 * k].date <= until
    ensures Net(LinesIn(entries, UpTo(until)), sel)
         == Net(LinesIn(entries, Turnovers.Between(Boundaries(entries)[2 * k].date, until)), sel)
            + Net(LinesIn(entries, BeforeStart(Boundaries(entries), k)), sel)
  {
    hide Zeroed, Chained, Boundaries, Net, LinesIn;
    if k == 0 {
      NetFromOpening(entries, Boundaries(entries)[0].date, until, sel);
    } else {
      NetSinceReopening(entries, k, until, sel);
    }
  }

  lemma InvParts(b: Books)
    requires Inv(b)
    ensures JournalOk(b) && Zeroed(b.entries) && Chained(Boundaries(b.entries))
  {
  }

  lemma RowsNet(b: Books, c: Context, id: AccountId)
    requires JournalOk(b)
    ensures SumNet(TrialBalance.RowsOf(b, c), OfAccount(id)) == Net(LinesIn(b.entries, Computed(c)), Only(id))
  {
    WindowTurnover(b, Computed(c), Debit, id);
    WindowTurnover(b, Computed(c), Credit, id);
  }

  lemma LoadedAccountNet(b: Books, until: Date, id: AccountId)
    requires JournalOk(b)
    ensures SumNet(LoadNodes(b, until), OfAccount(id)) == Net(LinesIn(b.entries, UpTo(until)), Only(id))
  {
    ReloadTurnover(b, until, Debit, id);
    ReloadTurnover(b, until, Credit, id);
  }

  /** The whole-history balances a closing loads, against the trial balance of any request with an active exercise: per
      account they differ by exactly what is dated between the closing before that exercise and its reopening, or
      before the opening. */
  lemma LoadedMeetsTrial(b: Books, from: Option<Date>, until: Date, id: AccountId)
    requires Inv(b) && LogicalExercises(b).Ok? && ContextIn(b, from, until).active.Some?
    ensures var c := ContextIn(b, from, until);
            SumNet(LoadNodes(b, until), OfAccount(id))
            == SumNet(TrialBalance.RowsOf(b, c), OfAccount(id))
               + Net(LinesIn(b.entries, Unreported(LogicalExercises(b).value, c.active.value)), Only(id))
  {
    var k := ActiveBoundaries(b, from, until);
    InvParts(b);
    hide Inv, Zeroed, Chained, JournalOk, ContextIn, Unreported, Computed, BeforeStart;
    NetSinceStart(b.entries, k, until, Only(id));
    RowsNet(b, ContextIn(b, from, until), id);
    LoadedAccountNet(b, until, id);
  }

  /** So they agree, account by account, when nothing is dated there. */
  lemma LoadedIsTrial(b: Books, from: Option<Date>, until: Date, id: AccountId)
    requires Inv(b) && LogicalExercises(b).Ok? && ContextIn(b, from, until).active.Some?
    requires forall e :: e in b.entries ==>
               !Unreported(LogicalExercises(b).value, ContextIn(b, from, until).active.value).Has(e.date)
    ensures SumNet(LoadNodes(b, until), OfAccount(id))
         == SumNet(TrialBalance.RowsOf(b, ContextIn(b, from, until)), OfAccount(id))
  {
    LoadedMeetsTrial(b, from, until, id);
    NoLines(b.entries, Unreported(LogicalExercises(b).value, ContextIn(b, from, until).active.value));
  }

  // Frozen history.

  /** `after` continues `before`: entries are only added, all of them dated after the lock, which never moves back. */
  ghost predicate Continues(before: Books, after: Books) {
    && before.entries <= after.entries
    && (forall e :: e in after.entries[|before.entries|..] ==> !Closed(before.closedUntil, e.date))
    && (before.closedUntil.Some? ==> after.closedUntil.Some? && before.closedUntil.value <= after.closedUntil.value)
  }

  lemma ContinuesTransitive(a: Books, b: Books, c: Books)
    requires Continues(a, b) && Continues(b, c)
    ensures Continues(a, c)
  {
    forall e | e in c.entries[|a.entries|..] ensures !Closed(a.closedUntil, e.date) {
      var i :| |a.entries| <= i < |c.entries| && c.entries[i] == e;
      if i < |b.entries| {
        assert b.entries[i] == e && e in b.entries[|a.entries|..];
      } else {
        assert e in c.entries[|b.entries|..];
      }
    }
  }

  lemma OneMoreContinues(b: Books, after: Books, e: Entry)
    requires after.entries == b.entries + [e] && after.closedUntil == b.closedUntil && !Closed(b.closedUntil, e.date)
    ensures Continues(b, after)
  {
  }

  /** A closing moves the lock strictly forward, and posts nothing at or before the old one. */
  lemma CloseContinues(b: Books, req: Request)
    requires Inv(b) && Execute(b, req).Ok?
    ensures Continues(b, Execute(b, req).value)
    ensures Execute(b, req).value.closedUntil == Some(req.closing) && !Closed(b.closedUntil, req.closing)
  {
    var support, plan := ExecuteCloses(b, req);
    var after := Execute(b, req).value;
    ClosesContinues(b, req, support, plan, after);
  }

  lemma ClosesContinues(b: Books, req: Request, support: Index, plan: Plan, after: Books)
    requires Closes(b, req, support, plan, after)
    ensures Continues(b, after)
    ensures after.closedUntil == Some(req.closing) && !Closed(b.closedUntil, req.closing)
  {
    DraftDates(b, req, support, plan, after);
    DraftsContinue(b, support, plan.Drafts(), req.closing, after);
  }

  lemma DraftsAre(plan: Plan)
    ensures forall d :: d in plan.Drafts() ==> d in Early(plan) || d == plan.patrimonial || d == plan.reopening
  {
  }

  lemma SealingDates(b: Books, req: Request, support: Index, plan: Plan, after: Books)
    requires Closes(b, req, support, plan, after)
    ensures plan.patrimonial.date == req.closing && plan.reopening.date == req.reopening && req.closing < req.reopening
  {
  }

  lemma DraftDates(b: Books, req: Request, support: Index, plan: Plan, after: Books)
    requires Closes(b, req, support, plan, after)
    ensures forall d :: d in plan.Drafts() ==> d.date >= req.closing
  {
    EarlyPostable(b, req, support, plan, after);
    DraftsAre(plan);
    SealingDates(b, req, support, plan, after);
  }

  lemma DraftsContinue(b: Books, support: Index, drafts: seq<Draft>, closing: Date, after: Books)
    requires !Closed(b.closedUntil, closing) && forall d :: d in drafts ==> d.date >= closing
    requires after.entries == b.entries + Posted(support, drafts, LastNumber(b.entries))
    requires after.closedUntil == Some(closing)
    ensures Continues(b, after)
  {
    forall e | e in after.entries[|b.entries|..] ensures !Closed(b.closedUntil, e.date) {
      var d := PostedEntry(support, drafts, LastNumber(b.entries), e);
    }
  }

  lemma OpenShape(b: Books, payload: Payload) returns (e: Entry)
    requires Inv(b) && Open(b, payload).Ok?
    ensures Open(b, payload).value.entries == b.entries + [e] && !Closed(b.closedUntil, e.date)
    ensures Open(b, payload).value.closedUntil == b.closedUntil
  {
    var (ready, ids) := Resolve(b, OpeningSpecs(payload)).value;
    PostShape(ready, payload.date, Opening, OpeningLines(ids, payload));
    e := Entry(1, payload.date, Opening, OpeningLines(ids, payload), None);
  }

  lemma OpenContinues(b: Books, payload: Payload)
    requires Inv(b) && Open(b, payload).Ok?
    ensures Continues(b, Open(b, payload).value)
  {
    var e := OpenShape(b, payload);
    OneMoreContinues(b, Open(b, payload).value, e);
  }

  lemma NextContinues(b: Books, s: Step)
    requires Inv(b)
    ensures Continues(b, Next(b, s))
  {
    if Attempt(b, s).Ok? {
      match s
      case OpenCompany(payload) => OpenContinues(b, payload);
      case PostManually(date, source, lines) =>
        PostShape(b, date, source, lines);
        OneMoreContinues(b, Next(b, s), Entry(|b.entries| + 1, date, source, lines, None));
      case ReverseEntry(number, date) =>
        ReverseShape(b, number, date);
        OneMoreContinues(b, Next(b, s),
                         Entry(|b.entries| + 1, date, Other, Swapped(b.entries[number - 1].lines), Some(number)));
      case ResolveAccounts(specs) =>
      case AddAccount(account) =>
      case Close(req) => CloseContinues(b, req);
    }
  }

  lemma {:induction false} RunContinues(b: Books, steps: seq<Step>)
    requires Inv(b)
    ensures Continues(b, Run(b, steps))
  {
    if steps != [] {
      var n := |steps| - 1;
      RunContinues(b, steps[..n]);
      RunKeeps(b, steps[..n]);
      NextContinues(Run(b, steps[..n]), steps[n]);
      ContinuesTransitive(b, Run(b, steps[..n]), Run(b, steps));
    }
  }

  /** History up to the lock is frozen: whatever happens later, the lines up to any date at or before
      `books_closed_until` stay the same, and so does every net over them. */
  lemma FrozenHistory(b: Books, steps: seq<Step>, until: Date)
    requires Inv(b) && Closed(b.closedUntil, until)
    ensures b.entries <= Run(b, steps).entries
    ensures LinesIn(Run(b, steps).entries, UpTo(until)) == LinesIn(b.entries, UpTo(until))
  {
    RunContinues(b, steps);
    var after := Run(b, steps).entries;
    var more := after[|b.entries|..];
    assert after == b.entries + more;
    LaterLinesHidden(b.entries, more, until);
  }

  /** Every closing of a run moves the lock strictly forward. */
  lemma LockAdvances(b: Books, req: Request, steps: seq<Step>)
    requires Inv(b) && Execute(b, req).Ok?
    ensures b.closedUntil.Some? ==> b.closedUntil.value < req.closing
    ensures var later := Run(Execute(b, req).value, steps);
            later.closedUntil.Some? && later.closedUntil.value >= req.closing
  {
    CloseContinues(b, req);
    CloseKeeps(b, req);
    RunContinues(Execute(b, req).value, steps);
  }

  // Journal invariants.

  /** In any run the entries are numbered 1, 2, 3 and so on, and each of them balances, on both sides, over
      movement accounts of the company; reversals too, although they are posted without validation. */
  lemma ReachableJournal(start: Books, steps: seq<Step>, i: nat)
    requires Fresh(start) && i < |Run(start, steps).entries|
    ensures var b := Run(start, steps);
            && b.entries[i].number == i + 1
            && Postable(b.accounts, b.entries[i].lines)
            && (b.entries[i].source == Opening <==> i == 0)
  {
    FreshInv(start);
    RunKeeps(start, steps);
    assert Run(start, steps).entries[i] in Run(start, steps).entries;
  }

  /** A reversal cancels the entry it reverses, account by account. */
  lemma ReversalCancels(b: Books, i: nat, sel: AccountId -> bool)
    requires Inv(b) && i < |b.entries| && b.entries[i].reversalOf.Some?
    ensures var k := b.entries[i].reversalOf.value;
            && IsEntry(b.entries, k) && Find(b.entries, k).number < b.entries[i].number
            && Net(Find(b.entries, k).lines, sel) + Net(b.entries[i].lines, sel) == 0
            && forall j :: 0 <= j < |b.entries| && j != i ==> b.entries[j].reversalOf != Some(k)
  {
    var k := b.entries[i].reversalOf.value;
    var original := b.entries[k - 1];
    assert original in b.entries && original.number == k;
    FindNumbered(b.entries, k);
    SwappedTurnover(original.lines, Debit, sel);
    SwappedTurnover(original.lines, Credit, sel);
  }

  /** Reversing a reversal gives the original lines back, and its net effect. */
  lemma ReversingAReversal(b: Books, i: nat, j: nat)
    requires Inv(b) && i < |b.entries| && j < |b.entries|
    requires b.entries[i].reversalOf.Some? && b.entries[j].reversalOf == Some(b.entries[i].number)
    ensures b.entries[j].lines == b.entries[b.entries[i].reversalOf.value - 1].lines
  {
    SwappedTwice(b.entries[b.entries[i].reversalOf.value - 1].lines);
  }

  lemma FindNumbered(entries: seq<Entry>, number: nat)
    requires Numbered(entries) && 1 <= number <= |entries|
    ensures IsEntry(entries, number) && Find(entries, number) == entries[number - 1]
  {
    assert entries[number - 1] in entries;
    var found := Find(entries, number);
    var k :| 0 <= k < |entries| && entries[k] == found;
  }

  /** What the users post themselves: everything but the entries of openings and closings. */
  predicate Ordinary(source: SourceType) { source == Manual || source == Invoice || source == Receipt || source == Other }

  /** In sound books an entry can be reversed exactly when it exists, is an ordinary one, nothing reverses it yet and the
      books are open on the date. */
  lemma ReverseIff(b: Books, number: nat, date: Date)
    requires Inv(b)
    ensures Reverse(b, number, date).Ok? <==>
              && 1 <= number <= |b.entries| && Ordinary(b.entries[number - 1].source)
              && (forall e :: e in b.entries ==> e.reversalOf != Some(number)) && !Closed(b.closedUntil, date)
  {
    if Reverse(b, number, date).Ok? {
      ReverseShape(b, number, date);
    } else if 1 <= number <= |b.entries| {
      FindNumbered(b.entries, number);
      OpenedIff(b.entries);
      assert b.entries[number - 1] in b.entries;
    }
  }

  /** And an entry can be posted by hand exactly when it is an ordinary one, after the opening, on a date open in the books,
      of postable lines. */
  lemma PostByHandIff(b: Books, date: Date, source: SourceType, lines: seq<Line>)
    requires Inv(b)
    ensures Attempt(b, PostManually(date, source, lines)).Ok? <==>
              && Ordinary(source) && b.entries != [] && !Closed(b.closedUntil, date) && Postable(b.accounts, lines)
    ensures !Ordinary(source) ==> Attempt(b, PostManually(date, source, lines)) == Err(ReservedSourceType)
  {
    hide Inv, Postable, Post, HasOpening;
    PostErrors(b, date, source, lines);
  }

  /** An entry that has been reversed is not reversed again, on any date. */
  lemma ReversedOnce(b: Books, i: nat, number: nat, date: Date)
    requires Inv(b) && i < |b.entries| && b.entries[i].reversalOf == Some(number)
    ensures Reverse(b, number, date).Err?
    ensures Ordinary(b.entries[number - 1].source) ==> Reverse(b, number, date) == Err(AlreadyReversed)
  {
    hide Inv;
    ReversalTarget(b, i);
    FindNumbered(b.entries, number);
    SoundOpened(b);
    assert b.entries[i] in b.entries;
  }

  lemma ReversalTarget(b: Books, i: nat)
    requires Inv(b) && i < |b.entries| && b.entries[i].reversalOf.Some?
    ensures Numbered(b.entries) && 1 <= b.entries[i].reversalOf.value <= |b.entries|
  {
  }
}
