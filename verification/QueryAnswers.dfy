/** What a report that is read answers, in terms of what was asked. */
module QueryAnswers {
  import opened Basics
  import opened Model
  import opened Turnovers
  import opened Exercises
  import opened Balances
  import opened ReportQueries
  import opened ClosingTheorems
  import opened Runs
  import opened ReportCache
  import opened ReportContents
  import JournalBook
  import Ledger
  import TrialBalance

  /** The exercises of some books. */
  function ExercisesIn(b: Books): seq<Exercise>
    requires LogicalExercises(b).Ok?
  {
    LogicalExercises(b).value
  }

  // Each query reads its own report, over its own dates.

  lemma BookRead(b: Books, items: Items, from: Option<Date>, until: Date)
    requires Inv(b) && Coherent(b, items)
    ensures LogicalExercises(b).Ok?
    ensures ReadReport(b, items, BookQuery(from, until)).0
         == Ok(BookReport(JournalBook.BookOf(b, ResolveContext(ExercisesIn(b), from, until))))
  {
    ExercisesOfSoundBooks(b);
    ReadKeeps(b, items, BookQuery(from, until));
  }

  lemma TrialRead(b: Books, items: Items, from: Option<Date>, until: Date)
    requires Inv(b) && Coherent(b, items)
    ensures LogicalExercises(b).Ok?
    ensures var c := ResolveContext(ExercisesIn(b), from, until);
            ReadReport(b, items, TrialQuery(from, until)).0
            == Ok(TrialReport(TrialBalance.TrialOf(TrialBalance.RowsOf(b, c))))
  {
    ExercisesOfSoundBooks(b);
    ReadKeeps(b, items, TrialQuery(from, until));
  }

  lemma LedgerRead(b: Books, items: Items, from: Option<Date>, until: Date, account: Option<AccountId>)
    requires Inv(b) && Coherent(b, items)
    ensures LogicalExercises(b).Ok?
    ensures var c := ResolveContext(ExercisesIn(b), from, until);
            ReadReport(b, items, LedgerQuery(from, until, account)).0
            == match Ledger.LedgerOf(b, c, account)
               case Ok(cards) => Ok(LedgerReport(cards))
               case Err(error) => Err(error)
  {
    ExercisesOfSoundBooks(b);
    ReadKeeps(b, items, LedgerQuery(from, until, account));
  }

  // The dates a report shows.

  /** A date from the start asked for, or from that of the first exercise, to the end asked for. */
  predicate Asked(xs: seq<Exercise>, from: Option<Date>, until: Date, d: Date) {
    && (from.Some? ==> from.value <= d) && d <= until
    && (from.None? && xs != [] ==> xs[0].start <= d)
  }

  /** A date that is asked for and, if an exercise is active, not before it starts. */
  predicate Shown(xs: seq<Exercise>, from: Option<Date>, until: Date, d: Date) {
    var active := ResolveContext(xs, from, until).active;
    Asked(xs, from, until, d) && (active.Some? ==> active.value.start <= d)
  }

  lemma VisibleIsShown(xs: seq<Exercise>, from: Option<Date>, until: Date)
    ensures forall d :: Visible(ResolveContext(xs, from, until)).Has(d) <==> Shown(xs, from, until, d)
  {
    var m := ReportWindow(xs, from, until);
  }

  /** Where a trial balance computes: from the start of the active exercise, or without one from the start asked for. */
  predicate Summed(xs: seq<Exercise>, from: Option<Date>, until: Date, d: Date) {
    var active := ResolveContext(xs, from, until).active;
    if active.Some? then active.value.start <= d <= until else Asked(xs, from, until, d)
  }

  lemma ComputedIsSummed(xs: seq<Exercise>, from: Option<Date>, until: Date)
    ensures forall d :: Computed(ResolveContext(xs, from, until)).Has(d) <==> Summed(xs, from, until, d)
  {
    var m := ReportWindow(xs, from, until);
  }

  /** What a ledger brings forward: dates of the active exercise before the start asked for. */
  predicate BroughtIn(xs: seq<Exercise>, from: Option<Date>, until: Date, d: Date) {
    var active := ResolveContext(xs, from, until).active;
    active.Some? && active.value.start <= d && (if from.Some? then d < from.value else xs != [] && d < xs[0].start)
  }

  /** The account's signed net over the dates brought forward. */
  ghost predicate BringsForward(xs: seq<Exercise>, b: Books, from: Option<Date>, until: Date, id: AccountId, opening: int) {
    id < |b.accounts|
    && exists w: Window ::
         (forall d :: w.Has(d) <==> BroughtIn(xs, from, until, d))
         && opening == Signed(b.accounts[id].parent.root, Net(LinesIn(b.entries, w), Only(id)))
  }

  lemma OpeningBringsForward(xs: seq<Exercise>, b: Books, from: Option<Date>, until: Date, id: AccountId)
    requires id < |b.accounts|
    ensures BringsForward(xs, b, from, until, id, BroughtForward(b, ResolveContext(xs, from, until), id))
  {
    var m := ReportWindow(xs, from, until);
    var c := ResolveContext(xs, from, until);
    if c.visibleFrom.Some? {
      var w := Window(c.computedFrom, Some(c.visibleFrom.value - 1));
      assert forall d :: w.Has(d) <==> BroughtIn(xs, from, until, d);
    } else {
      var w := Window(Some(1), Some(0));
      NoLines(b.entries, w);
      assert forall d :: w.Has(d) <==> BroughtIn(xs, from, until, d);
    }
  }

  // What is answered.

  /** A journal book answers a request: it prints entries of the journal, in order, all of them dated as asked and none before
      the active exercise, and every entry dated so is printed. */
  ghost predicate BookAnswers(xs: seq<Exercise>, b: Books, from: Option<Date>, until: Date, book: JournalBook.Book) {
    exists es :: ShownEntries(xs, es, b, from, until) && IsBookOf(book, es)
  }

  /** Entries in order: exactly those of the journal dated as shown. */
  ghost predicate ShownEntries(xs: seq<Exercise>, es: seq<Entry>, b: Books, from: Option<Date>, until: Date) {
    && (forall i, j :: 0 <= i < j < |es| ==> ReportContents.Before(es[i].date, es[i].number, es[j].date, es[j].number))
    && (forall e :: multiset(es)[e] == if Shown(xs, from, until, e.date) then multiset(b.entries)[e] else 0)
  }

  lemma ShowsAsAsked(xs: seq<Exercise>, es: seq<Entry>, b: Books, from: Option<Date>, until: Date)
    requires Shows(es, b.entries, Visible(ResolveContext(xs, from, until)))
    ensures ShownEntries(xs, es, b, from, until)
  {
    VisibleIsShown(xs, from, until);
    hide Visible, ResolveContext, Shown, ReportContents.Before;
  }

  lemma BookIsAnswer(xs: seq<Exercise>, b: Books, from: Option<Date>, until: Date)
    ensures BookAnswers(xs, b, from, until, JournalBook.BookOf(b, ResolveContext(xs, from, until)))
  {
    var es := BookContents(b, ResolveContext(xs, from, until));
    hide ResolveContext, JournalBook.BookOf, IsBookOf, ShownEntries, Shows, Visible;
    ShowsAsAsked(xs, es, b, from, until);
  }

  /** So nothing is printed that was not asked for, and nothing left out that was. */
  lemma BookHolds(xs: seq<Exercise>, b: Books, from: Option<Date>, until: Date, book: JournalBook.Book)
    requires BookAnswers(xs, b, from, until, book)
    ensures forall x :: x in book.entries ==> (from.Some? ==> from.value <= x.date) && x.date <= until
    ensures forall e :: e in b.entries && Shown(xs, from, until, e.date) ==> exists x :: x in book.entries && Prints(e, x)
  {
    var es: seq<Entry> :| ShownEntries(xs, es, b, from, until) && IsBookOf(book, es);
    forall x | x in book.entries ensures (from.Some? ==> from.value <= x.date) && x.date <= until {
      var k :| 0 <= k < |book.entries| && book.entries[k] == x;
      assert Prints(es[k], x) && multiset(es)[es[k]] > 0;
      assert Shown(xs, from, until, es[k].date);
    }
    forall e | e in b.entries && Shown(xs, from, until, e.date) ensures exists x :: x in book.entries && Prints(e, x) {
      assert multiset(b.entries)[e] > 0 && multiset(es)[e] > 0 && e in es;
      var k :| 0 <= k < |es| && es[k] == e;
      assert Prints(e, book.entries[k]) && book.entries[k] in book.entries;
    }
  }

  /** A card answers a request: it opens with what it brings forward, and moves with the lines on its account in the entries
      shown. */
  ghost predicate CardAnswers(xs: seq<Exercise>, b: Books, from: Option<Date>, until: Date, card: Ledger.AccountCard) {
    && card.id < |b.accounts| && BringsForward(xs, b, from, until, card.id, card.opening)
    && exists es :: ShownEntries(xs, es, b, from, until) && IsCardOf(card, b.accounts[card.id].parent.root, es)
  }

  lemma CardIsAnswer(xs: seq<Exercise>, b: Books, from: Option<Date>, until: Date, id: AccountId)
    requires id < |b.accounts|
    ensures CardAnswers(xs, b, from, until, Ledger.CardOf(b, ResolveContext(xs, from, until), id))
  {
    var es := CardContents(b, ResolveContext(xs, from, until), id);
    OpeningBringsForward(xs, b, from, until, id);
    hide ResolveContext, Ledger.CardOf, IsCardOf, ShownEntries, Shows, Visible, BroughtForward, BringsForward;
    ShowsAsAsked(xs, es, b, from, until);
  }

  /** A ledger answers a request: the cards of all the company's accounts by code, or that of the account asked for. */
  ghost predicate LedgerAnswers(xs: seq<Exercise>, b: Books, from: Option<Date>, until: Date, account: Option<AccountId>,
                                cards: seq<Ledger.AccountCard>)
  {
    && (forall card :: card in cards ==> CardAnswers(xs, b, from, until, card))
    && Ordered(b.accounts, CardIds(cards))
    && (forall id: AccountId :: id in CardIds(cards) <==>
          id < |b.accounts| && b.accounts[id].owner == ThisCompany && (account.Some? ==> id == account.value))
  }

  /** An account that is not the company's. */
  predicate Foreign(b: Books, account: Option<AccountId>) {
    account.Some? && !(account.value < |b.accounts| && b.accounts[account.value].owner == ThisCompany)
  }

  lemma LedgerIsAnswer(xs: seq<Exercise>, b: Books, from: Option<Date>, until: Date, account: Option<AccountId>)
    ensures var r := Ledger.LedgerOf(b, ResolveContext(xs, from, until), account);
            if Foreign(b, account) then r == Err(UnknownAccount)
            else r.Ok? && LedgerAnswers(xs, b, from, until, account, r.value)
  {
    var c := ResolveContext(xs, from, until);
    LedgerContents(b, c, account);
    hide ResolveContext, Ledger.LedgerOf, CardAnswers, CodeOrder, Ledger.CardOf;
    var r := Ledger.LedgerOf(b, c, account);
    if r.Ok? {
      forall card | card in r.value ensures CardAnswers(xs, b, from, until, card) {
        CardIsAnswer(xs, b, from, until, card.id);
      }
    }
  }

  /** A trial balance answers a request: its rows and groups fit the window it sums, which has exactly the dates it should. */
  ghost predicate TrialAnswers(xs: seq<Exercise>, b: Books, from: Option<Date>, until: Date, t: TrialBalance.Trial) {
    exists w: Window :: (forall d :: w.Has(d) <==> Summed(xs, from, until, d)) && TrialOver(b, w, t)
  }

  ghost predicate TrialOver(b: Books, w: Window, t: TrialBalance.Trial) {
    && (forall g :: g in t.groups ==> GroupFits(b, w, g))
    && (forall i, j :: 0 <= i < j < |t.groups| ==> CodeBefore(t.groups[i].parent, t.groups[j].parent))
    && (forall l :: l in LinesIn(b.entries, w) ==> exists i, j :: RowAt(t, l.account, i, j))
    && (forall id, i, j, k, l :: RowAt(t, id, i, j) && RowAt(t, id, k, l) ==> i == k && j == l)
  }

  lemma TrialIsAnswer(xs: seq<Exercise>, b: Books, from: Option<Date>, until: Date)
    requires JournalOk(b)
    ensures TrialAnswers(xs, b, from, until,
                         TrialBalance.TrialOf(TrialBalance.RowsOf(b, ResolveContext(xs, from, until))))
  {
    var c := ResolveContext(xs, from, until);
    ComputedIsSummed(xs, from, until);
    hide ResolveContext, TrialBalance.TrialOf, TrialBalance.RowsOf, Summed, RowAt, GroupFits, JournalOk;
    TrialContents(b, c);
    assert TrialOver(b, Computed(c), TrialBalance.TrialOf(TrialBalance.RowsOf(b, c)));
  }

  // After any run.

  /** The answer to a request for a report fits the request. */
  ghost predicate Answers(xs: seq<Exercise>, b: Books, q: Query, r: Result<Report>) {
    match q
    case BookQuery(from, until) => r.Ok? && r.value.BookReport? && BookAnswers(xs, b, from, until, r.value.book)
    case TrialQuery(from, until) => r.Ok? && r.value.TrialReport? && TrialAnswers(xs, b, from, until, r.value.trial)
    case LedgerQuery(from, until, account) =>
      if Foreign(b, account) then r == Err(UnknownAccount)
      else r.Ok? && r.value.LedgerReport? && LedgerAnswers(xs, b, from, until, account, r.value.cards)
  }

  lemma ReadAnswers(b: Books, items: Items, q: Query)
    requires Inv(b) && Coherent(b, items)
    ensures LogicalExercises(b).Ok? && Answers(ExercisesIn(b), b, q, ReadReport(b, items, q).0)
  {
    ExercisesOfSoundBooks(b);
    hide Coherent, LogicalExercises, ReadReport, BookAnswers, LedgerAnswers, TrialAnswers, Ledger.LedgerOf;
    match q
    case BookQuery(from, until) =>
      BookRead(b, items, from, until);
      BookIsAnswer(ExercisesIn(b), b, from, until);
    case TrialQuery(from, until) =>
      TrialRead(b, items, from, until);
      TrialIsAnswer(ExercisesIn(b), b, from, until);
    case LedgerQuery(from, until, account) =>
      LedgerRead(b, items, from, until, account);
      LedgerIsAnswer(ExercisesIn(b), b, from, until, account);
  }

  /** Whatever has been written, read and evicted since the company was created, as long as the writes bump and the version
      is not lost, a report that is read answers what was asked: over its own dates, and for its own account. */
  lemma EveryReadAnswers(start: Books, events: seq<Event>, q: Query)
    requires Fresh(start) && AdmissibleRun(System(start, map[]), events)
    ensures var s := RunSystem(System(start, map[]), events);
            LogicalExercises(s.books).Ok? && Answers(ExercisesIn(s.books), s.books, q, ReadReport(s.books, s.items, q).0)
  {
    FreshInv(start);
    SystemKeeps(System(start, map[]), events);
    var s := RunSystem(System(start, map[]), events);
    ReadAnswers(s.books, s.items, q);
  }
}
