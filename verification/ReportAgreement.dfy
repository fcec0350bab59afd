/** The three reports compute the same money three ways. */
module ReportAgreement {
  import opened Basics
  import opened Sorting
  import opened Model
  import opened Turnovers
  import opened Journal
  import opened Exercises
  import opened Balances
  import opened ReportQueries
  import opened ClosingTheorems
  import JournalBook
  import Ledger
  import opened TrialBalance

  // Ledger and trial balance.

  /** A context that starts showing no earlier than it computes. */
  predicate Nested(c: Context) {
    match (c.computedFrom, c.visibleFrom)
    case (None, None) => true
    case (Some(computed), Some(visible)) => computed <= visible
    case _ => false
  }

  lemma ContextsNested(xs: seq<Exercise>, from: Option<Date>, until: Date)
    ensures Nested(ResolveContext(xs, from, until))
  {
  }

  /** The signed net of an account over a window, on the account's normal side. */
  function SignedNet(b: Books, w: Window, id: AccountId): int
    requires id < |b.accounts|
  {
    var lines := LinesIn(b.entries, w);
    Ledger.Delta(b.accounts[id].parent.root, Turnover(lines, Debit, Only(id)), Turnover(lines, Credit, Only(id)))
  }

  /** A trial-balance row carries the turnovers of its account over the computed window. */
  lemma {:induction false} RowTotals(ids: seq<AccountId>, accounts: seq<Account>, lines: seq<Line>, n: BalanceNode)
    requires n in NodesFor(ids, accounts, lines)
    ensures n.ref.id.Some? && n.ref.id.value < |accounts| && n.ref == RefOf(accounts, n.ref.id.value)
    ensures n.debit == Turnover(lines, Debit, Only(n.ref.id.value))
    ensures n.credit == Turnover(lines, Credit, Only(n.ref.id.value))
  {
    var k := |ids| - 1;
    if n in NodesFor(ids[..k], accounts, lines) {
      RowTotals(ids[..k], accounts, lines, n);
    }
  }

  /** Dates after the end of a report and before the start of what it shows: none for a sensible request. */
  function Excess(c: Context): Window
    requires c.visibleFrom.Some?
  {
    Window(Some(c.until + 1), Some(c.visibleFrom.value - 1))
  }

  lemma NoDates(entries: seq<Entry>, w: Window)
    requires w.from.Some? && w.until.Some? && w.until.value < w.from.value
    ensures LinesIn(entries, w) == []
  {
    NoLines(entries, w);
  }

  /** For a range that does not start after its end, the ledger closing balance of an account is its signed
      trial-balance net. */
  lemma LedgerMeetsTrial(b: Books, c: Context, id: AccountId)
    requires id < |b.accounts| && Nested(c)
    requires c.visibleFrom.Some? ==> c.visibleFrom.value <= c.until + 1
    ensures Ledger.CardOf(b, c, id).closing == SignedNet(b, Computed(c), id)
  {
    if c.visibleFrom.Some? {
      WindowSplit(b.entries, Computed(c), Ledger.OpeningWindow(c), Visible(c), Debit, Only(id));
      WindowSplit(b.entries, Computed(c), Ledger.OpeningWindow(c), Visible(c), Credit, Only(id));
    }
  }

  /** For a range that starts after its end, when an exercise is active, the two differ by exactly what the ledger
      brings forward from dates after the end. */
  lemma LedgerExcess(b: Books, c: Context, id: AccountId)
    requires id < |b.accounts| && Nested(c) && c.visibleFrom.Some?
    requires c.until + 1 < c.visibleFrom.value && c.computedFrom.value <= c.until + 1
    ensures Ledger.CardOf(b, c, id).closing == SignedNet(b, Computed(c), id) + SignedNet(b, Excess(c), id)
  {
    NoDates(b.entries, Visible(c));
    WindowSplit(b.entries, Ledger.OpeningWindow(c), Computed(c), Excess(c), Debit, Only(id));
    WindowSplit(b.entries, Ledger.OpeningWindow(c), Computed(c), Excess(c), Credit, Only(id));
  }

  /** Without an active exercise the two agree for every range. */
  lemma LedgerWithoutActive(b: Books, c: Context, id: AccountId)
    requires id < |b.accounts| && c.visibleFrom == c.computedFrom
    ensures Ledger.CardOf(b, c, id).closing == SignedNet(b, Computed(c), id)
  {
    if c.visibleFrom.Some? {
      NoDates(b.entries, Ledger.OpeningWindow(c));
    }
  }

  /** A range whose start does not come after its end resolves to a context the agreement covers. */
  lemma OrderedRange(xs: seq<Exercise>, from: Option<Date>, until: Date)
    requires InOrder(xs) && xs != [] && Requested(xs, from) <= until
    ensures ResolveContext(xs, from, until).visibleFrom.Some?
    ensures ResolveContext(xs, from, until).visibleFrom.value <= until
  {
    if ResolveContext(xs, from, until).active.Some? {
      var lo, hi := ActiveIsLatest(xs, from, until);
    }
  }

  /** For any range whose start does not come after its end, over exercises in order, the card of an account closes at
      the signed net of its trial-balance row. */
  lemma ReportsAgree(b: Books, xs: seq<Exercise>, from: Option<Date>, until: Date, n: BalanceNode)
    requires InOrder(xs) && (xs != [] ==> Requested(xs, from) <= until)
    requires xs == [] && from.Some? ==> from.value <= until
    requires n in RowsOf(b, ResolveContext(xs, from, until))
    ensures n.ref.id.Some? && n.ref.id.value < |b.accounts|
    ensures Ledger.CardOf(b, ResolveContext(xs, from, until), n.ref.id.value).closing
         == Ledger.Delta(n.ref.parent.root, n.debit, n.credit)
  {
    var c := ResolveContext(xs, from, until);
    RowTotals(ByCode(b.accounts), b.accounts, LinesIn(b.entries, Computed(c)), n);
    ContextsNested(xs, from, until);
    if xs != [] {
      OrderedRange(xs, from, until);
    }
    LedgerMeetsTrial(b, c, n.ref.id.value);
  }

  // Ledger and journal book.

  function SumPeriod(cards: seq<Ledger.AccountCard>, side: Side): int {
    if cards == [] then 0
    else
      var n := |cards| - 1;
      SumPeriod(cards[..n], side) + if side == Debit then cards[n].periodDebit else cards[n].periodCredit
  }

  lemma {:induction false} CardsSum(b: Books, c: Context, ids: seq<AccountId>, side: Side)
    requires forall id :: id in ids ==> id < |b.accounts|
    ensures SumPeriod(Ledger.CardsOf(b, c, ids), side)
         == SumIds(ids, b.accounts, LinesIn(b.entries, Visible(c)), side, AnyRef())
  {
    if ids != [] {
      var n := |ids| - 1;
      assert forall id: AccountId :: id in ids[..n] ==> id in ids;
      CardsSum(b, c, ids[..n], side);
      assert Ledger.CardsOf(b, c, ids)[..n] == Ledger.CardsOf(b, c, ids[..n]);
      assert ids[n] in ids;
    }
  }

  lemma {:induction false} OwnedOnce(ids: seq<AccountId>, accounts: seq<Account>)
    requires forall i, j :: 0 <= i < j < |ids| ==> ids[i] != ids[j]
    ensures forall i, j :: 0 <= i < j < |Ledger.Owned(ids, accounts)| ==>
              Ledger.Owned(ids, accounts)[i] != Ledger.Owned(ids, accounts)[j]
  {
    if ids != [] {
      var n := |ids| - 1;
      OwnedOnce(ids[..n], accounts);
      Ledger.OwnedOnly(ids[..n], accounts);
      var before := Ledger.Owned(ids[..n], accounts);
      forall i | 0 <= i < |before| ensures before[i] != ids[n] {
        assert before[i] in before;
        var k :| 0 <= k < n && ids[..n][k] == before[i];
        assert ids[k] != ids[n];
      }
    }
  }

  /** The period totals of all the ledger's cards add up to the grand totals of the journal book. */
  lemma LedgerMeetsBook(b: Books, c: Context, side: Side)
    requires JournalOk(b)
    ensures Ledger.LedgerOf(b, c, None).Ok?
    ensures SumPeriod(Ledger.LedgerOf(b, c, None).value, side)
         == if side == Debit then JournalBook.BookOf(b, c).grandDebit else JournalBook.BookOf(b, c).grandCredit
  {
    var ids := Ledger.Owned(ByCode(b.accounts), b.accounts);
    var lines := LinesIn(b.entries, Visible(c));
    Ledger.OwnedOnly(ByCode(b.accounts), b.accounts);
    ByCodeOnce(b.accounts);
    OwnedOnce(ByCode(b.accounts), b.accounts);
    CardsSum(b, c, ids, side);
    LinesOwned(b, Visible(c));
    SumIdsIsTurnover(ids, b.accounts, lines, side, AnyRef());
    SameTurnover(lines, side, Seen(b.accounts, AnyRef()), Everything());
  }

  // The trial balance with itself and with the journal.

  function SubtotalSum(rows: seq<BalanceNode>, parents: seq<Code>, side: Side): int {
    if parents == [] then 0
    else SubtotalSum(rows, parents[..|parents| - 1], side) + Sum(rows, side, Under(parents[|parents| - 1]))
  }

  lemma {:induction false} SubtotalStep(rows: seq<BalanceNode>, parents: seq<Code>, side: Side)
    requires rows != [] && forall i, j :: 0 <= i < j < |parents| ==> parents[i] != parents[j]
    ensures var n := |rows| - 1;
            SubtotalSum(rows, parents, side)
            == SubtotalSum(rows[..n], parents, side)
               + if rows[n].ref.parent in parents then (if side == Debit then rows[n].debit else rows[n].credit) else 0
  {
    if parents != [] {
      var k := |parents| - 1;
      assert parents == parents[..k] + [parents[k]];
      SubtotalStep(rows, parents[..k], side);
    }
  }

  /** The subtotals of the colectivas add up to the grand total. */
  lemma {:induction false} SubtotalsAddUp(rows: seq<BalanceNode>, side: Side)
    ensures SubtotalSum(rows, Parents(rows), side) == Sum(rows, side, AnyRef())
  {
    if rows == [] {
    } else {
      var n := |rows| - 1;
      SubtotalsAddUp(rows[..n], side);
      ParentsCover(rows[..n]);
      SubtotalStep(rows, Parents(rows[..n]), side);
      if rows[n].ref.parent !in Parents(rows[..n]) {
        NoRowsUnder(rows[..n], rows[n].ref.parent, side);
        SubtotalOfOneMore(rows, Parents(rows[..n]), rows[n].ref.parent, side);
        SumLast(rows, side, Under(rows[n].ref.parent));
      }
      SumLast(rows, side, AnyRef());
    }
  }

  lemma SubtotalOfOneMore(rows: seq<BalanceNode>, parents: seq<Code>, p: Code, side: Side)
    ensures SubtotalSum(rows, parents + [p], side) == SubtotalSum(rows, parents, side) + Sum(rows, side, Under(p))
  {
    assert (parents + [p])[..|parents|] == parents;
  }

  lemma SumLast(rows: seq<BalanceNode>, side: Side, p: Selection)
    requires rows != []
    ensures var n := |rows| - 1;
            Sum(rows, side, p)
            == Sum(rows[..n], side, p) + if p(rows[n].ref) then (if side == Debit then rows[n].debit else rows[n].credit) else 0
  {
  }

  lemma {:induction false} SaldosDiffer(rows: seq<BalanceNode>, parents: seq<Code>)
    ensures Saldos(GroupsOf(rows, parents), Debit) - Saldos(GroupsOf(rows, parents), Credit)
         == SubtotalSum(rows, parents, Debit) - SubtotalSum(rows, parents, Credit)
  {
    if parents != [] {
      var k := |parents| - 1;
      SaldosDiffer(rows, parents[..k]);
      assert GroupsOf(rows, parents)[..k] == GroupsOf(rows, parents[..k]);
    }
  }

  /** What the groups show in a saldo column. */
  function Column(groups: seq<ReportGroup>, side: Side): int {
    if groups == [] then 0 else groups[0].saldo.On(side) + Column(groups[1..], side)
  }

  lemma {:induction false} ColumnConcat(a: seq<ReportGroup>, b: seq<ReportGroup>, side: Side)
    ensures Column(a + b, side) == Column(a, side) + Column(b, side)
  {
    if a == [] {
      assert a + b == b;
    } else {
      assert (a + b)[1..] == a[1..] + b;
      ColumnConcat(a[1..], b, side);
    }
  }

  lemma {:induction false} ColumnInsert(g: ReportGroup, groups: seq<ReportGroup>, side: Side)
    ensures Column(Insert(g, groups, GroupRank), side) == g.saldo.On(side) + Column(groups, side)
  {
    var after := Insert(g, groups, GroupRank);
    if groups != [] && !AtMost(GroupRank(g), GroupRank(groups[0])) {
      ColumnInsert(g, groups[1..], side);
      assert after[1..] == Insert(g, groups[1..], GroupRank);
    } else {
      assert after[1..] == groups;
    }
  }

  lemma {:induction false} ColumnSort(groups: seq<ReportGroup>, side: Side)
    ensures Column(Sort(groups, GroupRank), side) == Column(groups, side)
  {
    if groups != [] {
      ColumnSort(groups[1..], side);
      ColumnInsert(groups[0], Sort(groups[1..], GroupRank), side);
    }
  }

  lemma {:induction false} ColumnIsSaldos(groups: seq<Group>, side: Side)
    ensures Column(ReportedAll(groups), side) == Saldos(groups, side)
  {
    if groups != [] {
      var k := |groups| - 1;
      ColumnIsSaldos(groups[..k], side);
      assert ReportedAll(groups) == ReportedAll(groups[..k]) + [Reported(groups[k])];
      ColumnConcat(ReportedAll(groups[..k]), [Reported(groups[k])], side);
      assert [Reported(groups[k])][1..] == [];
    }
  }

  /** The saldo columns of the groups add up to the totals under them. */
  lemma SaldoColumnsAddUp(rows: seq<BalanceNode>)
    ensures Column(TrialOf(rows).groups, Debit) == TrialOf(rows).debitBalances
    ensures Column(TrialOf(rows).groups, Credit) == TrialOf(rows).creditBalances
  {
    var groups := GroupsOf(rows, Parents(rows));
    ColumnSort(ReportedAll(groups), Debit);
    ColumnSort(ReportedAll(groups), Credit);
    ColumnIsSaldos(groups, Debit);
    ColumnIsSaldos(groups, Credit);
  }

  /** A trial balance balances twice: total debits equal total credits, both equal to the turnover of the journal over
      the window, and the saldos deudores of the colectivas add up to their saldos acreedores. */
  lemma TrialBalances(b: Books, c: Context)
    requires JournalOk(b)
    ensures var t := TrialOf(RowsOf(b, c));
            && t.grandDebit == Turnover(LinesIn(b.entries, Computed(c)), Debit, Everything())
            && t.grandDebit == t.grandCredit
            && t.debitBalances == t.creditBalances
            && SubtotalSum(RowsOf(b, c), Parents(RowsOf(b, c)), Debit) == t.grandDebit
  {
    var rows := RowsOf(b, c);
    var lines := LinesIn(b.entries, Computed(c));
    LinesOwned(b, Computed(c));
    RowsTotal(b, c, Debit);
    RowsTotal(b, c, Credit);
    EntriesBalance(b.entries, Computed(c));
    SubtotalsAddUp(rows, Debit);
    SubtotalsAddUp(rows, Credit);
    SaldosDiffer(rows, Parents(rows));
  }

  lemma RowsTotal(b: Books, c: Context, side: Side)
    requires JournalOk(b)
    ensures Sum(RowsOf(b, c), side, AnyRef()) == Turnover(LinesIn(b.entries, Computed(c)), side, Everything())
  {
    var lines := LinesIn(b.entries, Computed(c));
    LinesOwned(b, Computed(c));
    ByCodeOnce(b.accounts);
    NodesForSums(ByCode(b.accounts), b.accounts, lines, side, AnyRef());
    SumIdsIsTurnover(ByCode(b.accounts), b.accounts, lines, side, AnyRef());
    SameTurnover(lines, side, Seen(b.accounts, AnyRef()), Everything());
  }
}
